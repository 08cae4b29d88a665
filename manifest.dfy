/**
 * The `package.json` manifest written for a new package, and the GitHub
 * addresses derived from the configured user and the package name.
 */
module Manifest {

  import Config

  datatype Repository = Repository(kind: string, url: string)

  datatype Scripts = Scripts(
    build: string,
    test: string,
    dev: string,
    ci: string,
    format: string,
    checkFormat: string,
    changeset: string,
    release: string,
    prepublishOnly: string)

  /** The manifest object, field by field in the order it is written. */
  datatype PackageJson = PackageJson(
    name: string,
    version: string,
    description: string,
    keywords: seq<string>,
    homepage: string,
    bugsUrl: string,
    author: string,
    repository: Repository,
    files: seq<string>,
    moduleType: string,
    main: string,
    types: string,
    scripts: Scripts,
    license: string)

  /** `https://github.com/<user>/<name>`. */
  function GitHubUrl(user: string, name: string): string {
    "https://github.com/" + user + "/" + name
  }

  /** The address added as the `origin` remote: the repository page plus `.git`, without `git+`. */
  function RemoteUrl(user: string, name: string): string {
    GitHubUrl(user, name) + ".git"
  }

  /** The manifest for package `name` under the configured author. */
  function CreatePackageJson(config: Config.TWSConfig, name: string): (m: PackageJson)
    ensures m.name == name && m.version == "1.0.0" && m.license == "MIT"
    ensures m.homepage == GitHubUrl(config.author.githubUsername, name)
    ensures m.bugsUrl == m.homepage + "/issues"
    ensures m.repository == Repository("git", "git+" + RemoteUrl(config.author.githubUsername, name))
    ensures m.author == config.author.name + " <" + config.author.email + "> (" + config.author.website + ")"
    ensures m.description == "A new npm package: " + name
  {
    var user := config.author.githubUsername;
    PackageJson(
      name,
      "1.0.0",
      "A new npm package: " + name,
      ["typescript", "package"],
      "https://github.com/" + user + "/" + name,
      "https://github.com/" + user + "/" + name + "/issues",
      config.author.name + " <" + config.author.email + "> (" + config.author.website + ")",
      Repository("git", "git+https://github.com/" + user + "/" + name + ".git"),
      ["dist"],
      "module",
      "dist/index.js",
      "dist/index.d.ts",
      Scripts(
        "tsc",
        "vitest run",
        "vitest",
        "npm run build && npm run test",
        "prettier --write .",
        "prettier --check .",
        "changeset",
        "changeset version",
        "npm run ci"),
      "MIT")
  }

  /**
   * The remote the git step adds is the manifest's repository address with its
   * `git+` prefix removed, and the bug tracker sits under the homepage.
   */
  lemma RemoteMatchesManifest(config: Config.TWSConfig, name: string)
    ensures var m := CreatePackageJson(config, name);
      |m.repository.url| >= 4 && m.repository.url[..4] == "git+" &&
      m.repository.url[4..] == RemoteUrl(config.author.githubUsername, name) &&
      m.repository.url[4..] == m.homepage + ".git"
  {
    var m := CreatePackageJson(config, name);
    assert m.repository.url == "git+" + RemoteUrl(config.author.githubUsername, name);
  }

  /** Under one user, the homepage determines the package: different names give different repositories. */
  lemma HomepageDeterminesName(user: string, n1: string, n2: string)
    requires GitHubUrl(user, n1) == GitHubUrl(user, n2)
    ensures n1 == n2
  {
    var prefix := "https://github.com/" + user + "/";
    assert GitHubUrl(user, n1) == prefix + n1 && GitHubUrl(user, n2) == prefix + n2;
    assert n1 == (prefix + n1)[|prefix|..];
    assert n2 == (prefix + n2)[|prefix|..];
  }
}
