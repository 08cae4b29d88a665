/**
 * The scaffolder's settings: author identity, the root under which packages are
 * created and the static-site template, each read from one environment
 * variable with a hard-coded fallback.
 */
module Config {

  import opened Wrappers

  /** The process environment, variable name to value; a missing name is an unset variable. */
  type Env = map<string, string>

  datatype Author = Author(name: string, email: string, website: string, githubUsername: string)
  datatype PathSettings = PathSettings(repositoriesRoot: string)
  datatype TemplateSettings = TemplateSettings(staticTemplate: string)
  datatype TWSConfig = TWSConfig(author: Author, paths: PathSettings, templates: TemplateSettings)

  const AuthorNameVar := "TWS_AUTHOR_NAME"
  const AuthorEmailVar := "TWS_AUTHOR_EMAIL"
  const AuthorWebsiteVar := "TWS_AUTHOR_WEBSITE"
  const GithubUsernameVar := "TWS_GITHUB_USERNAME"
  const ReposRootVar := "TWS_REPOS_ROOT"
  const StaticTemplateVar := "TWS_STATIC_TEMPLATE"

  /** The six variables the configuration reads. */
  const Variables: set<string> :=
    {AuthorNameVar, AuthorEmailVar, AuthorWebsiteVar, GithubUsernameVar, ReposRootVar, StaticTemplateVar}

  /**
   * `env.get(key) || fallback`: the variable's value when it is set to a
   * non-empty string; the fallback when it is unset or empty.
   */
  function EnvOr(env: Env, key: string, fallback: string): (r: string)
    ensures key in env && env[key] != "" ==> r == env[key]
    ensures key !in env || env[key] == "" ==> r == fallback
  {
    match Lookup(env, key)
    case Some(v) => if v == "" then fallback else v
    case None => fallback
  }

  /** `Deno.env.get(key)`. */
  function Lookup(env: Env, key: string): Option<string> {
    if key in env then Some(env[key]) else None
  }

  /** `defaultConfig`, built from the environment the process was started with. */
  function DefaultConfig(env: Env): TWSConfig {
    TWSConfig(
      Author(
        EnvOr(env, AuthorNameVar, "Seth Davis"),
        EnvOr(env, AuthorEmailVar, "techwithseth512@gmail.com"),
        EnvOr(env, AuthorWebsiteVar, "https://sethdavis.tech"),
        EnvOr(env, GithubUsernameVar, "sethdavis512")),
      PathSettings(EnvOr(env, ReposRootVar, "/Users/seth/repositories")),
      TemplateSettings(EnvOr(env, StaticTemplateVar, "/Users/seth/repositories/tws-static")))
  }

  /** Every field of the default configuration is its fallback when no variable is set. */
  lemma EmptyEnvironmentGivesDefaults()
    ensures DefaultConfig(map[]) ==
      TWSConfig(
        Author("Seth Davis", "techwithseth512@gmail.com", "https://sethdavis.tech", "sethdavis512"),
        PathSettings("/Users/seth/repositories"),
        TemplateSettings("/Users/seth/repositories/tws-static"))
  {
  }

  /** Variables other than the six are never read. */
  lemma OtherVariablesIgnored(env: Env, key: string, value: string)
    requires key !in Variables
    ensures DefaultConfig(env[key := value]) == DefaultConfig(env)
  {
  }

  /**
   * Each field reads its own variable and no other: two environments that agree
   * on that one variable give that field the same value, whatever else differs.
   */
  lemma EachFieldReadsItsOwnVariable(e1: Env, e2: Env)
    ensures Lookup(e1, AuthorNameVar) == Lookup(e2, AuthorNameVar) ==>
      DefaultConfig(e1).author.name == DefaultConfig(e2).author.name
    ensures Lookup(e1, AuthorEmailVar) == Lookup(e2, AuthorEmailVar) ==>
      DefaultConfig(e1).author.email == DefaultConfig(e2).author.email
    ensures Lookup(e1, AuthorWebsiteVar) == Lookup(e2, AuthorWebsiteVar) ==>
      DefaultConfig(e1).author.website == DefaultConfig(e2).author.website
    ensures Lookup(e1, GithubUsernameVar) == Lookup(e2, GithubUsernameVar) ==>
      DefaultConfig(e1).author.githubUsername == DefaultConfig(e2).author.githubUsername
    ensures Lookup(e1, ReposRootVar) == Lookup(e2, ReposRootVar) ==>
      DefaultConfig(e1).paths == DefaultConfig(e2).paths
    ensures Lookup(e1, StaticTemplateVar) == Lookup(e2, StaticTemplateVar) ==>
      DefaultConfig(e1).templates == DefaultConfig(e2).templates
  {
  }

  /** An empty value falls back to the default, exactly as an unset variable does. */
  lemma EmptyValueFallsBack(env: Env, key: string)
    ensures DefaultConfig(env[key := ""]) == DefaultConfig(env - {key})
  {
  }
}
