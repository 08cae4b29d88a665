/**
 * Pulling the authentication files of the Remix indie stack into the current
 * project: the table of files, where each one is fetched from and written to,
 * and the one rewrite applied to its text on the way.
 */
module Indie {

  import opened Wrappers
  import opened Text
  import opened Effects

  const BaseUrl := "https://raw.githubusercontent.com/remix-run/indie-stack/refs/heads/main/"
  const NodeImport := "@remix-run/node"
  const ReactImport := "@remix-run/react"
  const Replacement := "react-router"

  /** One file to copy: its name, its folder in the stack, and the directory it is written into. */
  datatype FileMeta = FileMeta(name: string, src: string, dist: string)

  function TargetApp(cwd: string): string {
    cwd + "/app/"
  }

  /** `FILES`, for the working directory `cwd` of the process. */
  function Files(cwd: string): seq<FileMeta> {
    var app := TargetApp(cwd);
    [ FileMeta("session.server.ts", "app/", app),
      FileMeta("db.server.ts", "app/", app),
      FileMeta("singleton.server.ts", "app/", app),
      FileMeta("utils.ts", "app/", app),
      FileMeta("user.server.ts", "models/", app + "/models/"),
      FileMeta("schema.prisma", "prisma/", cwd + "/prisma/schema.prisma"),
      FileMeta("seed.ts", "prisma/", cwd + "/prisma/seed.ts"),
      FileMeta(".env.example", "", cwd) ]
  }

  /** The table with the two `prisma/` entries pointing at the `prisma` directory itself. */
  function CorrectedFiles(cwd: string): seq<FileMeta> {
    var app := TargetApp(cwd);
    [ FileMeta("session.server.ts", "app/", app),
      FileMeta("db.server.ts", "app/", app),
      FileMeta("singleton.server.ts", "app/", app),
      FileMeta("utils.ts", "app/", app),
      FileMeta("user.server.ts", "models/", app + "/models/"),
      FileMeta("schema.prisma", "prisma/", cwd + "/prisma"),
      FileMeta("seed.ts", "prisma/", cwd + "/prisma"),
      FileMeta(".env.example", "", cwd) ]
  }

  /** `${base}${src}${name}`. */
  function FetchUrl(base: string, f: FileMeta): string {
    base + f.src + f.name
  }

  /** `${dist}/${name}`. */
  function Destination(f: FileMeta): string {
    f.dist + "/" + f.name
  }

  predicate EndsWith(s: string, t: string) {
    |t| <= |s| && s[|s| - |t|..] == t
  }

  /** The directory `ensureDir` creates for the file carries the file's own name. */
  predicate NamesItsDirectory(f: FileMeta) {
    EndsWith(f.dist, "/" + f.name)
  }

  /** `/\@remix\-run\/(node|react)/` matches at index `i`. */
  predicate MatchesAt(s: string, i: int) {
    OccursAt(s, NodeImport, i) || OccursAt(s, ReactImport, i)
  }

  /** The length of the match at `i`: the alternatives are tried left to right. */
  function MatchLength(s: string, i: int): nat {
    if OccursAt(s, NodeImport, i) then |NodeImport| else |ReactImport|
  }

  /** The leftmost index at or after `from` where the pattern matches. */
  function FirstMatch(s: string, from: nat): (r: Option<nat>)
    ensures r.Some? ==> from <= r.value <= |s| && MatchesAt(s, r.value)
    ensures r.Some? ==> forall j | from <= j < r.value :: !MatchesAt(s, j)
    ensures r.None? ==> forall j | from <= j :: !MatchesAt(s, j)
    decreases |s| - from
  {
    if from > |s| then None
    else if MatchesAt(s, from) then Some(from)
    else FirstMatch(s, from + 1)
  }

  /** `editText`: `replace` with a regular expression without the `g` flag, so at most the leftmost match changes. */
  function EditText(s: string): string {
    match FirstMatch(s, 0)
    case None => s
    case Some(i) => s[..i] + Replacement + s[i + MatchLength(s, i)..]
  }

  /** The two alternatives never match at the same index: they differ in their twelfth character. */
  lemma AlternativesExclusive(s: string, i: int)
    requires OccursAt(s, ReactImport, i)
    ensures !OccursAt(s, NodeImport, i)
  {
    assert s[i + 11] == s[i..i + |ReactImport|][11] == 'r';
    assert i + |NodeImport| <= |s| ==> s[i..i + |NodeImport|][11] == s[i + 11];
  }

  /**
   * The leftmost match is replaced by `react-router` and everything before and
   * after it is kept, later matches included.
   */
  lemma EditTextReplacesLeftmost(s: string, i: nat, p: string)
    requires p == NodeImport || p == ReactImport
    requires OccursAt(s, p, i)
    requires forall j | 0 <= j < i :: !MatchesAt(s, j)
    ensures EditText(s) == s[..i] + Replacement + s[i + |p|..]
  {
    var m := FirstMatch(s, 0);
    assert m.Some? && m.value == i by {
      if m.None? || m.value != i {
        assert MatchesAt(s, i);
      }
    }
    if p == ReactImport {
      AlternativesExclusive(s, i);
    }
  }

  /** A text with neither import path comes back unchanged. */
  lemma EditTextWithoutMatch(s: string)
    requires !Occurs(s, NodeImport) && !Occurs(s, ReactImport)
    ensures EditText(s) == s
  {
  }

  /** Only the first import changes: a text that starts with one keeps the rest as it is. */
  lemma EditTextKeepsLaterMatches(rest: string)
    ensures EditText(NodeImport + rest) == Replacement + rest
    ensures EditText(ReactImport + rest) == Replacement + rest
  {
    var a := NodeImport + rest;
    var b := ReactImport + rest;
    assert a[..|NodeImport|] == NodeImport && b[..|ReactImport|] == ReactImport;
    EditTextReplacesLeftmost(a, 0, NodeImport);
    EditTextReplacesLeftmost(b, 0, ReactImport);
    assert a[|NodeImport|..] == rest && b[|ReactImport|..] == rest;
  }

  /** The effects of `writeFile(meta, data)`: the directory, the empty file, then the rewritten text. */
  function WriteFileEffects(f: FileMeta, data: string): seq<Effect> {
    [EnsureDir(f.dist), EnsureFile(Destination(f)), WriteFile(Destination(f), Text(EditText(data)))]
  }

  /**
   * The concurrent `map` of `getAuth()` over a file table: for each entry, the
   * text fetched from its address (the network is the function `remote` from
   * address to text) written to its destination. One trace per entry.
   */
  function FetchAndWrite(files: seq<FileMeta>, remote: string -> string): (traces: seq<seq<Effect>>)
    ensures |traces| == |files|
  {
    seq(|files|, i requires 0 <= i < |files| => WriteFileEffects(files[i], remote(FetchUrl(BaseUrl, files[i]))))
  }

  /** `getAuth()` as written, over `FILES`. */
  function GetAuth(cwd: string, remote: string -> string): (traces: seq<seq<Effect>>)
    ensures |traces| == 8
  {
    FetchAndWrite(Files(cwd), remote)
  }

  /** `getAuth()` over the corrected table, with both prisma files in `prisma`. */
  function CorrectedGetAuth(cwd: string, remote: string -> string): (traces: seq<seq<Effect>>)
    ensures |traces| == 8
  {
    FetchAndWrite(CorrectedFiles(cwd), remote)
  }

  /** An entry of any table fetches its address and writes the edited text at its destination, after creating both. */
  lemma EntryWritesEditedText(files: seq<FileMeta>, remote: string -> string, i: nat)
    requires i < |files|
    ensures var f := files[i];
      var t := FetchAndWrite(files, remote)[i];
      && |t| == 3 && t[0] == EnsureDir(f.dist) && t[1] == EnsureFile(Destination(f))
      && t[2] == WriteFile(Destination(f), Text(EditText(remote(FetchUrl(BaseUrl, f)))))
  {
    var f := files[i];
    assert FetchAndWrite(files, remote)[i] == WriteFileEffects(f, remote(FetchUrl(BaseUrl, f)));
  }

  /** Each entry of `FILES` fetches its address and writes the edited text at `dist + '/' + name`. */
  lemma GetAuthWritesEditedText(cwd: string, remote: string -> string, i: nat)
    requires i < 8
    ensures var f := Files(cwd)[i];
      var t := GetAuth(cwd, remote)[i];
      && |t| == 3 && t[0] == EnsureDir(f.dist) && t[1] == EnsureFile(f.dist + "/" + f.name)
      && t[2] == WriteFile(f.dist + "/" + f.name, Text(EditText(remote(BaseUrl + f.src + f.name))))
  {
    EntryWritesEditedText(Files(cwd), remote, i);
  }

  lemma CoversBelow(root: string, dir: string, rel: string)
    requires Covers(root, dir) && |rel| > 0 && rel[0] == '/'
    ensures Covers(root, dir + rel)
  {
    if root == dir {
      CoversChild(root, rel);
    } else {
      assert (dir + rel)[..|root| + 1] == dir[..|root| + 1];
    }
  }

  /** A file written into a directory at or below `root` creates nothing outside `root`. */
  lemma WriteFileInside(f: FileMeta, data: string, root: string)
    requires Covers(root, f.dist)
    ensures Inside(WriteFileEffects(f, data), root)
  {
    CoversBelow(root, f.dist, "/" + f.name);
    assert Destination(f) == f.dist + ("/" + f.name);
  }

  /** Entries whose directories lie at or below `root` create nothing outside `root`. */
  lemma TracesInside(files: seq<FileMeta>, remote: string -> string, root: string)
    requires forall i | 0 <= i < |files| :: Covers(root, files[i].dist)
    ensures forall i | 0 <= i < |files| :: Inside(FetchAndWrite(files, remote)[i], root)
  {
    forall i | 0 <= i < |files| ensures Inside(FetchAndWrite(files, remote)[i], root) {
      WriteFileInside(files[i], remote(FetchUrl(BaseUrl, files[i])), root);
    }
  }

  /** Every directory and file an entry of `FILES` creates lies in the working directory, nested prisma directories included. */
  lemma GetAuthStaysInside(cwd: string, remote: string -> string)
    ensures forall i | 0 <= i < 8 :: Inside(GetAuth(cwd, remote)[i], cwd)
  {
    forall i | 0 <= i < 8 ensures Covers(cwd, Files(cwd)[i].dist) {
      DistInside(cwd, i);
    }
    TracesInside(Files(cwd), remote, cwd);
  }

  /** The corrected table stays in the working directory too. */
  lemma CorrectedGetAuthStaysInside(cwd: string, remote: string -> string)
    ensures forall i | 0 <= i < 8 :: Inside(CorrectedGetAuth(cwd, remote)[i], cwd)
  {
    forall i | 0 <= i < 8 ensures Covers(cwd, CorrectedFiles(cwd)[i].dist) {
      DistInside(cwd, i);
    }
    TracesInside(CorrectedFiles(cwd), remote, cwd);
  }

  /** Every directory of both tables is the working directory or lies below it. */
  lemma DistInside(cwd: string, i: nat)
    requires i < 8
    ensures Covers(cwd, Files(cwd)[i].dist) && Covers(cwd, CorrectedFiles(cwd)[i].dist)
  {
    var files := Files(cwd);
    var fixed := CorrectedFiles(cwd);
    if i < 7 {
      var rel := files[i].dist[|cwd|..];
      assert files[i].dist == cwd + rel && rel[0] == '/';
      CoversChild(cwd, rel);
      var rel' := fixed[i].dist[|cwd|..];
      assert fixed[i].dist == cwd + rel' && rel'[0] == '/';
      CoversChild(cwd, rel');
    }
  }

  /** The addresses fetched: the stack's folder and the name under the base address. */
  lemma FetchUrls(cwd: string)
    ensures var files := Files(cwd);
      && FetchUrl(BaseUrl, files[0]) == BaseUrl + "app/session.server.ts"
      && FetchUrl(BaseUrl, files[4]) == BaseUrl + "models/user.server.ts"
      && FetchUrl(BaseUrl, files[5]) == BaseUrl + "prisma/schema.prisma"
      && FetchUrl(BaseUrl, files[7]) == BaseUrl + ".env.example"
  {
  }

  lemma EndsWithAppend(a: string, b: string)
    ensures EndsWith(a + b, b)
  {
    assert (a + b)[|a + b| - |b|..] == b;
  }

  /** Two strings that differ `k` characters from their ends do not end alike. */
  lemma DiffersFromEnd(s: string, t: string, k: nat)
    requires k < |s| && k < |t| && s[|s| - 1 - k] != t[|t| - 1 - k]
    ensures !EndsWith(s, t)
  {
    if |t| <= |s| {
      assert s[|s| - |t|..][|t| - 1 - k] == s[|s| - 1 - k];
    }
  }

  /**
   * As written, the two `prisma/` entries carry their file name in `dist`, so
   * `ensureDir` makes directories called `schema.prisma` and `seed.ts`, and
   * the files land one level further down.
   */
  lemma PrismaFilesNestedAsWritten(cwd: string)
    ensures var files := Files(cwd);
      && NamesItsDirectory(files[5]) && NamesItsDirectory(files[6])
      && Destination(files[5]) == (cwd + "/prisma/schema.prisma") + "/schema.prisma"
      && Destination(files[6]) == (cwd + "/prisma/seed.ts") + "/seed.ts"
  {
    SchemaNested(cwd);
    SeedNested(cwd);
  }

  lemma SchemaNested(cwd: string)
    ensures var f := Files(cwd)[5];
      NamesItsDirectory(f) && Destination(f) == (cwd + "/prisma/schema.prisma") + "/schema.prisma"
  {
    var f := Files(cwd)[5];
    assert f == FileMeta("schema.prisma", "prisma/", cwd + "/prisma/schema.prisma");
    EndsWithAppend(cwd + "/prisma", "/schema.prisma");
    ConcatAssoc(cwd, "/prisma", "/schema.prisma");
    ConcatAssoc(f.dist, "/", "schema.prisma");
  }

  lemma SeedNested(cwd: string)
    ensures var f := Files(cwd)[6];
      NamesItsDirectory(f) && Destination(f) == (cwd + "/prisma/seed.ts") + "/seed.ts"
  {
    var f := Files(cwd)[6];
    assert f == FileMeta("seed.ts", "prisma/", cwd + "/prisma/seed.ts");
    EndsWithAppend(cwd + "/prisma", "/seed.ts");
    ConcatAssoc(cwd, "/prisma", "/seed.ts");
    ConcatAssoc(f.dist, "/", "seed.ts");
  }

  /**
   * The two tables have the same eight entries, names and stack folders, and
   * differ only in the two `prisma/` directories, which lose the file's name.
   */
  lemma CorrectionOnlyMovesPrisma(cwd: string)
    ensures |Files(cwd)| == 8 && |CorrectedFiles(cwd)| == 8
    ensures forall i | 0 <= i < 8 ::
      CorrectedFiles(cwd)[i].name == Files(cwd)[i].name && CorrectedFiles(cwd)[i].src == Files(cwd)[i].src
    ensures forall i | 0 <= i < 8 && i != 5 && i != 6 :: CorrectedFiles(cwd)[i] == Files(cwd)[i]
    ensures Files(cwd)[5].dist == CorrectedFiles(cwd)[5].dist + "/" + Files(cwd)[5].name
    ensures Files(cwd)[6].dist == CorrectedFiles(cwd)[6].dist + "/" + Files(cwd)[6].name
  {
    assert cwd + "/prisma/schema.prisma" == cwd + "/prisma" + "/" + "schema.prisma";
    assert cwd + "/prisma/seed.ts" == cwd + "/prisma" + "/" + "seed.ts";
  }

  /**
   * In the corrected table no entry's directory is named after its file (for
   * a working directory not itself called `.env.example`), and the two prisma
   * files land directly in `prisma`.
   */
  lemma CorrectedFilesNotNested(cwd: string)
    requires !EndsWith(cwd, "/.env.example")
    ensures forall i | 0 <= i < |CorrectedFiles(cwd)| :: !NamesItsDirectory(CorrectedFiles(cwd)[i])
    ensures Destination(CorrectedFiles(cwd)[5]) == (cwd + "/prisma") + "/schema.prisma"
    ensures Destination(CorrectedFiles(cwd)[6]) == (cwd + "/prisma") + "/seed.ts"
  {
    forall i | 0 <= i < |CorrectedFiles(cwd)| ensures !NamesItsDirectory(CorrectedFiles(cwd)[i]) {
      CorrectedEntryNotNested(cwd, i);
    }
  }

  lemma CorrectedEntryNotNested(cwd: string, i: nat)
    requires i < 8 && !EndsWith(cwd, "/.env.example")
    ensures !NamesItsDirectory(CorrectedFiles(cwd)[i])
  {
    if i < 5 {
      AppEntryNotNested(cwd, i);
    } else if i == 5 {
      PrismaEntryNotNested(cwd, 5, 6);
    } else if i == 6 {
      PrismaEntryNotNested(cwd, 6, 0);
    }
  }

  /** The app entries' directories end in `/`, their names do not. */
  lemma AppEntryNotNested(cwd: string, i: nat)
    requires i < 5
    ensures !NamesItsDirectory(CorrectedFiles(cwd)[i])
  {
    var f := CorrectedFiles(cwd)[i];
    assert f.dist[|f.dist| - 1] == '/' && f.name[|f.name| - 1] == 's';
    DiffersFromEnd(f.dist, "/" + f.name, 0);
  }

  /** `prisma` and `/schema.prisma` differ 7 characters from the end; `prisma` and `/seed.ts` at the last one. */
  lemma PrismaEntryNotNested(cwd: string, i: nat, k: nat)
    requires (i == 5 && k == 6) || (i == 6 && k == 0)
    ensures !NamesItsDirectory(CorrectedFiles(cwd)[i])
  {
    var f := CorrectedFiles(cwd)[i];
    var d := cwd + "/prisma";
    assert f.dist == d;
    assert d[|d| - 1 - k] == "/prisma"[6 - k];
    DiffersFromEnd(d, "/" + f.name, k);
  }

  /**
   * As written, `getAuth()` makes a directory called `schema.prisma` inside
   * `prisma` and writes the schema into it; the same for `seed.ts`.
   */
  lemma GetAuthNestsPrisma(cwd: string, remote: string -> string)
    ensures GetAuth(cwd, remote)[5] ==
      [EnsureDir(cwd + "/prisma/schema.prisma"),
       EnsureFile(cwd + "/prisma/schema.prisma/schema.prisma"),
       WriteFile(cwd + "/prisma/schema.prisma/schema.prisma", Text(EditText(remote(BaseUrl + "prisma/schema.prisma"))))]
    ensures GetAuth(cwd, remote)[6] ==
      [EnsureDir(cwd + "/prisma/seed.ts"),
       EnsureFile(cwd + "/prisma/seed.ts/seed.ts"),
       WriteFile(cwd + "/prisma/seed.ts/seed.ts", Text(EditText(remote(BaseUrl + "prisma/seed.ts"))))]
  {
    SchemaTraceAsWritten(cwd, remote);
    SeedTraceAsWritten(cwd, remote);
  }

  lemma SchemaTraceAsWritten(cwd: string, remote: string -> string)
    ensures GetAuth(cwd, remote)[5] ==
      [EnsureDir(cwd + "/prisma/schema.prisma"),
       EnsureFile(cwd + "/prisma/schema.prisma/schema.prisma"),
       WriteFile(cwd + "/prisma/schema.prisma/schema.prisma", Text(EditText(remote(BaseUrl + "prisma/schema.prisma"))))]
  {
    var f := Files(cwd)[5];
    assert f == FileMeta("schema.prisma", "prisma/", cwd + "/prisma/schema.prisma");
    EntryWritesEditedText(Files(cwd), remote, 5);
    ConcatAssoc(f.dist, "/", f.name);
    ConcatAssoc(cwd, "/prisma/schema.prisma", "/schema.prisma");
    SchemaLiterals();
    assert Destination(f) == cwd + "/prisma/schema.prisma/schema.prisma";
    ConcatAssoc(BaseUrl, f.src, f.name);
    assert FetchUrl(BaseUrl, f) == BaseUrl + "prisma/schema.prisma";
    assert GetAuth(cwd, remote)[5] == FetchAndWrite(Files(cwd), remote)[5];
  }

  lemma SeedTraceAsWritten(cwd: string, remote: string -> string)
    ensures GetAuth(cwd, remote)[6] ==
      [EnsureDir(cwd + "/prisma/seed.ts"),
       EnsureFile(cwd + "/prisma/seed.ts/seed.ts"),
       WriteFile(cwd + "/prisma/seed.ts/seed.ts", Text(EditText(remote(BaseUrl + "prisma/seed.ts"))))]
  {
    var f := Files(cwd)[6];
    assert f == FileMeta("seed.ts", "prisma/", cwd + "/prisma/seed.ts");
    EntryWritesEditedText(Files(cwd), remote, 6);
    ConcatAssoc(f.dist, "/", f.name);
    ConcatAssoc(cwd, "/prisma/seed.ts", "/seed.ts");
    assert "/" + f.name == "/seed.ts";
    assert "/prisma/seed.ts" + "/seed.ts" == "/prisma/seed.ts/seed.ts";
    assert Destination(f) == cwd + "/prisma/seed.ts/seed.ts";
    ConcatAssoc(BaseUrl, f.src, f.name);
    assert f.src + f.name == "prisma/seed.ts";
    assert FetchUrl(BaseUrl, f) == BaseUrl + "prisma/seed.ts";
    assert GetAuth(cwd, remote)[6] == FetchAndWrite(Files(cwd), remote)[6];
  }

  /** With the corrected table, both prisma files are written directly into `prisma`. */
  lemma CorrectedGetAuthWritesPrisma(cwd: string, remote: string -> string)
    ensures CorrectedGetAuth(cwd, remote)[5] ==
      [EnsureDir(cwd + "/prisma"),
       EnsureFile(cwd + "/prisma/schema.prisma"),
       WriteFile(cwd + "/prisma/schema.prisma", Text(EditText(remote(BaseUrl + "prisma/schema.prisma"))))]
    ensures CorrectedGetAuth(cwd, remote)[6] ==
      [EnsureDir(cwd + "/prisma"),
       EnsureFile(cwd + "/prisma/seed.ts"),
       WriteFile(cwd + "/prisma/seed.ts", Text(EditText(remote(BaseUrl + "prisma/seed.ts"))))]
  {
    CorrectedSchemaTrace(cwd, remote);
    CorrectedSeedTrace(cwd, remote);
  }

  lemma CorrectedSchemaTrace(cwd: string, remote: string -> string)
    ensures CorrectedGetAuth(cwd, remote)[5] ==
      [EnsureDir(cwd + "/prisma"),
       EnsureFile(cwd + "/prisma/schema.prisma"),
       WriteFile(cwd + "/prisma/schema.prisma", Text(EditText(remote(BaseUrl + "prisma/schema.prisma"))))]
  {
    var f := CorrectedFiles(cwd)[5];
    assert f == FileMeta("schema.prisma", "prisma/", cwd + "/prisma");
    EntryWritesEditedText(CorrectedFiles(cwd), remote, 5);
    ConcatAssoc(f.dist, "/", f.name);
    ConcatAssoc(cwd, "/prisma", "/schema.prisma");
    SchemaLiterals();
    assert Destination(f) == cwd + "/prisma/schema.prisma";
    ConcatAssoc(BaseUrl, f.src, f.name);
    assert FetchUrl(BaseUrl, f) == BaseUrl + "prisma/schema.prisma";
    assert CorrectedGetAuth(cwd, remote)[5] == FetchAndWrite(CorrectedFiles(cwd), remote)[5];
  }

  lemma CorrectedSeedTrace(cwd: string, remote: string -> string)
    ensures CorrectedGetAuth(cwd, remote)[6] ==
      [EnsureDir(cwd + "/prisma"),
       EnsureFile(cwd + "/prisma/seed.ts"),
       WriteFile(cwd + "/prisma/seed.ts", Text(EditText(remote(BaseUrl + "prisma/seed.ts"))))]
  {
    var f := CorrectedFiles(cwd)[6];
    assert f == FileMeta("seed.ts", "prisma/", cwd + "/prisma");
    EntryWritesEditedText(CorrectedFiles(cwd), remote, 6);
    ConcatAssoc(f.dist, "/", f.name);
    ConcatAssoc(cwd, "/prisma", "/seed.ts");
    assert "/" + f.name == "/seed.ts";
    assert "/prisma" + "/seed.ts" == "/prisma/seed.ts";
    assert Destination(f) == cwd + "/prisma/seed.ts";
    ConcatAssoc(BaseUrl, f.src, f.name);
    assert f.src + f.name == "prisma/seed.ts";
    assert FetchUrl(BaseUrl, f) == BaseUrl + "prisma/seed.ts";
    assert CorrectedGetAuth(cwd, remote)[6] == FetchAndWrite(CorrectedFiles(cwd), remote)[6];
  }

  lemma SchemaLiterals()
    ensures "/" + "schema.prisma" == "/schema.prisma"
    ensures "/prisma/schema.prisma" + "/schema.prisma" == "/prisma/schema.prisma/schema.prisma"
    ensures "/prisma" + "/schema.prisma" == "/prisma/schema.prisma"
    ensures "prisma/" + "schema.prisma" == "prisma/schema.prisma"
  {
  }
}
