/**
 * The template processor: `{{KEY}}` placeholders replaced by values, one entry
 * of the variable record at a time, in the record's own order.
 */
module Templates {

  import opened Text
  import Config

  /** `{{key}}`. */
  function Placeholder(key: string): string {
    "{{" + key + "}}"
  }

  /** A key without braces. Every key the scaffolder and its tests use is one. */
  predicate PlainKey(key: string) {
    forall i | 0 <= i < |key| :: key[i] != '{' && key[i] != '}'
  }

  predicate PlainKeys(vars: seq<(string, string)>) {
    forall i | 0 <= i < |vars| :: PlainKey(vars[i].0)
  }

  predicate HasKey(vars: seq<(string, string)>, key: string) {
    exists i | 0 <= i < |vars| :: vars[i].0 == key
  }

  /**
   * No value holds `$`. JavaScript's `replaceAll` reads `$$`, `$&`, `` $` `` and
   * `$'` in a replacement string as patterns; without `$` it inserts the value
   * literally.
   */
  predicate DollarFree(vars: seq<(string, string)>) {
    forall i | 0 <= i < |vars| :: '$' !in vars[i].1
  }

  /**
   * What the loop of `processTemplate` computes: a left fold over the entries,
   * each `replaceAll` (replacement patterns and all) applied to the string the
   * previous entries produced.
   */
  function Fill(t: string, vars: seq<(string, string)>): string
    decreases |vars|
  {
    if vars == [] then t
    else Fill(StringReplaceAll(t, Placeholder(vars[0].0), vars[0].1), vars[1..])
  }

  /**
   * The same fold with every value inserted literally. The properties of
   * substitution below are stated for it, and carry over to Fill for values
   * without `$`.
   */
  function Render(t: string, vars: seq<(string, string)>): string
    decreases |vars|
  {
    if vars == [] then t
    else Render(ReplaceAll(t, Placeholder(vars[0].0), vars[0].1), vars[1..])
  }

  /** With values free of `$`, the template is filled by inserting the values literally. */
  lemma {:induction false} FillIsRender(t: string, vars: seq<(string, string)>)
    requires DollarFree(vars)
    ensures Fill(t, vars) == Render(t, vars)
    decreases |vars|
  {
    if vars != [] {
      StringReplaceAllOfPlainValue(t, Placeholder(vars[0].0), vars[0].1);
      assert DollarFree(vars[1..]) by {
        forall i | 0 <= i < |vars[1..]| ensures '$' !in vars[1..][i].1 {
          assert vars[1..][i] == vars[i + 1];
        }
      }
      FillIsRender(ReplaceAll(t, Placeholder(vars[0].0), vars[0].1), vars[1..]);
    }
  }

  /** A value holding `$&` puts the placeholder itself back, where a literal insertion would not. */
  lemma MatchPatternInValue()
    ensures Fill("{{AUTHOR_NAME}}", [("AUTHOR_NAME", "$&")]) == "{{AUTHOR_NAME}}"
    ensures Render("{{AUTHOR_NAME}}", [("AUTHOR_NAME", "$&")]) == "$&"
  {
    var p := Placeholder("AUTHOR_NAME");
    assert p == "{{AUTHOR_NAME}}";
    assert p[..|p|] == p && p[|p|..] == [];
    assert StringReplaceAll(p, p, "$&") == Substitution("$&", [], p, []) + ReplaceAllFrom(p, [], p, "$&");
    assert ReplaceAll(p[|p|..], p, "$&") == [];
  }

  /** The `for` loop of `processTemplate` over the entries, after the file is read. */
  method Substitute(content: string, vars: seq<(string, string)>) returns (processed: string)
    ensures processed == Fill(content, vars)
  {
    processed := content;
    for i := 0 to |vars|
      invariant Fill(processed, vars[i..]) == Fill(content, vars)
    {
      var (key, value) := vars[i];
      var placeholder := Placeholder(key);
      assert vars[i..][1..] == vars[i + 1..];
      processed := StringReplaceAll(processed, placeholder, value);
    }
  }

  /** Where a placeholder of a plain key sits, braces appear only in its delimiters. */
  lemma BracesOfPlaceholder(s: string, key: string, m: int)
    requires PlainKey(key) && OccursAt(s, Placeholder(key), m)
    ensures forall x | m <= x < m + |key| + 4 :: (s[x] == '{' <==> x < m + 2)
    ensures forall x | m <= x < m + |key| + 4 :: (s[x] == '}' <==> x >= m + |key| + 2)
  {
    var p := Placeholder(key);
    assert forall t | 0 <= t < |p| :: s[m + t] == p[t];
    assert forall t | 2 <= t < |key| + 2 :: p[t] == key[t - 2];
  }

  /**
   * Two placeholders of plain keys never overlap: an occurrence of one that
   * touches an occurrence of the other starts at the same index and is the
   * same placeholder.
   */
  lemma PlaceholdersDoNotOverlap(s: string, j: string, k: string, a: int, m: int)
    requires PlainKey(j) && PlainKey(k)
    requires OccursAt(s, Placeholder(k), a) && OccursAt(s, Placeholder(j), m)
    requires m < a + |k| + 4 && a < m + |j| + 4
    ensures a == m && j == k
  {
    BracesOfPlaceholder(s, k, a);
    BracesOfPlaceholder(s, j, m);
    assert s[a] == '{' && s[a + 1] == '{' && s[m] == '{' && s[m + 1] == '{';
    assert a == m;
    assert s[m + |j| + 2] == '}' && s[m + |k| + 2] == '}';
    assert |j| == |k|;
    var pj, pk := Placeholder(j), Placeholder(k);
    assert pj == s[m..m + |pj|] == pk;
    assert j == pj[2..|pj| - 2] && k == pk[2..|pk| - 2];
  }

  lemma OccursInPrefix(s: string, n: nat, p: string, i: int)
    requires n <= |s| && OccursAt(s[..n], p, i)
    ensures OccursAt(s, p, i)
  {
    assert s[..n][i..i + |p|] == s[i..i + |p|];
  }

  /**
   * Replacing the placeholder of `j` in a text that holds the placeholder of
   * `k`: the text on either side is processed on its own; the placeholder of
   * `k` becomes the value when `j` is `k` (the value is not rescanned) and is
   * kept verbatim otherwise.
   */
  lemma ReplaceAllAroundPlaceholder(x: string, y: string, j: string, k: string, v: string)
    requires PlainKey(j) && PlainKey(k)
    ensures ReplaceAll(x + Placeholder(k) + y, Placeholder(j), v) ==
      ReplaceAll(x, Placeholder(j), v) + (if j == k then v else Placeholder(k)) + ReplaceAll(y, Placeholder(j), v)
  {
    var pj, pk := Placeholder(j), Placeholder(k);
    var s := x + pk + y;
    assert s[|x|..|x| + |pk|] == pk;
    assert OccursAt(s, pk, |x|);
    forall i | |x + pk| - |pj| < i < |x + pk| ensures !OccursAt((x + pk) + y, pj, i) {
      if OccursAt(s, pj, i) {
        PlaceholdersDoNotOverlap(s, j, k, |x|, i);
      }
    }
    ReplaceAllConcat(x + pk, y, pj, v);
    assert (x + pk)[|x|..] == pk;
    assert OccursAt(x + pk, pk, |x|);
    forall i | |x| - |pj| < i < |x| ensures !OccursAt(x + pk, pj, i) {
      if OccursAt(x + pk, pj, i) {
        PlaceholdersDoNotOverlap(x + pk, j, k, |x|, i);
      }
    }
    ReplaceAllConcat(x, pk, pj, v);
    if j == k {
      assert pk[|pj|..] == [];
    } else {
      assert OccursAt(pk, pk, 0);
      forall i | 0 <= i <= |pk| - |pj| && OccursAt(pk, pj, i) ensures false {
        PlaceholdersDoNotOverlap(pk, j, k, 0, i);
      }
      ReplaceAllAbsent(pk, pj, v);
    }
  }

  /** The fold over a concatenation of entry lists is the fold over one, then the other. */
  lemma {:induction false} RenderAppend(t: string, a: seq<(string, string)>, b: seq<(string, string)>)
    ensures Render(t, a + b) == Render(Render(t, a), b)
    decreases |a|
  {
    if a == [] {
      assert a + b == b;
    } else {
      assert (a + b)[1..] == a[1..] + b;
      RenderAppend(ReplaceAll(t, Placeholder(a[0].0), a[0].1), a[1..], b);
    }
  }

  /** A template holding no placeholder of any key comes back unchanged. */
  lemma {:induction false} RenderWithoutPlaceholders(t: string, vars: seq<(string, string)>)
    requires forall i | 0 <= i < |vars| :: !Occurs(t, Placeholder(vars[i].0))
    ensures Render(t, vars) == t
    decreases |vars|
  {
    if vars != [] {
      ReplaceAllAbsent(t, Placeholder(vars[0].0), vars[0].1);
      assert forall i | 0 <= i < |vars[1..]| :: vars[1..][i] == vars[i + 1];
      RenderWithoutPlaceholders(t, vars[1..]);
    }
  }

  /** Text without `{` holds no placeholder. */
  lemma NoBraceNoPlaceholder(t: string, key: string)
    requires '{' !in t
    ensures !Occurs(t, Placeholder(key))
  {
    forall m | 0 <= m <= |t| - |Placeholder(key)| ensures !OccursAt(t, Placeholder(key), m) {
      assert Placeholder(key)[0] == '{';
    }
  }

  /** Text without `{` is never touched by substitution. */
  lemma RenderBraceFree(t: string, vars: seq<(string, string)>)
    requires '{' !in t
    ensures Render(t, vars) == t
  {
    forall i | 0 <= i < |vars| ensures !Occurs(t, Placeholder(vars[i].0)) {
      NoBraceNoPlaceholder(t, vars[i].0);
    }
    RenderWithoutPlaceholders(t, vars);
  }

  /**
   * A placeholder whose name is not a key stays verbatim in the output, and the
   * text on either side of it is processed as if it stood alone.
   */
  lemma {:induction false} RenderKeepsUnknownPlaceholder(x: string, k: string, y: string, vars: seq<(string, string)>)
    requires PlainKey(k) && PlainKeys(vars) && !HasKey(vars, k)
    ensures Render(x + Placeholder(k) + y, vars) == Render(x, vars) + Placeholder(k) + Render(y, vars)
    decreases |vars|
  {
    if vars != [] {
      var (j, v) := vars[0];
      assert j != k;
      ReplaceAllAroundPlaceholder(x, y, j, k, v);
      assert forall i | 0 <= i < |vars[1..]| :: vars[1..][i] == vars[i + 1];
      RenderKeepsUnknownPlaceholder(ReplaceAll(x, Placeholder(j), v), k, ReplaceAll(y, Placeholder(j), v), vars[1..]);
    }
  }

  /**
   * How far substitution is not recursive. A value inserted for a key is not
   * rescanned for that key, but a later entry still rewrites it: with entries
   * `k1 -> {{k2}}` then `k2 -> w`, the template `{{k1}}` becomes `w`; with the
   * two entries in the other order it becomes `{{k2}}`. The order of the entries
   * therefore matters.
   */
  lemma LaterEntryRewritesEarlierValue(k1: string, k2: string, w: string)
    requires PlainKey(k1) && PlainKey(k2) && k1 != k2
    ensures Render(Placeholder(k1), [(k1, Placeholder(k2)), (k2, w)]) == w
    ensures Render(Placeholder(k1), [(k2, w), (k1, Placeholder(k2))]) == Placeholder(k2)
    ensures ReplaceAll(Placeholder(k1), Placeholder(k1), Placeholder(k1) + Placeholder(k1)) ==
      Placeholder(k1) + Placeholder(k1)
  {
    var p1, p2 := Placeholder(k1), Placeholder(k2);
    assert "" + p1 + "" == p1;
    assert "" + p2 + "" == p2;
    ReplaceAllAroundPlaceholder("", "", k1, k1, p2);
    ReplaceAllAroundPlaceholder("", "", k2, k2, w);
    assert Render(p1, [(k1, p2), (k2, w)]) == Render(p2, [(k2, w)]);
    assert Render(p2, [(k2, w)]) == Render(w, []);
    ReplaceAllAroundPlaceholder("", "", k2, k1, w);
    assert Render(p1, [(k2, w), (k1, p2)]) == Render(p1, [(k1, p2)]);
    assert Render(p1, [(k1, p2)]) == Render(p2, []);
    ReplaceAllAroundPlaceholder("", "", k1, k1, p1 + p1);
  }

  /** The variables a package's templates are rendered with. */
  datatype TemplateVars = TemplateVars(
    packageName: string,
    authorName: string,
    authorEmail: string,
    authorWebsite: string,
    githubUsername: string,
    year: string)

  /** `Object.entries(vars)`: the six fields in declaration order. */
  function Entries(v: TemplateVars): seq<(string, string)> {
    [("PACKAGE_NAME", v.packageName),
     ("AUTHOR_NAME", v.authorName),
     ("AUTHOR_EMAIL", v.authorEmail),
     ("AUTHOR_WEBSITE", v.authorWebsite),
     ("GITHUB_USERNAME", v.githubUsername),
     ("YEAR", v.year)]
  }

  /**
   * `createTemplateVars(packageName)`, with the configuration and the clock's
   * year passed in: the name as given, the author fields from the
   * configuration, the year as its decimal digits.
   */
  function CreateTemplateVars(config: Config.TWSConfig, packageName: string, year: nat): (v: TemplateVars)
    ensures v.packageName == packageName
    ensures v.authorName == config.author.name && v.authorEmail == config.author.email
    ensures v.authorWebsite == config.author.website && v.githubUsername == config.author.githubUsername
    ensures IsDecimal(v.year) && DecimalValue(v.year) == year
  {
    TemplateVars(
      packageName,
      config.author.name,
      config.author.email,
      config.author.website,
      config.author.githubUsername,
      NatToString(year))
  }

  /** A year between 1000 and 9999 is written with four digits. */
  lemma FourDigitYear(config: Config.TWSConfig, packageName: string, year: nat)
    requires 1000 <= year <= 9999
    ensures |CreateTemplateVars(config, packageName, year).year| == 4
  {
    assert Pow10(3) == 1000 && Pow10(4) == 10000;
    DecimalLength(year, 4);
  }

  /** A template of brace-free text around two placeholders of keys that are not in the entries comes back unchanged. */
  lemma RenderKeepsTwoUnknown(a: string, k1: string, b: string, k2: string, c: string, vars: seq<(string, string)>)
    requires '{' !in a && '{' !in b && '{' !in c
    requires PlainKey(k1) && PlainKey(k2) && PlainKeys(vars) && !HasKey(vars, k1) && !HasKey(vars, k2)
    ensures Render(a + Placeholder(k1) + b + Placeholder(k2) + c, vars) == a + Placeholder(k1) + b + Placeholder(k2) + c
  {
    var tail := b + Placeholder(k2) + c;
    assert a + Placeholder(k1) + b + Placeholder(k2) + c == a + Placeholder(k1) + tail;
    RenderKeepsUnknownPlaceholder(a, k1, tail, vars);
    RenderKeepsUnknownPlaceholder(b, k2, c, vars);
    RenderBraceFree(a, vars);
    RenderBraceFree(b, vars);
    RenderBraceFree(c, vars);
  }

  /** The fold over two entries is two replacements in turn. */
  lemma RenderTwo(t: string, e1: (string, string), e2: (string, string))
    ensures Render(t, [e1, e2]) == ReplaceAll(ReplaceAll(t, Placeholder(e1.0), e1.1), Placeholder(e2.0), e2.1)
  {
    var once := ReplaceAll(t, Placeholder(e1.0), e1.1);
    assert [e1, e2][1..] == [e2];
    assert Render(t, [e1, e2]) == Render(once, [e2]);
    assert [e2][1..] == [];
    assert Render(once, [e2]) == Render(ReplaceAll(once, Placeholder(e2.0), e2.1), []);
  }

  /** The first placeholder of a key, after brace-free text, is filled; the rest is processed on its own. */
  lemma FillFirst(x: string, k: string, y: string, v: string)
    requires '{' !in x && PlainKey(k)
    ensures ReplaceAll(x + (Placeholder(k) + y), Placeholder(k), v) == x + (v + ReplaceAll(y, Placeholder(k), v))
  {
    var p := Placeholder(k);
    ConcatAssoc(x, p, y);
    ReplaceAllAroundPlaceholder(x, y, k, k, v);
    NoBraceNoPlaceholder(x, k);
    ReplaceAllAbsent(x, p, v);
  }

  /** A placeholder of another key, after brace-free text, is kept; the rest is processed on its own. */
  lemma SkipOther(x: string, k: string, y: string, j: string, v: string)
    requires '{' !in x && PlainKey(k) && PlainKey(j) && j != k
    ensures ReplaceAll(x + (Placeholder(k) + y), Placeholder(j), v) == x + (Placeholder(k) + ReplaceAll(y, Placeholder(j), v))
  {
    ConcatAssoc(x, Placeholder(k), y);
    ReplaceAllAroundPlaceholder(x, y, j, k, v);
    NoBraceNoPlaceholder(x, j);
    ReplaceAllAbsent(x, Placeholder(j), v);
  }

  /** Brace-free text is kept by any replacement of a placeholder. */
  lemma KeepBraceFree(x: string, k: string, v: string)
    requires '{' !in x
    ensures ReplaceAll(x, Placeholder(k), v) == x
  {
    NoBraceNoPlaceholder(x, k);
    ReplaceAllAbsent(x, Placeholder(k), v);
  }

  /** Two entries for the two placeholders of a template put their brace-free values in place. */
  lemma RenderFillsTwo(a: string, k1: string, b: string, k2: string, c: string, v1: string, v2: string)
    requires '{' !in a && '{' !in b && '{' !in c && '{' !in v1
    requires PlainKey(k1) && PlainKey(k2) && k1 != k2
    ensures Render(a + Placeholder(k1) + b + Placeholder(k2) + c, [(k1, v1), (k2, v2)]) == a + v1 + b + v2 + c
  {
    var p1, p2 := Placeholder(k1), Placeholder(k2);
    var t := a + (p1 + (b + (p2 + c)));
    ConcatAssoc(a + p1 + b, p2, c);
    ConcatAssoc(a + p1, b, p2 + c);
    ConcatAssoc(a, p1, b + (p2 + c));
    RenderTwo(t, (k1, v1), (k2, v2));
    KeepBraceFree(c, k1, v1);
    SkipOther(b, k2, c, k1, v1);
    FillFirst(a, k1, b + (p2 + c), v1);
    var front := a + (v1 + b);
    ConcatAssoc(v1, b, p2 + c);
    ConcatAssoc(a, v1 + b, p2 + c);
    KeepBraceFree(c, k2, v2);
    FillFirst(front, k2, c, v2);
    ConcatAssoc(a, v1, b);
    ConcatAssoc(a + v1 + b, v2, c);
  }

  /** The six declared keys are plain, and a plain key other than these six is not among them. */
  lemma DeclaredKeys(v: TemplateVars)
    ensures PlainKeys(Entries(v))
    ensures forall k | k !in DeclaredKeyNames :: !HasKey(Entries(v), k)
  {
    var e := Entries(v);
    assert e[0].0 == "PACKAGE_NAME" && e[1].0 == "AUTHOR_NAME" && e[2].0 == "AUTHOR_EMAIL";
    assert e[3].0 == "AUTHOR_WEBSITE" && e[4].0 == "GITHUB_USERNAME" && e[5].0 == "YEAR";
    assert PlainKey("PACKAGE_NAME") && PlainKey("AUTHOR_NAME") && PlainKey("AUTHOR_EMAIL");
    assert PlainKey("AUTHOR_WEBSITE") && PlainKey("GITHUB_USERNAME") && PlainKey("YEAR");
  }

  const DeclaredKeyNames: set<string> :=
    {"PACKAGE_NAME", "AUTHOR_NAME", "AUTHOR_EMAIL", "AUTHOR_WEBSITE", "GITHUB_USERNAME", "YEAR"}

  /**
   * Keys beyond the six declared fields are substituted too: entries appended
   * after the six fill the placeholders of their own keys, as with
   * `Hello {{NAME}}, welcome to {{PROJECT}}!`, NAME and PROJECT.
   */
  lemma ExtraKeysAreSubstituted(v: TemplateVars, a: string, k1: string, b: string, k2: string, c: string, v1: string, v2: string)
    requires '{' !in a && '{' !in b && '{' !in c && '{' !in v1
    requires PlainKey(k1) && PlainKey(k2) && k1 != k2 && k1 !in DeclaredKeyNames && k2 !in DeclaredKeyNames
    ensures Render(a + Placeholder(k1) + b + Placeholder(k2) + c, Entries(v) + [(k1, v1), (k2, v2)]) == a + v1 + b + v2 + c
  {
    var t := a + Placeholder(k1) + b + Placeholder(k2) + c;
    RenderAppend(t, Entries(v), [(k1, v1), (k2, v2)]);
    DeclaredKeys(v);
    RenderKeepsTwoUnknown(a, k1, b, k2, c, Entries(v));
    RenderFillsTwo(a, k1, b, k2, c, v1, v2);
  }

  /**
   * Every occurrence of a placeholder is filled, as with
   * `{{NAME}} and {{NAME}} are both {{NAME}}`.
   */
  lemma EveryOccurrenceFilled(a: string, b: string, c: string, d: string, k: string, v: string)
    requires '{' !in a && '{' !in b && '{' !in c && '{' !in d && PlainKey(k)
    ensures ReplaceAll(a + Placeholder(k) + b + Placeholder(k) + c + Placeholder(k) + d, Placeholder(k), v) ==
      a + v + b + v + c + v + d
  {
    var p := Placeholder(k);
    var rest := c + (p + d);
    var mid := b + (p + rest);
    KeepBraceFree(d, k, v);
    FillFirst(c, k, d, v);
    FillFirst(b, k, rest, v);
    FillFirst(a, k, mid, v);
    ConcatAssoc(a + p + b + p + c, p, d);
    ConcatAssoc(a + p + b + p, c, p + d);
    ConcatAssoc(a + p + b, p, rest);
    ConcatAssoc(a + p, b, p + rest);
    ConcatAssoc(a, p, mid);
    ConcatAssoc(a + v + b + v + c, v, d);
    ConcatAssoc(a + v + b + v, c, v + d);
    ConcatAssoc(a + v + b, v, c + (v + d));
    ConcatAssoc(a + v, b, v + (c + (v + d)));
    ConcatAssoc(a, v, b + (v + (c + (v + d))));
  }
}
