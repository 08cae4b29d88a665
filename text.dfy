/**
 * String operations the scaffolder borrows from JavaScript: literal substring
 * search, `String.prototype.replaceAll` with a non-empty string pattern,
 * `Array.prototype.join`, `Number.prototype.toString` on integers and ASCII case
 * mapping. Strings are sequences of characters.
 */
module Text {

  /** `p` occurs in `s` at index `i`. */
  predicate OccursAt(s: string, p: string, i: int) {
    0 <= i && i + |p| <= |s| && s[i..i + |p|] == p
  }

  /** `p` occurs somewhere in `s`. */
  predicate Occurs(s: string, p: string) {
    exists i | 0 <= i <= |s| - |p| :: OccursAt(s, p, i)
  }

  /** Concatenation regroups. */
  lemma ConcatAssoc(a: string, b: string, c: string)
    ensures a + b + c == a + (b + c)
  {
  }

  /** An occurrence in a suffix of `s` is an occurrence in `s`, shifted by the cut. */
  lemma OccursInSuffix(s: string, k: nat, p: string, i: int)
    requires k <= |s|
    requires OccursAt(s[k..], p, i)
    ensures OccursAt(s, p, i + k)
  {
    assert s[k..][i..i + |p|] == s[i + k..i + k + |p|];
  }

  /**
   * `s.replaceAll(p, v)` for a non-empty string pattern `p`, inserting `v`
   * literally: scan from the left, replace a match and resume right after it,
   * otherwise keep one character and move on.
   */
  function ReplaceAll(s: string, p: string, v: string): string
    requires p != []
    decreases |s|
  {
    if |s| < |p| then s
    else if s[..|p|] == p then v + ReplaceAll(s[|p|..], p, v)
    else [s[0]] + ReplaceAll(s[1..], p, v)
  }

  /**
   * The replacement JavaScript inserts for a match `m` of a string pattern,
   * with `before` the text preceding it and `after` the text following it
   * (`GetSubstitution`, section 22.1.3.19.1 of ECMA-262, with no capture
   * groups): `$$` is `$`, `$&` the match, `` $` `` the text before it and `$'`
   * the text after it; every other character, `$1` and `$<` included, is kept.
   */
  function Substitution(v: string, before: string, m: string, after: string): string
    decreases |v|
  {
    if |v| >= 2 && v[0] == '$' && v[1] == '$' then "$" + Substitution(v[2..], before, m, after)
    else if |v| >= 2 && v[0] == '$' && v[1] == '&' then m + Substitution(v[2..], before, m, after)
    else if |v| >= 2 && v[0] == '$' && v[1] == '`' then before + Substitution(v[2..], before, m, after)
    else if |v| >= 2 && v[0] == '$' && v[1] == '\'' then after + Substitution(v[2..], before, m, after)
    else if v == [] then []
    else [v[0]] + Substitution(v[1..], before, m, after)
  }

  /** Without `$` the replacement is inserted as it is. */
  lemma {:induction false} SubstitutionOfPlainValue(v: string, before: string, m: string, after: string)
    requires '$' !in v
    ensures Substitution(v, before, m, after) == v
    decreases |v|
  {
    if v != [] {
      assert v[0] != '$' && '$' !in v[1..];
      SubstitutionOfPlainValue(v[1..], before, m, after);
      assert v == [v[0]] + v[1..];
    }
  }

  /**
   * `replaceAll(p, v)` on the text `rest` still to be scanned, `before` being
   * the text of the string that precedes it.
   */
  function ReplaceAllFrom(before: string, rest: string, p: string, v: string): string
    requires p != []
    decreases |rest|
  {
    if |rest| < |p| then rest
    else if rest[..|p|] == p then
      Substitution(v, before, p, rest[|p|..]) + ReplaceAllFrom(before + p, rest[|p|..], p, v)
    else [rest[0]] + ReplaceAllFrom(before + [rest[0]], rest[1..], p, v)
  }

  /**
   * `s.replaceAll(p, v)` for a non-empty string pattern, with JavaScript's
   * replacement patterns in `v`.
   */
  function StringReplaceAll(s: string, p: string, v: string): string
    requires p != []
  {
    ReplaceAllFrom([], s, p, v)
  }

  lemma {:induction false} ReplaceAllFromPlain(before: string, rest: string, p: string, v: string)
    requires p != [] && '$' !in v
    ensures ReplaceAllFrom(before, rest, p, v) == ReplaceAll(rest, p, v)
    decreases |rest|
  {
    if |rest| >= |p| {
      if rest[..|p|] == p {
        SubstitutionOfPlainValue(v, before, p, rest[|p|..]);
        ReplaceAllFromPlain(before + p, rest[|p|..], p, v);
      } else {
        ReplaceAllFromPlain(before + [rest[0]], rest[1..], p, v);
      }
    }
  }

  /** A replacement without `$` is inserted literally: `replaceAll` is then ReplaceAll. */
  lemma StringReplaceAllOfPlainValue(s: string, p: string, v: string)
    requires p != [] && '$' !in v
    ensures StringReplaceAll(s, p, v) == ReplaceAll(s, p, v)
  {
    ReplaceAllFromPlain([], s, p, v);
  }

  /** One match in the middle: the text around it is kept, the match is substituted. */
  lemma OneMatch(v: string)
    ensures StringReplaceAll("a-b", "-", v) == "a" + Substitution(v, "a", "-", "b") + "b"
  {
    var s := "a-b";
    assert s[..1] == "a" && s[1..] == "-b" && [] + [s[0]] == "a";
    assert StringReplaceAll(s, "-", v) == "a" + ReplaceAllFrom("a", "-b", "-", v);
    assert ("-b")[..1] == "-" && ("-b")[1..] == "b";
    assert ReplaceAllFrom("a", "-b", "-", v) == Substitution(v, "a", "-", "b") + ReplaceAllFrom("a" + "-", "b", "-", v);
    assert ReplaceAllFrom("a" + "-", "b", "-", v) == "b";
  }

  /** `` $` `` and `$'` insert the text before and after the match. */
  lemma PrefixSuffixPatterns()
    ensures StringReplaceAll("a-b", "-", "$`") == "aab"
    ensures StringReplaceAll("a-b", "-", "$'") == "abb"
  {
    OneMatch("$`");
    OneMatch("$'");
  }

  /** `$$` inserts one `$`, `$&` the match itself, and `$1`, which no capture group backs, is kept. */
  lemma DollarAndMatchPatterns()
    ensures StringReplaceAll("a-b", "-", "$$") == "a$b"
    ensures StringReplaceAll("a-b", "-", "$1") == "a$1b"
    ensures ReplaceAll("a-b", "-", "$&") == "a$&b" && StringReplaceAll("a-b", "-", "$&") == "a-b"
  {
    OneMatch("$$");
    OneMatch("$1");
    OneMatch("$&");
  }

  /** A string in which the pattern does not occur comes back unchanged. */
  lemma {:induction false} ReplaceAllAbsent(s: string, p: string, v: string)
    requires p != [] && !Occurs(s, p)
    ensures ReplaceAll(s, p, v) == s
    decreases |s|
  {
    if |s| >= |p| {
      assert !OccursAt(s, p, 0);
      forall i | 0 <= i <= |s[1..]| - |p| && OccursAt(s[1..], p, i) ensures false {
        OccursInSuffix(s, 1, p, i);
      }
      ReplaceAllAbsent(s[1..], p, v);
      assert s == [s[0]] + s[1..];
    }
  }

  /**
   * Replacing in a concatenation is replacing in each part, provided no
   * occurrence of the pattern straddles the seam.
   */
  lemma {:induction false} ReplaceAllConcat(x: string, y: string, p: string, v: string)
    requires p != []
    requires forall i :: |x| - |p| < i < |x| ==> !OccursAt(x + y, p, i)
    ensures ReplaceAll(x + y, p, v) == ReplaceAll(x, p, v) + ReplaceAll(y, p, v)
    decreases |x|
  {
    var s := x + y;
    if x == [] {
      assert s == y;
    } else if |s| < |p| {
      assert ReplaceAll(y, p, v) == y;
    } else if s[..|p|] == p {
      assert OccursAt(s, p, 0);
      assert x[..|p|] == p;
      var x' := x[|p|..];
      assert x' + y == s[|p|..];
      forall i | |x'| - |p| < i < |x'| ensures !OccursAt(x' + y, p, i) {
        if OccursAt(x' + y, p, i) {
          OccursInSuffix(s, |p|, p, i);
        }
      }
      ReplaceAllConcat(x', y, p, v);
    } else {
      var x' := x[1..];
      assert x' + y == s[1..];
      forall i | |x'| - |p| < i < |x'| ensures !OccursAt(x' + y, p, i) {
        if OccursAt(x' + y, p, i) {
          OccursInSuffix(s, 1, p, i);
        }
      }
      ReplaceAllConcat(x', y, p, v);
      if |x| >= |p| {
        assert x[..|p|] == s[..|p|];
      }
      assert x == [x[0]] + x';
    }
  }

  /** `pieces.join(sep)`. */
  function Join(pieces: seq<string>, sep: string): string
    decreases |pieces|
  {
    if |pieces| == 0 then ""
    else if |pieces| == 1 then pieces[0]
    else pieces[0] + sep + Join(pieces[1..], sep)
  }

  /**
   * The text between the matches that ReplaceAll finds, in order: the pieces
   * that ReplaceAll keeps.
   */
  function Split(s: string, p: string): (pieces: seq<string>)
    requires p != []
    ensures |pieces| > 0
    decreases |s|
  {
    if |s| < |p| then [s]
    else if s[..|p|] == p then [[]] + Split(s[|p|..], p)
    else var rest := Split(s[1..], p); [[s[0]] + rest[0]] + rest[1..]
  }

  lemma JoinPrepend(c: string, pieces: seq<string>, sep: string)
    requires |pieces| > 0
    ensures Join([c + pieces[0]] + pieces[1..], sep) == c + Join(pieces, sep)
  {
    var q := [c + pieces[0]] + pieces[1..];
    assert q[1..] == pieces[1..];
  }

  lemma JoinFirstIsPrefix(pieces: seq<string>, sep: string)
    requires |pieces| > 0
    ensures |pieces[0]| <= |Join(pieces, sep)|
    ensures Join(pieces, sep)[..|pieces[0]|] == pieces[0]
  {
    if |pieces| > 1 {
      assert Join(pieces, sep) == pieces[0] + (sep + Join(pieces[1..], sep));
    }
  }

  lemma {:induction false} JoinSplit(s: string, p: string, v: string)
    requires p != []
    ensures ReplaceAll(s, p, v) == Join(Split(s, p), v)
    decreases |s|
  {
    if |s| < |p| {
    } else if s[..|p|] == p {
      JoinSplit(s[|p|..], p, v);
      var r := Split(s[|p|..], p);
      assert ([[]] + r)[1..] == r;
    } else {
      JoinSplit(s[1..], p, v);
      JoinPrepend([s[0]], Split(s[1..], p), v);
    }
  }

  /** Replacing the pattern by itself changes nothing. */
  lemma {:induction false} ReplaceAllByItself(s: string, p: string)
    requires p != []
    ensures ReplaceAll(s, p, p) == s
    decreases |s|
  {
    if |s| >= |p| {
      if s[..|p|] == p {
        ReplaceAllByItself(s[|p|..], p);
        assert s == p + s[|p|..];
      } else {
        ReplaceAllByItself(s[1..], p);
        assert s == [s[0]] + s[1..];
      }
    }
  }

  lemma {:induction false} SplitPiecesFree(s: string, p: string)
    requires p != []
    ensures forall k | 0 <= k < |Split(s, p)| :: !Occurs(Split(s, p)[k], p)
    decreases |s|
  {
    if |s| < |p| {
    } else if s[..|p|] == p {
      SplitPiecesFree(s[|p|..], p);
      var r := Split(s[|p|..], p);
      assert forall k | 1 <= k < |[[]] + r| :: ([[]] + r)[k] == r[k - 1];
    } else {
      SplitPiecesFree(s[1..], p);
      var r := Split(s[1..], p);
      FirstPieceFree(s, p);
      var q := [[s[0]] + r[0]] + r[1..];
      assert forall k | 1 <= k < |q| :: q[k] == r[k];
    }
  }

  /** The first piece keeps no match when the input does not start with one and the next piece has none. */
  lemma FirstPieceFree(s: string, p: string)
    requires p != [] && |s| >= |p| && s[..|p|] != p
    requires !Occurs(Split(s[1..], p)[0], p)
    ensures !Occurs([s[0]] + Split(s[1..], p)[0], p)
  {
    var r := Split(s[1..], p);
    JoinSplit(s[1..], p, p);
    ReplaceAllByItself(s[1..], p);
    JoinFirstIsPrefix(r, p);
    assert s[1..][..|r[0]|] == r[0];
    PrefixFree(s[0], r[0], s, p);
  }

  /** A prefix of `s` that is one character longer than a match-free string, where `s` does not start with a match. */
  lemma PrefixFree(c: char, piece: string, s: string, p: string)
    requires p != [] && |s| >= |p| && s[..|p|] != p
    requires |piece| < |s| && s[0] == c && s[1..][..|piece|] == piece
    requires !Occurs(piece, p)
    ensures !Occurs([c] + piece, p)
  {
    var first := [c] + piece;
    assert s[..|first|] == first by {
      assert s == [s[0]] + s[1..];
    }
    if |p| <= |first| {
      assert first[..|p|] == s[..|p|];
    }
    forall i | 0 < i <= |first| - |p| ensures !OccursAt(first, p, i) {
      assert first[i..i + |p|] == piece[i - 1..i - 1 + |p|];
      assert !OccursAt(piece, p, i - 1);
    }
  }

  /**
   * Every match is replaced: the result is the kept pieces joined by the value,
   * the pieces joined by the pattern give back the input, and no piece still
   * holds the pattern. Values are inserted between pieces and never rescanned.
   */
  lemma ReplaceAllReplacesEveryOccurrence(s: string, p: string, v: string)
    requires p != []
    ensures ReplaceAll(s, p, v) == Join(Split(s, p), v)
    ensures Join(Split(s, p), p) == s
    ensures forall k | 0 <= k < |Split(s, p)| :: !Occurs(Split(s, p)[k], p)
  {
    JoinSplit(s, p, v);
    JoinSplit(s, p, p);
    ReplaceAllByItself(s, p);
    SplitPiecesFree(s, p);
  }

  predicate IsDecimal(s: string) {
    forall i | 0 <= i < |s| :: '0' <= s[i] <= '9'
  }

  /** The number a string of decimal digits denotes (reference reading). */
  function DecimalValue(s: string): nat
    requires IsDecimal(s)
    decreases |s|
  {
    if s == [] then 0 else 10 * DecimalValue(s[..|s| - 1]) + (s[|s| - 1] as int - '0' as int)
  }

  function DigitChar(d: nat): char
    requires d < 10
  {
    ('0' as int + d) as char
  }

  /** `n.toString()` for a non-negative integer: decimal digits without leading zeros. */
  function NatToString(n: nat): (s: string)
    ensures |s| > 0 && IsDecimal(s)
    ensures DecimalValue(s) == n
    ensures s[0] == '0' ==> n == 0
    decreases n
  {
    if n < 10 then [DigitChar(n)] else NatToString(n / 10) + [DigitChar(n % 10)]
  }

  /** `String(i)` for an integer: a minus sign for negatives, then the digits. */
  function IntToString(i: int): string {
    if i < 0 then "-" + NatToString(-i) else NatToString(i)
  }

  function Pow10(k: nat): (r: nat)
    ensures r > 0
  {
    if k == 0 then 1 else 10 * Pow10(k - 1)
  }

  /** A number between 10^(k-1) and 10^k is written with exactly k digits. */
  lemma {:induction false} DecimalLength(n: nat, k: nat)
    requires k > 0 && Pow10(k - 1) <= n < Pow10(k)
    ensures |NatToString(n)| == k
  {
    if k > 1 {
      assert Pow10(k - 1) == 10 * Pow10(k - 2);
      DecimalLength(n / 10, k - 1);
    }
  }

  function LowerChar(c: char): char {
    if 'A' <= c <= 'Z' then (c as int + 32) as char else c
  }

  function UpperChar(c: char): char {
    if 'a' <= c <= 'z' then (c as int - 32) as char else c
  }

  /** `s.toLowerCase()` on ASCII letters. */
  function ToLower(s: string): string {
    seq(|s|, i requires 0 <= i < |s| => LowerChar(s[i]))
  }

  /** `s.toUpperCase()` on ASCII letters. */
  function ToUpper(s: string): string {
    seq(|s|, i requires 0 <= i < |s| => UpperChar(s[i]))
  }

  /** `s.replace(a, b)` for one-character strings: only the first `a` changes. */
  function ReplaceFirst(s: string, a: char, b: char): string
    decreases |s|
  {
    if s == [] then []
    else if s[0] == a then [b] + s[1..]
    else [s[0]] + ReplaceFirst(s[1..], a, b)
  }

  /** The first `a`, wherever it is, becomes `b`; everything before and after it is kept. */
  lemma {:induction false} ReplaceFirstAt(s: string, a: char, b: char, i: nat)
    requires i < |s| && s[i] == a && a !in s[..i]
    ensures ReplaceFirst(s, a, b) == s[..i] + [b] + s[i + 1..]
    decreases i
  {
    if i > 0 {
      assert s[0] == s[..i][0];
      assert s[1..][..i - 1] == s[..i][1..];
      ReplaceFirstAt(s[1..], a, b, i - 1);
      assert s[..i] == [s[0]] + s[1..][..i - 1];
    }
  }
}
