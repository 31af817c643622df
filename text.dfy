/** The handful of Python `str` operations the Lambda handler and the API
    apply to keys, paths and cells: split, endswith, replace, strip. */
module Text {

  /** The first index at or after `i` that holds `c`, or `|s|` when none does. */
  function Find(s: string, c: char, i: nat): (j: nat)
    requires i <= |s|
    ensures i <= j <= |s|
    ensures j < |s| ==> s[j] == c
    ensures forall k :: i <= k < j ==> s[k] != c
    decreases |s| - i
  {
    if i == |s| || s[i] == c then i else Find(s, c, i + 1)
  }

  /** Glues pieces back together with `sep` between them. */
  function Join(parts: seq<string>, sep: char): string {
    if parts == [] then ""
    else if |parts| == 1 then parts[0]
    else parts[0] + [sep] + Join(parts[1..], sep)
  }

  /** Python's `s.split(sep)` for a one-character separator: every piece,
      empty ones included, and a single piece when `sep` does not occur. */
  function Split(s: string, sep: char): (parts: seq<string>)
    ensures |parts| >= 1
    ensures |parts| > 1 <==> sep in s
    ensures forall m :: 0 <= m < |parts| ==> sep !in parts[m]
    ensures sep !in s ==> parts == [s]
    decreases |s|
  {
    var j := Find(s, sep, 0);
    if j == |s| then
      assert s[0..] == s;
      [s]
    else
      assert forall x :: x in s[..j] ==> x != sep;
      [s[..j]] + Split(s[j + 1..], sep)
  }

  lemma JoinCons(a: string, rest: seq<string>, sep: char)
    requires rest != []
    ensures Join([a] + rest, sep) == a + [sep] + Join(rest, sep)
  {
    assert ([a] + rest)[1..] == rest;
  }

  /** `Split` loses nothing: the pieces joined with `sep` are the string. */
  lemma {:induction false} JoinSplit(s: string, sep: char)
    ensures Join(Split(s, sep), sep) == s
    decreases |s|
  {
    var j := Find(s, sep, 0);
    if j < |s| {
      var rest := Split(s[j + 1..], sep);
      assert Split(s, sep) == [s[..j]] + rest;
      calc {
        Join(Split(s, sep), sep);
        == Join([s[..j]] + rest, sep);
        == { JoinCons(s[..j], rest, sep); }
        s[..j] + [sep] + Join(rest, sep);
        == { JoinSplit(s[j + 1..], sep); }
        s[..j] + [sep] + s[j + 1..];
        == { assert s == s[..j] + [s[j]] + s[j + 1..]; }
        s;
      }
    } else {
      assert Split(s, sep) == [s];
    }
  }

  /** Splitting at a separator-free head peels that head off as the first piece. */
  lemma SplitAfterHead(a: string, sep: char, b: string)
    requires sep !in a
    ensures Split(a + [sep] + b, sep) == [a] + Split(b, sep)
  {
    var s := a + [sep] + b;
    assert s[|a|] == sep;
    assert forall k :: 0 <= k < |a| ==> s[k] == a[k] && s[k] != sep;
    assert Find(s, sep, 0) == |a|;
    assert s[..|a|] == a && s[|a| + 1..] == b;
  }

  /** When `sep` occurs, the second piece is what follows its first occurrence,
      up to the next one or the end. */
  lemma SplitSecond(s: string, sep: char)
    requires sep in s
    ensures var i := Find(s, sep, 0);
      var rest := s[i + 1..];
      i < |s| && Split(s, sep)[1] == rest[..Find(rest, sep, 0)]
  {
    var i := Find(s, sep, 0);
    var k :| 0 <= k < |s| && s[k] == sep;
    assert i <= k;
    var rest := s[i + 1..];
    assert Split(s, sep) == [s[..i]] + Split(rest, sep);
    assert rest[0..] == rest;
  }

  /** Python's `s.split(sep, 1)`: at most two pieces, cut at the first `sep`. */
  function SplitOnce(s: string, sep: char): (parts: seq<string>)
    ensures 1 <= |parts| <= 2
    ensures |parts| == 2 <==> sep in s
    ensures sep !in parts[0]
    ensures |parts| == 2 ==> s == parts[0] + [sep] + parts[1]
    ensures |parts| == 1 ==> parts[0] == s
  {
    var j := Find(s, sep, 0);
    if j == |s| then [s]
    else
      assert s == s[..j] + [sep] + s[j + 1..];
      [s[..j], s[j + 1..]]
  }

  /** Cutting at a separator-free head gives the head and everything after the
      separator. */
  lemma SplitOnceAfterHead(a: string, sep: char, b: string)
    requires sep !in a
    ensures SplitOnce(a + [sep] + b, sep) == [a, b]
  {
    var s := a + [sep] + b;
    assert s[|a|] == sep;
    assert forall k :: 0 <= k < |a| ==> s[k] == a[k] && s[k] != sep;
    assert Find(s, sep, 0) == |a|;
    assert s[..|a|] == a && s[|a| + 1..] == b;
  }

  /** Python's `s.endswith(suffix)`. */
  predicate EndsWith(s: string, suffix: string): (b: bool)
    ensures b <==> exists p :: p + suffix == s
  {
    SuffixSplit(s, suffix);
    |suffix| <= |s| && s[|s| - |suffix|..] == suffix
  }

  /** `s` ends in `suffix` exactly when it is some text followed by `suffix`. */
  lemma SuffixSplit(s: string, suffix: string)
    ensures (exists p :: p + suffix == s) <==> |suffix| <= |s| && s[|s| - |suffix|..] == suffix
  {
    if exists p :: p + suffix == s {
      var p :| p + suffix == s;
      assert s[|p|..] == suffix;
    }
    if |suffix| <= |s| && s[|s| - |suffix|..] == suffix {
      assert s[..|s| - |suffix|] + suffix == s;
    }
  }

  /** `pat` occurs in `s` starting at index `i`. */
  predicate OccursAt(pat: string, s: string, i: int) {
    0 <= i && i + |pat| <= |s| && s[i..i + |pat|] == pat
  }

  /** `pat` occurs nowhere in `s`. */
  predicate Absent(pat: string, s: string) {
    forall i :: 0 <= i <= |s| ==> !OccursAt(pat, s, i)
  }

  /** Python's `s.replace(pat, rep)`: every non-overlapping occurrence,
      leftmost first, is replaced; the replacement is not rescanned. */
  function ReplaceAll(s: string, pat: string, rep: string): (r: string)
    requires pat != []
    ensures forall c :: c in r ==> c in s || c in rep
    ensures rep == [] ==> |r| <= |s|
    decreases |s|
  {
    if |s| < |pat| then s
    else if s[..|pat|] == pat then rep + ReplaceAll(s[|pat|..], pat, rep)
    else [s[0]] + ReplaceAll(s[1..], pat, rep)
  }

  /** Replacing a pattern that does not occur changes nothing. */
  lemma {:induction false} ReplaceAllAbsent(s: string, pat: string, rep: string)
    requires pat != [] && Absent(pat, s)
    ensures ReplaceAll(s, pat, rep) == s
    decreases |s|
  {
    if |s| >= |pat| {
      assert !OccursAt(pat, s, 0);
      assert s[..|pat|] != pat;
      forall i | OccursAt(pat, s[1..], i)
        ensures false
      {
        assert s[1..][i..i + |pat|] == s[i + 1..i + 1 + |pat|];
        assert OccursAt(pat, s, i + 1);
      }
      ReplaceAllAbsent(s[1..], pat, rep);
    }
  }

  /** A pattern holding a character that `s` lacks occurs nowhere in `s`. */
  lemma AbsentWithout(pat: string, s: string, c: char)
    requires c in pat && c !in s
    ensures Absent(pat, s)
  {
    var k :| 0 <= k < |pat| && pat[k] == c;
    forall i | 0 <= i <= |s|
      ensures !OccursAt(pat, s, i)
    {
      if i + |pat| <= |s| {
        assert s[i..i + |pat|][k] == s[i + k] != c;
      }
    }
  }

  /** A leading occurrence is replaced and the scan goes on after it. */
  lemma ReplaceAllLeading(pat: string, s: string, rep: string)
    requires pat != []
    ensures ReplaceAll(pat + s, pat, rep) == rep + ReplaceAll(s, pat, rep)
  {
    assert (pat + s)[..|pat|] == pat;
    assert (pat + s)[|pat|..] == s;
  }

  /** Python's `str.isspace` for one character: the characters `str.strip()` removes. */
  predicate IsSpace(c: char) {
    var n := c as int;
    (9 <= n <= 13) || (28 <= n <= 32) || n == 0x85 || n == 0xA0 || n == 0x1680
    || (0x2000 <= n <= 0x200A) || n == 0x2028 || n == 0x2029 || n == 0x202F
    || n == 0x205F || n == 0x3000
  }

  /** The first index at or after `i` that does not hold whitespace, or `|s|`. */
  function SkipSpaces(s: string, i: nat): (j: nat)
    requires i <= |s|
    ensures i <= j <= |s|
    ensures forall k :: i <= k < j ==> IsSpace(s[k])
    ensures j == |s| || !IsSpace(s[j])
    decreases |s| - i
  {
    if i < |s| && IsSpace(s[i]) then SkipSpaces(s, i + 1) else i
  }

  /** Moving down from `j`, the first end (not below `lo`) not preceded by whitespace. */
  function SkipSpacesBack(s: string, lo: nat, j: nat): (e: nat)
    requires lo <= j <= |s|
    ensures lo <= e <= j
    ensures forall k :: e <= k < j ==> IsSpace(s[k])
    ensures e == lo || !IsSpace(s[e - 1])
    decreases j
  {
    if j > lo && IsSpace(s[j - 1]) then SkipSpacesBack(s, lo, j - 1) else j
  }

  /** Python's `s.strip()`: the middle of `s` once the whitespace on both ends is cut. */
  function Strip(s: string): (r: string)
    ensures exists i, j :: (0 <= i <= j <= |s| && r == s[i..j]
      && (forall k :: 0 <= k < i ==> IsSpace(s[k]))
      && (forall k :: j <= k < |s| ==> IsSpace(s[k])))
    ensures r == [] || (!IsSpace(r[0]) && !IsSpace(r[|r| - 1]))
  {
    var i := SkipSpaces(s, 0);
    var j := SkipSpacesBack(s, i, |s|);
    assert j > i ==> s[i..j][0] == s[i] && s[i..j][j - i - 1] == s[j - 1];
    s[i..j]
  }

  /** Stripping twice is stripping once. */
  lemma StripIdempotent(s: string)
    ensures Strip(Strip(s)) == Strip(s)
  {
    var r := Strip(s);
    var i, j :| 0 <= i <= j <= |r| && Strip(r) == r[i..j]
      && (forall k :: 0 <= k < i ==> IsSpace(r[k]))
      && (forall k :: j <= k < |r| ==> IsSpace(r[k]));
    if r != [] {
      assert !IsSpace(r[0]) && !IsSpace(r[|r| - 1]);
    }
  }
}
