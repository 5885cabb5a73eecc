/** The .NET string operations the template pipeline relies on, over `seq<char>`. */
module Strings {

  /** Char.IsWhiteSpace: the Unicode separators plus U+0009..U+000D and U+0085. */
  predicate IsWhiteSpace(c: char) {
    || ('\t' <= c <= '\r')
    || c == ' '
    || c == '\U{0085}'
    || c == '\U{00A0}'
    || c == '\U{1680}'
    || ('\U{2000}' <= c <= '\U{200A}')
    || c == '\U{2028}'
    || c == '\U{2029}'
    || c == '\U{202F}'
    || c == '\U{205F}'
    || c == '\U{3000}'
  }

  /** string.IsNullOrWhiteSpace for a non-null string. */
  predicate IsBlank(s: string) {
    forall i | 0 <= i < |s| :: IsWhiteSpace(s[i])
  }

  /** String.TrimStart(): drops the leading white space and nothing else. */
  function TrimStart(s: string): (r: string)
    ensures |r| <= |s| && r == s[|s| - |r|..]
    ensures forall i | 0 <= i < |s| - |r| :: IsWhiteSpace(s[i])
    ensures r == [] || !IsWhiteSpace(r[0])
  {
    if s != [] && IsWhiteSpace(s[0]) then
      var r := TrimStart(s[1..]);
      assert forall i | 1 <= i < |s| - |r| :: s[i] == s[1..][i - 1];
      r
    else s
  }

  /** String.TrimEnd(): drops the trailing white space and nothing else. */
  function TrimEnd(s: string): (r: string)
    ensures |r| <= |s| && r == s[..|r|]
    ensures forall i | |r| <= i < |s| :: IsWhiteSpace(s[i])
    ensures r == [] || !IsWhiteSpace(r[|r| - 1])
  {
    if s != [] && IsWhiteSpace(s[|s| - 1]) then
      var r := TrimEnd(s[..|s| - 1]);
      assert forall i | |r| <= i < |s| - 1 :: s[i] == s[..|s| - 1][i];
      r
    else s
  }

  /** String.Trim(): the result is empty exactly for blank input, and otherwise starts
      and ends with a character that is not white space. */
  function Trim(s: string): (r: string)
    ensures r == [] <==> IsBlank(s)
    ensures r != [] ==> !IsWhiteSpace(r[0]) && !IsWhiteSpace(r[|r| - 1])
  {
    var t := TrimStart(s);
    assert IsBlank(s) ==> t == [];
    assert t == [] ==> s == s[..|s| - |t|];
    TrimEnd(t)
  }

  /** A string that Trim leaves unchanged. */
  predicate IsTrimmed(s: string) {
    s == [] || (!IsWhiteSpace(s[0]) && !IsWhiteSpace(s[|s| - 1]))
  }

  lemma TrimmedIsFixed(s: string)
    requires IsTrimmed(s)
    ensures Trim(s) == s
  {
  }

  /** TrimStart skips exactly a leading run of white space. */
  lemma {:induction false} TrimStartPadded(ws: string, x: string)
    requires IsBlank(ws) && x != [] && !IsWhiteSpace(x[0])
    ensures TrimStart(ws + x) == x
    decreases |ws|
  {
    if ws != [] {
      var s := ws + x;
      assert s[0] == ws[0] && IsWhiteSpace(ws[0]);
      assert s[1..] == ws[1..] + x;
      var rest := ws[1..];
      assert IsBlank(rest) by {
        forall i | 0 <= i < |rest| ensures IsWhiteSpace(rest[i]) {
          assert rest[i] == ws[i + 1];
        }
      }
      TrimStartPadded(ws[1..], x);
      assert TrimStart(s) == TrimStart(s[1..]);
    } else {
      assert ws + x == x;
    }
  }

  /** TrimEnd drops exactly a trailing run of white space. */
  lemma {:induction false} TrimEndPadded(x: string, ws: string)
    requires IsBlank(ws) && x != [] && !IsWhiteSpace(x[|x| - 1])
    ensures TrimEnd(x + ws) == x
    decreases |ws|
  {
    if ws != [] {
      var s := x + ws;
      assert s[|s| - 1] == ws[|ws| - 1] && IsWhiteSpace(ws[|ws| - 1]);
      assert s[..|s| - 1] == x + ws[..|ws| - 1];
      var init := ws[..|ws| - 1];
      assert IsBlank(init) by {
        forall i | 0 <= i < |init| ensures IsWhiteSpace(init[i]) {
          assert init[i] == ws[i];
        }
      }
      TrimEndPadded(x, ws[..|ws| - 1]);
      assert TrimEnd(s) == TrimEnd(s[..|s| - 1]);
    } else {
      assert x + ws == x;
    }
  }

  /** Trim removes white space padding on both sides of a trimmed, non-empty string. */
  lemma TrimPadded(ws1: string, x: string, ws2: string)
    requires IsBlank(ws1) && IsBlank(ws2) && x != [] && IsTrimmed(x)
    ensures Trim(ws1 + x + ws2) == x
  {
    assert ws1 + x + ws2 == ws1 + (x + ws2);
    TrimStartPadded(ws1, x + ws2);
    TrimEndPadded(x, ws2);
  }

  predicate StartsWith(s: string, prefix: string) {
    |prefix| <= |s| && s[..|prefix|] == prefix
  }

  predicate EndsWith(s: string, suffix: string) {
    |suffix| <= |s| && s[|s| - |suffix|..] == suffix
  }

  /** The two-character string `cc` occurs in `s` at position i. */
  predicate PairAt(s: string, i: int, c: char) {
    0 <= i && i + 1 < |s| && s[i] == c && s[i + 1] == c
  }

  /** s.Replace(cc, ""): scans left to right and drops every non-overlapping `cc`. */
  function RemovePairs(s: string, c: char): (r: string)
    ensures |r| <= |s|
    ensures |s| > 0 && !PairAt(s, 0, c) ==> |r| > 0 && r[0] == s[0]
    ensures forall i :: !PairAt(r, i, c)
  {
    if PairAt(s, 0, c) then RemovePairs(s[2..], c)
    else if s == [] then []
    else
      var rest := RemovePairs(s[1..], c);
      assert s[0] == c ==> rest == [] || rest[0] != c;
      assert forall i :: 1 <= i ==> (PairAt([s[0]] + rest, i, c) <==> PairAt(rest, i - 1, c));
      [s[0]] + rest
  }

  /** `s` with every `c` dropped. */
  function Without(s: string, c: char): string {
    if s == [] then [] else (if s[0] == c then [] else [s[0]]) + Without(s[1..], c)
  }

  /** Replace only drops copies of `c`: every other character survives, in order. */
  lemma {:induction false} RemovePairsKeepsOthers(s: string, c: char)
    ensures Without(RemovePairs(s, c), c) == Without(s, c)
    decreases |s|
  {
    if PairAt(s, 0, c) {
      RemovePairsKeepsOthers(s[2..], c);
      assert s[1..][1..] == s[2..];
    } else if s != [] {
      var rest := RemovePairs(s[1..], c);
      RemovePairsKeepsOthers(s[1..], c);
      assert ([s[0]] + rest)[1..] == rest;
    }
  }

  /** A prefix without `c` is left as it is. */
  lemma {:induction false} RemovePairsSkips(a: string, b: string, c: char)
    requires c !in a
    ensures RemovePairs(a + b, c) == a + RemovePairs(b, c)
  {
    if a != [] {
      assert (a + b)[1..] == a[1..] + b;
      RemovePairsSkips(a[1..], b, c);
    } else {
      assert a + b == b;
    }
  }

  /** Splits on every `sep`: String.Split(char). There is always at least one part. */
  function Split(s: string, sep: char): (parts: seq<string>)
    ensures |parts| >= 1
    ensures forall i | 0 <= i < |parts| :: sep !in parts[i]
  {
    if s == [] then [[]]
    else
      var rest := Split(s[1..], sep);
      if s[0] == sep then [[]] + rest
      else [[s[0]] + rest[0]] + rest[1..]
  }

  /** Joining the parts with the separator gives the string back. */
  lemma {:induction false} SplitJoins(s: string, sep: char)
    ensures Join(Split(s, sep), sep) == s
    decreases |s|
  {
    if s != [] {
      var rest := Split(s[1..], sep);
      SplitJoins(s[1..], sep);
      if s[0] == sep {
        assert ([[]] + rest)[1..] == rest;
      } else {
        JoinHead(rest, sep, s[0]);
      }
      assert [s[0]] + s[1..] == s;
    }
  }

  /** The inverse of Split: the parts with `sep` between neighbours. */
  function Join(parts: seq<string>, sep: char): string
    requires |parts| >= 1
  {
    if |parts| == 1 then parts[0] else parts[0] + [sep] + Join(parts[1..], sep)
  }

  lemma JoinHead(parts: seq<string>, sep: char, c: char)
    requires |parts| >= 1
    ensures Join([[c] + parts[0]] + parts[1..], sep) == [c] + Join(parts, sep)
  {
    var ps := [[c] + parts[0]] + parts[1..];
    assert ps[1..] == parts[1..];
  }

  /** Splitting where the first separator follows `a`. */
  lemma {:induction false} SplitAfter(a: string, b: string, sep: char)
    requires sep !in a
    ensures Split(a + [sep] + b, sep) == [a] + Split(b, sep)
  {
    if a == [] {
      assert a + [sep] + b == [sep] + b;
      assert ([sep] + b)[1..] == b;
    } else {
      assert (a + [sep] + b)[1..] == a[1..] + [sep] + b;
      SplitAfter(a[1..], b, sep);
      assert [a[0]] + a[1..] == a;
    }
  }

  /** A string without `sep` is one part. */
  lemma {:induction false} SplitNone(a: string, sep: char)
    requires sep !in a
    ensures Split(a, sep) == [a]
  {
    if a != [] {
      SplitNone(a[1..], sep);
      assert [a[0]] + a[1..] == a;
    }
  }

  /** Split undoes Join when no part holds the separator. */
  lemma {:induction false} SplitJoin(parts: seq<string>, sep: char)
    requires |parts| >= 1
    requires forall i | 0 <= i < |parts| :: sep !in parts[i]
    ensures Split(Join(parts, sep), sep) == parts
  {
    if |parts| == 1 {
      SplitNone(parts[0], sep);
    } else {
      SplitJoin(parts[1..], sep);
      SplitAfter(parts[0], Join(parts[1..], sep), sep);
      assert [parts[0]] + parts[1..] == parts;
    }
  }

  /** Concatenation of a sequence of sequences (string.Concat, SelectMany). */
  function Concat<T>(xss: seq<seq<T>>): seq<T> {
    if xss == [] then [] else xss[0] + Concat(xss[1..])
  }

  lemma {:induction false} ConcatAppend<T>(a: seq<seq<T>>, b: seq<seq<T>>)
    ensures Concat(a + b) == Concat(a) + Concat(b)
  {
    if a != [] {
      assert (a + b)[1..] == a[1..] + b;
      ConcatAppend(a[1..], b);
    } else {
      assert a + b == b;
    }
  }

  /** The upper-case mapping OrdinalIgnoreCase applies, on ASCII letters. */
  function ToUpperAscii(c: char): char {
    if 'a' <= c <= 'z' then (c as int - 'a' as int + 'A' as int) as char else c
  }

  /** string.Compare(a, b, StringComparison.OrdinalIgnoreCase) == 0. */
  predicate EqualsIgnoreCase(a: string, b: string) {
    |a| == |b| && forall i | 0 <= i < |a| :: ToUpperAscii(a[i]) == ToUpperAscii(b[i])
  }

  lemma EqualsIgnoreCaseTransitive(a: string, b: string, c: string)
    requires EqualsIgnoreCase(a, b) && EqualsIgnoreCase(b, c)
    ensures EqualsIgnoreCase(a, c)
  {
    forall i | 0 <= i < |a| ensures ToUpperAscii(a[i]) == ToUpperAscii(c[i]) {
      assert ToUpperAscii(a[i]) == ToUpperAscii(b[i]);
    }
  }

  /** A string holding the separator splits into more than one part. */
  lemma SplitFindsSep(s: string, sep: char)
    requires sep in s
    ensures |Split(s, sep)| > 1
  {
  }
}
