/** TemplateParser.SplitTokens: cuts a template string into literal text and `{{...}}`
    placeholder pieces with the lazy, single-line-mode regex `({{.*?}})`, keeping the
    captured placeholders and dropping empty pieces. */
module TemplateParser {
  import opened Wrappers
  import opened Strings

  predicate OpensAt(s: string, i: int) {
    PairAt(s, i, '{')
  }

  predicate ClosesAt(s: string, i: int) {
    PairAt(s, i, '}')
  }

  /** The first position at or after `from` where `cc` starts, if any. */
  function FindPair(s: string, from: nat, c: char): (r: Option<nat>)
    decreases |s| - from
    ensures r.Some? ==> from <= r.value && PairAt(s, r.value, c)
    ensures r.Some? ==> forall k :: from <= k < r.value ==> !PairAt(s, k, c)
    ensures r.None? ==> forall k :: from <= k ==> !PairAt(s, k, c)
  {
    if from + 1 >= |s| then None
    else if PairAt(s, from, c) then Some(from)
    else FindPair(s, from + 1, c)
  }

  /** The next match of `{{.*?}}`, as (start, end) with s[start..end] the matched text.
      A `{{` with no `}}` after it never matches, so the leftmost `{{` is the only
      candidate; `.` matches newlines too, so nothing else stops the match. */
  function NextMatch(s: string): (r: Option<(nat, nat)>)
    ensures r.Some? ==> r.value.0 + 4 <= r.value.1 <= |s|
  {
    match FindPair(s, 0, '{')
    case None => None
    case Some(a) =>
      match FindPair(s, a + 2, '}')
      case None => None
      case Some(k) => Some((a, k + 2))
  }

  /** `t` is exactly one lazy match: it opens with `{{`, closes with `}}`, and holds no
      `}}` between its opening and its closing. */
  predicate IsLazyMatch(t: string) {
    && |t| >= 4
    && OpensAt(t, 0)
    && ClosesAt(t, |t| - 2)
    && forall k :: 2 <= k < |t| - 2 ==> !ClosesAt(t, k)
  }

  /** Some `{{` in `t` is followed, later, by a `}}`: the regex finds a match in `t`. */
  predicate HasPlaceholder(t: string) {
    exists j, k | 0 <= j && j + 2 <= k < |t| :: OpensAt(t, j) && ClosesAt(t, k)
  }

  /** NextMatch is the regex's match: none exactly when no `{{` is followed by `}}`;
      otherwise a lazy match with no `{{` anywhere before it. */
  lemma NextMatchIsLeftmostLazy(s: string)
    ensures NextMatch(s).None? <==> !HasPlaceholder(s)
    ensures NextMatch(s).Some? ==>
      var (a, b) := NextMatch(s).value;
      IsLazyMatch(s[a..b]) && forall j :: 0 <= j < a ==> !OpensAt(s, j)
  {
    match FindPair(s, 0, '{')
    case None =>
    case Some(a) =>
      match FindPair(s, a + 2, '}')
      case None =>
        forall j, k | j + 2 <= k && OpensAt(s, j) ensures !ClosesAt(s, k) {
          assert a <= j;
        }
      case Some(k) =>
        var t := s[a..k + 2];
        assert OpensAt(t, 0);
        assert ClosesAt(t, |t| - 2);
        forall i | 2 <= i < |t| - 2 ensures !ClosesAt(t, i) {
          assert !ClosesAt(s, a + i);
        }
        assert OpensAt(s, a) && ClosesAt(s, k);
  }

  /** Regex.Split with one capturing group: the text before each match, the match itself,
      and the text after the last match; pieces may be empty. */
  function RegexSplit(s: string): seq<string>
    decreases |s|
  {
    match NextMatch(s)
    case None => [s]
    case Some((a, b)) => [s[..a], s[a..b]] + RegexSplit(s[b..])
  }

  /** The non-empty parts, in order. */
  function NonEmpty(parts: seq<string>): seq<string> {
    if parts == [] then []
    else (if parts[0] == [] then [] else [parts[0]]) + NonEmpty(parts[1..])
  }

  lemma {:induction false} NonEmptyAppend(a: seq<string>, b: seq<string>)
    ensures NonEmpty(a + b) == NonEmpty(a) + NonEmpty(b)
  {
    if a == [] {
      assert a + b == b;
    } else {
      assert (a + b)[1..] == a[1..] + b;
      NonEmptyAppend(a[1..], b);
    }
  }

  /** The tokens of a template string: none for a blank string, even though its white
      space would otherwise be literal text. */
  function Tokenize(input: string): seq<string> {
    if IsBlank(input) then [] else Pieces(input)
  }

  /** The non-empty pieces of the regex split. */
  function Pieces(s: string): seq<string> {
    NonEmpty(RegexSplit(s))
  }

  /** SplitTokens: the regex split, then a loop that keeps the non-empty parts. */
  method SplitTokens(input: string) returns (tokens: seq<string>)
    ensures tokens == Tokenize(input)
  {
    if IsBlank(input) {
      return [];
    }
    var parts := RegexSplit(input);
    tokens := [];
    for i := 0 to |parts|
      invariant tokens == NonEmpty(parts[..i])
    {
      NonEmptyAppend(parts[..i], [parts[i]]);
      assert parts[..i + 1] == parts[..i] + [parts[i]];
      if parts[i] != [] {
        tokens := tokens + [parts[i]];
      }
    }
    assert parts[..|parts|] == parts;
  }

  lemma NonEmptySingle(x: string)
    ensures NonEmpty([x]) == (if x == [] then [] else [x])
  {
    assert [x][1..] == [];
  }

  /** One step of Pieces. */
  lemma PiecesStep(s: string)
    ensures NextMatch(s).None? ==> Pieces(s) == (if s == [] then [] else [s])
    ensures NextMatch(s).Some? ==>
      var (a, b) := NextMatch(s).value;
      Pieces(s) == (if a == 0 then [] else [s[..a]]) + [s[a..b]] + Pieces(s[b..])
  {
    match NextMatch(s)
    case None =>
      assert RegexSplit(s) == [s];
      NonEmptySingle(s);
    case Some((a, b)) =>
      var pre, m := s[..a], s[a..b];
      assert RegexSplit(s) == [pre, m] + RegexSplit(s[b..]);
      NonEmptyAppend([pre, m], RegexSplit(s[b..]));
      assert [pre, m] == [pre] + [m];
      NonEmptyAppend([pre], [m]);
      NonEmptySingle(pre);
      NonEmptySingle(m);
      assert a == 0 <==> pre == [];
  }

  /** Concatenating the pieces gives back the string: the delimiters are kept. */
  lemma {:induction false} PiecesConcat(s: string)
    ensures Concat(Pieces(s)) == s
    decreases |s|
  {
    PiecesStep(s);
    match NextMatch(s)
    case None =>
    case Some((a, b)) =>
      PiecesConcat(s[b..]);
      var pre := if a == 0 then [] else [s[..a]];
      ConcatAppend(pre + [s[a..b]], Pieces(s[b..]));
      ConcatAppend(pre, [s[a..b]]);
      assert s == s[..a] + s[a..b] + s[b..];
  }

  /** A text piece that can stand right before a placeholder: no `{{` inside it and no
      trailing `{` that would open one across the boundary. */
  predicate PrecedesMatch(t: string) {
    && (forall j | 0 <= j < |t| :: !OpensAt(t, j))
    && (t == [] || t[|t| - 1] != '{')
  }

  /** The lexical laws of the split: no empty token; every token is either one lazy match
      or text holding no match; a text token is followed only by a placeholder, and then
      it cannot hide an earlier `{{`. */
  predicate WellTokenized(ts: seq<string>) {
    && (forall i | 0 <= i < |ts| :: ts[i] != [])
    && (forall i | 0 <= i < |ts| :: IsLazyMatch(ts[i]) || !HasPlaceholder(ts[i]))
    && (forall i | 0 <= i < |ts| - 1 :: !IsLazyMatch(ts[i]) ==> IsLazyMatch(ts[i + 1]) && PrecedesMatch(ts[i]))
  }

  lemma ConsWellTokenized(t: string, ts: seq<string>)
    requires WellTokenized(ts)
    requires t != [] && (IsLazyMatch(t) || !HasPlaceholder(t))
    requires !IsLazyMatch(t) && ts != [] ==> IsLazyMatch(ts[0]) && PrecedesMatch(t)
    ensures WellTokenized([t] + ts)
  {
    var r := [t] + ts;
    assert forall i | 1 <= i < |r| :: r[i] == ts[i - 1];
  }

  lemma TailWellTokenized(ts: seq<string>)
    requires WellTokenized(ts) && ts != []
    ensures WellTokenized(ts[1..])
  {
    assert forall i | 0 <= i < |ts| - 1 :: ts[1..][i] == ts[i + 1];
  }

  /** The pieces obey the lexical laws. */
  lemma {:induction false} PiecesWellTokenized(s: string)
    ensures WellTokenized(Pieces(s))
    decreases |s|
  {
    PiecesStep(s);
    NextMatchIsLeftmostLazy(s);
    match NextMatch(s)
    case None =>
    case Some((a, b)) =>
      PiecesWellTokenized(s[b..]);
      var m := s[a..b];
      ConsWellTokenized(m, Pieces(s[b..]));
      if a > 0 {
        var pre := s[..a];
        assert s[a] == m[0];
        TextBeforeMatch(s, a);
        ConsWellTokenized(pre, [m] + Pieces(s[b..]));
        assert [pre] + ([m] + Pieces(s[b..])) == [pre] + [m] + Pieces(s[b..]);
      } else {
        assert [] + [m] + Pieces(s[b..]) == [m] + Pieces(s[b..]);
      }
  }

  /** The text before the leftmost `{{` is plain text that may stand before a placeholder. */
  lemma TextBeforeMatch(s: string, a: nat)
    requires 0 < a < |s| && s[a] == '{'
    requires forall j :: 0 <= j < a ==> !OpensAt(s, j)
    ensures var pre := s[..a]; pre != [] && !IsLazyMatch(pre) && !HasPlaceholder(pre) && PrecedesMatch(pre)
  {
    var pre := s[..a];
    forall j | 0 <= j < |pre| ensures !OpensAt(pre, j) {
      assert !OpensAt(s, j);
    }
    assert pre[a - 1] == '{' ==> OpensAt(s, a - 1);
  }

  /** FindPair returns the first occurrence at or after `from`. */
  lemma {:induction false} FindPairIs(s: string, from: nat, c: char, v: nat)
    requires from <= v && PairAt(s, v, c)
    requires forall k :: from <= k < v ==> !PairAt(s, k, c)
    ensures FindPair(s, from, c) == Some(v)
    decreases v - from
  {
    if from < v {
      FindPairIs(s, from + 1, c, v);
    }
  }

  /** A lazy match at the front of a string is its first piece. */
  lemma PiecesFrontMatch(m: string, r: string)
    requires IsLazyMatch(m)
    ensures Pieces(m + r) == [m] + Pieces(r)
  {
    var s := m + r;
    FindPairIs(s, 0, '{', 0);
    forall k | 2 <= k < |m| - 2 ensures !PairAt(s, k, '}') {
      assert !ClosesAt(m, k);
    }
    FindPairIs(s, 2, '}', |m| - 2);
    assert NextMatch(s) == Some((0, |m|));
    PiecesStep(s);
    assert s[0..|m|] == m && s[|m|..] == r;
  }

  /** Text that may precede a placeholder, then a lazy match: these are the first two pieces. */
  lemma PiecesFrontText(t: string, m: string, r: string)
    requires t != [] && PrecedesMatch(t) && IsLazyMatch(m)
    ensures Pieces(t + m + r) == [t, m] + Pieces(r)
  {
    var s := t + m + r;
    forall j | 0 <= j < |t| ensures !PairAt(s, j, '{') {
      if j + 1 < |t| {
        assert !OpensAt(t, j);
      } else {
        assert s[j] == t[|t| - 1];
      }
    }
    assert OpensAt(s, |t|);
    FindPairIs(s, 0, '{', |t|);
    forall k | |t| + 2 <= k < |t| + |m| - 2 ensures !PairAt(s, k, '}') {
      assert !ClosesAt(m, k - |t|);
    }
    assert ClosesAt(s, |t| + |m| - 2);
    FindPairIs(s, |t| + 2, '}', |t| + |m| - 2);
    assert NextMatch(s) == Some((|t|, |t| + |m|));
    PiecesStep(s);
    assert s[..|t|] == t && s[|t|..|t| + |m|] == m && s[|t| + |m|..] == r;
  }

  /** The lexical laws determine the split: any sequence of tokens that obeys them and
      concatenates to `s` is exactly the pieces of `s`. */
  lemma {:induction false} TokenizationIsUnique(ts: seq<string>)
    requires WellTokenized(ts)
    ensures Pieces(Concat(ts)) == ts
    decreases |ts|
  {
    if ts == [] {
      NextMatchIsLeftmostLazy([]);
      PiecesStep([]);
    } else if IsLazyMatch(ts[0]) {
      TailWellTokenized(ts);
      TokenizationIsUnique(ts[1..]);
      PiecesFrontMatch(ts[0], Concat(ts[1..]));
    } else if |ts| == 1 {
      assert ts[1..] == [];
      assert Concat(ts) == ts[0];
      NextMatchIsLeftmostLazy(ts[0]);
      PiecesStep(ts[0]);
    } else {
      var t, m := ts[0], ts[1];
      var rest := Concat(ts[2..]);
      assert ts[1..][1..] == ts[2..];
      assert Concat(ts[1..]) == m + rest;
      assert Concat(ts) == t + m + rest;
      TailWellTokenized(ts);
      TailWellTokenized(ts[1..]);
      TokenizationIsUnique(ts[2..]);
      PiecesFrontText(t, m, rest);
      assert [t, m] + ts[2..] == ts;
    }
  }

  /** For non-blank input, concatenating the tokens reproduces the input exactly. */
  lemma TokenizeRoundTrip(input: string)
    requires !IsBlank(input)
    ensures Concat(Tokenize(input)) == input
  {
    PiecesConcat(input);
  }

  /** The tokens obey the lexical laws, and are the only tokens that do. */
  lemma TokenizeCharacterized(input: string, ts: seq<string>)
    requires !IsBlank(input)
    ensures WellTokenized(Tokenize(input))
    ensures WellTokenized(ts) && Concat(ts) == input ==> ts == Tokenize(input)
  {
    PiecesWellTokenized(input);
    if WellTokenized(ts) && Concat(ts) == input {
      TokenizationIsUnique(ts);
    }
  }

  /** Input holding no `{{...}}` comes back as one token equal to the input. */
  lemma TokenizeWithoutPlaceholder(input: string)
    requires !IsBlank(input) && !HasPlaceholder(input)
    ensures Tokenize(input) == [input]
  {
    NextMatchIsLeftmostLazy(input);
    PiecesStep(input);
  }

  /** Text without `}` wrapped in `{{` and `}}` is one lazy match. */
  lemma WrappedIsLazyMatch(body: string)
    requires '}' !in body
    ensures IsLazyMatch("{{" + body + "}}")
  {
    var t := "{{" + body + "}}";
    forall k | 2 <= k < |t| - 2 ensures !ClosesAt(t, k) {
      assert t[k] == body[k - 2];
    }
  }

  /** The match ends at the first `}}`: in `{{body}}}` the last `}` is text of its own,
      so for example `{{a}}}` gives `{{a}}` and then `}`. */
  lemma FirstCloseEndsMatch(body: string)
    requires '}' !in body
    ensures Tokenize("{{" + body + "}}}") == ["{{" + body + "}}", "}"]
  {
    var m := "{{" + body + "}}";
    var ts := [m, "}"];
    WrappedIsLazyMatch(body);
    assert !HasPlaceholder("}");
    assert ts[1..] == ["}"];
    assert Concat(["}"]) == "}" + [];
    assert Concat(ts) == m + "}";
    assert "{{" + body + "}}}" == m + "}";
    assert !IsBlank(m + "}") by {
      assert !IsWhiteSpace((m + "}")[0]);
    }
    TokenizeCharacterized(m + "}", ts);
  }
}
