/**
 * The pieces of Go's `strings` package the connection script relies on:
 * `Contains`, `Index`, `HasPrefix`, `Split` with a non-empty separator,
 * and `TrimSpace`. Strings are sequences of characters; Go's byte-level
 * UTF-8 handling is not modelled.
 */
module Text {
  import opened Wrappers

  /** `sep` occurs in `s` starting at position i. */
  predicate OccursAt(s: string, sep: string, i: int) {
    0 <= i && i + |sep| <= |s| && s[i..i + |sep|] == sep
  }

  /** `strings.Contains`. */
  predicate Contains(s: string, sep: string) {
    exists i :: 0 <= i <= |s| && OccursAt(s, sep, i)
  }

  /** `strings.HasPrefix`. */
  predicate HasPrefix(s: string, prefix: string) {
    |prefix| <= |s| && s[..|prefix|] == prefix
  }

  /** The first occurrence of `sep` at or after position k. */
  function IndexFrom(s: string, sep: string, k: nat): (r: Option<nat>)
    requires k <= |s|
    ensures r.Some? ==> k <= r.value && OccursAt(s, sep, r.value)
    ensures r.Some? ==> forall j :: k <= j < r.value ==> !OccursAt(s, sep, j)
    ensures r.None? ==> forall j :: k <= j ==> !OccursAt(s, sep, j)
    decreases |s| - k
  {
    if k + |sep| > |s| then None
    else if s[k..k + |sep|] == sep then Some(k)
    else if k == |s| then None
    else IndexFrom(s, sep, k + 1)
  }

  /** `strings.Index`: the first position where `sep` occurs, if any. */
  function Index(s: string, sep: string): (r: Option<nat>)
    ensures r.Some? <==> Contains(s, sep)
    ensures r.Some? ==> OccursAt(s, sep, r.value) && forall j :: 0 <= j < r.value ==> !OccursAt(s, sep, j)
  {
    IndexFrom(s, sep, 0)
  }

  /** The text before the first `sep`, or all of `s` when there is none. */
  function Before(s: string, sep: string): (t: string)
    ensures HasPrefix(s, t)
    ensures |sep| > 0 ==> !Contains(t, sep)
  {
    match Index(s, sep)
    case None => s
    case Some(i) =>
      NothingBeforeFirst(s, sep, i);
      s[..i]
  }

  /** No occurrence lies wholly before the first one. */
  lemma {:induction false} NothingBeforeFirst(s: string, sep: string, i: nat)
    requires OccursAt(s, sep, i) && forall j :: 0 <= j < i ==> !OccursAt(s, sep, j)
    ensures |sep| > 0 ==> !Contains(s[..i], sep)
  {
    if |sep| > 0 && Contains(s[..i], sep) {
      var j :| 0 <= j <= i && OccursAt(s[..i], sep, j);
      assert s[..i][j..j + |sep|] == s[j..j + |sep|];
      assert OccursAt(s, sep, j);
    }
  }

  /** `strings.Split` with a non-empty separator: the pieces between successive occurrences. */
  function Split(s: string, sep: string): (parts: seq<string>)
    requires |sep| > 0
    ensures |parts| >= 1
    decreases |s|
  {
    match Index(s, sep)
    case None => [s]
    case Some(i) => [s[..i]] + Split(s[i + |sep|..], sep)
  }

  /** `strings.Join`. */
  function Join(parts: seq<string>, sep: string): string
    requires |parts| >= 1
  {
    if |parts| == 1 then parts[0] else parts[0] + sep + Join(parts[1..], sep)
  }

  /** Joining the pieces with the separator gives back the original text. */
  lemma {:induction false} JoinSplit(s: string, sep: string)
    requires |sep| > 0
    ensures Join(Split(s, sep), sep) == s
    decreases |s|
  {
    var r := Index(s, sep);
    if r.Some? {
      var i := r.value;
      var rest := s[i + |sep|..];
      JoinSplit(rest, sep);
      SplitUnfold(s, sep, i);
      JoinCons(s[..i], Split(rest, sep), sep);
      SurroundOccurrence(s, sep, i);
    }
  }

  /** A text is what precedes an occurrence, the occurrence, and what follows it. */
  lemma {:induction false} SurroundOccurrence(s: string, sep: string, i: nat)
    requires OccursAt(s, sep, i)
    ensures s == s[..i] + sep + s[i + |sep|..]
  {
    assert s == s[..i] + s[i..i + |sep|] + s[i + |sep|..];
  }

  lemma {:induction false} SplitUnfold(s: string, sep: string, i: nat)
    requires |sep| > 0 && Index(s, sep) == Some(i)
    ensures Split(s, sep) == [s[..i]] + Split(s[i + |sep|..], sep)
  {
  }

  lemma {:induction false} JoinCons(head: string, rest: seq<string>, sep: string)
    requires |rest| >= 1
    ensures Join([head] + rest, sep) == head + sep + Join(rest, sep)
  {
    assert ([head] + rest)[1..] == rest;
  }

  /** No piece contains the separator. */
  lemma {:induction false} SplitPiecesFree(s: string, sep: string)
    requires |sep| > 0
    ensures forall k :: 0 <= k < |Split(s, sep)| ==> !Contains(Split(s, sep)[k], sep)
    decreases |s|
  {
    match Index(s, sep)
    case None =>
    case Some(i) =>
      var rest := s[i + |sep|..];
      SplitPiecesFree(rest, sep);
      assert Split(s, sep) == [Before(s, sep)] + Split(rest, sep);
  }

  /**
   * There are at least two pieces exactly when the separator occurs, and
   * then the second piece is the text after the first occurrence, up to
   * the next one.
   */
  lemma {:induction false} SplitAtFirst(s: string, sep: string)
    requires |sep| > 0
    ensures |Split(s, sep)| >= 2 <==> Contains(s, sep)
    ensures Split(s, sep)[0] == Before(s, sep)
    ensures Contains(s, sep) ==>
      var i := Index(s, sep).value;
      Split(s, sep)[0] == s[..i] && Split(s, sep)[1] == Before(s[i + |sep|..], sep)
  {
    match Index(s, sep)
    case None =>
    case Some(i) =>
      var rest := s[i + |sep|..];
      assert Split(rest, sep)[0] == Before(rest, sep) by {
        match Index(rest, sep)
        case None =>
        case Some(_) =>
      }
  }

  /** `unicode.IsSpace`: ASCII white space, NEL, NBSP and the Unicode space separators. */
  predicate IsSpace(c: char) {
    c == ' ' || c == '\t' || c == '\n' || c == '\U{000B}' || c == '\U{000C}' || c == '\r'
    || c == '\U{0085}' || c == '\U{00A0}' || c == '\U{1680}' || ('\U{2000}' <= c <= '\U{200A}')
    || c == '\U{2028}' || c == '\U{2029}' || c == '\U{202F}' || c == '\U{205F}' || c == '\U{3000}'
  }

  /** Every character of `s` satisfies `p`. */
  predicate All(s: string, p: char -> bool) {
    forall k :: 0 <= k < |s| ==> p(s[k])
  }

  /** How many characters satisfying `p` the text starts with. */
  function LeadingRun(s: string, p: char -> bool): (n: nat)
    ensures n <= |s| && All(s[..n], p) && (n == |s| || !p(s[n]))
  {
    if |s| > 0 && p(s[0]) then
      var n := 1 + LeadingRun(s[1..], p);
      assert s[..n] == [s[0]] + s[1..][..n - 1];
      n
    else 0
  }

  /** How many characters satisfying `p` the text ends with. */
  function TrailingRun(s: string, p: char -> bool): (n: nat)
    ensures n <= |s| && All(s[|s| - n..], p) && (n == |s| || !p(s[|s| - n - 1]))
  {
    if |s| > 0 && p(s[|s| - 1]) then
      var n := 1 + TrailingRun(s[..|s| - 1], p);
      TrailingRunStep(s, p, n);
      n
    else 0
  }

  /** `t` is a slice of `s` with only characters satisfying `p` cut from either end. */
  predicate TrimmedBy(s: string, t: string, p: char -> bool) {
    exists i :: 0 <= i <= |s| - |t| && t == s[i..i + |t|] && All(s[..i], p) && All(s[i + |t|..], p)
  }

  /** A run of `p` characters ending just before the last one extends over it when it satisfies `p`. */
  lemma TrailingRunStep(s: string, p: char -> bool, n: nat)
    requires 0 < n <= |s| && p(s[|s| - 1]) && All(s[..|s| - 1][|s| - n..], p)
    ensures All(s[|s| - n..], p)
  {
    var run, front := s[|s| - n..], s[..|s| - 1][|s| - n..];
    forall k | 0 <= k < |run|
      ensures p(run[k])
    {
      if k < n - 1 {
        assert run[k] == front[k];
      }
    }
  }

  /**
   * `strings.TrimFunc`: the text with the leading and trailing characters
   * satisfying `p` removed; what remains sits between two such runs in `s`
   * and neither starts nor ends with such a character.
   */
  function TrimFunc(s: string, p: char -> bool): (t: string)
    ensures TrimmedBy(s, t, p)
    ensures t == [] || (!p(t[0]) && !p(t[|t| - 1]))
  {
    var i := LeadingRun(s, p);
    var j := TrailingRun(s[i..], p);
    TrimBounds(s, p, i, j);
    TrimShape(s, p, i, j);
    s[i..|s| - j]
  }

  /** The two runs that `TrimFunc` cuts, and the characters just inside them. */
  lemma {:induction false} TrimBounds(s: string, p: char -> bool, i: nat, j: nat)
    requires i == LeadingRun(s, p) && j == TrailingRun(s[i..], p)
    ensures i <= |s| - j
    ensures All(s[..i], p) && All(s[|s| - j..], p)
    ensures i == |s| - j || (!p(s[i]) && !p(s[|s| - j - 1]))
  {
    TrailingRunOfSuffix(s, i, p, j);
  }

  /** Cutting runs of `p` characters at both ends leaves a slice with no such character at either end. */
  lemma {:induction false} TrimShape(s: string, p: char -> bool, i: nat, j: nat)
    requires i <= |s| - j && j <= |s|
    requires All(s[..i], p) && All(s[|s| - j..], p)
    requires i == |s| - j || (!p(s[i]) && !p(s[|s| - j - 1]))
    ensures TrimmedBy(s, s[i..|s| - j], p)
    ensures var t := s[i..|s| - j];
      t == [] || (!p(t[0]) && !p(t[|t| - 1]))
  {
    var t := s[i..|s| - j];
    var e := i + |t|;
    assert e == |s| - j;
    assert t == s[i..e];
    assert All(s[e..], p);
  }

  /** A run at the end of a suffix of `s` is a run at the end of `s`. */
  lemma {:induction false} TrailingRunOfSuffix(s: string, i: nat, p: char -> bool, j: nat)
    requires i <= |s| && j == TrailingRun(s[i..], p)
    ensures j <= |s| - i && All(s[|s| - j..], p)
    ensures j == |s| - i || !p(s[|s| - j - 1])
  {
    var rest := s[i..];
    assert s[|s| - j..] == rest[|rest| - j..];
    if j < |rest| {
      assert s[|s| - j - 1] == rest[|rest| - j - 1];
    }
  }

  /** `strings.TrimSpace`: `TrimFunc` with `unicode.IsSpace`. */
  function TrimSpace(s: string): (t: string)
    ensures TrimmedBy(s, t, IsSpace)
    ensures t == [] || (!IsSpace(t[0]) && !IsSpace(t[|t| - 1]))
  {
    TrimFunc(s, IsSpace)
  }
}
