/** The three field-extraction patterns of profile enrichment, each of the
    shape `literal(class+)`: a fixed literal (compared case-insensitively
    under the `i` flag) followed by a maximal non-empty run of characters from
    one class. A regular-expression search returns the match at the leftmost
    position where the literal is followed by at least one class character;
    the greedy `+` then takes the whole run. */
module PatternScan {
  import opened Wrappers
  import opened Text

  /** The character classes the patterns use for their runs. */
  datatype CharClass =
    | HandleChar        // [a-zA-Z0-9-]
    | NotCommaOrPeriod  // [^,.]
    | NotPeriod         // [^.]

  predicate InClass(k: CharClass, c: char) {
    match k
    case HandleChar => ('a' <= c <= 'z') || ('A' <= c <= 'Z') || ('0' <= c <= '9') || c == '-'
    case NotCommaOrPeriod => c != ',' && c != '.'
    case NotPeriod => c != '.'
  }

  datatype Pattern = Pattern(literal: string, ignoreCase: bool, run: CharClass)

  /** `/linkedin\.com\/in\/[a-zA-Z0-9-]+/` */
  const LinkedInPattern := Pattern("linkedin.com/in/", false, HandleChar)

  /** `/based in ([^,.]+)/i` */
  const LocationPattern := Pattern("based in ", true, NotCommaOrPeriod)

  /** `/background:([^.]+)/i` */
  const BackgroundPattern := Pattern("background:", true, NotPeriod)

  /** A pattern character matches a text character: exactly, or under the
      `i` flag up to ASCII case (the patterns are ASCII, and a non-Unicode
      case-insensitive match never folds a non-ASCII character onto an
      ASCII one). */
  predicate SameChar(ignoreCase: bool, p: char, c: char) {
    if ignoreCase then LowerAscii(p) == LowerAscii(c) else p == c
  }

  /** The pattern's literal occurs at `i`. */
  predicate LiteralAt(s: string, i: int, p: Pattern) {
    && 0 <= i && i + |p.literal| <= |s|
    && forall m :: 0 <= m < |p.literal| ==> SameChar(p.ignoreCase, p.literal[m], s[i + m])
  }

  /** The pattern matches at `i`: its literal, then at least one character of
      its class. */
  predicate MatchesAt(s: string, i: int, p: Pattern) {
    LiteralAt(s, i, p) && i + |p.literal| < |s| && InClass(p.run, s[i + |p.literal|])
  }

  /** The end of the maximal run of class characters starting at `i`. */
  function RunEnd(s: string, k: CharClass, i: nat): (e: nat)
    requires i <= |s|
    ensures i <= e <= |s|
    ensures forall m :: i <= m < e ==> InClass(k, s[m])
    ensures e < |s| ==> !InClass(k, s[e])
    decreases |s| - i
  {
    if i < |s| && InClass(k, s[i]) then RunEnd(s, k, i + 1) else i
  }

  /** The first position at or after `from` where the pattern matches. */
  function FindFrom(s: string, p: Pattern, from: nat): (r: Option<nat>)
    requires from <= |s|
    ensures r.Some? ==> from <= r.value && MatchesAt(s, r.value, p)
    ensures r.Some? ==> forall i :: from <= i < r.value ==> !MatchesAt(s, i, p)
    ensures r.None? ==> forall i :: from <= i ==> !MatchesAt(s, i, p)
    decreases |s| - from
  {
    if from == |s| then None
    else if MatchesAt(s, from, p) then Some(from)
    else FindFrom(s, p, from + 1)
  }

  /** A match: the whole matched text is s[start..end]; the run the pattern
      captures begins after the literal. */
  datatype Match = Match(start: nat, end: nat)

  /** `String.prototype.match` with a non-global pattern: the leftmost match,
      with its run taken as far as it goes. */
  function Search(s: string, p: Pattern): (r: Option<Match>)
    ensures r.None? <==> forall i :: !MatchesAt(s, i, p)
    ensures r.Some? ==> MatchesAt(s, r.value.start, p)
    ensures r.Some? ==> forall i :: 0 <= i < r.value.start ==> !MatchesAt(s, i, p)
    ensures r.Some? ==> r.value.start + |p.literal| < r.value.end <= |s|
    ensures r.Some? ==> forall m :: r.value.start + |p.literal| <= m < r.value.end ==> InClass(p.run, s[m])
    ensures r.Some? && r.value.end < |s| ==> !InClass(p.run, s[r.value.end])
  {
    match FindFrom(s, p, 0)
    case None => None
    case Some(i) => Some(Match(i, RunEnd(s, p.run, i + |p.literal|)))
  }

  /** The pattern matches at `i` and nowhere further left. */
  predicate LeftmostMatchAt(s: string, i: int, p: Pattern) {
    MatchesAt(s, i, p) && forall i' :: 0 <= i' < i ==> !MatchesAt(s, i', p)
  }

  /** `run` is what the pattern captures in `s`: the maximal run of class
      characters after the literal of its leftmost match at `i`. */
  predicate CapturedAt(s: string, p: Pattern, i: int, run: string) {
    LeftmostMatchAt(s, i, p) && run == s[i + |p.literal|..RunEnd(s, p.run, i + |p.literal|)]
  }

  /** A pattern captures at most one run: the leftmost match is unique. */
  lemma CaptureUnique(s: string, p: Pattern, i: int, run: string, i': int, run': string)
    requires CapturedAt(s, p, i, run) && CapturedAt(s, p, i', run')
    ensures i == i' && run == run'
  {
  }

  /** The run a match captures (the regular expression's group, or for the
      LinkedIn pattern the handle). */
  function Group(s: string, p: Pattern, m: Match): string
    requires m.start + |p.literal| <= m.end <= |s|
  {
    s[m.start + |p.literal|..m.end]
  }

  /** A match at the very start, whose run of class characters stops at `e`,
      is what the search returns. */
  lemma SearchFromStart(s: string, p: Pattern, e: int)
    requires MatchesAt(s, 0, p)
    requires |p.literal| < e <= |s|
    requires forall m :: |p.literal| <= m < e ==> InClass(p.run, s[m])
    requires e < |s| ==> !InClass(p.run, s[e])
    ensures Search(s, p) == Some(Match(0, e))
  {
    var m := Search(s, p).value;
    assert m.start == 0;
    assert m.end <= e;
    assert m.end >= e;
  }
}
