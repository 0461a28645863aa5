/** Discovery result extraction: the answer engine's reply text is searched
    for the pattern `/\[\s*\{.*\}\s*\]/s` (an array of objects embedded in
    prose) and the matched text is handed, unchanged, to JSON parsing. The
    pattern is re-expressed as a scanner; its meaning is stated by
    `ArrayShapeAt`, and the scanner is proved to select the match the
    regular-expression engine selects: the leftmost start, and at that start
    the longest match (the greedy `.*`). */
module ArrayExtractor {
  import opened Wrappers
  import opened Text
  import opened Replies

  /** s[a..b] lies within `s` and is all white space. */
  predicate SpaceBetween(s: string, a: int, b: int) {
    0 <= a <= b <= |s| && forall m :: a <= m < b ==> IsSpace(s[m])
  }

  /** The pattern matches exactly s[i..j]: an opening bracket, optional white
      space, an opening brace, any characters at all (the `s` flag lets `.`
      match line breaks), a closing brace, optional white space and a
      closing bracket. */
  ghost predicate ArrayShapeAt(s: string, i: int, j: int) {
    && 0 <= i < j <= |s|
    && s[i] == '[' && s[j - 1] == ']'
    && exists k, p ::
         && i < k < p < j - 1
         && SpaceBetween(s, i + 1, k) && s[k] == '{'
         && s[p] == '}' && SpaceBetween(s, p + 1, j - 1)
  }

  /** An array can start at `i`: a bracket whose first non-space successor is
      a brace. */
  predicate OpensAt(s: string, i: int) {
    0 <= i < |s| && s[i] == '[' && SkipSpace(s, i + 1) < |s| && s[SkipSpace(s, i + 1)] == '{'
  }

  /** An array can end after the brace at `p`: a brace whose first non-space
      successor is a bracket. */
  predicate ClosesAt(s: string, p: int) {
    0 <= p < |s| && s[p] == '}' && SkipSpace(s, p + 1) < |s| && s[SkipSpace(s, p + 1)] == ']'
  }

  /** The first position at or after `from` where an array can start. */
  function FirstOpen(s: string, from: nat): (r: Option<nat>)
    requires from <= |s|
    ensures r.Some? ==> from <= r.value && OpensAt(s, r.value)
    ensures r.Some? ==> forall m :: from <= m < r.value ==> !OpensAt(s, m)
    ensures r.None? ==> forall m :: from <= m ==> !OpensAt(s, m)
    decreases |s| - from
  {
    if from == |s| then None
    else if OpensAt(s, from) then Some(from)
    else FirstOpen(s, from + 1)
  }

  /** The last position strictly between `lo` and `hi` where an array can end. */
  function LastClose(s: string, lo: int, hi: nat): (r: Option<nat>)
    requires hi <= |s|
    ensures r.Some? ==> lo < r.value < hi && ClosesAt(s, r.value)
    ensures r.Some? ==> forall q :: r.value < q < hi ==> !ClosesAt(s, q)
    ensures r.None? ==> forall q :: lo < q < hi ==> !ClosesAt(s, q)
  {
    if hi == 0 || hi - 1 <= lo then None
    else if ClosesAt(s, hi - 1) then Some(hi - 1)
    else LastClose(s, lo, hi - 1)
  }

  /** The matched text is s[start..end]. */
  datatype Span = Span(start: nat, end: nat)

  /** Where the pattern matches, as the regular-expression engine chooses:
      no match anywhere gives None; otherwise the match is an array shape,
      no shape starts further left, and none from the same start is longer. */
  function FindArray(s: string): (r: Option<Span>)
    ensures r.None? <==> forall i, j :: !ArrayShapeAt(s, i, j)
    ensures r.Some? ==> ArrayShapeAt(s, r.value.start, r.value.end)
    ensures r.Some? ==> forall i, j :: 0 <= i < r.value.start ==> !ArrayShapeAt(s, i, j)
    ensures r.Some? ==> forall j :: r.value.end < j ==> !ArrayShapeAt(s, r.value.start, j)
  {
    ShapeStructure(s);
    match FirstOpen(s, 0)
    case None => None
    case Some(i) =>
      var k := SkipSpace(s, i + 1);
      match LastClose(s, k, |s|)
      case None =>
        NoCloseAfterFirstOpen(s, i);
        None
      case Some(p) =>
        var e := SkipSpace(s, p + 1) + 1;
        ShapeFrom(s, i, p);
        LongestAt(s, i, p);
        Some(Span(i, e))
  }

  /** White space up to a non-space character ends exactly there. */
  lemma SkipSpaceStops(s: string, a: int, k: int)
    requires SpaceBetween(s, a, k) && k < |s| && !IsSpace(s[k])
    ensures SkipSpace(s, a) == k
  {
  }

  /** Backwards, white space down to a non-space character ends just after it. */
  lemma SkipSpaceBackStops(s: string, p: int, j: int)
    requires 0 <= p && SpaceBetween(s, p + 1, j) && !IsSpace(s[p])
    ensures SkipSpaceBack(s, j) == p + 1
  {
  }

  /** The position of the closing brace of a shape ending at `j`: the last
      non-space character before the final bracket. */
  function BraceBefore(s: string, j: int): int
    requires 1 <= j <= |s|
  {
    SkipSpaceBack(s, j - 1) - 1
  }

  /** A shape starts where an array can start and ends after its closing
      brace's white space, where an array can end. */
  lemma ShapeParts(s: string, i: int, j: int)
    requires ArrayShapeAt(s, i, j)
    ensures OpensAt(s, i)
    ensures SkipSpace(s, i + 1) < BraceBefore(s, j) < |s|
    ensures ClosesAt(s, BraceBefore(s, j))
    ensures SkipSpace(s, BraceBefore(s, j) + 1) == j - 1
  {
    var k, p :| && i < k < p < j - 1
                && SpaceBetween(s, i + 1, k) && s[k] == '{'
                && s[p] == '}' && SpaceBetween(s, p + 1, j - 1);
    SkipSpaceStops(s, i + 1, k);
    SkipSpaceStops(s, p + 1, j - 1);
    SkipSpaceBackStops(s, p, j - 1);
  }

  /** Every shape has the structure `ShapeParts` describes. */
  lemma ShapeStructure(s: string)
    ensures forall i, j :: ArrayShapeAt(s, i, j) ==>
      && OpensAt(s, i)
      && SkipSpace(s, i + 1) < BraceBefore(s, j) < |s|
      && ClosesAt(s, BraceBefore(s, j))
      && SkipSpace(s, BraceBefore(s, j) + 1) == j - 1
  {
    forall i, j | ArrayShapeAt(s, i, j)
      ensures OpensAt(s, i)
      ensures SkipSpace(s, i + 1) < BraceBefore(s, j) < |s|
      ensures ClosesAt(s, BraceBefore(s, j))
      ensures SkipSpace(s, BraceBefore(s, j) + 1) == j - 1
    {
      ShapeParts(s, i, j);
    }
  }

  /** An opening followed by a later closing delimits a shape. */
  lemma ShapeFrom(s: string, i: int, p: int)
    requires OpensAt(s, i) && ClosesAt(s, p) && SkipSpace(s, i + 1) < p
    ensures ArrayShapeAt(s, i, SkipSpace(s, p + 1) + 1)
  {
    var k := SkipSpace(s, i + 1);
    var j := SkipSpace(s, p + 1) + 1;
    assert SpaceBetween(s, i + 1, k) && s[k] == '{';
    assert s[p] == '}' && SpaceBetween(s, p + 1, j - 1);
  }

  /** A later opening has its brace no earlier than an earlier opening. */
  lemma LaterOpenLaterBrace(s: string, i: int, i': int)
    requires OpensAt(s, i) && OpensAt(s, i') && i <= i'
    ensures SkipSpace(s, i + 1) <= SkipSpace(s, i' + 1)
  {
    if i < i' {
      assert !IsSpace(s[i']);
      assert SkipSpace(s, i + 1) <= i';
    }
  }

  /** Every shape's closing brace lies after the brace of the first
      opening. */
  lemma ShapesCloseAfterFirstOpen(s: string, i: nat)
    requires FirstOpen(s, 0) == Some(i)
    ensures forall i', j :: ArrayShapeAt(s, i', j) ==>
      SkipSpace(s, i + 1) < BraceBefore(s, j) < |s| && ClosesAt(s, BraceBefore(s, j))
  {
    ShapeStructure(s);
    forall i', j | ArrayShapeAt(s, i', j)
      ensures SkipSpace(s, i + 1) < BraceBefore(s, j)
    {
      assert i <= i';
      LaterOpenLaterBrace(s, i, i');
    }
  }

  /** When the first opening has no closing after its brace, no later opening
      has one either, so nothing matches. */
  lemma NoCloseAfterFirstOpen(s: string, i: nat)
    requires FirstOpen(s, 0) == Some(i)
    requires LastClose(s, SkipSpace(s, i + 1), |s|).None?
    ensures forall i', j :: !ArrayShapeAt(s, i', j)
  {
    ShapesCloseAfterFirstOpen(s, i);
  }

  /** From the start `i`, the match ending after the last closing brace `p`
      is the longest. */
  lemma LongestAt(s: string, i: nat, p: nat)
    requires OpensAt(s, i)
    requires LastClose(s, SkipSpace(s, i + 1), |s|) == Some(p)
    ensures forall j :: SkipSpace(s, p + 1) + 1 < j ==> !ArrayShapeAt(s, i, j)
  {
    ShapeStructure(s);
    var e := SkipSpace(s, p + 1) + 1;
    forall j | ArrayShapeAt(s, i, j)
      ensures j <= e
    {
      var p' := BraceBefore(s, j);
      assert p' <= p;
      if p' < p {
        assert !IsSpace(s[p]);
        assert SkipSpace(s, p' + 1) <= p;
      }
    }
  }

  /** JSON parsing's outcome as the service reports it: a syntax error is
      rethrown as it is. */
  function Parsed<J>(outcome: Result<J, string>): (r: Result<J, Error>)
    ensures r.Success? <==> outcome.Success?
    ensures r.Success? ==> r.value == outcome.value
    ensures r.Failure? ==> r.error == InvalidJson(outcome.error) && Message(r.error).None?
  {
    match outcome
    case Success(v) => Success(v)
    case Failure(detail) => Failure(InvalidJson(detail))
  }

  /** `parseDiscoveryResults`: the first choice's content is searched for the
      array pattern and the matched text alone is parsed; `jsonParse` stands
      for `JSON.parse`, whose value is returned unchanged (no element is
      dropped, reordered or adjusted). Fails with `NoValidJson` exactly when
      the content holds no array shape. */
  function ParseDiscoveryResults<J>(reply: Reply, jsonParse: string -> Result<J, string>): (r: Result<J, Error>)
    ensures Content(reply).Failure? ==> r == Failure(MissingContent)
    ensures Content(reply).Success? ==>
      (r == Failure(NoValidJson) <==> forall i, j :: !ArrayShapeAt(Content(reply).value, i, j))
    ensures Content(reply).Success? && FindArray(Content(reply).value).Some? ==>
      var t, span := Content(reply).value, FindArray(Content(reply).value).value;
      && span.start < span.end <= |t|
      && t[span.start] == '[' && t[span.end - 1] == ']'
      && r == Parsed(jsonParse(t[span.start..span.end]))
  {
    match Content(reply)
    case Failure(e) => Failure(e)
    case Success(content) =>
      match FindArray(content)
      case None => Failure(NoValidJson)
      case Some(span) => Parsed(jsonParse(content[span.start..span.end]))
  }

  /** The array of the worked example: its second element has no name. */
  const ExampleArray := "[{\"name\": \"A\"}, {\"role\": \"x\"}]"

  /** The worked example's reply text: the array between prose. */
  const ExampleText := "Found: " + ExampleArray + "."

  lemma ExampleShape()
    ensures ArrayShapeAt(ExampleText, 7, 7 + |ExampleArray|)
  {
    var t, e := ExampleText, 7 + |ExampleArray|;
    assert t[7] == '[' && t[e - 1] == ']';
    assert SpaceBetween(t, 8, 8) && t[8] == '{';
    assert t[e - 2] == '}' && SpaceBetween(t, e - 1, e - 1);
  }

  /** A shape with no opening bracket before it and no closing bracket after
      it is exactly what the scanner selects. */
  lemma SoleShapeSelected(s: string, i: int, j: int)
    requires ArrayShapeAt(s, i, j)
    requires forall m :: 0 <= m < i ==> s[m] != '['
    requires forall m :: j <= m < |s| ==> s[m] != ']'
    ensures FindArray(s) == Some(Span(i, j))
  {
    var span := FindArray(s).value;
    assert span.start <= i;
    assert span.start >= i;
    assert span.end >= j;
    assert span.end <= j;
  }

  lemma ExampleSpan()
    ensures FindArray(ExampleText) == Some(Span(7, 7 + |ExampleArray|))
  {
    var t, e := ExampleText, 7 + |ExampleArray|;
    ExampleShape();
    assert forall m :: 0 <= m < 7 ==> t[m] != '[';
    assert forall m :: e <= m < |t| ==> t[m] != ']';
    SoleShapeSelected(t, 7, e);
  }

  /** An array of two objects inside prose is selected whole and parsed as
      it is: the element without a name is passed on, not dropped. */
  lemma ArrayInProse<J>(jsonParse: string -> Result<J, string>)
    ensures ParseDiscoveryResults(Reply([Choice(ExampleText)]), jsonParse) == Parsed(jsonParse(ExampleArray))
  {
    ExampleSpan();
    assert ExampleText[7..7 + |ExampleArray|] == ExampleArray;
  }
}
