/** The discovery-and-enrichment service: each operation builds a prompt,
    obtains the answer engine's reply and extracts from it. The engine is a
    parameter (`engine` maps a prompt to the reply it gets), as is JSON
    parsing; each invocation is independent of every other. */
module DataCollection {
  import opened Wrappers
  import opened Text
  import opened Records
  import opened Replies
  import opened QueryBuilder
  import opened ArrayExtractor
  import opened Enrichment

  /** The founder carries a truthy first and last name. */
  predicate HasName(f: Founder) {
    Truthy(f.firstName) && Truthy(f.lastName)
  }

  const ResearchHead := "Research "

  const ResearchTail := " entrepreneur Australia startup background projects"

  /** The single-subject research prompt, refused with `NameRequired` unless
      both names are present and non-empty. On success it starts with
      `Research ` and the first name, ends with the last name and the fixed
      tail, and holds exactly one space between the two names. */
  function ResearchPrompt(f: Founder): (r: Result<string, Error>)
    ensures r.Failure? <==> !HasName(f)
    ensures r.Failure? ==> r.error == NameRequired
    ensures r.Failure? ==> Message(r.error) == Some("Founder name is required for enrichment")
    ensures r.Success? ==>
      && |r.value| == |ResearchHead| + |f.firstName.value| + 1 + |f.lastName.value| + |ResearchTail|
      && OccursAt(r.value, ResearchHead + f.firstName.value, 0)
      && OccursAt(r.value, " " + f.lastName.value + ResearchTail, |ResearchHead| + |f.firstName.value|)
  {
    if !HasName(f) then Failure(NameRequired)
    else
      var first, last := f.firstName.value, f.lastName.value;
      var q := ResearchHead + first + " " + last + ResearchTail;
      assert q == (ResearchHead + first) + (" " + last + ResearchTail);
      Success(q)
  }

  /** `enrichFounderProfile`: the name check comes before any request; then
      the engine's reply to the research prompt is read and the extracted
      fields are merged into the record. */
  function EnrichFounderProfile(f: Founder, engine: string -> Reply): (r: Result<Founder, Error>)
    ensures !HasName(f) ==> r == Failure(NameRequired)
    ensures HasName(f) ==>
      var reply := engine(ResearchPrompt(f).value);
      && (|reply.choices| == 0 ==> r == Failure(MissingContent))
      && (|reply.choices| > 0 ==> r == Success(ExtractInsights(reply.choices[0].content, f)))
  {
    match ResearchPrompt(f)
    case Failure(e) => Failure(e)
    case Success(q) =>
      match Content(engine(q))
      case Failure(e) => Failure(e)
      case Success(insights) => Success(ExtractInsights(insights, f))
  }

  /** Without a name the outcome is the same whatever the engine would have
      answered: no request is made. */
  lemma NameCheckedBeforeRequest(f: Founder, engine: string -> Reply, other: string -> Reply)
    requires !HasName(f)
    ensures EnrichFounderProfile(f, engine) == EnrichFounderProfile(f, other) == Failure(NameRequired)
  {
  }

  /** Enriching an enriched record against an engine that answers the same
      prompt the same way changes nothing more: extraction leaves the names,
      hence the prompt, as they were. */
  lemma EnrichIdempotent(f: Founder, engine: string -> Reply)
    requires EnrichFounderProfile(f, engine).Success?
    ensures EnrichFounderProfile(EnrichFounderProfile(f, engine).value, engine)
         == EnrichFounderProfile(f, engine)
  {
    var g := EnrichFounderProfile(f, engine).value;
    var insights := engine(ResearchPrompt(f).value).choices[0].content;
    assert g == ExtractInsights(insights, f);
    assert g.firstName == f.firstName && g.lastName == f.lastName;
    assert ResearchPrompt(g) == ResearchPrompt(f);
    ExtractIdempotent(insights, f);
  }

  /** `discoverFounders`: the engine's reply to the discovery prompt is
      searched for an array and the matched text is parsed; a reply without
      an array shape fails with `NoValidJson`. */
  function DiscoverFounders<J>(c: Criteria, engine: string -> Reply, jsonParse: string -> Result<J, string>)
    : (r: Result<J, Error>)
    ensures var reply := engine(BuildDiscoveryQuery(c));
      && (|reply.choices| == 0 ==> r == Failure(MissingContent))
      && (|reply.choices| > 0 ==>
            (r == Failure(NoValidJson) <==> forall i, j :: !ArrayShapeAt(reply.choices[0].content, i, j)))
      && (|reply.choices| > 0 && FindArray(reply.choices[0].content).Some? ==>
            var t, span := reply.choices[0].content, FindArray(reply.choices[0].content).value;
            r == Parsed(jsonParse(t[span.start..span.end])))
  {
    ParseDiscoveryResults(engine(BuildDiscoveryQuery(c)), jsonParse)
  }
}
