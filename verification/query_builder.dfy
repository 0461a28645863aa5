/** The discovery prompt builder: structured search criteria become one
    natural-language request for the answer engine. Each criterion adds a
    clause only when it is truthy, always in the order diversity, industry,
    stage, location, between a fixed opening and fixed output instructions. */
module QueryBuilder {
  import opened Wrappers
  import opened Text

  /** Discovery criteria; every field may be absent. */
  datatype Criteria = Criteria(
    location: Option<string>,
    industry: Option<string>,
    stage: Option<string>,
    diversity: Option<seq<string>>)

  const NoCriteria := Criteria(None, None, None, None)

  const Opening := "Find Australian startup founders who are "

  const Instructions := ". For each founder, provide: their full name, current role, company name, location, brief description of their work, and LinkedIn URL if available. Format the response as a JSON array of objects with these fields: name, role, company, location, description, linkedinUrl, confidence (0-1)."

  /** The diversity criterion is truthy: present with at least one term. */
  predicate HasDiversity(c: Criteria) {
    c.diversity.Some? && |c.diversity.value| > 0
  }

  /** No criterion is truthy. */
  predicate Unconstrained(c: Criteria) {
    !HasDiversity(c) && !Truthy(c.industry) && !Truthy(c.stage) && !Truthy(c.location)
  }

  function DiversityClause(c: Criteria): string {
    if HasDiversity(c) then Join(c.diversity.value, " or ") + " " else ""
  }

  function IndustryClause(c: Criteria): string {
    if Truthy(c.industry) then "in the " + c.industry.value + " industry " else ""
  }

  function StageClause(c: Criteria): string {
    if Truthy(c.stage) then "at " + c.stage.value + " stage " else ""
  }

  function LocationClause(c: Criteria): string {
    if Truthy(c.location) then "based in " + c.location.value + " " else ""
  }

  /** The discovery prompt: the opening, the clauses of the truthy criteria
      in their fixed order, then the instructions. It is the bare opening and
      instructions exactly when no criterion is truthy. */
  function BuildDiscoveryQuery(c: Criteria): (q: string)
    ensures |q| >= |Opening| + |Instructions|
    ensures OccursAt(q, Opening, 0)
    ensures OccursAt(q, Instructions, |q| - |Instructions|)
    ensures q == Opening + Instructions <==> Unconstrained(c)
  {
    Opening + DiversityClause(c) + IndustryClause(c) + StageClause(c)
      + LocationClause(c) + Instructions
  }

  /** With no criteria at all the prompt is the opening followed directly by
      the instructions. */
  lemma NoCriteriaQuery()
    ensures BuildDiscoveryQuery(NoCriteria) == Opening + Instructions
  {
  }

  /** The prompt is as long as its fixed parts and its clauses together. */
  lemma QueryLength(c: Criteria)
    ensures |BuildDiscoveryQuery(c)| == |Opening| + |DiversityClause(c)| + |IndustryClause(c)|
      + |StageClause(c)| + |LocationClause(c)| + |Instructions|
  {
  }

  /** A criterion changes the prompt if and only if it is truthy: an empty
      string or an empty list contributes nothing. */
  lemma ClauseContributes(c: Criteria)
    ensures BuildDiscoveryQuery(c.(diversity := None)) == BuildDiscoveryQuery(c) <==> !HasDiversity(c)
    ensures BuildDiscoveryQuery(c.(industry := None)) == BuildDiscoveryQuery(c) <==> !Truthy(c.industry)
    ensures BuildDiscoveryQuery(c.(stage := None)) == BuildDiscoveryQuery(c) <==> !Truthy(c.stage)
    ensures BuildDiscoveryQuery(c.(location := None)) == BuildDiscoveryQuery(c) <==> !Truthy(c.location)
  {
    var cd, ci, cs, cl := c.(diversity := None), c.(industry := None), c.(stage := None), c.(location := None);
    QueryLength(c);
    QueryLength(cd);
    QueryLength(ci);
    QueryLength(cs);
    QueryLength(cl);
    assert DiversityClause(cd) == [] && IndustryClause(ci) == [] && StageClause(cs) == [] && LocationClause(cl) == [];
    assert IndustryClause(cd) == IndustryClause(c) && StageClause(cd) == StageClause(c) && LocationClause(cd) == LocationClause(c);
    assert DiversityClause(ci) == DiversityClause(c) && StageClause(ci) == StageClause(c) && LocationClause(ci) == LocationClause(c);
    assert DiversityClause(cs) == DiversityClause(c) && IndustryClause(cs) == IndustryClause(c) && LocationClause(cs) == LocationClause(c);
    assert DiversityClause(cl) == DiversityClause(c) && IndustryClause(cl) == IndustryClause(c) && StageClause(cl) == StageClause(c);
  }

  /** Each truthy criterion's clause, with the criterion's text in it, sits
      in the prompt after the opening, and the clauses follow one another in
      the order diversity, industry, stage, location. */
  lemma ClausesInOrder(c: Criteria)
    ensures var q := BuildDiscoveryQuery(c);
      var d := |Opening|;
      var i := d + |DiversityClause(c)|;
      var s := i + |IndustryClause(c)|;
      var l := s + |StageClause(c)|;
      && d <= i <= s <= l <= |q| - |Instructions|
      && (HasDiversity(c) ==> d < i && OccursAt(q, Join(c.diversity.value, " or ") + " ", d))
      && (Truthy(c.industry) ==> i < s && OccursAt(q, "in the " + c.industry.value + " industry ", i))
      && (Truthy(c.stage) ==> s < l && OccursAt(q, "at " + c.stage.value + " stage ", s))
      && (Truthy(c.location) ==> OccursAt(q, "based in " + c.location.value + " ", l))
  {
    Layout(Opening, DiversityClause(c), IndustryClause(c), StageClause(c), LocationClause(c), Instructions);
    assert |" "| == 1 && |"in the "| == 7 && |"at "| == 3;
  }

  /** Where each of six concatenated parts sits in the concatenation. */
  lemma Layout(o: string, d: string, i: string, s: string, l: string, n: string)
    ensures var q := o + d + i + s + l + n;
      && OccursAt(q, d, |o|)
      && OccursAt(q, i, |o| + |d|)
      && OccursAt(q, s, |o| + |d| + |i|)
      && OccursAt(q, l, |o| + |d| + |i| + |s|)
  {
    var q := o + d + i + s + l + n;
    assert q == o + d + (i + s + l + n);
    Between(o, d, i + s + l + n);
    assert q == (o + d) + i + (s + l + n);
    Between(o + d, i, s + l + n);
    assert q == (o + d + i) + s + (l + n);
    Between(o + d + i, s, l + n);
    Between(o + d + i + s, l, n);
  }

  /** The middle part of a three-part concatenation. */
  lemma Between(a: string, b: string, c: string)
    ensures OccursAt(a + b + c, b, |a|)
  {
    assert (a + b + c)[|a|..|a| + |b|] == b;
  }

  /** An industry and a location given together appear in that order. */
  lemma IndustryBeforeLocation(c: Criteria)
    requires Truthy(c.industry) && Truthy(c.location)
    ensures exists i, j ::
              && i < j
              && OccursAt(BuildDiscoveryQuery(c), "in the " + c.industry.value + " industry ", i)
              && OccursAt(BuildDiscoveryQuery(c), "based in " + c.location.value + " ", j)
  {
    ClausesInOrder(c);
    var i := |Opening| + |DiversityClause(c)|;
    var l := i + |IndustryClause(c)| + |StageClause(c)|;
    assert OccursAt(BuildDiscoveryQuery(c), "in the " + c.industry.value + " industry ", i);
    assert OccursAt(BuildDiscoveryQuery(c), "based in " + c.location.value + " ", l);
  }

  /** The end-to-end example: a fintech industry and an Adelaide location. */
  lemma FintechAdelaideExample()
    ensures exists i, j ::
              && i < j
              && OccursAt(BuildDiscoveryQuery(Criteria(Some("Adelaide"), Some("fintech"), None, None)), "in the fintech industry ", i)
              && OccursAt(BuildDiscoveryQuery(Criteria(Some("Adelaide"), Some("fintech"), None, None)), "based in Adelaide ", j)
  {
    var c := Criteria(Some("Adelaide"), Some("fintech"), None, None);
    assert "in the " + c.industry.value + " industry " == "in the fintech industry ";
    assert "based in " + c.location.value + " " == "based in Adelaide ";
    IndustryBeforeLocation(c);
  }
}
