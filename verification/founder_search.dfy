/** The search form's selection lists and criteria normalisation. Selected
    tags and selected diversity terms are ordered lists: a tag is added only
    when absent and removed with every occurrence; a diversity term is
    toggled. Before a search or a discovery, empty inputs become absent. */
module FounderSearch {
  import opened Wrappers
  import opened Text
  import opened QueryBuilder
  import opened Replies
  import DataCollection

  predicate NoDuplicates(xs: seq<string>) {
    forall i, j :: 0 <= i < j < |xs| ==> xs[i] != xs[j]
  }

  /** `handleTagAdd`: the list with `t` at the end if it was absent, else
      the list unchanged. */
  function AddTag(xs: seq<string>, t: string): (r: seq<string>)
    ensures forall x :: x in r <==> x in xs || x == t
    ensures |r| == if t in xs then |xs| else |xs| + 1
    ensures r[..|xs|] == xs
    ensures NoDuplicates(xs) ==> NoDuplicates(r)
  {
    if t in xs then xs else xs + [t]
  }

  /** `handleTagRemove`: every occurrence of `t` is dropped, every other
      element kept as often as it was. */
  function RemoveTag(xs: seq<string>, t: string): (r: seq<string>)
    ensures forall x :: x in r <==> x in xs && x != t
    ensures multiset(r) == multiset(xs)[t := 0]
    ensures t !in xs ==> r == xs
  {
    if |xs| == 0 then []
    else
      assert xs == [xs[0]] + xs[1..];
      assert multiset(xs) == multiset{xs[0]} + multiset(xs[1..]);
      if xs[0] == t then RemoveTag(xs[1..], t)
      else [xs[0]] + RemoveTag(xs[1..], t)
  }

  /** Removal keeps relative order: removing from a concatenation removes
      from each part. */
  lemma {:induction false} RemoveDistributes(a: seq<string>, b: seq<string>, t: string)
    ensures RemoveTag(a + b, t) == RemoveTag(a, t) + RemoveTag(b, t)
    decreases |a|
  {
    if |a| > 0 {
      assert (a + b)[0] == a[0];
      assert (a + b)[1..] == a[1..] + b;
      RemoveDistributes(a[1..], b, t);
    } else {
      assert a + b == b;
    }
  }

  /** Removal keeps a duplicate-free list duplicate-free. */
  lemma {:induction false} RemoveKeepsNoDuplicates(xs: seq<string>, t: string)
    requires NoDuplicates(xs)
    ensures NoDuplicates(RemoveTag(xs, t))
    decreases |xs|
  {
    if |xs| > 0 {
      RemoveKeepsNoDuplicates(xs[1..], t);
      assert xs[0] !in xs[1..];
    }
  }

  /** Adding a tag that is already there changes nothing. */
  lemma AddIdempotent(xs: seq<string>, t: string)
    ensures AddTag(AddTag(xs, t), t) == AddTag(xs, t)
  {
  }

  /** Adding an absent tag and removing it again restores the list. */
  lemma AddThenRemove(xs: seq<string>, t: string)
    requires t !in xs
    ensures RemoveTag(AddTag(xs, t), t) == xs
  {
    RemoveDistributes(xs, [t], t);
    assert RemoveTag([t], t) == [];
  }

  /** `handleDiversityToggle`: a selected term is removed entirely, an
      unselected one is appended. */
  function Toggle(xs: seq<string>, d: string): (r: seq<string>)
    ensures d in r <==> d !in xs
    ensures forall x :: x != d ==> (x in r <==> x in xs)
    ensures d in xs ==> r == RemoveTag(xs, d)
    ensures d !in xs ==> r == AddTag(xs, d)
  {
    if d in xs then RemoveTag(xs, d) else xs + [d]
  }

  /** Toggling an unselected term twice restores the selection. */
  lemma ToggleTwiceAbsent(xs: seq<string>, d: string)
    requires d !in xs
    ensures Toggle(Toggle(xs, d), d) == xs
  {
    AddThenRemove(xs, d);
  }

  /** Toggling a selected term twice moves it to the end of the selection. */
  lemma ToggleTwicePresent(xs: seq<string>, d: string)
    requires d in xs
    ensures Toggle(Toggle(xs, d), d) == RemoveTag(xs, d) + [d]
  {
  }

  /** Toggling a new term onto a non-empty selection extends the prompt's
      diversity clause by ` or ` and the term. */
  lemma ToggleExtendsDiversityClause(c: Criteria, d: string)
    requires HasDiversity(c) && d !in c.diversity.value
    ensures DiversityClause(c.(diversity := Some(Toggle(c.diversity.value, d))))
         == Join(c.diversity.value, " or ") + " or " + d + " "
  {
    JoinAppend(c.diversity.value, d, " or ");
  }

  /** `value || undefined` for a string input. */
  function OrUndefined(s: string): (r: Option<string>)
    ensures r.None? <==> s == ""
    ensures r.Some? ==> r.value == s
  {
    if s == "" then None else Some(s)
  }

  /** `list.length > 0 ? list : undefined`. */
  function NonEmptyOrUndefined(xs: seq<string>): (r: Option<seq<string>>)
    ensures r.None? <==> |xs| == 0
    ensures r.Some? ==> r.value == xs
  {
    if |xs| == 0 then None else Some(xs)
  }

  /** The store search filter built by `handleSearch`. */
  datatype SearchFilter = SearchFilter(location: Option<string>, industry: Option<string>, tags: Option<seq<string>>)

  /** `handleSearch`'s criteria: empty inputs are absent, others passed on. */
  function SearchCriteria(location: string, industry: string, tags: seq<string>): (r: SearchFilter)
    ensures r.location.None? <==> location == ""
    ensures r.industry.None? <==> industry == ""
    ensures r.tags.None? <==> |tags| == 0
    ensures r.location.GetOr("") == location && r.industry.GetOr("") == industry && r.tags.GetOr([]) == tags
  {
    SearchFilter(OrUndefined(location), OrUndefined(industry), NonEmptyOrUndefined(tags))
  }

  /** `handleDiscovery`'s criteria: empty inputs are absent, others passed on. */
  function DiscoveryCriteria(location: string, industry: string, stage: string, diversity: seq<string>): (r: Criteria)
    ensures r.location.None? <==> location == ""
    ensures r.industry.None? <==> industry == ""
    ensures r.stage.None? <==> stage == ""
    ensures r.diversity.None? <==> |diversity| == 0
    ensures r.location.GetOr("") == location && r.industry.GetOr("") == industry
    ensures r.stage.GetOr("") == stage && r.diversity.GetOr([]) == diversity
  {
    Criteria(OrUndefined(location), OrUndefined(industry), OrUndefined(stage), NonEmptyOrUndefined(diversity))
  }

  /** Normalisation does not change the discovery prompt: an absent
      criterion and an empty one contribute the same, nothing. */
  lemma NormalisationKeepsPrompt(location: string, industry: string, stage: string, diversity: seq<string>)
    ensures BuildDiscoveryQuery(DiscoveryCriteria(location, industry, stage, diversity))
         == BuildDiscoveryQuery(Criteria(Some(location), Some(industry), Some(stage), Some(diversity)))
  {
    var c := DiscoveryCriteria(location, industry, stage, diversity);
    var raw := Criteria(Some(location), Some(industry), Some(stage), Some(diversity));
    assert DiversityClause(c) == DiversityClause(raw);
    assert IndustryClause(c) == IndustryClause(raw);
    assert StageClause(c) == StageClause(raw);
    assert LocationClause(c) == LocationClause(raw);
  }

  /** Normalisation does not change what a discovery returns: against the
      same engine and parser, normalised and raw inputs give the same
      outcome. */
  lemma DiscoveryIgnoresNormalisation<J>(location: string, industry: string, stage: string, diversity: seq<string>,
                                         engine: string -> Reply, jsonParse: string -> Result<J, string>)
    ensures DataCollection.DiscoverFounders(DiscoveryCriteria(location, industry, stage, diversity), engine, jsonParse)
         == DataCollection.DiscoverFounders(Criteria(Some(location), Some(industry), Some(stage), Some(diversity)), engine, jsonParse)
  {
    NormalisationKeepsPrompt(location, industry, stage, diversity);
  }
}
