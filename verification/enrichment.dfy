/** Profile enrichment's field extraction: three independent pattern
    searches over the answer engine's reply text, each writing one field of
    the partial founder record only when its pattern matches. */
module Enrichment {
  import opened Wrappers
  import opened Text
  import opened Records
  import opened PatternScan

  /** What is put in front of the matched `linkedin.com/in/<handle>` text. */
  const LinkOrigin := "https://www."

  /** The canonical profile address a handle is appended to. */
  const ProfileUrlPrefix := "https://www.linkedin.com/in/"

  /** The handle of the first LinkedIn profile link in the text: the maximal
      run of letters, digits and hyphens after the first `linkedin.com/in/`
      that is followed by at least one of them. Matching is case-sensitive. */
  function LinkedInHandle(text: string): (h: Option<string>)
    ensures h.None? <==> forall i :: !MatchesAt(text, i, LinkedInPattern)
    ensures h.Some? ==> exists i :: CapturedAt(text, LinkedInPattern, i, h.value)
    ensures h.Some? ==> |h.value| > 0 && forall c :: c in h.value ==> InClass(HandleChar, c)
  {
    match Search(text, LinkedInPattern)
    case None => None
    case Some(m) =>
      assert CapturedAt(text, LinkedInPattern, m.start, Group(text, LinkedInPattern, m));
      Some(Group(text, LinkedInPattern, m))
  }

  /** The place after the first `based in ` (any letter case) that is followed
      by something other than a comma or period: the maximal run without
      commas and periods, trimmed. It may be empty after trimming. */
  function BasedIn(text: string): (place: Option<string>)
    ensures place.None? <==> forall i :: !MatchesAt(text, i, LocationPattern)
    ensures place.Some? ==> exists i, run :: CapturedAt(text, LocationPattern, i, run) && place.value == Trim(run)
    ensures place.Some? ==> ',' !in place.value && '.' !in place.value
    ensures place.Some? ==> Trim(place.value) == place.value
  {
    match Search(text, LocationPattern)
    case None => None
    case Some(m) =>
      var run := Group(text, LocationPattern, m);
      assert CapturedAt(text, LocationPattern, m.start, run);
      TrimAddsNothing(run, ',');
      TrimAddsNothing(run, '.');
      TrimIdempotent(run);
      Some(Trim(run))
  }

  /** The text after the first `background:` (any letter case) that is
      followed by something other than a period: the maximal run without
      periods, trimmed. It may be empty after trimming. */
  function Background(text: string): (bio: Option<string>)
    ensures bio.None? <==> forall i :: !MatchesAt(text, i, BackgroundPattern)
    ensures bio.Some? ==> exists i, run :: CapturedAt(text, BackgroundPattern, i, run) && bio.value == Trim(run)
    ensures bio.Some? ==> '.' !in bio.value
    ensures bio.Some? ==> Trim(bio.value) == bio.value
  {
    match Search(text, BackgroundPattern)
    case None => None
    case Some(m) =>
      var run := Group(text, BackgroundPattern, m);
      assert CapturedAt(text, BackgroundPattern, m.start, run);
      TrimAddsNothing(run, '.');
      TrimIdempotent(run);
      Some(Trim(run))
  }

  /** The LinkedIn step as written: the whole match behind the origin
      becomes the profile address; it is the canonical address of the
      handle. Nothing else changes. */
  function ApplyLinkedIn(insights: string, f: Founder): (r: Founder)
    ensures r.linkedinUrl == (match LinkedInHandle(insights)
                              case Some(h) => Some(ProfileUrlPrefix + h)
                              case None => f.linkedinUrl)
    ensures r.(linkedinUrl := f.linkedinUrl) == f
  {
    match Search(insights, LinkedInPattern)
    case Some(m) =>
      LinkMatchIsCanonical(insights, m);
      f.(linkedinUrl := Some(LinkOrigin + insights[m.start..m.end]))
    case None => f
  }

  /** The location step as written: the run is trimmed, split at commas,
      each part trimmed; the first part becomes the city and the second the
      state, each only when non-empty. As the run holds no comma, the city is
      the trimmed run and the state is never written. */
  function ApplyLocation(insights: string, f: Founder): (r: Founder)
    ensures r.city == (match BasedIn(insights)
                       case Some(place) => if place != "" then Some(place) else f.city
                       case None => f.city)
    ensures r.(city := f.city) == f
  {
    match Search(insights, LocationPattern)
    case Some(m) =>
      var location := Trim(Group(insights, LocationPattern, m));
      var parts := TrimAll(SplitOn(location, ','));
      var city := parts[0];
      var state := SecondPart(parts);
      assert BasedIn(insights) == Some(location);
      SinglePlace(location);
      assert city == location && state == None;
      var g := if city != "" then f.(city := Some(city)) else f;
      if Truthy(state) then g.(state := state) else g
    case None => f
  }

  /** The second name of `const [city, state] = parts`: `undefined` when
      there is no second part. */
  function SecondPart(parts: seq<string>): (r: Option<string>)
    ensures r.Some? <==> |parts| >= 2
    ensures r.Some? ==> r.value == parts[1]
  {
    if |parts| > 1 then Some(parts[1]) else None
  }

  /** The background step as written: the trimmed run becomes the bio, even
      when it is empty. Nothing else changes. */
  function ApplyBackground(insights: string, f: Founder): (r: Founder)
    ensures r.bio == (match Background(insights)
                      case Some(bio) => Some(bio)
                      case None => f.bio)
    ensures r.(bio := f.bio) == f
  {
    match Search(insights, BackgroundPattern)
    case Some(m) => f.(bio := Some(Trim(Group(insights, BackgroundPattern, m))))
    case None => f
  }

  /** `extractInsights`: the three steps applied in turn. Each field is
      written only when its pattern matches (the city only when non-empty),
      the state is never written, and no other field is touched. */
  function ExtractInsights(insights: string, f: Founder): (r: Founder)
    ensures r.linkedinUrl == (match LinkedInHandle(insights)
                              case Some(h) => Some(ProfileUrlPrefix + h)
                              case None => f.linkedinUrl)
    ensures r.city == (match BasedIn(insights)
                       case Some(place) => if place != "" then Some(place) else f.city
                       case None => f.city)
    ensures r.bio == (match Background(insights)
                      case Some(bio) => Some(bio)
                      case None => f.bio)
    ensures r.state == f.state
    ensures r.(linkedinUrl := f.linkedinUrl, city := f.city, bio := f.bio) == f
  {
    ApplyBackground(insights, ApplyLocation(insights, ApplyLinkedIn(insights, f)))
  }

  /** The whole LinkedIn match, behind the origin, is the canonical profile
      address of its handle. */
  lemma LinkMatchIsCanonical(s: string, m: Match)
    requires Search(s, LinkedInPattern) == Some(m)
    ensures LinkOrigin + s[m.start..m.end] == ProfileUrlPrefix + Group(s, LinkedInPattern, m)
  {
    var lit := LinkedInPattern.literal;
    var g := Group(s, LinkedInPattern, m);
    assert s[m.start..m.end] == lit + g by {
      assert LiteralAt(s, m.start, LinkedInPattern);
      assert forall k :: 0 <= k < |lit| ==> s[m.start + k] == lit[k];
      assert s[m.start..m.start + |lit|] == lit;
      assert s[m.start..m.end] == s[m.start..m.start + |lit|] + g;
    }
    assert LinkOrigin + lit == ProfileUrlPrefix;
    Regroup(LinkOrigin, lit, g);
  }

  lemma Regroup(a: string, b: string, c: string)
    ensures a + (b + c) == (a + b) + c
  {
  }

  /** A trimmed location without commas splits into itself alone, and
      trimming it again changes nothing: it is the city and there is no
      state. */
  lemma SinglePlace(location: string)
    requires ',' !in location && Trim(location) == location
    ensures TrimAll(SplitOn(location, ',')) == [location]
  {
    SplitWithoutSeparator(location, ',');
  }

  /** Extracting twice from the same reply gives what extracting once gives. */
  lemma ExtractIdempotent(insights: string, f: Founder)
    ensures ExtractInsights(insights, ExtractInsights(insights, f)) == ExtractInsights(insights, f)
  {
  }

  /** A reply in which none of the three patterns matches leaves the record
      as it was. */
  lemma NoMatchLeavesRecord(insights: string, f: Founder)
    requires forall i :: !MatchesAt(insights, i, LinkedInPattern)
    requires forall i :: !MatchesAt(insights, i, LocationPattern)
    requires forall i :: !MatchesAt(insights, i, BackgroundPattern)
    ensures ExtractInsights(insights, f) == f
  {
  }

  /** The worked example: `Based In Sydney, NSW` (any letter case) sets the
      city to `Sydney`; the state after the comma is not captured, so the
      record's state stays as it was. */
  lemma SydneyExample(f: Founder)
    ensures ExtractInsights("Based In Sydney, NSW", f).city == Some("Sydney")
    ensures ExtractInsights("Based In Sydney, NSW", f).state == f.state
  {
    SydneyPlace();
  }

  lemma SydneyPlace()
    ensures BasedIn("Based In Sydney, NSW") == Some("Sydney")
  {
    var t := "Based In Sydney, NSW";
    assert LiteralAt(t, 0, LocationPattern);
    assert MatchesAt(t, 0, LocationPattern);
    assert forall k :: 9 <= k < 15 ==> InClass(NotCommaOrPeriod, t[k]);
    assert !InClass(NotCommaOrPeriod, t[15]);
    SearchFromStart(t, LocationPattern, 15);
    assert t[9..15] == "Sydney";
    TrimmedUnchanged("Sydney");
  }
}
