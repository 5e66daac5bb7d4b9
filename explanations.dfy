/** The one-line explanation shown next to a recommendation: the first rule
    that applies, in a fixed priority order, picks the text. */
module Explanations {
  import opened Models

  /** The rule that fired. `Trending` carries the community it names. */
  datatype Reason =
    | SimilarInterest
    | SimilarTastes
    | Trending(community: string)
    | NewThisWeek
    | PopularNow
    | Recommended

  /** The first rule that applies to an entry with these provenance tags,
      recency feature (None when absent, read as 0.0) and community (None
      when absent, read as "your area"). */
  function FiredReason(sources: set<Tag>, recency: Option<real>, community: Option<string>): (r: Reason)
    ensures r == SimilarInterest <==> ContentTag in sources
    ensures r == SimilarTastes <==> ContentTag !in sources && CfTag in sources
    ensures r.Trending? <==> ContentTag !in sources && CfTag !in sources && PopCommTag in sources
    ensures r.Trending? ==> r.community == community.GetOr("your area")
    ensures r == NewThisWeek <==>
              ContentTag !in sources && CfTag !in sources && PopCommTag !in sources && recency.GetOr(0.0) > 0.6
    ensures r == PopularNow <==>
              ContentTag !in sources && CfTag !in sources && PopCommTag !in sources &&
              recency.GetOr(0.0) <= 0.6 && PopGlobalTag in sources
  {
    if ContentTag in sources then SimilarInterest
    else if CfTag in sources then SimilarTastes
    else if PopCommTag in sources then Trending(community.GetOr("your area"))
    else if recency.GetOr(0.0) > 0.6 then NewThisWeek
    else if PopGlobalTag in sources then PopularNow
    else Recommended
  }

  const TrendingPrefix: string := "Trending in "

  function ReasonText(r: Reason): string {
    match r
    case SimilarInterest => "Similar to your recent interest"
    case SimilarTastes => "People with similar tastes also liked this"
    case Trending(c) => TrendingPrefix + c
    case NewThisWeek => "New this week"
    case PopularNow => "Popular right now"
    case Recommended => "Recommended for you"
  }

  /** `reason_for`. */
  function ReasonFor(sources: set<Tag>, recency: Option<real>, community: Option<string>): string {
    ReasonText(FiredReason(sources, recency, community))
  }

  /** Reads back the rule from an explanation text. */
  function ParseReason(s: string): Option<Reason> {
    if s == "Similar to your recent interest" then Some(SimilarInterest)
    else if s == "People with similar tastes also liked this" then Some(SimilarTastes)
    else if |s| >= |TrendingPrefix| && s[..|TrendingPrefix|] == TrendingPrefix then Some(Trending(s[|TrendingPrefix|..]))
    else if s == "New this week" then Some(NewThisWeek)
    else if s == "Popular right now" then Some(PopularNow)
    else if s == "Recommended for you" then Some(Recommended)
    else None
  }

  /** Every text names exactly one rule: the text can be read back to the
      rule (and community) that produced it, so no two rules share a text. */
  lemma ReasonTextRoundTrip(r: Reason)
    ensures ParseReason(ReasonText(r)) == Some(r)
  {
    if r.Trending? {
      TrendingRoundTrip(r.community);
    } else {
      var s := ReasonText(r);
      assert s[0] != 'T';
      if |s| >= |TrendingPrefix| {
        assert s[..|TrendingPrefix|][0] == s[0];
      }
    }
  }

  lemma TrendingRoundTrip(c: string)
    ensures ParseReason(TrendingPrefix + c) == Some(Trending(c))
  {
    var s := TrendingPrefix + c;
    assert s[..|TrendingPrefix|] == TrendingPrefix && s[|TrendingPrefix|..] == c;
    assert s[0] == 'T';
  }

  /** So `reason_for` determines the rule that fired. */
  lemma ReasonForIdentifiesRule(sources: set<Tag>, recency: Option<real>, community: Option<string>)
    ensures ParseReason(ReasonFor(sources, recency, community)) == Some(FiredReason(sources, recency, community))
  {
    ReasonTextRoundTrip(FiredReason(sources, recency, community));
  }
}
