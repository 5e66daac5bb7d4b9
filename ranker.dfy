/** The weighted ranker: four sub-scores per feed item, a weighted sum
    written back into each item, then a stable descending sort and a top-k
    cut. A feed item is a mutable record: its inputs never change and the
    ranker fills in its score and its feature breakdown. */
module Ranker {
  import opened Models
  import opened Seqs
  import Sorting

  /** `feature_breakdown`: the four sub-scores behind a score. */
  datatype Breakdown = Breakdown(content: real, recency: real, popularity: real, community: real)

  /** One feed entry. `contentSim` and `recency` are the entry's features
      (None when the key is absent) and `community` its community (None
      when absent). */
  class FeedItem {
    const itemId: ItemId
    const sources: set<Tag>
    const contentSim: Option<real>
    const recency: Option<real>
    const community: Option<string>
    var score: Option<real>
    var breakdown: Option<Breakdown>

    constructor (itemId: ItemId, sources: set<Tag>, contentSim: Option<real>, recency: Option<real>,
                 community: Option<string>)
      ensures this.itemId == itemId && this.sources == sources
      ensures this.contentSim == contentSim && this.recency == recency && this.community == community
      ensures score.None? && breakdown.None?
    {
      this.itemId := itemId;
      this.sources := sources;
      this.contentSim := contentSim;
      this.recency := recency;
      this.community := community;
      score := None;
      breakdown := None;
    }
  }

  /** Python truthiness of an optional string. */
  predicate Truthy(s: Option<string>) {
    s.Some? && s.value != ""
  }

  class EnhancedRanker {
    const wContent: real
    const wRecency: real
    const wPopularity: real
    const wCommunityMatch: real

    /** Defaults: 0.4, 0.25, 0.15, 0.2. */
    constructor (wContent: real, wRecency: real, wPopularity: real, wCommunityMatch: real)
      ensures this.wContent == wContent && this.wRecency == wRecency
      ensures this.wPopularity == wPopularity && this.wCommunityMatch == wCommunityMatch
    {
      this.wContent := wContent;
      this.wRecency := wRecency;
      this.wPopularity := wPopularity;
      this.wCommunityMatch := wCommunityMatch;
    }

    /** `_calculate_popularity_score`: local trending beats global trending
        beats no popularity signal. */
    function PopularityScore(sources: set<Tag>): (r: real)
      ensures 0.3 <= r <= 1.0
      ensures r == 1.0 <==> PopCommTag in sources
      ensures PopCommTag !in sources ==> (r == 0.7 <==> PopGlobalTag in sources)
      ensures r == 0.3 <==> PopCommTag !in sources && PopGlobalTag !in sources
    {
      if PopCommTag in sources then 1.0
      else if PopGlobalTag in sources then 0.7
      else 0.3
    }

    /** `_calculate_community_match_score`. */
    function CommunityMatchScore(sources: set<Tag>, userCommunity: Option<string>, itemCommunity: Option<string>): (r: real)
      ensures 0.3 <= r <= 1.0
      ensures r == 1.0 <==> Truthy(userCommunity) && itemCommunity == userCommunity
      ensures !(Truthy(userCommunity) && itemCommunity == userCommunity) ==> (r == 0.6 <==> PopCommTag in sources)
      ensures r == 0.3 <==> !(Truthy(userCommunity) && itemCommunity == userCommunity) && PopCommTag !in sources
    {
      if Truthy(userCommunity) && itemCommunity == userCommunity then 1.0
      else if PopCommTag in sources then 0.6
      else 0.3
    }

    /** The sub-scores of an entry with the given fields. */
    function BreakdownOf(sources: set<Tag>, contentSim: Option<real>, recency: Option<real>,
                         itemCommunity: Option<string>, userCommunity: Option<string>): Breakdown
    {
      Breakdown(contentSim.GetOr(0.0), recency.GetOr(0.0), PopularityScore(sources),
                CommunityMatchScore(sources, userCommunity, itemCommunity))
    }

    /** The weighted combination of a breakdown. */
    function Weighted(b: Breakdown): real {
      wContent * b.content + wRecency * b.recency + wPopularity * b.popularity + wCommunityMatch * b.community
    }

    /** `item["score"]` as the loop computes it; it reads only the entry's
        immutable fields. */
    function Score(it: FeedItem, userCommunity: Option<string>): real {
      Weighted(BreakdownOf(it.sources, it.contentSim, it.recency, it.community, userCommunity))
    }

    function ScoreKey(userCommunity: Option<string>): FeedItem -> real {
      (it: FeedItem) => Score(it, userCommunity)
    }

    /** What `rank` returns: the entries sorted by score, highest first and
        ties in input order, cut to `top_k`. */
    function Ranked(items: seq<FeedItem>, userCommunity: Option<string>, topK: int): seq<FeedItem> {
      PyTake(Sorting.SortDesc(items, ScoreKey(userCommunity)), topK)
    }

    /** `rank`. Every entry, including those the cut drops, gets its score
        and breakdown; the sort then orders by the score just written. */
    method Rank(items: seq<FeedItem>, userCommunity: Option<string>, topK: int) returns (ranked: seq<FeedItem>)
      modifies set it | it in items
      ensures forall j :: 0 <= j < |items| ==>
                items[j].score == Some(Score(items[j], userCommunity)) &&
                items[j].breakdown == Some(BreakdownOf(items[j].sources, items[j].contentSim, items[j].recency,
                                                       items[j].community, userCommunity))
      ensures ranked == Ranked(items, userCommunity, topK)
    {
      var i := 0;
      while i < |items|
        invariant i <= |items|
        invariant forall j :: 0 <= j < i ==>
                    items[j].score == Some(Score(items[j], userCommunity)) &&
                    items[j].breakdown == Some(BreakdownOf(items[j].sources, items[j].contentSim, items[j].recency,
                                                           items[j].community, userCommunity))
      {
        var item := items[i];
        var contentScore := item.contentSim.GetOr(0.0);
        var recencyScore := item.recency.GetOr(0.0);
        var popularityScore := PopularityScore(item.sources);
        var communityScore := CommunityMatchScore(item.sources, userCommunity, item.community);
        var totalScore := wContent * contentScore + wRecency * recencyScore +
                          wPopularity * popularityScore + wCommunityMatch * communityScore;
        assert totalScore == Score(item, userCommunity);
        item.score := Some(totalScore);
        item.breakdown := Some(Breakdown(contentScore, recencyScore, popularityScore, communityScore));
        i := i + 1;
      }
      ranked := Ranked(items, userCommunity, topK);
    }

    /** The ranked list holds min(len(items), top_k) entries (for a
        non-negative top_k), in non-increasing score order, and is a prefix
        of a permutation of the input. */
    lemma RankedIsSortedPrefix(items: seq<FeedItem>, userCommunity: Option<string>, topK: int)
      ensures var r := Ranked(items, userCommunity, topK);
              var sorted := Sorting.SortDesc(items, ScoreKey(userCommunity));
              (topK >= 0 ==> |r| == Min(topK, |items|)) &&
              Sorting.SortedDesc(r, ScoreKey(userCommunity)) &&
              multiset(sorted) == multiset(items) && r == sorted[..|r|]
    {
      var sorted := Sorting.SortDesc(items, ScoreKey(userCommunity));
      Sorting.SortDescCorrect(items, ScoreKey(userCommunity));
      Sorting.PrefixSorted(sorted, ScoreKey(userCommunity), |Ranked(items, userCommunity, topK)|);
    }

    /** Nothing the cut drops outscores anything it keeps. */
    lemma RankedKeepsTheBest(items: seq<FeedItem>, userCommunity: Option<string>, topK: int, i: nat, j: nat)
      requires i < |Ranked(items, userCommunity, topK)| <= j < |items|
      ensures Score(Ranked(items, userCommunity, topK)[i], userCommunity) >=
              Score(Sorting.SortDesc(items, ScoreKey(userCommunity))[j], userCommunity)
    {
      var key := ScoreKey(userCommunity);
      Sorting.SortDescCorrect(items, key);
      var sorted := Sorting.SortDesc(items, key);
      assert Ranked(items, userCommunity, topK)[i] == sorted[i];
      assert key(sorted[i]) >= key(sorted[j]);
    }

    /** Equal scores keep their input order: for every score value, the
        kept entries carrying it are the first ones carrying it in the input. */
    lemma RankedIsStable(items: seq<FeedItem>, userCommunity: Option<string>, topK: int, v: real)
      ensures var key := ScoreKey(userCommunity);
              var kept := Sorting.WithKey(Ranked(items, userCommunity, topK), key, v);
              |kept| <= |Sorting.WithKey(items, key, v)| && kept == Sorting.WithKey(items, key, v)[..|kept|]
    {
      var key := ScoreKey(userCommunity);
      var sorted := Sorting.SortDesc(items, key);
      Sorting.SortDescCorrect(items, key);
      Sorting.WithKeyOfPrefix(sorted, key, v, |Ranked(items, userCommunity, topK)|);
    }

    /** With non-negative weights, an extra provenance tag never lowers an
        entry's score. */
    lemma MoreSourcesNeverLowerTheScore(sources: set<Tag>, more: set<Tag>, contentSim: Option<real>,
                                        recency: Option<real>, itemCommunity: Option<string>,
                                        userCommunity: Option<string>)
      requires sources <= more
      requires wPopularity >= 0.0 && wCommunityMatch >= 0.0
      ensures Weighted(BreakdownOf(sources, contentSim, recency, itemCommunity, userCommunity)) <=
              Weighted(BreakdownOf(more, contentSim, recency, itemCommunity, userCommunity))
    {
      var p, p' := PopularityScore(sources), PopularityScore(more);
      var c, c' := CommunityMatchScore(sources, userCommunity, itemCommunity),
                   CommunityMatchScore(more, userCommunity, itemCommunity);
      assert p <= p' && c <= c';
      assert wPopularity * p <= wPopularity * p';
      assert wCommunityMatch * c <= wCommunityMatch * c';
    }

    /** With non-negative weights and features in [0, 1], a score lies
        between 0 and the sum of the weights. */
    lemma ScoreBounds(b: Breakdown)
      requires wContent >= 0.0 && wRecency >= 0.0 && wPopularity >= 0.0 && wCommunityMatch >= 0.0
      requires 0.0 <= b.content <= 1.0 && 0.0 <= b.recency <= 1.0
      requires 0.0 <= b.popularity <= 1.0 && 0.0 <= b.community <= 1.0
      ensures 0.0 <= Weighted(b) <= wContent + wRecency + wPopularity + wCommunityMatch
    {
      ScaledUnit(wContent, b.content);
      ScaledUnit(wRecency, b.recency);
      ScaledUnit(wPopularity, b.popularity);
      ScaledUnit(wCommunityMatch, b.community);
      SumBounds(wContent * b.content, wRecency * b.recency, wPopularity * b.popularity, wCommunityMatch * b.community,
                wContent, wRecency, wPopularity, wCommunityMatch);
    }
  }

  lemma ScaledUnit(w: real, x: real)
    requires w >= 0.0 && 0.0 <= x <= 1.0
    ensures 0.0 <= w * x <= w
  {
    assert w * (1.0 - x) >= 0.0;
  }

  lemma SumBounds(a: real, b: real, c: real, d: real, ma: real, mb: real, mc: real, md: real)
    requires 0.0 <= a <= ma && 0.0 <= b <= mb && 0.0 <= c <= mc && 0.0 <= d <= md
    ensures 0.0 <= a + b + c + d <= ma + mb + mc + md
  {
  }
}
