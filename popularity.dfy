/** Time-decayed popularity: every timestamped interaction adds
    `weight(type) * decay(age)` to its item's global score and, when the
    item has a community, to that community's score; the ranked lists are
    rebuilt wholesale on each refresh and sliced on query. */
module Popularity {
  import opened Models
  import opened Seqs
  import Sorting

  /** Weight of one interaction; here a dismissal counts -1.0, unknown types 1.0. */
  function InteractionWeight(interactionType: string): (w: real)
    ensures interactionType == "dismiss" ==> w == -1.0
    ensures interactionType !in {"view", "click", "like", "book", "attend", "dismiss"} ==> w == 1.0
  {
    if interactionType == "view" then 1.0
    else if interactionType == "click" then 1.5
    else if interactionType == "like" then 2.0
    else if interactionType == "book" then 3.0
    else if interactionType == "attend" then 3.0
    else if interactionType == "dismiss" then -1.0
    else 1.0
  }

  datatype PopularItem = PopularItem(itemId: ItemId, score: real)

  function PopularScore(p: PopularItem): real { p.score }

  /** One row of the join of interactions with their items. */
  datatype PopRow = PopRow(itemId: ItemId, community: string, timestamp: Option<Timestamp>, interactionType: string)

  /** The inner join `Interaction JOIN Item ON Item.id == Interaction.item_id`,
      in interaction-table order. */
  function JoinedRows(db: Database): seq<PopRow> {
    JoinRows(db.items, db.interactions)
  }

  function JoinRows(items: map<ItemId, Item>, s: seq<Interaction>): (r: seq<PopRow>)
    ensures |r| <= |s|
  {
    if s == [] then []
    else
      (if s[0].itemId in items
       then [PopRow(s[0].itemId, items[s[0].itemId].community, s[0].timestamp, s[0].interactionType)]
       else []) + JoinRows(items, s[1..])
  }

  /** The abstract exponential `x |-> 0.5 ** x`. */
  type HalfPower = real -> real

  /** The decay can be computed for every row that needs it: the half-life is
      non-zero, or no row carries a timestamp (otherwise the division raises). */
  predicate Decayable(rows: seq<PopRow>, halfLifeDays: real) {
    halfLifeDays != 0.0 || forall k :: 0 <= k < |rows| ==> rows[k].timestamp.None?
  }

  /** The score one timestamped row adds: weight times the decay of its age in days. */
  function RowScore(r: PopRow, now: Timestamp, halfLifeDays: real, pow: HalfPower): real
    requires r.timestamp.Some? && halfLifeDays != 0.0
  {
    InteractionWeight(r.interactionType) * pow((((now - r.timestamp.value) as real) / 86400.0) / halfLifeDays)
  }

  /** A Python dict item_id -> score, which remembers first insertion order. */
  datatype ScoreTable = ScoreTable(keys: seq<ItemId>, scores: map<ItemId, real>) {
    predicate Valid() {
      Distinct(keys) && (forall k :: 0 <= k < |keys| ==> keys[k] in scores) && (forall x :: x in scores ==> x in keys)
    }

    /** `d[id] = d.get(id, 0.0) + s`. */
    function Add(id: ItemId, s: real): ScoreTable {
      if id in scores then ScoreTable(keys, scores[id := scores[id] + s])
      else ScoreTable(keys + [id], scores[id := 0.0 + s])
    }

    /** `d.items()`, in insertion order. */
    function Items(): (r: seq<PopularItem>)
      requires Valid()
      ensures |r| == |keys|
      ensures forall k :: 0 <= k < |keys| ==> r[k] == PopularItem(keys[k], scores[keys[k]])
    {
      ItemsOf(keys, scores)
    }
  }

  const EmptyTable := ScoreTable([], map[])

  function ItemsOf(keys: seq<ItemId>, scores: map<ItemId, real>): (r: seq<PopularItem>)
    requires forall k :: 0 <= k < |keys| ==> keys[k] in scores
    ensures |r| == |keys|
    ensures forall k :: 0 <= k < |keys| ==> r[k] == PopularItem(keys[k], scores[keys[k]])
  {
    if keys == [] then [] else [PopularItem(keys[0], scores[keys[0]])] + ItemsOf(keys[1..], scores)
  }

  lemma AddValid(t: ScoreTable, id: ItemId, s: real)
    requires t.Valid()
    ensures t.Add(id, s).Valid()
  {
  }

  /** One row's contribution to the global table. */
  function AddRow(g: ScoreTable, r: PopRow, now: Timestamp, halfLifeDays: real, pow: HalfPower): ScoreTable
    requires r.timestamp.Some? ==> halfLifeDays != 0.0
  {
    if r.timestamp.None? then g else g.Add(r.itemId, RowScore(r, now, halfLifeDays, pow))
  }

  /** One row's contribution to the per-community tables. */
  function AddCommunityRow(cs: map<string, ScoreTable>, r: PopRow, now: Timestamp, halfLifeDays: real,
                           pow: HalfPower): map<string, ScoreTable>
    requires r.timestamp.Some? ==> halfLifeDays != 0.0
  {
    if r.timestamp.None? || r.community == "" then cs
    else
      var t := if r.community in cs then cs[r.community] else EmptyTable;
      cs[r.community := t.Add(r.itemId, RowScore(r, now, halfLifeDays, pow))]
  }

  /** `global_scores` after the loop has consumed `rows`. */
  function GlobalScores(rows: seq<PopRow>, now: Timestamp, halfLifeDays: real, pow: HalfPower): (g: ScoreTable)
    requires Decayable(rows, halfLifeDays)
    ensures g.Valid()
  {
    if rows == [] then EmptyTable
    else AddRow(GlobalScores(rows[..|rows| - 1], now, halfLifeDays, pow), rows[|rows| - 1], now, halfLifeDays, pow)
  }

  /** `comm_scores` after the loop has consumed `rows`. */
  function CommunityScores(rows: seq<PopRow>, now: Timestamp, halfLifeDays: real, pow: HalfPower): (cs: map<string, ScoreTable>)
    requires Decayable(rows, halfLifeDays)
    ensures forall c :: c in cs ==> c != "" && cs[c].Valid()
  {
    if rows == [] then map[]
    else AddCommunityRow(CommunityScores(rows[..|rows| - 1], now, halfLifeDays, pow), rows[|rows| - 1], now, halfLifeDays, pow)
  }

  lemma ScoresStep(rows: seq<PopRow>, n: nat, now: Timestamp, halfLifeDays: real, pow: HalfPower)
    requires n < |rows| && Decayable(rows[..n + 1], halfLifeDays)
    ensures Decayable(rows[..n], halfLifeDays)
    ensures GlobalScores(rows[..n + 1], now, halfLifeDays, pow) ==
            AddRow(GlobalScores(rows[..n], now, halfLifeDays, pow), rows[n], now, halfLifeDays, pow)
    ensures CommunityScores(rows[..n + 1], now, halfLifeDays, pow) ==
            AddCommunityRow(CommunityScores(rows[..n], now, halfLifeDays, pow), rows[n], now, halfLifeDays, pow)
  {
    assert rows[..n + 1][..n] == rows[..n] && rows[..n + 1][n] == rows[n];
  }

  /** Reference definition: the summed score of the timestamped rows that
      satisfy the selection (an item, optionally restricted to a community). */
  function ScoreSum(rows: seq<PopRow>, id: ItemId, community: Option<string>, now: Timestamp,
                    halfLifeDays: real, pow: HalfPower): real
    requires Decayable(rows, halfLifeDays)
  {
    if rows == [] then 0.0
    else
      var r := rows[|rows| - 1];
      ScoreSum(rows[..|rows| - 1], id, community, now, halfLifeDays, pow) +
      (if r.timestamp.Some? && r.itemId == id && (community.None? || community == Some(r.community))
       then RowScore(r, now, halfLifeDays, pow) else 0.0)
  }

  predicate HasScoredRow(rows: seq<PopRow>, id: ItemId) {
    exists k :: 0 <= k < |rows| && rows[k].timestamp.Some? && rows[k].itemId == id
  }

  predicate HasScoredCommunityRow(rows: seq<PopRow>, community: string) {
    exists k :: 0 <= k < |rows| && rows[k].timestamp.Some? && rows[k].community == community
  }

  predicate HasScoredRowIn(rows: seq<PopRow>, community: string, id: ItemId) {
    exists k :: 0 <= k < |rows| && rows[k].timestamp.Some? && rows[k].community == community && rows[k].itemId == id
  }

  lemma ScoredRowPrefix(rows: seq<PopRow>, id: ItemId, community: string)
    requires rows != []
    ensures HasScoredRow(rows, id) <==>
            HasScoredRow(rows[..|rows| - 1], id) ||
            (rows[|rows| - 1].timestamp.Some? && rows[|rows| - 1].itemId == id)
    ensures HasScoredCommunityRow(rows, community) <==>
            HasScoredCommunityRow(rows[..|rows| - 1], community) ||
            (rows[|rows| - 1].timestamp.Some? && rows[|rows| - 1].community == community)
    ensures HasScoredRowIn(rows, community, id) <==>
            HasScoredRowIn(rows[..|rows| - 1], community, id) ||
            (rows[|rows| - 1].timestamp.Some? && rows[|rows| - 1].community == community && rows[|rows| - 1].itemId == id)
  {
    var init := rows[..|rows| - 1];
    if HasScoredRow(init, id) {
      var k :| 0 <= k < |init| && init[k].timestamp.Some? && init[k].itemId == id;
      assert rows[k] == init[k];
    }
    if HasScoredCommunityRow(init, community) {
      var k :| 0 <= k < |init| && init[k].timestamp.Some? && init[k].community == community;
      assert rows[k] == init[k];
    }
    if HasScoredRowIn(init, community, id) {
      var k :| 0 <= k < |init| && init[k].timestamp.Some? && init[k].community == community && init[k].itemId == id;
      assert rows[k] == init[k];
    }
  }

  lemma {:induction false} ScoreSumAbsent(rows: seq<PopRow>, id: ItemId, community: Option<string>,
                                          now: Timestamp, halfLifeDays: real, pow: HalfPower)
    requires Decayable(rows, halfLifeDays)
    requires community.None? ==> !HasScoredRow(rows, id)
    requires community.Some? ==> !HasScoredRowIn(rows, community.value, id)
    ensures ScoreSum(rows, id, community, now, halfLifeDays, pow) == 0.0
  {
    if rows != [] {
      ScoredRowPrefix(rows, id, community.GetOr(""));
      ScoreSumAbsent(rows[..|rows| - 1], id, community, now, halfLifeDays, pow);
    }
  }

  /** The global table holds exactly the items with a timestamped row, each
      with the sum of its rows' decayed weights; rows without a timestamp
      contribute nothing. */
  lemma {:induction false} GlobalScoresAreSums(rows: seq<PopRow>, now: Timestamp, halfLifeDays: real, pow: HalfPower)
    requires Decayable(rows, halfLifeDays)
    ensures GlobalScores(rows, now, halfLifeDays, pow).Valid()
    ensures forall id :: id in GlobalScores(rows, now, halfLifeDays, pow).scores <==> HasScoredRow(rows, id)
    ensures forall id :: id in GlobalScores(rows, now, halfLifeDays, pow).scores ==>
              GlobalScores(rows, now, halfLifeDays, pow).scores[id] == ScoreSum(rows, id, None, now, halfLifeDays, pow)
  {
    if rows != [] {
      var init := rows[..|rows| - 1];
      var r := rows[|rows| - 1];
      GlobalScoresAreSums(init, now, halfLifeDays, pow);
      var g := GlobalScores(init, now, halfLifeDays, pow);
      forall id
        ensures HasScoredRow(rows, id) <==> HasScoredRow(init, id) || (r.timestamp.Some? && r.itemId == id)
      {
        ScoredRowPrefix(rows, id, "");
      }
      if r.timestamp.Some? {
        AddValid(g, r.itemId, RowScore(r, now, halfLifeDays, pow));
        if r.itemId !in g.scores {
          ScoreSumAbsent(init, r.itemId, None, now, halfLifeDays, pow);
        }
      }
    }
  }

  /** A community has a table exactly when it is non-empty and has a
      timestamped row. */
  lemma {:induction false} CommunityTablePresent(rows: seq<PopRow>, now: Timestamp, halfLifeDays: real, pow: HalfPower, c: string)
    requires Decayable(rows, halfLifeDays)
    ensures c in CommunityScores(rows, now, halfLifeDays, pow) <==> c != "" && HasScoredCommunityRow(rows, c)
  {
    if rows != [] {
      ScoredRowPrefix(rows, 0, c);
      CommunityTablePresent(rows[..|rows| - 1], now, halfLifeDays, pow, c);
    }
  }

  /** A community's table holds exactly the items with a timestamped row in
      that community, each with the sum over those rows. */
  lemma {:induction false} CommunityTableIsSums(rows: seq<PopRow>, now: Timestamp, halfLifeDays: real, pow: HalfPower,
                                                c: string, id: ItemId)
    requires Decayable(rows, halfLifeDays)
    requires c in CommunityScores(rows, now, halfLifeDays, pow)
    ensures id in CommunityScores(rows, now, halfLifeDays, pow)[c].scores <==> HasScoredRowIn(rows, c, id)
    ensures id in CommunityScores(rows, now, halfLifeDays, pow)[c].scores ==>
              CommunityScores(rows, now, halfLifeDays, pow)[c].scores[id] == ScoreSum(rows, id, Some(c), now, halfLifeDays, pow)
  {
    var init := rows[..|rows| - 1];
    var r := rows[|rows| - 1];
    var cs := CommunityScores(init, now, halfLifeDays, pow);
    ScoredRowPrefix(rows, id, c);
    if c in cs {
      CommunityTableIsSums(init, now, halfLifeDays, pow, c, id);
    } else {
      CommunityTablePresent(init, now, halfLifeDays, pow, c);
      assert !HasScoredRowIn(init, c, id);
    }
    if r.timestamp.Some? && r.community == c && r.itemId == id {
      var t := if c in cs then cs[c] else EmptyTable;
      if id !in t.scores {
        ScoreSumAbsent(init, id, Some(c), now, halfLifeDays, pow);
      }
    }
  }

  /** `[PopularItem(i, s) for i, s in sorted(d.items(), key=score, reverse=True)[:top_k]]`. */
  function TopList(t: ScoreTable, topK: int): seq<PopularItem>
    requires t.Valid()
  {
    PyTake(Sorting.SortDesc(t.Items(), PopularScore), topK)
  }

  /** A ranked list is non-increasing, `top_k` long (or all of the table
      when that is shorter), and a prefix of a permutation of the table. */
  lemma TopListOrdered(t: ScoreTable, topK: int)
    requires t.Valid()
    ensures Sorting.SortedDesc(TopList(t, topK), PopularScore)
    ensures topK >= 0 ==> |TopList(t, topK)| == Min(topK, |t.keys|)
    ensures var sorted := Sorting.SortDesc(t.Items(), PopularScore);
            multiset(sorted) == multiset(t.Items()) && TopList(t, topK) == sorted[..|TopList(t, topK)|]
  {
    var sorted := Sorting.SortDesc(t.Items(), PopularScore);
    Sorting.SortDescCorrect(t.Items(), PopularScore);
    Sorting.PrefixSorted(sorted, PopularScore, |TopList(t, topK)|);
  }

  /** The cut keeps the highest scores: no table entry left out of a ranked
      list outscores an entry in it. */
  lemma TopListKeepsTheBest(t: ScoreTable, topK: int, p: PopularItem, q: PopularItem)
    requires t.Valid()
    requires p in TopList(t, topK) && q in t.Items() && q !in TopList(t, topK)
    ensures q.score <= p.score
  {
    var sorted := Sorting.SortDesc(t.Items(), PopularScore);
    var top := TopList(t, topK);
    assert top == sorted[..|top|];
    Sorting.CutKeepsTheBest(t.Items(), PopularScore, |top|, p, q);
  }

  /** Every entry of a ranked list is an item of the table with its table
      score, and no item appears twice. */
  lemma TopListEntries(t: ScoreTable, topK: int)
    requires t.Valid()
    ensures forall p :: p in TopList(t, topK) ==> p.itemId in t.scores && p.score == t.scores[p.itemId]
    ensures forall i, j :: 0 <= i < j < |TopList(t, topK)| ==> TopList(t, topK)[i].itemId != TopList(t, topK)[j].itemId
  {
    TopListFromTable(t, topK);
    TopListDistinct(t, topK);
    forall p | p in TopList(t, topK)
      ensures p.itemId in t.scores && p.score == t.scores[p.itemId]
    {
      ItemInTable(t, p);
    }
  }

  lemma ItemInTable(t: ScoreTable, p: PopularItem)
    requires t.Valid() && p in t.Items()
    ensures p.itemId in t.scores && p.score == t.scores[p.itemId]
  {
    var k :| 0 <= k < |t.Items()| && t.Items()[k] == p;
  }

  /** A table lists each id once, so two different entries have different ids. */
  lemma ItemIdsDistinct(t: ScoreTable, a: PopularItem, b: PopularItem)
    requires t.Valid() && a in t.Items() && b in t.Items() && a != b
    ensures a.itemId != b.itemId
  {
    ItemInTable(t, a);
    ItemInTable(t, b);
  }

  lemma TopListFromTable(t: ScoreTable, topK: int)
    requires t.Valid()
    ensures forall p :: p in TopList(t, topK) ==> p in t.Items()
  {
    var items := t.Items();
    var sorted := Sorting.SortDesc(items, PopularScore);
    Sorting.SortDescMembers(items, PopularScore);
    var top := TopList(t, topK);
    assert top == sorted[..|top|];
    forall p | p in top
      ensures p in items
    {
      assert p in sorted;
    }
  }

  lemma TopListDistinct(t: ScoreTable, topK: int)
    requires t.Valid()
    ensures forall i, j :: 0 <= i < j < |TopList(t, topK)| ==> TopList(t, topK)[i].itemId != TopList(t, topK)[j].itemId
  {
    var items := t.Items();
    var sorted := Sorting.SortDesc(items, PopularScore);
    Sorting.SortDescCorrect(items, PopularScore);
    var top := TopList(t, topK);
    assert top == sorted[..|top|];
    TopListFromTable(t, topK);
    ItemsDistinct(t);
    PermutationKeepsDistinct(items, sorted);
    forall i, j | 0 <= i < j < |top|
      ensures top[i].itemId != top[j].itemId
    {
      assert top[i] == sorted[i] && top[j] == sorted[j];
      assert top[i] in top && top[j] in top;
      ItemIdsDistinct(t, top[i], top[j]);
    }
  }

  /** Among entries with equal scores, a ranked list keeps the table's
      first-seen order (the sort is stable), and truncation drops the later ones. */
  lemma TopListStable(t: ScoreTable, topK: int, v: real)
    requires t.Valid()
    ensures |Sorting.WithKey(TopList(t, topK), PopularScore, v)| <= |Sorting.WithKey(t.Items(), PopularScore, v)|
    ensures Sorting.WithKey(TopList(t, topK), PopularScore, v) ==
            Sorting.WithKey(t.Items(), PopularScore, v)[..|Sorting.WithKey(TopList(t, topK), PopularScore, v)|]
  {
    var sorted := Sorting.SortDesc(t.Items(), PopularScore);
    Sorting.SortDescCorrect(t.Items(), PopularScore);
    var top := TopList(t, topK);
    assert top == sorted[..|top|];
    Sorting.WithKeyOfPrefix(sorted, PopularScore, v, |top|);
  }

  lemma ItemsDistinct(t: ScoreTable)
    requires t.Valid()
    ensures Distinct(t.Items())
  {
    var items := t.Items();
    forall i, j | 0 <= i < j < |items|
      ensures items[i] != items[j]
    {
      assert items[i].itemId == t.keys[i] && items[j].itemId == t.keys[j];
    }
  }

  lemma PermutationKeepsDistinct<T>(a: seq<T>, b: seq<T>)
    requires Distinct(a) && multiset(a) == multiset(b)
    ensures Distinct(b)
  {
    forall i, j | 0 <= i < j < |b| && b[i] == b[j]
      ensures false
    {
      assert b == b[..i] + [b[i]] + b[i + 1..j] + [b[j]] + b[j + 1..];
      assert multiset(b)[b[i]] >= 2;
      DistinctCount(a, b[i]);
    }
  }

  lemma {:induction false} DistinctCount<T>(a: seq<T>, x: T)
    requires Distinct(a)
    ensures multiset(a)[x] <= 1
  {
    if a != [] {
      assert a == [a[0]] + a[1..];
      DistinctCount(a[1..], x);
      if a[0] == x {
        assert x !in a[1..];
      }
    }
  }

  class PopularityGenerator {
    const halfLifeDays: real
    var globalTop: seq<PopularItem>
    var byCommunity: map<string, seq<PopularItem>>

    constructor (halfLifeDays: real)
      ensures this.halfLifeDays == halfLifeDays
      ensures globalTop == [] && byCommunity == map[]
    {
      this.halfLifeDays := halfLifeDays;
      globalTop := [];
      byCommunity := map[];
    }

    /** `_time_decay`: `0.5 ** (days / half_life_days)`. */
    function TimeDecay(days: real, pow: HalfPower): real
      requires halfLifeDays != 0.0
    {
      pow(days / halfLifeDays)
    }

    /** `refresh`: one pass over the joined rows accumulating the global and
        per-community tables, then both ranked results rebuilt from scratch.
        With a zero half-life the first timestamped row raises, before either
        field is assigned. */
    method Refresh(db: Database, now: Timestamp, pow: HalfPower, topK: int) returns (completed: bool)
      modifies this
      ensures completed <==> Decayable(JoinedRows(db), halfLifeDays)
      ensures !completed ==> globalTop == old(globalTop) && byCommunity == old(byCommunity)
      ensures completed ==> globalTop == TopList(GlobalScores(JoinedRows(db), now, halfLifeDays, pow), topK)
      ensures completed ==> byCommunity.Keys == CommunityScores(JoinedRows(db), now, halfLifeDays, pow).Keys
      ensures completed ==> forall c :: c in byCommunity ==>
                byCommunity[c] == TopList(CommunityScores(JoinedRows(db), now, halfLifeDays, pow)[c], topK)
    {
      var rows := JoinedRows(db);
      var globalScores, commScores;
      completed, globalScores, commScores := AccumulateScores(rows, now, pow);
      if !completed {
        return;
      }
      globalTop := TopList(globalScores, topK);
      byCommunity := RankCommunities(commScores, topK);
    }

    /** The accumulation loop of `refresh`; `false` when the decay of some
        row divides by a zero half-life. */
    method AccumulateScores(rows: seq<PopRow>, now: Timestamp, pow: HalfPower)
      returns (completed: bool, globalScores: ScoreTable, commScores: map<string, ScoreTable>)
      ensures completed <==> Decayable(rows, halfLifeDays)
      ensures completed ==> globalScores == GlobalScores(rows, now, halfLifeDays, pow)
      ensures completed ==> commScores == CommunityScores(rows, now, halfLifeDays, pow)
    {
      globalScores := EmptyTable;
      commScores := map[];
      var n := 0;
      while n < |rows|
        invariant n <= |rows|
        invariant Decayable(rows[..n], halfLifeDays)
        invariant globalScores == GlobalScores(rows[..n], now, halfLifeDays, pow)
        invariant commScores == CommunityScores(rows[..n], now, halfLifeDays, pow)
      {
        var r := rows[n];
        if r.timestamp.Some? && halfLifeDays == 0.0 {
          assert rows[n].timestamp.Some?;
          return false, globalScores, commScores;
        }
        assert Decayable(rows[..n + 1], halfLifeDays) by {
          assert forall k :: 0 <= k < n + 1 ==> rows[..n + 1][k] == rows[k];
          if halfLifeDays == 0.0 {
            assert forall k :: 0 <= k < n ==> rows[..n][k] == rows[k];
          }
        }
        ScoresStep(rows, n, now, halfLifeDays, pow);
        globalScores, commScores := AccumulateRow(globalScores, commScores, r, now, pow);
        n := n + 1;
      }
      assert rows[..n] == rows;
      completed := true;
    }

    /** The body of the accumulation loop for one row. */
    method AccumulateRow(globalScores: ScoreTable, commScores: map<string, ScoreTable>, r: PopRow,
                         now: Timestamp, pow: HalfPower)
      returns (globalScores': ScoreTable, commScores': map<string, ScoreTable>)
      requires r.timestamp.Some? ==> halfLifeDays != 0.0
      ensures globalScores' == AddRow(globalScores, r, now, halfLifeDays, pow)
      ensures commScores' == AddCommunityRow(commScores, r, now, halfLifeDays, pow)
    {
      globalScores', commScores' := globalScores, commScores;
      if r.timestamp.None? {
        return;
      }
      var days := ((now - r.timestamp.value) as real) / 86400.0;
      var decay := TimeDecay(days, pow);
      var w := InteractionWeight(r.interactionType);
      var score := w * decay;
      assert score == RowScore(r, now, halfLifeDays, pow);
      globalScores' := globalScores.Add(r.itemId, score);
      if r.community != "" {
        var t := if r.community in commScores then commScores[r.community] else EmptyTable;
        commScores' := commScores[r.community := t.Add(r.itemId, score)];
      }
    }

    /** `top_k_global`: the ids of the first `k` globally ranked entries. */
    function TopKGlobal(k: int): (r: seq<ItemId>)
      reads this
      ensures k >= 0 ==> |r| == Min(k, |globalTop|)
      ensures forall j :: 0 <= j < |r| ==> j < |globalTop| && r[j] == globalTop[j].itemId
    {
      Map(PyTake(globalTop, k), (p: PopularItem) => p.itemId)
    }

    /** `top_k_by_community`: a prefix of the community's ranked list, or the
        global answer for a community with no list. */
    function TopKByCommunity(community: string, k: int): (r: seq<ItemId>)
      reads this
      ensures community !in byCommunity ==> r == TopKGlobal(k)
      ensures community in byCommunity ==>
                (k >= 0 ==> |r| == Min(k, |byCommunity[community]|)) &&
                forall j :: 0 <= j < |r| ==> j < |byCommunity[community]| && r[j] == byCommunity[community][j].itemId
    {
      if community in byCommunity then Map(PyTake(byCommunity[community], k), (p: PopularItem) => p.itemId) else TopKGlobal(k)
    }
  }

  /** The `by_community` loop of `refresh`: one ranked list per community table. */
  method RankCommunities(commScores: map<string, ScoreTable>, topK: int) returns (byCommunity: map<string, seq<PopularItem>>)
    requires forall c :: c in commScores ==> commScores[c].Valid()
    ensures byCommunity.Keys == commScores.Keys
    ensures forall c :: c in byCommunity ==> byCommunity[c] == TopList(commScores[c], topK)
  {
    byCommunity := map[];
    var remaining := commScores.Keys;
    while remaining != {}
      invariant remaining <= commScores.Keys
      invariant byCommunity.Keys == commScores.Keys - remaining
      invariant forall c :: c in byCommunity ==> byCommunity[c] == TopList(commScores[c], topK)
      decreases |remaining|
    {
      var comm := Pick(remaining);
      byCommunity := byCommunity[comm := TopList(commScores[comm], topK)];
      remaining := remaining - {comm};
    }
  }

  /** After a refresh, the community lists hold exactly the non-empty
      communities that have a timestamped row in the new data; a community
      present before but absent now answers with the global list. */
  lemma RefreshForgetsAbsentCommunities(p: PopularityGenerator, db: Database, now: Timestamp, pow: HalfPower,
                                        topK: int, community: string, k: int)
    requires Decayable(JoinedRows(db), p.halfLifeDays)
    requires p.byCommunity.Keys == CommunityScores(JoinedRows(db), now, p.halfLifeDays, pow).Keys
    requires community == "" || !HasScoredCommunityRow(JoinedRows(db), community)
    ensures community !in p.byCommunity
    ensures p.TopKByCommunity(community, k) == p.TopKGlobal(k)
  {
    CommunityTablePresent(JoinedRows(db), now, p.halfLifeDays, pow, community);
  }
}
