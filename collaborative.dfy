/** Item-based collaborative filtering: a weighted user x item matrix, a
    cosine similarity between items over their common users, and per-item
    neighbour lists built once and sliced on query. */
module Collaborative {
  import opened Models
  import opened Seqs
  import Sorting

  /** Weight of one interaction in the user x item matrix; unknown types weigh 1.0. */
  function InteractionWeight(interactionType: string): (w: real)
    ensures interactionType == "dismiss" ==> w == -0.5
    ensures interactionType !in {"view", "click", "like", "book", "attend", "dismiss"} ==> w == 1.0
  {
    if interactionType == "view" then 1.0
    else if interactionType == "click" then 1.5
    else if interactionType == "like" then 2.0
    else if interactionType == "book" then 3.0
    else if interactionType == "attend" then 3.0
    else if interactionType == "dismiss" then -0.5
    else 1.0
  }

  /** user_id -> {item_id: summed weight}. */
  type UserItems = map<UserId, map<ItemId, real>>

  /** One step of the accumulation loop: add the interaction's weight to its cell. */
  function AddInteraction(ui: UserItems, inter: Interaction): UserItems {
    var row := if inter.userId in ui then ui[inter.userId] else map[];
    var previous := if inter.itemId in row then row[inter.itemId] else 0.0;
    ui[inter.userId := row[inter.itemId := previous + InteractionWeight(inter.interactionType)]]
  }

  /** The matrix after the loop has consumed `s`. */
  function UserItemsOf(s: seq<Interaction>): UserItems {
    if s == [] then map[] else AddInteraction(UserItemsOf(s[..|s| - 1]), s[|s| - 1])
  }

  /** Reference definition: the total weight of `u`'s interactions with `i` in `s`. */
  function PairWeight(s: seq<Interaction>, u: UserId, i: ItemId): real {
    if s == [] then 0.0
    else
      var last := s[|s| - 1];
      PairWeight(s[..|s| - 1], u, i) +
      (if last.userId == u && last.itemId == i then InteractionWeight(last.interactionType) else 0.0)
  }

  predicate Interacted(s: seq<Interaction>, u: UserId, i: ItemId) {
    exists k :: 0 <= k < |s| && s[k].userId == u && s[k].itemId == i
  }

  /** A cell exists exactly for the pairs that interacted, and holds the sum
      of their interaction weights. */
  lemma {:induction false} UserItemsSumsWeights(s: seq<Interaction>)
    ensures forall u, i :: (u in UserItemsOf(s) && i in UserItemsOf(s)[u]) <==> Interacted(s, u, i)
    ensures forall u, i :: u in UserItemsOf(s) && i in UserItemsOf(s)[u] ==>
              UserItemsOf(s)[u][i] == PairWeight(s, u, i)
  {
    if s != [] {
      var init := s[..|s| - 1];
      UserItemsSumsWeights(init);
      forall u, i
        ensures Interacted(s, u, i) <==> Interacted(init, u, i) || (s[|s| - 1].userId == u && s[|s| - 1].itemId == i)
      {
        if Interacted(init, u, i) {
          var k :| 0 <= k < |init| && init[k].userId == u && init[k].itemId == i;
          assert s[k] == init[k];
        }
        if Interacted(s, u, i) && !(s[|s| - 1].userId == u && s[|s| - 1].itemId == i) {
          var k :| 0 <= k < |s| && s[k].userId == u && s[k].itemId == i;
          assert init[k] == s[k];
        }
      }
      forall u, i | !Interacted(init, u, i)
        ensures PairWeight(init, u, i) == 0.0
      {
        PairWeightAbsent(init, u, i);
      }
    }
  }

  lemma {:induction false} PairWeightAbsent(s: seq<Interaction>, u: UserId, i: ItemId)
    requires !Interacted(s, u, i)
    ensures PairWeight(s, u, i) == 0.0
  {
    if s != [] {
      PairWeightAbsent(s[..|s| - 1], u, i);
    }
  }

  /** Every item some user interacted with. */
  function AllItems(ui: UserItems): set<ItemId> {
    set u, i | u in ui && i in ui[u] :: i
  }

  /** Users who interacted with both items. */
  function CommonUsers(ui: UserItems, a: ItemId, b: ItemId): set<UserId> {
    set u | u in ui && a in ui[u] && b in ui[u]
  }

  /** An item's weights restricted to `users` (`user_items[uid].get(item, 0)`). */
  function Vector(ui: UserItems, users: set<UserId>, item: ItemId): map<UserId, real>
    requires users <= ui.Keys
  {
    map u | u in users :: if item in ui[u] then ui[u][item] else 0.0
  }

  /** A vector whose Euclidean norm is zero: every coordinate is zero. */
  predicate IsZeroVector(v: map<UserId, real>) {
    forall u | u in v :: v[u] == 0.0
  }

  /** `dot(v1, v2) / (norm(v1) * norm(v2))` for two non-zero vectors over the
      same users; floating-point linear algebra, left abstract. */
  type Cosine = (map<UserId, real>, map<UserId, real>) -> real

  /** `_cosine_similarity`: zero with fewer than two common users or when a
      vector is zero, otherwise the cosine of the two common-user vectors. */
  function Similarity(ui: UserItems, a: ItemId, b: ItemId, cosine: Cosine): real {
    var common := CommonUsers(ui, a, b);
    if |common| < 2 then 0.0
    else
      var v1 := Vector(ui, common, a);
      var v2 := Vector(ui, common, b);
      if IsZeroVector(v1) || IsZeroVector(v2) then 0.0 else cosine(v1, v2)
  }

  /** The loop over the common users that appends each user's weight for
      both items; a vector is keyed by user, so the unspecified iteration
      order of the set does not show in it. */
  method CommonUserVectors(ui: UserItems, common: set<UserId>, item1: ItemId, item2: ItemId)
    returns (vec1: map<UserId, real>, vec2: map<UserId, real>)
    requires common <= ui.Keys
    ensures vec1 == Vector(ui, common, item1) && vec2 == Vector(ui, common, item2)
  {
    vec1, vec2 := map[], map[];
    var rest := common;
    while rest != {}
      invariant rest <= common
      invariant vec1 == Vector(ui, common - rest, item1)
      invariant vec2 == Vector(ui, common - rest, item2)
      decreases |rest|
    {
      var uid := Pick(rest);
      VectorExtend(ui, common - rest, uid, item1);
      VectorExtend(ui, common - rest, uid, item2);
      vec1 := vec1[uid := if item1 in ui[uid] then ui[uid][item1] else 0.0];
      vec2 := vec2[uid := if item2 in ui[uid] then ui[uid][item2] else 0.0];
      assert common - (rest - {uid}) == (common - rest) + {uid};
      rest := rest - {uid};
    }
    assert common - rest == common;
  }

  lemma VectorExtend(ui: UserItems, users: set<UserId>, u: UserId, item: ItemId)
    requires users <= ui.Keys && u in ui
    ensures Vector(ui, users + {u}, item) ==
            Vector(ui, users, item)[u := if item in ui[u] then ui[u][item] else 0.0]
  {
  }

  /** The imperative computation of the similarity: collect the users of each
      item, intersect, and build both vectors coordinate by coordinate. */
  method CosineSimilarity(item1: ItemId, item2: ItemId, ui: UserItems, cosine: Cosine)
    returns (sim: real)
    ensures sim == Similarity(ui, item1, item2, cosine)
    ensures |CommonUsers(ui, item1, item2)| < 2 ==> sim == 0.0
    ensures |CommonUsers(ui, item1, item2)| >= 2 ==>
              (IsZeroVector(Vector(ui, CommonUsers(ui, item1, item2), item1)) ||
               IsZeroVector(Vector(ui, CommonUsers(ui, item1, item2), item2))) ==> sim == 0.0
  {
    var users1 := set u | u in ui && item1 in ui[u];
    var users2 := set u | u in ui && item2 in ui[u];
    var common := users1 * users2;
    assert common == CommonUsers(ui, item1, item2);
    if |common| < 2 {
      return 0.0;
    }
    var vec1, vec2 := CommonUserVectors(ui, common, item1, item2);
    if IsZeroVector(vec1) || IsZeroVector(vec2) {
      return 0.0;
    }
    sim := cosine(vec1, vec2);
  }

  datatype Neighbour = Neighbour(itemId: ItemId, score: real)

  function NeighbourScore(n: Neighbour): real { n.score }

  /** What row `j` of the upper triangle appends to its own list, having
      compared `items[j]` with `items[j+1..hi]`: the pairs above 0.1, in order. */
  function Row(ui: UserItems, cosine: Cosine, items: seq<ItemId>, j: nat, hi: nat): seq<Neighbour>
    requires j < |items| && hi <= |items|
    decreases hi
  {
    if hi <= j + 1 then []
    else
      var s := Similarity(ui, items[j], items[hi - 1], cosine);
      Row(ui, cosine, items, j, hi - 1) + (if s > 0.1 then [Neighbour(items[hi - 1], s)] else [])
  }

  /** The list `items[j]` ends with: its row, sorted by score, highest first. */
  function NeighbourList(ui: UserItems, cosine: Cosine, items: seq<ItemId>, j: nat): seq<Neighbour>
    requires j < |items|
  {
    Sorting.SortDesc(Row(ui, cosine, items, j, |items|), NeighbourScore)
  }

  /** Row `j` holds exactly the later items whose similarity exceeds 0.1. */
  lemma {:induction false} RowMembers(ui: UserItems, cosine: Cosine, items: seq<ItemId>, j: nat, hi: nat)
    requires j < |items| && hi <= |items|
    ensures forall n :: n in Row(ui, cosine, items, j, hi) <==>
              exists k :: j < k < hi && n == Neighbour(items[k], Similarity(ui, items[j], items[k], cosine)) &&
                          n.score > 0.1
    decreases hi
  {
    if hi > j + 1 {
      RowMembers(ui, cosine, items, j, hi - 1);
      var last := Neighbour(items[hi - 1], Similarity(ui, items[j], items[hi - 1], cosine));
      var prev := Row(ui, cosine, items, j, hi - 1);
      assert Row(ui, cosine, items, j, hi) == prev + (if last.score > 0.1 then [last] else []);
      forall n | n in Row(ui, cosine, items, j, hi)
        ensures exists k :: j < k < hi && n == Neighbour(items[k], Similarity(ui, items[j], items[k], cosine)) &&
                            n.score > 0.1
      {
        if n !in prev {
          assert n == last;
        }
      }
    }
  }

  /** The neighbour list of `items[j]`: scores above 0.1, non-increasing, and
      its members are exactly the entries `(items[k], sim)` with k > j and
      sim > 0.1; hence (items being distinct) never `items[j]` itself. */
  lemma NeighbourListProperties(ui: UserItems, cosine: Cosine, items: seq<ItemId>, j: nat)
    requires Distinct(items) && j < |items|
    ensures Sorting.SortedDesc(NeighbourList(ui, cosine, items, j), NeighbourScore)
    ensures forall n :: n in NeighbourList(ui, cosine, items, j) <==>
              exists k :: j < k < |items| && n == Neighbour(items[k], Similarity(ui, items[j], items[k], cosine)) &&
                          n.score > 0.1
    ensures forall n :: n in NeighbourList(ui, cosine, items, j) ==> n.score > 0.1 && n.itemId != items[j]
  {
    var row := Row(ui, cosine, items, j, |items|);
    RowMembers(ui, cosine, items, j, |items|);
    Sorting.SortDescCorrect(row, NeighbourScore);
    Sorting.SortDescMembers(row, NeighbourScore);
  }

  /** `list(set(...))`: every matrix item once, in an unspecified order. */
  predicate IsItemOrder(items: seq<ItemId>, ui: UserItems) {
    Distinct(items) && (forall x :: x in items ==> x in AllItems(ui)) && (forall x :: x in AllItems(ui) ==> x in items)
  }

  /** The table `build_model` leaves behind when it enumerated the matrix items
      as `items`, starting from the table `before`: each enumerated item maps
      to its neighbour list, and the lists of items absent from this build
      are what they were. */
  predicate BuiltFrom(sim: map<ItemId, seq<Neighbour>>, before: map<ItemId, seq<Neighbour>>,
                      ui: UserItems, cosine: Cosine, items: seq<ItemId>)
  {
    && IsItemOrder(items, ui)
    && (forall x :: x in sim ==> x in before || x in items)
    && (forall x :: x in before ==> x in sim)
    && (forall x :: x in before && x !in items ==> sim[x] == before[x])
    && (forall j :: 0 <= j < |items| ==> items[j] in sim && sim[items[j]] == NeighbourList(ui, cosine, items, j))
  }

  class CollaborativeFilter {
    /** item_id -> [(similar_item_id, score), ...] */
    var itemSimilarity: map<ItemId, seq<Neighbour>>

    constructor ()
      ensures itemSimilarity == map[]
    {
      itemSimilarity := map[];
    }

    /** `get_similar_items`: the ids of the first `top_k` stored neighbours,
        or nothing for an item the model has no list for. */
    function GetSimilarItems(itemId: ItemId, topK: int): (r: seq<ItemId>)
      reads this
      ensures itemId !in itemSimilarity ==> r == []
      ensures topK >= 0 ==> |r| <= topK
      ensures itemId in itemSimilarity ==>
                |r| <= |itemSimilarity[itemId]| &&
                forall k :: 0 <= k < |r| ==> r[k] == itemSimilarity[itemId][k].itemId
      ensures itemId in itemSimilarity && topK >= 0 ==> |r| == Min(topK, |itemSimilarity[itemId]|)
      ensures itemId in itemSimilarity && topK < 0 ==> |r| == Max(0, |itemSimilarity[itemId]| + topK)
    {
      if itemId !in itemSimilarity then [] else Map(PyTake(itemSimilarity[itemId], topK), (n: Neighbour) => n.itemId)
    }

    /** One step of the inner loop: when the similarity of `items[i]` and
        `items[k]` exceeds 0.1, append `(items[k], sim)` to the list of
        `items[i]` and, as the "symmetric" entry, `(items[i], sim)` to the
        list of `items[k]`. */
    method CompareStep(ui: UserItems, cosine: Cosine, items: seq<ItemId>, i: nat, k: nat,
                       ghost before: map<ItemId, seq<Neighbour>>)
      requires Distinct(items) && i < k < |items|
      requires RowsFinished(itemSimilarity, before, ui, cosine, items, i)
      requires items[i] in itemSimilarity && itemSimilarity[items[i]] == Row(ui, cosine, items, i, k)
      modifies this
      ensures RowsFinished(itemSimilarity, before, ui, cosine, items, i)
      ensures items[i] in itemSimilarity && itemSimilarity[items[i]] == Row(ui, cosine, items, i, k + 1)
    {
      var item1, item2 := items[i], items[k];
      var sim := CosineSimilarity(item1, item2, ui, cosine);
      if sim <= 0.1 {
        return;
      }
      RowUpdateKeepsFinished(itemSimilarity, before, ui, cosine, items, i, i,
                             itemSimilarity[item1] + [Neighbour(item2, sim)]);
      itemSimilarity := itemSimilarity[item1 := itemSimilarity[item1] + [Neighbour(item2, sim)]];
      if item2 !in itemSimilarity {
        RowUpdateKeepsFinished(itemSimilarity, before, ui, cosine, items, i, k, []);
        itemSimilarity := itemSimilarity[item2 := []];
      }
      RowUpdateKeepsFinished(itemSimilarity, before, ui, cosine, items, i, k,
                             itemSimilarity[item2] + [Neighbour(item1, sim)]);
      itemSimilarity := itemSimilarity[item2 := itemSimilarity[item2] + [Neighbour(item1, sim)]];
    }

    /** One row of the upper triangle: reset the list of `items[i]`, then
        compare `items[i]` with every later item, appending each pair above
        0.1 to both lists. Rows already finished are not touched. */
    method CompareRow(ui: UserItems, cosine: Cosine, items: seq<ItemId>, i: nat,
                      ghost before: map<ItemId, seq<Neighbour>>)
      requires Distinct(items) && i < |items|
      requires RowsFinished(itemSimilarity, before, ui, cosine, items, i)
      modifies this
      ensures RowsFinished(itemSimilarity, before, ui, cosine, items, i)
      ensures items[i] in itemSimilarity && itemSimilarity[items[i]] == Row(ui, cosine, items, i, |items|)
    {
      var item1 := items[i];
      RowUpdateKeepsFinished(itemSimilarity, before, ui, cosine, items, i, i, []);
      itemSimilarity := itemSimilarity[item1 := []];
      var k := i + 1;
      while k < |items|
        invariant i + 1 <= k <= |items|
        invariant item1 in itemSimilarity && itemSimilarity[item1] == Row(ui, cosine, items, i, k)
        invariant RowsFinished(itemSimilarity, before, ui, cosine, items, i)
      {
        CompareStep(ui, cosine, items, i, k, before);
        k := k + 1;
      }
    }

    /** `build_model`: accumulate the weighted matrix over every interaction,
        then for each item in turn compare it with the later items and sort
        its list by score, highest first. */
    method BuildModel(db: Database, cosine: Cosine)
      modifies this
      ensures exists items :: BuiltFrom(itemSimilarity, old(itemSimilarity), UserItemsOf(db.interactions), cosine, items)
    {
      var ui := AccumulateUserItems(db.interactions);
      var items := Enumerate(AllItems(ui));
      ghost var before := itemSimilarity;
      var i := 0;
      while i < |items|
        invariant 0 <= i <= |items|
        invariant RowsFinished(itemSimilarity, before, ui, cosine, items, i)
      {
        CompareRow(ui, cosine, items, i, before);
        var item1 := items[i];
        RowUpdateKeepsFinished(itemSimilarity, before, ui, cosine, items, i, i,
                               Sorting.SortDesc(itemSimilarity[item1], NeighbourScore));
        itemSimilarity := itemSimilarity[item1 := Sorting.SortDesc(itemSimilarity[item1], NeighbourScore)];
        i := i + 1;
      }
      assert BuiltFrom(itemSimilarity, before, ui, cosine, items);
    }
  }

  /** The accumulation loop of `build_model` over the interaction table. */
  method AccumulateUserItems(interactions: seq<Interaction>) returns (ui: UserItems)
    ensures ui == UserItemsOf(interactions)
  {
    ui := map[];
    var n := 0;
    while n < |interactions|
      invariant n <= |interactions|
      invariant ui == UserItemsOf(interactions[..n])
    {
      var inter := interactions[n];
      var weight := InteractionWeight(inter.interactionType);
      if inter.userId !in ui {
        ui := ui[inter.userId := map[]];
      }
      var row := ui[inter.userId];
      ui := ui[inter.userId := row[inter.itemId := (if inter.itemId in row then row[inter.itemId] else 0.0) + weight]];
      assert interactions[..n + 1][..n] == interactions[..n];
      assert UserItemsOf(interactions[..n + 1]) == AddInteraction(UserItemsOf(interactions[..n]), inter);
      n := n + 1;
    }
    assert interactions[..n] == interactions;
  }

  /** The state of the table after the first `i` rows: those rows hold their
      final lists, every other key is either from the previous table or an
      enumerated item, and lists of items outside this build are untouched. */
  predicate RowsFinished(sim: map<ItemId, seq<Neighbour>>, before: map<ItemId, seq<Neighbour>>,
                         ui: UserItems, cosine: Cosine, items: seq<ItemId>, i: nat)
    requires i <= |items|
  {
    && (forall x :: x in sim ==> x in before || x in items)
    && (forall x :: x in before ==> x in sim)
    && (forall x :: x in before && x !in items ==> sim[x] == before[x])
    && (forall j :: 0 <= j < i ==> items[j] in sim && sim[items[j]] == NeighbourList(ui, cosine, items, j))
  }

  /** Writing the list of an item at position `m >= i` keeps rows before `i` finished. */
  lemma RowUpdateKeepsFinished(sim: map<ItemId, seq<Neighbour>>, before: map<ItemId, seq<Neighbour>>,
                               ui: UserItems, cosine: Cosine, items: seq<ItemId>, i: nat, m: nat,
                               v: seq<Neighbour>)
    requires Distinct(items) && i <= m < |items|
    requires RowsFinished(sim, before, ui, cosine, items, i)
    ensures RowsFinished(sim[items[m] := v], before, ui, cosine, items, i)
    ensures m == i ==> v == NeighbourList(ui, cosine, items, i) ==>
              RowsFinished(sim[items[m] := v], before, ui, cosine, items, i + 1)
  {
  }

  /** After a build, a query for `items[j]` returns only items enumerated
      after it whose similarity with it exceeds 0.1, never `items[j]` itself,
      and at most `topK` of them. */
  lemma SimilarItemsAreLaterNeighbours(cf: CollaborativeFilter, before: map<ItemId, seq<Neighbour>>,
                                       ui: UserItems, cosine: Cosine, items: seq<ItemId>, j: nat, topK: int)
    requires BuiltFrom(cf.itemSimilarity, before, ui, cosine, items) && j < |items|
    ensures topK >= 0 ==> |cf.GetSimilarItems(items[j], topK)| <= topK
    ensures forall x :: x in cf.GetSimilarItems(items[j], topK) ==>
              x != items[j] &&
              exists k :: j < k < |items| && x == items[k] && Similarity(ui, items[j], items[k], cosine) > 0.1
  {
    var list := cf.itemSimilarity[items[j]];
    NeighbourListProperties(ui, cosine, items, j);
    forall x | x in cf.GetSimilarItems(items[j], topK)
      ensures x != items[j] &&
              exists k :: j < k < |items| && x == items[k] && Similarity(ui, items[j], items[k], cosine) > 0.1
    {
      var r := cf.GetSimilarItems(items[j], topK);
      var m :| 0 <= m < |r| && r[m] == x;
      assert list[m] in list;
    }
  }

  /** The "symmetric" appends do not survive: when `items[k]` is a neighbour
      of `items[j]`, `items[j]` is not a neighbour of `items[k]`. */
  lemma NeighboursAreOneSided(sim: map<ItemId, seq<Neighbour>>, before: map<ItemId, seq<Neighbour>>,
                              ui: UserItems, cosine: Cosine, items: seq<ItemId>, j: nat, k: nat, s: real)
    requires BuiltFrom(sim, before, ui, cosine, items) && j < |items| && k < |items|
    requires Neighbour(items[k], s) in sim[items[j]]
    ensures j < k
    ensures forall t :: Neighbour(items[j], t) !in sim[items[k]]
  {
    NeighbourListProperties(ui, cosine, items, j);
    NeighbourListProperties(ui, cosine, items, k);
  }
}
