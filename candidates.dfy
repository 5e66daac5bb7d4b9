/** Candidate fusion: the user's recent items seed content and
    collaborative lookups, popularity adds community and global lists, and
    the union is keyed by item id with the set of sources that proposed it. */
module Candidates {
  import opened Models
  import opened Seqs
  import Sorting
  import Content
  import Collaborative
  import Popularity

  /** `candidate_pool`: item id -> set of source tags. */
  type Pool = map<ItemId, set<Tag>>

  function ElemsOf<T>(s: seq<T>): set<T> {
    set x | x in s
  }

  // ---------------------------------------------------------------------
  // Recent interactions
  // ---------------------------------------------------------------------

  /** `filter(Interaction.user_id == user_id)`, in table order. */
  function OfUser(s: seq<Interaction>, u: UserId): (r: seq<Interaction>)
    ensures |r| <= |s|
    ensures forall x :: x in r ==> x in s && x.userId == u
    ensures forall x :: x in s && x.userId == u ==> x in r
  {
    if s == [] then []
    else (if s[0].userId == u then [s[0]] else []) + OfUser(s[1..], u)
  }

  function Timestamped(s: seq<Interaction>): (r: seq<Interaction>)
    ensures forall x :: x in r ==> x in s && x.timestamp.Some?
    ensures forall x :: x in s && x.timestamp.Some? ==> x in r
  {
    if s == [] then []
    else (if s[0].timestamp.Some? then [s[0]] else []) + Timestamped(s[1..])
  }

  function Untimestamped(s: seq<Interaction>): (r: seq<Interaction>)
    ensures forall x :: x in r ==> x in s && x.timestamp.None?
  {
    if s == [] then []
    else (if s[0].timestamp.None? then [s[0]] else []) + Untimestamped(s[1..])
  }

  lemma {:induction false} SplitByTimestamp(s: seq<Interaction>)
    ensures |Timestamped(s)| + |Untimestamped(s)| == |s|
    ensures multiset(Timestamped(s)) + multiset(Untimestamped(s)) == multiset(s)
  {
    if s != [] {
      SplitByTimestamp(s[1..]);
      assert s == [s[0]] + s[1..];
    }
  }

  function TimestampKey(i: Interaction): real {
    i.timestamp.GetOr(0) as real
  }

  /** `order_by(desc(Interaction.timestamp)).limit(n)`: timestamped rows
      newest first, ties in table order, rows without a timestamp last. */
  function LatestInteractions(db: Database, u: UserId, n: nat): seq<Interaction> {
    var mine := OfUser(db.interactions, u);
    var ordered := Sorting.SortDesc(Timestamped(mine), TimestampKey) + Untimestamped(mine);
    ordered[..Min(n, |ordered|)]
  }

  /** The query returns `n` of the user's interactions (all of them when
      fewer), newest first, with the ones lacking a timestamp at the end. */
  lemma LatestInteractionsOrdered(db: Database, u: UserId, n: nat)
    ensures |LatestInteractions(db, u, n)| == Min(n, |OfUser(db.interactions, u)|)
    ensures forall x :: x in LatestInteractions(db, u, n) ==> x in db.interactions && x.userId == u
    ensures multiset(LatestInteractions(db, u, n)) <= multiset(OfUser(db.interactions, u))
    ensures forall i, j :: 0 <= i < j < |LatestInteractions(db, u, n)| && LatestInteractions(db, u, n)[i].timestamp.None? ==>
              LatestInteractions(db, u, n)[j].timestamp.None?
    ensures forall i, j :: 0 <= i < j < |LatestInteractions(db, u, n)| && LatestInteractions(db, u, n)[j].timestamp.Some? ==>
              LatestInteractions(db, u, n)[i].timestamp.Some? &&
              LatestInteractions(db, u, n)[i].timestamp.value >= LatestInteractions(db, u, n)[j].timestamp.value
  {
    LatestInteractionsMembers(db, u, n);
    LatestInteractionsSorted(db, u, n);
  }

  lemma LatestInteractionsMembers(db: Database, u: UserId, n: nat)
    ensures |LatestInteractions(db, u, n)| == Min(n, |OfUser(db.interactions, u)|)
    ensures forall x :: x in LatestInteractions(db, u, n) ==> x in db.interactions && x.userId == u
    ensures multiset(LatestInteractions(db, u, n)) <= multiset(OfUser(db.interactions, u))
  {
    var mine := OfUser(db.interactions, u);
    var sorted := Sorting.SortDesc(Timestamped(mine), TimestampKey);
    var ordered := sorted + Untimestamped(mine);
    var r := LatestInteractions(db, u, n);
    SplitByTimestamp(mine);
    Sorting.SortDescCorrect(Timestamped(mine), TimestampKey);
    Sorting.SortDescMembers(Timestamped(mine), TimestampKey);
    forall x | x in r
      ensures x in db.interactions && x.userId == u
    {
      assert x in ordered;
    }
    LatestInteractionsFromUser(db, u, n);
  }

  lemma LatestInteractionsFromUser(db: Database, u: UserId, n: nat)
    ensures multiset(LatestInteractions(db, u, n)) <= multiset(OfUser(db.interactions, u))
  {
    var mine := OfUser(db.interactions, u);
    var sorted := Sorting.SortDesc(Timestamped(mine), TimestampKey);
    var ordered := sorted + Untimestamped(mine);
    var r := LatestInteractions(db, u, n);
    SplitByTimestamp(mine);
    Sorting.SortDescCorrect(Timestamped(mine), TimestampKey);
    assert multiset(ordered) == multiset(mine);
    assert r == ordered[..|r|];
    PrefixMultiset(ordered, |r|);
  }

  lemma LatestInteractionsSorted(db: Database, u: UserId, n: nat)
    ensures forall i, j :: 0 <= i < j < |LatestInteractions(db, u, n)| && LatestInteractions(db, u, n)[i].timestamp.None? ==>
              LatestInteractions(db, u, n)[j].timestamp.None?
    ensures forall i, j :: 0 <= i < j < |LatestInteractions(db, u, n)| && LatestInteractions(db, u, n)[j].timestamp.Some? ==>
              LatestInteractions(db, u, n)[i].timestamp.Some? &&
              LatestInteractions(db, u, n)[i].timestamp.value >= LatestInteractions(db, u, n)[j].timestamp.value
  {
    var mine := OfUser(db.interactions, u);
    var sorted := Sorting.SortDesc(Timestamped(mine), TimestampKey);
    var r := LatestInteractions(db, u, n);
    LatestLayout(db, u, n);
    Sorting.SortDescCorrect(Timestamped(mine), TimestampKey);
    forall i, j | 0 <= i < j < |r| && r[j].timestamp.Some?
      ensures r[i].timestamp.Some? && r[i].timestamp.value >= r[j].timestamp.value
    {
      assert TimestampKey(sorted[i]) >= TimestampKey(sorted[j]);
    }
  }

  /** The result is the sorted timestamped rows, then the untimestamped ones, cut. */
  lemma LatestLayout(db: Database, u: UserId, n: nat)
    ensures var sorted := Sorting.SortDesc(Timestamped(OfUser(db.interactions, u)), TimestampKey);
            var r := LatestInteractions(db, u, n);
            forall i :: 0 <= i < |r| ==> (r[i].timestamp.Some? <==> i < |sorted|) && (i < |sorted| ==> r[i] == sorted[i])
  {
    var r := LatestInteractions(db, u, n);
    forall i | 0 <= i < |r|
      ensures var sorted := Sorting.SortDesc(Timestamped(OfUser(db.interactions, u)), TimestampKey);
              (r[i].timestamp.Some? <==> i < |sorted|) && (i < |sorted| ==> r[i] == sorted[i])
    {
      LatestAt(db, u, n, i);
    }
  }

  lemma LatestAt(db: Database, u: UserId, n: nat, i: nat)
    requires i < |LatestInteractions(db, u, n)|
    ensures var sorted := Sorting.SortDesc(Timestamped(OfUser(db.interactions, u)), TimestampKey);
            var r := LatestInteractions(db, u, n);
            (r[i].timestamp.Some? <==> i < |sorted|) && (i < |sorted| ==> r[i] == sorted[i])
  {
    var mine := OfUser(db.interactions, u);
    var sorted := Sorting.SortDesc(Timestamped(mine), TimestampKey);
    var ordered := sorted + Untimestamped(mine);
    var r := LatestInteractions(db, u, n);
    assert r[i] == ordered[i];
    if i < |sorted| {
      Sorting.SortDescMembers(Timestamped(mine), TimestampKey);
      assert sorted[i] in sorted;
    } else {
      assert r[i] == Untimestamped(mine)[i - |sorted|];
    }
  }

  /** An interaction of the user left out of the result is no newer than
      anything returned, and the result is then `n` long: the query keeps
      the most recent ones. */
  lemma LatestInteractionsAreNewest(db: Database, u: UserId, n: nat, x: Interaction)
    requires x in db.interactions && x.userId == u && x.timestamp.Some?
    requires x !in LatestInteractions(db, u, n)
    ensures |LatestInteractions(db, u, n)| == n
    ensures forall i :: 0 <= i < n ==>
              LatestInteractions(db, u, n)[i].timestamp.Some? &&
              LatestInteractions(db, u, n)[i].timestamp.value >= x.timestamp.value
  {
    var mine := OfUser(db.interactions, u);
    var sorted := Sorting.SortDesc(Timestamped(mine), TimestampKey);
    var ordered := sorted + Untimestamped(mine);
    var r := LatestInteractions(db, u, n);
    Sorting.SortDescCorrect(Timestamped(mine), TimestampKey);
    Sorting.SortDescMembers(Timestamped(mine), TimestampKey);
    assert x in sorted;
    var p :| 0 <= p < |sorted| && sorted[p] == x;
    assert ordered[p] == x;
    assert r == ordered[..Min(n, |ordered|)];
    assert |r| <= p;
    forall i | 0 <= i < |r|
      ensures r[i].timestamp.Some? && r[i].timestamp.value >= x.timestamp.value
    {
      assert r[i] == sorted[i] && sorted[i] in sorted;
      assert TimestampKey(sorted[i]) >= TimestampKey(sorted[p]);
    }
  }

  /** The items of the given interactions, skipping ids with no item. */
  function ItemsFor(items: map<ItemId, Item>, s: seq<Interaction>): (r: seq<Item>)
    ensures |r| <= |s|
  {
    if s == [] then []
    else (if s[0].itemId in items then [items[s[0].itemId]] else []) + ItemsFor(items, s[1..])
  }

  lemma {:induction false} ItemsForMember(items: map<ItemId, Item>, s: seq<Interaction>, it: Item)
    ensures it in ItemsFor(items, s) <==> exists k :: 0 <= k < |s| && s[k].itemId in items && items[s[k].itemId] == it
  {
    if s != [] {
      ItemsForMember(items, s[1..], it);
      if exists k :: 0 <= k < |s| && s[k].itemId in items && items[s[k].itemId] == it {
        var k :| 0 <= k < |s| && s[k].itemId in items && items[s[k].itemId] == it;
        if k > 0 {
          assert s[1..][k - 1] == s[k];
        }
      }
      if exists k :: 0 <= k < |s[1..]| && s[1..][k].itemId in items && items[s[1..][k].itemId] == it {
        var k :| 0 <= k < |s[1..]| && s[1..][k].itemId in items && items[s[1..][k].itemId] == it;
        assert s[k + 1] == s[1..][k];
      }
    }
  }

  lemma ItemsForStep(items: map<ItemId, Item>, s: seq<Interaction>, i: nat)
    requires i < |s|
    ensures ItemsFor(items, s[i..]) ==
            (if s[i].itemId in items then [items[s[i].itemId]] else []) + ItemsFor(items, s[i + 1..])
  {
    assert s[i..][1..] == s[i + 1..];
  }

  /** The loop of `_get_recent_user_items`: each interaction's item, when it exists. */
  method LookUpItems(db: Database, interactions: seq<Interaction>) returns (items: seq<Item>)
    ensures items == ItemsFor(db.items, interactions)
  {
    items := [];
    var i := 0;
    while i < |interactions|
      invariant i <= |interactions|
      invariant items + ItemsFor(db.items, interactions[i..]) == ItemsFor(db.items, interactions)
    {
      ItemsForStep(db.items, interactions, i);
      var item := GetItem(db, interactions[i].itemId);
      if item.Some? {
        items := items + [item.value];
      }
      i := i + 1;
    }
  }

  /** `{item.id for item in recent_items}`. */
  function RecentIds(recent: seq<Item>): set<ItemId> {
    set it | it in recent :: it.id
  }

  // ---------------------------------------------------------------------
  // Pool construction
  // ---------------------------------------------------------------------

  /** Every id in `ids` is put in the pool (with an empty set if new) and
      gets `tag`. */
  function AddTag(pool: Pool, ids: set<ItemId>, tag: Tag): Pool {
    map id | id in pool.Keys + ids :: (if id in pool then pool[id] else {}) + (if id in ids then {tag} else {})
  }

  /** `candidate_pool.setdefault(id, set()).add(tag)`. */
  function TagOne(pool: Pool, id: ItemId, tag: Tag): Pool {
    pool[id := (if id in pool then pool[id] else {}) + {tag}]
  }

  lemma AddTagEmpty(pool: Pool, tag: Tag)
    ensures AddTag(pool, {}, tag) == pool
  {
    var r := AddTag(pool, {}, tag);
    assert r.Keys == pool.Keys;
    assert forall id :: id in r ==> r[id] == pool[id];
  }

  lemma AddTagStep(pool: Pool, ids: set<ItemId>, id: ItemId, tag: Tag)
    ensures TagOne(AddTag(pool, ids, tag), id, tag) == AddTag(pool, ids + {id}, tag)
  {
    var a := TagOne(AddTag(pool, ids, tag), id, tag);
    var b := AddTag(pool, ids + {id}, tag);
    assert a.Keys == b.Keys;
    forall x | x in a
      ensures a[x] == b[x]
    {
    }
  }

  lemma AddTagUnion(pool: Pool, a: set<ItemId>, b: set<ItemId>, tag: Tag)
    ensures AddTag(AddTag(pool, a, tag), b, tag) == AddTag(pool, a + b, tag)
  {
    var l := AddTag(AddTag(pool, a, tag), b, tag);
    var r := AddTag(pool, a + b, tag);
    assert l.Keys == r.Keys;
    forall x | x in l
      ensures l[x] == r[x]
    {
    }
  }

  /** The community loop as written: it binds `intem_id` but tags
      `item_id`, the variable left over from the content loop. With no
      community candidates nothing happens; otherwise, when that variable
      was never bound (`last` is None) the first iteration raises, and when
      it was, every iteration tags that one content id `pop-comm`. */
  function CommunityStage(pool: Pool, comm: set<ItemId>, last: Option<ItemId>): (r: Option<Pool>)
    ensures r.None? <==> comm != {} && last.None?
  {
    if comm == {} then Some(pool)
    else if last.None? then None
    else Some(AddTag(pool, {last.value}, PopCommTag))
  }

  /** `_remove_recent_interactions`. */
  function RemoveRecent(pool: Pool, recent: seq<Item>): (r: Pool)
    ensures forall id :: id in r <==> id in pool && id !in RecentIds(recent)
    ensures forall id :: id in r ==> r[id] == pool[id]
  {
    map id | id in pool && id !in RecentIds(recent) :: pool[id]
  }

  /** The final conversion: an empty source set becomes `{"fallback"}`. */
  function Fallback(pool: Pool): (r: Pool)
    ensures r.Keys == pool.Keys
    ensures forall id :: id in r ==> r[id] != {}
    ensures forall id :: id in pool && pool[id] != {} ==> r[id] == pool[id]
    ensures forall id :: id in pool && pool[id] == {} ==> r[id] == {FallbackTag}
  {
    map id | id in pool :: if pool[id] == {} then {FallbackTag} else pool[id]
  }

  /** `pool[id]` after tagging: present iff it was or `id` is in `ids`. */
  lemma AddTagAt(pool: Pool, ids: set<ItemId>, tag: Tag, id: ItemId)
    ensures id in AddTag(pool, ids, tag) <==> id in pool || id in ids
    ensures id in AddTag(pool, ids, tag) ==>
              AddTag(pool, ids, tag)[id] == (if id in pool then pool[id] else {}) + (if id in ids then {tag} else {})
  {
  }

  /** The popularity stage: the community loop, then, unless it raised,
      the global loop. */
  function PopularityStage(pool: Pool, comm: set<ItemId>, global: set<ItemId>, last: Option<ItemId>): Pool {
    match CommunityStage(pool, comm, last)
    case None => pool
    case Some(p) => AddTag(p, global, PopGlobalTag)
  }

  /** Whether the community loop raises: it has candidates but `item_id`
      was never bound. */
  predicate CommunityLoopRaises(comm: set<ItemId>, last: Option<ItemId>) {
    comm != {} && last.None?
  }

  /** The pool after the three tagging stages, before recent items are removed. */
  function Staged(content: set<ItemId>, cf: set<ItemId>, comm: set<ItemId>, global: set<ItemId>,
                  last: Option<ItemId>): Pool
  {
    PopularityStage(AddTag(AddTag(map[], content, ContentTag), cf, CfTag), comm, global, last)
  }

  /** The pool `get_candidates` lists, from the sets each stage produced and
      the id the content loop was left bound to. */
  function FusedPool(content: set<ItemId>, cf: set<ItemId>, comm: set<ItemId>, global: set<ItemId>,
                     last: Option<ItemId>, recent: seq<Item>): Pool
  {
    Fallback(RemoveRecent(Staged(content, cf, comm, global, last), recent))
  }

  /** `last`: None when the content set was empty, otherwise the member the
      content loop visited last. */
  predicate LastContent(content: set<ItemId>, last: Option<ItemId>) {
    (last.None? <==> content == {}) && (last.Some? ==> last.value in content)
  }

  /** After the tagging stages, an id is present iff some stage proposed it,
      and its tags are exactly the stages that did; `pop-comm` lands only on
      the last content id. */
  lemma {:induction false} StagedTags(content: set<ItemId>, cf: set<ItemId>, comm: set<ItemId>, global: set<ItemId>,
                                      last: Option<ItemId>, id: ItemId)
    requires LastContent(content, last)
    ensures id in Staged(content, cf, comm, global, last) <==>
              id in content || id in cf || (!CommunityLoopRaises(comm, last) && id in global)
    ensures id in Staged(content, cf, comm, global, last) ==>
              Staged(content, cf, comm, global, last)[id] ==
                (if id in content then {ContentTag} else {}) +
                (if id in cf then {CfTag} else {}) +
                (if comm != {} && last == Some(id) then {PopCommTag} else {}) +
                (if !CommunityLoopRaises(comm, last) && id in global then {PopGlobalTag} else {})
  {
    var p1 := AddTag(map[], content, ContentTag);
    var p2 := AddTag(p1, cf, CfTag);
    AddTagAt(map[], content, ContentTag, id);
    AddTagAt(p1, cf, CfTag, id);
    if comm == {} {
      AddTagAt(p2, global, PopGlobalTag, id);
    } else if last.Some? {
      var p3 := AddTag(p2, {last.value}, PopCommTag);
      AddTagAt(p2, {last.value}, PopCommTag, id);
      AddTagAt(p3, global, PopGlobalTag, id);
    }
  }

  lemma StagedNonEmpty(content: set<ItemId>, cf: set<ItemId>, comm: set<ItemId>, global: set<ItemId>,
                       last: Option<ItemId>, id: ItemId)
    requires LastContent(content, last)
    ensures id in Staged(content, cf, comm, global, last) <==>
              id in content || id in cf || (!CommunityLoopRaises(comm, last) && id in global)
    ensures id in Staged(content, cf, comm, global, last) ==>
              Staged(content, cf, comm, global, last)[id] != {} &&
              FallbackTag !in Staged(content, cf, comm, global, last)[id]
  {
    StagedTags(content, cf, comm, global, last, id);
    if id in Staged(content, cf, comm, global, last) {
      if id in content {
        assert ContentTag in Staged(content, cf, comm, global, last)[id];
      } else if id in cf {
        assert CfTag in Staged(content, cf, comm, global, last)[id];
      } else {
        assert PopGlobalTag in Staged(content, cf, comm, global, last)[id];
      }
    }
  }

  /** The pool holds exactly the ids some stage proposed, minus the recent
      items; the tags are exactly the stages that proposed the id, so none
      is empty and `fallback` never occurs, and `pop-comm` can only land on
      the last content id, never on a community candidate as such. */
  lemma FusedPoolTags(content: set<ItemId>, cf: set<ItemId>, comm: set<ItemId>, global: set<ItemId>,
                      last: Option<ItemId>, recent: seq<Item>, id: ItemId)
    requires LastContent(content, last)
    ensures id in FusedPool(content, cf, comm, global, last, recent) <==>
              id !in RecentIds(recent) &&
              (id in content || id in cf || (!CommunityLoopRaises(comm, last) && id in global))
    ensures id in FusedPool(content, cf, comm, global, last, recent) ==>
              FusedPool(content, cf, comm, global, last, recent)[id] ==
                Staged(content, cf, comm, global, last)[id] &&
              FusedPool(content, cf, comm, global, last, recent)[id] != {} &&
              FallbackTag !in FusedPool(content, cf, comm, global, last, recent)[id]
  {
    var staged := Staged(content, cf, comm, global, last);
    StagedNonEmpty(content, cf, comm, global, last, id);
    var kept := RemoveRecent(staged, recent);
    assert id in kept <==> id in staged && id !in RecentIds(recent);
    if id in kept {
      assert kept[id] == staged[id];
      assert staged[id] != {} && FallbackTag !in staged[id];
      assert Fallback(kept)[id] == kept[id];
    }
  }

  /** When the content stage found nothing but the user has community
      candidates, the community loop raises and the global candidates are
      lost as well: every id left came from the CF stage and is tagged only `cf`. */
  lemma EmptyContentLosesPopularity(cf: set<ItemId>, comm: set<ItemId>, global: set<ItemId>, recent: seq<Item>, id: ItemId)
    requires comm != {}
    requires id in FusedPool({}, cf, comm, global, None, recent)
    ensures id in cf
    ensures FusedPool({}, cf, comm, global, None, recent)[id] == {CfTag}
  {
    FusedPoolTags({}, cf, comm, global, None, recent, id);
    StagedTags({}, cf, comm, global, None, id);
  }

  /** The cold-start pool: community ids tagged `pop-comm`, global ids `pop-global`. */
  function ColdPool(comm: set<ItemId>, global: set<ItemId>): Pool {
    AddTag(AddTag(map[], comm, PopCommTag), global, PopGlobalTag)
  }

  /** The cold-start pool holds exactly the two lists' ids; every tag is
      `pop-comm` or `pop-global`, and an id in both lists carries both. */
  lemma ColdPoolTags(comm: set<ItemId>, global: set<ItemId>, id: ItemId)
    ensures id in ColdPool(comm, global) <==> id in comm || id in global
    ensures id in ColdPool(comm, global) ==>
              ColdPool(comm, global)[id] <= {PopCommTag, PopGlobalTag} &&
              ColdPool(comm, global)[id] != {} &&
              (PopCommTag in ColdPool(comm, global)[id] <==> id in comm) &&
              (PopGlobalTag in ColdPool(comm, global)[id] <==> id in global)
  {
  }

  /** `result` lists `pool`: one record per id, with its sources. */
  predicate Lists(result: seq<Candidate>, pool: Pool) {
    |result| == |pool| &&
    (forall i, j :: 0 <= i < j < |result| ==> result[i].itemId != result[j].itemId) &&
    (forall k :: 0 <= k < |result| ==> result[k].itemId in pool && result[k].sources == pool[result[k].itemId]) &&
    (forall id :: id in pool ==> exists k :: 0 <= k < |result| && result[k].itemId == id)
  }

  /** The final `for item_id, sources in candidate_pool.items()` loop; the
      order is that of the dictionary, which the model leaves open. */
  method ListPool(pool: Pool) returns (result: seq<Candidate>)
    ensures Lists(result, pool)
  {
    var ids := Enumerate(pool.Keys);
    result := [];
    var i := 0;
    while i < |ids|
      invariant i <= |ids|
      invariant |result| == i
      invariant forall k :: 0 <= k < i ==> result[k] == Candidate(ids[k], pool[ids[k]])
    {
      result := result + [Candidate(ids[i], pool[ids[i]])];
      i := i + 1;
    }
    forall id | id in pool
      ensures exists k :: 0 <= k < |result| && result[k].itemId == id
    {
      var k :| 0 <= k < |ids| && ids[k] == id;
      assert result[k].itemId == id;
    }
  }

  /** `for iid in ids: candidate_pool.setdefault(iid, set()).add(tag)`. */
  method TagAll(pool: Pool, ids: seq<ItemId>, tag: Tag) returns (r: Pool)
    ensures r == AddTag(pool, ElemsOf(ids), tag)
  {
    r := pool;
    var i := 0;
    assert ElemsOf(ids[..0]) == {};
    AddTagEmpty(pool, tag);
    while i < |ids|
      invariant i <= |ids|
      invariant r == AddTag(pool, ElemsOf(ids[..i]), tag)
    {
      var id := ids[i];
      ElemsOfSnoc(ids, i);
      AddTagStep(pool, ElemsOf(ids[..i]), id, tag);
      r := SetDefaultAdd(r, id, tag);
      i := i + 1;
    }
    assert ids[..i] == ids;
  }

  /** `candidate_pool.setdefault(id, set()).add(tag)`, in place. */
  method SetDefaultAdd(pool: Pool, id: ItemId, tag: Tag) returns (r: Pool)
    ensures r == TagOne(pool, id, tag)
  {
    r := pool;
    if id !in r {
      r := r[id := {}];
    }
    r := r[id := r[id] + {tag}];
  }

  lemma ElemsOfSnoc(ids: seq<ItemId>, i: nat)
    requires i < |ids|
    ensures ElemsOf(ids[..i + 1]) == ElemsOf(ids[..i]) + {ids[i]}
  {
    assert ids[..i + 1] == ids[..i] + [ids[i]];
  }

  /** The community loop over the enumerated community candidates, with the
      content loop's variable `last`; None when it raises. */
  method TagCommunity(pool: Pool, comm: seq<ItemId>, last: Option<ItemId>) returns (r: Option<Pool>)
    ensures r == CommunityStage(pool, ElemsOf(comm), last)
  {
    var p := pool;
    var i := 0;
    while i < |comm|
      invariant i <= |comm|
      invariant i > 0 ==> last.Some? && p == AddTag(pool, {last.value}, PopCommTag)
      invariant i == 0 ==> p == pool
    {
      if last.None? {
        assert comm[0] in ElemsOf(comm);
        return None;
      }
      var itemId := last.value;
      ghost var before := p;
      p := SetDefaultAdd(p, itemId, PopCommTag);
      if i == 0 {
        AddTagEmpty(pool, PopCommTag);
        AddTagStep(pool, {}, itemId, PopCommTag);
      } else {
        AddTagStep(pool, {itemId}, itemId, PopCommTag);
        assert {itemId} + {itemId} == {itemId};
      }
      i := i + 1;
    }
    if |comm| > 0 {
      assert comm[0] in ElemsOf(comm);
    }
    return Some(p);
  }

  /** What `_get_popularity_candidates` returns. */
  datatype PopularityLists = PopularityLists(community: set<ItemId>, global: set<ItemId>)

  class CandidateService {
    const recentN: nat
    const kContent: int
    const kPopComm: int
    const kPopGlobal: int

    /** Defaults: recent_n 3, k_content 30, k_pop_comm 20, k_pop_global 15. */
    constructor (recentN: nat, kContent: int, kPopComm: int, kPopGlobal: int)
      ensures this.recentN == recentN && this.kContent == kContent
      ensures this.kPopComm == kPopComm && this.kPopGlobal == kPopGlobal
    {
      this.recentN := recentN;
      this.kContent := kContent;
      this.kPopComm := kPopComm;
      this.kPopGlobal := kPopGlobal;
    }

    /** The items behind the user's `recent_n` latest interactions. */
    function RecentItems(db: Database, u: UserId): seq<Item> {
      ItemsFor(db.items, LatestInteractions(db, u, recentN))
    }

    /** At most `recent_n` items, each the item of one of the user's
        latest interactions, so never a missing one. */
    lemma RecentItemsBounded(db: Database, u: UserId, it: Item)
      ensures |RecentItems(db, u)| <= recentN
      ensures it in RecentItems(db, u) <==>
                exists k :: 0 <= k < |LatestInteractions(db, u, recentN)| &&
                  LatestInteractions(db, u, recentN)[k].itemId in db.items &&
                  db.items[LatestInteractions(db, u, recentN)[k].itemId] == it
    {
      LatestInteractionsOrdered(db, u, recentN);
      ItemsForMember(db.items, LatestInteractions(db, u, recentN), it);
    }

    /** `_get_recent_user_items`. */
    method GetRecentUserItems(db: Database, u: UserId) returns (items: seq<Item>)
      ensures items == RecentItems(db, u)
    {
      var interactions := LatestInteractions(db, u, recentN);
      items := LookUpItems(db, interactions);
    }

    /** The content candidates: nothing without recent items or without an
        index (the first lookup raises and the failure is swallowed);
        otherwise the union of the first item's `k_content` neighbours and
        every later item's `k_content // 2` neighbours. */
    function ContentCandidates(index: Content.ContentIndex, recent: seq<Item>): (r: set<ItemId>)
      ensures recent == [] || index.Unbuilt? ==> r == {}
      ensures index.Built? && recent != [] ==>
                forall id :: id in r <==>
                  id in index.search(Content.QueryText(recent[0]), kContent) ||
                  exists j :: 1 <= j < |recent| && id in index.search(Content.QueryText(recent[j]), kContent / 2)
    {
      if recent == [] || index.Unbuilt? then {}
      else ElemsOf(index.search(Content.QueryText(recent[0]), kContent)) + SecondaryCandidates(index, recent, 1)
    }

    function SecondaryCandidates(index: Content.ContentIndex, recent: seq<Item>, from: nat): (r: set<ItemId>)
      requires index.Built?
      ensures forall id :: id in r <==>
                exists j :: from <= j < |recent| && id in index.search(Content.QueryText(recent[j]), kContent / 2)
      decreases |recent| - from
    {
      if from >= |recent| then {}
      else ElemsOf(index.search(Content.QueryText(recent[from]), kContent / 2)) + SecondaryCandidates(index, recent, from + 1)
    }

    /** `_get_content_candidates`. */
    method GetContentCandidates(index: Content.ContentIndex, recent: seq<Item>) returns (candidates: set<ItemId>)
      ensures candidates == ContentCandidates(index, recent)
    {
      if recent == [] {
        return {};
      }
      var primary := Content.GetSimilar(index, Content.QueryText(recent[0]), kContent);
      if primary.None? {
        return {};
      }
      candidates := ElemsOf(primary.value);
      var i := 1;
      while i < |recent|
        invariant 1 <= i <= |recent|
        invariant candidates + SecondaryCandidates(index, recent, i) == ContentCandidates(index, recent)
      {
        var secondary := Content.GetSimilar(index, Content.QueryText(recent[i]), kContent / 2);
        candidates := candidates + ElemsOf(secondary.value);
        i := i + 1;
      }
    }

    /** `_get_popularity_candidates`: the community list only for an
        existing user with a non-empty block, the global list always. */
    function PopularityCandidates(pop: Popularity.PopularityGenerator, user: Option<User>): (r: PopularityLists)
      reads pop
      ensures (user.None? || user.value.block == "") ==> r.community == {}
      ensures user.Some? && user.value.block != "" ==>
                r.community == ElemsOf(pop.TopKByCommunity(user.value.block, kPopComm))
      ensures r.global == ElemsOf(pop.TopKGlobal(kPopGlobal))
    {
      PopularityLists(
        if user.Some? && user.value.block != "" then ElemsOf(pop.TopKByCommunity(user.value.block, kPopComm)) else {},
        ElemsOf(pop.TopKGlobal(kPopGlobal)))
    }

    /** The ids the CF stage adds: `top_k=10` neighbours of at most the
        first two recent items. */
    function CfIds(cf: Collaborative.CollaborativeFilter, recent: seq<Item>): (r: seq<ItemId>)
      reads cf
      ensures |r| <= 20
      ensures forall id :: id in r ==>
                exists j :: 0 <= j < Min(2, |recent|) && id in cf.GetSimilarItems(recent[j].id, 10)
      ensures forall j, id :: 0 <= j < Min(2, |recent|) && id in cf.GetSimilarItems(recent[j].id, 10) ==> id in r
    {
      if recent == [] then []
      else if |recent| == 1 then cf.GetSimilarItems(recent[0].id, 10)
      else cf.GetSimilarItems(recent[0].id, 10) + cf.GetSimilarItems(recent[1].id, 10)
    }

    /** The pool `get_candidates` builds for `u`, given the id the content
        loop was left bound to. */
    function CandidatePool(db: Database, u: UserId, index: Content.ContentIndex,
                           cf: Collaborative.CollaborativeFilter, pop: Popularity.PopularityGenerator,
                           last: Option<ItemId>): Pool
      reads cf, pop
    {
      var recent := RecentItems(db, u);
      var lists := PopularityCandidates(pop, GetUser(db, u));
      FusedPool(ContentCandidates(index, recent), ElemsOf(CfIds(cf, recent)), lists.community, lists.global, last, recent)
    }

    /** `get_candidates`. The order of the result follows Python's set and
        dict iteration and is left open; `last` is the content id the
        content loop visited last. */
    method GetCandidates(db: Database, u: UserId, index: Content.ContentIndex,
                         cf: Collaborative.CollaborativeFilter, pop: Popularity.PopularityGenerator)
      returns (result: seq<Candidate>, last: Option<ItemId>)
      ensures LastContent(ContentCandidates(index, RecentItems(db, u)), last)
      ensures Lists(result, CandidatePool(db, u, index, cf, pop, last))
    {
      var user := GetUser(db, u);
      var recent := GetRecentUserItems(db, u);
      var content := GetContentCandidates(index, recent);
      var pool;
      pool, last := ContentStage(content);
      if |recent| > 0 {
        pool := CfStage(pool, cf, recent);
      } else {
        assert ElemsOf(CfIds(cf, recent)) == {};
        AddTagEmpty(pool, CfTag);
      }
      var lists := PopularityCandidates(pop, user);
      pool := PopularityStageLoop(pool, lists.community, lists.global, last);
      pool := RemoveRecent(pool, recent);
      result := ListPool(Fallback(pool));
    }

    /** The content loop of `get_candidates`; `last` is what `item_id` is
        left bound to. */
    method ContentStage(content: set<ItemId>) returns (pool: Pool, last: Option<ItemId>)
      ensures pool == AddTag(map[], content, ContentTag)
      ensures LastContent(content, last)
    {
      var contentIds := Enumerate(content);
      pool := TagAll(map[], contentIds, ContentTag);
      assert ElemsOf(contentIds) == content;
      if |contentIds| > 0 {
        last := Some(contentIds[|contentIds| - 1]);
      } else {
        last := None;
      }
    }

    /** The CF loop of `get_candidates`, over at most the first two recent items. */
    method CfStage(pool: Pool, cf: Collaborative.CollaborativeFilter, recent: seq<Item>) returns (r: Pool)
      ensures r == AddTag(pool, ElemsOf(CfIds(cf, recent)), CfTag)
    {
      var firstTwo := PyTake(recent, 2);
      r := pool;
      var i := 0;
      assert ElemsOf(CfIds(cf, firstTwo[..0])) == {};
      AddTagEmpty(pool, CfTag);
      while i < |firstTwo|
        invariant i <= |firstTwo|
        invariant r == AddTag(pool, ElemsOf(CfIds(cf, firstTwo[..i])), CfTag)
      {
        var cfIds := cf.GetSimilarItems(firstTwo[i].id, 10);
        r := TagAll(r, cfIds, CfTag);
        CfIdsStep(cf, firstTwo, i);
        AddTagUnion(pool, ElemsOf(CfIds(cf, firstTwo[..i])), ElemsOf(cfIds), CfTag);
        i := i + 1;
      }
      assert firstTwo[..i] == firstTwo;
      assert CfIds(cf, firstTwo) == CfIds(cf, recent);
    }

    lemma CfIdsStep(cf: Collaborative.CollaborativeFilter, firstTwo: seq<Item>, i: nat)
      requires i < |firstTwo| <= 2
      ensures ElemsOf(CfIds(cf, firstTwo[..i + 1])) ==
              ElemsOf(CfIds(cf, firstTwo[..i])) + ElemsOf(cf.GetSimilarItems(firstTwo[i].id, 10))
    {
      assert CfIds(cf, firstTwo[..i + 1]) == CfIds(cf, firstTwo[..i]) + cf.GetSimilarItems(firstTwo[i].id, 10);
    }

    /** The popularity loops of `get_candidates`: the community loop, then,
        unless it raised, the global loop. */
    method PopularityStageLoop(pool: Pool, comm: set<ItemId>, global: set<ItemId>, last: Option<ItemId>)
      returns (r: Pool)
      ensures r == PopularityStage(pool, comm, global, last)
    {
      var commIds := Enumerate(comm);
      assert ElemsOf(commIds) == comm;
      var staged := TagCommunity(pool, commIds, last);
      if staged.Some? {
        var globalIds := Enumerate(global);
        assert ElemsOf(globalIds) == global;
        r := TagAll(staged.value, globalIds, PopGlobalTag);
      } else {
        r := pool;
      }
    }

    /** `get_candidates_for_cold_user`. */
    method GetCandidatesForColdUser(db: Database, u: UserId, pop: Popularity.PopularityGenerator)
      returns (result: seq<Candidate>)
      ensures Lists(result, ColdPool(PopularityCandidates(pop, GetUser(db, u)).community,
                                     PopularityCandidates(pop, GetUser(db, u)).global))
    {
      var lists := PopularityCandidates(pop, GetUser(db, u));
      var commIds := Enumerate(lists.community);
      var globalIds := Enumerate(lists.global);
      assert ElemsOf(commIds) == lists.community && ElemsOf(globalIds) == lists.global;
      var pool := TagAll(map[], commIds, PopCommTag);
      pool := TagAll(pool, globalIds, PopGlobalTag);
      result := ListPool(pool);
    }
  }

  /** No record `get_candidates` returns is one of the user's recent items,
      every record has a non-empty source set that never includes
      `fallback`, and ids are unique. */
  lemma CandidatesExcludeRecent(s: CandidateService, db: Database, u: UserId, index: Content.ContentIndex,
                                cf: Collaborative.CollaborativeFilter, pop: Popularity.PopularityGenerator,
                                last: Option<ItemId>, result: seq<Candidate>)
    requires LastContent(s.ContentCandidates(index, s.RecentItems(db, u)), last)
    requires Lists(result, s.CandidatePool(db, u, index, cf, pop, last))
    ensures forall k :: 0 <= k < |result| ==> result[k].itemId !in RecentIds(s.RecentItems(db, u))
    ensures forall k :: 0 <= k < |result| ==> result[k].sources != {} && FallbackTag !in result[k].sources
    ensures forall i, j :: 0 <= i < j < |result| ==> result[i].itemId != result[j].itemId
  {
    var recent := s.RecentItems(db, u);
    var lists := s.PopularityCandidates(pop, GetUser(db, u));
    var content := s.ContentCandidates(index, recent);
    var cfIds := ElemsOf(s.CfIds(cf, recent));
    forall k | 0 <= k < |result|
      ensures result[k].itemId !in RecentIds(recent)
      ensures result[k].sources != {} && FallbackTag !in result[k].sources
    {
      FusedPoolTags(content, cfIds, lists.community, lists.global, last, recent, result[k].itemId);
    }
  }
}
