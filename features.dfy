/** Feature extraction: one record per candidate whose item exists, with a
    recency score that decays with the item's age and a content-similarity
    proxy read off the candidate's provenance tags. */
module Features {
  import opened Models
  import opened Seqs

  /** `{"item_id", "title", "community", "sources", "features": {"content_sim", "recency"}}`. */
  datatype FeatureRecord = FeatureRecord(
    itemId: ItemId,
    title: string,
    community: string,
    sources: set<Tag>,
    contentSim: real,
    recency: real)

  const SecondsPerDay: real := 86400.0

  /** Age in days of an item created at `createdAt`; a missing creation
      time is read as `now`. */
  function AgeDays(now: Timestamp, createdAt: Option<Timestamp>): (d: real)
    ensures createdAt.None? ==> d == 0.0
    ensures createdAt.Some? ==> (d <= 0.0 <==> createdAt.value >= now)
  {
    (now - createdAt.GetOr(now)) as real / SecondsPerDay
  }

  /** `1 / (1 + max(0, age_days))`: 1.0 for an item that is new (or from
      the future), and strictly between 0 and 1 once it has aged. */
  function Recency(ageDays: real): (r: real)
    ensures 0.0 < r <= 1.0
    ensures r == 1.0 <==> ageDays <= 0.0
  {
    1.0 / (1.0 + (if ageDays >= 0.0 then ageDays else 0.0))
  }

  /** Older items never score higher, and strictly older ones score lower. */
  lemma RecencyDecreasing(a: real, b: real)
    requires 0.0 <= a <= b
    ensures Recency(b) <= Recency(a)
    ensures a < b ==> Recency(b) < Recency(a)
  {
    var ra, rb := Recency(a), Recency(b);
    var x, y := 1.0 + a, 1.0 + b;
    assert ra * x == 1.0 && rb * y == 1.0;
    assert rb * (y - x) >= 0.0;
    assert rb * x <= ra * x;
    assert (ra - rb) * x >= 0.0;
    if a < b {
      assert rb * (y - x) > 0.0;
      assert (ra - rb) * x > 0.0;
    }
  }

  /** 0.8 for a candidate that came from content similarity, else 0.5. */
  function ContentSim(sources: set<Tag>): (r: real)
    ensures r == 0.8 || r == 0.5
    ensures r == 0.8 <==> ContentTag in sources
  {
    if ContentTag in sources then 0.8 else 0.5
  }

  /** The record built for a candidate whose item exists. */
  function ToRecord(db: Database, now: Timestamp, c: Candidate): (f: FeatureRecord)
    requires c.itemId in db.items
    ensures f.itemId == db.items[c.itemId].id && f.title == db.items[c.itemId].title
    ensures f.community == db.items[c.itemId].community && f.sources == c.sources
    ensures 0.0 < f.recency <= 1.0
    ensures db.items[c.itemId].createdAt.None? ==> f.recency == 1.0
    ensures f.contentSim == ContentSim(c.sources)
    ensures f.recency == Recency(AgeDays(now, db.items[c.itemId].createdAt))
  {
    var item := db.items[c.itemId];
    FeatureRecord(item.id, item.title, item.community, c.sources,
                  ContentSim(c.sources), Recency(AgeDays(now, item.createdAt)))
  }

  function HasItem(db: Database): Candidate -> bool {
    (c: Candidate) => c.itemId in db.items
  }

  /** What `build_features` returns, candidate by candidate. */
  function Built(db: Database, now: Timestamp, s: seq<Candidate>): (r: seq<FeatureRecord>)
    ensures |r| <= |s|
  {
    if s == [] then []
    else (if s[0].itemId in db.items then [ToRecord(db, now, s[0])] else []) + Built(db, now, s[1..])
  }

  /** `build_features`. The query text the source also takes is unused. */
  method BuildFeatures(db: Database, now: Timestamp, candidates: seq<Candidate>) returns (result: seq<FeatureRecord>)
    ensures result == Built(db, now, candidates)
  {
    result := [];
    var i := 0;
    while i < |candidates|
      invariant i <= |candidates|
      invariant result + Built(db, now, candidates[i..]) == Built(db, now, candidates)
    {
      var c := candidates[i];
      BuildStep(db, now, candidates, i, result);
      var item := GetItem(db, c.itemId);
      if item.Some? {
        var created := item.value.createdAt.GetOr(now);
        var recencyDays := (now - created) as real / SecondsPerDay;
        var recency := 1.0 / (1.0 + (if recencyDays >= 0.0 then recencyDays else 0.0));
        var contentSim := 0.5;
        if ContentTag in c.sources {
          contentSim := 0.8;
        }
        var record := FeatureRecord(item.value.id, item.value.title, item.value.community, c.sources, contentSim, recency);
        assert record == ToRecord(db, now, c);
        result := result + [record];
      }
      i := i + 1;
    }
    assert candidates[i..] == [];
  }

  lemma BuildStep(db: Database, now: Timestamp, s: seq<Candidate>, i: nat, acc: seq<FeatureRecord>)
    requires i < |s|
    requires acc + Built(db, now, s[i..]) == Built(db, now, s)
    ensures (if s[i].itemId in db.items then acc + [ToRecord(db, now, s[i])] else acc) +
            Built(db, now, s[i + 1..]) == Built(db, now, s)
  {
    assert s[i..][1..] == s[i + 1..];
    if s[i].itemId in db.items {
      AppendAssociative(acc, [ToRecord(db, now, s[i])], Built(db, now, s[i + 1..]));
    }
  }

  /** `build_features` is a filter followed by a map: candidates with a
      missing item are dropped, the rest keep their order, and the record
      at position j is built from the j-th surviving candidate. */
  lemma {:induction false} BuiltIsFilterMap(db: Database, now: Timestamp, s: seq<Candidate>)
    ensures var kept := Filter(s, HasItem(db));
            |Built(db, now, s)| == |kept| &&
            (forall j :: 0 <= j < |kept| ==>
               kept[j].itemId in db.items && Built(db, now, s)[j] == ToRecord(db, now, kept[j]))
  {
    if s != [] {
      BuiltIsFilterMap(db, now, s[1..]);
      var kept := Filter(s, HasItem(db));
      var rest := Filter(s[1..], HasItem(db));
      if s[0].itemId in db.items {
        assert kept == [s[0]] + rest;
        forall j | 1 <= j < |kept|
          ensures kept[j] == rest[j - 1] && Built(db, now, s)[j] == Built(db, now, s[1..])[j - 1]
        {
        }
      } else {
        assert kept == rest;
      }
    }
  }

  /** Surviving candidates are exactly those whose item exists, in input order. */
  lemma BuiltKeepsExistingInOrder(db: Database, now: Timestamp, candidates: seq<Candidate>)
    ensures var kept := Filter(candidates, HasItem(db));
            IsSubsequence(kept, candidates) &&
            (forall c :: c in kept <==> c in candidates && c.itemId in db.items)
  {
    FilterIsSubsequence(candidates, HasItem(db));
  }
}
