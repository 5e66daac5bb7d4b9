/** The policy chain applied to a candidate list: a keyword safety check,
    an engagement-quality check, a greedy per-creator cap and a local/other
    quota. A candidate is any record that names an item; `idOf` reads that
    id, and the records themselves pass through unchanged. */
module Policy {
  import opened Models
  import opened Seqs

  // ---------------------------------------------------------------------
  // Safety
  // ---------------------------------------------------------------------

  function LowerChar(c: char): char {
    if 'A' <= c <= 'Z' then (c as int + 32) as char else c
  }

  /** `str.lower()` on ASCII letters. */
  function Lower(s: string): (r: string)
    ensures |r| == |s|
    ensures forall i :: 0 <= i < |s| ==> r[i] == LowerChar(s[i])
  {
    if s == [] then [] else [LowerChar(s[0])] + Lower(s[1..])
  }

  /** `keyword` occurs in `text` starting at index `i`. */
  predicate OccursAt(text: string, keyword: string, i: nat) {
    i + |keyword| <= |text| && text[i..i + |keyword|] == keyword
  }

  /** `keyword in text`: a contiguous occurrence. */
  predicate ContainsSubstring(text: string, keyword: string) {
    exists i: nat | i <= |text| :: OccursAt(text, keyword, i)
  }

  const UnsafeKeywords: seq<string> := ["spam", "scam", "dangerous", "illegal"]

  /** `_is_content_safe`: no unsafe keyword occurs in the lowercased text. */
  predicate IsContentSafe(text: string) {
    forall k :: 0 <= k < |UnsafeKeywords| ==> !ContainsSubstring(Lower(text), UnsafeKeywords[k])
  }

  lemma LowerIdempotent(s: string)
    ensures Lower(Lower(s)) == Lower(s)
  {
    assert forall i :: 0 <= i < |s| ==> LowerChar(LowerChar(s[i])) == LowerChar(s[i]);
  }

  lemma LowerSlice(s: string, i: nat, j: nat)
    requires i <= j <= |s|
    ensures Lower(s[i..j]) == Lower(s)[i..j]
  {
  }

  /** `keyword` occurs in `text` at index `i` when case is ignored. */
  predicate OccursIgnoringCase(text: string, keyword: string, i: nat) {
    i + |keyword| <= |text| && Lower(text[i..i + |keyword|]) == keyword
  }

  /** The check ignores ASCII case: a text is unsafe exactly when some
      unsafe keyword occurs in it in any mix of case, and lowercasing a text
      first does not change the verdict. */
  lemma ContentSafetyIgnoresCase(text: string)
    ensures !IsContentSafe(text) <==>
            exists k: nat, i: nat :: k < |UnsafeKeywords| && OccursIgnoringCase(text, UnsafeKeywords[k], i)
    ensures IsContentSafe(Lower(text)) <==> IsContentSafe(text)
  {
    LowerIdempotent(text);
    forall k: nat, i: nat | k < |UnsafeKeywords|
      ensures OccursIgnoringCase(text, UnsafeKeywords[k], i) <==> OccursAt(Lower(text), UnsafeKeywords[k], i)
    {
      if i + |UnsafeKeywords[k]| <= |text| {
        LowerSlice(text, i, i + |UnsafeKeywords[k]|);
      }
    }
  }

  /** A candidate passes the safety check: its item exists and neither its
      title nor its description (a missing one read as "") is unsafe. */
  predicate IsSafeItem(db: Database, id: ItemId) {
    id in db.items && IsContentSafe(db.items[id].title) && IsContentSafe(db.items[id].description.GetOr(""))
  }

  function SafeCandidate<T>(db: Database, idOf: T -> ItemId): T -> bool {
    x => IsSafeItem(db, idOf(x))
  }

  // ---------------------------------------------------------------------
  // Quality
  // ---------------------------------------------------------------------

  /** One interaction counts: it is with the item, and of one of `types`
      (any type when None). */
  predicate Counted(x: Interaction, id: ItemId, types: Option<set<string>>) {
    x.itemId == id && (types.None? || x.interactionType in types.value)
  }

  /** `query(Interaction).filter(item_id == id)[.filter(type in types)].count()`. */
  function CountInteractions(s: seq<Interaction>, id: ItemId, types: Option<set<string>>): (n: nat)
    ensures n <= |s|
  {
    if s == [] then 0
    else (if Counted(s[0], id, types) then 1 else 0) + CountInteractions(s[1..], id, types)
  }

  const PositiveTypes: set<string> := {"like", "book", "attend"}
  const NegativeTypes: set<string> := {"dismiss"}

  /** The count grows by one exactly for each further matching row, whatever
      the table order. */
  lemma {:induction false} CountInteractionsSnoc(s: seq<Interaction>, x: Interaction, id: ItemId,
                                                 types: Option<set<string>>)
    ensures CountInteractions(s + [x], id, types) ==
            CountInteractions(s, id, types) + (if Counted(x, id, types) then 1 else 0)
  {
    if s == [] {
      assert s + [x] == [x];
    } else {
      CountInteractionsSnoc(s[1..], x, id, types);
      assert (s + [x])[1..] == s[1..] + [x];
    }
  }

  /** Counts over two disjoint type sets (positives and dismissals, say)
      together never exceed the total count. */
  lemma {:induction false} TypedCountsWithinTotal(s: seq<Interaction>, id: ItemId, a: set<string>, b: set<string>)
    requires a !! b
    ensures CountInteractions(s, id, Some(a)) + CountInteractions(s, id, Some(b)) <= CountInteractions(s, id, None)
  {
    if s != [] {
      TypedCountsWithinTotal(s[1..], id, a, b);
    }
  }

  // ---------------------------------------------------------------------
  // Creator cap
  // ---------------------------------------------------------------------

  /** The creator proxy: the item's community, or "unknown" when empty. */
  function Creator(item: Item): string {
    if item.community == "" then "unknown" else item.community
  }

  /** How many candidates in `s` have an existing item with creator `c`. */
  function CreatorCount<T>(db: Database, s: seq<T>, idOf: T -> ItemId, c: string): nat {
    if s == [] then 0
    else
      CreatorCount(db, s[..|s| - 1], idOf, c) +
      (if idOf(s[|s| - 1]) in db.items && Creator(db.items[idOf(s[|s| - 1])]) == c then 1 else 0)
  }

  lemma CreatorCountSnoc<T>(db: Database, s: seq<T>, x: T, idOf: T -> ItemId, c: string)
    ensures CreatorCount(db, s + [x], idOf, c) ==
            CreatorCount(db, s, idOf, c) + (if idOf(x) in db.items && Creator(db.items[idOf(x)]) == c then 1 else 0)
  {
    assert (s + [x])[..|s|] == s;
  }

  // ---------------------------------------------------------------------
  // Community isolation
  // ---------------------------------------------------------------------

  function LocalCandidate<T>(db: Database, idOf: T -> ItemId, userCommunity: string): T -> bool {
    x => idOf(x) in db.items && db.items[idOf(x)].community == userCommunity
  }

  function OtherCandidate<T>(db: Database, idOf: T -> ItemId, userCommunity: string): T -> bool {
    x => idOf(x) in db.items && db.items[idOf(x)].community != userCommunity
  }

  /** `int(a / d)`: division truncated toward zero. */
  function TruncDiv(a: int, d: int): int
    requires d > 0
  {
    if a >= 0 then a / d else -((-a) / d)
  }

  /** For a non-negative dividend the quotient is the floor. */
  lemma TruncDivNonNegative(a: int, d: int)
    requires d > 0 && a >= 0
    ensures 0 <= TruncDiv(a, d) && TruncDiv(a, d) * d <= a < (TruncDiv(a, d) + 1) * d
  {
    var q, m := a / d, a % d;
    assert q * d + m == a && 0 <= m < d;
    assert (q + 1) * d == q * d + d;
  }

  /** For a negative dividend it is the ceiling: truncation toward zero. */
  lemma TruncDivNegative(a: int, d: int)
    requires d > 0 && a < 0
    ensures TruncDiv(a, d) <= 0 && (TruncDiv(a, d) - 1) * d < a <= TruncDiv(a, d) * d
  {
    var q, m := (-a) / d, (-a) % d;
    assert q * d + m == -a && 0 <= m < d;
    assert TruncDiv(a, d) == -q;
    assert (-q) * d == -(q * d);
    assert (-q - 1) * d == -(q * d) - d;
  }

  class PolicyFilter {
    const maxItemsPerCommunity: int
    const creatorFrequencyCap: int
    const minInteractionThreshold: int
    /** `community_preference_ratio` as the fraction ratioNum / ratioDen. */
    const ratioNum: int
    const ratioDen: int

    /** Defaults: 8 items per community, cap 3, threshold 2, ratio 3/5. */
    constructor (maxItemsPerCommunity: int, creatorFrequencyCap: int, minInteractionThreshold: int,
                 ratioNum: int, ratioDen: int)
      requires ratioDen > 0
      ensures this.maxItemsPerCommunity == maxItemsPerCommunity
      ensures this.creatorFrequencyCap == creatorFrequencyCap
      ensures this.minInteractionThreshold == minInteractionThreshold
      ensures this.ratioNum == ratioNum && this.ratioDen == ratioDen
    {
      this.maxItemsPerCommunity := maxItemsPerCommunity;
      this.creatorFrequencyCap := creatorFrequencyCap;
      this.minInteractionThreshold := minInteractionThreshold;
      this.ratioNum := ratioNum;
      this.ratioDen := ratioDen;
    }

    // --- safety -------------------------------------------------------

    /** `apply_safety_checks`. */
    method ApplySafetyChecks<T>(candidates: seq<T>, db: Database, idOf: T -> ItemId) returns (safe: seq<T>)
      ensures safe == Filter(candidates, SafeCandidate(db, idOf))
    {
      safe := KeepWhere(candidates, SafeCandidate(db, idOf));
    }

    // --- quality ------------------------------------------------------

    /** The quality predicate: enough interactions, and when there are
        dismissals at least as many positive ones. */
    predicate MeetsQuality(db: Database, id: ItemId) {
      var total := CountInteractions(db.interactions, id, None);
      var positive := CountInteractions(db.interactions, id, Some(PositiveTypes));
      var negative := CountInteractions(db.interactions, id, Some(NegativeTypes));
      total >= minInteractionThreshold && (if negative > 0 then positive >= negative else true)
    }

    function QualityCandidate<T>(db: Database, idOf: T -> ItemId): T -> bool {
      x => MeetsQuality(db, idOf(x))
    }

    /** `filter_low_quality_items`. The item itself is not looked up. */
    method FilterLowQualityItems<T>(candidates: seq<T>, db: Database, idOf: T -> ItemId) returns (filtered: seq<T>)
      ensures filtered == Filter(candidates, QualityCandidate(db, idOf))
    {
      filtered := KeepWhere(candidates, QualityCandidate(db, idOf));
    }

    // --- creator cap --------------------------------------------------

    /** The greedy cap, read left to right: a candidate with an existing
        item survives when fewer than `creator_frequency_cap` earlier
        survivors share its creator. */
    function Capped<T>(db: Database, s: seq<T>, idOf: T -> ItemId): seq<T> {
      if s == [] then []
      else
        var prev := Capped(db, s[..|s| - 1], idOf);
        var x := s[|s| - 1];
        if idOf(x) in db.items && CreatorCount(db, prev, idOf, Creator(db.items[idOf(x)])) < creatorFrequencyCap
        then prev + [x] else prev
    }

    /** `apply_creator_frequency_cap`. */
    method ApplyCreatorFrequencyCap<T>(candidates: seq<T>, db: Database, idOf: T -> ItemId) returns (filtered: seq<T>)
      ensures filtered == Capped(db, candidates, idOf)
    {
      var creatorCounts: map<string, int> := map[];
      filtered := [];
      var i := 0;
      while i < |candidates|
        invariant i <= |candidates|
        invariant filtered == Capped(db, candidates[..i], idOf)
        invariant forall c :: (if c in creatorCounts then creatorCounts[c] else 0) == CreatorCount(db, filtered, idOf, c)
      {
        var candidate := candidates[i];
        assert candidates[..i + 1][..i] == candidates[..i] && candidates[..i + 1][i] == candidate;
        var item := GetItem(db, idOf(candidate));
        if item.Some? {
          var creator := Creator(item.value);
          var count := if creator in creatorCounts then creatorCounts[creator] else 0;
          if count < creatorFrequencyCap {
            forall c
              ensures CreatorCount(db, filtered + [candidate], idOf, c) ==
                      CreatorCount(db, filtered, idOf, c) + (if c == creator then 1 else 0)
            {
              CreatorCountSnoc(db, filtered, candidate, idOf, c);
            }
            filtered := filtered + [candidate];
            creatorCounts := creatorCounts[creator := count + 1];
          }
        }
        i := i + 1;
      }
      assert candidates[..i] == candidates;
    }

    /** After the cap no creator has more than `creator_frequency_cap`
        survivors (none at all when the cap is not positive). */
    lemma {:induction false} CapBoundsCreators<T>(db: Database, s: seq<T>, idOf: T -> ItemId, c: string)
      ensures CreatorCount(db, Capped(db, s, idOf), idOf, c) <= Max(creatorFrequencyCap, 0)
    {
      if s != [] {
        var prev := Capped(db, s[..|s| - 1], idOf);
        var x := s[|s| - 1];
        CapBoundsCreators(db, s[..|s| - 1], idOf, c);
        CreatorCountSnoc(db, prev, x, idOf, c);
      }
    }

    /** The cap only drops candidates, keeps their order, and keeps only
        candidates whose item exists. */
    lemma {:induction false} CapIsSubsequence<T>(db: Database, s: seq<T>, idOf: T -> ItemId)
      ensures IsSubsequence(Capped(db, s, idOf), s)
      ensures forall x :: x in Capped(db, s, idOf) ==> idOf(x) in db.items
    {
      if s != [] {
        var init := s[..|s| - 1];
        var x := s[|s| - 1];
        CapIsSubsequence(db, init, idOf);
        SubsequenceSnoc(Capped(db, init, idOf), init, x);
        assert s == init + [x];
      }
    }

    /** Greedy: the survivors of a prefix are a prefix of the survivors of
        the whole list, so a later candidate never displaces an earlier one. */
    lemma {:induction false} CapIsGreedy<T>(db: Database, s: seq<T>, idOf: T -> ItemId, k: nat)
      requires k <= |s|
      ensures |Capped(db, s[..k], idOf)| <= |Capped(db, s, idOf)|
      ensures Capped(db, s[..k], idOf) == Capped(db, s, idOf)[..|Capped(db, s[..k], idOf)|]
    {
      if k < |s| {
        CapIsGreedy(db, s[..|s| - 1], idOf, k);
        assert s[..|s| - 1][..k] == s[..k];
      } else {
        assert s[..k] == s;
      }
    }

    // --- community isolation ------------------------------------------

    /** `total_target`. */
    function TotalTarget(n: nat): int {
      Min(n, maxItemsPerCommunity + 5)
    }

    /** `community_target`: `int(total_target * ratio)`. */
    function CommunityTarget(n: nat): int
      requires ratioDen > 0
    {
      TruncDiv(TotalTarget(n) * ratioNum, ratioDen)
    }

    /** `apply_community_isolation` as a function of its input. */
    function Isolated<T>(userCommunity: string, candidates: seq<T>, db: Database, idOf: T -> ItemId): seq<T>
      requires ratioDen > 0
    {
      if userCommunity == "" then candidates
      else
        var local := Filter(candidates, LocalCandidate(db, idOf, userCommunity));
        var other := Filter(candidates, OtherCandidate(db, idOf, userCommunity));
        var communityTarget := CommunityTarget(|candidates|);
        var taken := PyTake(local, communityTarget);
        var otherTarget := TotalTarget(|candidates|) - communityTarget +
                           (if |taken| < communityTarget then communityTarget - |taken| else 0);
        taken + PyTake(other, otherTarget)
    }

    /** `apply_community_isolation`. An empty community (or None) leaves
        the list unchanged. */
    method ApplyCommunityIsolation<T>(userCommunity: string, candidates: seq<T>, db: Database, idOf: T -> ItemId)
      returns (result: seq<T>)
      requires ratioDen > 0
      ensures result == Isolated(userCommunity, candidates, db, idOf)
    {
      if userCommunity == "" {
        return candidates;
      }
      var communityItems, otherCommunityItems := Partition(candidates, db, idOf, userCommunity);
      var totalTarget := Min(|candidates|, maxItemsPerCommunity + 5);
      var communityTarget := TruncDiv(totalTarget * ratioNum, ratioDen);
      var otherTarget := totalTarget - communityTarget;
      result := PyTake(communityItems, communityTarget);
      if |result| < communityTarget {
        otherTarget := otherTarget + (communityTarget - |result|);
      }
      result := result + PyTake(otherCommunityItems, otherTarget);
    }

    /** With a ratio in [0, 1] the local quota lies between 0 and the total. */
    lemma CommunityTargetBounds(n: nat)
      requires ratioDen > 0 && 0 <= ratioNum <= ratioDen && maxItemsPerCommunity + 5 >= 0
      ensures 0 <= TotalTarget(n) <= n
      ensures 0 <= CommunityTarget(n) <= TotalTarget(n)
    {
      var total := TotalTarget(n);
      var q := CommunityTarget(n);
      TruncDivNonNegative(total * ratioNum, ratioDen);
      MulMonotone(total, ratioNum, ratioDen);
      assert q * ratioDen <= total * ratioNum <= total * ratioDen;
    }

    /** For a non-empty community and a ratio in [0, 1], the result is the
        first `community_target` local candidates followed by as many of
        the others as fill `total_target`; locals beyond their quota are
        never used to fill missing others, and the list is never longer
        than `min(len(candidates), max_items_per_community + 5)`. */
    lemma IsolationShape<T>(userCommunity: string, candidates: seq<T>, db: Database, idOf: T -> ItemId)
      requires ratioDen > 0 && 0 <= ratioNum <= ratioDen && maxItemsPerCommunity + 5 >= 0
      requires userCommunity != ""
      ensures 0 <= CommunityTarget(|candidates|) <= TotalTarget(|candidates|)
      ensures var local := Filter(candidates, LocalCandidate(db, idOf, userCommunity));
              var other := Filter(candidates, OtherCandidate(db, idOf, userCommunity));
              var taken := Min(CommunityTarget(|candidates|), |local|);
              Isolated(userCommunity, candidates, db, idOf) ==
                local[..taken] + other[..Min(TotalTarget(|candidates|) - taken, |other|)]
      ensures |Isolated(userCommunity, candidates, db, idOf)| <= Min(|candidates|, maxItemsPerCommunity + 5)
    {
      CommunityTargetBounds(|candidates|);
      var local := Filter(candidates, LocalCandidate(db, idOf, userCommunity));
      var other := Filter(candidates, OtherCandidate(db, idOf, userCommunity));
      var taken := Min(CommunityTarget(|candidates|), |local|);
      assert PyTake(local, CommunityTarget(|candidates|)) == local[..taken];
    }

    /** Every candidate the isolation step returns was in its input and has
        an existing item, or the step returned its input unchanged. */
    lemma IsolationDrawsFromInput<T>(userCommunity: string, candidates: seq<T>, db: Database, idOf: T -> ItemId, x: T)
      requires ratioDen > 0
      requires x in Isolated(userCommunity, candidates, db, idOf)
      ensures x in candidates
      ensures userCommunity != "" ==> idOf(x) in db.items
    {
      if userCommunity != "" {
        var local := Filter(candidates, LocalCandidate(db, idOf, userCommunity));
        var other := Filter(candidates, OtherCandidate(db, idOf, userCommunity));
        var communityTarget := CommunityTarget(|candidates|);
        var taken := PyTake(local, communityTarget);
        var otherTarget := TotalTarget(|candidates|) - communityTarget +
                           (if |taken| < communityTarget then communityTarget - |taken| else 0);
        if x in taken {
          assert x in local;
        } else {
          assert x in PyTake(other, otherTarget);
          assert x in other;
        }
      }
    }

    /** Isolation moves local candidates to the front, so unlike the other
        stages its output need not keep the input order: under the default
        configuration, a non-local item ranked first and a local one ranked
        second come out swapped. */
    lemma IsolationReorders()
      requires maxItemsPerCommunity == 8 && ratioNum == 3 && ratioDen == 5
      ensures Isolated("south", [1, 2], TwoCommunities(), ItemIdentity()) == [2, 1]
      ensures !IsSubsequence([2, 1], [1, 2])
    {
      TwoCommunitiesSplit();
      assert TotalTarget(2) == 2;
      assert CommunityTarget(2) == 1;
      assert PyTake([2], 1) == [2] && PyTake([1], 1) == [1];
      NotSubsequence();
    }

    // --- the chain ----------------------------------------------------

    /** What `apply_all_policies` returns. */
    function AllPolicies<T>(userCommunity: string, candidates: seq<T>, db: Database, idOf: T -> ItemId): seq<T>
      requires ratioDen > 0
    {
      if candidates == [] then candidates
      else
        var safe := Filter(candidates, SafeCandidate(db, idOf));
        var good := Filter(safe, QualityCandidate(db, idOf));
        Isolated(userCommunity, Capped(db, good, idOf), db, idOf)
    }

    /** `apply_all_policies`: safety, quality, creator cap, isolation. */
    method ApplyAllPolicies<T>(userCommunity: string, candidates: seq<T>, db: Database, idOf: T -> ItemId)
      returns (result: seq<T>)
      requires ratioDen > 0
      ensures result == AllPolicies(userCommunity, candidates, db, idOf)
    {
      if candidates == [] {
        return candidates;
      }
      result := ApplySafetyChecks(candidates, db, idOf);
      result := FilterLowQualityItems(result, db, idOf);
      result := ApplyCreatorFrequencyCap(result, db, idOf);
      result := ApplyCommunityIsolation(userCommunity, result, db, idOf);
    }

    /** The first three stages only drop candidates and keep their order;
        whatever survives the whole chain was an input candidate whose item
        exists and passes both the safety and the quality check. */
    lemma AllPoliciesKeepOnlyAcceptable<T>(userCommunity: string, candidates: seq<T>, db: Database,
                                               idOf: T -> ItemId, x: T)
      requires ratioDen > 0
      requires x in AllPolicies(userCommunity, candidates, db, idOf)
      ensures x in candidates
      ensures IsSafeItem(db, idOf(x)) && MeetsQuality(db, idOf(x))
      ensures var safe := Filter(candidates, SafeCandidate(db, idOf));
              var good := Filter(safe, QualityCandidate(db, idOf));
              IsSubsequence(safe, candidates) && IsSubsequence(good, safe) && IsSubsequence(Capped(db, good, idOf), good)
    {
      var safe := Filter(candidates, SafeCandidate(db, idOf));
      var good := Filter(safe, QualityCandidate(db, idOf));
      var capped := Capped(db, good, idOf);
      FilterIsSubsequence(candidates, SafeCandidate(db, idOf));
      FilterIsSubsequence(safe, QualityCandidate(db, idOf));
      CapIsSubsequence(db, good, idOf);
      IsolationDrawsFromInput(userCommunity, capped, db, idOf, x);
      SubsequenceBounds(capped, good);
      assert x in good;
      assert QualityCandidate(db, idOf)(x);
      assert x in safe;
      assert SafeCandidate(db, idOf)(x);
    }
  }

  lemma MulMonotone(a: int, b: int, c: int)
    requires a >= 0 && 0 <= b <= c
    ensures 0 <= a * b <= a * c
  {
  }

  /** Two items, 1 in "north" and 2 in "south". */
  function TwoCommunities(): Database {
    Database(map[], map[1 := Item(1, "a", None, "north", None), 2 := Item(2, "b", None, "south", None)], [])
  }

  function ItemIdentity(): ItemId -> ItemId {
    x => x
  }

  lemma TwoCommunitiesSplit()
    ensures Filter([1, 2], LocalCandidate(TwoCommunities(), ItemIdentity(), "south")) == [2]
    ensures Filter([1, 2], OtherCandidate(TwoCommunities(), ItemIdentity(), "south")) == [1]
  {
    var s: seq<ItemId> := [1, 2];
    assert s[1..] == [2] && s[1..][1..] == [];
  }

  lemma NotSubsequence()
    ensures !IsSubsequence([2, 1], [1, 2])
  {
    var a: seq<ItemId>, b: seq<ItemId> := [2, 1], [1, 2];
    assert b[1..] == [2] && b[1..][1..] == [];
    assert !IsSubsequence(a, [2]) by {
      assert a[1..] == [1];
      assert !IsSubsequence([1], []);
    }
  }

  /** The filtering loop shared by the safety and quality checks. */
  method KeepWhere<T>(candidates: seq<T>, keep: T -> bool) returns (kept: seq<T>)
    ensures kept == Filter(candidates, keep)
  {
    kept := [];
    var i := 0;
    while i < |candidates|
      invariant i <= |candidates|
      invariant kept + Filter(candidates[i..], keep) == Filter(candidates, keep)
    {
      FilterLoopStep(candidates, i, keep, kept);
      if keep(candidates[i]) {
        kept := kept + [candidates[i]];
      }
      i := i + 1;
    }
    assert candidates[i..] == [];
  }

  /** The partition loop of `apply_community_isolation`: candidates whose
      item is missing go nowhere. */
  method Partition<T>(candidates: seq<T>, db: Database, idOf: T -> ItemId, userCommunity: string)
    returns (communityItems: seq<T>, otherCommunityItems: seq<T>)
    ensures communityItems == Filter(candidates, LocalCandidate(db, idOf, userCommunity))
    ensures otherCommunityItems == Filter(candidates, OtherCandidate(db, idOf, userCommunity))
  {
    communityItems, otherCommunityItems := [], [];
    var i := 0;
    while i < |candidates|
      invariant i <= |candidates|
      invariant Routed(candidates, i, db, idOf, userCommunity, communityItems, otherCommunityItems)
    {
      var item := GetItem(db, idOf(candidates[i]));
      RouteStep(candidates, i, db, idOf, userCommunity, communityItems, otherCommunityItems);
      if item.Some? {
        if item.value.community == userCommunity {
          communityItems := communityItems + [candidates[i]];
        } else {
          otherCommunityItems := otherCommunityItems + [candidates[i]];
        }
      }
      i := i + 1;
    }
    assert candidates[i..] == [];
  }

  /** The partition invariant after `i` candidates. */
  ghost predicate Routed<T>(candidates: seq<T>, i: nat, db: Database, idOf: T -> ItemId, userCommunity: string,
                            local: seq<T>, other: seq<T>)
    requires i <= |candidates|
  {
    local + Filter(candidates[i..], LocalCandidate(db, idOf, userCommunity)) ==
      Filter(candidates, LocalCandidate(db, idOf, userCommunity)) &&
    other + Filter(candidates[i..], OtherCandidate(db, idOf, userCommunity)) ==
      Filter(candidates, OtherCandidate(db, idOf, userCommunity))
  }

  lemma RouteStep<T>(candidates: seq<T>, i: nat, db: Database, idOf: T -> ItemId, userCommunity: string,
                     local: seq<T>, other: seq<T>)
    requires i < |candidates|
    requires Routed(candidates, i, db, idOf, userCommunity, local, other)
    ensures var x := candidates[i];
            var exists_ := idOf(x) in db.items;
            var isLocal := exists_ && db.items[idOf(x)].community == userCommunity;
            Routed(candidates, i + 1, db, idOf, userCommunity,
                   if isLocal then local + [x] else local,
                   if exists_ && !isLocal then other + [x] else other)
  {
    FilterLoopStep(candidates, i, LocalCandidate(db, idOf, userCommunity), local);
    FilterLoopStep(candidates, i, OtherCandidate(db, idOf, userCommunity), other);
  }
}
