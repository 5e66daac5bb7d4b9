# Recommendation pipeline: a Dafny model

This project models the recommendation pipeline of a community feed service in
Dafny and proves properties of the model. The pipeline has five stages:

- candidate generation, which fuses content, collaborative and popularity sources into a pool of tagged item ids;
- a chain of policy filters (keyword safety, engagement quality, a per-creator cap, a local/other community quota);
- feature extraction;
- a weighted ranker;
- a one-line explanation per entry.

The database is modelled as plain values (`Models`):

- users and items as maps keyed by id;
- the interaction table as a sequence in row order.

The modules follow the source files:

| module | what it models |
|---|---|
| `Models` | the records of app/core/models.py, plus an `Option` type |
| `Seqs` | Python slicing `s[:n]` (`PyTake`), order-preserving filters, subsequences, and the nondeterministic enumeration of a Python set (`Enumerate`) |
| `Sorting` | Python's stable `sorted(..., key, reverse=True)`, as an insertion sort by a key function, with its sortedness, permutation and stability lemmas |
| `Content` | the sentence-encoder and FAISS index, as an oracle. The index is either `Unbuilt` (a search raises) or `Built(search)` |
| `Collaborative` | item-based collaborative filtering. The weighted user x item matrix, the cosine similarity with its two zero cases (cosine itself abstract), and the class whose `itemSimilarity` field `build_model` rewrites in place |
| `Popularity` | the time-decayed popularity aggregator. Insertion-ordered score tables, and the class whose ranked lists `refresh` reassigns |
| `Candidates` | `CandidateService`. Recent items, the content, collaborative and popularity stages, removal of recent items, the `fallback` tag, and the cold-start variant |
| `Policy` | `PolicyFilter` and its four filters, over candidates of any type `T` with an id projection |
| `Features` | `build_features`, as a loop proved equal to a filter-map |
| `Ranker` | `EnhancedRanker`. Feed entries are objects whose `score` and `breakdown` the ranker writes in place. The result is a stable descending sort cut to `top_k` |
| `Explanations` | `reason_for`, as the rule that fires (`Reason`), its text, and a parser that reads the rule back |

## Where the model differs from a reading of the design

**The community candidate loop is modelled as written** (app/services/reco/candidate_service.py:184-188). The loop binds `intem_id` but its body uses `item_id`, which is whatever the content loop left bound.

- The community ids themselves are never added.
- If the content loop bound an id, that last content id gets `pop-comm`.
- If it bound none, the loop raises, the handler swallows the error, and the global candidates are lost too (`Candidates.CommunityStage`, `Candidates.EmptyContentLosesPopularity`).

**Community isolation does not preserve order.** It moves local items ahead of the others, so its output is not a subsequence of its input even though it cuts lengths down. `Policy.PolicyFilter.IsolationReorders` shows this on two items under the default configuration. The other three filters do keep order (`Policy.PolicyFilter.AllPoliciesKeepOnlyAcceptable`).

**The "symmetric" neighbour entries never survive a build.** `build_model` appends a symmetric entry to each later item, but resets that item's list when its own row starts. After a build, an item's neighbours are only items enumerated after it (`Collaborative.NeighboursAreOneSided`).

**Refresh can fail.** With a zero half-life, the first timestamped row makes `0.5 ** (days / 0)` raise before either field of the generator is assigned. `Popularity.PopularityGenerator.Refresh` returns `false` in that case and leaves the state unchanged.

## Model

| member | source | states |
|---|---|---|
| `Content.GetSimilar` | app/services/reco/generators/content.py:35-43 | the lookup fails exactly when the index has not been built |
| `Collaborative.InteractionWeight` | app/services/reco/generators/collaborative.py:16-21 | a dismissal weighs -0.5; unknown interaction types weigh 1.0 |
| `Collaborative.UserItemsSumsWeights` | app/services/reco/generators/collaborative.py:33-37 | the matrix has a cell exactly for the (user, item) pairs that interacted, and each cell holds the sum of their interaction weights |
| `Collaborative.AccumulateUserItems` | app/services/reco/generators/collaborative.py:33-37 | the accumulation loop builds exactly that matrix |
| `Collaborative.CommonUserVectors` | app/services/reco/generators/collaborative.py:73-75 | the vectors hold, for each common user, that user's weight for each item |
| `Collaborative.CosineSimilarity` | app/services/reco/generators/collaborative.py:61-85 | the similarity is 0 with fewer than two common users, 0 when either vector is zero, and otherwise the cosine of the two common-user vectors |
| `Collaborative.RowMembers` | app/services/reco/generators/collaborative.py:47-55 | a row holds exactly the later items whose similarity with the row's item exceeds 0.1 |
| `Collaborative.NeighbourListProperties` | app/services/reco/generators/collaborative.py:44-57 | a final neighbour list is sorted by score, highest first. Its members are exactly the later items with similarity above 0.1, so never the item itself |
| `Collaborative.CollaborativeFilter.CompareStep` | app/services/reco/generators/collaborative.py:47-55 | one comparison extends the current row by the pair when it scores above 0.1, and keeps finished rows finished |
| `Collaborative.CollaborativeFilter.CompareRow` | app/services/reco/generators/collaborative.py:45-55 | the reset row ends up holding exactly its later neighbours above 0.1, whatever earlier rows appended to it |
| `Collaborative.RowUpdateKeepsFinished` | app/services/reco/generators/collaborative.py:44-57 | writing a later item's list never disturbs rows already finished, and writing the current row's sorted list finishes it |
| `Collaborative.CollaborativeFilter.BuildModel` | app/services/reco/generators/collaborative.py:23-59 | after a build, every enumerated item maps to its sorted list of later neighbours above 0.1, and other lists are unchanged |
| `Collaborative.CollaborativeFilter.GetSimilarItems` | app/services/reco/generators/collaborative.py:87-93 | an unknown item gives []; otherwise exactly the ids of the first `min(top_k, len)` stored entries (Python's slice for a negative `top_k`) |
| `Collaborative.SimilarItemsAreLaterNeighbours` | app/services/reco/generators/collaborative.py:40-57 | after a build, a query returns at most `top_k` ids, each a later item with similarity above 0.1, never the queried item |
| `Collaborative.NeighboursAreOneSided` | app/services/reco/generators/collaborative.py:45-54 | when `items[k]` is a neighbour of `items[j]`, then j < k and `items[j]` is not a neighbour of `items[k]` |
| `Popularity.InteractionWeight` | app/services/reco/generators/popularity.py:55-62 | a dismissal weighs -1.0 here; unknown interaction types weigh 1.0 |
| `Popularity.GlobalScoresAreSums` | app/services/reco/generators/popularity.py:64-77 | the global table holds exactly the items with a timestamped row, each scored by the sum of its rows' decayed weights; rows without a timestamp add nothing |
| `Popularity.CommunityTablePresent` | app/services/reco/generators/popularity.py:79-81 | a community gets a table exactly when it is non-empty and has a timestamped row |
| `Popularity.CommunityTableIsSums` | app/services/reco/generators/popularity.py:64-81 | a community table holds exactly the items with timestamped rows in that community, each with the sum over those rows |
| `Popularity.TopListOrdered` | app/services/reco/generators/popularity.py:84-91 | a ranked list is non-increasing, `top_k` long or the whole table when that is shorter, and a prefix of a permutation of the table's entries |
| `Popularity.TopListKeepsTheBest` | app/services/reco/generators/popularity.py:84-91 | no table entry the cut leaves out scores higher than an entry it keeps |
| `Popularity.TopListEntries` | app/services/reco/generators/popularity.py:84-91 | every ranked entry is a table item with its table score, and no id appears twice |
| `Popularity.TopListStable` | app/services/reco/generators/popularity.py:84-91 | among equal scores a ranked list keeps first-seen order, and the cut drops the later ones |
| `Popularity.PopularityGenerator.AccumulateScores` | app/services/reco/generators/popularity.py:64-81 | the loop completes exactly when no decay divides by zero, and then yields the global and per-community tables of the rows |
| `Popularity.PopularityGenerator.AccumulateRow` | app/services/reco/generators/popularity.py:64-81 | one row adds its score to its item globally and, for a non-empty community, in that community's table |
| `Popularity.RankCommunities` | app/services/reco/generators/popularity.py:88-91 | one ranked list per community table, and no others |
| `Popularity.PopularityGenerator.Refresh` | app/services/reco/generators/popularity.py:30-91 | on success both ranked results are rebuilt from the new rows alone; on a zero half-life the state is unchanged |
| `Popularity.RefreshForgetsAbsentCommunities` | app/services/reco/generators/popularity.py:88-99 | after a refresh, a community with no timestamped row in the new data has no list and answers with the global list |
| `Popularity.PopularityGenerator.TopKGlobal` | app/services/reco/generators/popularity.py:93-94 | the ids of the first k global entries |
| `Popularity.PopularityGenerator.TopKByCommunity` | app/services/reco/generators/popularity.py:96-99 | a prefix of the community's list, or exactly `top_k_global(k)` for an unknown community |
| `Candidates.LatestInteractionsOrdered` | app/services/reco/candidate_service.py:42-48 | `min(n, count)` of the user's own interactions, none repeated more often than in the table, newest first, with rows lacking a timestamp last |
| `Candidates.LatestInteractionsAreNewest` | app/services/reco/candidate_service.py:42-48 | a timestamped interaction of the user that is left out means n rows were returned, each at least as new as it |
| `Candidates.ItemsForMember` | app/services/reco/candidate_service.py:50-57 | an item is returned exactly when it is the existing item of one of the interactions |
| `Candidates.LookUpItems` | app/services/reco/candidate_service.py:50-57 | the loop returns the existing items of the interactions in order, skipping missing ones |
| `Candidates.CandidateService.RecentItemsBounded` | app/services/reco/candidate_service.py:33-57 | at most `recent_n` recent items, each the existing item of one of the user's latest interactions |
| `Candidates.CandidateService.GetRecentUserItems` | app/services/reco/candidate_service.py:33-57 | the method returns exactly those recent items |
| `Candidates.CandidateService.ContentCandidates` | app/services/reco/candidate_service.py:59-99 | empty without recent items or without an index; otherwise the union of the first item's `k_content` neighbours and each later item's `k_content // 2` neighbours |
| `Candidates.CandidateService.GetContentCandidates` | app/services/reco/candidate_service.py:59-99 | the loop computes exactly that union |
| `Candidates.CandidateService.PopularityCandidates` | app/services/reco/candidate_service.py:101-130 | the community list only for an existing user with a non-empty block; the global list always |
| `Candidates.CandidateService.CfIds` | app/services/reco/candidate_service.py:169-176 | at most 20 ids: exactly the `top_k=10` neighbours of the first two recent items |
| `Candidates.CandidateService.CfStage` | app/services/reco/candidate_service.py:169-180 | every id the CF lookups return gains the `cf` tag, and nothing else changes |
| `Candidates.CandidateService.ContentStage` | app/services/reco/candidate_service.py:159-167 | every content id is tagged `content`, and `last` is one of them, or none when the stage is empty |
| `Candidates.CommunityStage` | app/services/reco/candidate_service.py:182-196 | the popularity stage fails exactly when there are community candidates but no content id was ever bound |
| `Candidates.CandidateService.PopularityStageLoop` | app/services/reco/candidate_service.py:182-196 | the community loop as written, then the global loop unless the first raised |
| `Candidates.RemoveRecent` | app/services/reco/candidate_service.py:132-144 | an id survives exactly when it is not a recent item's id, and it keeps its tags |
| `Candidates.Fallback` | app/services/reco/candidate_service.py:205-213 | the same ids; a non-empty tag set is kept as it is and an empty one becomes exactly {fallback} |
| `Candidates.ListPool` | app/services/reco/candidate_service.py:205-216 | one record per pool entry, ids unique, tags copied |
| `Candidates.StagedTags` | app/services/reco/candidate_service.py:159-196 | after tagging, an id is pooled exactly when some stage proposed it, and its tags are exactly those stages; `pop-comm` lands only on the last content id |
| `Candidates.FusedPoolTags` | app/services/reco/candidate_service.py:146-213 | the final pool holds the proposed ids minus the recent ones. Their tags are non-empty and never `fallback` |
| `Candidates.EmptyContentLosesPopularity` | app/services/reco/candidate_service.py:184-196 | with community candidates and no content candidates, only CF ids remain, tagged `cf` alone |
| `Candidates.CandidateService.GetCandidates` | app/services/reco/candidate_service.py:146-216 | the result lists exactly the fused pool for the content id the loop left bound |
| `Candidates.CandidatesExcludeRecent` | app/services/reco/candidate_service.py:199-213 | no returned id is a recent item's, every record has non-empty tags without `fallback`, and ids are unique |
| `Candidates.ColdPoolTags` | app/services/reco/candidate_service.py:241-247 | the cold pool holds exactly the ids of the two lists. Tags are drawn from {pop-comm, pop-global}, and an id in both lists carries both |
| `Candidates.CandidateService.GetCandidatesForColdUser` | app/services/reco/candidate_service.py:224-254 | the result lists exactly the cold pool |
| `Policy.Lower` | app/services/reco/policy.py:182-189 | lowercasing keeps the length and maps each character |
| `Policy.ContentSafetyIgnoresCase` | app/services/reco/policy.py:182-189 | a text is unsafe exactly when an unsafe keyword occurs in it in any ASCII case, and lowercasing first does not change the verdict |
| `Policy.PolicyFilter.ApplySafetyChecks` | app/services/reco/policy.py:154-180 | keeps, in order, exactly the candidates whose item exists and whose title and description (None read as "") are safe |
| `Policy.CountInteractionsSnoc` | app/services/reco/policy.py:119-138 | each further row adds one to a count exactly when it is with the item and, for a typed count, of one of the types |
| `Policy.TypedCountsWithinTotal` | app/services/reco/policy.py:119-138 | counts over disjoint type sets (the positives and the dismissals) together never exceed the total count |
| `Policy.PolicyFilter.FilterLowQualityItems` | app/services/reco/policy.py:105-152 | keeps, in order, exactly the candidates meeting the threshold whose positives outnumber or equal their dismissals when there are any |
| `Policy.PolicyFilter.ApplyCreatorFrequencyCap` | app/services/reco/policy.py:74-103 | the counting loop computes the greedy cap |
| `Policy.PolicyFilter.CapBoundsCreators` | app/services/reco/policy.py:84-100 | after the cap, no creator has more than `creator_frequency_cap` survivors |
| `Policy.PolicyFilter.CapIsSubsequence` | app/services/reco/policy.py:84-100 | the cap keeps order and drops every candidate whose item is missing |
| `Policy.PolicyFilter.CapIsGreedy` | app/services/reco/policy.py:95-100 | the cap decides online: what it keeps from a prefix of the input is a prefix of what it keeps from the whole |
| `Policy.PolicyFilter.ApplyCommunityIsolation` | app/services/reco/policy.py:31-72 | the method computes the quota split, with the input returned unchanged for an empty community |
| `Policy.Partition` | app/services/reco/policy.py:45-56 | splits the existing candidates, in order, into the user's community and the others |
| `Policy.PolicyFilter.CommunityTargetBounds` | app/services/reco/policy.py:58-61 | for a ratio in [0, 1] both targets are non-negative, and the local target never exceeds the total target, which never exceeds the input length |
| `Policy.PolicyFilter.IsolationShape` | app/services/reco/policy.py:58-69 | a prefix of the local items of length at most `int(total*ratio)`, then a prefix of the others filling the rest of the total target; length at most `min(len, max_items + 5)` |
| `Policy.PolicyFilter.IsolationDrawsFromInput` | app/services/reco/policy.py:31-72 | everything returned was an input candidate, with an existing item when a community is given |
| `Policy.PolicyFilter.IsolationReorders` | app/services/reco/policy.py:58-69 | under the default configuration, two items from two communities come out in reverse order |
| `Policy.PolicyFilter.ApplyAllPolicies` | app/services/reco/policy.py:191-222 | empty stays empty; otherwise safety, quality, cap and isolation run in that order |
| `Policy.PolicyFilter.AllPoliciesKeepOnlyAcceptable` | app/services/reco/policy.py:204-222 | every survivor was an input, is safe and meets the quality bar; the first three stages each keep order |
| `Features.AgeDays` | app/services/reco/feature_extractor.py:19-28 | a missing creation time gives age 0; otherwise the age is non-positive exactly when the item was created at or after now |
| `Features.Recency` | app/services/reco/feature_extractor.py:27-28 | recency lies in (0, 1], and is 1 exactly for a non-positive age |
| `Features.RecencyDecreasing` | app/services/reco/feature_extractor.py:27-28 | older items never score higher, and strictly older ones score lower |
| `Features.ContentSim` | app/services/reco/feature_extractor.py:31-33 | 0.8 exactly when `content` is a source, else 0.5 |
| `Features.ToRecord` | app/services/reco/feature_extractor.py:35-44 | a record copies the item's id, title and community and the candidate's sources; its content similarity is the 0.8/0.5 proxy and its recency the decay of the item's age, in (0, 1] and 1 for a missing creation time |
| `Features.BuildFeatures` | app/services/reco/feature_extractor.py:8-46 | the loop builds one record per candidate whose item exists |
| `Features.BuiltIsFilterMap` | app/services/reco/feature_extractor.py:13-44 | the records are, position by position, the records of the candidates with an existing item |
| `Features.BuiltKeepsExistingInOrder` | app/services/reco/feature_extractor.py:13-16 | the surviving candidates are exactly those with an existing item, in input order |
| `Ranker.EnhancedRanker.PopularityScore` | app/services/reco/ranker.py:41-48 | 1 exactly with `pop-comm`; otherwise 0.7 exactly with `pop-global`; 0.3 exactly with neither |
| `Ranker.EnhancedRanker.CommunityMatchScore` | app/services/reco/ranker.py:50-57 | 1 exactly when the user's community is truthy and equals the item's; otherwise 0.6 exactly with `pop-comm`; 0.3 exactly when neither holds |
| `Ranker.EnhancedRanker.Rank` | app/services/reco/ranker.py:59-91 | every input entry, including those the cut drops, gets its weighted score and four-part breakdown written; the result is the stable descending sort cut to `top_k` |
| `Ranker.EnhancedRanker.RankedIsSortedPrefix` | app/services/reco/ranker.py:90-91 | `min(len, top_k)` entries in non-increasing score order, a prefix of a permutation of the input |
| `Ranker.EnhancedRanker.RankedKeepsTheBest` | app/services/reco/ranker.py:90-91 | nothing the cut drops outscores anything it keeps |
| `Ranker.EnhancedRanker.RankedIsStable` | app/services/reco/ranker.py:90 | entries with equal scores keep their input order |
| `Ranker.EnhancedRanker.MoreSourcesNeverLowerTheScore` | app/services/reco/ranker.py:41-79 | with non-negative weights, an extra provenance tag never lowers a score |
| `Ranker.EnhancedRanker.ScoreBounds` | app/services/reco/ranker.py:65-79 | with non-negative weights and sub-scores in [0, 1], a score lies between 0 and the sum of the weights |
| `Explanations.FiredReason` | app/services/reco/explanations.py:3-20 | the first rule that applies, in priority order: content, cf, pop-comm ("your area" when no community), recency above 0.6, pop-global, otherwise the default |
| `Explanations.ReasonTextRoundTrip` | app/services/reco/explanations.py:3-20 | every text reads back to the rule (and community) that produced it, so no two rules share a text |
| `Explanations.ReasonForIdentifiesRule` | app/services/reco/explanations.py:3-20 | `reason_for` determines the rule that fired |

## Left out

- Floating point. Weights, scores and features are `real`, so there is no rounding. `int(total_target * ratio)` is modelled with the ratio as an exact fraction `num/den` (default 3/5), truncated toward zero.
- The clock. `datetime.now` is a parameter, and timestamps are whole seconds on one clock; timezone normalisation is not modelled.
- Floating-point functions. `0.5 ** x` is an abstract function, and so is numpy's cosine (`dot / (norm * norm)`).
- The encoder and FAISS index (app/services/reco/generators/content.py). They are an oracle from query text and `k` to item ids; `build_index` is not part of this model.
- Python set and dict iteration order, which the model leaves open (`Seqs.Enumerate`). The candidate list, which content id the content loop binds last, the order of `list(sources)` and the order of the collaborative item list are therefore stated for every order.
- Database row order. `order_by(desc(timestamp))` is a stable sort over table order, with rows lacking a timestamp placed last; the database's own ordering of NULLs and ties may differ. The popularity join has no ORDER BY at all: the model takes its rows in interaction-table order, and that order decides the first-seen order, hence the tie order, of the ranked lists.
- Unicode. Lowercasing covers ASCII letters only. There is no Unicode case mapping.
- `recent_n` is a natural number; a negative SQL `LIMIT` is not modelled.
- Logging and the `try/except` blocks. A swallowed failure is an empty or `None` stage result: an unbuilt index gives no content candidates, and the unbound `item_id` skips the popularity stage.
- Module singletons, and publishing a rebuilt model or refreshed lists across concurrent requests.
- Missing dict keys in the ranker and explanations: an absent feature is `None` and read as 0.0, and an absent community is `None`. A present `None` community, which Python formats as "None" in the trending text, is not distinguished from a community string.
- `build_features` takes a query text it never uses; the model omits it.
- The dead `Ranker` class kept in a string literal at app/services/reco/ranker.py:1-23.
- The API routers, cache service, database plumbing, data scripts and tests, which are outside the recommendation pipeline.
- Collaborative.InteractionWeight and Popularity.InteractionWeight: the contracts state only the dismissal and unknown-type weights. The body holds the whole table (view 1.0, click 1.5, like 2.0, book and attend 3.0).
