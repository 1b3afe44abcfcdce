# Kora: verified models of its write, limit, cache, ranking and chase logic

Kora is a memory engine. Clients send conversations; it extracts statements, folds the redundant
ones, stores the rest in a graph shared by many concurrent writers, links related memories, and
answers queries by fusing three retrievers. This project models the parts of it whose promises span
whole runs, many callers or every input, and proves those promises.

- `Content`, `Dedup`, `MemoryStore`, `WriteProtocol`, `WriteRuns`, `WriteOutcomes`: tokens and fingerprints, lexical
  subsumption, the shared rows, and any number of Extract calls interleaved statement by statement. A fact once reported
  is said by a row of the same project and type in every later state. It rests on the compare-and-set admitting only rows
  whose tokens are the ones read, so that rewriting only ever makes a row say more. And a call writes a row of its own
  only for what it found nowhere, or could not fold into what it found.
- `EntityLinks`, `EntityRuns`, `EntityRetries`: advisory lock, MERGE whose match and create are two steps, commit, retry.
  One node per entity, and when a link is given up.
- `RateLimiter`: lazily refilled token buckets admit a request exactly when the configured limit allows one more in
  every window since the bucket was created, in exact arithmetic.
- `HealthCache`, `HealthRuns`, `HealthOutcomes`: a TTL cache with one shared recompute and stale-on-error, and where every
  caller's outcome comes from.
- `Fixture`, `FixtureLayout`: the embedding file; writing and reading undo each other, for any order of records, and where
  every byte is.
- `BatchEmbedding`: positions of vectors in batch responses, by pigeonhole.
- `AutoLink`: which memories a new one is linked to; a one-sided Chebyshev (Cantelli) bound on how many stand out.
- `Ranking`, `Fusion`, `FusionLaws`, `FusionSources`, `FusionSafety`: scoring, merging three pools through maps, what each
  retriever contributes, and what the ranked page does not depend on: map order, pool order, the scale of the signals;
  and which weights keep a best keyword hit on top.
- `EvalMetrics`, `EvalLaws`, `EvalShared`, `EvalAggregate`, `EvalReadings`: nDCG, reciprocal rank, hit, recall and full
  recovery, their means, and what they say of the evidence itself.
- `ChaserPolicy`, `ChaserFacts`, `ChaserInvoice`, `ChaserRun`, `ChaserListing`, `ChaserLoop`, `ChaserVisits`, `ChaserStanding`,
  `ChaserDays`, `ChaserLog`, `ChaserAgent`, `ChaserReport`, `ChaserRecorded`, `ChaserEarly`: the receivables agent of the
  examples directory. A client is any state with any answers, and may add invoices; the daily loop, as functions and as
  the methods that compute them, visits everyone listed once a day by the decision table, and keeps one invariant per
  invoice, from which the contact limits, the ladder and the money accounting follow for whole runs.
- `Ordering`, `Uuid`: sorting by a strict order, and why byte order of identifiers is their text order. `Wrappers`: optional values.

Conventions. Concurrent code is a state machine over the statements other callers can observe; a
repository call is one step that may fail before or after taking effect. Loops over Go maps pick an
arbitrary key each time. Object fields are class fields, and each method is proved against a function
or a relation about which the promises are then proved. Real numbers stand for float64. The lower-casing
of a character, the digest, the set of polarity markers, `exp`, `log1p`, `pow`, `sqrt` and 1/log2 are parameters, with the few laws
used of them stated where they are used.

Where the code does not do what its own text says, the code is modelled and the exact condition is proved:

- A best lexical match "can never be outranked by a memory with no lexical evidence" (internal/ranking/bm25.go:204-207):
  true over all pools exactly when the keyword weight is at least the semantic weight times (complete match / best
  hit)^coverage, and where entities may differ exactly when it is at least the semantic and entity weights together
  times the same; with the shipped weights the first needs a factor of at most 9/8 and the second never holds.
- `graphStats` recomputes "at most once per statsTTL" (internal/service/health.go:159-160): true of every run in which
  no count fails; two recomputes closer than that mean the first one failed, and after a failure, in whatever state,
  the next caller starts another at once.
- The counts "may be up to statsTTL old" (internal/service/health.go:120-122): a caller is served older ones exactly when
  the call it shares failed, or had its answer before the caller looked; the second needs no failure at all.
- `LinkEntities` returns "how many edges were written" (internal/graph/entity.go:73-75): with the store to itself,
  exactly when it counts nothing, or the memory is in its project and mentioned none of the entities counted. A link is
  counted also when the MATCH found no memory, and when the edge was there before; neither writes an edge. And a commit
  whose answer was lost writes an edge that is not counted.
- "At most 3 contacts per invoice per 14 days" (examples/receivables-chaser/chaser/policy.py:17-18): a contact note with
  negative days overdue is not matched by the pattern that reads it back. Over all recorded runs the rule holds exactly
  for invoices due by the start; over every client it holds for invoices due when first listed.
- `AggregateResults` "averages results" (internal/evalset/metrics.go:90-91): at a depth listed m times it reports
  m * total / n^m, which is the mean exactly when that is zero, or m = 1, or m = n = 2. The eval command lists its own
  depth besides 1, 3, 5 and 10 (cmd/eval/main.go:552), so it meets m = 2 when asked for one of these.
- nDCG is measured against an "ideal list" of one turn per rank (internal/evalset/metrics.go:146-148): some ranking beats
  it, and scores above one, exactly when a document is evidence for two turns of the question.

## Model

| member | source | states |
|---|---|---|
| Content.Lexicon.ContentTokens | pkg/model/content.go:30-41 | tokens are non-empty, whitespace-free, edge-trimmed words of the lower-cased text |
| Content.Lexicon.TokensSplit | pkg/model/content.go:22-41 | the tokens of two texts with white space between them are those of the one and then those of the other |
| Content.Lexicon.OneToken | pkg/model/content.go:22-41 | a text that lower-cases to one word is that word without its edge punctuation, or no token |
| Content.TrimCutsPunctuation | pkg/model/content.go:33-37 | what is trimmed is punctuation at the two ends, and all of it |
| Content.Lexicon.NormalFormIsFaithful | pkg/model/content.go:43-59 | joining tokens with one space is injective: equal normal forms mean equal token lists |
| Content.Lexicon.HashAgreesWithTokens | pkg/model/content.go:43-78 | equal fingerprints if and only if equal tokens, so the duplicate check and the token comparison never disagree; a fingerprint is well-formed exactly when there are tokens |
| Content.Lexicon.NormalFormIsStable | pkg/model/content.go:22-59 | tokenising a normal form gives its tokens back, so re-ingesting one is a restatement |
| Dedup.ScanPolarity | internal/extraction/dedup.go:209-247 | finds a marker if and only if some token is one |
| Dedup.IsOrderedSubsequence | internal/extraction/dedup.go:249-266 | the one greedy pass answers exactly whether a strictly increasing embedding exists |
| Dedup.GreedyFindsEveryEmbedding | internal/extraction/dedup.go:249-266 | greedy matching is sound and complete for embeddings |
| Dedup.InOrderTransitive | internal/extraction/dedup.go:249-266 | the ordered-subsequence relation is transitive |
| Dedup.InOrderAntisymmetric | internal/extraction/dedup.go:249-266 | two token lists that contain each other in order are equal |
| Dedup.VerdictMeaning | internal/extraction/dedup.go:91-132 | each verdict of Subsumes, both ways, above the three-token threshold: who says everything the other says, with equal polarity; Equivalent exactly on equal tokens |
| Dedup.VerdictIff | internal/extraction/dedup.go:91-132 | all four verdicts in terms of the tokens: three at least on both sides, both negated or neither, equal, or one an ordered subsequence of the other |
| Dedup.EquivalentIffSameHash | internal/extraction/dedup.go:91-132 | Equivalent exactly when the fingerprints agree and there are at least three tokens |
| Dedup.UnionTags | internal/extraction/dedup.go:268-285 | keeps each non-blank tag of either side once, case-insensitively, and no other |
| Dedup.KeepFirstIs | internal/extraction/dedup.go:268-285 | the tags kept are those at the first place of each key, in order and spelled as there |
| Dedup.FoldRedundant | internal/extraction/dedup.go:134-179 | the nested loops over kept rows compute Fold |
| Dedup.FoldLosesNothing | internal/extraction/dedup.go:134-179 | every input is covered by a survivor of its type, polarity and tags; each kept wording is that of an input folded there; survivors keep the order of their founders |
| Dedup.FoldJoinsTheFirst | internal/extraction/dedup.go:134-179 | the next memory joins the first kept one of its type it is related to, which takes its wording unless it already says as much, and the tags of both; only if there is none is it kept as it is |
| Dedup.UnconnectedStays | internal/extraction/dedup.go:134-179 | memories of which no two are related are all kept as they are |
| MemoryStore.Store.CreateMemory | internal/graph/age.go:565-585 | adds one row with the fingerprint of its content |
| MemoryStore.Store.UpdateMemoryContent | internal/graph/age.go:856-921 | replaces text and fingerprint only while the stored fingerprint is the expected one; refuses a malformed fingerprint; otherwise changes nothing |
| MemoryStore.Store.FindByContentHash | internal/graph/age.go:587-659 | every answer is a matching row of the project filed under what it says now, every matching row's key is answered, and a malformed fingerprint is refused |
| WriteProtocol.SplitByLookup | internal/ingest/ingest.go:886-902 | slots with a row of the same fingerprint and type are answered, the others are pending in order |
| WriteProtocol.ConsolidateAgainst | internal/ingest/ingest.go:390-425 | picks the first neighbour of the type, other than the memory itself, that is not unrelated, with its verdict |
| WriteProtocol.SwapIffTokensUnchanged | internal/graph/age.go:856-921 | the compare-and-set succeeds exactly while the row still has the tokens the verdict was taken on |
| WriteProtocol.SwapOnlyGrows | internal/graph/age.go:856-921 | whatever happened since the read, a successful upgrade leaves every row saying at least what it said |
| WriteProtocol.StepEvolves | internal/ingest/ingest.go:281-358 | no statement of any call removes a row, moves it, or makes it say less |
| WriteProtocol.StepKeepsInv | internal/ingest/ingest.go:941-1026 | the protocol invariant survives every statement of every caller, confirmed or failed |
| WriteRuns.NoReportedFactVanishes | internal/ingest/ingest.go:281-425 | in every interleaving, a reported row says, in every later state, what was reported and what the conversation stated, in its project and type |
| WriteRuns.EverySlotIsAccountedFor | internal/ingest/ingest.go:886-1026 | a finished call has answered every slot except exactly those whose row could not be created |
| WriteRuns.EveryExtractedFactSurvives | internal/ingest/ingest.go:817-1026 | each extracted fact, folded away or not, is said by some row of its project and type from the end of its call on, or its one creation failed |
| WriteRuns.EveryStepIsProgress | internal/ingest/ingest.go:941-1026 | a call never waits or retries: every statement brings it nearer its end |
| WriteOutcomes.LookUpAnswersTheStored | internal/ingest/ingest.go:886-902 | a slot is answered with the row found under its fingerprint and type, and pending, in conversation order, exactly without one |
| WriteOutcomes.SearchTakesTheNearest | internal/ingest/ingest.go:413-425 | a row will be created exactly when every neighbour is the memory itself, of another type or unrelated; else the nearest other one is upgraded if the memory says strictly more, and answers otherwise |
| WriteOutcomes.CreatesOnlyTheNew | internal/ingest/ingest.go:941-972 | over every run, a row is created only for a memory whose fingerprint the lookup did not find, and whose search passed every neighbour over or whose upgrade was not confirmed or met a rewritten row |
| WriteOutcomes.RowsAreOnlyTheNew | internal/ingest/ingest.go:941-971 | so every row a call ever added to the store was added by such a creation |
| WriteOutcomes.AnswersHaveSources | internal/ingest/ingest.go:299-358 | every answer is the row under the memory's fingerprint, the nearest row saying as much, with the text read, the nearest row saying less once it took the memory's wording, or the row created |
| WriteOutcomes.RestatementIsNeverWritten | internal/ingest/ingest.go:245-279 | a memory that an up-to-date row of its project and type states in the same tokens is answered with such a row and never written, unless the lookup found nothing at all, as when it fails |
| EntityLinks.CollectTargets | internal/graph/entity.go:114-152 | each non-blank normalised name once, in order of first mention |
| EntityLinks.TargetsInOrder | internal/graph/entity.go:114-141 | the names linked are those at the first mention of each, in order of first mention |
| EntityLinks.StepKeepsInv | internal/graph/entity.go:154-243 | lock, match, commit, failure and retry keep one node per entity and mentions within a project |
| EntityRuns.EntityIsOneNode | internal/graph/entity.go:171-243 | whatever interleaves, fails, is retried or collides on a lock, an entity has one node and no mention crosses a project |
| EntityRuns.LinkIsReachable | internal/graph/entity.go:171-243 | a committed link stays reachable through the one node of its entity |
| EntityRuns.MentionIsReachable | internal/graph/entity.go:171-243 | every mention ever published, acknowledged or not, stays for good, on the one node of its entity |
| EntityRuns.CountedLinkWritesIff | internal/graph/entity.go:73-152 | a link is counted whatever happened; it writes an edge exactly when its memory was in its project at the match and did not mention the entity when the lock was taken; with other links interleaved |
| EntityRuns.LinkedCountIsEdgesWrittenIff | internal/graph/entity.go:73-168 | LinkEntities alone at the store, retries and failures included, writes one edge per entity it committed and not yet mentioned, and none for a memory not in the project; unless the answer to its last commit was lost, the count it returns is the edges it wrote exactly when it is zero, or the memory is there and mentioned none of the entities counted |
| EntityRuns.LostAnswerIsNotCounted | internal/graph/entity.go:114-168 | when the answer to the last commit was lost, and the memory is there, the count is one short exactly when none of the entities committed was mentioned |
| EntityRuns.MissingMemoryIsCounted | internal/graph/entity.go:114-152 | a run in which a link of a missing memory is counted and the graph stays as it was |
| EntityRuns.RelinkIsCounted | internal/graph/entity.go:114-152 | a run in which a link made before is counted again and the graph stays as it was |
| EntityRuns.NeverStuck | internal/graph/entity.go:171-243 | while a link is unfinished some transaction can go on: one lock each closes no cycle |
| EntityRetries.LinkOutcomes | internal/graph/entity.go:144-168 | over every run, a link succeeds exactly when a commit is acknowledged, and is given up exactly when an answer to a commit is lost, an error is not worth retrying, or a third attempt fails |
| RateLimiter.AdmissionIsExact | internal/auth/apikey.go:411-463 | the lazily refilled counter admits exactly when every window since creation would still hold one more request |
| RateLimiter.AdmittedIffWithinLimit | internal/auth/apikey.go:411-463 | under a limit of n a minute a request is admitted exactly when, counted from every instant since the bucket was created, with it no more than n and n per minute passed are admitted |
| RateLimiter.HistoriesOfALimit | internal/auth/apikey.go:411-463 | the histories of a bucket under a limit are exactly the sequences of requests in time order each of which was admitted just when the limit allowed it |
| RateLimiter.LimitIsKept | internal/auth/apikey.go:411-463 | any stretch of time sees at most n admitted, and n for each minute it lasts |
| RateLimiter.EveryWindowIsBounded | internal/auth/apikey.go:411-463 | over a whole run no window holds more than the burst plus what its length refills |
| RateLimiter.NeverOverdrawn | internal/auth/apikey.go:444-463 | tokens stay between zero and the burst |
| RateLimiter.SilentClientIsAdmitted | internal/auth/apikey.go:397-409 | a client silent for the advertised seconds is admitted next |
| RateLimiter.AdviceIsLeast | internal/auth/apikey.go:397-409 | the advice is the fewest whole seconds, at least one, in which the limit comes to one request |
| RateLimiter.TokenBucket.constructor | internal/auth/apikey.go:430-440 | a new bucket holds and is capped at the limit, refills a sixtieth of it a second, and has an empty history |
| RateLimiter.TokenBucket.Allow | internal/auth/apikey.go:442-463 | admits exactly when the limit allows one more request in every window since the bucket was created, and records the request |
| RateLimiter.Limiter.EvictIdlest | internal/auth/apikey.go:379-395 | drops exactly one bucket, one idle longest, in any map order |
| RateLimiter.Limiter.AllowRequest | internal/auth/apikey.go:358-377 | requires a non-empty key id, as the empty one is the eviction loop's mark for none found yet; admits exactly when the limit allows the key one more in every window since its bucket was created; only a full map loses another key's bucket, the idlest; the map never exceeds 4096 |
| HealthCache.StepKeepsInv | internal/service/health.go:159-220 | the cache invariant survives every step of clock, callers and recompute |
| HealthRuns.PairsAreNeverMixed | internal/service/health.go:161-220 | every node and edge count answered together came from one recompute |
| HealthRuns.StaleIffFailedOrSettled | internal/service/health.go:118-122 | a caller is served counts that were past the TTL when it looked exactly when its shared call failed, or had its answer before the caller looked |
| HealthRuns.RecomputesAreSpaced | internal/service/health.go:161-207 | in every interleaving no recompute starts within the TTL of an earlier publication |
| HealthRuns.CloseStartsMeanFailure | internal/service/health.go:34-39 | when two recomputes start within one TTL, a count of the first one failed before the second |
| HealthRuns.SuccessesAreSpaced | internal/service/health.go:159-207 | in every run without a failed count any two recomputes start at least a TTL apart |
| HealthRuns.LateJoinerIsServedStale | internal/service/health.go:118-122 | a failure-free run in which a caller that joins a finished call is served a value past its TTL |
| HealthRuns.FailureIsRetriedAtOnce | internal/service/health.go:159-220 | from every reachable state whose shared call has failed, an idle caller starts another recompute at the same instant |
| HealthRuns.SuccessIsServed | internal/service/health.go:159-220 | had the call succeeded, that caller would have been served its answer |
| HealthRuns.TwoStartsAtOneInstant | internal/service/health.go:159-220 | a run with two recomputes at one instant, the first having failed |
| HealthOutcomes.EveryWaiterIsServed | internal/service/health.go:170-220 | everyone waiting when the shared call ends is given its answer, else what they saw cached, else an error, and that is final |
| HealthOutcomes.OutcomesHaveSources | internal/service/health.go:161-220 | over every run, a caller's state comes from its look at the cache, or from the end of the call it waited on |
| HealthOutcomes.ErrorIffNothingToServe | internal/service/health.go:210-217 | a caller gets an error exactly when the call it waited on failed and its look had found nothing cached |
| HealthOutcomes.StaleOnErrorIffSeen | internal/service/health.go:210-217 | and the counts it saw cached exactly when that call failed and the look had found them |
| HealthOutcomes.NoErrorOncePublished | internal/service/health.go:210-217 | no caller that looks after counts were published ever gets an error |
| HealthOutcomes.AnswersAreCounts | internal/service/health.go:195-208 | the two numbers a caller is given are those the database returned to one recompute, published at the time they carry |
| Uuid.TextOrderIsByteOrder | internal/retrieval/retrieval.go:874-880 | byte order of two identifiers is the order of their canonical texts (section 4 of RFC 9562) |
| Uuid.ByteOrderIsTotal | internal/ranking/scorer.go:149-152 | the tie-break is a strict total order |
| Uuid.TextShape | internal/retrieval/retrieval.go:874-880 | a canonical text is thirty-six characters, dashes at 8, 13, 18 and 23 and lowercase hex digits elsewhere |
| Ordering.AscendingUnique | internal/ranking/scorer.go:126-128 | a strictly ordered list is determined by its members |
| Ordering.SortCanonical | internal/ranking/scorer.go:126-128 | sorting two arrangements of distinct elements gives one list |
| Ordering.FirstDifferenceDecides | internal/retrieval/retrieval.go:874-880 | two byte strings compare as at their first difference, and without one the shorter is first |
| Fixture.FileRoundTrip | internal/evalset/fixture.go:68-166 | reading a written fixture gives it back, for any order of its records |
| Fixture.TruncationIsRefused | internal/evalset/fixture.go:68-105 | every proper prefix of a written fixture is refused |
| FixtureLayout.FileLayout | internal/evalset/fixture.go:17-26 | the file byte by byte: "KEMB", dimension and count least byte first, and every record at its place, key and floats |
| FixtureLayout.CanonicalByBytes | internal/evalset/fixture.go:107-121 | keys are written in byte order: of two, the lesser at their first difference comes first |
| FixtureLayout.ParsesIff | internal/evalset/fixture.go:68-105 | of all byte strings the reader takes exactly those with the magic, a dimension from 1 to 16000 and room for the records counted |
| Fixture.CanonicalIsUnique | internal/evalset/fixture.go:107-121 | equal contents have one sorted key list, hence equal bytes |
| Fixture.Embeddings.Add | internal/evalset/fixture.go:47-59 | stores under the key of the text exactly the vectors of the right length with finite components, else changes nothing |
| Fixture.Embeddings.Write | internal/evalset/fixture.go:107-166 | succeeds exactly within the format's limits, with the canonical bytes, which read back as the fixture |
| Fixture.ReadEmbeddings | internal/evalset/fixture.go:68-105 | the record loop computes Parse, refusing bad magic, dimension or length |
| BatchEmbedding.Pigeonhole | internal/embedding/openai.go:56-83 | n values below n are distinct exactly when every value below n occurs |
| BatchEmbedding.DecodeOpenAIBatch | internal/embedding/openai.go:56-83 | accepts exactly responses whose indices are a permutation with a vector each, and puts every vector at its index |
| BatchEmbedding.EmbedChunk | internal/embedding/batch.go:107-154 | accepts exactly a response with one certain vector per text |
| BatchEmbedding.EmbedBatch | internal/embedding/batch.go:84-105 | succeeds exactly when every chunk does, and then output i is the vector returned for text i |
| BatchEmbedding.EmbedHonestly | internal/embedding/batch.go:84-154 | with a provider that files vectors under positions every text gets its own vector |
| AutoLink.HasOverlappingTags | internal/ingest/ingest.go:595-608 | true exactly when two tags agree after lower-casing |
| AutoLink.ComputeFloor | internal/ingest/ingest.go:514-531 | the two passes compute mean, or mean plus one standard deviation from three scores up |
| AutoLink.AtMostHalfClear | internal/ingest/ingest.go:495-531 | with three or more scores that are not all alike, at most half reach mean plus one standard deviation |
| AutoLink.HalfStandOutIffNotAlike | internal/ingest/ingest.go:495-531 | for any number of scores, at most half clear the floor exactly when they are not all alike; when they are alike all do |
| AutoLink.FewScoresTakeTheMean | internal/ingest/ingest.go:514-531 | one score is its own bar, and two have the middle between them |
| AutoLink.ScoresAre | internal/ingest/ingest.go:506-513 | the bar is taken over the scores of the neighbours that may be linked, each once and in order |
| AutoLink.AutoLinkByTags | internal/ingest/ingest.go:457-593 | every candidate carries the largest weight it earned by tag or score; at most five edges, fewer only if there are no more candidates, listed by falling weight and then rising text, and no candidate left out is heavier, or as heavy with a smaller text; a failed write counts none |
| AutoLink.LinksAreDetermined | internal/ingest/ingest.go:546-567 | the chosen links do not depend on map order |
| AutoLink.LinksAreTheTop | internal/ingest/ingest.go:546-580 | at most five links, never to itself or a connected memory, to distinct memories; each weighs a half for a shared tag or the score of a neighbour at the bar, whichever is most; listed by falling weight, nothing heavier left out |
| Ranking.ScoreIsUnit | internal/ranking/scorer.go:102-120 | the composite score lies in [0, 1] |
| Ranking.RelevanceGapDecides | internal/ranking/scorer.go:37-58 | a relevance gap worth 0.205 of score outweighs recency, frequency and type together |
| Ranking.RelevanceGapPrecedes | internal/ranking/scorer.go:37-58 | so on every page: the more relevant is on it if the other is, and before it |
| Ranking.TypeNeverReorders | internal/ranking/scorer.go:92-100 | on every page, at equal age and use, a relevance gap over 0.005 / 0.75 decides whatever the types |
| Ranking.AheadPrecedes | internal/ranking/scorer.go:96-160 | a memory at least as relevant, recent, used and high in type as another, and better in one, is before it on every page the other is on |
| Ranking.TiesByText | internal/ranking/scorer.go:145-153 | of two memories with equal scores the one whose identifier's text is smaller is before the other on every page |
| Ranking.RecencyHalves | internal/ranking/scorer.go:162-180 | every ninety days of age cost one constant factor of the recency signal |
| Ranking.ReplacementPrecedes | internal/ranking/scorer.go:60-72 | a superseded memory is on no page without its replacement before it, unless its own evidence is better |
| Ranking.RankResultsAt | internal/ranking/scorer.go:140-160 | scores and sorts the slice in place, and returns its leading page |
| Ranking.RankingForgetsOrder | internal/ranking/scorer.go:122-160 | the page depends on which results came in, not on their order |
| Ranking.PageHoldsTheBest | internal/ranking/scorer.go:140-160 | the page is strictly best-first and nothing left out beats anything on it |
| Fusion.ScanKeyword | internal/retrieval/retrieval.go:757-764 | rank of a memory's last keyword hit, and the best raw score |
| Fusion.ScanVector | internal/retrieval/retrieval.go:773-794 | ranks, last cosines, and the range of the pool |
| Fusion.Gather | internal/retrieval/retrieval.go:781-825 | each candidate once: the keyword hit, else the first vector hit without relevance, else the entity's memory; and who was found by more than vector search |
| Fusion.Resolve | internal/retrieval/retrieval.go:844-871 | the mode's relevance from the maps the scans built |
| Fusion.MergeResults | internal/retrieval/retrieval.go:740-882 | exactly the candidates that pass the gate, each once with its fused relevance, by identifier, for every map order |
| Fusion.MergedIsUnique | internal/retrieval/retrieval.go:736-739 | the inputs determine the merged list |
| FusionLaws.MergeForgetsPoolOrder | internal/retrieval/retrieval.go:740-882 | for distinct identifiers, linear and min-max merging give one list for every order of the pools |
| FusionLaws.PageIsDetermined | internal/ranking/scorer.go:126-160 | merged and ranked, the page is the same for every map and pool order, and page k begins every longer page |
| FusionLaws.MinMaxForgetsScale | internal/retrieval/retrieval.go:757-871 | positive affine change of all cosines and positive scaling of all keyword scores leave the ranked page as it was, when the gate admits the same memories |
| FusionLaws.DominanceIsRespected | internal/retrieval/retrieval.go:844-871 | evidence at least as good on every signal, missing counting least, never earns less relevance |
| FusionSources.RelevanceIsWeightedMean | internal/retrieval/retrieval.go:844-871 | in each of the three modes relevance is the mean of a keyword, a semantic and an entity share, each under its own weight |
| FusionSources.EarlierEarnsMore | internal/retrieval/retrieval.go:844-871 | under reciprocal rank a memory no later in either list and with as much overlap never earns less, and earns more exactly when it is earlier or overlaps more where the weight is positive |
| FusionSources.OnlyFaintCosinesAreDropped | internal/retrieval/retrieval.go:827-840 | the merge drops exactly the memories found by vector search alone at a cosine under 0.15 |
| FusionSources.KeywordRecord | internal/retrieval/retrieval.go:796-802 | a keyword hit is listed with its own record, the last one where the pool repeats it, and that is its rank |
| FusionSources.VectorRecord | internal/retrieval/retrieval.go:791-813 | a vector hit no keyword found is listed with its first record and no keyword relevance; its cosine and rank are those of the last |
| FusionSources.EntityRecord | internal/retrieval/retrieval.go:815-825 | a memory found by its entities alone is listed as it is, with no signal of its own |
| FusionSources.MergedByText | internal/retrieval/retrieval.go:874-880 | the merged list is in the order of the identifiers' texts |
| FusionSafety.NeverOutrankedIff | internal/ranking/bm25.go:204-212 | over all pools under min-max: a best keyword hit is never outranked by a memory without one exactly when the keyword weight is at least the semantic weight (and the entity weight, unless entities are even) times (complete match / best hit) to the power of the coverage, counted as at least one |
| FusionSafety.HitIsSafe | internal/retrieval/retrieval.go:844-871 | in any pools, a hit whose weighted grade carries the semantic weight and the entity difference is not outranked by a memory no keyword found |
| FusionSafety.BestHitGrade | internal/retrieval/retrieval.go:765-772 | the grade of a best hit is the inverse of (complete match / best hit) to the power of the coverage, at most one |
| FusionSafety.ShippedLexicalSafety | internal/ranking/bm25.go:213-217 | with the shipped weights: safe from vectors while that shortfall is at most 9/8, and never safe from a memory that also names the entities |
| FusionSafety.BestLexicalMatchCanBeOutranked | internal/ranking/bm25.go:204-212 | whenever the weights fall short, pools in which the only keyword hit gets less relevance than a memory sharing no term |
| EvalMetrics.Score | internal/evalset/metrics.go:39-72 | the relevant turns are the present ones of the evidence, each once; ranks list in order the first covering rank of every retrieved one |
| EvalLaws.RanksAreStrictIff | internal/evalset/metrics.go:33-38 | ranks strictly increase exactly when no document is the first to cover two turns |
| EvalLaws.RanksFitPresent | internal/evalset/metrics.go:16-23 | no more ranks than present turns, each at least 1 |
| EvalMetrics.ComputeNdcg | internal/evalset/metrics.go:146-164 | the two sums compute discounted over ideal gain |
| EvalLaws.NdcgIsShareOfIdeal | internal/evalset/metrics.go:146-164 | nDCG lies in [0, 1] and is 1 exactly when the ranks start 1, 2, up to min(relevant, k) |
| EvalLaws.ScoredNdcgIsBounded | internal/evalset/metrics.go:39-72 | so for every scored question whose documents are each evidence for one turn |
| EvalShared.NdcgIsBoundedIff | internal/evalset/metrics.go:39-72 | for a question whose present turns all have documents: nDCG is at most one for every ranking exactly when no document is evidence for two of its turns |
| EvalShared.SharingBeatsIdeal | internal/evalset/metrics.go:146-164 | given a document for two turns, a ranking without repeats, and the ranks Score gives it, with nDCG above one |
| EvalAggregate.AggregateResults | internal/evalset/metrics.go:93-137 | counts and sums over the scorable questions; a depth listed m times is added and divided m times; no scorable question gives zeros |
| EvalAggregate.DistinctDepthsReportMeans | internal/evalset/metrics.go:93-137 | distinct depths report plain means |
| EvalAggregate.MeansAreOrdered | internal/evalset/metrics.go:80-84 | 0 <= Full <= Recall <= Hit <= 1 at each depth |
| EvalAggregate.MeansGrowWithDepth | internal/evalset/metrics.go:80-84 | each mean grows with the depth |
| EvalAggregate.MeanReciprocalRankIsAtMostHit | internal/evalset/metrics.go:139-144 | the mean reciprocal rank lies between zero and the hit rate at its depth |
| EvalAggregate.MeanNdcgIsBounded | internal/evalset/metrics.go:93-137 | mean nDCG lies in [0, 1] for strict ranks |
| EvalAggregate.ReportedIsMeanIff | internal/evalset/metrics.go:107-133 | what is reported at a listed depth is the mean exactly when the metric is zero throughout, or the depth is listed once, or twice for two scorable questions |
| EvalAggregate.CommandReportsMeanIff | cmd/eval/main.go:552-555 | for the depths 1, 3, 5, 10 and topK of the eval command: a mean at each, unless topK is one of the four, some question scores there, and the scorable questions are not two |
| EvalAggregate.RepeatedDepthIsNotAMean | cmd/eval/main.go:552-555 | one question found first, searched to depth five: the command reports a hit rate of two |
| EvalReadings.GaugesAreCoverage | internal/evalset/metrics.go:39-72 | for a scored question at depth k: a hit when the first k documents cover a present turn, full when they cover all, recall the share they cover |
| EvalReadings.MrrIsReciprocal | internal/evalset/metrics.go:139-144 | the reciprocal rank is 1/r for the place r of the first document that covers a present turn, and zero beyond the depth |
| EvalReadings.DcgIsGainByPlace | internal/evalset/metrics.go:146-164 | the gain accumulated is that of every present turn at the place that first covers it |
| EvalReadings.SumsSplit | internal/evalset/metrics.go:93-137 | the sums over a list of questions and another after it add up, so each question counts once |
| ChaserPolicy.ParseFacts | examples/receivables-chaser/chaser/facts.py:98-149 | folds the notes into facts one by one |
| ChaserFacts.DecisionFromNotes | examples/receivables-chaser/chaser/policy.py:54-111 | from the notes and the days overdue alone: exactly when an invoice is contacted, on which rung, and exactly when it goes to a human |
| ChaserFacts.SkipsFromNotes | examples/receivables-chaser/chaser/policy.py:54-111 | exactly when each reason for doing nothing applies |
| ChaserEarly.ContactLimitHoldsIff | examples/receivables-chaser/chaser/policy.py:17-18 | over all recorded runs, whatever else is listed, however customers behave and however long: at most three contacts in any 14 days about an open invoice exactly when it is due by the start of the run |
| ChaserEarly.MissedPromiseIsChasedFourTimes | examples/receivables-chaser/chaser/notes.py:70-73 | a recorded run in which a customer promises and misses: an invoice not yet due is contacted on the first, seventh, eighth and ninth day |
| ChaserEarly.EarlyInvoiceIsContactedDaily | examples/receivables-chaser/chaser/notes.py:70-73 | a run against a client that answers with neither date nor dispute and pays nothing: such an invoice is contacted every day from the start to two days after it is due |
| ChaserInvoice.SparseGrows | examples/receivables-chaser/chaser/policy.py:107-108 | a contact allowed by the window count keeps every 14-day window within three |
| ChaserInvoice.ContactKeepsOk | examples/receivables-chaser/chaser/agent.py:111-131 | a decided contact and its reply, whatever it is, keep the invoice's invariant |
| ChaserInvoice.EscalationKeepsOk | examples/receivables-chaser/chaser/agent.py:133-136 | an escalation is the invoice's first and follows every contact |
| ChaserInvoice.PromisesArePast | examples/receivables-chaser/chaser/policy.py:79-87 | when the latest promise has passed, all have |
| ChaserInvoice.AtMostTwelveContacts | examples/receivables-chaser/chaser/policy.py:40-48 | three per window over the 46 days the ladder spans: at most twelve |
| ChaserRun.VisitKeepsTicking | examples/receivables-chaser/chaser/agent.py:101-148 | one invoice's turn keeps every invoice and every customer in order, the recalled facts having gone stale |
| ChaserRun.SweepKeepsAllOk | examples/receivables-chaser/chaser/agent.py:150-159 | recording a payment keeps them in order |
| ChaserAgent.GroupByCustomer | examples/receivables-chaser/chaser/agent.py:97-99 | files the listing by customer, as GroupOf |
| ChaserListing.GroupIs | examples/receivables-chaser/chaser/agent.py:97-99 | a customer's group is exactly its invoices on the listing |
| ChaserListing.GroupAscends | examples/receivables-chaser/chaser/agent.py:91-99 | in identifier order |
| ChaserAgent.ChaseInvoice | examples/receivables-chaser/chaser/agent.py:111-148 | the statements for one invoice are one visit on the rung Decide gives, skipped or not: one audit entry, the client asked only on a contact, the notes of the decision and of the reply with the customer, and nothing noted with others |
| ChaserVisits.TurnIsAVisit | examples/receivables-chaser/chaser/agent.py:111-148 | the same of Turn, whatever is decided and whether or not the customer was contacted today |
| ChaserVisits.EveryoneListedIsVisited | examples/receivables-chaser/chaser/agent.py:87-148 | a day's chase is a list of visits, exactly one to each invoice listed, by customer and identifier, each by the table on the notes the day began with and on who was contacted before; the notes and entries it leaves are theirs, and the client is passed from one to the next |
| ChaserStanding.TurnTicks | examples/receivables-chaser/chaser/agent.py:111-148 | a turn keeps every invoice and every customer in order |
| ChaserAgent.ChaseCustomer | examples/receivables-chaser/chaser/agent.py:101-148 | one recall and the loop over the customer's invoices compute Call |
| ChaserStanding.CallTicks | examples/receivables-chaser/chaser/agent.py:101-148 | a customer gone through whole leaves everything in order and everyone still to come uncontacted today |
| ChaserAgent.ChaseAll | examples/receivables-chaser/chaser/agent.py:97-148 | the loop over customers computes Chased |
| ChaserStanding.ChaseKeepsAllOk | examples/receivables-chaser/chaser/agent.py:97-148 | a day's chase keeps every invoice on the listing in order |
| ChaserAgent.SweepPayments | examples/receivables-chaser/chaser/agent.py:150-159 | the end-of-day loop computes Swept |
| ChaserLog.SweepNotesThePaid | examples/receivables-chaser/chaser/agent.py:150-159 | the sweep notes each invoice newly paid with its customer and the day's date, and nothing else |
| ChaserDays.SweptKeeps | examples/receivables-chaser/chaser/agent.py:150-159 | a payment is noted for exactly the invoices newly paid, and everything stays in order |
| ChaserAgent.Run | examples/receivables-chaser/chaser/agent.py:48-172 | the loop over days computes AfterDays |
| ChaserDays.RunStands | examples/receivables-chaser/chaser/agent.py:48-172 | after any number of days, whatever the client answers and adds to its listing, the run's invariant stands |
| ChaserStanding.RunKeepsFunds | examples/receivables-chaser/chaser/agent.py:48-172 | whatever the client keeps by time passing and by contacts holds of it and the contacted invoices at every day's end |
| ChaserDays.ContactedOnlyOnceListed | examples/receivables-chaser/chaser/agent.py:87-116 | an invoice not listed in the first k days is not contacted in them |
| ChaserLog.EveryListedInvoiceIsLogged | examples/receivables-chaser/chaser/agent.py:87-148 | over every run, the entries of a day are those of its listing, each invoice exactly once, by customer and identifier, with the rung Decide gives on the notes the day began with and on whether its customer was contacted earlier that day |
| ChaserLog.RunIsBackedByNotes | examples/receivables-chaser/chaser/agent.py:115-148 | over every run, each contact and each escalation logged is noted with its customer, each note but a payment is of a logged visit of its day, and the invoices counted as disputed are those with a dispute noted |
| ChaserReport.RunKeepsContactLimits | examples/receivables-chaser/chaser/policy.py:17-18 | over a whole run an invoice that is due when first listed, at the start or on a later day, gets at most three contacts in any 14 days and twelve in all |
| ChaserReport.RunClimbsTheLadder | examples/receivables-chaser/chaser/policy.py:9-18 | no customer twice in one day, rungs never step down, one escalation at most |
| ChaserReport.RunRespectsAnswers | examples/receivables-chaser/chaser/policy.py:68-87 | no contact after a dispute, an escalation or a recorded payment, nor until a promise's date is past |
| ChaserReport.RunSparesThePaid | examples/receivables-chaser/chaser/policy.py:65-67 | an invoice paid on the first listing is never contacted, nor noted as paid |
| ChaserReport.RunNotesPayments | examples/receivables-chaser/chaser/agent.py:150-159 | a payment is noted exactly for invoices that are paid at the end and were not on the first listing |
| ChaserReport.BuildReport | examples/receivables-chaser/chaser/report.py:22-89 | totals, credits and exceptions are those of the ledgers and the audit; it fails exactly when an invoice that is paid at the end was not on the first listing |
| ChaserReport.RunCountsContacts | examples/receivables-chaser/chaser/report.py:32-35 | the contacts counted at each of the three rungs are those of every invoice listed at the end |
| ChaserReport.ExceptionsAre | examples/receivables-chaser/chaser/report.py:61-74 | one exception for every invoice open at the end, in order, with its customer and amount |
| ChaserReport.LastActionIs | examples/receivables-chaser/chaser/report.py:55-73 | its last action is that of the last entry about it, or none |
| ChaserReport.MoneyIsConserved | examples/receivables-chaser/chaser/report.py:37-74 | outstanding at start, and what is owed on invoices added since, is recovered plus the listed exceptions |
| ChaserReport.CreditsAddUp | examples/receivables-chaser/chaser/report.py:39-45 | every recovery is credited once |
| ChaserRecorded.RecordedRazorpay.ResolvePending | examples/receivables-chaser/chaser/razorpay.py:142-147 | settles exactly the promises due, whatever their order |
| ChaserRecorded.RecordedRazorpay.Contact | examples/receivables-chaser/chaser/razorpay.py:149-181 | answers by script, committing once per invoice |
| ChaserRecorded.ScriptsPlayOut | examples/receivables-chaser/chaser/razorpay.py:142-185 | the first contact by each script and the days after it: paid at once, promised for six days on and paid then, promised for five and never paid, disputed, or silence |
| ChaserRecorded.RecordedIsHonest | examples/receivables-chaser/chaser/razorpay.py:142-185 | time and contact only ever turn invoices from open to paid |
| ChaserRecorded.RecordedPaysForContacts | examples/receivables-chaser/chaser/razorpay.py:142-185 | every payment and pending promise belongs to a contacted invoice |
| ChaserRecorded.RecordedRunAccounts | examples/receivables-chaser/chaser/report.py:37-74 | over every recorded run money is conserved and every recovery is credited to a contact rung |
| ChaserRecorded.RunRecorded | examples/receivables-chaser/chaser/report.py:22-89 | a recorded run always has a report; it balances, its rungs sum to the recovered amount, and nothing is filed under no contact |

## Left out

- SQL, Cypher, pgvector, full-text search, HTTP, gRPC, logging, metrics and configuration; clocks and randomness are parameters.
- Deleting, pruning and orphan clean-up: deletion takes facts away by design, so the coverage results assume none.
- WriteProtocol.Apply: Extract is modelled by its repository statements, with SplitByLookup and ConsolidateAgainst as methods; contradiction detection and embedding between them only decide what is searched and are not part of this model.
- EntityLinks.Apply: linkOneEntityOnce is modelled by its transaction steps rather than as one method, because other transactions act between them; HealthCache.Apply treats graphStats the same way, for its callers and its shared flight; a caller's look at the cache and at the clock is one step.
- EntityLinks.CollectTargets: LinkEntities links these names one after another and stops at the first that fails, as LoneCall states; the other results are about links as independent jobs, which allows every such order and more. A memory without a project links nothing.
- Content.Lexicon.CollisionFree: SHA-256 is assumed not to collide on the texts of a run and to have the promised shape; letter case is a function of single characters.
- FoldRedundant is not claimed idempotent, and its survivors may still subsume one another: a later input that says two kept rows replaces only the first. Entities of folded inputs are not merged there.
- RateLimiter.Limiter.AllowRequest: evicting a key's bucket resets its allowance, so windows are bounded per bucket, not across an eviction. Rounding of float64 seconds is not modelled.
- RankRelevance: reciprocal rank fusion reads positions, so the results on pool order and scale do not cover it; the merge, the map order, the paging and FusionSources do.
- EvalShared.NdcgIsBoundedIff: every present turn has a document, as the corpus index that says so is built from the documents.
- MeansAreOrdered: about means; what is reported is the mean under the condition of ReportedIsMeanIff.
- ChaserRun.Honest: a client may add invoices and turn open ones paid, whatever it answers; one that stops listing an invoice, as LiveRazorpay does with paid ones, is not covered.
- FusionSafety.NeverOutrankedIff: under min-max fusion, the shipped mode; `pow` is positive and multiplicative on positive numbers.
- BatchEmbedding.EmbedBatch: the narrowing of float64 components to float32 is not modelled, nor the request that produces a response.
- Fixture.Embeddings.Write: temporary file, flush and rename are left out; the result is the byte sequence.
- AutoLink.AutoLinkByTags: the query for recent memories and the vector search are inputs; a failing query is an empty list.
- Ranking.RankResultsAt: the library sort is an insertion sort, which is stable as the source's is.
- ChaserPolicy.AddNote: notes are their structured facts; free text in a name or a dispute that would break a pattern, and recall that misses notes, are not modelled.
- ChaserRecorded.BehaviorOf: a customer without a script is unreachable here; the source raises for an unknown behaviour.
- The chaser's drafters, reason strings, promise tallies, rendering and live client.
- Contradiction detection, entity and topic extraction, speaker splitting and the hashing embedder: word lists and patterns without invariants of this kind.
