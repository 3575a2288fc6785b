# Verified model of the RAG platform

A Dafny model of the platform's own logic, kept beside the code: one chat turn with its
shared semantic cache and context assembler, the semantic chunker, the ingestion queue
and indexer, admission control, the token lifecycle and the streaming reader of the
admin interface. `dafny verify dfyconfig.toml` checks everything.

## How the model is built

- Code that changes things step by step is a method or a class with the same branches,
  loops and fields; its contract equates the result, or the new state, with a function
  on values. What the platform promises is proved about those functions, for all
  inputs, all event sequences and all interleavings.
- Models, retrievers, stores, clocks and random identifiers are inputs with no
  assumption on what they answer, but that fresh identifiers are fresh. SHA-256 is taken
  to be injective.
- UUIDs are numbers; text is `seq<char>`; settings are parameters.

| file | what it models |
|---|---|
| `Turn.dfy`, `TurnProperties.dfy`, `TurnOutcome.dfy`, `TurnRoutes.dfy` | the fifteen nodes, the routers, what every turn keeps, and where each answer sends it |
| `Server.dfy`, `ServerScope.dfy`, `ServerWitness.dfy`, `ServerReuse.dfy` | interleaved turns of many users over one cache, what its two barriers are for, and that its answers are given again |
| `Assembler.dfy`, `ContextProperties.dfy`, `Fusion.dfy`, `Citations.dfy`, `Evidence.dfy` | context assembly, rank fusion, citation markers |
| `SemanticCache.dfy` | the cache, its tags and its invalidation |
| `Packing.dfy`, `PackingShape.dfy`, `RowChunks.dfy`, `Markdown.dfy`, `PageMarks.dfy`, `Chunker.dfy`, `ChunkProperties.dfy`, `ChunkContents.dfy` | the semantic chunker |
| `IngestQueue.dfy`, `IngestOutcomes.dfy`, `IngestRows.dfy`, `Indexer.dfy` | the ingestion worker, its progress rows and its two stores |
| `Admission.dfy` | rate and concurrency limits as interleaved processes |
| `Tokens.dfy` | login, rotation, logout, denylist, session epochs |
| `EventStream.dfy`, `EventDelivery.dfy` | the incremental event stream reader |
| `Text.dfy`, `Options.dfy`, `Sets.dfy` | shared helpers |

## What the code does that its documentation does not say

- `app/retrieval/semantic_cache.py:22-23` and `:114-116` call the subset check trivially
  true once the scope hash matches. It is exactly as long as a turn caches only chunks of
  its own scope (`ServerScope.WrittenWithin`), hence in every run in which retrieval and
  the document list stay in scope (`ServerScope.SubsetCheckIsRedundant`). But
  `cache_writer` stores the collections of every retrieved chunk, also of those the
  assembler dropped: `ServerWitness.SubsetCheckIsNeeded` is a run to a cache in which only
  that check passes an entry of the same scope over.
- A turn refused at the guard hands back the sources its thread began with: a message of
  one space (`app/schemas/chat.py:17` admits it) brings back sources whose permission was
  withdrawn since. `TurnOutcome.SourcesAtTheEnd` is the exact condition,
  `TurnOutcome.WithdrawnSourceComesBack` a failing turn.
- A thread left `insufficient` by an earlier turn answers no later question:
  `input_guard` does not reset the flag and `app/api/chat.py:117-123` does not either
  (`TurnOutcome.InsufficientThreadStaysSilent`; `TurnOutcome.TurnSaysItsAnswer` has the
  exact condition, `TurnOutcome.SomeThreadIsLeftInsufficient` a thread on which it fails).
- `cache_writer` swallows a store that dies between the point and its tags. Such a point
  is served like any other and no invalidation evicts it; it is exactly what an eviction
  leaves (`SemanticCache.EvictedKeepsTagged`, `SemanticCache.EveryPointIsListed`,
  `SemanticCache.DeadStoreSurvivesEviction`).
- A payload vanishes from queue and dead letters exactly when the rollback after failed
  tracking or the update of its row after a failed attempt raises, a push raises without
  having taken effect, or a pop raises after it did (`IngestQueue.QueueConservesPayloads`;
  `IngestQueue.SomePayloadsAreLost` has two such runs).
- A document that was indexed is indexed again, or ends as a dead letter, exactly when its
  success cannot be recorded, that failure can, and the push after it takes effect
  (`IngestQueue.IndexedYetPushedOn`; `IngestQueue.SomeIndexedPayloadDies`).
- A denylist entry outlives its token only if tokens are rejected from `exp` on. With a
  decoder that still accepts a token after `exp`, a token revoked by a logout is accepted
  again (`Tokens.RevocationIsFinal` is an equivalence), and one refresh token is exchanged
  any number of times, because `revoke_jti` writes nothing for a lifetime of zero
  (`Tokens.SlackBreaksRotation` for every number; `Tokens.ExchangedAtMostOnce` is an
  equivalence).
- `app/ingestion/chunker.py:177` promises windows of at most the largest size. A chunk
  exceeds it exactly if its only unit does not fit after the carried overlap, or if it is
  a short tail merged into its predecessor (`Packing.OversizedChunks`; two paragraphs of a
  full window do it, `Packing.FullParagraphsExceed`).
- The Markdown printer replaces newlines but keeps carriage returns inside cells, which
  end a line for a reader (`Markdown.MarkdownRoundTrip` is an equivalence,
  `Markdown.SomeTableIsMisread` a table).
- The stream reader joins the `data` lines of a block without the newline that section
  9.2.5 of the WHATWG HTML Standard puts between them, so its data is the standard's
  exactly for blocks with at most one data line (`EventStream.DataDeviates`;
  `EventStream.SomeDataDeviates` is a block with two).

## Model

| member | source | states |
|---|---|---|
| Server.EveryCitationIsInScope | app/graph/nodes.py:99-110 | in every interleaving of turns with arbitrary scopes and threads, cache invalidations and purges, whatever models and retrievers answer, each turn is a run of the graph, its sources are in the collections it began with or those its thread began with, and when it is finished they are in scope iff the thread's were or the guard let the turn pass; on a thread without sources they always are |
| Server.SubsetCheckGuardsBareDocuments | app/retrieval/semantic_cache.py:114-116 | for a safe entry of the very same scope hash, the sources of a hit are in scope iff it has stored citations or all its collections are allowed: what the second barrier is for |
| ServerScope.WrittenWithin | app/graph/nodes.py:261-278 | the collections of a cached answer lie in the scope its key hashes iff every chunk of the turn does |
| ServerScope.RunKeepsWithin | app/graph/nodes.py:124-179 | in every run in which retrieval and the document list stay in scope, every entry lies in the scope its key hashes and every turn holds only chunks of its scope |
| ServerScope.SubsetCheckIsRedundant | app/retrieval/semantic_cache.py:114-116 | in such a run an entry of equal hash always passes the subset check, and dropping the check changes no lookup |
| ServerWitness.SubsetCheckIsNeeded | app/graph/nodes.py:261-278 | a run to a cache entry of equal scope hash, fresh and first in the ranking, which only the subset check keeps from a requester its source is out of scope for |
| ServerWitness.TurnAlone | app/api/chat.py:117-131 | every turn neither served from nor written to the cache is a run of the server |
| Server.EntryHitInScope | app/retrieval/semantic_cache.py:114-127 | for a safe entry the subset check alone keeps stored citations in scope, independently of the scope hash |
| Server.InvalidatedDocumentIsNeverCited | app/retrieval/semantic_cache.py:178-191 | after a document is invalidated no cache hit in any later state of any run cites it, until a turn caches an answer built on it again, but for an entry whose store had died before its tags |
| ServerReuse.CachedAnswerIsReused | app/graph/nodes.py:99-110 | an answer cached by a turn is given again, with its citations, to every later turn of the same scope that finds it first among what can answer within its lifetime, through every run that invalidates nothing it is built on, although its store may have died before the tags |
| ServerReuse.CachedAnswerStays | app/retrieval/semantic_cache.py:138-210 | through such a run the entry stays in the cache with its answer, sources, key and time |
| ServerReuse.EventChanges | app/retrieval/semantic_cache.py:178-210 | what each event does to the turns and to the points: an invalidation drops the points listed under the tag, a purge those past their lifetime, a node of another turn nothing |
| Server.WrittenIsSafe | app/graph/nodes.py:261-278 | an entry the cache writer stores cites only chunks it is tagged with, in the scope its key hashes |
| Server.RunKeepsSafe | app/graph/nodes.py:261-278 | every run keeps the cache tagged and cited consistently and every turn in its own scope |
| TurnProperties.EveryTurnIsBounded | app/graph/builder.py:28-79 | for any leftover flags, a turn runs at most 11+3R+3G and at most max(M+4, 5) < 3M+10 nodes, strictly fewer while one is left; `iterations` counts the nodes and retries stay within their caps |
| TurnProperties.Invoke | app/api/chat.py:117-131 | running the graph reaches its end for any answers of the outside world, within the iteration bound; where each answer sends it is told by the rows of `TurnRoutes` |
| TurnProperties.EdgeLowersRank | app/graph/builder.py:32-79 | every edge taken lowers a rank built from the retries left, whatever else the node wrote |
| TurnProperties.EdgeKeepsIterationLimit | app/graph/builder.py:28-79 | the routers that test the budget keep each node within its own iteration limit |
| TurnProperties.RunNodeCounts | app/graph/nodes.py:187-192 | every node counts one iteration, and only the two retry nodes count a retry |
| TurnRoutes.IntentIsFollowed | app/graph/builder.py:40-51 | after the router a turn with budget left goes to the planner, the document list or the retriever as the intent says, and otherwise gives up |
| TurnRoutes.GeneratorIsEntered | app/graph/builder.py:54-69 | the generator runs next iff this is a generation retry, a document list found something within budget, or a graded retrieval with chunks was found relevant, or rejected with every rewrite used, within budget |
| TurnRoutes.RejectedRetrievalIsRewritten | app/graph/builder.py:62-69 | a rewrite runs next iff a retrieval was rejected or empty with a rewrite and budget left, counted over the nodes run; it is followed by the retriever, and that by the relevance check |
| TurnRoutes.GradedAnswerIsRouted | app/graph/builder.py:72-79 | a graded answer is finalized, generated again or given up, exactly as the verdict, the retries run so far and the budget say |
| TurnRoutes.HitIsServed | app/graph/nodes.py:99-110 | a turn that passes the guard looks the cache up; with a scope and a hit its next node is the evaluation queue with the entry's answer and sources, and otherwise the router |
| TurnRoutes.CountersCountVisits | app/graph/nodes.py:27-28 | at every point of every turn the counters are the number of nodes, rewrites and generation retries run before it |
| TurnRoutes.ChunksAreFetched | app/graph/nodes.py:124-179 | what the relevance check, the generator and all that follows work on is exactly what the retriever or the document list fetched last, or nothing for an empty scope |
| TurnRoutes.NodeFetchesPages | app/graph/nodes.py:142-179 | page images are fetched only by the retriever, for a visual question and a scope that is not empty |
| TurnRoutes.AnswerIsGenerated | app/graph/nodes.py:194-234 | what is graded, accepted, said and cached is what the model wrote last with its markers rewritten, and the sources they name in the context of that moment |
| TurnRoutes.FinalAnswerHasOrigin | app/graph/nodes.py:90-278 | the answer of a finished turn that passed the guard is that of its cache hit with its sources, what the model wrote last with exactly the sources its markers name, or the abstaining answer without sources |
| TurnRoutes.HitCites | app/graph/nodes.py:102-109 | a hit cites what was stored with it, and otherwise each of its documents once with the collections its chunks came from |
| TurnRoutes.WhatIsWritten | app/graph/nodes.py:261-278 | an answer is cached iff it is not empty, the turn did not abstain and there are chunks whose ids all parse; with the question, the sources, the whole scope, and the document and collection of each chunk |
| TurnOutcome.TurnSaysItsAnswer | app/graph/nodes.py:90-97 | a finished turn has appended exactly one assistant message, its final answer, iff the query is blank or the thread was not left insufficient; otherwise only counters changed |
| TurnOutcome.InsufficientThreadStaysSilent | app/api/chat.py:117-123 | after a turn that ended insufficient, the next question on the thread gets no message and the old answer and sources, whatever could be found for it |
| TurnOutcome.SomeThreadIsLeftInsufficient | app/graph/nodes.py:90-97 | such a thread arises: an empty query leaves one |
| TurnOutcome.NothingFoundAbstains | app/graph/builder.py:54-79 | a turn that gets no hit, no listed document and no chunk ends insufficient, whatever the settings and verdicts |
| TurnOutcome.GeneratorHasChunks | app/graph/builder.py:54-69 | the generator only runs with chunks |
| TurnOutcome.CacheWriterSeesTheGradedAnswer | app/graph/builder.py:72-79 | the cache writer runs two nodes after the hallucination check accepted this very answer, with the same chunks and citations |
| TurnOutcome.AbstainingTurn | app/graph/nodes.py:251-254 | a turn that ends insufficient gives the abstaining answer without citations and never reaches the cache writer; when refused at the guard it changes no citation |
| TurnOutcome.GeneratedInScope | app/graph/nodes.py:194-234 | generated citations come from chunks that passed the assembler's access check |
| TurnOutcome.GeneratedCitesChunks | app/graph/nodes.py:226-234 | every generated citation names the document and collection of a chunk in the state |
| TurnOutcome.HitSourcesInScope | app/graph/nodes.py:102-109 | stored citations or bare documents of a safe hit are in scope |
| TurnOutcome.NodeKeepsSourced | app/graph/nodes.py:90-278 | no node takes the turn's sources out of its scope, nor changes the scope |
| TurnOutcome.SourcesAtTheEnd | app/graph/nodes.py:90-110 | with safe hits, what a finished turn hands back is in its scope iff what its thread began with is, or the guard let the turn pass |
| TurnOutcome.WithdrawnSourceComesBack | app/graph/nodes.py:90-97 | on a thread whose sources are out of scope a blank message finishes a turn that hands them back |
| Evidence.Uuids | app/graph/nodes.py:52-59 | the loop collects exactly the ids that some entry spells, canonically or not |
| Assembler.Assemble | app/context/assembler.py:71-135 | the loop over the fused list equals, for every damping constant, packing the access-filtered chunks alone and taking the first loadable access-filtered pages; accessible chunks that fit the budget together are all packed, whole and in order, and the blocks are their contents |
| Assembler.TakeItem | app/context/assembler.py:87-133 | one round of the loop: access check, image budget, token budget, truncation of an oversized first block; which chunks the rounds keep is told by `ContextProperties.ChunksArePackedGreedily` |
| Assembler.TakeKeepsSimpleForm | app/context/assembler.py:87-133 | a round on the simple form of what was read gives the simple form with one more item |
| Assembler.OutOfScopeIsInvisible | app/context/assembler.py:60-61 | inserting out-of-scope chunks and pages anywhere changes no block, packed chunk, image or token count |
| Assembler.PackedAreInScope | app/context/assembler.py:87-100 | only chunks of allowed collections are packed |
| Assembler.PackedAreTaken | app/context/assembler.py:118-133 | the packed chunks are, in order and at most cut short, some of the chunks offered |
| Assembler.TokensWithinBudget | app/context/assembler.py:118-133 | the token count is the sum of the estimates over the packed chunks and within the budget |
| Assembler.OversizedFirstBlock | app/context/assembler.py:64-68 | a first chunk above the budget is the only block, cut so that it costs exactly the budget |
| Assembler.BudgetCharsCostBudget | app/ingestion/chunker.py:31-36 | inverting the estimate gives a length that costs exactly the budget |
| ContextProperties.ChunksArePackedGreedily | app/context/assembler.py:118-133 | with a budget, and unless the first accessible chunk alone exceeds it, a chunk is left out iff its estimate does not fit beside the chunks packed from before it; the kept ones are whole and in order |
| ContextProperties.NoBudgetPacksNothing | app/context/assembler.py:118-133 | without a budget nothing is packed but the first chunk that has text, emptied |
| ContextProperties.AccessIsChunkByChunk | app/context/assembler.py:60-61 | the access filter keeps or counts each chunk by the canonical text of its collection alone, in order |
| ContextProperties.ImagesAreTheFirst | app/context/assembler.py:102-116 | the images are those of the shortest run of accessible pages from the front that gives as many as allowed, and the pages after it are the dropped ones |
| ContextProperties.TurnPacksWhatFits | app/graph/nodes.py:194-234 | with the configured budget a turn gives its generator every accessible chunk when they fit together, otherwise a greedy choice, or the first one cut to the budget |
| ContextProperties.TurnTakesTheFirstImages | app/graph/nodes.py:194-234 | its images are the first loadable accessible ones up to the configured number for a multimodal model, and none otherwise |
| Fusion.Merge | app/retrieval/fusion.py:33-43 | the sorted list alternates strictly between the rankings, text first, never rising; the place and the score of every item are given from its place in its own ranking |
| Fusion.SortIsStable | app/retrieval/fusion.py:41-42 | the sort descends and keeps the order among equal scores |
| Fusion.MergeAlternates | app/retrieval/fusion.py:33-43 | for every damping constant the merge is strict text-first alternation |
| Citations.NormalizeIdempotent | app/graph/citations.py:22-28 | normalizing leaves no native marker anywhere, is idempotent, and changes nothing iff there was none |
| Citations.NormalizeKeepsTheNumber | app/graph/citations.py:22-28 | what stands before the first native marker stays, the marker becomes its own digits in square brackets, whatever its white space and suffix, and the text behind it is normalized; so that number is cited |
| Citations.AfterNativeIff | app/graph/citations.py:22 | the scan recognises exactly the texts that begin with a bracket, white space, digits, white space, perhaps a dagger and anything but a closing bracket, and a closing bracket |
| Citations.ValueOfDecimal | app/graph/citations.py:34 | a printed number is read back from its digits |
| Citations.MarkersIffMarked | app/graph/citations.py:17-34 | the scan finds a number iff the text holds it as a bracketed marker somewhere |
| Citations.ExtractCitations | app/graph/citations.py:31-55 | the loop over the sorted set of markers computes the citations function |
| Citations.ExtractsExactlyTheMarkers | app/graph/citations.py:31-55 | exactly the in-range markers are cited, strictly increasing, marker n with packed chunk n-1; the abstaining answer cites nothing |
| SemanticCache.Cache.LookupEntry | app/retrieval/semantic_cache.py:88-135 | hits iff the question is not blank and some id of the ranking is that of a live point of this scope hash, within its lifetime, built only on allowed collections, with fewer than five points of that hash ranked before it; the first of these is served; what it evicts is exactly the stale ones among those five |
| SemanticCache.Cache.Store | app/retrieval/semantic_cache.py:138-175 | the point is written and then listed under each of its tags, or under none if the store dies between; no other point or listing changes |
| SemanticCache.PurgeKeepsHits | app/retrieval/semantic_cache.py:196-210 | a purge costs no lookup its hit, then or later: what it deletes would not have been served |
| SemanticCache.EvictedKeepsTagged | app/retrieval/semantic_cache.py:178-194 | an eviction leaves exactly those points that name the tag whose store died before its tags |
| SemanticCache.LookupIsSafe | app/retrieval/semantic_cache.py:108-135 | a hit is a live point of the same scope, not stale, built only on allowed collections |
| SemanticCache.LookupServesTheFirst | app/retrieval/semantic_cache.py:88-135 | a lookup hits iff some considered point can answer, and serves the first such point of the ranking |
| SemanticCache.LookupEvictsTheStale | app/retrieval/semantic_cache.py:108-135 | a lookup deletes exactly the considered points past their lifetime, if its deletion goes through, and nothing for a blank question |
| SemanticCache.TagsNameTheChunks | app/retrieval/semantic_cache.py:168-175 | an entry is tagged with exactly the collections and documents of the chunks it was derived from |
| SemanticCache.RunKeepsTagged | app/retrieval/semantic_cache.py:138-210 | through every sequence of operations each live point is listed under all its tags iff its store did not die before them |
| SemanticCache.EveryPointIsListed | app/retrieval/semantic_cache.py:138-210 | all live points are listed under all their tags iff none that has tags comes from a store that died |
| SemanticCache.DeadStoreSurvivesEviction | app/graph/nodes.py:264-277 | a store that died before its tags leaves a point no invalidation evicts |
| SemanticCache.InvalidatedIsNeverServed | app/retrieval/semantic_cache.py:178-194 | after an invalidation no lookup returns an entry built on what was named until a store names it again, but for points of stores that had died before their tags, exactly those the eviction leaves |
| SemanticCache.ScopeTextDeterminesIds | app/retrieval/semantic_cache.py:50-53 | the joined text that is hashed determines the list of ids |
| Packing.CutParagraphs | app/ingestion/chunker.py:182-189 | the splitting loop ends because the overlap is below the window, and yields the units |
| Packing.FillWindows | app/ingestion/chunker.py:191-200 | the packing loop fills windows as the recursive form does |
| Packing.PackParagraphs | app/ingestion/chunker.py:176-208 | cutting, filling and the merge of a short tail together |
| Packing.HardSplitRoundTrip | app/ingestion/chunker.py:184-187 | dropping the overlap of each continuation gives the trimmed paragraph back |
| Packing.WindowsHoldUnits | app/ingestion/chunker.py:193-200 | each window is the carried end of its predecessor and then its own group of units |
| Packing.GroupsFlatten | app/ingestion/chunker.py:193-200 | the groups concatenate to the unit list: every unit once, in order |
| Packing.FreshPartsRecoverUnits | app/ingestion/chunker.py:193-200 | removing what each window repeats and joining gives the joined units |
| Packing.PackLosesNothing | app/ingestion/chunker.py:176-208 | all of that for the whole packer; the result is those windows, or those with the last two joined |
| Packing.PackSizes | app/ingestion/chunker.py:191-208 | no chunk exceeds a window with overlap and blank line, or 1.2 windows and a blank line |
| Packing.OversizedWindows | app/ingestion/chunker.py:193-200 | a window exceeds the largest size iff its only unit does not fit after what it repeats |
| Packing.OversizedChunks | app/ingestion/chunker.py:176-208 | exactly which chunks of the packer exceed the largest window: those windows, and a short tail merged into its predecessor |
| Packing.FullParagraphsExceed | app/ingestion/chunker.py:193-200 | two paragraphs of a full window each give a chunk longer by the overlap and a blank line |
| Packing.SomeChunkExceeds | app/ingestion/chunker.py:193-200 | one such input, with the chunks it gives |
| PackingShape.CutsAreFull | app/ingestion/chunker.py:184-189 | all cuts of a trimmed paragraph but the last are full windows, each starting a window less the overlap after the one before, and the last is the first to reach the end |
| PackingShape.WindowsAreGreedy | app/ingestion/chunker.py:191-200 | a window takes in more units only up to the largest size and is closed only when the next unit does not fit behind it |
| PackingShape.TailIsMerged | app/ingestion/chunker.py:201-207 | the last two windows are joined iff the last is below the smallest size and the two together stay below 1.2 windows |
| PackingShape.CarryIsTheEnd | app/ingestion/chunker.py:197-198 | what a window repeats is the last characters of its predecessor, as many as the overlap says, and a blank line |
| RowChunks.PackRows | app/ingestion/chunker.py:145-157 | the greedy row loop computes the recursive greedy split |
| RowChunks.ChunksPartition | app/ingestion/chunker.py:145-172 | the row ranges are consecutive, cover all rows, hold exactly their rows and pass the fit test |
| RowChunks.GreedyStaysAhead | app/ingestion/chunker.py:149-156 | from any row the greedy split needs no more chunks than any valid split |
| RowChunks.RowChunksAreOptimal | app/ingestion/chunker.py:145-172 | partition, the size bound of one row or max_chars+1, and the fewest chunks of any in-order split under the same test |
| RowChunks.FitsIsAboutTheText | app/ingestion/chunker.py:149-163 | the loop's sum is a test on the text of the chunk: one row, or at most one character over the limit |
| Markdown.TableToMarkdown | app/ingestion/chunker.py:62-72 | the line loop prints the table function |
| Markdown.ReadsCellBack | app/ingestion/chunker.py:58-59 | splitting, unescaping and trimming a printed cell gives the trimmed one-line cell |
| Markdown.MarkdownRoundTrip | app/ingestion/chunker.py:52-72 | reading by the table rule of section 4.10 of the GitHub Flavored Markdown Spec recovers header and rows, padded, iff there is a column and no cell keeps a carriage return |
| Markdown.ReaderGetsEveryCell | app/ingestion/chunker.py:62-72 | cell by cell, a reader gets each row's own cells, then blanks up to the width of the header or the widest row, and numbered columns where there is no header |
| Markdown.SomeTableIsMisread | app/ingestion/chunker.py:58-59 | a table with a carriage return inside a cell that does not read back |
| Chunker.BuildTableChunks | app/ingestion/chunker.py:107-157 | one Markdown chunk, and numbered row chunks above the threshold |
| ChunkContents.FirstTableChunk | app/ingestion/chunker.py:107-141 | the first chunk of a table is its summary and its Markdown, or its content when it has no rows, with all metadata but rows and header |
| ChunkContents.RowChunksOfTable | app/ingestion/chunker.py:143-172 | a table above the threshold has row chunks: consecutive ranges from the first row to the last, each the summary and its own rows |
| ChunkContents.RowNamesItsCells | app/ingestion/chunker.py:98-104 | a row line names exactly the cells that are not blank, in order, by their header or a numbered column |
| ChunkContents.SummaryNamesTable | app/ingestion/chunker.py:75-95 | the summary counts rows and columns, and names the table by its caption, else the line above, else its section |
| Chunker.BuildTextChunks | app/ingestion/chunker.py:211-248 | a run is normalized, joined, split at blank lines and packed, and each piece gets the page its window is taken to begin on |
| ChunkProperties.VisualNamesItsCaption | app/ingestion/chunker.py:258-315 | the short line above a visual without a caption is found in every chunk made of it, Markdown, row chunk or figure, and a figure keeps its own text |
| PageMarks.FindPage | app/ingestion/chunker.py:233-237 | the loop over the part offsets finds the page of the last part at or before the offset used up |
| ChunkProperties.PartsAreLaid | app/ingestion/chunker.py:214-223 | the offsets recorded for the parts of a run start at 0 and ascend |
| ChunkProperties.TextPagesFollowParts | app/ingestion/chunker.py:230-247 | each text chunk is on the page of the part its window is taken to begin in, the first on that of the first part, and pages never go back when the parts' do not |
| ChunkProperties.RunPagesFollowParts | app/ingestion/chunker.py:211-248 | the same for the chunks and parts of every run of text |
| Chunker.BuildChunks | app/ingestion/chunker.py:271-321 | the mutable run and last text compute the plain specification |
| Chunker.ParagraphsAreProper | app/ingestion/chunker.py:225-232 | the packer always gets trimmed paragraphs that are not empty |
| ChunkContents.ParagraphsHoldTheText | app/ingestion/chunker.py:225-229 | the paragraphs of a run's text, in order, hold every visible character of it and no other |
| ChunkContents.ParagraphsAreStripped | app/ingestion/chunker.py:229 | they are the stripped pieces of the text between its blank lines, each cut at the first one, without the blank pieces |
| ChunkContents.PartsInOrder | app/ingestion/chunker.py:214-225 | the text of a run is the normalized contents of its elements, in order, without the empty ones |
| ChunkContents.RunChunksAreItsPieces | app/ingestion/chunker.py:230-247 | the chunks of a run are the packer's pieces word for word, under the section of the run |
| ChunkContents.ChunksInOrder | app/ingestion/chunker.py:284-317 | the chunks of the segments follow one another in the order of the segments |
| ChunkContents.HintIsTheFirstLine | app/ingestion/chunker.py:258-268 | what names a visual is the first line of the text above that is not blank, trimmed, iff it has at most 160 characters |
| ChunkContents.FigureKeepsItsText | app/ingestion/chunker.py:300-315 | a figure keeps its content and place, and its text is led by the line above iff it has no caption and does not hold that line |
| ChunkProperties.SegmentsCut | app/ingestion/chunker.py:284-317 | the segments cut the elements into single visuals and maximal same-section runs, in order, each visual with the hint of an immediately preceding text |
| ChunkProperties.ChunksAreCutNumberedAndBounded | app/ingestion/chunker.py:271-321 | the builder's result is the chunks of that cut in order, numbered from 0, text chunks bounded |
| Admission.EveryRunIsAdmitted | app/core/ratelimit.py:44-106 | under every interleaving of the separate commands each counter equals the requests between increment and decrement, admitted requests stay within every cap, and no request finds a counter below zero |
| Admission.NoSlotLeaks | app/core/ratelimit.py:90-106 | once every request is done, however it ended, both in-flight counters are zero |
| Admission.RefusedWhenFull | app/core/ratelimit.py:44-81 | an increment is refused iff at least the cap of other requests are between increment and decrement |
| Admission.MovesAreBounded | app/core/ratelimit.py:90-106 | no request makes more than eight moves, so each ends if it keeps being scheduled |
| Admission.RequestFollowsItsReplies | app/core/ratelimit.py:30-106 | the exact commands and outcome of a request for every combination of replies: over the minute's cap it stops at once, over the user's it takes its increment back, over the global cap both, and otherwise it runs and gives back the global slot first |
| Admission.CommandCounts | app/core/ratelimit.py:44-106 | each command changes what is counted by exactly the request that sends it |
| Admission.CommandAdmits | app/core/ratelimit.py:33-81 | a request is only newly admitted by an increment that came back within the cap |
| Admission.Limiter.Continue | app/core/ratelimit.py:30-106 | a suspended request compares its last reply and sends its next command to the shared counters |
| IngestQueue.QueueConservesPayloads | worker/main.py:54-97 | over every sequence of uploads, rounds of the worker and requeued dead letters, any pop or push raising before or after its effect, each payload is in one place or ended one way, as often as uploaded; queued attempts stay below the cap, dead letters have used theirs up; as many are lost as rollbacks and failure records raised, pushes raised without effect and pops raised after theirs |
| IngestQueue.IndexedYetPushedOn | worker/main.py:76-97 | a payload whose document was indexed is retried, or dead-lettered with its attempts used up, iff recording the success raised, recording the failure did not and the push took effect |
| IngestQueue.SomePayloadsAreLost | worker/main.py:139-160 | two runs that lose their payload, by a push without effect and by a pop that raised after it |
| IngestQueue.SomeIndexedPayloadDies | worker/main.py:76-97 | an indexed document whose payload becomes a dead letter |
| IngestQueue.HandlingLosses | worker/main.py:58-97 | handling a job loses its payload iff one of the calls made on the way does, and no two do |
| IngestQueue.RoundLosses | worker/main.py:138-160 | the same for a whole round with its pop |
| IngestQueue.RequeueLosses | app/ingestion/jobs.py:124-139 | requeueing loses as many letters as its calls do, wherever it raises |
| IngestQueue.Worker.HandleJob | worker/main.py:54-97 | drop, success, retry, dead letter or loss, with the row updates and the calls of each |
| IngestOutcomes.WhereAPayloadGoes | worker/main.py:54-97 | the table of endings from the answers alone: dropped, lost, indexed, queued again with one attempt more or dead-lettered, with the document, ticket and row it then names |
| IngestOutcomes.WhatTheRowSays | app/ingestion/jobs.py:77-110 | a tracked attempt writes its own row and no other: status, attempt, error and whether it finished |
| IngestQueue.Worker.Consume | worker/main.py:138-160 | one round of the loop: nothing, a loss or a handled job, as the pop goes |
| IngestQueue.Worker.Drain | worker/main.py:125-160 | without uploads the queue is empty once as many pops took a job as there were attempts left, whatever raised |
| IngestQueue.Worker.RequeueDeadLetters | app/ingestion/jobs.py:124-139 | up to the limit of dead letters go back in order with attempt 0; where a pop or push raises, before or after its effect, it stops there and the letter is kept, lost or queued accordingly |
| IngestOutcomes.RequeueMovesTheOldest | app/ingestion/jobs.py:124-139 | requeueing that nothing stops moves the oldest dead letters up to the limit to the end of the queue, in order, with attempt 0 |
| IngestRows.RowsTellWhereabouts | app/ingestion/jobs.py:77-110 | in every run each tracked payload that waits has a row of its own: QUEUED with the next attempt, or still FAILED if requeued, while queued; FAILED with its last attempt and error while a dead letter |
| IngestQueue.HandlingLowersWork | worker/main.py:82-97 | every handled job lowers the attempts left in the queue |
| IngestRows.RowTellsEnding | app/ingestion/jobs.py:96-117 | the row says INDEXED, FAILED or QUEUED exactly for an indexed, dead-lettered or requeued payload, provided the push took effect |
| Indexer.Worker.IndexDocument | app/ingestion/indexer.py:35-173 | at every call that may raise or crash, before or after its effect, no durable state shows an indexed document whose committed rows and points differ; it succeeds iff every call goes through, and then leaves exactly this attempt's chunks in both; a failure whose record goes through leaves the document FAILED |
| Indexer.Worker.RunAttempts | app/ingestion/indexer.py:35-173 | the same for any number of attempts, each cut short anywhere |
| Indexer.Worker.ClearAndParse | app/ingestion/indexer.py:63-101 | rows and points are cleared although stage callbacks commit midway |
| Indexer.Worker.WriteChunks | app/ingestion/indexer.py:103-143 | a row for each chunk and one upsert of the same points |
| Indexer.Worker.OnStage | app/ingestion/jobs.py:89-93 | a stage callback commits what the session holds without making the document indexed |
| Tokens.ExchangedAtMostOnce | app/api/auth.py:157-187 | each refresh token is exchanged at most once in every run iff tokens are rejected from `exp` on |
| Tokens.RevocationIsFinal | app/core/redis.py:38-52 | every revoked token is rejected at every later time of every run iff tokens are rejected from `exp` on |
| Tokens.RevokedForEver | app/core/redis.py:38-52 | the same for a token revoked at any point of a run and judged at any later point |
| Tokens.SlackRevivesRevoked | app/api/auth.py:210-217 | a run that accepts a token again after its logout when the decoder has slack |
| Tokens.RevokeOutlives | app/api/auth.py:50-51 | an entry written in whole seconds lasts at least until `exp` |
| Tokens.AcceptedStemsFromLaterLogin | app/core/deps.py:47-64 | a token accepted after an epoch bump ends a chain of tokens, each exchanged for the next, that starts with one issued at a login after that bump |
| Tokens.TracesBack | app/api/auth.py:176-187 | following the exchanges from any token ends at a token issued at its login |
| Tokens.SlackBreaksRotation | app/core/redis.py:38-43 | for every number, a run that exchanges one refresh token that often when the decoder has slack |
| Tokens.AuthServer.GetCurrentUser | app/core/deps.py:33-65 | a bearer token is accepted iff it was issued, still decodes, is an access token, has no live denylist entry, its user is active and it is not older than the user's epoch; the user is the token's |
| Tokens.AuthServer.RefreshPair | app/api/auth.py:131-193 | a refresh token passes iff it meets the same conditions; it is then denied for the rest of its life and a pair for the same user and login is issued; a rejected one changes nothing |
| Tokens.AuthServer.Logout | app/api/auth.py:201-224 | with an accepted access token exactly that token and a decodable refresh cookie are denied for the rest of their lives; otherwise nothing changes |
| Tokens.AuthServer.RevokeJti | app/core/redis.py:38-43 | the jti is denied at exactly the times before the end of a positive lifetime, as before otherwise, and no other jti is affected |
| EventStream.ReadStream | admin-ui/app/src/api.ts:164-194 | however the text is cut into pieces, and whatever handlers throw, the handler calls are those of the CR-stripped text split once, and the same tail is left |
| EventStream.DataDeviates | admin-ui/app/src/api.ts:180-183 | a block's data is what section 9.2.5 of the WHATWG HTML Standard joins from the same values iff it has at most one data line |
| EventStream.SomeDataDeviates | admin-ui/app/src/api.ts:180-183 | a block with two data lines, and both results |
| EventStream.TakeBlocks | admin-ui/app/src/api.ts:174-190 | the inner loop handles exactly the complete blocks and leaves the tail |
| EventStream.SplitIsUnique | admin-ui/app/src/api.ts:175-177 | blocks and tail are the only way to cut a text at its blank lines |
| EventStream.OneMorePiece | admin-ui/app/src/api.ts:173-177 | stripping and splitting go on from the tail, also inside a CRLF or a blank line |
| EventDelivery.BlockIsDelivered | admin-ui/app/src/api.ts:178-190 | a block of an event and its data calls exactly the handler the event names, with the token or the payload; other events and data that does not parse are passed over, and null in a token event breaks the stream |
| EventDelivery.EventIsTheLast | admin-ui/app/src/api.ts:180-182 | the event of a block is that of its last event line, or `message` |
| EventDelivery.BlockWithoutDataIsPassedOver | admin-ui/app/src/api.ts:178-190 | a block without data line calls no handler |
| EventDelivery.TrimSplits | admin-ui/app/src/api.ts:181-182 | trimming drops white space at the two ends and nothing else |

## Left out

- Rounding of binary floating point in 3.8, 1.2 and the rank scores: they are exact rationals here; no length is a tie for `round`.
- Digits and white space follow ASCII digits and Python's `str.isspace`; other Unicode digits in markers are not modelled.
- The overlap ratio as a float: how many characters of a piece count as repeated is a parameter.
- `normalize_text`, captions, parsers, embeddings and the language models: parameters or arbitrary inputs.
- The follow-up rewriting of queries, the plan, `route`, latencies and the evaluation queue's payload: they steer no branch of the graph.
- A model, retriever or store that raises inside a node: the turn stops there, which every run property already covers as an unfinished run.
- Interleaving inside a single cache or token handler: each is one step, but for a cache write that dies between the point and its tags; an eviction that dies before dropping its tag would only leave ids of deleted points listed.
- Redis being down (the fail-open paths) and the expiry of counters: no counter of `Admission` expires.
- An upload whose push raises without effect after its row was committed: no payload exists then, and the row stays QUEUED.
- An update of a progress row, or its commit, that raises after it took effect: raised updates leave the rows as they were; what happens to the payload is the same either way.
- Stream handlers that are not given: all three are taken to be there.
- A worker that dies between popping a payload and pushing it on: no acknowledgement exists, so the payload is gone; the model handles each popped job to its end.
- Deleting a document while it is indexed, and the page-image collection: the model has one document and its text points.
- JWT signatures, password hashing, roles and the audit log: a presented token is one that was issued.
- HTTP routes, database models, migrations, user interface and evaluation scripts: plumbing or easier copies of what is covered.
- Assembler.TokensWithinBudget: asks for a positive budget, because the code replaces 0 by its default (`app/context/assembler.py:80`).
