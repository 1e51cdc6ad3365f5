# EKRS: chunking, routing, auditing, solving and retrieving

EKRS turns engineering documents into searchable chunks, retrieves chunks for a query, and solves the numeric
constraints found in them. This project models the parts of it whose behaviour is decided by code rather than by a
library, and proves what they promise. Where the code keeps less than its documentation says, the code is modelled as
it is, a concrete input shows the difference, and the exact condition under which the promise holds is proved.

| directory | models |
|---|---|
| `common/` | sequences: concatenation, flat map, filter, stable sort |
| `ingestion/` | the chunker: cutting with look-back, greedy merging, row packing, the accumulator machine of `chunk_blocks`, and what it keeps |
| `services/` | the GPU/CPU router, as a class and as any number of interleaved threads |
| `observability/` | the audit bridge, as a class and as interleaved producers, drain thread and `stop` |
| `constraints/` | intervals, unit conversion, the parser's normalise-and-build route, the solver |
| `retrieval/` | the embedding cache and batched encode, rank fusion, the retriever after its searches return |

Loops and classes of the source are methods and classes here. Each method is proved equal to a specification function
(`ChunkBlocks` to `Chunks`, `SolveParameter` to `Solve`, `Router.Route` to `Recorded`, and so on), and the theorems are
about those functions. What the functions themselves mean is stated apart from them, in the terms of a reader who sees
only inputs and results: `SendingLaws` and `PackingLaws` for the chunks, `GroupingLaws` for the solver, `RankingLaws`
for the retriever, and the lemmas named `...Meaning` throughout. Python floats are `real`, clocks and outcomes outside
the code are parameters, and text is a sequence of characters compared with whitespace deleted (`Squeeze`) where the
source strips.

How the chunker is divided: `PlanBlocks` says which blocks travel together and by which of three paths they leave the
accumulators; `Render` says which texts such a group becomes. The token bound, the conservation of text and the tie
between chunks and source blocks are invariants of the plan, combined with one lemma per path.

How concurrency is modelled: every `with self._lock` section of the router is one step, with the self-check and the
encode between steps; the bridge takes one step per access to the queue, the stop flag, the drop counter or the
writer. Runs are arbitrary sequences of steps, so every interleaving of any number of threads is covered. The router's
class and its steps share the same state functions; that the steps, taken without interruption, are the methods is
shown by `RouteIsAtomic` and `RegistrationIsAtomic` for the router and by `PutIsAtomic`, `TurnIsAtomic` and
`StopIsAtomic` for the bridge.

## Where the code and its documentation differ

Each of these has a lemma at an input that shows the difference, and a theorem that says exactly when the promise holds.

- `_split_large_block` (rag/ekrs_rag/ingestion/chunker.py:567-580) and the comment in `_split_text_two_phase` (:768-769)
  promise at most `max_tokens` tokens. Counting per fragment rounds down per fragment, so two fragments can pass the
  budget and join to one token more. Exact condition, in the width of the lines that are split:
  `Splitting.SplitPromiseHoldsIff` for texts, `Tables.TablePromiseHoldsIff` for tables split by rows,
  `Tables.LargePromiseHoldsIff` for both; inputs: `Splitting.OverrunLineOverruns`, `Tables.OverrunTableOverruns`. What
  always holds: `2M - 1`.
- `_hard_cut` (:177-179) says rejoining the fragments rebuilds the text. It does exactly when no piece is blank:
  `Cutting.FragmentsKeepText`; input: `Cutting.BlankHalfIsLost`.
- `_find_safe_boundary` (:134-137), like the module header (:3-6), says a cut inside a number is made before the number
  and not at its decimal point. A number after a letter or one that reaches beyond the window can be cut at its point,
  which counts as a safe character (:100), and so can a number cut inside its unit; merging refuses to rejoin them.
  Exact conditions: `Cutting.NumberKeptWholeIff`, `Cutting.CutKeepsNumberIff`, `Cutting.UnitKeptWholeIff`; inputs:
  `Cutting.NumberIsCutAtPoint`, `Cutting.UnitIsCutAtPoint`, `Splitting.NumberStaysSplit`.
- `chunk_blocks` (:807-811) says a scope change ends a group. The flush before a table (:862-876) keeps a blank group
  pending, and the table then overwrites the scope, so a chunk can name a block from under another heading. Such a block
  is always blank: `ShownLaws.FaithfulChunk`. Exact condition, document by document: `ScopeLaws.ChunksKeepScopeIff`; by
  the blank text: `SourceLaws.ScopeKeptIff`; input: `SourceLaws.StrayingBreaks`.
- `try_register_gpu` (rag/ekrs_rag/services/encoding_router.py:123-125) says the first outcome is kept. A forced
  re-registration clears the flag even while a self-check is running (:208-210); then two run at once, and the outcome
  of the older can overwrite that of the newer. Exact conditions: `RouterRuns.ChecksKeptApartIff`,
  `RouterRuns.ChecksKeptApartWithinIff`; input: `RouterRuns.OlderCheckCanWin`.
- `stop` (rag/ekrs_rag/observability/audit_bridge.py:144-145) says the drain thread exits only when the queue is empty.
  It exits on the flag alone (:280). Exact condition, known when `stop` is called: `BridgeRuns.StopHandsAllIff`, and
  `AuditBridge.StopEmptiesIff` for a stop that is not interrupted; input: `BridgeRuns.StopCanLoseEvents`.
- `solve` reports a finite open end as if there were none (rag/ekrs_rag/constraint_engine/solver.py:215-222). Exact
  condition: `SolverLaws.ReportedRangeIsExactIff`; input: `SolverLaws.OpenEndIsNotReported`.
- `_ensure_v2` is for backward compatibility (solver.py:51) but does not carry conditions over (:117-128), so an
  old-style constraint is always solved in the general branch: `SolverLaws.ConversionKeepsBranchIff`; input:
  `SolverLaws.ConversionLeavesBranch`.

Two more things the code does that a reader may not expect:

- `parse_interval` tells duplicates by their ends without looking at inclusiveness (rag/ekrs_rag/constraint_engine/parser.py:270-279,
  as its comment says), so a stricter interval can be dropped. When nothing is lost: `Conversion.ParseKeepsMeaningIff`
  and `Conversion.KeyKeepsMeaningIff`; input: `Conversion.StricterDuplicateIsLost`.
- `_LRUCache.get` removes an expired entry (rag/ekrs_rag/retrieval/embedding_service.py:143), although the comment above
  it (:138-141) says stale entries are not removed there.

## Model

| member | source | states |
|---|---|---|
| Cutting.EstimateTokens | rag/ekrs_rag/ingestion/chunker.py:43-49 | about four characters a token, at least one, rounding down by at most three characters |
| Cutting.FindSafeBoundary | rag/ekrs_rag/ingestion/chunker.py:117-165 | both backward scans find the boundary the specification names |
| Cutting.SafeBoundaryIsSafe | rag/ekrs_rag/ingestion/chunker.py:117-165 | the boundary lies in the window and follows a safe character, or stays put because the window has none |
| Cutting.NumberKeptWholeIff | rag/ekrs_rag/ingestion/chunker.py:134-156 | the cut is made before the number it would land in iff the number starts inside the window and follows a safe character, or holds none itself and has one before it |
| Cutting.CutKeepsNumberIff | rag/ekrs_rag/ingestion/chunker.py:196-223 | the same condition, within the piece, for the cuts of the loop |
| Cutting.UnitKeptWholeIff | rag/ekrs_rag/ingestion/chunker.py:158-165 | a number with its unit, cut inside the unit, is kept whole iff it holds no safe character so far and one lies before it in the window |
| Cutting.UnitIsCutAtPoint | rag/ekrs_rag/ingestion/chunker.py:3-6 | a number cut inside its unit is parted at its decimal point although a space lies in the window |
| Cutting.NumberIsCutAtPoint | rag/ekrs_rag/ingestion/chunker.py:134-137 | a number after a letter is cut at its decimal point although a space lies in the window |
| Cutting.HardCut | rag/ekrs_rag/ingestion/chunker.py:168-230 | terminates and returns the non-blank pieces of the cut, or the text itself if short enough |
| Cutting.PiecesPartition | rag/ekrs_rag/ingestion/chunker.py:192-230 | the pieces, blank ones included, are consecutive runs of 1 to max_chars characters that make up the text |
| Cutting.FragmentsKeepText | rag/ekrs_rag/ingestion/chunker.py:177-179 | every visible character survives once and in order; the fragments rebuild the text iff no piece is blank |
| Cutting.BlankHalfIsLost | rag/ekrs_rag/ingestion/chunker.py:225-227 | a text whose second half is blank comes back without it |
| Cutting.CutsAreJustified | rag/ekrs_rag/ingestion/chunker.py:196-223 | each cut is an unflagged hard cut, falls after a safe character, or is a hard cut with no usable safe position |
| Cutting.SafeCutsKeepAtoms | rag/ekrs_rag/ingestion/chunker.py:87-114 | in ASCII text a cut after a safe character parts no letters or digits from each other; only a point from its digit |
| Cutting.CharacterMeaning | rag/ekrs_rag/ingestion/chunker.py:255-281 | the digits of both widths and the ASCII letters, by name |
| Text.SpaceMeaning | rag/ekrs_rag/ingestion/chunker.py:97-98 | the whitespace that counts as safe and is stripped, by name |
| Text.StripTakesEnds | rag/ekrs_rag/ingestion/chunker.py:588-588 | stripping takes blank ends off and nothing else |
| Text.SqueezeNext | rag/ekrs_rag/ingestion/chunker.py:177-179 | the measure by which texts are compared drops the whitespace and keeps every other character in order |
| Cutting.PairMeaning | rag/ekrs_rag/ingestion/chunker.py:261-282 | the pairs refused at a seam are those of a letter with a letter or digit, or of a digit with a point; a cut also looks back between two digits |
| Cutting.SafeAsciiMeaning | rag/ekrs_rag/ingestion/chunker.py:97-101 | among ASCII the safe characters are the listed punctuation and whitespace, by name |
| Cutting.SafeClasses | rag/ekrs_rag/ingestion/chunker.py:102-114 | ideographs and fullwidth forms are safe, ASCII letters and digits are not |
| Cutting.UnflaggedCutStays | rag/ekrs_rag/ingestion/chunker.py:196-223 | a cut that parts neither such a pair nor two digits stays at full width |
| Cutting.FlaggedCutMoves | rag/ekrs_rag/ingestion/chunker.py:196-223 | a cut that would part letters, digits or a decimal is moved if the window holds a safe character, and not past a later one unless to the start of a number |
| Merging.TryMergeFragments | rag/ekrs_rag/ingestion/chunker.py:289-341 | the loop returns the concatenated greedy groups of the non-blank fragments |
| Merging.GreedyGroupingIsUnique | rag/ekrs_rag/ingestion/chunker.py:309-336 | the result is the only division into consecutive groups that joins only where allowed and never stops a group early |
| Merging.MergeKeepsText | rag/ekrs_rag/ingestion/chunker.py:313-341 | the merged texts concatenate to the non-blank fragments |
| Merging.MergeMeaning | rag/ekrs_rag/ingestion/chunker.py:289-341 | the texts are runs of the fragments: no seam inside a run parts letters, digits or a decimal, each run keeps the budget, and none could have taken the next fragment |
| Merging.MergedTokenBound | rag/ekrs_rag/ingestion/chunker.py:326-331 | a text merged from k >= 2 fragments has at most M + floor(3k/4) tokens, and k <= M |
| Merging.MergeCanOverrun | rag/ekrs_rag/ingestion/chunker.py:326-331 | fragments of 4p+3 and 4(M-p)+1 characters pass the budget M and join to M+1 tokens |
| Splitting.SplitTextTwoPhase | rag/ekrs_rag/ingestion/chunker.py:743-793 | the line loop yields the texts of every non-blank line, cut and merged, with their counts, scope and sources |
| Splitting.SplitKeepsText | rag/ekrs_rag/ingestion/chunker.py:768-791 | splitting keeps every visible character, once and in order |
| Splitting.SplitHasNoBreak | rag/ekrs_rag/ingestion/chunker.py:768-777 | no text of a split holds a line break |
| Splitting.SplitTokenBound | rag/ekrs_rag/ingestion/chunker.py:768-777 | no text comes out blank and none exceeds 2M - 1 tokens |
| Splitting.NumberStaysSplit | rag/ekrs_rag/ingestion/chunker.py:3-6 | the number cut at its point stays split in the texts, as merging refuses the seam |
| Splitting.ShortLinesFit | rag/ekrs_rag/ingestion/chunker.py:768-769 | lines of at most 4M+3 characters yield texts within M |
| Splitting.OverrunLineOverruns | rag/ekrs_rag/ingestion/chunker.py:768-777 | for every M >= 2 a line of 4M+4 characters comes out as one text of M+1 tokens |
| Splitting.SplitPromiseHoldsIff | rag/ekrs_rag/ingestion/chunker.py:768-769 | the promised bound of M tokens holds for lines up to a width iff M is 1 or the width is at most 4M+3 |
| Tables.EmitBuffer | rag/ekrs_rag/ingestion/chunker.py:584-621 | the buffer becomes nothing, one chunk within the budget, or the two-phase split of the joined text |
| Tables.SplitTable | rag/ekrs_rag/ingestion/chunker.py:623-711 | the row loop, its final guard included, emits the packing of the data rows |
| Tables.TakeRow | rag/ekrs_rag/ingestion/chunker.py:642-704 | one turn of the row loop, with the count that is not reset before an oversized row |
| Tables.SplitLargeBlock | rag/ekrs_rag/ingestion/chunker.py:547-740 | tables with rows are packed, all else is split in two phases |
| Tables.PackPartitionsRows | rag/ekrs_rag/ingestion/chunker.py:642-711 | packets and force-split rows hold every data row once in order; exactly the rows over budget are force-split |
| Tables.PackInvariant | rag/ekrs_rag/ingestion/chunker.py:640-704 | the running character count bounds the header and rows, and stays within 4M once a second row is in |
| Tables.BufferLength | rag/ekrs_rag/ingestion/chunker.py:588-591 | header, rows and separators bound the stripped joined buffer |
| Tables.PacketIsOneChunk | rag/ekrs_rag/ingestion/chunker.py:692-711 | a packet of two or more rows is never force-split: one chunk within the budget at most |
| Tables.HeaderOnlyBeforeForced | rag/ekrs_rag/ingestion/chunker.py:646-653 | a header-only packet is emitted only with a header, right before an oversized row |
| Tables.TableKeepsText | rag/ekrs_rag/ingestion/chunker.py:584-711 | every visible character of the rows comes out in order, under the header once per packet |
| Tables.NarrowTableFits | rag/ekrs_rag/ingestion/chunker.py:567-580 | a table whose header and rows have lines of at most 4M+3 characters yields texts within M |
| Tables.OverrunTableOverruns | rag/ekrs_rag/ingestion/chunker.py:567-580 | for every M >= 2 a table of one row comes out as a text of M+1 tokens |
| Tables.TablePromiseHoldsIff | rag/ekrs_rag/ingestion/chunker.py:567-580 | for tables split by rows the promise holds up to a line width iff M is 1 or the width is at most 4M+3 |
| Tables.LargePromiseHoldsIff | rag/ekrs_rag/ingestion/chunker.py:567-580 | the same for every large block, however it is split |
| Tables.LargeTokenBound | rag/ekrs_rag/ingestion/chunker.py:547-740 | no text of a split block exceeds 2M - 1 tokens |
| PackingLaws.PacketsCloseForCause | rag/ekrs_rag/ingestion/chunker.py:643-704 | a packet is closed before another packet only because the next row did not fit the running count, a row joins only if it fits, and the bare header goes out only before an oversized row |
| PackingLaws.PackIsGreedy | rag/ekrs_rag/ingestion/chunker.py:686-701 | without oversized rows the packets are the one greedy division of the rows under header + rows + separators + next row + 1 <= 4M |
| PackingLaws.SmallTableIsOnePacket | rag/ekrs_rag/ingestion/chunker.py:691-711 | a table whose header and rows fit 4M together is one packet |
| PackingLaws.HeaderMeaning | rag/ekrs_rag/ingestion/chunker.py:58-62 | the header is the first row in one line, and there is none iff no cell of it counts as true |
| PackingLaws.FalseCellIsSkipped | rag/ekrs_rag/ingestion/chunker.py:62-62 | a cell that does not count as true leaves the header as if it were not there |
| PackingLaws.RowMeaning | rag/ekrs_rag/ingestion/chunker.py:644-644 | a data row shows all its cells in order, with a bar between them |
| PackingLaws.EmissionMeaning | rag/ekrs_rag/ingestion/chunker.py:584-617 | a packet within the budget comes out in one piece, stripped; one over it is broken into lines |
| ChunkerLaws.FlushKeepsText | rag/ekrs_rag/ingestion/chunker.py:407-441 | a flush shows every visible character of the parts in one text without space at its ends, or nothing if they show nothing |
| Chunker.RouteAccumulatedGroup | rag/ekrs_rag/ingestion/chunker.py:444-511 | a group with an unsafe seam or a join over budget is split, any other is flushed whole |
| Chunker.ChunkBlocks | rag/ekrs_rag/ingestion/chunker.py:796-1000 | the five accumulators and three boundaries produce the rendered groups of the plan |
| Chunker.StandaloneBlock | rag/ekrs_rag/ingestion/chunker.py:859-913 | boundary 1: flush unless blank, then the table or key-value block alone |
| Chunker.TextBlock | rag/ekrs_rag/ingestion/chunker.py:915-958 | boundaries 2 and 3 send the pending group through the checked route |
| Chunker.AccumulateBlock | rag/ekrs_rag/ingestion/chunker.py:960-996 | accumulation, and the split of a single block over budget |
| SendingLaws.TextClosesGroup | rag/ekrs_rag/ingestion/chunker.py:913-958 | when a text block changes the heading or does not fit, the chunks of the pending group are its whole text if no neighbours meet in letters, digits or a decimal and the join keeps the budget, and hold no line break otherwise; with short lines each has at most M tokens |
| SendingLaws.TextJoinsGroup | rag/ekrs_rag/ingestion/chunker.py:945-998 | a text block under the same heading that fits joins the pending group, and nothing is sent |
| SendingLaws.TextOpensGroup | rag/ekrs_rag/ingestion/chunker.py:960-996 | with nothing pending a text block within the budget waits and a larger one is broken into lines at once |
| SendingLaws.StandaloneFlushes | rag/ekrs_rag/ingestion/chunker.py:859-911 | before a table or key-value block the pending group comes out whole, unless it shows nothing and stays; the block comes out verbatim within the budget |
| SendingLaws.SmallBlockIsOneChunk | rag/ekrs_rag/ingestion/chunker.py:895-902 | a table or key-value block within the budget is one chunk: its preview, or its raw text without one, under its own heading, naming it |
| SendingLaws.EndFlushes | rag/ekrs_rag/ingestion/chunker.py:990-1000 | at the end the pending group comes out whole |
| SendingLaws.EmptyBlockIsSkipped | rag/ekrs_rag/ingestion/chunker.py:849-857 | a block without text changes nothing |
| SendingLaws.MadeStays | rag/ekrs_rag/ingestion/chunker.py:849-1000 | chunks once made begin the chunks of every longer document |
| SendingLaws.RouteIsChecked | rag/ekrs_rag/ingestion/chunker.py:444-511 | the checked route keeps a group whole or breaks it at every line, depending on its seams and its join |
| ChunkerLaws.PlanWithinBudget | rag/ekrs_rag/ingestion/chunker.py:849-996 | the sum of the pending estimates stays within M through every flush path |
| ChunkerLaws.ChunkTokenBound | rag/ekrs_rag/ingestion/chunker.py:796-1000 | for every document, M >= 1 and counter, each chunk has at most 2M - 1 tokens |
| ChunkerLaws.TokenBoundIsAttained | rag/ekrs_rag/ingestion/chunker.py:990-998 | M blocks of seven characters become one chunk of exactly 2M - 1 tokens |
| ChunkerLaws.RoutePromiseHoldsIff | rag/ekrs_rag/ingestion/chunker.py:487-511 | under the default counter the checked route keeps M for all groups with joined lines up to a width iff M is 1 or the width is at most 4M+3 |
| ChunkerLaws.RoutedLineOverruns | rag/ekrs_rag/ingestion/chunker.py:487-511 | for every M >= 2 a group of one line is routed and comes out with M+1 tokens |
| ChunkerLaws.GroupKeepsText | rag/ekrs_rag/ingestion/chunker.py:425-511 | whichever path a group takes, its chunks show the visible characters of its blocks |
| ChunkerLaws.LeftBehindIsBlank | rag/ekrs_rag/ingestion/chunker.py:862-876 | the flush before a table leaves only blank blocks pending |
| ChunkerLaws.PlanKeepsText | rag/ekrs_rag/ingestion/chunker.py:849-996 | what has been sent on and what is pending is what has been read |
| ChunkerLaws.ChunksKeepText | rag/ekrs_rag/ingestion/chunker.py:796-1000 | without row-split tables no text is lost, doubled or moved from blocks to chunks |
| ChunkerLaws.ChunksKeepInk | rag/ekrs_rag/ingestion/chunker.py:796-1000 | the same for every document, a row-split table contributing its rows in order under each packet's header |
| ShownLaws.PlanKeepsShown | rag/ekrs_rag/ingestion/chunker.py:849-996 | in every plan each gathered or pending block that shows text is under the scope of its group |
| ShownLaws.GroupsKeepShown | rag/ekrs_rag/ingestion/chunker.py:849-1000 | the groups of every document hold its visible blocks, once and in order, under their own headings |
| ShownLaws.ChunksComeFromRuns | rag/ekrs_rag/ingestion/chunker.py:849-1000 | the chunks of every document come from consecutive runs of its visible blocks in order, tables alone; without lingering blank texts the runs hold nothing else |
| ShownLaws.FaithfulChunk | rag/ekrs_rag/ingestion/chunker.py:407-441 | each chunk of every document names blocks of it, and one from under another heading shows nothing; without lingering blank texts there is none |
| ShownLaws.VisibleBlockIsCovered | rag/ekrs_rag/ingestion/chunker.py:849-1000 | every block with visible text is named by a chunk under its own heading path, in every document |
| SourceLaws.StrayingBreaks | rag/ekrs_rag/ingestion/chunker.py:862-913 | a blank text, a table and a text yield a chunk that names a block from under another heading |
| SourceLaws.ScopeKeptIff | rag/ekrs_rag/ingestion/chunker.py:807-811 | scopes are kept on all documents with a given blank text iff that text is empty, visible, or fills the budget |
| ScopeLaws.GroupsKeepScopeIff | rag/ekrs_rag/ingestion/chunker.py:859-998 | for every document, all groups that become chunks hold only blocks from under their heading iff no shown text joins a pending block from under another |
| ScopeLaws.ChunksKeepScopeIff | rag/ekrs_rag/ingestion/chunker.py:807-811 | for every document with distinct block ids, each chunk's scope is the heading of all its blocks iff the same holds |
| ScopeLaws.StraysNeedBlankAndTable | rag/ekrs_rag/ingestion/chunker.py:862-913 | without blank text blocks, or without table and key-value blocks, a document has no such text |
| EncodingRouter.Router.constructor | rag/ekrs_rag/services/encoding_router.py:85-99 | starts with no channel and no registration |
| EncodingRouter.Router.RecordTransition | rag/ekrs_rag/services/encoding_router.py:238-268 | channel, count by reason and event, together |
| EncodingRouter.Router.ClaimRegistration | rag/ekrs_rag/services/encoding_router.py:129-132 | claims the self-check once |
| EncodingRouter.Router.FinishRegistration | rag/ekrs_rag/services/encoding_router.py:136-146 | takes the outcome, recording only a change |
| EncodingRouter.Router.Transition | rag/ekrs_rag/services/encoding_router.py:223-236 | records only an actual change |
| EncodingRouter.Router.ClearRegistration | rag/ekrs_rag/services/encoding_router.py:208-209 | clears the flag and nothing else |
| EncodingRouter.Router.TryRegisterGpu | rag/ekrs_rag/services/encoding_router.py:115-146 | idempotent: the first outcome is kept, and the answer is whether the channel is the GPU |
| EncodingRouter.Router.ForceReRegisterGpu | rag/ekrs_rag/services/encoding_router.py:201-210 | the channel becomes what the new self-check says |
| EncodingRouter.Router.Route | rag/ekrs_rag/services/encoding_router.py:150-199 | encodes on the GPU iff registered, not overloaded and successful; only a failure changes state, logged as unavailable or as an encode error |
| RouterRuns.StepKeepsInv | rag/ekrs_rag/services/encoding_router.py:129-146 | every step of every thread keeps the chain, the counts and the truth of the literal "gpu" passed by route |
| RouterRuns.RunKeepsInv | rag/ekrs_rag/services/encoding_router.py:115-268 | the invariant holds after every run |
| RouterRuns.EventsFormChain | rag/ekrs_rag/services/encoding_router.py:183-196 | in every interleaving events form a chain from "unknown" to the current channel, none standing still |
| RouterRuns.NoFlapping | rag/ekrs_rag/services/encoding_router.py:223-236 | between two falls from GPU to CPU there is a passed self-check |
| RouterRuns.EventsAlternate | rag/ekrs_rag/services/encoding_router.py:223-236 | consecutive events alternate between GPU and CPU |
| RouterRuns.StepEvents | rag/ekrs_rag/services/encoding_router.py:136-199 | a self-check that changes the channel logs that it passed or failed, an encode that raises on the GPU logs unavailable or an encode error, and no other step logs anything or changes the channel |
| RouterRuns.EventHasStep | rag/ekrs_rag/services/encoding_router.py:136-199 | each event of a run was logged by one step of it, with the reason that step has |
| RouterRuns.RouteIsAtomic | rag/ekrs_rag/services/encoding_router.py:150-199 | the steps of an uninterrupted route are the method |
| RouterRuns.RegistrationIsAtomic | rag/ekrs_rag/services/encoding_router.py:129-146 | the steps of an uninterrupted registration are the method |
| RouterRuns.SwitchCountsAreExact | rag/ekrs_rag/services/encoding_router.py:255-259 | the counts by reason are those of the events and sum to their number |
| RouterRuns.SelfChecksAreBounded | rag/ekrs_rag/services/encoding_router.py:201-210 | at most one self-check plus one per forced re-registration that was entered |
| RouterRuns.OrderlyRunsKeepChecksApart | rag/ekrs_rag/services/encoding_router.py:129-146 | if the flag is cleared only between self-checks, one runs at a time and outcomes are taken in the order the checks began |
| RouterRuns.ChecksKeptApartIff | rag/ekrs_rag/services/encoding_router.py:129-146 | at every point of a run a registration finds no other self-check running iff the flag was never cleared during one |
| RouterRuns.UnforcedRunsKeepFirst | rag/ekrs_rag/services/encoding_router.py:123-125 | without a forced re-registration one outcome at most is ever taken |
| RouterRuns.ChecksKeptApartWithinIff | rag/ekrs_rag/services/encoding_router.py:123-125 | over all runs with at most f forced re-registrations checks stay apart, outcomes in order and the first is kept, each iff f is 0 |
| RouterRuns.OlderCheckCanWin | rag/ekrs_rag/services/encoding_router.py:208-210 | a run with two self-checks at once, in which the older outcome overwrites the newer |
| AuditBridge.Bridge.constructor | rag/ekrs_rag/observability/audit_bridge.py:82-108 | starts empty, not stopped |
| AuditBridge.Bridge.Start | rag/ekrs_rag/observability/audit_bridge.py:114-128 | clears the stop flag for a new thread, or changes nothing while one is alive |
| AuditBridge.Bridge.Put | rag/ekrs_rag/observability/audit_bridge.py:180-199 | the event is enqueued last iff it can be sent and the queue has room, or counted as dropped |
| AuditBridge.Bridge.RecordDrop | rag/ekrs_rag/observability/audit_bridge.py:207-209 | counts one |
| AuditBridge.Bridge.DrainTurn | rag/ekrs_rag/observability/audit_bridge.py:278-305 | one turn hands over the oldest event, or ends on the stop flag |
| AuditBridge.Bridge.Stop | rag/ekrs_rag/observability/audit_bridge.py:134-174 | sets the flag, hands over in order as many events as the deadline allows, leaves the rest and lets the thread go |
| AuditBridge.Bridge.DrainInline | rag/ekrs_rag/observability/audit_bridge.py:151-164 | the inline drain loop |
| AuditBridge.StopEmptiesIff | rag/ekrs_rag/observability/audit_bridge.py:141-164 | undisturbed, stop hands everything over iff it has time for as many turns as events are queued |
| AuditBridge.StopKeepsOrder | rag/ekrs_rag/observability/audit_bridge.py:141-174 | a stop takes from the front of the queue, one event per turn, and loses or reorders nothing |
| AuditBridge.TurnKeepsOrder | rag/ekrs_rag/observability/audit_bridge.py:278-305 | a drain turn moves the oldest event to the writer unless stopped, and loses or reorders nothing |
| BridgeRuns.StepKeepsInv | rag/ekrs_rag/observability/audit_bridge.py:134-305 | every step keeps the counts, each taken event in exactly one place, and the order before the stop |
| BridgeRuns.RunKeepsInv | rag/ekrs_rag/observability/audit_bridge.py:134-305 | the invariant holds after every run |
| BridgeRuns.PutsAreConserved | rag/ekrs_rag/observability/audit_bridge.py:180-199 | puts are the enqueued, the dropped and those about to be counted |
| BridgeRuns.QueueIsBounded | rag/ekrs_rag/observability/audit_bridge.py:180-199 | in no run does a bounded queue hold more than its bound |
| BridgeRuns.HandedAtMostOnce | rag/ekrs_rag/observability/audit_bridge.py:278-305 | each enqueued event reaches the writer at most once, in order until the stop |
| BridgeRuns.DrainTakesAtMostOneLate | rag/ekrs_rag/observability/audit_bridge.py:280-282 | after the stop flag the drain thread takes at most one event |
| BridgeRuns.CleanStopHandsAll | rag/ekrs_rag/observability/audit_bridge.py:147-164 | a stop that finds the queue empty, with no later put, leaves it empty and everything handed over exactly once |
| BridgeRuns.StopHandsAllIff | rag/ekrs_rag/observability/audit_bridge.py:144-145 | wherever stop is called, every run with time for n turns hands all over iff n is at least the backlog, less one if the drain thread is in a get that will not raise |
| BridgeRuns.StopBalance | rag/ekrs_rag/observability/audit_bridge.py:147-164 | with events enqueued meanwhile too, all are handed over iff the turns and the late get add up to the backlog and those events |
| BridgeRuns.AfterIsRun | rag/ekrs_rag/observability/audit_bridge.py:134-305 | continuing a run gives a run |
| BridgeRuns.StopCanLoseEvents | rag/ekrs_rag/observability/audit_bridge.py:144-145 | a run in which an enqueued event is never handed over |
| BridgeRuns.RunsAreReachable | rag/ekrs_rag/observability/audit_bridge.py:134-305 | in every run the queue and the written events are those the methods' view describes |
| BridgeRuns.PutIsAtomic | rag/ekrs_rag/observability/audit_bridge.py:180-199 | the steps of an uninterrupted producer are the method |
| BridgeRuns.TurnIsAtomic | rag/ekrs_rag/observability/audit_bridge.py:278-305 | the steps of an uninterrupted drain turn are the method |
| BridgeRuns.StopIsAtomic | rag/ekrs_rag/observability/audit_bridge.py:147-164 | the steps of an uninterrupted stop are the method |
| Intervals.Meet | rag/ekrs_rag/constraint_engine/solver.py:419-421 | the intersection has exactly the common members |
| Intervals.SameMembers | rag/ekrs_rag/constraint_engine/solver.py:212-214 | canonical intervals with the same members are equal, so emptiness is decided by form |
| Conversion.RangeToInterval | rag/ekrs_rag/constraint_engine/solver.py:454-496 | the interval holds exactly what the bounds allow |
| Conversion.NormalizeKeepsOrder | shared/ekrs_shared/normalizer.py:14-28 | normalising a temperature is strictly monotone |
| Conversion.UnitMeaning | shared/ekrs_shared/normalizer.py:20-32 | C, F and K name the units in either case, with or without a degree sign |
| Conversion.NormalizeMeaning | shared/ekrs_shared/normalizer.py:14-28 | 32 F is 0, 212 F is 100, 273.15 K is 0; differences scale by 5/9 and by 1 |
| Conversion.ConversionKeepsMeaning | rag/ekrs_rag/constraint_engine/solver.py:50-115 | a reading satisfies an old-style constraint iff its image lies in the converted interval, for every operator and unit |
| Conversion.EveryReadingHasAnImage | shared/ekrs_shared/normalizer.py:14-28 | every temperature in degrees Celsius is the image of a reading |
| Conversion.ConversionIsExact | rag/ekrs_rag/constraint_engine/solver.py:88-115 | the converted interval is exactly the set of images of the readings that satisfy the constraint |
| Conversion.ConvertedMeaning | rag/ekrs_rag/constraint_engine/solver.py:88-115 | y is in the converted interval iff 9y/5 + 32, y + 273.15 or y, by the unit, satisfies the comparison or lies in the range |
| Conversion.HintMeaning | rag/ekrs_rag/constraint_engine/parser.py:284-334 | the same for the interval parsed from a hint |
| Conversion.RoutesAgree | rag/ekrs_rag/constraint_engine/parser.py:242-334 | for every temperature hint the parser and the conversion build the same interval, from the pair of a range or the hint's number |
| Conversion.ParseInterval | rag/ekrs_rag/constraint_engine/parser.py:212-281 | one interval per key, that of the first hint with it, in the order of the hints |
| Conversion.KeptIff | rag/ekrs_rag/constraint_engine/parser.py:270-279 | a hint is kept iff none before it has the same parameter, ends and unit |
| Conversion.KeptAreListed | rag/ekrs_rag/constraint_engine/parser.py:227-281 | the list holds the intervals of the kept hints, in order |
| Conversion.DroppedHintHasKept | rag/ekrs_rag/constraint_engine/parser.py:270-279 | a hint dropped as a duplicate has the ends of one that is kept |
| Conversion.DuplicateIsHarmlessIff | rag/ekrs_rag/constraint_engine/parser.py:270-279 | dropping one of two intervals with the same ends loses nothing iff it includes every end the kept one includes |
| Conversion.KeyKeepsMeaningIff | rag/ekrs_rag/constraint_engine/parser.py:270-279 | the hints of one key lose nothing, whatever else is parsed, iff none is stricter than the first |
| Conversion.ParseKeepsMeaningIff | rag/ekrs_rag/constraint_engine/parser.py:227-281 | the returned intervals allow together what all intervals found allow iff every end some hint excludes is ruled out by a hint that is kept |
| Conversion.StricterDuplicateIsLost | rag/ekrs_rag/constraint_engine/parser.py:270-279 | ">= v" then "> v" lets v through |
| Solver.SolveParameter | rag/ekrs_rag/constraint_engine/solver.py:358-451 | the loop over the sorted constraints computes the folded intersection |
| Solver.ApplyAllMeaning | rag/ekrs_rag/constraint_engine/solver.py:384-430 | after any prefix the interval is the feasible set and the conflict flag its emptiness |
| Solver.SolveIsExact | rag/ekrs_rag/constraint_engine/solver.py:358-511 | x is in the result iff something applies and x satisfies all that does; conflict iff something applies and no real does; confidence is the least |
| Solver.SolveIgnoresOrder | rag/ekrs_rag/constraint_engine/solver.py:367-371 | interval, conflict flag and conflict-free confidence do not depend on order or repetition |
| Branches.GroupBy | rag/ekrs_rag/constraint_engine/solver.py:176-193 | keys in order of first appearance, each with its constraints in input order |
| Branches.SolveBranch | rag/ekrs_rag/constraint_engine/solver.py:195-229 | answers and conflicts of a branch are exactly the outcomes of its parameters |
| Branches.SolveAll | rag/ekrs_rag/constraint_engine/solver.py:164-253 | branches, conflicts, status and primary branch are exactly those of the group outcomes |
| GroupingLaws.BranchMeaning | rag/ekrs_rag/constraint_engine/solver.py:343-355 | the branch is what the first environment or condition that counts as true says, or "general" |
| GroupingLaws.GroupMembers | rag/ekrs_rag/constraint_engine/solver.py:176-193 | a constraint is solved for (branch, name) iff it is in the input, its normalised name is that name and its conditions name that branch |
| GroupingLaws.SolutionMeaning | rag/ekrs_rag/constraint_engine/solver.py:164-253 | a branch and name are answered iff such constraints apply and some real satisfies all, and in conflict iff they apply and none does |
| GroupingLaws.SynonymsConflict | rag/ekrs_rag/constraint_engine/solver.py:192-229 | two applicable constraints of one branch with one normalised name that no real satisfies together are reported as a conflict |
| GroupingLaws.AnswersHaveMembers | rag/ekrs_rag/constraint_engine/solver.py:197-229 | every name answered in a branch is the normalised name of an input constraint of that branch |
| GroupingLaws.StatusMeaning | rag/ekrs_rag/constraint_engine/solver.py:231-245 | conflict iff some branch and name clash, nothing iff no constraint applies, otherwise OK with an answer; no primary branch iff no answer |
| GroupingLaws.PrimaryMeaning | rag/ekrs_rag/constraint_engine/solver.py:242-245 | the primary branch is the general one if answered, otherwise the answered branch that appears first |
| GroupingLaws.UnitMeaning | rag/ekrs_rag/constraint_engine/solver.py:367-409 | the reported unit is that of the applicable constraint of lowest rank, the last given among equals |
| SolverLaws.SolveAllIgnoresOrder | rag/ekrs_rag/constraint_engine/solver.py:138-253 | status, answers, ranges, confidences and conflicts do not depend on order or repetition |
| SolverLaws.FateOfGroup | rag/ekrs_rag/constraint_engine/solver.py:201-229 | answered iff satisfiable, conflicting iff not, passed over iff nothing applies |
| SolverLaws.EveryGroupHasOneFate | rag/ekrs_rag/constraint_engine/solver.py:197-240 | each branch and parameter lands in the answers, in the conflicts, or nowhere, and the status fits |
| SolverLaws.ReportedRangeIsSound | rag/ekrs_rag/constraint_engine/solver.py:215-222 | every feasible value lies in the reported range |
| SolverLaws.ReportedRangeIsExactIff | rag/ekrs_rag/constraint_engine/solver.py:215-222 | the reported range is the feasible set iff no applicable constraint excludes the tightest lower or upper end |
| SolverLaws.OpenEndIsNotReported | rag/ekrs_rag/constraint_engine/solver.py:215-222 | "below v" alone is reported without bounds |
| SolverLaws.OldConstraintMeaning | rag/ekrs_rag/constraint_engine/solver.py:81-128 | an old-style constraint alone allows exactly its own readings where its scope applies, always in the general branch |
| SolverLaws.ConversionKeepsBranchIff | rag/ekrs_rag/constraint_engine/solver.py:117-128 | conversion keeps the branch iff the constraint's own conditions give the general one |
| SolverLaws.ConversionLeavesBranch | rag/ekrs_rag/constraint_engine/solver.py:117-128 | a constraint conditioned on an environment leaves its branch |
| Recency.LastUsedNoRepeats | rag/ekrs_rag/retrieval/embedding_service.py:116-125 | the reference order lists every used key once |
| Recency.RecentMeaning | rag/ekrs_rag/retrieval/embedding_service.py:116-125 | the most recently used keys are as many as the capacity allows, in order of last use, and every other used key was last used before each of them |
| Recency.ExpireHolds | rag/ekrs_rag/retrieval/embedding_service.py:142-144 | removing an expired key keeps the rest the most recently used |
| Recency.UseHolds | rag/ekrs_rag/retrieval/embedding_service.py:149-157 | a store with eviction keeps the most recently used |
| Recency.HitHolds | rag/ekrs_rag/retrieval/embedding_service.py:145-147 | a hit keeps the most recently used |
| EmbeddingCache.LRUCache.constructor | rag/ekrs_rag/retrieval/embedding_service.py:129-132 | starts empty |
| EmbeddingCache.LRUCache.Get | rag/ekrs_rag/retrieval/embedding_service.py:134-147 | a hit moves its key last, an expired entry is removed and missed |
| EmbeddingCache.LRUCache.Put | rag/ekrs_rag/retrieval/embedding_service.py:149-157 | the key goes last, the oldest make room |
| EmbeddingCache.LRUCache.Clear | rag/ekrs_rag/retrieval/embedding_service.py:159-163 | empties the cache and returns how many entries it held |
| EmbeddingCache.StoredKeepsLast | rag/ekrs_rag/retrieval/embedding_service.py:149-157 | a store keeps the last capacity keys, with their entries unchanged |
| EmbeddingCache.LookMeaning | rag/ekrs_rag/retrieval/embedding_service.py:134-147 | a lookup hits iff the key is held and its entry is no older than the time to live; an older one is removed, and a hit makes none younger |
| EmbeddingCache.StoredIsFound | rag/ekrs_rag/retrieval/embedding_service.py:142-157 | what is stored is found later exactly until its time to live has passed |
| EmbeddingCache.EncodeInSubBatches | rag/ekrs_rag/retrieval/onnx_bge_m3.py:258-282 | sub-batching is invisible: row i is the model's encoding of text i, every call but the last has the cap's size, and together they encode each text once |
| EmbeddingCache.EmbeddingService.constructor | rag/ekrs_rag/retrieval/embedding_service.py:195-208 | starts with an empty cache |
| EmbeddingCache.EmbeddingService.Encode | rag/ekrs_rag/retrieval/embedding_service.py:295-345 | result i is the model's encoding of text i, whatever the cache held, with no holes; the model is called for the misses alone, in calls of the cap's size |
| EmbeddingCache.EmbeddingService.LookUp | rag/ekrs_rag/retrieval/embedding_service.py:319-327 | hits fill their slots, misses are noted in order |
| EmbeddingCache.EmbeddingService.FillMisses | rag/ekrs_rag/retrieval/embedding_service.py:329-340 | misses are encoded together, stored in order and fill the remaining slots |
| EmbeddingCache.EmbeddingService.FlushCache | rag/ekrs_rag/retrieval/embedding_service.py:347-354 | empties the cache |
| EmbeddingCache.EncodedIsSound | rag/ekrs_rag/retrieval/embedding_service.py:319-340 | every cached vector stays the model's vector of its text |
| EmbeddingCache.BatchIsRecent | rag/ekrs_rag/retrieval/embedding_service.py:319-340 | after a batch the cache holds the most recently used keys, the batch counting as its hits then its misses |
| EmbeddingCache.RunsKeepRecency | rag/ekrs_rag/retrieval/embedding_service.py:116-163 | over any run and clock the keys are exactly the capacity most recently used, in order of last use |
| EmbeddingCache.SingleTextUse | rag/ekrs_rag/retrieval/embedding_service.py:321-327 | a single text is one use of its key, whether hit, missed or expired |
| RankFusion.ReciprocalRankFusion | rag/ekrs_rag/retrieval/rank_fusion.py:43-123 | the loops compute the fused list and the statistics; no lists or no damping give nothing |
| RankFusion.Tally | rag/ekrs_rag/retrieval/rank_fusion.py:83-94 | the dictionaries hold the scores and first items of all keys read |
| RankFusion.FirstsCover | rag/ekrs_rag/retrieval/rank_fusion.py:91-93 | the first items cover all keys, each once |
| RankFusion.FirstsAreFirst | rag/ekrs_rag/retrieval/rank_fusion.py:91-93 | the representative of a key is its first item |
| RankFusion.FusionIsExact | rag/ekrs_rag/retrieval/rank_fusion.py:83-103 | the duplicate-free union, each with the sum of 1/(k + best rank), descending, ties in order of appearance |
| RankFusion.FusionIsMonotone | rag/ekrs_rag/retrieval/rank_fusion.py:48-48 | an item ranked no worse in every list never scores lower, and scores higher if better in one |
| RankFusion.StatsPartitionUnion | rag/ekrs_rag/retrieval/rank_fusion.py:32-36 | for two lists the three counts sum to the size of the union |
| Retriever.ScopePriorityRange | rag/ekrs_rag/retrieval/retriever.py:292-320 | the authority lies between 0 and 1 and the boost never lowers it |
| Retriever.Unite | rag/ekrs_rag/retrieval/retriever.py:164-169 | the union keeps the first chunk of each key |
| Retriever.FilterScope | rag/ekrs_rag/retrieval/retriever.py:199-211 | with an active scope exactly the chunks under it pass, with their scores |
| Retriever.Retrieve | rag/ekrs_rag/retrieval/retriever.py:157-219 | both paths and the degraded one return the ranked candidates, aligned, with the right statistics |
| Retriever.CandidatesAreEligible | rag/ekrs_rag/retrieval/retriever.py:171-192 | short circuit and fusion carry the same representative of each key |
| Retriever.RetrievedChunks | rag/ekrs_rag/retrieval/retriever.py:160-219 | the result is exactly the eligible chunks in scope, each key once |
| Retriever.RetrievedChunkIsFirst | rag/ekrs_rag/retrieval/retriever.py:164-211 | each retrieved chunk is the first of its key, contains the query if any chunk does, and is in scope |
| Retriever.ResultIsRanked | rag/ekrs_rag/retrieval/retriever.py:352-360 | the lists are aligned, final scores descend, equal scores keep their order |
| RankingLaws.TypeAuthority | rag/ekrs_rag/retrieval/retriever.py:42-49 | the document type decides: 1.0 national, 0.8 industry, 0.6 enterprise and lot checklists, 0.4 any other |
| RankingLaws.ScopeAuthority | rag/ekrs_rag/retrieval/retriever.py:32-34 | without one the head of the scope path does, in either case: 1.0, 0.8, 0.6, 0.4, 0.2 for reference; 0 without a path |
| RankingLaws.BoostedAuthority | rag/ekrs_rag/retrieval/retriever.py:314-319 | with the boost it is the largest of its own, 0.9 for form fields and 0.7 for column headers |
| RankingLaws.RankedIff | rag/ekrs_rag/retrieval/retriever.py:202-219 | the scored chunks that are ranked are the candidates in scope, with or without full-text search |
| RankingLaws.FinalScoreMeaning | rag/ekrs_rag/retrieval/retriever.py:352-360 | each final score is the retrieval score plus that score times the authority |
| RankingLaws.OutrankingComesFirst | rag/ekrs_rag/retrieval/retriever.py:355-358 | of two results the larger final score comes first; of two with equal positive retrieval score the one with more authority |
| RankingLaws.MatchScore | rag/ekrs_rag/retrieval/retriever.py:174-185 | when some hit contains the query every candidate scores 1 |
| RankingLaws.FusedScore | rag/ekrs_rag/retrieval/retriever.py:187-193 | otherwise a candidate scores 1/(61 + i) for its place i in each list, added up |
| RankingLaws.MatchMeaning | rag/ekrs_rag/retrieval/retriever.py:334-350 | a chunk matches iff its text holds the stripped query, which is not empty |
| RankingLaws.ScopeMeaning | rag/ekrs_rag/retrieval/retriever.py:199-211 | a chunk is in scope iff none is active or its path is not empty and begins with the active one |
| RankingLaws.KeyMeaning | rag/ekrs_rag/retrieval/retriever.py:322-332 | chunks with ids are one hit iff the ids are equal, chunks without iff they begin with the same block of the same document |
| RankingLaws.RetrievedIff | rag/ekrs_rag/retrieval/retriever.py:157-219 | a chunk is retrieved iff it is the first hit of its key, contains the query or no such hit does, and is in scope |
| RankingLaws.StatsMeaning | rag/ekrs_rag/retrieval/rank_fusion.py:105-121 | the counts are the sizes of the key sets of both lists: common keys, and the rest of each |

## Left out

- Cutting.EstimateTokens: digits outside ASCII and the fullwidth forms are not digits here, and character classes are those of the ranges written out in the model.
- Cutting.FindSafeBoundary: the window is a fifth of the position exactly; the source rounds a float product.
- Cutting.HardCut: max_chars below 1 raises in the source and is excluded here, as is max_tokens below 1 throughout the chunker.
- Chunker.ChunkBlocks: document hash, version, page numbers, form fields, column headers, document type and the quality flag are carried along unchanged by the source and are not modelled.
- Tables.SplitTable: rows are lists; headers parsed from the markdown preview are not modelled, nor the token counter of the row loop, which is never read.
- ShownLaws.VisibleBlockIsCovered: leaves out tables split along their rows; their rows are covered by Tables.PackPartitionsRows.
- EncodingRouter.Router.Route: an empty list of texts, the CPU encoding itself, the time of the last switch and the delivery of the events are not modelled; a depth provider that fails counts as depth 0.
- AuditBridge.Bridge.Stop: waiting for the thread has no effect in the model, and the transport behind the queue is not modelled.
- BridgeRuns.CleanStopHandsAll: the interleaved model has a writer, one drain thread and one call of stop, without a restart; a writer that raises has still been handed the event.
- SolverLaws.OldConstraintMeaning: a pair with a comparison operator is excluded outside temperatures, where the source builds bounds that are pairs and no numbers.
- Conversion.ConversionKeepsMeaning: the same pairs are excluded.
- Conversion.ConversionIsExact: the same pairs are excluded.
- SolverLaws.SolveAllIgnoresOrder: the reported unit is that of the last applied constraint and may depend on order; it is not claimed.
- Branches.SolveAll: evidence and trace are not modelled; parameter synonyms are an arbitrary function.
- Conversion.ParseInterval: finding the operator near a hint is a parameter, and so is the scaling of units other than temperatures.
- The soft fallback of the solver: it solves the constraints of reference priority by the same function; the other half of its split is never used.
- EmbeddingCache.EmbeddingService.Encode: the hash is an injective function, the model is fixed and encodes row by row; dummy mode and loading are not modelled.
- Retriever.Retrieve: the searches, their failures, hint extraction and the audit event are not modelled; a chunk with neither id nor block, for which the source raises, is excluded when full-text search is on.
- Rounding of floats, everywhere: scores, confidences, bounds and clocks are reals.
- HTTP, SQL, vector store, metrics, user interface, model inference and the operators' scripts.
