# JAILA core, modelled in Dafny

JAILA is a retrieval system for Danish tax law. This project models the part
of it that turns statute text into retrievable units and relates those units
to one another, and it proves what that code promises.

- **Statute chunker** (`multihop_rag/chunker/chunkerlbkg.py`). Raw lines are
  cleaned (`clean_paragraph`). Footnote lines become a footnote table
  (`parse_notes`). A single pass (`extract_chunks`) cuts the law into chunks
  at every paragraph (`§`), subsection (`Stk.`) and item (`nr.`) boundary,
  then sorts item numbers and writes headings. `(n)` footnote markers are
  removed with their offsets and context recorded
  (`remove_note_references`, `clean_text_for_display`). The embedding text
  is built from a context prefix (`create_embedding_text`). A chunk is split
  into a paragraph chunk and one footnote chunk per footnote, linked both
  ways (`process_chunk_with_notes`).
- **Relation graphs.** There are four graph classes:
  - the granular `EnhancedTaxLawGraph`, whose hierarchical relations are
    queued and materialised by `finalize_hierarchical_relations`;
  - its smaller twin in `test_enhanced_graph.py`, whose queue is never
    cleared;
  - the strategy file's `TaxLawGraph`, which queues but never materialises;
  - `graph_retriever.py`'s `TaxLawGraph`, with a lazily rebuilt adjacency
    cache and a breadth-first traversal with a visited set.

  The two demonstrations are modelled as well.
- **Building support** (`graph_retriever_strategy.py`).
  - `BatchingStrategy` groups paragraphs by chapter under a token budget,
    with overlapping split batches.
  - The relation helpers read paragraph ids, guess a chapter of
    Ligningsloven, and validate, deduplicate and score model-proposed
    relations.
  - `_validate_and_optimize_graph` runs its passes in order: orphan
    removal, deduplication, consistency checks, edge scoring, pruning to
    the top 80 %, the connectivity count, and same-chapter gap filling.
- **Retrieval.** `GraphRetriever.get_graph_enhanced_results` widens search
  results with related paragraphs.
- **Utilities.**
  - The keyword classifier `find_entity_type` over `ENTITY_TYPES`.
  - The text splitter `split_text_into_chunks`.
  - The query recognisers `detect_chunk_id` and `detect_paragraph_references`
    from `simple_search.py`.

Each source class whose methods update fields in place is a Dafny `class`.
Its maps and lists are fields that the methods reassign. Each loop is a
`method` proved against a specification function, and the promised
properties are lemmas about those functions. Pure helpers are functions.

Some representation choices run through the whole model:
- Strings are `seq<char>`.
- Random `uuid4` chunk ids are drawn from a counter: the caller passes the
  first free id and gets back the next one. This makes freshness provable.
- Float scores, strengths and confidences are integer hundredths.
- Each regular expression is written out as a scanner over characters.
- Python dicts whose iteration order matters are kept as association lists
  or as a map plus an insertion-order sequence.

## Model

| member | source | states |
|---|---|---|
| NoteMarkers.MarkerEnd | multihop_rag/chunker/chunkerlbkg.py:80 | a marker found at `i` is `(`, one or more digits and `)`, at least three characters, inside the text |
| NoteMarkers.MarkerEndFinds | multihop_rag/chunker/chunkerlbkg.py:80 | every `(`, one or more digits and `)` at `i` is the marker found there, ending right after the `)` |
| NoteMarkers.HitsFrom | multihop_rag/chunker/chunkerlbkg.py:80-81 | every marker the left-to-right, non-overlapping scan meets lies inside the text |
| NoteMarkers.RemoveNoteReferences | multihop_rag/chunker/chunkerlbkg.py:66-110 | the scanning loop returns the text with every marker removed and one reference per marker, as the definitions give them |
| NoteMarkers.RemoveNoteReferencesRoundTrip | multihop_rag/chunker/chunkerlbkg.py:66-110 | putting each marker back at its recorded offset in the clean text restores the original text: nothing but the markers is lost |
| NoteMarkers.ReinsertRefsFrom | multihop_rag/chunker/chunkerlbkg.py:80-103 | the round trip holds for every suffix the scan resumes at |
| NoteMarkers.HitsFromOrdered | multihop_rag/chunker/chunkerlbkg.py:85-97 | the scan meets markers at non-decreasing clean-text offsets that lie within the clean text |
| NoteMarkers.HitsFromMarkers | multihop_rag/chunker/chunkerlbkg.py:80-82 | every hit is a `(digits)` marker of the text |
| NoteMarkers.RecordsFields | multihop_rag/chunker/chunkerlbkg.py:81-98 | each reference carries its marker's digits as note number, `note_<chunk>_<number>` as note id, and the clean-text offset of the marker |
| NoteMarkers.RefsFromOffsetsOrdered | multihop_rag/chunker/chunkerlbkg.py:95-97 | the recorded `char_offset`s are non-decreasing and never beyond the clean text's length |
| NoteMarkers.RefsFromNumbers | multihop_rag/chunker/chunkerlbkg.py:82-96 | each reference has a non-empty digit string as number and the note id derived from it |
| NoteMarkers.MarkerNumbersAreRefs | multihop_rag/chunker/chunkerlbkg.py:283 | `findall` over the same pattern yields exactly the note numbers of the references, in order |
| NoteMarkers.NoParenUnchanged | multihop_rag/chunker/chunkerlbkg.py:66-110 | text without `(` is returned unchanged with no reference |
| NoteMarkers.StripShortens | multihop_rag/chunker/chunkerlbkg.py:181-186 | removing markers only deletes, at least three characters per recorded reference |
| NoteMarkers.StripNotIdempotent | multihop_rag/chunker/chunkerlbkg.py:181-186 | `clean_text_for_display` is not idempotent: `((1)2)` becomes `(2)`, which a second pass empties |
| NoteMarkers.MarkerContext | multihop_rag/chunker/chunkerlbkg.py:91-99 | a marker's stored context is the slice of the text holding the whole marker and at most 30 characters on either side of it |
| Chunker.CleanParagraphNormal | multihop_rag/chunker/chunkerlbkg.py:197-198 | a cleaned line has single spaces as its only whitespace and no whitespace at either end |
| Chunker.CleanParagraphIdempotent | multihop_rag/chunker/chunkerlbkg.py:197-198 | cleaning a cleaned line changes nothing |
| Chunker.ParseNote | multihop_rag/chunker/chunkerlbkg.py:190-194 | a footnote line yields a non-empty digit string taken from its leading `(digits)` marker, and a stripped text |
| Chunker.ParseNotesKeys | multihop_rag/chunker/chunkerlbkg.py:188-195 | a number is in the footnote table exactly when some line parses to it |
| Chunker.ParseNotesLast | multihop_rag/chunker/chunkerlbkg.py:188-195 | the text stored for a number is that of the last line defining it |
| Chunker.ParagraphLabel | multihop_rag/chunker/chunkerlbkg.py:258-263 | a paragraph line starts with `§`, and its label is `§ ` followed by the digits (and letters, if any) |
| Chunker.StkNumber | multihop_rag/chunker/chunkerlbkg.py:292-294 | a subsection line starts with `Stk.` and yields a non-empty digit string |
| Chunker.ItemNumber | multihop_rag/chunker/chunkerlbkg.py:324-325 | an item line starts with its number, a non-empty digit string |
| Chunker.FirstItemPart | multihop_rag/chunker/chunkerlbkg.py:328-334 | the part found is the first part from the given index on that is an item; none is found only when no such part exists |
| Chunker.FindItem | multihop_rag/chunker/chunkerlbkg.py:321-335 | a line without an item is kept whole; an item number found is a non-empty digit string |
| Chunker.PutNote | multihop_rag/chunker/chunkerlbkg.py:283-286 | storing a footnote keeps the keys distinct and adds nothing but the stored pair |
| Chunker.AddNotesKeeps | multihop_rag/chunker/chunkerlbkg.py:283-286 | copying referenced footnotes keeps the keys distinct and every stored text equal to the footnote table's |
| Chunker.ParagraphLineNotRepealed | multihop_rag/chunker/chunkerlbkg.py:280-281 | the repeal test can never succeed on a paragraph line, which starts with `§` |
| Chunker.InsertByKey | multihop_rag/chunker/chunkerlbkg.py:392-394 | inserting one number keeps the numeric order and adds exactly that element |
| Chunker.SortNumeric | multihop_rag/chunker/chunkerlbkg.py:392-394 | `sorted(nr, key=int)` is a permutation of its input in non-decreasing numeric order |
| Chunker.SortNumericSmall | multihop_rag/chunker/chunkerlbkg.py:392-394 | a list of at most one number is already sorted |
| Chunker.FinalizeShaped | multihop_rag/chunker/chunkerlbkg.py:392-402 | finalizing keeps a chunk's id and shape and writes the heading `§ …, stk. S` or `§ …, stk. S, nr. N` |
| Chunker.ExtractChunks | multihop_rag/chunker/chunkerlbkg.py:227-404 | the loop and the two closing passes produce the chunks and id counter the line-by-line definition gives |
| Chunker.ConsumeLine | multihop_rag/chunker/chunkerlbkg.py:243-385 | one loop iteration moves the state exactly as one step of the definition |
| Chunker.ConsumeParagraph | multihop_rag/chunker/chunkerlbkg.py:251-287 | a paragraph line emits the open chunk and opens the paragraph's chunk, as the definition says |
| Chunker.ConsumeBody | multihop_rag/chunker/chunkerlbkg.py:292-385 | a subsection, item or continuation line moves the state as the definition says |
| Chunker.FinalizeAll | multihop_rag/chunker/chunkerlbkg.py:392-402 | each chunk is replaced by its sorted, headed version, and no chunk is added or dropped |
| Chunker.SortAllItems | multihop_rag/chunker/chunkerlbkg.py:392-394 | each chunk's item numbers are sorted; nothing else changes |
| Chunker.WriteHeadings | multihop_rag/chunker/chunkerlbkg.py:396-402 | each chunk gets its heading; nothing else changes |
| Chunker.OpenShaped | multihop_rag/chunker/chunkerlbkg.py:265-278 | a newly opened chunk has one subsection, at most one item and a `§ ` paragraph label |
| Chunker.StepItemInv | multihop_rag/chunker/chunkerlbkg.py:337-377 | an item line keeps the chunking invariant (consecutive ids, one subsection, at most one item per chunk) |
| Chunker.StepTextInv | multihop_rag/chunker/chunkerlbkg.py:247-385 | every kind of cleaned line keeps the chunking invariant |
| Chunker.StepInv | multihop_rag/chunker/chunkerlbkg.py:242-385 | one loop iteration keeps the chunking invariant |
| Chunker.RunInv | multihop_rag/chunker/chunkerlbkg.py:242-385 | the invariant holds after any number of lines |
| Chunker.FlushedShaped | multihop_rag/chunker/chunkerlbkg.py:387-390 | the final flush emits the open chunk after the others, every chunk shaped and numbered in order |
| Chunker.ExtractChunksShape | multihop_rag/chunker/chunkerlbkg.py:227-404 | every chunk opened is emitted once, in order, with consecutive ids, exactly one subsection, at most one item, status `gældende`, footnotes from the table and its heading |
| Chunker.NoParagraphNoChunks | multihop_rag/chunker/chunkerlbkg.py:289-290 | with no paragraph line there are no chunks |
| Chunker.SectionLineKeepsChunks | multihop_rag/chunker/chunkerlbkg.py:247-249 | a part header only sets the section |
| Chunker.ParagraphNotSection | multihop_rag/chunker/chunkerlbkg.py:234-236 | a paragraph line is never a part header |
| Chunker.ParagraphLineOpensChunk | multihop_rag/chunker/chunkerlbkg.py:251-287 | a paragraph line emits the open chunk and opens one with subsection `1`, no item, status `gældende` and the line as text |
| ChunkNotes.EmbeddingTextEnds | multihop_rag/chunker/chunkerlbkg.py:113-179 | the embedding text ends with the chunk's text stripped of markers and cleaned, preceded by `: ` exactly when there is context |
| ChunkNotes.EmbeddingTextStarts | multihop_rag/chunker/chunkerlbkg.py:136-179 | the embedding text starts with the title, or, without a title, with the paragraph reference |
| ChunkNotes.FindNoteChunkFirst | multihop_rag/chunker/chunkerlbkg.py:1167-1174 | the search finds a footnote chunk exactly when one has the number, and then the first such |
| ChunkNotes.ProcessSpec | multihop_rag/chunker/chunkerlbkg.py:1043-1183 | no chunk gives no units; a chunk gives its paragraph chunk followed by one footnote unit per footnote |
| ChunkNotes.ProcessChunkWithNotes | multihop_rag/chunker/chunkerlbkg.py:1043-1183 | the loops produce the units the definition gives and draw exactly one fresh id per footnote |
| ChunkNotes.AppendNoteUnits | multihop_rag/chunker/chunkerlbkg.py:1179-1181 | the footnote chunks are appended after the paragraph chunk, in order |
| ChunkNotes.BuildNoteChunks | multihop_rag/chunker/chunkerlbkg.py:1097-1152 | one footnote chunk per footnote, in the footnotes' order, with consecutive fresh ids |
| ChunkNotes.LinkNoteReferences | multihop_rag/chunker/chunkerlbkg.py:1164-1174 | each marker reference is linked as the definition says |
| ChunkNotes.FirstMatch | multihop_rag/chunker/chunkerlbkg.py:1167-1174 | the search stops at the first footnote chunk with the number |
| ChunkNotes.NoteChunksAt | multihop_rag/chunker/chunkerlbkg.py:1097-1152 | the k-th footnote chunk has id `firstId + k`, the k-th footnote's number and tagged text, and names the paragraph chunk |
| ChunkNotes.ProcessParts | multihop_rag/chunker/chunkerlbkg.py:1063-1183 | the paragraph chunk keeps its id, lists the footnote chunk ids, drops its footnotes when there were any, and carries the linked references |
| ChunkNotes.ProcessShape | multihop_rag/chunker/chunkerlbkg.py:1043-1183 | the result is empty exactly for no chunk; otherwise the paragraph chunk comes first, then one footnote chunk per footnote in order, with its number and tagged text |
| ChunkNotes.ProcessLinksSymmetric | multihop_rag/chunker/chunkerlbkg.py:1125-1161 | every footnote chunk names the paragraph chunk, and the paragraph chunk lists exactly the footnote chunks' ids in order; an empty footnote table is kept as it was |
| ChunkNotes.ProcessFreshIds | multihop_rag/chunker/chunkerlbkg.py:1116 | footnote chunk ids are fresh: all distinct and distinct from the paragraph chunk's |
| ChunkNotes.ProcessRefsResolve | multihop_rag/chunker/chunkerlbkg.py:1163-1174 | each marker reference points at the first footnote chunk with its number, and at none exactly when no footnote chunk has it |
| Walks.Across | graph_retriever/enhanced_graph_retriever_strategy.py:188-195 | a usable edge at `v` leads to its other end, the source test first |
| Walks.PendingAppend | graph_retriever/enhanced_graph_retriever_strategy.py:180-195 | queuing an entry adds exactly what the walk from it collects |
| Walks.QueueWeightAppend | graph_retriever/enhanced_graph_retriever_strategy.py:180-195 | the queue's termination weight grows by the new entry's weight |
| Walks.Expand | graph_retriever/enhanced_graph_retriever_strategy.py:188-195 | expanding an entry below the depth limit adds to `related` and the queue exactly what the walk from it collects, and lowers the queue's weight |
| Walks.Visit | graph_retriever/enhanced_graph_retriever_strategy.py:189-195 | one edge of the expansion moves its far end into `related` and the queue, as the walk's definition says |
| Walks.Explore | graph_retriever/enhanced_graph_retriever_strategy.py:177-198 | the FIFO loop collects exactly the walk of at most `max_depth` edges from the seed |
| Walks.FromHas | graph_retriever/enhanced_graph_retriever_strategy.py:188-195 | the far end of every usable edge at `v`, and all the walk collects from it, is collected |
| Walks.FromHasOnly | graph_retriever/enhanced_graph_retriever_strategy.py:188-195 | whatever the expansion collects is the far end of some usable edge at `v`, or collected from it |
| Walks.ReachIsWithin | graph_retriever/enhanced_graph_retriever_strategy.py:173-198 | the walk collects exactly the ends of walks of 1 to `k` edges, each edge crossed in either direction |
| Walks.ReachToWithin | graph_retriever/enhanced_graph_retriever_strategy.py:173-198 | every collected id ends a walk of at most `k` edges |
| Walks.WithinToReach | graph_retriever/enhanced_graph_retriever_strategy.py:173-198 | every end of a walk of at most `k` edges is collected |
| Walks.ReachMonotone | graph_retriever/enhanced_graph_retriever_strategy.py:173-198 | a larger depth limit never collects less |
| Walks.WithinMonotone | graph_retriever/enhanced_graph_retriever_strategy.py:173-198 | a walk within `k` edges is within any larger limit |
| Walks.WithinVia | graph_retriever/enhanced_graph_retriever_strategy.py:188-195 | one edge followed by a walk of at most `k - 1` edges is a walk of at most `k` |
| Walks.SeedReturned | graph_retriever/enhanced_graph_retriever_strategy.py:188-195 | with two levels, any usable edge at the seed brings the seed back into the result |
| Walks.Endpoints | graph_retriever/enhanced_graph_retriever_strategy.py:188-195 | the endpoints include both ends of every usable edge |
| Walks.ReachInEndpoints | graph_retriever/enhanced_graph_retriever_strategy.py:173-198 | the walk only collects endpoints of usable edges |
| EnhancedGraph.GranularityLevel | graph_retriever/enhanced_graph_retriever_strategy.py:77-84 | paragraph 1, stykke 2, nummer 3, anything else 0 |
| EnhancedGraph.QueuedFor | graph_retriever/enhanced_graph_retriever_strategy.py:86-129 | at most two relations, both targeting the entity: a parent relation exactly for a stykke or nummer with a truthy parent, a `stk_to_nr` relation exactly for a nummer with truthy stykke and paragraph numbers, with the built `§P, stk. S` id as source |
| EnhancedGraph.HierEdges | graph_retriever/enhanced_graph_retriever_strategy.py:144-155 | each finalized relation becomes an auto-generated hierarchical edge with the same ends |
| EnhancedGraph.HierEdgesAppend | graph_retriever/enhanced_graph_retriever_strategy.py:137-155 | the edges of a longer queue extend those of the shorter |
| EnhancedGraph.KeepResolvable | graph_retriever/enhanced_graph_retriever_strategy.py:137-155 | the loop keeps exactly the relations whose ends are both nodes, and appends their edges |
| EnhancedGraph.FinalizeNotIdempotent | graph_retriever/enhanced_graph_retriever_strategy.py:131-158 | finalizing twice keeps the same relations but appends their edges a second time |
| EnhancedGraph.Links | graph_retriever/enhanced_graph_retriever_strategy.py:188-190 | the walk sees an edge as usable exactly when hierarchical edges are included or the edge is not auto-generated |
| EnhancedGraph.Children | graph_retriever/enhanced_graph_retriever_strategy.py:215-219 | the children are exactly the targets of auto-generated hierarchical edges leaving the entity |
| EnhancedGraph.EnhancedTaxLawGraph.constructor | graph_retriever/enhanced_graph_retriever_strategy.py:31-41 | a new graph is empty |
| EnhancedGraph.EnhancedTaxLawGraph.AddLegalEntityNode | graph_retriever/enhanced_graph_retriever_strategy.py:43-75 | stores or overwrites the node, keeps node order, leaves the edges alone and queues the entity's hierarchical relations |
| EnhancedGraph.EnhancedTaxLawGraph.QueueHierarchicalRelations | graph_retriever/enhanced_graph_retriever_strategy.py:86-129 | appends the relations `QueuedFor` gives; nothing else changes |
| EnhancedGraph.EnhancedTaxLawGraph.FinalizeHierarchicalRelations | graph_retriever/enhanced_graph_retriever_strategy.py:131-158 | keeps in the queue exactly the relations with both ends nodes, appends an edge for each and returns their number |
| EnhancedGraph.EnhancedTaxLawGraph.AddRelation | graph_retriever/enhanced_graph_retriever_strategy.py:160-171 | appends one content edge with the given fields, refusing neither a self-loop nor an unknown endpoint |
| EnhancedGraph.EnhancedTaxLawGraph.GetRelatedEntities | graph_retriever/enhanced_graph_retriever_strategy.py:173-198 | the ids the walk of at most `max_depth` edges collects, skipping auto-generated edges unless asked; nothing for `max_depth <= 0` |
| EnhancedGraph.EnhancedTaxLawGraph.GetEntityHierarchy | graph_retriever/enhanced_graph_retriever_strategy.py:200-225 | `None` exactly for an unknown id, else the node's type, level, parent and children |
| EnhancedGraph.EnhancedTaxLawGraph.GetStatistics | graph_retriever/enhanced_graph_retriever_strategy.py:227-253 | hierarchical and content edges add up to all edges, and the node-type counts, one key per type, add up to the number of nodes |
| EnhancedGraph.DistinctKeysCount | graph_retriever/enhanced_graph_retriever_strategy.py:234-237 | a duplicate-free listing of the node ids is as long as the node map |
| EnhancedGraph.DistinctSetSize | graph_retriever/enhanced_graph_retriever_strategy.py:234-237 | a duplicate-free list has as many elements as its set |
| EnhancedGraph.AddDemoStykke | graph_retriever/enhanced_graph_retriever_strategy.py:341-349 | adding a stykke adds its node and queues one parent relation |
| EnhancedGraph.AddDemoParagraph | graph_retriever/enhanced_graph_retriever_strategy.py:341-349 | adding a paragraph and its two stykker queues exactly the two parent relations |
| EnhancedGraph.DemoReach | graph_retriever/enhanced_graph_retriever_strategy.py:403-410 | the walk over the demonstration's seven edges reaches all six entities within two edges of the first stykke |
| EnhancedGraph.BuildDemoGraph | graph_retriever/enhanced_graph_retriever_strategy.py:262-349 | the six demonstration entities are nodes, no edge exists yet and four parent relations are queued |
| EnhancedGraph.DemoQueueSplit | graph_retriever/enhanced_graph_retriever_strategy.py:341-349 | the two paragraphs' queued relations together form the demonstration queue |
| EnhancedGraph.DemoLinks | graph_retriever/enhanced_graph_retriever_strategy.py:351-387 | the demonstration's edges as the walk sees them |
| EnhancedGraph.FinalizeDemo | graph_retriever/enhanced_graph_retriever_strategy.py:351-353 | finalizing the demonstration graph turns all four queued relations into edges and returns 4 |
| EnhancedGraph.RunDemo | graph_retriever/enhanced_graph_retriever_strategy.py:256-410 | for any six distinct entity ids the demonstration finalizes 4 relations and the depth-2 walk returns all six |
| EnhancedGraph.DemoWithRealData | graph_retriever/enhanced_graph_retriever_strategy.py:256-420 | finalize returns 4 and the depth-2 walk from the first stykke of paragraph 15 O returns six ids, the seed among them |
| StrategyGraph.Links | graph_retriever/graph_retriever_strategy.py:290-303 | the walk sees every edge as usable, with the same ends |
| StrategyGraph.TaxLawGraph.constructor | graph_retriever/graph_retriever_strategy.py:199-203 | a new graph is empty |
| StrategyGraph.TaxLawGraph.AddParagraphNode | graph_retriever/graph_retriever_strategy.py:205-230 | stores or overwrites the node and queues its hierarchical relations; the edges are not touched |
| StrategyGraph.TaxLawGraph.CreateHierarchicalRelations | graph_retriever/graph_retriever_strategy.py:232-270 | appends the relations the enhanced graph's rules give; nothing else changes |
| StrategyGraph.TaxLawGraph.AddRelation | graph_retriever/graph_retriever_strategy.py:272-281 | appends one edge carrying the graph's law |
| StrategyGraph.TaxLawGraph.GetRelatedParagraphs | graph_retriever/graph_retriever_strategy.py:283-306 | exactly the ends of walks of 1 to `max_depth` edges from the paragraph; nothing for `max_depth <= 0` |
| StrategyGraph.RelatedParagraphsHaveSeed | graph_retriever/graph_retriever_strategy.py:283-306 | with depth two or more, an edge at the paragraph brings the paragraph itself back |
| GraphRecords.Get | graph_retriever/enhanced_graph_retriever_strategy.py:48-52 | `metadata.get(key, default)`: the stored value when present, else the default |
| GraphRecords.Kept | graph_retriever/enhanced_graph_retriever_strategy.py:137-141 | the finalized relations are never more than the queued ones |
| GraphRecords.KeptMembers | graph_retriever/enhanced_graph_retriever_strategy.py:137-141 | exactly the queued relations with both endpoints among the node ids are kept |
| GraphRecords.KeptIdempotent | graph_retriever/enhanced_graph_retriever_strategy.py:131-158 | filtering the kept relations again drops nothing |
| GraphRecords.KeptAll | graph_retriever/enhanced_graph_retriever_strategy.py:137-141 | when every queued relation resolves, all are kept |
| GraphRecords.KeptAppend | graph_retriever/enhanced_graph_retriever_strategy.py:137-141 | one more queued relation is kept exactly when both its ends are nodes |
| GraphRecords.KeptPrefix | graph_retriever/enhanced_graph_retriever_strategy.py:137-141 | scanning one more queued relation extends the kept list by it exactly when both its ends are nodes |
| GraphRecords.AutoCount | graph_retriever/enhanced_graph_retriever_strategy.py:230 | the number of auto-generated edges is at most the number of edges |
| GraphRecords.AutoCountAppend | graph_retriever/enhanced_graph_retriever_strategy.py:230 | one more edge adds one to the count exactly when it is auto-generated |
| GraphRecords.Inc | graph_retriever/enhanced_graph_retriever_strategy.py:234-237 | bumping a type's count keeps every key where it was |
| GraphRecords.CountOfAbsent | graph_retriever/enhanced_graph_retriever_strategy.py:236 | a type without an entry counts 0 |
| GraphRecords.IncFacts | graph_retriever/enhanced_graph_retriever_strategy.py:236 | bumping an existing type adds one to that type's count, and to the total, and to nothing else |
| GraphRecords.InitFacts | graph_retriever/enhanced_graph_retriever_strategy.py:234-237 | dropping the last entry, which is not the bumped type's, keeps the keys distinct and the type present |
| GraphRecords.IncAtLast | graph_retriever/enhanced_graph_retriever_strategy.py:236 | bumping the last entry adds one to that type only |
| GraphRecords.IncBeforeLast | graph_retriever/enhanced_graph_retriever_strategy.py:236 | bumping an entry before the last carries over from the prefix |
| GraphRecords.BumpFacts | graph_retriever/enhanced_graph_retriever_strategy.py:236 | `node_types.get(t, 0) + 1` keeps keys distinct and adds one to `t`'s count and to the total |
| GraphRecords.TypeCountsFacts | graph_retriever/enhanced_graph_retriever_strategy.py:233-237 | the node-type table has one entry per distinct type holding the number of nodes of that type, and its counts add up to the number of nodes |
| GranularGraph.QueuedFor | graph_retriever/test_enhanced_graph.py:61-77 | at most one relation: from the parent to the entity, exactly for a stykke or nummer with a truthy parent |
| GranularGraph.RelEdges | graph_retriever/test_enhanced_graph.py:87-88 | the queued relation itself becomes an auto-generated edge |
| GranularGraph.RelEdgesAppend | graph_retriever/test_enhanced_graph.py:82-89 | the edges of a longer queue extend those of the shorter |
| GranularGraph.AppendResolvable | graph_retriever/test_enhanced_graph.py:79-91 | the loop appends the relations whose ends are both nodes and counts them |
| GranularGraph.ResolveOne | graph_retriever/test_enhanced_graph.py:83-89 | one relation is appended and counted exactly when both its ends are nodes |
| GranularGraph.EnhancedTaxLawGraph.constructor | graph_retriever/test_enhanced_graph.py:16-25 | a new graph is empty |
| GranularGraph.EnhancedTaxLawGraph.AddLegalEntityNode | graph_retriever/test_enhanced_graph.py:27-50 | stores or overwrites the node, keeps node order, leaves the edges alone and queues the parent relation |
| GranularGraph.EnhancedTaxLawGraph.QueueHierarchicalRelations | graph_retriever/test_enhanced_graph.py:61-77 | appends the relation `QueuedFor` gives; nothing else changes |
| GranularGraph.EnhancedTaxLawGraph.FinalizeHierarchicalRelations | graph_retriever/test_enhanced_graph.py:79-91 | appends every resolvable queued relation and returns their number; the queue is not cleared |
| GranularGraph.EnhancedTaxLawGraph.AddRelation | graph_retriever/test_enhanced_graph.py:93-102 | appends one content edge, never auto-generated |
| GranularGraph.EnhancedTaxLawGraph.GetStatistics | graph_retriever/test_enhanced_graph.py:104-122 | hierarchical and content edges add up to all edges, and the node-type counts, one key per type, add up to the number of nodes |
| GranularGraph.FinalizeTwice | graph_retriever/test_enhanced_graph.py:79-91 | a second finalize appends as many edges again, all auto-generated |
| GranularGraph.AutoCountRelEdges | graph_retriever/test_enhanced_graph.py:87-88 | every appended relation edge is auto-generated |
| GranularGraph.AddDemoParagraph | graph_retriever/test_enhanced_graph.py:190-195 | adding a new paragraph adds one node of type `paragraph` and queues nothing |
| GranularGraph.AddDemoStykke | graph_retriever/test_enhanced_graph.py:190-195 | adding a new stykke adds one node of type `stykke` and queues its parent relation |
| GranularGraph.BuildFirstParagraph | graph_retriever/test_enhanced_graph.py:144-195 | paragraph 15 O and its two stykker give three nodes and two queued relations |
| GranularGraph.BuildDemoGraph | graph_retriever/test_enhanced_graph.py:141-195 | the four entities give four nodes in order and three queued relations |
| GranularGraph.DemoKept | graph_retriever/test_enhanced_graph.py:199 | the relation to the missing paragraph 15 P is the one finalize drops |
| GranularGraph.DemoNodeTypes | graph_retriever/test_enhanced_graph.py:111-114 | the node types of the demonstration are one paragraph and three stykker |
| GranularGraph.FinalizeDemo | graph_retriever/test_enhanced_graph.py:198-200 | finalizing the demonstration graph returns 2 and appends the two relations inside paragraph 15 O |
| GranularGraph.DemoAutoCount | graph_retriever/test_enhanced_graph.py:108 | two hierarchical edges followed by two content edges hold two auto-generated edges |
| GranularGraph.RunDemo | graph_retriever/test_enhanced_graph.py:124-229 | for any distinct ids the demonstration finalizes 2 relations, and the statistics give 4 nodes (1 paragraph, 3 stykker) and 4 edges, 2 of each kind |
| GranularGraph.DemoStatistics | graph_retriever/test_enhanced_graph.py:225-229 | the statistics of the demonstration graph |
| GranularGraph.DemoProblemAndSolution | graph_retriever/test_enhanced_graph.py:124-247 | with the real ids: 2 relations finalized, 4 nodes (1 paragraph, 3 stykker), 4 edges, 2 of each kind |
| Batching.Extend | graph_retriever/graph_retriever_strategy.py:139-141 | appending to an existing chapter leaves the chapter keys as they were |
| Batching.InChapter | graph_retriever/graph_retriever_strategy.py:124-143 | the paragraphs filed under a chapter come from the input and have that chapter |
| Batching.FirstAppearance | graph_retriever/graph_retriever_strategy.py:139-140 | the distinct chapters in order of first appearance are exactly the chapters present |
| Batching.PlaceFacts | graph_retriever/graph_retriever_strategy.py:139-141 | filing a paragraph adds its chapter key only when new and grows only that chapter's list |
| Batching.GroupSpecKeys | graph_retriever/graph_retriever_strategy.py:124-143 | chapters come in first-appearance order, each key once |
| Batching.GroupSpecFirstAppearance | graph_retriever/graph_retriever_strategy.py:128-141 | the chapter keys are the distinct chapters in order of first appearance |
| Batching.FirstAppearanceDistinct | graph_retriever/graph_retriever_strategy.py:139-140 | no chapter key appears twice |
| Batching.GroupSpecContents | graph_retriever/graph_retriever_strategy.py:128-141 | each chapter holds exactly the paragraphs filed under it, in input order |
| Batching.GroupSpecHas | graph_retriever/graph_retriever_strategy.py:128-141 | every paragraph is filed under its own chapter |
| Batching.InChapterNone | graph_retriever/graph_retriever_strategy.py:128-141 | a chapter no paragraph has holds nothing |
| Batching.InChapterHas | graph_retriever/graph_retriever_strategy.py:128-141 | a paragraph is among those of its own chapter |
| Batching.GroupByChapter | graph_retriever/graph_retriever_strategy.py:124-143 | the loop builds the grouping the definition gives |
| Batching.EstimateTokens | graph_retriever/graph_retriever_strategy.py:145-149 | the estimate is the total number of characters divided by four, rounded down |
| Batching.OverlapStart | graph_retriever/graph_retriever_strategy.py:165 | the carried-over tail has at most two paragraphs, and exactly two when the batch has two or more |
| Batching.SplitChapter | graph_retriever/graph_retriever_strategy.py:151-188 | the loop produces the batches the definition gives |
| Batching.AddToSplit | graph_retriever/graph_retriever_strategy.py:157-179 | one iteration moves the state exactly as one step of the definition |
| Batching.SplitStepInv | graph_retriever/graph_retriever_strategy.py:157-179 | one step keeps the split invariant: the closed batches and the open one rejoin, less their carried tails, to the paragraphs seen |
| Batching.SplitCloseInv | graph_retriever/graph_retriever_strategy.py:162-175 | closing a batch keeps the split invariant |
| Batching.SplitGrowInv | graph_retriever/graph_retriever_strategy.py:176-179 | growing the open batch keeps the split invariant |
| Batching.SplitFoldInv | graph_retriever/graph_retriever_strategy.py:157-179 | the split invariant holds after any number of paragraphs |
| Batching.SplitSpecCovers | graph_retriever/graph_retriever_strategy.py:151-188 | the batches are non-empty, each later one opens with the last two (or fewer) paragraphs of the one before, and dropping those gives back the chapter, every paragraph once and in order |
| Batching.SplitFoldClosed | graph_retriever/graph_retriever_strategy.py:157-179 | every closed batch was closed because the next paragraph did not fit |
| Batching.SplitStepClosed | graph_retriever/graph_retriever_strategy.py:157-179 | one step keeps that closing invariant |
| Batching.SplitCloseClosed | graph_retriever/graph_retriever_strategy.py:162-175 | closing a batch records why it was closed |
| Batching.SplitGrowClosed | graph_retriever/graph_retriever_strategy.py:176-179 | growing the open batch keeps the last closed batch's reason |
| Batching.SplitSpecCloses | graph_retriever/graph_retriever_strategy.py:162 | a batch other than the last was closed only because adding the next batch's first new paragraph would exceed 15000 tokens |
| Batching.UnoverlappedMember | graph_retriever/graph_retriever_strategy.py:151-188 | a paragraph in the rejoined chapter lies in some batch |
| Batching.CreateBatches | graph_retriever/graph_retriever_strategy.py:94-122 | the loop produces the batches the definition gives for the grouped chapters |
| Batching.BatchesSpecHas | graph_retriever/graph_retriever_strategy.py:108-120 | every paragraph of a chapter lands in some batch |
| Batching.CreateBatchesCovers | graph_retriever/graph_retriever_strategy.py:94-122 | every input paragraph lands in at least one batch |
| Batching.BatchesSpecKinds | graph_retriever/graph_retriever_strategy.py:110-120 | a `full_chapter` batch is a whole chapter within the budget; a `chapter_split` batch comes from a chapter over it |
| Batching.SplitKinds | graph_retriever/graph_retriever_strategy.py:167-186 | every batch of a split chapter is a `chapter_split` batch |
| Batching.SplitFoldKinds | graph_retriever/graph_retriever_strategy.py:167-186 | every batch the split loop closes is a `chapter_split` batch |
| RelationChecks.MatchSection | graph_retriever/graph_retriever_strategy.py:475 | `re.match(r'§(\d+)')` matches exactly when the text starts with "§" and a digit, and then yields the whole maximal digit run after the "§" |
| RelationChecks.ExtractParagraphNumber | graph_retriever/graph_retriever_strategy.py:471-478 | a number is found exactly when the stripped id starts with "§" and a digit |
| RelationChecks.DigitsValueOfNatToString | graph_retriever/graph_retriever_strategy.py:464-466 | `int(str(n)) == n`, the step behind reading back a formatted paragraph number |
| RelationChecks.MatchSectionOf | graph_retriever/graph_retriever_strategy.py:475 | the pattern applied to "§" + digits + a non-digit rest yields exactly those digits |
| RelationChecks.ParagraphNumberOfFormatted | graph_retriever/graph_retriever_strategy.py:471-478 | extracting the number of an id formatted as `§<n>` followed by a non-digit rest gives back `n` |
| RelationChecks.ParseParagraphVariation | graph_retriever/graph_retriever_strategy.py:457-469 | an id without "§"+digit comes back unchanged with no variation; otherwise the base is `§` + the paragraph number without leading zeros, and a variation is a non-empty run of capitals |
| RelationChecks.Capitals | graph_retriever/graph_retriever_strategy.py:462-466 | the `([A-Z]*)` group, `None` when empty and otherwise non-empty capitals only |
| RelationChecks.VariationOfFormatted | graph_retriever/graph_retriever_strategy.py:457-469 | parsing `§<n><V><rest>` gives back base `§<n>` and variation `V` (none when `V` is empty) |
| RelationChecks.UnpaddedFormatted | graph_retriever/graph_retriever_strategy.py:462 | a formatted id has no surrounding whitespace for `strip()` to remove, and its digits end where the capitals begin |
| RelationChecks.CapitalRun | graph_retriever/graph_retriever_strategy.py:462 | the capital run at a position is exactly the capitals written there |
| RelationChecks.ExtractChapterInfo | graph_retriever/graph_retriever_strategy.py:413-446 | a `chapter` key wins, then a title containing "kapitel", and only a paragraph number can give a chapter otherwise |
| RelationChecks.ChapterFromTable | graph_retriever/graph_retriever_strategy.py:433-446 | without key or title, the chapter is the row of the Ligningsloven table covering the paragraph number, and `None` exactly when no row covers it |
| RelationChecks.ChapterTableContiguous | graph_retriever/graph_retriever_strategy.py:426-444 | the five chapter ranges run from paragraph 1 to paragraph 33 without gap or overlap |
| RelationChecks.ValidateAndFormatRelation | graph_retriever/graph_retriever_strategy.py:556-593 | a relation is accepted exactly when all five fields are present, the type and strength are allowed, both stripped endpoints start with "§" and differ; an accepted relation is well formed and keeps its type and strength |
| RelationChecks.ValidateFormatted | graph_retriever/graph_retriever_strategy.py:556-593 | every well-formed relation passes validation unchanged |
| RelationChecks.ValidateIdempotent | graph_retriever/graph_retriever_strategy.py:556-593 | validating an already validated relation returns it unchanged |
| RelationChecks.KeySet | graph_retriever/graph_retriever_strategy.py:601-609 | the `seen` set holds the key of every kept relation |
| RelationChecks.DeduplicateRelations | graph_retriever/graph_retriever_strategy.py:595-611 | the loop keeps the relations the deduplication definition keeps, in order |
| RelationChecks.DeduplicatedPrefix | graph_retriever/graph_retriever_strategy.py:604-609 | one more input relation is appended exactly when neither its key nor its reversed key has been seen |
| RelationChecks.KeySetSnoc | graph_retriever/graph_retriever_strategy.py:608 | keeping a relation adds exactly its key to `seen` |
| RelationChecks.DeduplicatedFacts | graph_retriever/graph_retriever_strategy.py:595-611 | only input relations are kept; no two kept relations share a key or are reversals of each other; every input relation's key or reversed key is covered |
| RelationChecks.DeduplicatedSubset | graph_retriever/graph_retriever_strategy.py:595-611 | every kept relation comes from the input |
| RelationChecks.DistinctSnoc | graph_retriever/graph_retriever_strategy.py:606-609 | appending an unseen relation keeps the kept keys pairwise distinct and non-reversed |
| RelationChecks.DeduplicatedDistinct | graph_retriever/graph_retriever_strategy.py:595-611 | no two kept relations share a key or are each other's reversal |
| RelationChecks.DeduplicatedCovers | graph_retriever/graph_retriever_strategy.py:595-611 | every input relation's key or reversed key is among the kept keys |
| RelationChecks.DeduplicatedIdempotent | graph_retriever/graph_retriever_strategy.py:595-611 | deduplicating a deduplicated list changes nothing |
| RelationChecks.DeduplicatedKeys | graph_retriever/graph_retriever_strategy.py:595-611 | every kept key is the key of an input relation |
| RelationChecks.FirstNotSeen | graph_retriever/graph_retriever_strategy.py:604-606 | a relation whose key and reversed key no earlier relation has is not yet seen, so it is kept |
| RelationChecks.DeduplicatedKeepsFirst | graph_retriever/graph_retriever_strategy.py:595-611 | the first relation with a given key or reversed key is the one kept |
| RelationChecks.DeduplicatedInOrder | graph_retriever/graph_retriever_strategy.py:595-611 | the kept relations are a subsequence of the input, in the input's order |
| RelationChecks.RelationScore | graph_retriever/graph_retriever_strategy.py:613-637 | the score lies between 0.50 and 1.00; it is 1.00 exactly for a strong explicit reference, and 0.50 exactly for a weak non-explicit relation without a legal term |
| RelationChecks.RelationScoreMonotone | graph_retriever/graph_retriever_strategy.py:617-623 | a stronger strength never gives a lower score |
| RelationChecks.ScoreRelations | graph_retriever/graph_retriever_strategy.py:613-637 | every relation, in order, gets exactly its score |
| GraphValidation.Orphanless | graph_retriever/graph_retriever_strategy.py:647-661 | the kept edges are exactly the input edges whose two endpoints are nodes |
| GraphValidation.Orphans | graph_retriever/graph_retriever_strategy.py:647-661 | the orphaned edges are exactly the input edges with an endpoint that is not a node |
| GraphValidation.OrphanSplit | graph_retriever/graph_retriever_strategy.py:651-658 | every edge goes to exactly one of the two lists |
| GraphValidation.RemoveOrphanedEdges | graph_retriever/graph_retriever_strategy.py:647-661 | the loop produces the kept and the orphaned edges, in order |
| GraphValidation.EdgeKeys | graph_retriever/graph_retriever_strategy.py:666-671 | the seen set holds the key of every edge |
| GraphValidation.EdgeKeysWitness | graph_retriever/graph_retriever_strategy.py:666-671 | every key in the seen set is the key of some edge |
| GraphValidation.DeduplicateEdges | graph_retriever/graph_retriever_strategy.py:663-676 | the loop with its `seen_edges` set produces the deduplicated edges the definition gives |
| GraphValidation.DedupEdgesSubset | graph_retriever/graph_retriever_strategy.py:663-676 | deduplication keeps only input edges |
| GraphValidation.DedupEdgesUnique | graph_retriever/graph_retriever_strategy.py:663-676 | no (source, target, type) key occurs twice afterwards |
| GraphValidation.DedupEdgesKeys | graph_retriever/graph_retriever_strategy.py:663-676 | every key of the input survives deduplication |
| GraphValidation.DedupEdgesKeysStep | graph_retriever/graph_retriever_strategy.py:667-672 | one more edge adds its key to the kept keys |
| GraphValidation.DedupEdgesKeepsFirst | graph_retriever/graph_retriever_strategy.py:667-672 | the first edge with each key is the one kept |
| GraphValidation.KeyOccursBefore | graph_retriever/graph_retriever_strategy.py:667-672 | a key already seen belongs to an earlier edge |
| GraphValidation.Filter | graph_retriever/graph_retriever_strategy.py:706-735 | the elements kept are exactly those satisfying the test |
| GraphValidation.Rejected | graph_retriever/graph_retriever_strategy.py:711-729 | the collected elements are input elements failing the test |
| GraphValidation.RejectedCons | graph_retriever/graph_retriever_strategy.py:711-729 | collection runs front to back |
| GraphValidation.WithoutHead | graph_retriever/graph_retriever_strategy.py:732-733 | removing values the head differs from leaves the head in front |
| GraphValidation.WithoutCons | graph_retriever/graph_retriever_strategy.py:732-733 | removing a list of values is removing the first one, then the rest |
| GraphValidation.WithoutRejected | graph_retriever/graph_retriever_strategy.py:706-735 | removing every rejected edge with `list.remove`, one at a time, leaves exactly the accepted edges in order |
| GraphValidation.AcceptedHead | graph_retriever/graph_retriever_strategy.py:732-733 | an accepted head survives the removals |
| GraphValidation.RejectedHead | graph_retriever/graph_retriever_strategy.py:732-733 | a rejected head is the first occurrence `list.remove` takes |
| GraphValidation.Consistent | graph_retriever/graph_retriever_strategy.py:706-773 | the consistent edges are exactly the input edges that pass the hierarchical and explicit-reference checks |
| GraphValidation.ValidateEdgeConsistency | graph_retriever/graph_retriever_strategy.py:706-735 | the graph's edges become the consistent ones, in order; nothing else changes |
| GraphValidation.FilterUnique | graph_retriever/graph_retriever_strategy.py:706-735 | removing edges keeps keys unique |
| GraphValidation.EdgeScore | graph_retriever/graph_retriever_strategy.py:775-795 | a score never exceeds 1.0, never falls below an existing capped score, starts from 0.5, and reaches 1.0 from 0.5 exactly for a strong explicit reference |
| GraphValidation.ScoreAll | graph_retriever/graph_retriever_strategy.py:778-795 | every edge gets its score, and nothing else about it changes |
| GraphValidation.ScoreGraphEdges | graph_retriever/graph_retriever_strategy.py:775-795 | the loop scores every edge in place; nodes and queue are unchanged |
| GraphValidation.RescoringRaises | graph_retriever/graph_retriever_strategy.py:775-795 | scoring is not idempotent: rescoring a boosted edge below the cap raises its score |
| GraphValidation.InsertByScore | graph_retriever/graph_retriever_strategy.py:800-801 | insertion adds exactly one edge |
| GraphValidation.SortByScore | graph_retriever/graph_retriever_strategy.py:800-801 | sorting permutes the edges |
| GraphValidation.InsertSorted | graph_retriever/graph_retriever_strategy.py:800-801 | insertion keeps the descending score order |
| GraphValidation.InsertUnique | graph_retriever/graph_retriever_strategy.py:800-801 | inserting an edge with a new key keeps keys unique |
| GraphValidation.SortFacts | graph_retriever/graph_retriever_strategy.py:800-801 | the sort orders by descending score and keeps keys unique |
| GraphValidation.FilterWeakEdges | graph_retriever/graph_retriever_strategy.py:797-811 | `int(len * 0.8)` edges are kept, all taken from the input |
| GraphValidation.FilterWeakEdgesKeepsBest | graph_retriever/graph_retriever_strategy.py:797-811 | an edge scoring strictly more than some kept edge is kept as well |
| GraphValidation.PrunedFacts | graph_retriever/graph_retriever_strategy.py:686-688 | the optional pruning keeps only input edges and keeps keys unique |
| GraphValidation.MaxDegree | graph_retriever/graph_retriever_strategy.py:834 | `max_connections` is the largest connection count of a node |
| GraphValidation.MinDegree | graph_retriever/graph_retriever_strategy.py:835 | `min_connections` is the smallest connection count of a node |
| GraphValidation.Isolated | graph_retriever/graph_retriever_strategy.py:836 | at most every node is isolated |
| GraphValidation.AnalyzeGraphConnectivity | graph_retriever/graph_retriever_strategy.py:813-839 | no statistics exactly when there are no nodes; a `KeyError` exactly when an edge has an endpoint that is not a node; otherwise min <= max and isolated <= nodes |
| GraphValidation.CountDistinct | graph_retriever/graph_retriever_strategy.py:820-822 | each node id has one counter |
| GraphValidation.SumDegreesSnoc | graph_retriever/graph_retriever_strategy.py:824-826 | one more edge adds one at each end |
| GraphValidation.ConnectionsTwiceEdges | graph_retriever/graph_retriever_strategy.py:824-826 | the connection counts add up to twice the number of edges |
| GraphValidation.ZeroDegrees | graph_retriever/graph_retriever_strategy.py:820-822 | every counter starts at 0 |
| GraphValidation.KeptFacts | graph_retriever/graph_retriever_strategy.py:647-688 | after the first five passes every edge joins two nodes, passes the consistency checks, and no key repeats |
| GraphValidation.OptimizedFacts | graph_retriever/graph_retriever_strategy.py:639-704 | after the whole pass every edge joins two nodes, no key repeats, and every edge, the added same-chapter links included, passes the consistency checks |
| GraphValidation.OptimizedJoined | graph_retriever/graph_retriever_strategy.py:639-704 | after the whole pass any two nodes sharing a chapter are joined by an edge |
| GraphValidation.ValidateAndOptimizeGraph | graph_retriever/graph_retriever_strategy.py:639-704 | runs the passes in order on the graph's edges, leaves nodes and queue alone, and ends with every edge attached, consistent and unique, and every chapter's nodes pairwise joined |
| StructuralRelations.ChapterOf | graph_retriever/graph_retriever_strategy.py:848 | a node's chapter counts exactly when it is truthy |
| StructuralRelations.HasKeyAt | graph_retriever/graph_retriever_strategy.py:844-852 | every entry's chapter is a key of the grouping |
| StructuralRelations.KeyIndex | graph_retriever/graph_retriever_strategy.py:844-852 | a key of the grouping is some entry's chapter |
| StructuralRelations.PlaceFacts | graph_retriever/graph_retriever_strategy.py:849-852 | filing a node keeps chapters distinct, adds its chapter as a key, and appends the node to that chapter only |
| StructuralRelations.Members | graph_retriever/graph_retriever_strategy.py:844-852 | a chapter's members are exactly the node ids with that chapter, without repeats |
| StructuralRelations.ChapterGroupsFacts | graph_retriever/graph_retriever_strategy.py:843-852 | each chapter appears once, its list holds exactly its nodes in node order, and the chapters present are those some node has |
| StructuralRelations.LookupAt | graph_retriever/graph_retriever_strategy.py:856 | an entry's list is what looking up its chapter gives |
| StructuralRelations.PairsOf | graph_retriever/graph_retriever_strategy.py:857-858 | the pairs of a chapter join two of its members |
| StructuralRelations.PairsOfHas | graph_retriever/graph_retriever_strategy.py:857-858 | every member is paired with each member after it |
| StructuralRelations.ChapterPairs | graph_retriever/graph_retriever_strategy.py:856-858 | every pair belongs to one chapter's members |
| StructuralRelations.ChapterPairsHas | graph_retriever/graph_retriever_strategy.py:856-858 | every chapter's pairs are visited |
| StructuralRelations.PairsInChapter | graph_retriever/graph_retriever_strategy.py:856-858 | every visited pair joins two nodes of the pair's chapter |
| StructuralRelations.SameChapterPaired | graph_retriever/graph_retriever_strategy.py:843-858 | any two distinct nodes of the same chapter are visited as a pair, in one order or the other |
| StructuralRelations.Fill | graph_retriever/graph_retriever_strategy.py:856-875 | the pass adds only same-chapter edges to the existing ones |
| StructuralRelations.JoinedAppend | graph_retriever/graph_retriever_strategy.py:860-864 | an edge added later keeps a pair joined |
| StructuralRelations.FillJoins | graph_retriever/graph_retriever_strategy.py:856-875 | after the pass every visited pair is joined |
| StructuralRelations.FillUnique | graph_retriever/graph_retriever_strategy.py:860-875 | an edge is added only where none joins the pair, so no key repeats |
| StructuralRelations.AddMissingStructuralRelations | graph_retriever/graph_retriever_strategy.py:841-878 | groups the nodes by chapter and adds a weak hierarchical edge through `add_relation` for each unjoined pair; nodes and queue are unchanged |
| StructuralRelations.SameChapterJoined | graph_retriever/graph_retriever_strategy.py:841-878 | afterwards any two distinct nodes sharing a truthy chapter are joined, in one direction or the other |
| BreadthFirst.BallMono | graph_retriever/graph_retriever.py:59-85 | the set of ids within `i` steps grows with `i` |
| BreadthFirst.BallStable | graph_retriever/graph_retriever.py:59-85 | once one more step adds no id, no later step does |
| BreadthFirst.Push | graph_retriever/graph_retriever.py:80-83 | queuing the unvisited neighbours keeps the old queue as a prefix and queues every neighbour not yet visited at the next depth |
| BreadthFirst.InvInit | graph_retriever/graph_retriever.py:64-66 | the traversal invariant holds for the queue holding only the seed at depth 0 |
| BreadthFirst.InvLevel | graph_retriever/graph_retriever.py:68-69 | the invariant can be restated at the depth of the queue's front |
| BreadthFirst.LevelNext | graph_retriever/graph_retriever.py:68-69 | when the front reaches the next depth, the invariant holds at that depth |
| BreadthFirst.LevelUp | graph_retriever/graph_retriever.py:68-69 | when the front reaches depth `k + 1`, every id at distance `k` has been visited |
| BreadthFirst.InvSkip | graph_retriever/graph_retriever.py:71-72 | skipping a visited id or one beyond the depth limit keeps the invariant |
| BreadthFirst.InvVisit | graph_retriever/graph_retriever.py:74-83 | visiting the front id keeps the invariant; the id is reachable from the seed |
| BreadthFirst.VisitShape | graph_retriever/graph_retriever.py:79-83 | the queue keeps its shape (depths non-decreasing, at most one level apart, each id within its depth) after a visit |
| BreadthFirst.ShapeTail | graph_retriever/graph_retriever.py:69 | popping the front keeps the queue's shape |
| BreadthFirst.ShapeAppend | graph_retriever/graph_retriever.py:81-83 | appending ids at the next depth that lie within it keeps the shape |
| BreadthFirst.StepInBall | graph_retriever/graph_retriever.py:80-83 | a neighbour of an id within `k` steps is within `k + 1` steps |
| BreadthFirst.VisitBounds | graph_retriever/graph_retriever.py:79-83 | a visit queues nothing beyond the depth limit |
| BreadthFirst.VisitCollected | graph_retriever/graph_retriever.py:74-77 | visiting an id exactly `k` steps away keeps `related` as the visited ids other than the seed, without repeats |
| BreadthFirst.VisitFrontier | graph_retriever/graph_retriever.py:79-83 | after a visit, every unvisited neighbour of a visited id within the limit is still queued |
| BreadthFirst.KeptAfterVisit | graph_retriever/graph_retriever.py:69-83 | what was queued behind the front stays queued |
| BreadthFirst.InvDone | graph_retriever/graph_retriever.py:68-85 | with the queue empty, the collected ids are the traversal |
| BreadthFirst.Closure | graph_retriever/graph_retriever.py:68-85 | at the end every id within `max_depth` steps has been visited |
| BreadthFirst.OrderKept | graph_retriever/graph_retriever.py:76-77 | `related` lists ids closer to the seed before farther ones |
| BreadthFirst.NearestLevel | graph_retriever/graph_retriever.py:59-85 | an id exactly `k` steps away is in no ball of smaller radius |
| BreadthFirst.Outside | graph_retriever/graph_retriever.py:59-85 | an id outside the ball of radius `k` is outside every smaller ball |
| Retriever.Ends | graph_retriever/graph_retriever.py:94-98 | the ids listed for `x` are exactly the other ends of the relations at `x` |
| Retriever.LinkAt | graph_retriever/graph_retriever.py:94-98 | one relation appends its target to its source's list and its source to its target's list, for node ids only |
| Retriever.AdjacencyByNode | graph_retriever/graph_retriever.py:87-98 | the cache built relation by relation equals, for each node id, the list of other ends in relation order |
| Retriever.CacheNeighbours | graph_retriever/graph_retriever.py:87-98 | `y` is a neighbour of `x` in the cache exactly when `x` is a node and some relation joins `x` and `y` |
| Retriever.EnqueueUnvisited | graph_retriever/graph_retriever.py:81-83 | the inner loop queues exactly the unvisited neighbours one level deeper |
| Retriever.VisitFront | graph_retriever/graph_retriever.py:74-83 | a visit marks the id visited, collects it at positive depth and queues its unvisited neighbours below the limit |
| Retriever.Advance | graph_retriever/graph_retriever.py:68-83 | one pass keeps the traversal invariant and either shrinks the queue without visiting or visits a new reachable id |
| Retriever.Shrinks | graph_retriever/graph_retriever.py:68-83 | visiting a new id of a finite set leaves fewer to visit, so the loop ends |
| Retriever.RelatedNodes | graph_retriever/graph_retriever.py:59-85 | the result lists, without repeats and closer ids first, exactly the ids other than the seed within `max_depth` steps |
| Retriever.BallLinked | graph_retriever/graph_retriever.py:87-98 | every id within `k` steps of the seed, other than the seed, is the other end of a relation at a node |
| Retriever.TaxLawGraph.constructor | graph_retriever/graph_retriever.py:43-47 | a new graph has no nodes, no relations and no cache |
| Retriever.TaxLawGraph.AddNode | graph_retriever/graph_retriever.py:49-52 | stores the node under its id and drops the cache |
| Retriever.TaxLawGraph.AddRelation | graph_retriever/graph_retriever.py:54-57 | appends the relation and drops the cache |
| Retriever.TaxLawGraph.BuildAdjacencyCache | graph_retriever/graph_retriever.py:87-98 | the cache becomes the adjacency of the nodes and relations, which are left alone |
| Retriever.TaxLawGraph.GetRelatedNodes | graph_retriever/graph_retriever.py:59-85 | builds the cache when absent and returns the traversal of it; nodes and relations are unchanged |
| Retriever.FirstParagraphId | graph_retriever/graph_retriever.py:180-184 | the value found is that of the first field holding a string that starts with `§`, and one is found exactly when such a field exists |
| Retriever.ExtractParagraphId | graph_retriever/graph_retriever.py:177-186 | an extracted id starts with `§` |
| Retriever.BaseIds | graph_retriever/graph_retriever.py:144-148 | the base ids are exactly the ids extracted from the base results |
| Retriever.Take | graph_retriever/graph_retriever.py:155 | Python's `s[:k]`, negative `k` included: a prefix of the stated length |
| Retriever.WidenedSound | graph_retriever/graph_retriever.py:150-168 | every added record is a node within two steps of a base paragraph, and not a base paragraph itself |
| Retriever.WidenedComplete | graph_retriever/graph_retriever.py:150-168 | when a base paragraph's traversal fits in `max_related`, every node within two steps of it that is not a base paragraph is added |
| Retriever.TakenWhole | graph_retriever/graph_retriever.py:155 | an id of a traversal no longer than `max_related` is kept |
| Retriever.CollectBaseIds | graph_retriever/graph_retriever.py:144-148 | the loop collects exactly the base ids |
| Retriever.GatherRelated | graph_retriever/graph_retriever.py:150-155 | the related set is exactly the first `max_related` ids of each base node's traversal to depth 2 |
| Retriever.AppendRecords | graph_retriever/graph_retriever.py:157-168 | the base results are kept in front, followed by one graph record per related node that is not a base id, each once |
| Retriever.GraphRetriever.constructor | graph_retriever/graph_retriever.py:113-119 | a new retriever holds no graphs |
| Retriever.GraphRetriever.GetGraphEnhancedResults | graph_retriever/graph_retriever.py:121-175 | without a graph for the law the base results come back unchanged; otherwise they are widened with the related paragraphs, and the graph's nodes and relations are unchanged |
| EntityTypes.Hits | multihop_rag/chunker/entity_types.py:248-252 | the keyword count of a type is at most its number of keywords |
| EntityTypes.NoHits | multihop_rag/chunker/entity_types.py:248-252 | a count of 0 exactly when no keyword, lower-cased, occurs in the lower-cased text |
| EntityTypes.BestIsFirstMaximum | multihop_rag/chunker/entity_types.py:244-256 | the loop ends with the largest count and, when it is positive, the first type in table order reaching it; with a count of 0 no type is chosen |
| EntityTypes.ResultIsKnown | multihop_rag/chunker/entity_types.py:220-258 | the result is `ukendt`, `lovhenvisning`, `domshenvisning` or a key of the table |
| EntityTypes.EntityTypesNamed | multihop_rag/chunker/entity_types.py:8-218 | every type of `ENTITY_TYPES` has a name other than `ukendt` |
| EntityTypes.KeywordsDecide | multihop_rag/chunker/entity_types.py:230-258 | without a law or decision reference, the result is `ukendt` exactly when no keyword of any type occurs, and otherwise the first type with the most hits |
| EntityTypes.FindEntityTypeIn | multihop_rag/chunker/entity_types.py:220-258 | the checks and the argmax loop return the classification the definition gives |
| EntityTypes.FindEntityType | multihop_rag/chunker/entity_types.py:220-258 | the same over the constant `ENTITY_TYPES` table |
| TextSplit.LastSpace | JAILA/utils.py:31-32 | the back-off loop stops at the last space in `(start, end]`, or at `start` when there is none |
| TextSplit.Cut | JAILA/utils.py:26-36 | a piece ends after its start and at most `chunk_size` later: at the end of the text when that is near enough, else at the last space, else hard at `start + chunk_size` |
| TextSplit.FindCut | JAILA/utils.py:26-36 | the loop computes that cut |
| TextSplit.PiecesAreStripped | JAILA/utils.py:38 | each chunk is the stripped slice `text[start:end]` |
| TextSplit.SliceLengths | JAILA/utils.py:26-38 | every slice has 1 to `chunk_size` characters |
| TextSplit.SlicesRejoin | JAILA/utils.py:25-39 | without overlap the slices put back together are the text |
| TextSplit.NeverEnds | JAILA/utils.py:25-39 | with a positive overlap the next start stays inside the text, so for text longer than `chunk_size` the loop never exits |
| TextSplit.SplitTextPieces | JAILA/utils.py:19-41 | past the early returns the loop ends only without overlap, and each chunk is a stripped slice of 1 to `chunk_size` characters, the first starting at 0 |
| TextSplit.SplitTextIntoChunks | JAILA/utils.py:7-41 | on the inputs modelled, the function gives the chunks the definition does: `[]` for empty text, `[text]` for short text |
| TextSplit.CutPieces | JAILA/utils.py:22-41 | the `while start < len(text)` loop returns the stripped pieces the definition gives, left to right |
| Strings.StripIgnoresPadding | JAILA/utils.py:38 | `str.strip` removes any whitespace around a string, the no-break space, NEL and the Unicode space separators included, and so gives the same result as for the string alone |
| SearchDetect.UuidIsGroups | simple_search.py:50-51 | the character-by-character reading of the UUID pattern and the five hex groups of 8, 4, 4, 4 and 12 separated by dashes accept the same strings |
| SearchDetect.ChunkIdGroups | simple_search.py:48-52 | `detect_chunk_id` holds exactly when the stripped, lower-cased query is five hex groups of 8-4-4-4-12 joined by dashes |
| SearchDetect.ChunkIdLength | simple_search.py:48-52 | a query taken for a chunk id is 36 characters long once stripped |
| SearchDetect.MatchAt | simple_search.py:32-37 | a match starts with the pattern's keyword, has only the optional dot and blanks before its group, captures a non-empty group that starts with a digit, and ends inside the text |
| SearchDetect.MatchAtFinds | simple_search.py:33-36 | conversely, a keyword followed by the optional dot, blanks and a digit is a match whose group starts at that digit, and without a letter suffix the group is the whole digit run |
| SearchDetect.DetectParagraphReferences | simple_search.py:30-46 | the loop over the four patterns returns the set the reference definition gives for the query |
| SearchDetect.FindAllShape | simple_search.py:32-41 | every group a pattern captures starts with a digit; the `stk` pattern's groups are digits only |
| SearchDetect.FindAllNeedsKeyword | simple_search.py:32-41 | a pattern captures something only when its keyword occurs in the text |
| SearchDetect.ReferencesExact | simple_search.py:39-46 | the result is exactly the set of captured groups, stripped and upper-cased (both directions) |
| SearchDetect.ParagraphReferencesExact | simple_search.py:30-46 | the references are exactly the stripped, upper-cased groups the four patterns capture in the lower-cased query, and each starts with a digit |
| SearchDetect.StkReferencesAreDigits | simple_search.py:36-44 | a `stk` group is a non-empty digit string that appears unchanged among the references |
| SearchDetect.NoKeywordNoReferences | simple_search.py:30-46 | a query that mentions none of the keywords yields no reference |

## Left out

- Calls to the external language-model service are not modelled: `_extract_relations_from_batch`, `_prepare_batch_for_llm`, `enrich_chunk_with_llm` and their prompts. The relations that service proposes are an input sequence instead.
- `build_graph_for_law` and `_analyze_law_structure` are not modelled. They drive the language model, print progress and time the run. `_extract_section_info` is not modelled either: it only defers to `_extract_chapter_info`, which is modelled.
- Case-law tagging is left to the caller. `tag_domsreferencer` and `extract_dom_references` are regular-expression libraries outside the core, so they appear as function parameters.
- `process_chunks_parallel`, `process_file`, command-line entry points, file and JSON I/O, `os.makedirs`, the Weaviate client, the search UI and the search functions of `simple_search.py` are left out: they are concurrency or I/O. Only `detect_chunk_id` and `detect_paragraph_references` are modelled.
- The metadata builders of the chunker are left out because they only assemble output records for the vector store: `clean_text_from_metadata_prefixes`, `build_standard_metadata`, `build_embedding_text`, `build_metadata` and `process_chunk`. `test_granularity_benefits` is left out too, since it only prints.
- `datetime.now()` timestamps and the constant `type`/`embedding` keys of node records are not kept.
- Verbose progress printing is left out. That includes the print in `_validate_and_optimize_graph` that divides edges by nodes and would raise `ZeroDivisionError` on an empty graph with verbose output on.
- Float averages are not modelled:
  - the average degree in `_analyze_graph_connectivity` (the integer counts around it are modelled);
  - the averages and both `get_statistics` and `get_available_graphs` of `graph_retriever.py`.
- `_validate_and_optimize_graph` computes connectivity statistics and then never uses them. The model computes them too and drops them.
- `estimate_cost_ligningsloven` and `create_ligningsloven_batches` are left out. They are scripts that print a cost estimate for one law.
- `process_chunk_with_notes` is modelled on typed chunks. Its `isinstance` checks for a non-dict chunk or a non-string footnote value are left out.
- `uuid.uuid4()` is replaced by a counter, so ids are natural numbers, not random strings.
- Digits are ASCII only. Python's `\d`, `str.isdigit` and `int()` also accept other decimal digits such as the Arabic-Indic '١' and '٥', and `str.isdigit` also accepts the superscripts '¹', '²' and '³'. The model accepts '0' to '9' only. So a paragraph line whose number is written in Arabic-Indic digits opens a paragraph chunk in Python but is continuation text in the model, and `detect_paragraph_references` misses the same reference written with those digits.
- `str.lower` is modelled on ASCII and Latin-1 letters only. That covers Æ, Ø and Å, but not the rest of Unicode. Whitespace (`\s`, `str.strip`, `str.isspace`, `str.split`) follows Python's full set.
- `list(set(...))` results are modelled as sets, so the order Python's hashing happens to give is not kept.
- Scores, strengths and confidences are integer hundredths, not floats.
- RelationChecks.ScoreRelations: returns each relation paired with its score instead of writing a `score` key into the caller's dictionaries in place.
- RelationChecks.ExtractChapterInfo: a metadata field is either a string or absent, so a `chapter` key present with the value None is not modelled. Python returns None at once there (graph_retriever/graph_retriever_strategy.py:417-418), but the model goes on to the title and the paragraph number. Likewise a `title` present with the value None raises AttributeError in Python, but is treated as absent by the model.
- TextSplit.SplitTextIntoChunks: requires empty text, text that fits in one piece, or a positive chunk size with an overlap of at most 0. With a positive overlap and longer text the source never returns (`TextSplit.NeverEnds`), so that case has no result to model. A chunk size of at most 0 with longer text is not modelled either, although the loop can return there, for example when the overlap is below the chunk size.
