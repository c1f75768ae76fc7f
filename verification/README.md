# Verified models of the curriculum projection and the guided dialogue

This project models, in Dafny, the parts of the research team's code where a wrong step would
be hardest to notice, and proves what their documentation promises of them. Weights are
reals, rounded where the code rounds them; ids are integers; slugs are strings compared by code
point.

**The curriculum projection.** `AreaGraph` folds relationships, passages and semantic
neighbours into a weighted graph. `AreaClustering` is greedy modularity as the code runs it:
a lazy heap and three tables updated merge by merge. `NaiveGreedy` is the same thing said
without any of that: look at every linked pair, merge a best one, stop when none helps. The
loop is proved to do what the naive rounds do, to end in a local optimum, to terminate, and
to be a function of the graph alone. `AreaRefinement` splits and absorbs; `AreaProjection`
names the communities and assembles the pipeline; `Slugs` is the suffix search.
`SignalPairs`, `LearningPaths`, `Kahn`, `PathOrder` and `Curriculum` are the ordering: signals
between areas, edges strongest first with cycle closers contested, the topological order, and
the path to one area. `Reals`, `Sums`, `Counting`, `Orders`, `Sorting`, `Graphs`, `Partitioning` and
`Digraphs` hold the mathematics these share.

**The guided dialogue.** `Dialogue` is the aggregate. `SocraticSteps` cuts the service at its
awaits: a state of stores, registry and suspended tasks, and the steps from one state to the
next. `SocraticViews`, `SocraticRuns` and `SocraticGrading` prove what holds in every state of
every run, whatever is interleaved; `SocraticExamples` shows by three runs what does not.
`SocraticService` is the object, one method for each stretch between two awaits: its history is
a run, which every method extends by its step, and what the methods promise is what holds of runs.
A registry entry, or the live dialogue a reply works from, is called marked when the steps that
made it left it behind the log; which steps those are is said below.

**Two smaller cores.** `Resources` is the double-checked lock, with any number of tasks, and the
object whose methods take its steps.
`Learner` is the progress fold against a reading of the history, and `LearnerRuns` against the commands.

## Where code and documentation part

- `respond` says that no cancellation can land between recording an exchange and caching it
  (`research_team/dialogue/application/socratic.py:245-248`), but the recording is itself
  awaited. A task cancelled while its save is coming back leaves the registry an exchange
  behind the log: `SocraticExamples.LostPutDisagrees`.
- `begin` puts its entry after its save is back (`research_team/dialogue/application/socratic.py:134-161`),
  while the row can be read, and listed, as soon as the event is projected
  (`research_team/interfaces/web/socratic.py:83-86`). A reply that is faster has its exchange
  overwritten in the registry by the opening question, and nothing need be cancelled for that:
  `SocraticExamples.LateBeginDisagrees`.
  `SocraticRuns.CacheAgreesIff` says exactly when an entry agrees with the log, going by these two
  steps and by what was made from what; where neither step happens
  `SocraticRuns.CacheAgreesWithLog` holds in every state of every run.
- A dialogue is put back in the registry by the very turn that concluded it
  (`research_team/dialogue/application/socratic.py:249-256`), so a reply to a concluded
  dialogue can run the executor. An entry dropped by `end` can also come back, by the late put
  of a reply or of a `begin`. `SocraticRuns.ConcludedAsksIff` says exactly when a reply to a
  concluded dialogue is with the executor: over any run, if and only if one starts while the
  registry has the dialogue. Nothing it says is stored (`SocraticRuns.ConcludedNotRecorded`).
- The semantic port's documentation says that an adapter giving a pair in both directions
  doubles its weight (`research_team/curriculum/application/area_projection.py:135-138`). The
  code takes the larger weight instead (`research_team/curriculum/application/area_graph.py:181-186`),
  and `AreaGraph.BothDirections` says that the other direction changes nothing.
- `key` says that a line break cannot occur in a path or an id
  (`research_team/curriculum/domain/learner.py:176-178`); `decide` refuses none. An item shares its
  slot with another that `decide` accepts exactly if its path has a line break after its first
  character or its id one before its last (`Learner.SlotSharedIff`), and then, whatever the history,
  an answer to the one is put down to the other (`Learner.SharedSlotMerges`, `Learner.KeyCollides`).
  For every other name, and only for those, the slot is the item's own over every run
  (`Learner.SlotIsOwnIff`). What the fold keeps is proved slot by slot without assuming anything
  of names.
- The clustering's documentation says a stale heap entry is recognised by the identity of its
  communities (`research_team/curriculum/application/area_clustering.py:45-46`). The code goes by
  whether both keys live and the score is within 1e-12; an entry pushed for other communities of
  the same keys is used if its score still fits, which the proofs show to be harmless.

## Assumptions

- The tolerance 1e-12 is a parameter `eps`. What is proved of the pair merged holds to within
  `eps`, and exactly, ties included, when it is zero; determinism holds for every `eps`.
- A heap gives up a least entry; nothing else is known of its layout. Iteration over a
  dictionary or a set may go in any order.
- A save compares the stream with what was loaded and swaps, or is refused; the read model says
  what the stream folds to; the registry may lose any entry at any time. No two dialogues are
  given one id; anybody may use any id at any time, minted or not.
- `slugify`, `clause_shaped` and the first eight characters of an id are unknown deterministic
  functions; a member's year is what the code reads out of its rendered date.

## Model

| member | source | states |
|---|---|---|
| AreaGraph.CoMentionEdges | research_team/curriculum/application/area_graph.py:120-146 | a pair weighs its share of every counted passage that names it, and each counted passage spends exactly its budget |
| AreaGraph.ShareOut | research_team/curriculum/application/area_graph.py:140-145 | one passage gives each of its pairs one share, each once, and the shares add up to the budget |
| AreaGraph.SemanticEdges | research_team/curriculum/application/area_graph.py:149-187 | a pair is drawn when a triple above the cut offers it, and weighs what its best offer does |
| AreaGraph.SemanticBounds | research_team/curriculum/application/area_graph.py:178-180 | every drawn semantic edge weighs between 0 and 0.6 |
| AreaGraph.SemanticSays | research_team/curriculum/application/area_graph.py:172-186 | a pair is drawn if and only if its highest standout is one or more; it weighs 0.6 from two on, and 0.6 times what is above one between |
| AreaGraph.SemanticRises | research_team/curriculum/application/area_graph.py:178-186 | of two pairs the one that stands out as much or more weighs as much or more |
| AreaGraph.SemanticUnordered | research_team/curriculum/application/area_graph.py:181-186 | the drawn edges depend on what each pair is offered, not on order, direction or repetition |
| AreaGraph.BothDirections | research_team/curriculum/application/area_graph.py:177-186 | a triple given the other way round as well leaves the drawn edges as they were |
| AreaGraph.AssertedTotal | research_team/curriculum/application/area_graph.py:208-215 | the asserted relationships contribute one unit each to the total |
| AreaGraph.AddEdges | research_team/curriculum/application/area_graph.py:218-225 | contributions land on their pair, at both ends, and the total grows by their sum |
| AreaGraph.Adjacency | research_team/curriculum/application/area_graph.py:190-227 | the graph is symmetric, loop-free and non-negative; each pair's weight is exactly its three contributions; the total is asserted at 1.0, counted at 0.5, plus the drawn semantic weights |
| AreaGraph.PairWeighs | research_team/curriculum/application/area_graph.py:190-227 | read off the corpus, two entities weigh one for each relationship between them, either way, 1 / (n (n - 1)) for each passage that names both among up to 25 in all, and what their highest standout draws; they have an edge if and only if one of the three is there |
| AreaGraph.CountsSay | research_team/curriculum/application/area_graph.py:208-227 | counted are relationships between two different entities, passages naming two to 25, and pairs that stand out; all the weight is one for each of the first, a half for each of the second, and what is drawn |
| AreaGraph.GraphUnordered | research_team/curriculum/application/area_graph.py:190-227 | the graph and its counts do not depend on the order relationships, passages or triples come in |
| Partitioning.MergeGain | research_team/curriculum/application/area_clustering.py:61-63 | merging two communities changes the true modularity of the partition by exactly the gain the formula computes |
| Partitioning.UnlinkedGain | research_team/curriculum/application/area_clustering.py:61-69 | two communities without an edge gain nothing by merging, so only linked pairs need an entry |
| Partitioning.MergedPartition | research_team/curriculum/application/area_clustering.py:88-102 | merging under the lower key keeps a partition keyed by each community's lowest member |
| AreaClustering.MergeTables | research_team/curriculum/application/area_clustering.py:88-101 | the entry by entry update of the three dictionaries computes the contracted tables |
| AreaClustering.MergeKeepsTables | research_team/curriculum/application/area_clustering.py:88-101 | after a merge degrees are still summed node degrees, and between still the symmetric summed cross weights, of the merged communities |
| AreaClustering.DeltaIsGain | research_team/curriculum/application/area_clustering.py:61-63 | the score read off the tables is the gain in true modularity |
| AreaClustering.InitialHeap | research_team/curriculum/application/area_clustering.py:65-69 | the heap starts with one current entry for every linked pair |
| AreaClustering.PushAround | research_team/curriculum/application/area_clustering.py:103-105 | after a merge every pair of the grown community has an entry with its new score |
| AreaClustering.CompleteAfterMerge | research_team/curriculum/application/area_clustering.py:86-105 | after a merge every linked live pair still has an entry with the score it has now |
| AreaClustering.LivePop | research_team/curriculum/application/area_clustering.py:75-78 | a popped entry with both keys live is still linked, so the check after the liveness test never fires |
| AreaClustering.DropDead | research_team/curriculum/application/area_clustering.py:75-76 | dropping a dead entry leaves one outdated entry fewer and the heap complete |
| AreaClustering.Refresh | research_team/curriculum/application/area_clustering.py:79-82 | replacing a stale entry by a current one leaves one outdated entry fewer, though something is pushed |
| AreaClustering.PoppedIsBest | research_team/curriculum/application/area_clustering.py:71-84 | a popped entry that still holds names a pair of maximal gain, to within the tolerance, the lowest keys on ties when it is zero |
| AreaClustering.AfterPop | research_team/curriculum/application/area_clustering.py:71-105 | one pop drops a dead entry, refreshes a stale one, stops at a settled partition, or takes a naive round |
| AreaClustering.PopOnce | research_team/curriculum/application/area_clustering.py:71-105 | every turn of the loop ends it, or lowers the number of communities, or keeps it and lowers the number of outdated entries |
| AreaClustering.GreedyModularity | research_team/curriculum/application/area_clustering.py:31-107 | the lazy heap loop terminates and returns, in key order, the outcome of naive rounds from single nodes until no linked pair is worth merging |
| AreaClustering.LazyOutcomeUnique | research_team/curriculum/application/area_clustering.py:34-38 | for every tolerance the partition is a function of the graph, whatever the heap's layout and the order of dictionaries |
| AreaRefinement.GreedyByLowest | research_team/curriculum/application/area_clustering.py:107 | communities are listed by their lowest members |
| NaiveGreedy.OutcomePartition | research_team/curriculum/application/area_clustering.py:55-107 | the outcome partitions the nodes |
| NaiveGreedy.RoundsRaiseModularity | research_team/curriculum/application/area_clustering.py:83-89 | every merge made raises the modularity of the whole partition |
| NaiveGreedy.LocalOptimum | research_team/curriculum/application/area_clustering.py:71-84 | merging any two returned communities, linked or not, raises modularity by no more than the tolerance |
| NaiveGreedy.OutcomeUnique | research_team/curriculum/application/area_clustering.py:34-38 | with tolerance zero the naive rounds leave no choice at all: one graph, one outcome |
| AreaRefinement.SplitOversized | research_team/curriculum/application/area_clustering.py:110-138 | a community of up to three nodes, or up to two fifths of all, is kept; any other is replaced by its own greedy parts if there is more than one; in order |
| Graphs.InducedInside | research_team/curriculum/application/area_clustering.py:128-131 | what is split is the community with every edge inside it, at its weight |
| AreaRefinement.SplitRefines | research_team/curriculum/application/area_clustering.py:122-138 | the split refines the partition: same nodes, and every piece inside a community |
| AreaRefinement.StrongestHome | research_team/curriculum/application/area_clustering.py:166-172 | the scan finds the survivor of the heaviest positive neighbour at home in one, the lowest id on ties, or nothing if there is none |
| AreaRefinement.AbsorbSmall | research_team/curriculum/application/area_clustering.py:141-179 | each survivor gets exactly the undersized nodes whose strongest neighbour lives there |
| AreaRefinement.AbsorbedAreas | research_team/curriculum/application/area_clustering.py:153-179 | what is returned is pairwise disjoint, at least three large, each holding its survivor, and an undersized node is dropped if and only if it has no positive edge to a survivor |
| AreaRefinement.AreasInPlace | research_team/curriculum/application/area_clustering.py:153-179 | the areas are the communities of three or more, in the order those were in, each whole |
| AreaRefinement.AbsorbedByStrongest | research_team/curriculum/application/area_clustering.py:161-179 | an undersized node is in the area of its heaviest neighbour in a community of three or more, the lowest id on ties, and in no other |
| AreaProjection.RankedRanks | research_team/curriculum/application/area_projection.py:239 | ranking permutes the members, most central first, ties on id |
| AreaProjection.RankedByWeight | research_team/curriculum/application/area_projection.py:234-239 | of two members the one ranked first weighs more into the community, or they weigh the same to six places and its id is the lower |
| AreaProjection.NamingAnchor | research_team/curriculum/application/area_projection.py:172-212 | the anchor is the first of the leading five whose name is no clause, or the most central of all |
| Slugs.DecimalInjective | research_team/curriculum/application/area_projection.py:250 | different suffixes read differently |
| Slugs.DecimalReads | research_team/curriculum/application/area_projection.py:250 | a suffix is all digits without a leading zero, and reads as its number |
| Slugs.FreeSlug | research_team/curriculum/application/area_projection.py:241-252 | the search ends within as many tries as slugs are taken, at the first candidate not taken |
| Slugs.SlugSays | research_team/curriculum/application/area_projection.py:242-252 | the slug is the base, or if that is taken the base, a dash and the first number from two up that is free |
| Slugs.TriesBounded | research_team/curriculum/application/area_projection.py:248-251 | as many candidates taken, as many slugs taken at least, even if some are other areas' own names |
| AreaProjection.ToArea | research_team/curriculum/application/area_projection.py:215-259 | an area lists its community in id order, each member with its weight into the community to six places, named after the anchor under the first free slug |
| AreaProjection.AreaSays | research_team/curriculum/application/area_projection.py:229-259 | a member has the name, type and year of its entity, the last of that id if there are several; the title is the name of the anchor, one of the members, and the slug its slugified name, or that with the first free suffix from two up |
| AreaProjection.FindCommunities | research_team/curriculum/application/area_projection.py:308-310 | greedy, split and absorb in sequence |
| AreaProjection.CommunitiesDisjoint | research_team/curriculum/application/area_projection.py:308-310 | the communities that come out are disjoint sets of nodes, none smaller than three |
| AreaProjection.CommunitiesDeterministic | research_team/curriculum/application/area_projection.py:285-288 | for every tolerance the communities are a function of the graph |
| AreaProjection.SlugsDistinct | research_team/curriculum/application/area_projection.py:243-252 | all slugs of a projection differ pairwise |
| AreaProjection.ProjectAreas | research_team/curriculum/application/area_projection.py:272-334 | over the cap the graph is refused, and otherwise the projection is the areas of the corpus's graph, largest community first, with its counts |
| AreaProjection.ProjectionCounts | research_team/curriculum/application/area_projection.py:321-334 | its counts are of the corpus: entities given, relationships between two different ones, passages naming two to 25, pairs that stand out, and whether there is one |
| AreaProjection.ProjectionWellFormed | research_team/curriculum/application/area_projection.py:312-320 | areas have distinct slugs, disjoint members, three or more, and come largest first, lowest member id first among equals |
| AreaProjection.ProjectionDeterministic | research_team/curriculum/application/area_projection.py:285-288 | the same corpus, listed in any order, gives the same areas in the same order with the same slugs |
| SignalPairs.MedianIsMiddle | research_team/curriculum/application/learning_paths.py:125-130 | there is a median if and only if some member has a year, half-way between the two years in the middle |
| SignalPairs.FindHomes | research_team/curriculum/application/learning_paths.py:151 | every member of an area has that area as its home, and nobody else has one |
| SignalPairs.CountPresence | research_team/curriculum/application/learning_paths.py:152-155 | presence counts the passages that name an entity |
| SignalPairs.CountCrossings | research_team/curriculum/application/learning_paths.py:157-169 | crossings count the stated relationships from one area into another, the inferred ones left out |
| SignalPairs.EvidenceReversed | research_team/curriculum/application/learning_paths.py:179-203 | asked the other way round the evidence is the same with its sign changed |
| SignalPairs.EvidenceSays | research_team/curriculum/application/learning_paths.py:186-195 | references are the surplus of citations of the first area as a share of the traffic; a quarter goes to the earlier median, nothing without two different ones; breadth is 0.35 of the lead as a share of the wider |
| SignalPairs.SignalSays | research_team/curriculum/application/learning_paths.py:197-203 | two areas are recorded in this order if and only if the three signals add up to more than zero, or to zero and the slugs are in order; with just those signals |
| SignalPairs.FavouredFirst | research_team/curriculum/application/learning_paths.py:174-203 | an area cited no less than it cites, no later and no narrower is recorded first if it is ahead in any; two that are level go by slug |
| SignalPairs.FindSignals | research_team/curriculum/application/learning_paths.py:146-204 | the claim recorded of two areas is the one the evidence favours, slug order deciding when it favours neither, and nothing else is recorded |
| SignalPairs.OneOrientation | research_team/curriculum/application/learning_paths.py:174-204 | of two areas exactly one order is claimed |
| SignalPairs.SignalsBounded | research_team/curriculum/application/learning_paths.py:186-203 | each signal joins two different areas and totals between 0 and 1.6 |
| SignalPairs.SignalsUnordered | research_team/curriculum/application/learning_paths.py:146-204 | the signals do not depend on the order of areas, relationships or passages |
| LearningPaths.Reaches | research_team/curriculum/application/learning_paths.py:207-216 | the search answers yes if and only if a path of one arc or more leads from start to target |
| LearningPaths.AcyclicEdges | research_team/curriculum/application/learning_paths.py:219-255 | every pair above the floor gets one edge, strongest first by its total and weighing that to four places, contested exactly when the edges kept before it lead from after to before |
| LearningPaths.EdgesSay | research_team/curriculum/application/learning_paths.py:235-254 | the edges are exactly the claims of 0.15 or more, each weighing its strength to four places |
| LearningPaths.StrongestFirst | research_team/curriculum/application/learning_paths.py:237 | of two edges the one listed first is the stronger, or as strong with the lower slugs |
| LearningPaths.ContestedIff | research_team/curriculum/application/learning_paths.py:243-254 | an edge is contested if and only if uncontested claims at least as strong lead back |
| LearningPaths.EdgesAcyclic | research_team/curriculum/application/learning_paths.py:240-244 | the uncontested edges never form a cycle |
| LearningPaths.EdgesMaximal | research_team/curriculum/application/learning_paths.py:240-254 | adding any contested edge to the kept ones makes a cycle |
| LearningPaths.EdgesUnique | research_team/curriculum/application/learning_paths.py:222-226 | the edges are a function of the signals |
| PathOrder.FillTables | research_team/curriculum/application/learning_paths.py:270-276 | successors hold the uncontested arcs, each once, and in-degrees count them |
| Kahn.DrainOne | research_team/curriculum/application/learning_paths.py:280-287 | one turn of the drain puts out the first available area, and the ready list is again all that is available, in order |
| PathOrder.Topological | research_team/curriculum/application/learning_paths.py:258-294 | each area is put out as the largest, then lowest slug, of those with nothing left before them, and as many are put out as there are, so the closing assertion never fires |
| Kahn.OnceEach | research_team/curriculum/application/learning_paths.py:279-294 | no area comes twice |
| Kahn.SomethingAvailable | research_team/curriculum/application/learning_paths.py:288-293 | without a cycle something is available until everything is out |
| PathOrder.PathOrderUnique | research_team/curriculum/application/learning_paths.py:258-267 | the order is the only one there is |
| PathOrder.LargestFirst | research_team/curriculum/application/learning_paths.py:258-287 | of two areas with nothing left before them the one with more members comes first, and of two as large the one with the lower slug |
| Orders.BeforeIff | research_team/curriculum/application/learning_paths.py:177 | of two slugs the lower is the one with the lower code point where they first differ, or else the shorter |
| Reals.NearestIsNearest | research_team/curriculum/application/learning_paths.py:250 | rounding gives the nearest, the even one of two as near |
| PathOrder.Ancestors | research_team/curriculum/application/learning_paths.py:341-346 | what is collected is the destination and exactly what leads to it |
| Curriculum.ArcForward | research_team/curriculum/application/learning_paths.py:258-294 | every uncontested edge has its before ahead of its after in the order |
| Curriculum.EdgesSound | research_team/curriculum/application/learning_paths.py:235-254 | the edges of every corpus join its areas, are acyclic, and weigh between 0.15 and 1.6 |
| Curriculum.RelevantEdges | research_team/curriculum/application/learning_paths.py:358-378 | kept are the edges between consecutive steps and the contested ones with both ends on the path, in order |
| Curriculum.FullPath | research_team/curriculum/application/learning_paths.py:297-311 | the whole path is the topological order of all areas with its relevant edges |
| Curriculum.FullPathUnordered | research_team/curriculum/application/learning_paths.py:297-311 | the whole path does not depend on how areas, relationships and passages are listed |
| Curriculum.PathTo | research_team/curriculum/application/learning_paths.py:314-355 | there is no path if and only if the slug names no area, and otherwise it is the full order cut to what the destination needs |
| Curriculum.PathToSound | research_team/curriculum/application/learning_paths.py:320-328 | the steps are the destination and its ancestors, closed under predecessors, in the order of the whole path, ending in the destination |
| Curriculum.ProjectedWellFormed | research_team/curriculum/application/area_projection.py:312-320 | every projection has the distinct slugs and disjoint areas the path ordering takes for granted |
| Dialogue.LawfulIffShape | research_team/dialogue/domain/socratic.py:251-312 | the streams that commands can write are a start, turns and observations, and at most one conclusion at the very end, and all of these |
| Dialogue.DecidedByStream | research_team/dialogue/domain/socratic.py:251-312 | which commands are accepted, and that a conclusion is the reason given before any other |
| Dialogue.FoldTellsStream | research_team/dialogue/domain/socratic.py:318-362 | turns count the history, the history is the stream's turns, the pending prompt is the last turn's or the opening one, and empty once concluded |
| Dialogue.ExecuteOngoing | research_team/dialogue/application/socratic.py:495-517 | between start and conclusion each command of a save leaves the event that carries what it said |
| SocraticService.RebuildMessages | research_team/dialogue/application/socratic.py:443-448 | the rebuilt history is the opening question if there is one, then each reply and prompt |
| SocraticService.RecordExchange | research_team/dialogue/application/socratic.py:495-517 | the exchange, what it demonstrated and the conclusion are executed in turn, all or nothing; what is to be saved gains the turn with its citations, then the observation made, then the conclusion as met, and no more |
| SocraticService.SocraticDialogueService.Recall | research_team/platform/shared/registry_cache.py:62-89 | a hit needs the project and the age to fit; anything else drops what was held |
| SocraticService.SocraticDialogueService.SaveFraming | research_team/dialogue/application/socratic.py:120-134 | the stream is the framing given and nothing else, the registry is untouched, and what is ready for it is what the log would give |
| SocraticService.SocraticDialogueService.PutBegun | research_team/dialogue/application/socratic.py:135-162 | the entry put is what the log would give, if and only if nobody has had an exchange since the save |
| SocraticService.SocraticDialogueService.StartReply | research_team/dialogue/application/socratic.py:185-189 | refused if and only if a reply is under way; otherwise the live dialogue handed on is the one in the log unless the entry was marked, and only for the project that owns it |
| SocraticService.SocraticDialogueService.ReadRow | research_team/dialogue/application/socratic.py:434-442 | unknown if and only if the stream is not this project's, concluded if and only if it is and has ended, and a refusal frees the slot |
| SocraticService.SocraticDialogueService.ReadTurns | research_team/dialogue/application/socratic.py:443-457 | what is rebuilt is the history in the log |
| SocraticService.SocraticDialogueService.TakeAnswer | research_team/dialogue/application/socratic.py:244 | the answer is kept as given; its position is the number of turns on the stream, if and only if the live dialogue is not marked, and less otherwise |
| SocraticService.SocraticDialogueService.LoadTranscript | research_team/dialogue/application/socratic.py:495-516 | refused if and only if the stream has ended; otherwise what is to be saved adds this exchange and no other |
| SocraticService.SocraticDialogueService.SaveTurn | research_team/dialogue/application/socratic.py:517 | either the stream gains the exchange as its last turn, at its own position unless marked, with its citations, observation and conclusion, or somebody saved since and the stream is as it was |
| SocraticService.SocraticDialogueService.PutTurn | research_team/dialogue/application/socratic.py:250-257 | the entry put is what the log would give, concluded or not, if and only if the reply was not made from a marked dialogue |
| SocraticService.SocraticDialogueService.EndReply | research_team/dialogue/application/socratic.py:206-261 | the slot is free, nothing stored changes, and the entry agrees with the log if and only if it did and no exchange was on its way to it |
| SocraticService.SocraticDialogueService.SaveEnd | research_team/dialogue/application/socratic.py:387-391 | either the stream gains a conclusion as abandoned and nothing else, or somebody saved since and nothing changed |
| SocraticService.SocraticDialogueService.ForgetEnded | research_team/dialogue/application/socratic.py:392 | the dialogue has ended and the registry no longer has it |
| SocraticService.SocraticDialogueService.SaveObservation | research_team/dialogue/application/socratic.py:337-347 | either the stream gains one observation, resting on an attempt, that names the kind, component, turn and verdict of the mark, or nothing is stored; the attempt is not stored yet |
| SocraticService.SocraticDialogueService.SaveAttempt | research_team/dialogue/application/socratic.py:349-358 | one more attempt under the turn of the mark, with its component, kind, digest, verdict and score, or nothing for a mark without a component; and never more attempts than the stream has observations for |
| SocraticService.SocraticDialogueService.Restart | research_team/dialogue/application/socratic.py:103 | what was stored is all that is left, and nothing is behind it |
| SocraticViews.StepGood | research_team/dialogue/application/socratic.py:109-517 | whatever the step, each dialogue's stream, registry entry and tasks still fit together, as far as they are marked |
| SocraticViews.ExchangeRecorded | research_team/dialogue/application/socratic.py:495-517 | an exchange is recorded if and only if the stream has not ended, as one more turn, and ends it if and only if the answer does |
| SocraticRuns.CacheAgreesWithLog | research_team/dialogue/application/socratic.py:134-161 | in every state of every run in which no put is lost and no begin comes too late, a registry entry, with the exchange on its way to it if one is, equals what resuming would rebuild from the stream |
| SocraticRuns.CacheAgreesIff | research_team/dialogue/application/socratic.py:245-256 | in every state of every run a registry entry agrees with the log if and only if it does not come from one left behind by a lost put or by a late begin |
| SocraticRuns.ExecutorSeesLog | research_team/dialogue/application/socratic.py:189-210 | live or resumed, the executor is given the history that is in the log, if and only if the live dialogue is not marked |
| SocraticRuns.AnnouncedIsPending | research_team/dialogue/application/socratic.py:193-199 | in every run, of a dialogue that has not ended and a live dialogue that is not marked, the question a reply announces on opening is the one pending |
| SocraticRuns.GuardHolds | research_team/dialogue/application/socratic.py:185-187 | the guard holds exactly the dialogues with a reply under way |
| SocraticRuns.PositionIsIndex | research_team/dialogue/application/socratic.py:218-244 | a recorded reply's position is the index of its turn in the stream, with or without an opening question, if and only if the live dialogue it was made from is not marked |
| SocraticRuns.NothingAfterConclusion | research_team/dialogue/domain/socratic.py:278-279 | in every run streams only grow, keep their shape, and a concluded one never changes |
| SocraticRuns.ConcludedAsksIff | research_team/dialogue/application/socratic.py:431-457 | over any run, once a dialogue has ended with no reply to it with the executor or reading turns, a reply is with the executor at some time if and only if one starts while the registry has the dialogue |
| SocraticRuns.RowRefuses | research_team/dialogue/application/socratic.py:434-442 | at every point of every run, a reply that reads the row goes on if and only if the dialogue is its own project's and has not ended, and is refused otherwise, with its slot free |
| SocraticRuns.ConcludedRefuses | research_team/dialogue/application/socratic.py:431-442 | over any run from where a dialogue has ended with no reply to it with the executor or reading turns, and in which none starts while the registry has it, a reply to it never reads turns, and its row read is a refusal |
| SocraticRuns.ConcludedNotRecorded | research_team/dialogue/application/socratic.py:495-517 | a reply to a concluded dialogue stores nothing, whenever the conclusion came |
| SocraticRuns.ConcludedNotGraded | research_team/dialogue/domain/socratic.py:278-279 | grading a concluded dialogue stores neither an observation nor an attempt |
| SocraticRuns.OwnProjectOnly | research_team/dialogue/application/socratic.py:431-436 | in every state of every run, whatever is with the executor is on behalf of the project its dialogue belongs to |
| SocraticRuns.RunEndsSaved | research_team/dialogue/application/socratic.py:387-392 | in every state of every run, a task past the save of its conclusion has concluded its dialogue |
| SocraticGrading.AttemptsWitnessed | research_team/dialogue/application/socratic.py:310-358 | at every point of every run, the attempts stored and those still to be stored are no more than the observations on the stream that rest on attempts |
| SocraticGrading.AttemptsBacked | research_team/dialogue/application/socratic.py:337-358 | in every state of every run each attempt stored has an observation on the stream that names the same kind, component and turn, with the same verdict |
| SocraticExamples.LostPutDisagrees | research_team/dialogue/application/socratic.py:245-256 | a run in which a cancelled reply leaves the registry an exchange behind the log |
| SocraticExamples.LateBeginDisagrees | research_team/dialogue/application/socratic.py:134-161 | a run with nothing cancelled in which a begin overwrites the entry of a reply that was faster |
| SocraticExamples.ConcludedStillAsks | research_team/dialogue/application/socratic.py:249-256 | a run in which a concluded dialogue reaches the executor |
| Resources.LazyAsyncResource.CallGet | research_team/wiring/resources.py:62-68 | it returns the one open resource and changes nothing, or waits for the lock |
| Resources.LazyAsyncResource.EnterGet | research_team/wiring/resources.py:65-68 | it returns the one open resource and frees the lock, or runs the factory alone with nothing open |
| Resources.LazyAsyncResource.FinishFactory | research_team/wiring/resources.py:67-68 | what the factory made is returned and is the one thing open |
| Resources.LazyAsyncResource.FailFactory | research_team/wiring/resources.py:65-67 | a factory that raises leaves nothing open, the field empty and the lock free |
| Resources.LazyAsyncResource.EnterClose | research_team/wiring/resources.py:79-86 | while the closing is awaited the field is empty, the resource is the one thing open, and no other task is past the lock |
| Resources.LazyAsyncResource.FinishClose | research_team/wiring/resources.py:86-92 | what was being closed is closed and nothing is open |
| Resources.OneLive | research_team/wiring/resources.py:62-92 | under any interleaving at most one resource is open, those apart whose closing raised |
| Resources.FactoryAlone | research_team/wiring/resources.py:65-67 | the factory runs in one task at a time, with nothing else open or closing |
| Resources.GetReturnsResource | research_team/wiring/resources.py:68 | a get that returns, returns a resource, and it is open |
| Resources.SameBetweenCloses | research_team/wiring/resources.py:62-92 | two gets with no closing between them return the same resource |
| Resources.ReusableAfterRaise | research_team/wiring/resources.py:65-67 | after a factory raised, the next caller gets a resource |
| Resources.NoDeadlock | research_team/wiring/resources.py:62-92 | as long as there are tasks one of them can go on |
| Learner.RefusedIff | research_team/curriculum/domain/learner.py:200-245 | a command is refused for a missing name or a negative index, and for nothing else |
| Learner.FoldTellsHistory | research_team/curriculum/domain/learner.py:261-323 | per item, attempts count its answers, correct means one was, the best score is the largest of zero and its scores, and the checked boxes are the last recorded |
| Learner.CompletedAtMostOnce | research_team/curriculum/domain/learner.py:225-239 | over every run an item is completed once, by the first correct answer on record and with its number, and never otherwise |
| LearnerRuns.EventsCarryCommands | research_team/curriculum/domain/learner.py:208-256 | over every run the answers and checklists on record are the accepted commands, in turn, each answer with all its command said, each checklist with the boxes of its command, once each and in increasing order |
| LearnerRuns.ItemTellsCommands | research_team/curriculum/domain/learner.py:208-312 | over every run of commands an item is there once an attempt or a checklist was accepted at its slot; it has as many attempts, is correct if and only if one of them was, and has the largest of zero and their scores, the last score and digest, and the boxes last ticked |
| LearnerRuns.CompletedByFirstRight | research_team/curriculum/domain/learner.py:225-239 | over every run of commands an item is completed once, by its first correct attempt, with its number and under its name, and not at all if there is none |
| LearnerRuns.CompletedBehindAnswer | research_team/curriculum/domain/learner.py:228-239 | a completion stands right behind a correct answer to its item |
| LearnerRuns.NameAndKind | research_team/curriculum/domain/learner.py:270-310 | an item has the name its slot was first used under and the kind its answers last gave, or else the one it began with |
| LearnerRuns.CreatedUnder | research_team/curriculum/domain/learner.py:288-305 | a record is created by its first answer or checklist, and keeps that one's id |
| Learner.KeyInjective | research_team/curriculum/domain/learner.py:171-180 | without line breaks in the paths a key stands for one path and one component |
| Learner.SlotSharedIff | research_team/curriculum/domain/learner.py:171-180 | an accepted name shares its slot with another accepted name if and only if its path has a line break after its first character or its component one before its last |
| Learner.SharedSlotMerges | research_team/curriculum/domain/learner.py:269-294 | whatever the history, an answer to an item is one more attempt at every item it shares its slot with, though it is no answer to that one |
| Learner.KeyCollides | research_team/curriculum/domain/learner.py:171-180 | one answer to c of a-break-b is one attempt at b-break-c of a |
| Learner.SlotIsOwnIff | research_team/curriculum/domain/learner.py:171-180 | over every run an item's slot holds its own answers and no others, if and only if its name has no line break with something on either side of it |
| Learner.ItemTellsAnswers | research_team/curriculum/domain/learner.py:192-193 | under a name with no such line break, whatever else was answered, the item looked up has the count, the correctness and the best score of the answers given under that name |
| Learner.OthersUntouched | research_team/curriculum/domain/learner.py:288-312 | an event touches its own item and no other |

## Left out

- Floating point: its representation and its order of summation. The rounds to six and to four places are of exact reals.
- `reason` of an edge, the truncation flag of a graph, timestamps and citations' inner structure: carried, never decided on.
- `slugify`, `clause_shaped` and the parsing of dates are unknown functions, as said above.
- The response and the time an answer carries, which nothing decides on.
- SocraticRuns.CacheAgreesIff: the registry's own rule for what to evict, by age and by last use, is not modelled; it may drop anything.
- Resources.OneLive: a resource whose closing raised is counted apart, since nothing tells whether it is still open.
- SocraticService.SocraticDialogueService.SaveAttempt: the retries of the progress save are one step that succeeds or fails.
- The event ids after a stream's first event, which repeat the stream's own.
- The announcement of activity while the executor runs (`_drain`), and cancellation anywhere but at an await.
- `AskService`, courses, catalogues, authoring, grading of answers, wiring, adapters and the frontend: thin, or the same shape as what is here with weaker promises.
