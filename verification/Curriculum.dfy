/** research_team/curriculum/application/learning_paths.py, `full_path`, `path_to` and
    `_relevant_edges`: a projection's areas as steps to take. */
module Curriculum {
  import opened Wrappers
  import opened Graphs
  import opened Reals
  import opened Sorting
  import opened Counting
  import opened Digraphs
  import opened Kahn
  import opened LearningPaths
  import opened AreaProjection
  import opened SignalPairs
  import opened PathOrder

  datatype LearningPath = LearningPath(slug: Slug, title: string, steps: seq<Slug>, edges: seq<Edge>,
                                       destination: Option<Slug>)

  // ----- Selecting -----

  ghost function Select<T(!new)>(q: seq<T>, p: T -> bool): seq<T> {
    if q == [] then [] else
      var n := |q| - 1;
      Select(q[..n], p) + if p(q[n]) then [q[n]] else []
  }

  lemma SelectStep<T(!new)>(q: seq<T>, k: nat, p: T -> bool)
    requires k < |q|
    ensures Select(q[..k + 1], p) == Select(q[..k], p) + if p(q[k]) then [q[k]] else []
  {
    assert q[..k + 1][..k] == q[..k];
  }

  lemma {:induction false} SelectMember<T(!new)>(q: seq<T>, p: T -> bool, x: T)
    ensures x in Select(q, p) <==> x in q && p(x)
  {
    if q != [] {
      var n := |q| - 1;
      SelectMember(q[..n], p, x);
      assert q == q[..n] + [q[n]];
    }
  }

  lemma {:induction false} SelectAgrees<T(!new)>(q: seq<T>, p: T -> bool, p': T -> bool)
    requires forall x :: x in q ==> (p(x) <==> p'(x))
    ensures Select(q, p) == Select(q, p')
  {
    if q != [] {
      var n := |q| - 1;
      assert q[n] in q && forall x :: x in q[..n] ==> x in q;
      SelectAgrees(q[..n], p, p');
    }
  }

  /** What is selected ends with the last element that qualifies. */
  lemma {:induction false} SelectEnds<T(!new)>(q: seq<T>, p: T -> bool, k: nat)
    requires k < |q| && p(q[k]) && forall j :: k < j < |q| ==> !p(q[j])
    ensures Select(q, p) != [] && Select(q, p)[|Select(q, p)| - 1] == q[k]
    decreases |q|
  {
    if k < |q| - 1 {
      SelectEnds(q[..|q| - 1], p, k);
    }
  }

  // ----- The edges a reader is shown -----

  ghost predicate Consecutive(order: seq<Slug>, s: Slug, t: Slug) {
    exists k :: 0 <= k && k + 1 < |order| && order[k] == s && order[k + 1] == t
  }

  ghost predicate Relevant(order: seq<Slug>, e: Edge) {
    if e.contested then e.before in order && e.after in order else Consecutive(order, e.before, e.after)
  }

  ghost function RelevantTo(order: seq<Slug>): Edge -> bool {
    (e: Edge) => Relevant(order, e)
  }

  ghost predicate NoRepeats(order: seq<Slug>) {
    forall i, j :: 0 <= i < j < |order| ==> order[i] != order[j]
  }

  ghost predicate PositionsIn(order: seq<Slug>, positions: map<Slug, nat>) {
    && (forall s :: s in positions <==> s in order)
    && (forall s :: s in positions ==> positions[s] < |order| && order[positions[s]] == s)
  }

  method FindPositions(order: seq<Slug>) returns (positions: map<Slug, nat>)
    ensures PositionsIn(order, positions)
  {
    positions := map[];
    for k := 0 to |order|
      invariant PositionsIn(order[..k], positions)
    {
      positions := positions[order[k] := k];
      assert order[..k + 1] == order[..k] + [order[k]];
    }
    assert order[..|order|] == order;
  }

  lemma ConsecutivePositions(order: seq<Slug>, positions: map<Slug, nat>, s: Slug, t: Slug)
    requires NoRepeats(order) && PositionsIn(order, positions)
    ensures Consecutive(order, s, t) <==> s in positions && t in positions && positions[t] == positions[s] + 1
  {
    if Consecutive(order, s, t) {
      var k :| 0 <= k && k + 1 < |order| && order[k] == s && order[k + 1] == t;
      assert s in order && t in order;
      assert positions[s] == k && positions[t] == k + 1;
    }
  }

  /** `_relevant_edges` */
  method RelevantEdges(order: seq<Slug>, edges: seq<Edge>) returns (kept: seq<Edge>)
    requires NoRepeats(order)
    ensures kept == Select(edges, RelevantTo(order))
  {
    var positions := FindPositions(order);
    kept := [];
    for k := 0 to |edges|
      invariant kept == Select(edges[..k], RelevantTo(order))
    {
      var edge := edges[k];
      SelectStep(edges, k, RelevantTo(order));
      if edge.contested {
        if edge.before in positions && edge.after in positions {
          kept := kept + [edge];
        }
        continue;
      }
      ConsecutivePositions(order, positions, edge.before, edge.after);
      if edge.before in positions && edge.after in positions && positions[edge.after] == positions[edge.before] + 1 {
        kept := kept + [edge];
      }
    }
    assert edges[..|edges|] == edges;
  }

  // ----- The whole path -----

  ghost predicate EdgesFrom(c: Corpus, edges: seq<Edge>) {
    exists signals :: SignalsOf(c, signals) && EdgesOf(signals, edges)
  }

  ghost predicate FullPathOf(c: Corpus, path: LearningPath) {
    exists edges :: EdgesFrom(c, edges) && PathOrderOf(c.areas, edges, path.steps)
      && path == LearningPath("complete", "The complete path", path.steps, Select(edges, RelevantTo(path.steps)), None)
  }

  /** What `_topological` takes for granted of its edges holds of every corpus. */
  lemma EdgesSound(c: Corpus, edges: seq<Edge>)
    requires EdgesFrom(c, edges)
    ensures EdgesAmong(SlugsOf(c.areas), edges) && Acyclic(Uncontested(edges))
    ensures forall k :: 0 <= k < |edges| ==> 0.15 <= edges[k].weight <= 1.6
  {
    var signals: SignalMap :| SignalsOf(c, signals) && EdgesOf(signals, edges);
    forall p: (Slug, Slug) | p in signals
      ensures p.0 != p.1 && p.0 in SlugsOf(c.areas) && p.1 in SlugsOf(c.areas) && signals[p].Total() <= 1.6
    {
      SignalsBounded(c, signals, p);
      var a, b :| a in c.areas && b in c.areas && p == (a.slug, b.slug);
    }
    EdgesAcyclic(signals, edges);
    EdgesStrong(signals, edges);
    forall k | 0 <= k < |edges|
      ensures 0.15 <= edges[k].weight <= 1.6
    {
      RoundedTo4Within(signals[Key(edges[k])].Total(), 1500, 16000);
    }
  }

  lemma EdgesStrong(signals: SignalMap, edges: seq<Edge>)
    requires EdgesOf(signals, edges)
    ensures forall k :: 0 <= k < |edges| ==>
      Strong(signals, Key(edges[k])) && edges[k].weight == RoundedTo4(signals[Key(edges[k])].Total())
  {
    var ordered :| StrongFirst(signals, ordered) && EdgesFor(signals, ordered, edges);
    forall k | 0 <= k < |edges|
      ensures Strong(signals, Key(edges[k])) && edges[k].weight == RoundedTo4(signals[Key(edges[k])].Total())
    {
      assert ordered[k] in ordered;
    }
  }

  method FindOrder(c: Corpus) returns (order: seq<Slug>, edges: seq<Edge>)
    requires WellFormed(c)
    ensures EdgesFrom(c, edges) && PathOrderOf(c.areas, edges, order)
    ensures |order| == |c.areas|
  {
    var signals := FindSignals(c);
    edges := AcyclicEdges(signals);
    EdgesSound(c, edges);
    order := Topological(c.areas, edges);
  }

  lemma OrderNoRepeats(areas: seq<Area>, edges: seq<Edge>, order: seq<Slug>)
    requires PathOrderOf(areas, edges, order)
    ensures NoRepeats(order)
    ensures forall s :: s in order <==> s in SlugsOf(areas)
  {
    OnceEach(PrecedesIn(SizesOf(areas)), SlugsOf(areas), Uncontested(edges), order);
  }

  /** `full_path` */
  method FullPath(c: Corpus) returns (path: LearningPath)
    requires WellFormed(c)
    ensures FullPathOf(c, path)
  {
    var order, edges := FindOrder(c);
    OrderNoRepeats(c.areas, edges, order);
    var kept := RelevantEdges(order, edges);
    path := LearningPath("complete", "The complete path", order, kept, None);
  }

  // ----- The path to one area -----

  ghost predicate Needed(edges: seq<Edge>, s: Slug, destination: Slug) {
    ReachOrSame(Uncontested(edges), s, destination)
  }

  ghost function NeededFor(edges: seq<Edge>, destination: Slug): Slug -> bool {
    (s: Slug) => Needed(edges, s, destination)
  }

  ghost predicate PathToOf(c: Corpus, texts: Texts, destination: Slug, path: LearningPath) {
    exists edges, order :: EdgesFrom(c, edges) && PathOrderOf(c.areas, edges, order)
      && path == LearningPath(texts.slugify("to-" + destination, "to-area"), "Everything needed for " + destination,
                              path.steps, Select(edges, RelevantTo(path.steps)), Some(destination))
      && path.steps == Select(order, NeededFor(edges, destination))
  }

  /** `path_to` */
  method PathTo(c: Corpus, texts: Texts, destination: Slug) returns (path: Option<LearningPath>)
    requires WellFormed(c)
    ensures path.Some? <==> destination in SlugsOf(c.areas)
    ensures path.Some? ==> PathToOf(c, texts, destination, path.value)
  {
    if !(exists area :: area in c.areas && area.slug == destination) {
      return None;
    }
    var order, edges := FindOrder(c);
    OrderNoRepeats(c.areas, edges, order);
    var predecessors := PredecessorsOf(edges);
    var needed := Ancestors(predecessors, destination);
    var steps := Steps(order, needed);
    SelectAgrees(order, s => s in needed, NeededFor(edges, destination));
    SelectNoRepeats(order, NeededFor(edges, destination));
    var kept := RelevantEdges(steps, edges);
    path := Some(LearningPath(texts.slugify("to-" + destination, "to-area"), "Everything needed for " + destination,
                              steps, kept, Some(destination)));
  }

  method Steps(order: seq<Slug>, needed: set<Slug>) returns (steps: seq<Slug>)
    ensures steps == Select(order, s => s in needed)
  {
    steps := [];
    for k := 0 to |order|
      invariant steps == Select(order[..k], s => s in needed)
    {
      SelectStep(order, k, s => s in needed);
      if order[k] in needed {
        steps := steps + [order[k]];
      }
    }
    assert order[..|order|] == order;
  }

  lemma {:induction false} SelectNoRepeats(order: seq<Slug>, p: Slug -> bool)
    requires NoRepeats(order)
    ensures NoRepeats(Select(order, p))
  {
    if order != [] {
      var n := |order| - 1;
      SelectNoRepeats(order[..n], p);
      SelectMember(order[..n], p, order[n]);
    }
  }

  // ----- What the paths promise -----

  /** Each area comes after whatever leads to it. */
  lemma {:induction false} LedToEarlier(c: Corpus, edges: seq<Edge>, order: seq<Slug>, x: Slug, via: seq<Slug>, k: nat)
    requires EdgesFrom(c, edges) && PathOrderOf(c.areas, edges, order)
    requires k < |order| && Path(Uncontested(edges), x, via, order[k])
    ensures x in order[..k]
    decreases |via|
  {
    EdgesSound(c, edges);
    ArcsAmong(SlugsOf(c.areas), edges);
    if via == [] {
      ArcForward(c, edges, order, x, k);
    } else {
      LedToEarlier(c, edges, order, via[0], via[1..], k);
      var j :| 0 <= j < k && order[j] == via[0];
      ArcForward(c, edges, order, x, j);
      assert order[..j] <= order[..k];
    }
  }

  /** An uncontested edge points forward in the order. */
  lemma ArcForward(c: Corpus, edges: seq<Edge>, order: seq<Slug>, x: Slug, k: nat)
    requires EdgesFrom(c, edges) && PathOrderOf(c.areas, edges, order)
    requires k < |order| && (x, order[k]) in Uncontested(edges)
    ensures x in order[..k]
  {
    EdgesSound(c, edges);
    ArcsAmong(SlugsOf(c.areas), edges);
    ArcsForward(PrecedesIn(SizesOf(c.areas)), SlugsOf(c.areas), Uncontested(edges), order, x, k);
  }

  lemma LedToAmong(c: Corpus, edges: seq<Edge>, order: seq<Slug>, x: Slug, destination: Slug)
    requires EdgesFrom(c, edges) && PathOrderOf(c.areas, edges, order)
    requires destination in order && Needed(edges, x, destination)
    ensures x in order
  {
    if x != destination {
      var k :| 0 <= k < |order| && order[k] == destination;
      var via :| Path(Uncontested(edges), x, via, order[k]);
      LedToEarlier(c, edges, order, x, via, k);
    }
  }

  /** The steps are the destination and all that leads to it, and the destination is last. */
  lemma EndsAtDestination(c: Corpus, edges: seq<Edge>, order: seq<Slug>, destination: Slug)
    requires EdgesFrom(c, edges) && PathOrderOf(c.areas, edges, order) && destination in SlugsOf(c.areas)
    ensures var steps := Select(order, NeededFor(edges, destination));
      steps != [] && steps[|steps| - 1] == destination
  {
    OrderNoRepeats(c.areas, edges, order);
    var k :| 0 <= k < |order| && order[k] == destination;
    forall j | k < j < |order|
      ensures !Needed(edges, order[j], destination)
    {
      if Reach(Uncontested(edges), order[j], destination) {
        var via :| Path(Uncontested(edges), order[j], via, order[k]);
        LedToEarlier(c, edges, order, order[j], via, k);
        assert false;
      }
    }
    SelectEnds(order, NeededFor(edges, destination), k);
  }

  lemma EdgesFromUnique(c: Corpus, d: Corpus, edges: seq<Edge>, edges': seq<Edge>)
    requires WellFormed(c) && WellFormed(d) && Reordered(c, d)
    requires EdgesFrom(c, edges) && EdgesFrom(d, edges')
    ensures edges == edges'
  {
    var signals :| SignalsOf(c, signals) && EdgesOf(signals, edges);
    var signals' :| SignalsOf(d, signals') && EdgesOf(signals', edges');
    SignalsUnordered(c, d, signals, signals');
    EdgesUnique(signals, edges, edges');
  }

  /** A path to an area, set beside the whole path of the same corpus: the steps are exactly
      the destination and what leads to it, nothing a step needs is missing, the destination
      comes last, and the order is that of the whole path. */
  lemma PathToSound(c: Corpus, texts: Texts, destination: Slug, path: LearningPath, full: LearningPath)
    returns (edges: seq<Edge>)
    requires WellFormed(c) && destination in SlugsOf(c.areas)
    requires PathToOf(c, texts, destination, path) && FullPathOf(c, full)
    ensures EdgesFrom(c, edges)
    ensures forall s :: s in path.steps <==> Needed(edges, s, destination)
    ensures ClosedBackward(Uncontested(edges), set s | s in path.steps)
    ensures path.steps != [] && path.steps[|path.steps| - 1] == destination
    ensures path.steps == Select(full.steps, s => s in path.steps)
  {
    var edges0, order :| EdgesFrom(c, edges0) && PathOrderOf(c.areas, edges0, order)
      && path.steps == Select(order, NeededFor(edges0, destination));
    edges := edges0;
    OrderOfFull(c, edges, order, full);
    StepsSound(c, edges, order, destination, path.steps);
  }

  lemma StepsSound(c: Corpus, edges: seq<Edge>, order: seq<Slug>, destination: Slug, steps: seq<Slug>)
    requires EdgesFrom(c, edges) && PathOrderOf(c.areas, edges, order) && destination in SlugsOf(c.areas)
    requires steps == Select(order, NeededFor(edges, destination))
    ensures forall s :: s in steps <==> Needed(edges, s, destination)
    ensures ClosedBackward(Uncontested(edges), set s | s in steps)
    ensures steps != [] && steps[|steps| - 1] == destination
    ensures steps == Select(order, s => s in steps)
  {
    EndsAtDestination(c, edges, order, destination);
    StepsNeeded(c, edges, order, destination);
    NeededClosed(edges, destination, steps);
    SelectAgrees(order, NeededFor(edges, destination), s => s in steps);
  }

  lemma OrderOfFull(c: Corpus, edges: seq<Edge>, order: seq<Slug>, full: LearningPath)
    requires WellFormed(c) && FullPathOf(c, full) && EdgesFrom(c, edges) && PathOrderOf(c.areas, edges, order)
    ensures order == full.steps
  {
    var edges' :| EdgesFrom(c, edges') && PathOrderOf(c.areas, edges', full.steps);
    EdgesFromUnique(c, c, edges, edges');
    PathOrderUnique(c.areas, edges, order, full.steps);
  }

  lemma StepsNeeded(c: Corpus, edges: seq<Edge>, order: seq<Slug>, destination: Slug)
    requires EdgesFrom(c, edges) && PathOrderOf(c.areas, edges, order) && destination in SlugsOf(c.areas)
    ensures forall s :: s in Select(order, NeededFor(edges, destination)) <==> Needed(edges, s, destination)
  {
    OrderNoRepeats(c.areas, edges, order);
    forall s
      ensures s in Select(order, NeededFor(edges, destination)) <==> Needed(edges, s, destination)
    {
      SelectMember(order, NeededFor(edges, destination), s);
      if Needed(edges, s, destination) {
        LedToAmong(c, edges, order, s, destination);
      }
    }
  }

  lemma NeededClosed(edges: seq<Edge>, destination: Slug, steps: seq<Slug>)
    requires forall s :: s in steps <==> Needed(edges, s, destination)
    ensures ClosedBackward(Uncontested(edges), set s | s in steps)
  {
    forall x, y | y in steps && (x, y) in Uncontested(edges)
      ensures x in steps
    {
      ReachStep(Uncontested(edges), x, y, destination);
    }
  }

  // ----- Nothing else decides them -----

  lemma SizesReordered(areas: seq<Area>, areas': seq<Area>)
    requires DistinctSlugs(areas) && DistinctSlugs(areas') && multiset(areas) == multiset(areas')
    ensures SizesOf(areas) == SizesOf(areas')
  {
    SameSlugsOf(areas, areas');
    SameSlugsOf(areas', areas);
    forall s | s in SizesOf(areas)
      ensures SizesOf(areas)[s] == SizesOf(areas')[s]
    {
      var k :| 0 <= k < |areas| && areas[k].slug == s;
      SameElements(areas, areas', areas[k]);
      SizeOfArea(areas, areas[k]);
      SizeOfArea(areas', areas[k]);
    }
  }

  lemma SameSlugsOf(areas: seq<Area>, areas': seq<Area>)
    requires multiset(areas) == multiset(areas')
    ensures SlugsOf(areas) <= SlugsOf(areas')
  {
    forall s | s in SlugsOf(areas)
      ensures s in SlugsOf(areas')
    {
      var k :| 0 <= k < |areas| && areas[k].slug == s;
      SameElements(areas, areas', areas[k]);
      var j :| 0 <= j < |areas'| && areas'[j] == areas[k];
    }
  }

  /** However the areas, relationships and passages are listed, the whole path is the same. */
  lemma FullPathUnordered(c: Corpus, d: Corpus, p: LearningPath, q: LearningPath)
    requires WellFormed(c) && WellFormed(d) && Reordered(c, d)
    requires FullPathOf(c, p) && FullPathOf(d, q)
    ensures p == q
  {
    var edges :| EdgesFrom(c, edges) && PathOrderOf(c.areas, edges, p.steps)
      && p == LearningPath("complete", "The complete path", p.steps, Select(edges, RelevantTo(p.steps)), None);
    var edges' :| EdgesFrom(d, edges') && PathOrderOf(d.areas, edges', q.steps)
      && q == LearningPath("complete", "The complete path", q.steps, Select(edges', RelevantTo(q.steps)), None);
    EdgesFromUnique(c, d, edges, edges');
    SizesReordered(c.areas, d.areas);
    SameSlugsOf(c.areas, d.areas);
    SameSlugsOf(d.areas, c.areas);
    PathOrderUnique(c.areas, edges, p.steps, q.steps);
  }

  // ----- From the projection -----

  /** What the paths take for granted of their areas is true of every projection's. */
  lemma ProjectedWellFormed(s: Source, eps: real, texts: Texts, p: Projection, relations: seq<Relation>,
                            passages: seq<set<Id>>)
    requires ProjectionOf(s, eps, texts, p)
    ensures WellFormed(Corpus(p.areas, relations, passages))
  {
    var b :| BuiltFrom(s, b) && Reports(p, |s.entities|, b) && AreasFor(b.graph, eps, texts, ById(s.entities), p.areas);
    AreasForWellFormed(b.graph, eps, texts, ById(s.entities), p.areas);
  }

  lemma AreasForWellFormed(g: Graph, eps: real, texts: Texts, byId: map<Id, Entity>, areas: seq<Area>)
    requires AreasFor(g, eps, texts, byId, areas)
    ensures DistinctSlugs(areas) && DisjointAreas(areas)
  {
    var out :| Communities(g, eps, out) && AreasOf(g, byId, texts, SortBy(out, Larger), areas);
    ProjectionWellFormed(g, eps, byId, texts, out, areas);
  }
}
