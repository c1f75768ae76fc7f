/** research_team/curriculum/application/learning_paths.py: the order of the areas, the
    whole path, and the path to one area. */
module PathOrder {
  import opened Sums
  import opened Orders
  import opened Digraphs
  import opened Kahn
  import opened LearningPaths
  import opened AreaProjection

  type Sizes = map<Slug, nat>

  function SizeIn(sizes: Sizes, s: Slug): nat {
    if s in sizes then sizes[s] else 0
  }

  /** The key `(-size, slug)`. */
  predicate Precedes(sizes: Sizes, s: Slug, t: Slug) {
    SizeIn(sizes, s) > SizeIn(sizes, t) || (SizeIn(sizes, s) == SizeIn(sizes, t) && Before(s, t))
  }

  function PrecedesIn(sizes: Sizes): (Slug, Slug) -> bool {
    (s: Slug, t: Slug) => Precedes(sizes, s, t)
  }

  lemma PrecedesTotal(sizes: Sizes)
    ensures TotalOrder(PrecedesIn(sizes))
  {
    var before := PrecedesIn(sizes);
    forall x, y, z | before(x, y) && before(y, z)
      ensures before(x, z)
    {
      if Before(x, y) && Before(y, z) {
        BeforeTransitive(x, y, z);
      }
    }
    forall x, y | before(x, y)
      ensures !before(y, x)
    {
      BeforeAsymmetric(x, y);
    }
    forall x, y | x != y
      ensures before(x, y) || before(y, x)
    {
      BeforeTotal(x, y);
    }
  }

  // ----- The topological order -----

  ghost function SlugsOf(areas: seq<Area>): set<Slug> {
    set k | 0 <= k < |areas| :: areas[k].slug
  }

  /** `{area.slug: area.size for area in areas}` */
  function SizesOf(areas: seq<Area>): (sizes: Sizes)
    ensures sizes.Keys == SlugsOf(areas)
  {
    if areas == [] then map[] else
      var n := |areas| - 1;
      SizesNext(areas);
      SizesOf(areas[..n])[areas[n].slug := |areas[n].members|]
  }

  lemma SizesNext(areas: seq<Area>)
    requires areas != []
    ensures SlugsOf(areas) == SlugsOf(areas[..|areas| - 1]) + {areas[|areas| - 1].slug}
  {
    var n := |areas| - 1;
    forall s | s in SlugsOf(areas)
      ensures s in SlugsOf(areas[..n]) + {areas[n].slug}
    {
      var k :| 0 <= k < |areas| && areas[k].slug == s;
      assert k < n ==> areas[..n][k] == areas[k];
    }
  }

  lemma {:induction false} SlugCount(areas: seq<Area>)
    requires DistinctSlugs(areas)
    ensures |SlugsOf(areas)| == |areas|
    decreases |areas|
  {
    if areas != [] {
      var n := |areas| - 1;
      SlugCount(areas[..n]);
      SizesNext(areas);
      assert areas[n].slug !in SlugsOf(areas[..n]);
    }
  }

  /** The uncontested edges join areas of this projection. */
  ghost predicate EdgesAmong(nodes: set<Slug>, edges: seq<Edge>) {
    forall k :: 0 <= k < |edges| && !edges[k].contested ==> edges[k].before in nodes && edges[k].after in nodes
  }

  /** Lines 270-276: each arc once, however often it is listed. */
  method FillTables(nodes: set<Slug>, edges: seq<Edge>) returns (successors: Successors<Slug>, indegree: Degrees<Slug>)
    requires EdgesAmong(nodes, edges)
    ensures Tabled(nodes, Uncontested(edges), successors, indegree)
  {
    successors, indegree := EmptyTables(nodes);
    assert Uncontested(edges[..0]) == {};
    for k := 0 to |edges|
      invariant Tabled(nodes, Uncontested(edges[..k]), successors, indegree)
    {
      var edge := edges[k];
      if edge.contested || edge.after in Next(successors, edge.before) {
        SkipEdge(nodes, edges, k, successors, indegree);
        continue;
      }
      successors, indegree := AddToTables(nodes, edges, k, successors, indegree);
    }
    assert edges[..|edges|] == edges;
  }

  /** Lines 275-276 */
  method AddToTables(ghost nodes: set<Slug>, edges: seq<Edge>, k: nat, successors0: Successors<Slug>,
                     indegree0: Degrees<Slug>)
    returns (successors: Successors<Slug>, indegree: Degrees<Slug>)
    requires k < |edges| && EdgesAmong(nodes, edges)
    requires Tabled(nodes, Uncontested(edges[..k]), successors0, indegree0)
    requires !edges[k].contested && edges[k].after !in Next(successors0, edges[k].before)
    ensures Tabled(nodes, Uncontested(edges[..k + 1]), successors, indegree)
  {
    var edge := edges[k];
    AddEdge(nodes, edges, k, successors0, indegree0);
    successors := successors0[edge.before := successors0[edge.before] + {edge.after}];
    indegree := indegree0[edge.after := indegree0[edge.after] + 1];
  }

  lemma SkipEdge(nodes: set<Slug>, edges: seq<Edge>, k: nat, successors: Successors<Slug>, indegree: Degrees<Slug>)
    requires k < |edges| && Tabled(nodes, Uncontested(edges[..k]), successors, indegree)
    requires edges[k].contested || edges[k].after in Next(successors, edges[k].before)
    ensures Tabled(nodes, Uncontested(edges[..k + 1]), successors, indegree)
  {
    UncontestedStep(edges, k);
    if !edges[k].contested {
      assert Key(edges[k]) in ArcsOf(successors);
    }
    assert Uncontested(edges[..k + 1]) == Uncontested(edges[..k]);
  }

  lemma AddEdge(nodes: set<Slug>, edges: seq<Edge>, k: nat, successors: Successors<Slug>, indegree: Degrees<Slug>)
    requires k < |edges| && EdgesAmong(nodes, edges)
    requires Tabled(nodes, Uncontested(edges[..k]), successors, indegree)
    requires !edges[k].contested && edges[k].after !in Next(successors, edges[k].before)
    ensures edges[k].before in nodes && edges[k].after in nodes
    ensures Tabled(nodes, Uncontested(edges[..k + 1]),
                   successors[edges[k].before := successors[edges[k].before] + {edges[k].after}],
                   indegree[edges[k].after := indegree[edges[k].after] + 1])
  {
    UncontestedStep(edges, k);
    AddArc(nodes, Uncontested(edges[..k]), successors, indegree, edges[k].before, edges[k].after);
  }

  /** What `_topological` returns for these areas and edges. */
  ghost predicate PathOrderOf(areas: seq<Area>, edges: seq<Edge>, order: seq<Slug>) {
    IsKahnOrder(PrecedesIn(SizesOf(areas)), SlugsOf(areas), Uncontested(edges), order)
  }

  /** `_topological`. Its closing assertion is proved: no area is ever dropped. */
  method Topological(areas: seq<Area>, edges: seq<Edge>) returns (order: seq<Slug>)
    requires DistinctSlugs(areas) && EdgesAmong(SlugsOf(areas), edges)
    requires Acyclic(Uncontested(edges))
    ensures PathOrderOf(areas, edges, order)
    ensures |order| == |areas|
  {
    var sizes := SizesOf(areas);
    var nodes := sizes.Keys;
    ghost var e := Uncontested(edges);
    ArcsAmong(nodes, edges);
    PrecedesTotal(sizes);
    var successors, indegree := FillTables(nodes, edges);
    var ready := FirstReady(PrecedesIn(sizes), nodes, e, indegree);
    order := [];
    while ready != []
      invariant Draining(PrecedesIn(sizes), nodes, e, order, indegree, ready)
      decreases |nodes| - |Out(order)|
    {
      ghost var was := Out(order);
      order, indegree, ready := DrainOne(PrecedesIn(sizes), nodes, e, successors, order, indegree, ready);
      SubsetNoLarger(Out(order), nodes);
    }
    AllOut(PrecedesIn(sizes), nodes, e, order, indegree, ready);
    OnceEach(PrecedesIn(sizes), nodes, e, order);
    SlugCount(areas);
    assert |order| == |areas|;
  }

  lemma ArcsAmong(nodes: set<Slug>, edges: seq<Edge>)
    requires EdgesAmong(nodes, edges)
    ensures forall a {:trigger a in Uncontested(edges)} :: a in Uncontested(edges) ==> a.0 in nodes && a.1 in nodes
  {
    forall a | a in Uncontested(edges)
      ensures a.0 in nodes && a.1 in nodes
    {
      var edge :| edge in edges && !edge.contested && Key(edge) == a;
      var k :| 0 <= k < |edges| && edges[k] == edge;
    }
  }

  lemma AllOut(before: (Slug, Slug) -> bool, nodes: set<Slug>, e: Arcs<Slug>, order: seq<Slug>,
               indegree: Degrees<Slug>, ready: seq<Slug>)
    requires Acyclic(e) && Draining(before, nodes, e, order, indegree, ready) && ready == []
    ensures Out(order) == nodes
  {
    if Out(order) != nodes {
      var s := SomethingAvailable(nodes, e, Out(order));
      assert false;
    }
  }

  /** The order is the only one: a function of the areas' sizes and slugs and the edges. */
  lemma PathOrderUnique(areas: seq<Area>, edges: seq<Edge>, p: seq<Slug>, q: seq<Slug>)
    requires PathOrderOf(areas, edges, p) && PathOrderOf(areas, edges, q)
    ensures p == q
  {
    PrecedesTotal(SizesOf(areas));
    KahnUnique(PrecedesIn(SizesOf(areas)), SlugsOf(areas), Uncontested(edges), p, q);
  }

  lemma {:induction false} SizeOfArea(areas: seq<Area>, a: Area)
    requires DistinctSlugs(areas) && a in areas
    ensures SizeIn(SizesOf(areas), a.slug) == |a.members|
    decreases |areas|
  {
    var n := |areas| - 1;
    assert areas == areas[..n] + [areas[n]];
    if a != areas[n] {
      SizeOfArea(areas[..n], a);
      SameSlugApart(areas, a);
    }
  }

  lemma SameSlugApart(areas: seq<Area>, a: Area)
    requires DistinctSlugs(areas) && a in areas && a != areas[|areas| - 1]
    ensures a.slug != areas[|areas| - 1].slug
  {
  }

  /** Of two areas with nothing left before them the larger is put out first, by its members, and of
      two as large the one with the lower slug. */
  lemma LargestFirst(areas: seq<Area>, edges: seq<Edge>, order: seq<Slug>, i: nat, j: nat, a: Area, b: Area)
    requires DistinctSlugs(areas) && PathOrderOf(areas, edges, order) && i < j < |order|
    requires a in areas && b in areas && a.slug == order[i] && b.slug == order[j]
    requires forall e :: e in edges && !e.contested && e.after == b.slug ==> e.before in order[..i]
    ensures |a.members| > |b.members| || (|a.members| == |b.members| && Before(a.slug, b.slug))
  {
    var before, nodes, e := PrecedesIn(SizesOf(areas)), SlugsOf(areas), Uncontested(edges);
    OnceEach(before, nodes, e, order);
    assert ChosenAt(before, nodes, e, order, i);
    assert Blockers(nodes, e, Out(order[..i]), b.slug) == {};
    assert order[j] in order;
    assert Available(nodes, e, Out(order[..i]), b.slug);
    SizeOfArea(areas, a);
    SizeOfArea(areas, b);
  }

  // ----- Ancestors -----

  ghost function BackArcs(predecessors: Successors<Slug>): Arcs<Slug> {
    set x, y | y in predecessors && x in predecessors[y] :: (x, y)
  }

  lemma InsertBackArc(predecessors: Successors<Slug>, x: Slug, y: Slug)
    ensures BackArcs(predecessors[y := Next(predecessors, y) + {x}]) == BackArcs(predecessors) + {(x, y)}
  {
  }

  /** Lines 336-339 */
  method PredecessorsOf(edges: seq<Edge>) returns (predecessors: Successors<Slug>)
    ensures BackArcs(predecessors) == Uncontested(edges)
  {
    predecessors := map[];
    for k := 0 to |edges|
      invariant BackArcs(predecessors) == Uncontested(edges[..k])
    {
      UncontestedStep(edges, k);
      if !edges[k].contested {
        InsertBackArc(predecessors, edges[k].before, edges[k].after);
        predecessors := predecessors[edges[k].after := Next(predecessors, edges[k].after) + {edges[k].before}];
      }
    }
    assert edges[..|edges|] == edges;
  }

  ghost predicate ClosedBackward(e: Arcs<Slug>, s: set<Slug>) {
    forall x, y {:trigger (x, y) in e} :: y in s && (x, y) in e ==> x in s
  }

  lemma {:induction false} PathFromInside(e: Arcs<Slug>, s: set<Slug>, x: Slug, via: seq<Slug>, y: Slug)
    requires ClosedBackward(e, s) && y in s && Path(e, x, via, y)
    ensures x in s
    decreases |via|
  {
    if via != [] {
      PathFromInside(e, s, via[0], via[1..], y);
      assert (x, via[0]) in e;
    } else {
      assert (x, y) in e;
    }
  }

  /** Lines 341-346: the destination, and whatever leads to it. */
  method Ancestors(predecessors: Successors<Slug>, destination: Slug) returns (needed: set<Slug>)
    ensures forall s :: s in needed <==> ReachOrSame(BackArcs(predecessors), s, destination)
  {
    var stack := [destination];
    needed := {destination};
    ghost var e := BackArcs(predecessors);
    ghost var all := {destination} + Heads(predecessors);
    while stack != []
      invariant destination in needed && needed <= all
      invariant forall x :: x in stack ==> x in needed
      invariant forall x :: x in needed ==> ReachOrSame(e, x, destination)
      invariant forall x :: x in needed ==> x in stack || Next(predecessors, x) <= needed
      decreases all - needed, |stack|
    {
      var current := stack[|stack| - 1];
      assert current in stack;
      ghost var before := stack;
      stack := stack[..|stack| - 1];
      assert forall x :: x in before ==> x in stack || x == current;
      ghost var needed0, stack0 := needed, stack;
      var todo := Next(predecessors, current);
      while todo != {}
        invariant todo <= Next(predecessors, current)
        invariant destination in needed && needed0 <= needed <= all && current in needed
        invariant needed == needed0 ==> stack == stack0
        invariant forall x :: x in stack ==> x in needed
        invariant forall x :: x in needed ==> ReachOrSame(e, x, destination)
        invariant forall x :: x in needed ==> x in stack || x == current || Next(predecessors, x) <= needed
        invariant Next(predecessors, current) - todo <= needed
        decreases |todo|
      {
        var prior :| prior in todo;
        todo := todo - {prior};
        assert (prior, current) in e;
        ReachStep(e, prior, current, destination);
        if prior !in needed {
          needed := needed + {prior};
          stack := stack + [prior];
        }
      }
    }
    assert ClosedBackward(e, needed);
    forall s | Reach(e, s, destination)
      ensures s in needed
    {
      var via :| Path(e, s, via, destination);
      PathFromInside(e, needed, s, via, destination);
    }
  }
}
