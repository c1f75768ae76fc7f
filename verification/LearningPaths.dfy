/** research_team/curriculum/application/learning_paths.py: which area comes first, and why. */
module LearningPaths {
  import opened Reals
  import opened Digraphs
  import opened Orders
  import opened Sorting

  type Slug = string

  const MIN_EDGE_WEIGHT := 0.15

  // ----- Reachability -----

  /** Everything `x` leads to has been seen, and the target is not among it. */
  ghost predicate Expanded(graph: Successors<Slug>, seen: set<Slug>, target: Slug, x: Slug) {
    Next(graph, x) <= seen && target !in Next(graph, x)
  }

  /** `_reaches`: depth first, from `start`. Order among successors is left open. */
  method Reaches(graph: Successors<Slug>, start: Slug, target: Slug) returns (found: bool)
    ensures found <==> Reach(ArcsOf(graph), start, target)
  {
    var seen, stack := {start}, [start];
    ghost var all := {start} + Heads(graph);
    while stack != []
      invariant start in seen && seen <= all
      invariant forall x :: x in stack ==> x in seen
      invariant forall x :: x in seen ==> ReachOrSame(ArcsOf(graph), start, x)
      invariant forall x :: x in seen ==> x in stack || Expanded(graph, seen, target, x)
      decreases all - seen, |stack|
    {
      var current := stack[|stack| - 1];
      assert current in stack;
      ghost var before := stack;
      stack := stack[..|stack| - 1];
      assert forall x :: x in before ==> x in stack || x == current;
      ghost var seen0, stack0 := seen, stack;
      var todo := Next(graph, current);
      while todo != {}
        invariant todo <= Next(graph, current)
        invariant start in seen && seen0 <= seen <= all && current in seen
        invariant seen == seen0 ==> stack == stack0
        invariant forall x :: x in stack ==> x in seen
        invariant forall x :: x in seen ==> ReachOrSame(ArcsOf(graph), start, x)
        invariant forall x :: x in seen ==> x in stack || x == current || Expanded(graph, seen, target, x)
        invariant Next(graph, current) - todo <= seen && target !in Next(graph, current) - todo
        decreases |todo|
      {
        var nxt :| nxt in todo;
        todo := todo - {nxt};
        SeenNext(graph, start, current, nxt);
        if nxt == target {
          return true;
        }
        if nxt !in seen {
          seen := seen + {nxt};
          stack := stack + [nxt];
        }
      }
    }
    assert ClosedForward(ArcsOf(graph), seen);
    NotReached(ArcsOf(graph), seen, start, target);
    return false;
  }

  lemma SeenNext(graph: Successors<Slug>, start: Slug, current: Slug, nxt: Slug)
    requires ReachOrSame(ArcsOf(graph), start, current) && nxt in Next(graph, current)
    ensures Reach(ArcsOf(graph), start, nxt) && nxt in Heads(graph)
  {
    ReachArc(ArcsOf(graph), current, nxt);
    if start != current {
      ReachTransitive(ArcsOf(graph), start, current, nxt);
    }
  }

  // ----- Edges, strongest first -----

  datatype Signals = Signals(references: real, temporal: real, breadth: real) {
    function Total(): real {
      references + temporal + breadth
    }
  }

  type SignalMap = map<(Slug, Slug), Signals>

  /** One ordering claim. The weight is the signals' total, to four places. */
  datatype Edge = Edge(before: Slug, after: Slug, weight: real, contested: bool)

  function Key(e: Edge): (Slug, Slug) {
    (e.before, e.after)
  }

  function TotalOf(signals: SignalMap, p: (Slug, Slug)): real {
    if p in signals then signals[p].Total() else 0.0
  }

  predicate Strong(signals: SignalMap, p: (Slug, Slug)) {
    p in signals && signals[p].Total() >= MIN_EDGE_WEIGHT
  }

  predicate PairBefore(p: (Slug, Slug), q: (Slug, Slug)) {
    Before(p.0, q.0) || (p.0 == q.0 && Before(p.1, q.1))
  }

  /** The key `(-total, before, after)` of line 237. */
  predicate Stronger(signals: SignalMap, p: (Slug, Slug), q: (Slug, Slug)) {
    TotalOf(signals, p) > TotalOf(signals, q) || (TotalOf(signals, p) == TotalOf(signals, q) && PairBefore(p, q))
  }

  function StrongerIn(signals: SignalMap): ((Slug, Slug), (Slug, Slug)) -> bool {
    (p: (Slug, Slug), q: (Slug, Slug)) => Stronger(signals, p, q)
  }

  lemma PairBeforeOrder(p: (Slug, Slug), q: (Slug, Slug), r: (Slug, Slug))
    ensures PairBefore(p, q) && PairBefore(q, r) ==> PairBefore(p, r)
    ensures !(PairBefore(p, q) && PairBefore(q, p))
    ensures p == q || PairBefore(p, q) || PairBefore(q, p)
  {
    BeforeTotal(p.0, q.0);
    BeforeTotal(p.1, q.1);
    BeforeAsymmetric(p.0, q.0);
    BeforeAsymmetric(p.1, q.1);
    BeforeAsymmetric(p.0, p.0);
    if Before(p.0, q.0) && Before(q.0, r.0) {
      BeforeTransitive(p.0, q.0, r.0);
    }
    if Before(p.1, q.1) && Before(q.1, r.1) {
      BeforeTransitive(p.1, q.1, r.1);
    }
  }

  lemma StrongerOrder(signals: SignalMap)
    ensures StrictOrder(StrongerIn(signals))
    ensures forall q :: Comparable(q, StrongerIn(signals))
  {
    var before := StrongerIn(signals);
    forall x, y, z | before(x, y) && before(y, z)
      ensures before(x, z)
    {
      PairBeforeOrder(x, y, z);
    }
    forall x, y | before(x, y)
      ensures !before(y, x)
    {
      PairBeforeOrder(x, y, x);
    }
    forall x, y | x != y
      ensures before(x, y) || before(y, x)
    {
      PairBeforeOrder(x, y, x);
    }
  }

  /** The strong pairs, each once, strongest first. */
  ghost predicate StrongFirst(signals: SignalMap, ordered: seq<(Slug, Slug)>) {
    && (forall p :: p in ordered <==> Strong(signals, p))
    && Pairwise(ordered, StrongerIn(signals))
  }

  /** Lines 235-238 */
  method OrderPairs(signals: SignalMap) returns (ordered: seq<(Slug, Slug)>)
    ensures StrongFirst(signals, ordered)
  {
    var pairs: seq<(Slug, Slug)> := [];
    var todo := signals.Keys;
    while todo != {}
      invariant todo <= signals.Keys
      invariant forall p :: p in pairs <==> Strong(signals, p) && p !in todo
      invariant forall i, j :: 0 <= i < j < |pairs| ==> pairs[i] != pairs[j]
      decreases |todo|
    {
      var p :| p in todo;
      todo := todo - {p};
      if signals[p].Total() >= MIN_EDGE_WEIGHT {
        pairs := pairs + [p];
      }
    }
    ordered := SortBy(pairs, StrongerIn(signals));
    SortedStrictly(signals, pairs);
    SortedStrong(signals, pairs, StrongerIn(signals));
  }

  lemma SortedStrong(signals: SignalMap, pairs: seq<(Slug, Slug)>, before: ((Slug, Slug), (Slug, Slug)) -> bool)
    requires forall p :: p in pairs <==> Strong(signals, p)
    ensures forall p :: p in SortBy(pairs, before) <==> Strong(signals, p)
  {
    forall p: (Slug, Slug)
      ensures p in SortBy(pairs, before) <==> Strong(signals, p)
    {
      SortMember(pairs, before, p);
    }
  }

  lemma SortedStrictly(signals: SignalMap, pairs: seq<(Slug, Slug)>)
    requires forall i, j :: 0 <= i < j < |pairs| ==> pairs[i] != pairs[j]
    ensures Pairwise(SortBy(pairs, StrongerIn(signals)), StrongerIn(signals))
  {
    StrongerOrder(signals);
    SortStrict(pairs, StrongerIn(signals));
  }

  /** The arcs a path may follow: those no cycle contests. */
  ghost function Uncontested(edges: seq<Edge>): Arcs<Slug> {
    set e | e in edges && !e.contested :: Key(e)
  }

  /** Edge `k` is contested exactly when the arcs kept before it already lead back. */
  ghost predicate Judged(edges: seq<Edge>, k: nat)
    requires k < |edges|
  {
    edges[k].contested <==> Reach(Uncontested(edges[..k]), edges[k].after, edges[k].before)
  }

  ghost predicate EdgesFor(signals: SignalMap, ordered: seq<(Slug, Slug)>, edges: seq<Edge>) {
    && |edges| == |ordered|
    && (forall k :: 0 <= k < |edges| ==>
          Key(edges[k]) == ordered[k] && edges[k].weight == RoundedTo4(TotalOf(signals, ordered[k])))
    && (forall k :: 0 <= k < |edges| ==> Judged(edges, k))
  }

  /** What `_acyclic_edges` gives for these signals. */
  ghost predicate EdgesOf(signals: SignalMap, edges: seq<Edge>) {
    exists ordered :: StrongFirst(signals, ordered) && EdgesFor(signals, ordered, edges)
  }

  /** `_acyclic_edges` */
  method AcyclicEdges(signals: SignalMap) returns (edges: seq<Edge>)
    ensures EdgesOf(signals, edges)
  {
    var ordered := OrderPairs(signals);
    var adjacency: Successors<Slug> := map[];
    edges := [];
    for k := 0 to |ordered|
      invariant EdgesFor(signals, ordered[..k], edges)
      invariant ArcsOf(adjacency) == Uncontested(edges)
    {
      var (before, after) := ordered[k];
      assert ordered[k] in ordered;
      var closes := Reaches(adjacency, after, before);
      if !closes {
        InsertArc(adjacency, before, after);
        adjacency := adjacency[before := Next(adjacency, before) + {after}];
      }
      var edge := Edge(before, after, RoundedTo4(signals[ordered[k]].Total()), closes);
      EdgesNext(signals, ordered, k, edges, edge);
      edges := edges + [edge];
    }
    assert ordered[..|ordered|] == ordered;
  }

  lemma EdgesNext(signals: SignalMap, ordered: seq<(Slug, Slug)>, k: nat, edges: seq<Edge>, edge: Edge)
    requires k < |ordered| && EdgesFor(signals, ordered[..k], edges)
    requires Key(edge) == ordered[k] && edge.weight == RoundedTo4(TotalOf(signals, ordered[k]))
    requires edge.contested <==> Reach(Uncontested(edges), edge.after, edge.before)
    ensures EdgesFor(signals, ordered[..k + 1], edges + [edge])
    ensures Uncontested(edges + [edge]) == Uncontested(edges) + if edge.contested then {} else {Key(edge)}
  {
    var longer := edges + [edge];
    assert longer[..k] == edges;
    forall j | 0 <= j < |longer|
      ensures Judged(longer, j)
    {
      if j < k {
        assert longer[..j] == edges[..j];
        assert Judged(edges, j);
      }
    }
  }

  // ----- What the edges promise -----

  lemma UncontestedGrows(edges: seq<Edge>, j: nat, k: nat)
    requires j <= k <= |edges|
    ensures Uncontested(edges[..j]) <= Uncontested(edges[..k])
  {
    assert forall e :: e in edges[..j] ==> e in edges[..k] by {
      assert edges[..j] == edges[..k][..j];
    }
  }

  lemma UncontestedStep(edges: seq<Edge>, k: nat)
    requires k < |edges|
    ensures Uncontested(edges[..k + 1]) == Uncontested(edges[..k]) + if edges[k].contested then {} else {Key(edges[k])}
  {
    assert edges[..k + 1] == edges[..k] + [edges[k]];
  }

  lemma {:induction false} PrefixAcyclic(edges: seq<Edge>, k: nat)
    requires forall j :: 0 <= j < |edges| ==> Judged(edges, j)
    requires forall j :: 0 <= j < |edges| ==> edges[j].before != edges[j].after
    requires k <= |edges|
    ensures Acyclic(Uncontested(edges[..k]))
  {
    if k == 0 {
      NoArcsNoCycle(Uncontested(edges[..0]));
    } else {
      PrefixAcyclic(edges, k - 1);
      UncontestedStep(edges, k - 1);
      assert Judged(edges, k - 1);
      if !edges[k - 1].contested {
        AcyclicExtend(Uncontested(edges[..k - 1]), edges[k - 1].before, edges[k - 1].after);
      } else {
        assert Uncontested(edges[..k]) == Uncontested(edges[..k - 1]);
      }
    }
  }

  lemma NoArcsNoCycle(e: Arcs<Slug>)
    requires e == {}
    ensures Acyclic(e)
  {
    forall x
      ensures !Reach(e, x, x)
    {
      NotReached(e, {x}, x, x);
    }
  }

  /** The uncontested edges never form a cycle. */
  lemma EdgesAcyclic(signals: SignalMap, edges: seq<Edge>)
    requires EdgesOf(signals, edges)
    requires forall p :: p in signals ==> p.0 != p.1
    ensures Acyclic(Uncontested(edges))
  {
    var ordered :| StrongFirst(signals, ordered) && EdgesFor(signals, ordered, edges);
    forall j | 0 <= j < |edges|
      ensures edges[j].before != edges[j].after
    {
      assert ordered[j] in ordered;
    }
    PrefixAcyclic(edges, |edges|);
    assert edges[..|edges|] == edges;
  }

  /** The three signals behind a claim, added up. */
  ghost function Strength(signals: SignalMap, before: Slug, after: Slug): real {
    if (before, after) in signals then
      var s := signals[(before, after)];
      s.references + s.temporal + s.breadth
    else 0.0
  }

  lemma EdgeIsClaim(signals: SignalMap, ordered: seq<(Slug, Slug)>, edges: seq<Edge>, e: Edge)
    requires StrongFirst(signals, ordered) && EdgesFor(signals, ordered, edges) && e in edges
    ensures Key(e) in signals && Strength(signals, e.before, e.after) >= 0.15
    ensures e.weight == RoundedTo4(Strength(signals, e.before, e.after))
  {
    var k :| 0 <= k < |edges| && edges[k] == e;
    assert ordered[k] == Key(e) && ordered[k] in ordered;
  }

  lemma ClaimIsEdge(signals: SignalMap, ordered: seq<(Slug, Slug)>, edges: seq<Edge>, p: (Slug, Slug)) returns (e: Edge)
    requires StrongFirst(signals, ordered) && EdgesFor(signals, ordered, edges)
    requires p in signals && Strength(signals, p.0, p.1) >= 0.15
    ensures e in edges && Key(e) == p
  {
    assert Strong(signals, p) && p in ordered;
    var k :| 0 <= k < |ordered| && ordered[k] == p;
    e := edges[k];
  }

  /** An edge is a claim of 0.15 or more, and every such claim is an edge; what it weighs is the
      claim's strength, to four places. */
  lemma EdgesSay(signals: SignalMap, edges: seq<Edge>, before: Slug, after: Slug)
    requires EdgesOf(signals, edges)
    ensures (exists e :: e in edges && Key(e) == (before, after))
       <==> (before, after) in signals && Strength(signals, before, after) >= 0.15
    ensures forall e :: e in edges && Key(e) == (before, after) ==>
              && e.weight == RoundedTo4(Strength(signals, before, after))
              && -0.00005 <= e.weight - Strength(signals, before, after) <= 0.00005
  {
    var ordered :| StrongFirst(signals, ordered) && EdgesFor(signals, ordered, edges);
    RoundedTo4Near(Strength(signals, before, after));
    forall e | e in edges && Key(e) == (before, after)
      ensures (before, after) in signals && Strength(signals, before, after) >= 0.15
      ensures e.weight == RoundedTo4(Strength(signals, before, after))
    {
      EdgeIsClaim(signals, ordered, edges, e);
    }
    if (before, after) in signals && Strength(signals, before, after) >= 0.15 {
      var e := ClaimIsEdge(signals, ordered, edges, (before, after));
    }
  }

  /** Of two edges the one listed first is the stronger claim, or as strong with the lower slugs. */
  lemma StrongestFirst(signals: SignalMap, edges: seq<Edge>, i: nat, j: nat)
    requires EdgesOf(signals, edges) && i < j < |edges|
    ensures var e, f := edges[i], edges[j];
      var x, y := Strength(signals, e.before, e.after), Strength(signals, f.before, f.after);
      x > y || (x == y && (Before(e.before, f.before) || (e.before == f.before && Before(e.after, f.after))))
  {
    var ordered :| StrongFirst(signals, ordered) && EdgesFor(signals, ordered, edges);
    assert StrongerIn(signals)(ordered[i], ordered[j]);
    assert ordered[i] in ordered && ordered[j] in ordered;
  }

  /** The arcs that may be followed, of claims at least this strong. */
  ghost function AsStrong(signals: SignalMap, edges: seq<Edge>, strength: real): Arcs<Slug> {
    set e | e in edges && !e.contested && Strength(signals, e.before, e.after) >= strength :: Key(e)
  }

  /** An edge is contested if and only if claims no weaker than itself lead back. */
  lemma ContestedIff(signals: SignalMap, edges: seq<Edge>, k: nat)
    requires EdgesOf(signals, edges) && k < |edges|
    requires forall p :: p in signals ==> p.0 != p.1
    ensures var e := edges[k];
      e.contested <==> Reach(AsStrong(signals, edges, Strength(signals, e.before, e.after)), e.after, e.before)
  {
    var e := edges[k];
    var strong := AsStrong(signals, edges, Strength(signals, e.before, e.after));
    if e.contested {
      assert Judged(edges, k);
      forall p | p in Uncontested(edges[..k])
        ensures p in strong
      {
        var f :| f in edges[..k] && !f.contested && Key(f) == p;
        var j :| 0 <= j < k && edges[j] == f;
        StrongestFirst(signals, edges, j, k);
      }
      ReachMonotone(Uncontested(edges[..k]), strong, e.after, e.before);
    } else if Reach(strong, e.after, e.before) {
      ReachMonotone(strong, Uncontested(edges), e.after, e.before);
      assert Uncontested(edges) + {Key(e)} == Uncontested(edges);
      EdgesAcyclic(signals, edges);
      CycleClosed(Uncontested(edges), e.before, e.after);
    }
  }

  /** And none can be added: any contested edge would close one. */
  lemma EdgesMaximal(signals: SignalMap, edges: seq<Edge>, k: nat)
    requires EdgesOf(signals, edges)
    requires k < |edges| && edges[k].contested
    ensures !Acyclic(Uncontested(edges) + {Key(edges[k])})
  {
    assert Judged(edges, k);
    UncontestedGrows(edges, k, |edges|);
    assert edges[..|edges|] == edges;
    ReachMonotone(Uncontested(edges[..k]), Uncontested(edges), edges[k].after, edges[k].before);
    CycleClosed(Uncontested(edges), edges[k].before, edges[k].after);
  }

  /** The order of the strong pairs is the only one there is. */
  lemma {:induction false} StrongFirstUnique(before: ((Slug, Slug), (Slug, Slug)) -> bool,
                                             p: seq<(Slug, Slug)>, q: seq<(Slug, Slug)>)
    requires StrictOrder(before)
    requires Pairwise(p, before) && Pairwise(q, before)
    requires forall x :: x in p <==> x in q
    ensures p == q
    decreases |p|
  {
    assert (p != [] ==> p[0] in p) && (q != [] ==> q[0] in q);
    if p != [] {
      var j :| 0 <= j < |q| && q[j] == p[0];
      var i :| 0 <= i < |p| && p[i] == q[0];
      assert p[0] == q[0];
      forall x
        ensures x in p[1..] <==> x in q[1..]
      {
        TailMembers(before, p, x);
        TailMembers(before, q, x);
      }
      StrongFirstUnique(before, p[1..], q[1..]);
    }
  }

  lemma TailMembers(before: ((Slug, Slug), (Slug, Slug)) -> bool, p: seq<(Slug, Slug)>, x: (Slug, Slug))
    requires StrictOrder(before) && Pairwise(p, before) && p != []
    ensures x in p[1..] <==> x in p && x != p[0]
  {
    if x in p[1..] {
      var i :| 0 <= i < |p| - 1 && p[1..][i] == x;
      assert before(p[0], p[i + 1]);
    }
  }

  /** The edges are a function of the signals: of the graph, that is, and of nothing else. */
  lemma EdgesUnique(signals: SignalMap, edges: seq<Edge>, edges': seq<Edge>)
    requires EdgesOf(signals, edges) && EdgesOf(signals, edges')
    ensures edges == edges'
  {
    var p :| StrongFirst(signals, p) && EdgesFor(signals, p, edges);
    var q :| StrongFirst(signals, q) && EdgesFor(signals, q, edges');
    StrongerOrder(signals);
    StrongFirstUnique(StrongerIn(signals), p, q);
    PrefixesAgree(signals, p, edges, edges', |edges|);
    assert edges[..|edges|] == edges && edges'[..|edges|] == edges';
  }

  lemma {:induction false} PrefixesAgree(signals: SignalMap, ordered: seq<(Slug, Slug)>, edges: seq<Edge>,
                                         edges': seq<Edge>, k: nat)
    requires EdgesFor(signals, ordered, edges) && EdgesFor(signals, ordered, edges')
    requires k <= |edges|
    ensures edges[..k] == edges'[..k]
  {
    if k > 0 {
      PrefixesAgree(signals, ordered, edges, edges', k - 1);
      assert Judged(edges, k - 1) && Judged(edges', k - 1);
      assert edges[..k] == edges[..k - 1] + [edges[k - 1]] && edges'[..k] == edges'[..k - 1] + [edges'[k - 1]];
    }
  }
}
