/** Kahn's algorithm over any nodes and any strict order to drain them by. */
module Kahn {
  import opened Digraphs
  import opened Sorting

  type Degrees<T(==)> = map<T, int>

  /** A strict order that tells any two nodes apart. */
  ghost predicate TotalOrder<T(!new)>(before: (T, T) -> bool) {
    StrictOrder(before) && forall x, y :: x != y ==> before(x, y) || before(y, x)
  }

  // ----- The order, said without a ready list -----

  ghost function Out<T(!new)>(order: seq<T>): set<T> {
    set s | s in order
  }

  /** What must come before `s` and is not out. */
  ghost function Blockers<T(!new)>(nodes: set<T>, e: Arcs<T>, out: set<T>, s: T): set<T> {
    set t | t in nodes && t !in out && (t, s) in e
  }

  /** Not out yet, and everything before it is. */
  ghost predicate Available<T(!new)>(nodes: set<T>, e: Arcs<T>, out: set<T>, s: T) {
    s in nodes && s !in out && Blockers(nodes, e, out, s) == {}
  }

  ghost predicate FirstAvailable<T(!new)>(before: (T, T) -> bool, nodes: set<T>, e: Arcs<T>, out: set<T>, s: T) {
    && Available(nodes, e, out, s)
    && forall t :: Available(nodes, e, out, t) && t != s ==> before(s, t)
  }

  ghost predicate ChosenAt<T(!new)>(before: (T, T) -> bool, nodes: set<T>, e: Arcs<T>, order: seq<T>, k: nat)
    requires k < |order|
  {
    FirstAvailable(before, nodes, e, Out(order[..k]), order[k])
  }

  ghost predicate Chosen<T(!new)>(before: (T, T) -> bool, nodes: set<T>, e: Arcs<T>, order: seq<T>) {
    forall k :: 0 <= k < |order| ==> ChosenAt(before, nodes, e, order, k)
  }

  /** Each time the first of what is available, until everything is out. */
  ghost predicate IsKahnOrder<T(!new)>(before: (T, T) -> bool, nodes: set<T>, e: Arcs<T>, order: seq<T>) {
    Chosen(before, nodes, e, order) && Out(order) == nodes
  }

  /** Every node is out once. */
  lemma OnceEach<T(!new)>(before: (T, T) -> bool, nodes: set<T>, e: Arcs<T>, order: seq<T>)
    requires Chosen(before, nodes, e, order)
    ensures forall i, j :: 0 <= i < j < |order| ==> order[i] != order[j]
    ensures |order| == |Out(order)|
  {
    forall i, j | 0 <= i < j < |order|
      ensures order[i] != order[j]
    {
      assert ChosenAt(before, nodes, e, order, j);
      assert order[..j][i] == order[i];
    }
    DistinctCount(order);
  }

  lemma {:induction false} DistinctCount<T(!new)>(order: seq<T>)
    requires forall i, j :: 0 <= i < j < |order| ==> order[i] != order[j]
    ensures |order| == |Out(order)|
    decreases |order|
  {
    if order != [] {
      var n := |order| - 1;
      DistinctCount(order[..n]);
      assert Out(order) == Out(order[..n]) + {order[n]};
      assert order[n] !in order[..n];
    }
  }

  /** Every arc points forward. */
  lemma ArcsForward<T(!new)>(before: (T, T) -> bool, nodes: set<T>, e: Arcs<T>, order: seq<T>, x: T, k: nat)
    requires Chosen(before, nodes, e, order)
    requires x in nodes && k < |order| && (x, order[k]) in e
    ensures x in order[..k]
  {
    assert ChosenAt(before, nodes, e, order, k);
    assert x !in Blockers(nodes, e, Out(order[..k]), order[k]);
  }

  /** There is one such order. */
  lemma {:induction false} PrefixUnique<T(!new)>(before: (T, T) -> bool, nodes: set<T>, e: Arcs<T>, p: seq<T>,
                                                 q: seq<T>, k: nat)
    requires TotalOrder(before)
    requires Chosen(before, nodes, e, p) && Chosen(before, nodes, e, q)
    requires k <= |p| && k <= |q|
    ensures p[..k] == q[..k]
  {
    if k > 0 {
      PrefixUnique(before, nodes, e, p, q, k - 1);
      assert ChosenAt(before, nodes, e, p, k - 1) && ChosenAt(before, nodes, e, q, k - 1);
      assert p[..k] == p[..k - 1] + [p[k - 1]] && q[..k] == q[..k - 1] + [q[k - 1]];
    }
  }

  lemma KahnUnique<T(!new)>(before: (T, T) -> bool, nodes: set<T>, e: Arcs<T>, p: seq<T>, q: seq<T>)
    requires TotalOrder(before)
    requires IsKahnOrder(before, nodes, e, p) && IsKahnOrder(before, nodes, e, q)
    ensures p == q
  {
    OnceEach(before, nodes, e, p);
    OnceEach(before, nodes, e, q);
    PrefixUnique(before, nodes, e, p, q, |p|);
    assert p[..|p|] == p && q[..|q|] == q;
  }

  /** Without a cycle something is available until everything is out. */
  lemma SomethingAvailable<T(!new)>(nodes: set<T>, e: Arcs<T>, out: set<T>) returns (s: T)
    requires Acyclic(e)
    requires out <= nodes && out != nodes
    ensures Available(nodes, e, out, s)
  {
    if nodes - out == {} {
      forall x | x in nodes
        ensures x in out
      {
        assert x !in nodes - out;
      }
    }
    s := SourceExists(e, nodes - out);
  }

  // ----- Draining -----

  /** In-degrees count what is still to come; the ready list is what is available, in order. */
  ghost predicate Draining<T(!new)>(before: (T, T) -> bool, nodes: set<T>, e: Arcs<T>, order: seq<T>,
                                    indegree: Degrees<T>, ready: seq<T>) {
    && Chosen(before, nodes, e, order) && Out(order) <= nodes
    && Counts(nodes, e, Out(order), indegree)
    && (forall s :: s in ready <==> Available(nodes, e, Out(order), s))
    && Pairwise(ready, before)
  }

  ghost predicate Counts<T(!new)>(nodes: set<T>, e: Arcs<T>, out: set<T>, indegree: Degrees<T>) {
    && indegree.Keys == nodes
    && forall s {:trigger indegree[s]} :: s in nodes ==> indegree[s] == |Blockers(nodes, e, out, s)|
  }

  method SortReady<T(==, !new)>(before: (T, T) -> bool, ready0: seq<T>) returns (ready: seq<T>)
    requires TotalOrder(before)
    requires forall i, j :: 0 <= i < j < |ready0| ==> ready0[i] != ready0[j]
    ensures forall s :: s in ready <==> s in ready0
    ensures Pairwise(ready, before)
  {
    ready := SortBy(ready0, before);
    SortStrict(ready0, before);
    forall s
      ensures s in ready <==> s in ready0
    {
      SortMember(ready0, before, s);
    }
  }

  /** Line 278 */
  method FirstReady<T(==, !new)>(before: (T, T) -> bool, nodes: set<T>, ghost e: Arcs<T>, indegree: Degrees<T>)
    returns (ready: seq<T>)
    requires TotalOrder(before) && Counts(nodes, e, {}, indegree)
    ensures Draining(before, nodes, e, [], indegree, ready)
  {
    ready := [];
    var todo := nodes;
    while todo != {}
      invariant todo <= nodes
      invariant forall s :: s in ready <==> s in nodes - todo && indegree[s] == 0
      invariant forall i, j :: 0 <= i < j < |ready| ==> ready[i] != ready[j]
      decreases |todo|
    {
      var s :| s in todo;
      todo := todo - {s};
      if indegree[s] == 0 {
        ready := ready + [s];
      }
    }
    ready := SortReady(before, ready);
    NothingOut(nodes, e, indegree);
  }

  lemma NothingOut<T(!new)>(nodes: set<T>, e: Arcs<T>, indegree: Degrees<T>)
    requires Counts(nodes, e, {}, indegree)
    ensures Out<T>([]) == {}
    ensures forall s :: Available(nodes, e, {}, s) <==> s in nodes && indegree[s] == 0
  {
    forall s | s in nodes
      ensures Available(nodes, e, {}, s) <==> indegree[s] == 0
    {
      assert indegree[s] == |Blockers(nodes, e, {}, s)|;
    }
  }

  /** Lines 281-287: one area out, its successors counted down, the list sorted again. */
  method DrainOne<T(==, !new)>(before: (T, T) -> bool, ghost nodes: set<T>, ghost e: Arcs<T>, successors: Successors<T>,
                               order0: seq<T>, indegree0: Degrees<T>, ready0: seq<T>)
    returns (order: seq<T>, indegree: Degrees<T>, ready: seq<T>)
    requires successors.Keys == nodes && ArcsOf(successors) == e
    requires forall a {:trigger a in e} :: a in e ==> a.0 in nodes && a.1 in nodes
    requires TotalOrder(before)
    requires ready0 != [] && Draining(before, nodes, e, order0, indegree0, ready0)
    ensures Draining(before, nodes, e, order, indegree, ready)
    ensures |Out(order)| == |Out(order0)| + 1
  {
    var slug := ready0[0];
    FirstIsChosen(before, nodes, e, order0, indegree0, ready0);
    order := order0 + [slug];
    assert Out(order) == Out(order0) + {slug};
    SuccessorsAre(nodes, e, successors, slug);
    ReadyTail(before, ready0);
    Waiting(nodes, e, Out(order0), ready0, slug, successors[slug]);
    var waiting: seq<T>;
    indegree, waiting := CountDown(ready0[1..], indegree0, successors[slug]);
    WaitingAvailable(before, nodes, e, order0, indegree0, ready0, slug, successors[slug], waiting);
    CountedDown(nodes, e, Out(order0), slug, indegree0, indegree);
    ready := SortReady(before, waiting);
  }

  /** Lines 283-286: the countdown, and what it adds to the rest of the list. */
  method CountDown<T(==, !new)>(rest: seq<T>, indegree0: Degrees<T>, followers: set<T>)
    returns (indegree: Degrees<T>, waiting: seq<T>)
    requires followers <= indegree0.Keys && forall s :: s in followers ==> s !in rest
    requires forall i, j :: 0 <= i < j < |rest| ==> rest[i] != rest[j]
    ensures indegree.Keys == indegree0.Keys
    ensures forall s {:trigger indegree[s]} :: s in indegree0 ==>
              indegree[s] == indegree0[s] - if s in followers then 1 else 0
    ensures forall s :: s in waiting <==> s in rest || (s in followers && indegree0[s] == 1)
    ensures forall i, j :: 0 <= i < j < |waiting| ==> waiting[i] != waiting[j]
  {
    waiting := rest;
    indegree := indegree0;
    var todo := followers;
    while todo != {}
      invariant todo <= followers
      invariant indegree.Keys == indegree0.Keys
      invariant forall s {:trigger indegree[s]} :: s in indegree0 ==>
        indegree[s] == indegree0[s] - if s in followers && s !in todo then 1 else 0
      invariant forall s :: s in waiting <==> s in rest || (s in followers && s !in todo && indegree0[s] == 1)
      invariant forall i, j :: 0 <= i < j < |waiting| ==> waiting[i] != waiting[j]
      decreases |todo|
    {
      var nxt :| nxt in todo;
      todo := todo - {nxt};
      indegree := indegree[nxt := indegree[nxt] - 1];
      if indegree[nxt] == 0 {
        waiting := waiting + [nxt];
      }
    }
  }

  /** Whoever follows the area going out was waiting for it, and so was not ready. */
  lemma Waiting<T(!new)>(nodes: set<T>, e: Arcs<T>, out: set<T>, ready: seq<T>, slug: T, followers: set<T>)
    requires forall s :: s in ready <==> Available(nodes, e, out, s)
    requires slug in nodes && slug !in out
    requires forall s :: s in followers <==> s in nodes && (slug, s) in e
    ensures followers <= nodes && forall s :: s in followers ==> s !in ready
  {
    forall s | s in followers
      ensures s !in ready
    {
      assert slug in Blockers(nodes, e, out, s);
    }
  }

  lemma WaitingAvailable<T(!new)>(before: (T, T) -> bool, nodes: set<T>, e: Arcs<T>, order: seq<T>,
                                  indegree: Degrees<T>, ready: seq<T>, slug: T, followers: set<T>, waiting: seq<T>)
    requires TotalOrder(before) && Draining(before, nodes, e, order, indegree, ready)
    requires ready != [] && slug == ready[0]
    requires forall s :: s in followers <==> s in nodes && (slug, s) in e
    requires forall s :: s in waiting <==> s in ready[1..] || (s in followers && s in indegree && indegree[s] == 1)
    ensures forall s :: s in waiting <==> Available(nodes, e, Out(order) + {slug}, s)
  {
    ReadyTail(before, ready);
    assert slug in ready;
    forall s
      ensures s in waiting <==> Available(nodes, e, Out(order) + {slug}, s)
    {
      if s in Out(order) {
        OutClosed(before, nodes, e, order, s);
      }
      AvailableNext(nodes, e, Out(order), slug, s);
      assert s in nodes ==> indegree[s] == |Blockers(nodes, e, Out(order), s)|;
    }
  }

  lemma SuccessorsAre<T(!new)>(nodes: set<T>, e: Arcs<T>, successors: Successors<T>, slug: T)
    requires successors.Keys == nodes && ArcsOf(successors) == e && slug in nodes
    requires forall a {:trigger a in e} :: a in e ==> a.0 in nodes && a.1 in nodes
    ensures forall s :: s in successors[slug] <==> s in nodes && (slug, s) in e
  {
    forall s
      ensures s in successors[slug] <==> s in nodes && (slug, s) in e
    {
      assert s in successors[slug] <==> (slug, s) in e;
    }
  }

  lemma FirstIsChosen<T(!new)>(before: (T, T) -> bool, nodes: set<T>, e: Arcs<T>, order: seq<T>, indegree: Degrees<T>,
                               ready: seq<T>)
    requires ready != [] && Draining(before, nodes, e, order, indegree, ready)
    ensures ready[0] in ready && Available(nodes, e, Out(order), ready[0])
    ensures Chosen(before, nodes, e, order + [ready[0]])
  {
    var longer := order + [ready[0]];
    assert ready[0] in ready;
    forall k | 0 <= k < |longer|
      ensures ChosenAt(before, nodes, e, longer, k)
    {
      if k < |order| {
        assert longer[..k] == order[..k];
        assert ChosenAt(before, nodes, e, order, k);
      } else {
        assert longer[..k] == order;
        assert ready[0] in ready;
        forall t | Available(nodes, e, Out(order), t) && t != ready[0]
          ensures before(ready[0], t)
        {
          var j :| 0 <= j < |ready| && ready[j] == t;
          assert before(ready[0], ready[j]);
        }
      }
    }
  }

  lemma ReadyTail<T(!new)>(before: (T, T) -> bool, ready: seq<T>)
    requires TotalOrder(before)
    requires ready != [] && Pairwise(ready, before)
    ensures forall i, j :: 0 <= i < j < |ready| ==> ready[i] != ready[j]
    ensures forall s :: s in ready[1..] <==> s in ready && s != ready[0]
  {
    forall i, j | 0 <= i < j < |ready|
      ensures ready[i] != ready[j]
    {
      assert before(ready[i], ready[j]);
    }
    forall s | s in ready && s != ready[0]
      ensures s in ready[1..]
    {
      var j :| 0 <= j < |ready| && ready[j] == s;
      assert ready[1..][j - 1] == s;
    }
  }

  /** What is out has everything before it out. */
  lemma OutClosed<T(!new)>(before: (T, T) -> bool, nodes: set<T>, e: Arcs<T>, order: seq<T>, s: T)
    requires Chosen(before, nodes, e, order) && s in Out(order)
    ensures Blockers(nodes, e, Out(order), s) == {}
  {
    var k :| 0 <= k < |order| && order[k] == s;
    assert ChosenAt(before, nodes, e, order, k);
    forall t | t in Blockers(nodes, e, Out(order), s)
      ensures t in Blockers(nodes, e, Out(order[..k]), s)
    {
    }
  }

  lemma CountedDown<T(!new)>(nodes: set<T>, e: Arcs<T>, out: set<T>, slug: T, indegree0: Degrees<T>,
                             indegree: Degrees<T>)
    requires slug in nodes && slug !in out && Counts(nodes, e, out, indegree0)
    requires indegree.Keys == nodes
    requires forall s {:trigger indegree[s]} :: s in nodes ==>
               indegree[s] == indegree0[s] - if (slug, s) in e then 1 else 0
    ensures Counts(nodes, e, out + {slug}, indegree)
  {
    forall s | s in nodes
      ensures indegree[s] == |Blockers(nodes, e, out + {slug}, s)|
    {
      OneLess(nodes, e, out, slug, s);
      assert indegree0[s] == |Blockers(nodes, e, out, s)|;
    }
  }

  lemma OneLess<T(!new)>(nodes: set<T>, e: Arcs<T>, out: set<T>, slug: T, s: T)
    requires slug in nodes && slug !in out
    ensures |Blockers(nodes, e, out + {slug}, s)| == |Blockers(nodes, e, out, s)| - if (slug, s) in e then 1 else 0
    ensures Blockers(nodes, e, out + {slug}, s) == Blockers(nodes, e, out, s) - {slug}
  {
    assert Blockers(nodes, e, out + {slug}, s) == Blockers(nodes, e, out, s) - {slug};
    assert slug in Blockers(nodes, e, out, s) <==> (slug, s) in e;
  }

  lemma EmptyCount<T>(b: set<T>)
    ensures |b| == 0 <==> b == {}
  {
  }

  /** What becomes available when `slug` goes out: what was, and what waited for it alone. */
  lemma AvailableNext<T(!new)>(nodes: set<T>, e: Arcs<T>, out: set<T>, slug: T, s: T)
    requires Available(nodes, e, out, slug)
    requires s in out ==> Blockers(nodes, e, out, s) == {}
    ensures Available(nodes, e, out + {slug}, s) <==>
      || (Available(nodes, e, out, s) && s != slug)
      || (s in nodes && (slug, s) in e && |Blockers(nodes, e, out, s)| == 1)
  {
    OneLess(nodes, e, out, slug, s);
    EmptyCount(Blockers(nodes, e, out, s));
    EmptyCount(Blockers(nodes, e, out + {slug}, s));
    assert slug in Blockers(nodes, e, out, s) <==> (slug, s) in e;
    assert slug !in Blockers(nodes, e, out, slug);
  }

  // ----- Tables -----

  ghost predicate Tabled<T(!new)>(nodes: set<T>, e: Arcs<T>, successors: Successors<T>, indegree: Degrees<T>) {
    && successors.Keys == nodes && indegree.Keys == nodes
    && ArcsOf(successors) == e
    && Counts(nodes, e, {}, indegree)
  }

  method EmptyTables<T(==, !new)>(nodes: set<T>) returns (successors: Successors<T>, indegree: Degrees<T>)
    ensures Tabled(nodes, {}, successors, indegree)
  {
    successors := map s | s in nodes :: {};
    indegree := map s | s in nodes :: 0;
    assert ArcsOf(successors) == {};
    forall s | s in nodes
      ensures |Blockers(nodes, {}, {}, s)| == 0
    {
      assert Blockers(nodes, {}, {}, s) == {};
    }
  }

  lemma AddArc<T(!new)>(nodes: set<T>, e: Arcs<T>, successors: Successors<T>, indegree: Degrees<T>, x: T, y: T)
    requires Tabled(nodes, e, successors, indegree) && x in nodes && y in nodes
    requires y !in successors[x]
    ensures Tabled(nodes, e + {(x, y)}, successors[x := successors[x] + {y}], indegree[y := indegree[y] + 1])
  {
    NotYet(successors, x, y);
    InsertArc(successors, x, y);
    AddCount(nodes, e, indegree, x, y);
  }

  lemma NotYet<T(!new)>(graph: Successors<T>, x: T, y: T)
    requires y !in Next(graph, x)
    ensures (x, y) !in ArcsOf(graph)
  {
  }

  lemma AddCount<T(!new)>(nodes: set<T>, e: Arcs<T>, indegree: Degrees<T>, x: T, y: T)
    requires Counts(nodes, e, {}, indegree) && x in nodes && y in nodes && (x, y) !in e
    ensures Counts(nodes, e + {(x, y)}, {}, indegree[y := indegree[y] + 1])
  {
    forall s | s in nodes
      ensures indegree[y := indegree[y] + 1][s] == |Blockers(nodes, e + {(x, y)}, {}, s)|
    {
      CountAfterArc(nodes, e, x, y, s);
      assert indegree[s] == |Blockers(nodes, e, {}, s)|;
    }
  }

  lemma CountAfterArc<T(!new)>(nodes: set<T>, e: Arcs<T>, x: T, y: T, s: T)
    requires (x, y) !in e && x in nodes
    ensures |Blockers(nodes, e + {(x, y)}, {}, s)| == |Blockers(nodes, e, {}, s)| + if s == y then 1 else 0
  {
    assert Blockers(nodes, e + {(x, y)}, {}, s) == Blockers(nodes, e, {}, s) + if s == y then {x} else {};
  }
}
