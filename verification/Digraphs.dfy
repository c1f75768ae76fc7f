/** Paths, cycles and closures in a finite directed graph. */
module Digraphs {

  type Arcs<T(==)> = set<(T, T)>

  /** A graph as the code keeps it: each node's successors. */
  type Successors<T(==)> = map<T, set<T>>

  function Next<T>(graph: Successors<T>, x: T): set<T> {
    if x in graph then graph[x] else {}
  }

  ghost function ArcsOf<T(!new)>(graph: Successors<T>): Arcs<T> {
    set x, y | x in graph && y in graph[x] :: (x, y)
  }

  ghost function Heads<T(!new)>(graph: Successors<T>): set<T> {
    set x, y | x in graph && y in graph[x] :: y
  }

  lemma InsertArc<T(!new)>(graph: Successors<T>, x: T, y: T)
    ensures ArcsOf(graph[x := Next(graph, x) + {y}]) == ArcsOf(graph) + {(x, y)}
  {
  }

  /** From `x` through the nodes of `via`, in order, to `y`: one arc at least. */
  ghost predicate Path<T>(e: Arcs<T>, x: T, via: seq<T>, y: T)
    decreases |via|
  {
    if via == [] then (x, y) in e else (x, via[0]) in e && Path(e, via[0], via[1..], y)
  }

  /** Some path of one arc or more. */
  ghost predicate Reach<T(!new)>(e: Arcs<T>, x: T, y: T) {
    exists via :: Path(e, x, via, y)
  }

  ghost predicate ReachOrSame<T(!new)>(e: Arcs<T>, x: T, y: T) {
    x == y || Reach(e, x, y)
  }

  ghost predicate Acyclic<T(!new)>(e: Arcs<T>) {
    forall x :: !Reach(e, x, x)
  }

  lemma ReachArc<T(!new)>(e: Arcs<T>, x: T, y: T)
    requires (x, y) in e
    ensures Reach(e, x, y)
  {
    assert Path(e, x, [], y);
  }

  lemma ReachStep<T(!new)>(e: Arcs<T>, x: T, y: T, z: T)
    requires (x, y) in e && ReachOrSame(e, y, z)
    ensures Reach(e, x, z)
  {
    if y == z {
      ReachArc(e, x, z);
    } else {
      var via :| Path(e, y, via, z);
      assert ([y] + via)[1..] == via;
      assert Path(e, x, [y] + via, z);
    }
  }

  lemma {:induction false} PathThen<T(!new)>(e: Arcs<T>, x: T, via: seq<T>, y: T, z: T)
    requires Path(e, x, via, y) && ReachOrSame(e, y, z)
    ensures Reach(e, x, z)
    decreases |via|
  {
    if via == [] {
      ReachStep(e, x, y, z);
    } else {
      PathThen(e, via[0], via[1..], y, z);
      ReachStep(e, x, via[0], z);
    }
  }

  lemma ReachTransitive<T(!new)>(e: Arcs<T>, x: T, y: T, z: T)
    requires Reach(e, x, y) && ReachOrSame(e, y, z)
    ensures Reach(e, x, z)
  {
    var via :| Path(e, x, via, y);
    PathThen(e, x, via, y, z);
  }

  lemma {:induction false} PathMonotone<T(!new)>(e: Arcs<T>, e': Arcs<T>, x: T, via: seq<T>, y: T)
    requires Path(e, x, via, y) && e <= e'
    ensures Path(e', x, via, y)
    decreases |via|
  {
    if via != [] {
      PathMonotone(e, e', via[0], via[1..], y);
    }
  }

  lemma ReachMonotone<T(!new)>(e: Arcs<T>, e': Arcs<T>, x: T, y: T)
    requires Reach(e, x, y) && e <= e'
    ensures Reach(e', x, y)
  {
    var via :| Path(e, x, via, y);
    PathMonotone(e, e', x, via, y);
  }

  /** A path with one arc more to choose from either does without it, or leads to its tail
      and on from its head. */
  lemma {:induction false} PathUsingArc<T(!new)>(e: Arcs<T>, b: T, a: T, x: T, via: seq<T>, y: T)
    requires Path(e + {(b, a)}, x, via, y)
    ensures Reach(e, x, y) || (ReachOrSame(e, x, b) && ReachOrSame(e, a, y))
    decreases |via|
  {
    if via == [] {
      if (x, y) in e {
        ReachArc(e, x, y);
      }
    } else {
      var z := via[0];
      PathUsingArc(e, b, a, z, via[1..], y);
      if (x, z) in e {
        if Reach(e, z, y) {
          ReachStep(e, x, z, y);
        } else {
          ReachStep(e, x, z, b);
        }
      }
    }
  }

  /** An arc whose head does not lead back to its tail closes no cycle. */
  lemma AcyclicExtend<T(!new)>(e: Arcs<T>, b: T, a: T)
    requires Acyclic(e) && a != b && !Reach(e, a, b)
    ensures Acyclic(e + {(b, a)})
  {
    forall x
      ensures !Reach(e + {(b, a)}, x, x)
    {
      if Reach(e + {(b, a)}, x, x) {
        var via :| Path(e + {(b, a)}, x, via, x);
        PathUsingArc(e, b, a, x, via, x);
        if a != x {
          ReachTransitive(e, a, x, b);
        }
        assert false;
      }
    }
  }

  /** And one whose head does lead back closes one. */
  lemma CycleClosed<T(!new)>(e: Arcs<T>, b: T, a: T)
    requires Reach(e, a, b)
    ensures !Acyclic(e + {(b, a)})
  {
    ReachMonotone(e, e + {(b, a)}, a, b);
    ReachStep(e + {(b, a)}, b, a, b);
  }

  ghost predicate ClosedForward<T(!new)>(e: Arcs<T>, s: set<T>) {
    forall x, y {:trigger (x, y) in e} :: x in s && (x, y) in e ==> y in s
  }

  lemma {:induction false} PathStaysIn<T(!new)>(e: Arcs<T>, s: set<T>, x: T, via: seq<T>, y: T)
    requires ClosedForward(e, s) && x in s && Path(e, x, via, y)
    ensures exists z :: z in s && (z, y) in e
    decreases |via|
  {
    if via == [] {
      assert x in s && (x, y) in e;
    } else {
      PathStaysIn(e, s, via[0], via[1..], y);
    }
  }

  /** A set closed under arcs, none of whose arcs ends in `y`, leads nowhere near `y`. */
  lemma NotReached<T(!new)>(e: Arcs<T>, s: set<T>, x: T, y: T)
    requires ClosedForward(e, s) && x in s
    requires forall z :: z in s ==> (z, y) !in e
    ensures !Reach(e, x, y)
  {
    if Reach(e, x, y) {
      var via :| Path(e, x, via, y);
      PathStaysIn(e, s, x, via, y);
      assert false;
    }
  }

  /** Without cycles, every nonempty set has a node with no arc into it from the set. */
  lemma {:induction false} SourceExists<T(!new)>(e: Arcs<T>, s: set<T>) returns (x: T)
    requires Acyclic(e) && s != {}
    ensures x in s && forall y :: y in s ==> (y, x) !in e
    decreases |s|
  {
    x :| x in s;
    var above := set y | y in s && Reach(e, y, x);
    if above != {} {
      var top := x;
      assert x !in above;
      SmallerSet(above, s, x);
      x := SourceExists(e, above);
      forall y | y in s
        ensures (y, x) !in e
      {
        if (y, x) in e {
          ReachStep(e, y, x, top);
          assert false;
        }
      }
    } else {
      forall y | y in s
        ensures (y, x) !in e
      {
        assert y !in above;
        if (y, x) in e {
          ReachArc(e, y, x);
        }
      }
    }
  }

  lemma SmallerSet<T>(a: set<T>, b: set<T>, x: T)
    requires a <= b && x in b && x !in a
    ensures |a| < |b|
  {
    assert b == a + (b - a);
    assert x in b - a;
  }
}
