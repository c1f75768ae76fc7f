/** Partitions of a graph into communities, and the score the merges climb. */
module Partitioning {
  import opened Reals
  import opened Sums
  import opened Graphs
  import opened Orders

  /** Communities by key. The key of a community is its lowest member. */
  type Partition = map<Id, set<Id>>

  ghost predicate IsPartition(g: Graph, p: Partition) {
    && (forall c :: c in p ==> c in p[c] && p[c] <= g.Keys)
    && (forall c :: c in p ==> forall x :: x in p[c] ==> c <= x)
    && (forall c, d :: c in p && d in p && c != d ==> p[c] !! p[d])
    && (forall x {:trigger Covers(p, x)} :: x in g ==> Covers(p, x))
  }

  ghost predicate Covers(p: Partition, x: Id) {
    exists c :: c in p && x in p[c]
  }

  function Singletons(g: Graph): Partition {
    map i | i in g :: {i}
  }

  function Merged(p: Partition, keep: Id, drop: Id): Partition
    requires keep in p && drop in p
  {
    map c | c in p && c != drop :: if c == keep then p[keep] + p[drop] else p[c]
  }

  /** The communities in the order of their keys. */
  function InKeyOrder(p: Partition): (q: seq<set<Id>>)
    ensures |q| == |p|
  {
    var keys := Sorted(p.Keys);
    seq(|keys|, i requires 0 <= i < |keys| => p[keys[i]])
  }

  /** What a partition is once its keys are forgotten: `parts` lists nonempty, pairwise
      disjoint sets that cover the graph and nothing else. */
  ghost predicate Partitions(parts: seq<set<Id>>, nodes: set<Id>) {
    && Disjoint(parts)
    && (forall k :: 0 <= k < |parts| ==> parts[k] != {} && parts[k] <= nodes)
    && (forall x :: x in nodes ==> Listed(x, parts))
  }

  ghost predicate Listed(x: Id, parts: seq<set<Id>>) {
    exists k :: 0 <= k < |parts| && x in parts[k]
  }

  ghost predicate Inside(part: set<Id>, communities: seq<set<Id>>) {
    exists k :: 0 <= k < |communities| && part <= communities[k]
  }

  ghost predicate Disjoint(parts: seq<set<Id>>) {
    forall j, k :: 0 <= j < k < |parts| ==> parts[j] !! parts[k]
  }

  /** One community's part of the modularity: the share of the weight inside it, less
      the share a random graph with the same degrees would put there. */
  ghost function Score(g: Graph, a: set<Id>): real
    requires Total(g) > 0.0
  {
    ScoreOf(Total(g), Cross(g, a, a), Degree(g, a))
  }

  /** The score of a community with this weight inside (each edge twice) and this degree,
      in a graph of total weight `m`. */
  ghost function ScoreOf(m: real, inside: real, degree: real): real
    requires m > 0.0
  {
    inside / (2.0 * m) - (degree / (2.0 * m)) * (degree / (2.0 * m))
  }

  /** The gain from a joining weight and two degrees, as the code's `delta` computes it. */
  function GainOf(m: real, weight: real, d: real, e: real): real
    requires m > 0.0
  {
    weight / m - (d * e) / TwiceSquare(m)
  }

  function TwiceSquare(m: real): (s: real)
    requires m > 0.0
    ensures s > 0.0
  {
    var s := 2.0 * m * m;
    PositiveProduct(2.0 * m, m, s);
    s
  }

  ghost function Scores(g: Graph, p: Partition): Id -> real
    requires Total(g) > 0.0
  {
    c => if c in p then Score(g, p[c]) else 0.0
  }

  /** Newman's modularity of a partition. */
  ghost function Modularity(g: Graph, p: Partition): real
    requires Total(g) > 0.0
  {
    Sum(p.Keys, Scores(g, p))
  }

  /** What merging two sets of nodes is worth. */
  ghost function Gain(g: Graph, a: set<Id>, b: set<Id>): real
    requires Total(g) > 0.0
  {
    GainOf(Total(g), Cross(g, a, b), Degree(g, a), Degree(g, b))
  }

  // ----- A merge changes modularity by exactly its gain -----

  lemma Quotient(x: real, y: real, z: real)
    requires z != 0.0 && x == y * z
    ensures x / z == y
  {
  }

  lemma ScoreAlgebra(m: real, ca: real, cb: real, w: real, da: real, db: real, c: real, d: real)
    requires m > 0.0 && c == ca + w + w + cb && d == da + db
    ensures ScoreOf(m, c, d) == ScoreOf(m, ca, da) + ScoreOf(m, cb, db) + GainOf(m, w, da, db)
  {
    var n := 2.0 * m;
    var u, v := da / n, db / n;
    assert d / n == u + v;
    SquareOfSum(u, v);
    assert c / n == ca / n + cb / n + w / m;
    QuotientOfProduct(da, db, u, v, n, TwiceSquare(m));
  }

  lemma SquareOfSum(u: real, v: real)
    ensures (u + v) * (u + v) == u * u + v * v + 2.0 * (u * v)
  {
  }

  lemma QuotientOfProduct(d: real, e: real, u: real, v: real, n: real, s: real)
    requires d == u * n && e == v * n && n * n == 2.0 * s && s != 0.0
    ensures (d * e) / s == 2.0 * (u * v)
  {
    Regroup(u, v, n);
    Scale(u * v, n * n, s);
    Quotient(d * e, 2.0 * (u * v), s);
  }

  lemma Regroup(u: real, v: real, n: real)
    ensures (u * n) * (v * n) == (u * v) * (n * n)
  {
  }

  lemma Scale(p: real, q: real, s: real)
    requires q == 2.0 * s
    ensures p * q == (2.0 * p) * s
  {
  }

  lemma CrossOfUnion(g: Graph, a: set<Id>, b: set<Id>)
    requires Symmetric(g) && a !! b
    ensures Cross(g, a + b, a + b) == Cross(g, a, a) + Cross(g, a, b) + Cross(g, a, b) + Cross(g, b, b)
  {
    CrossUnionLeft(g, a, b, a + b);
    CrossUnionRight(g, a, a, b);
    CrossUnionRight(g, b, a, b);
    CrossSymmetric(g, a, b);
  }

  lemma ScoreOfUnion(g: Graph, a: set<Id>, b: set<Id>)
    requires Symmetric(g) && Total(g) > 0.0
    requires a !! b
    ensures Score(g, a + b) == Score(g, a) + Score(g, b) + Gain(g, a, b)
  {
    CrossOfUnion(g, a, b);
    DegreeUnion(g, a, b);
    ScoreAlgebra(Total(g), Cross(g, a, a), Cross(g, b, b), Cross(g, a, b), Degree(g, a), Degree(g, b),
                 Cross(g, a + b, a + b), Degree(g, a + b));
  }

  /** The bookkeeping's `delta` is the truth: it is what the merge does to the score. */
  lemma MergeGain(g: Graph, p: Partition, keep: Id, drop: Id)
    requires Symmetric(g) && Total(g) > 0.0
    requires keep in p && drop in p && keep != drop && p[keep] !! p[drop]
    ensures Modularity(g, Merged(p, keep, drop)) == Modularity(g, p) + Gain(g, p[keep], p[drop])
  {
    var q := Merged(p, keep, drop);
    assert q.Keys == p.Keys - {drop};
    ScoreOfUnion(g, p[keep], p[drop]);
    SumFold(p.Keys, keep, drop, Scores(g, p), Scores(g, q), Gain(g, p[keep], p[drop]));
  }

  lemma GainSymmetric(g: Graph, a: set<Id>, b: set<Id>)
    requires Symmetric(g) && Total(g) > 0.0
    ensures Gain(g, a, b) == Gain(g, b, a)
  {
    CrossSymmetric(g, a, b);
  }

  lemma QuotientNonNegative(x: real, n: real)
    requires x >= 0.0 && n > 0.0
    ensures x / n >= 0.0
  {
    var r := x / n;
    assert r * n == x;
  }

  lemma NoWeightNoGain(m: real, d: real, e: real)
    requires m > 0.0 && d >= 0.0 && e >= 0.0
    ensures GainOf(m, 0.0, d, e) <= 0.0
  {
    assert d * e >= 0.0;
    QuotientNonNegative(d * e, TwiceSquare(m));
  }

  /** Two sets with no edge between them never gain by merging. */
  lemma UnlinkedGain(g: Graph, a: set<Id>, b: set<Id>)
    requires NonNegative(g) && Total(g) > 0.0
    requires !Linked(g, a, b)
    ensures Gain(g, a, b) <= 0.0
  {
    CrossUnlinked(g, a, b);
    DegreeNonNegative(g, a);
    DegreeNonNegative(g, b);
    NoWeightNoGain(Total(g), Degree(g, a), Degree(g, b));
  }

  // ----- Partitions -----

  lemma SingletonsPartition(g: Graph)
    ensures IsPartition(g, Singletons(g))
  {
    forall x | x in g
      ensures Covers(Singletons(g), x)
    {
      assert x in Singletons(g) && x in Singletons(g)[x];
    }
  }

  lemma MergedPartition(g: Graph, p: Partition, keep: Id, drop: Id)
    requires IsPartition(g, p)
    requires keep in p && drop in p && keep < drop
    ensures IsPartition(g, Merged(p, keep, drop))
  {
    var q := Merged(p, keep, drop);
    forall x | x in g
      ensures Covers(q, x)
    {
      assert Covers(p, x);
      MergedCovers(p, keep, drop, x);
    }
    forall c | c in q
      ensures c in q[c] && q[c] <= g.Keys && forall x :: x in q[c] ==> c <= x
    {
      if c == keep {
        assert q[c] == p[keep] + p[drop];
      } else {
        assert q[c] == p[c];
      }
    }
    forall c, d | c in q && d in q && c != d
      ensures q[c] !! q[d]
    {
      MergedDisjoint(p, keep, drop, c, d);
    }
  }

  lemma MergedSmaller(p: Partition, keep: Id, drop: Id)
    requires keep in p && drop in p && keep != drop
    ensures |Merged(p, keep, drop)| < |p|
  {
    assert Merged(p, keep, drop).Keys == p.Keys - {drop};
  }

  lemma MergedCovers(p: Partition, keep: Id, drop: Id, x: Id)
    requires keep in p && drop in p && keep != drop
    requires Covers(p, x)
    ensures Covers(Merged(p, keep, drop), x)
  {
    var c :| c in p && x in p[c];
    assert x in Merged(p, keep, drop)[if c == drop then keep else c];
  }

  lemma MergedDisjoint(p: Partition, keep: Id, drop: Id, c: Id, d: Id)
    requires forall c, d :: c in p && d in p && c != d ==> p[c] !! p[d]
    requires keep in p && drop in p && keep != drop
    requires c in p && d in p && c != d && c != drop && d != drop
    ensures Merged(p, keep, drop)[c] !! Merged(p, keep, drop)[d]
  {
    assert p[c] !! p[d] && p[drop] !! p[c] && p[drop] !! p[d];
  }

  lemma KeyOrderPartitions(g: Graph, p: Partition)
    requires IsPartition(g, p)
    ensures Partitions(InKeyOrder(p), g.Keys)
  {
    var parts := InKeyOrder(p);
    forall k | 0 <= k < |parts|
      ensures parts[k] != {} && parts[k] <= g.Keys
    {
      KeyOrderAt(p, k);
    }
    forall j, k | 0 <= j < k < |parts|
      ensures parts[j] !! parts[k]
    {
      KeyOrderAt(p, j);
      KeyOrderAt(p, k);
      assert Sorted(p.Keys)[j] < Sorted(p.Keys)[k];
    }
    forall x | x in g.Keys
      ensures Listed(x, parts)
    {
      assert Covers(p, x);
      KeyOrderCovers(p, x);
    }
  }

  lemma KeyOrderAt(p: Partition, k: nat)
    requires k < |p|
    ensures Sorted(p.Keys)[k] in p && InKeyOrder(p)[k] == p[Sorted(p.Keys)[k]]
  {
    assert Sorted(p.Keys)[k] in Sorted(p.Keys);
  }

  lemma KeyOrderCovers(p: Partition, x: Id)
    requires Covers(p, x)
    ensures Listed(x, InKeyOrder(p))
  {
    var c :| c in p && x in p[c];
    var keys := Sorted(p.Keys);
    assert c in keys;
    var k :| 0 <= k < |keys| && keys[k] == c;
    assert x in InKeyOrder(p)[k];
  }
}
