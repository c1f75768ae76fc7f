/** Weighted graphs as the projection keeps them: one row of neighbours per entity. */
module Graphs {
  import opened Sums

  /** Entity ids. Only equality and the order on them are ever used. */
  type Id = int
  type Row = map<Id, real>
  type Graph = map<Id, Row>

  /** Every edge is stored at both of its ends, with the same weight. */
  ghost predicate Symmetric(g: Graph) {
    forall i, j :: i in g && j in g[i] ==> j in g && i in g[j] && g[j][i] == g[i][j]
  }

  ghost predicate LoopFree(g: Graph) {
    forall i :: i in g ==> i !in g[i]
  }

  ghost predicate NonNegative(g: Graph) {
    forall i, j :: i in g && j in g[i] ==> g[i][j] >= 0.0
  }

  /** What clustering needs of its input: its table updates delete the far end of
      every edge they move, so an edge must have one, and not be its own. */
  ghost predicate Undirected(g: Graph) {
    Symmetric(g) && LoopFree(g)
  }

  /** The weight of a pair, zero where the row has no entry. */
  function Weight(g: Graph, i: Id, j: Id): real {
    if i in g && j in g[i] then g[i][j] else 0.0
  }

  ghost function WeightsFrom(g: Graph, i: Id): Id -> real {
    j => Weight(g, i, j)
  }

  ghost function ValuesOf(row: Row): Id -> real {
    (j: Id) => if j in row then row[j] else 0.0
  }

  ghost function RowTotal(g: Graph, i: Id): real {
    if i in g then Sum(g[i].Keys, ValuesOf(g[i])) else 0.0
  }

  ghost function RowTotals(g: Graph): Id -> real {
    i => RowTotal(g, i)
  }

  /** The weight of all edges, each counted once. */
  ghost function Total(g: Graph): real {
    Sum(g.Keys, RowTotals(g)) / 2.0
  }

  /** The summed degree of a set of nodes. */
  ghost function Degree(g: Graph, a: set<Id>): real {
    Sum(a, RowTotals(g))
  }

  ghost function WeightsInto(g: Graph, b: set<Id>): Id -> real {
    i => Sum(b, WeightsFrom(g, i))
  }

  /** The weight from `a` to `b`: every pair (i in a, j in b), in this direction. */
  ghost function Cross(g: Graph, a: set<Id>, b: set<Id>): real {
    Sum(a, WeightsInto(g, b))
  }

  /** Some edge, of whatever weight, is stored between the two sets. */
  ghost predicate Linked(g: Graph, a: set<Id>, b: set<Id>) {
    exists i, j :: i in a && j in b && i in g && j in g[i]
  }

  /** The graph on `nodes` alone, with the edges that stay inside. */
  function Induced(g: Graph, nodes: set<Id>): Graph {
    map i | i in nodes && i in g :: map j | j in g[i] && j in nodes :: g[i][j]
  }

  /** Every node asked for is there, with all of its edges that stay inside, as they weigh. */
  lemma InducedInside(g: Graph, nodes: set<Id>, i: Id, j: Id)
    ensures i in Induced(g, nodes) <==> i in nodes && i in g
    ensures i in Induced(g, nodes) ==>
      (j in Induced(g, nodes)[i] <==> j in nodes && j in g[i])
      && (j in nodes ==> Weight(Induced(g, nodes), i, j) == Weight(g, i, j))
  {
  }

  lemma InducedUndirected(g: Graph, nodes: set<Id>)
    requires Undirected(g)
    ensures Undirected(Induced(g, nodes))
  {
  }

  lemma WeightSymmetric(g: Graph, i: Id, j: Id)
    requires Symmetric(g)
    ensures Weight(g, i, j) == Weight(g, j, i)
  {
  }

  // ----- Cross weights -----

  lemma CrossUnionLeft(g: Graph, a: set<Id>, a': set<Id>, b: set<Id>)
    requires a !! a'
    ensures Cross(g, a + a', b) == Cross(g, a, b) + Cross(g, a', b)
  {
    SumUnion(a, a', WeightsInto(g, b));
  }

  lemma CrossUnionRight(g: Graph, a: set<Id>, b: set<Id>, b': set<Id>)
    requires b !! b'
    ensures Cross(g, a, b + b') == Cross(g, a, b) + Cross(g, a, b')
  {
    forall i | i in a
      ensures WeightsInto(g, b + b')(i) == WeightsInto(g, b)(i) + WeightsInto(g, b')(i)
    {
      SumUnion(b, b', WeightsFrom(g, i));
    }
    SumSplit(a, WeightsInto(g, b), WeightsInto(g, b'), WeightsInto(g, b + b'));
  }

  /** One column of the matrix reads like one row. */
  lemma {:induction false} CrossColumn(g: Graph, a: set<Id>, j: Id)
    requires Symmetric(g)
    ensures Cross(g, a, {j}) == Sum(a, WeightsFrom(g, j))
  {
    forall i | i in a
      ensures WeightsInto(g, {j})(i) == WeightsFrom(g, j)(i)
    {
      SumOfOne(j, WeightsFrom(g, i));
      WeightSymmetric(g, i, j);
    }
    SumAgree(a, WeightsInto(g, {j}), WeightsFrom(g, j));
  }

  lemma {:induction false} CrossSymmetric(g: Graph, a: set<Id>, b: set<Id>)
    requires Symmetric(g)
    ensures Cross(g, a, b) == Cross(g, b, a)
    decreases |b|
  {
    if b == {} {
      SumOfZeros(a, WeightsInto(g, b));
    } else {
      var j := Pick(b);
      var rest := b - {j};
      assert b == rest + {j};
      CrossUnionRight(g, a, rest, {j});
      CrossColumn(g, a, j);
      SumTakeOut(b, j, WeightsInto(g, a));
      CrossSymmetric(g, a, rest);
    }
  }

  lemma CrossUnlinked(g: Graph, a: set<Id>, b: set<Id>)
    requires !Linked(g, a, b)
    ensures Cross(g, a, b) == 0.0
  {
    forall i | i in a
      ensures WeightsInto(g, b)(i) == 0.0
    {
      SumOfZeros(b, WeightsFrom(g, i));
    }
    SumOfZeros(a, WeightsInto(g, b));
  }

  lemma CrossOfTwo(g: Graph, i: Id, j: Id)
    ensures Cross(g, {i}, {j}) == Weight(g, i, j)
  {
    SumOfOne(i, WeightsInto(g, {j}));
    SumOfOne(j, WeightsFrom(g, i));
  }

  lemma DegreeUnion(g: Graph, a: set<Id>, b: set<Id>)
    requires a !! b
    ensures Degree(g, a + b) == Degree(g, a) + Degree(g, b)
  {
    SumUnion(a, b, RowTotals(g));
  }

  lemma DegreeNonNegative(g: Graph, a: set<Id>)
    requires NonNegative(g)
    ensures Degree(g, a) >= 0.0
  {
    forall i | i in a
      ensures RowTotals(g)(i) >= 0.0
    {
      if i in g {
        forall j | j in g[i].Keys
          ensures ValuesOf(g[i])(j) >= 0.0
        {
          assert g[i][j] >= 0.0;
        }
        SumNonNegative(g[i].Keys, ValuesOf(g[i]));
      }
    }
    SumNonNegative(a, RowTotals(g));
  }

  lemma LinkedSymmetric(g: Graph, a: set<Id>, b: set<Id>)
    requires Symmetric(g)
    ensures Linked(g, a, b) == Linked(g, b, a)
  {
  }

  lemma LinkedUnion(g: Graph, a: set<Id>, a': set<Id>, b: set<Id>)
    ensures Linked(g, a + a', b) == (Linked(g, a, b) || Linked(g, a', b))
  {
    if Linked(g, a + a', b) {
      var i, j :| i in a + a' && j in b && i in g && j in g[i];
      assert i in a || i in a';
    }
    if Linked(g, a, b) {
      var i, j :| i in a && j in b && i in g && j in g[i];
      assert i in a + a';
    }
    if Linked(g, a', b) {
      var i, j :| i in a' && j in b && i in g && j in g[i];
      assert i in a + a';
    }
  }

  /** Joining `a` and `a'` joins what leads to them, and what leads from them. */
  lemma JoinedEnds(g: Graph, a: set<Id>, a': set<Id>, b: set<Id>)
    requires Symmetric(g) && a !! a'
    ensures Cross(g, a + a', b) == Cross(g, a, b) + Cross(g, a', b)
    ensures Cross(g, b, a + a') == Cross(g, b, a) + Cross(g, b, a')
    ensures Linked(g, a + a', b) <==> Linked(g, a, b) || Linked(g, a', b)
    ensures Linked(g, b, a + a') <==> Linked(g, b, a) || Linked(g, b, a')
  {
    CrossUnionLeft(g, a, a', b);
    CrossUnionRight(g, b, a, a');
    LinkedUnion(g, a, a', b);
    LinkedSymmetric(g, b, a);
    LinkedSymmetric(g, b, a');
    LinkedSymmetric(g, b, a + a');
  }
}
