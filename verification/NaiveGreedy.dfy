/** Greedy modularity said simply: look at every linked pair of communities, merge a best
    one, stop when none helps. No heap, no running tables, no stale entries.

    `eps` is the tolerance with which the code compares a stored score to a live one.
    With `eps` zero the pair merged is the very best, lowest keys first on ties, and the
    outcome depends on the graph alone. */
module NaiveGreedy {
  import opened Graphs
  import opened Partitioning

  /** A pair the loop may merge: two communities, lower key first, with an edge between. */
  ghost predicate Candidate(g: Graph, p: Partition, l: Id, r: Id) {
    l in p && r in p && l < r && Linked(g, p[l], p[r])
  }

  ghost function PairGain(g: Graph, p: Partition, l: Id, r: Id): real
    requires Total(g) > 0.0 && l in p && r in p
  {
    Gain(g, p[l], p[r])
  }

  predicate PairBefore(l: Id, r: Id, a: Id, b: Id) {
    l < a || (l == a && r < b)
  }

  /** Merging (l, r) is worth as much as merging (a, b), to within `eps`; with `eps` zero
      an equal score leaves (l, r) the lower pair. */
  ghost predicate AsGood(g: Graph, eps: real, p: Partition, l: Id, r: Id, a: Id, b: Id)
    requires Total(g) > 0.0 && l in p && r in p && a in p && b in p
  {
    && PairGain(g, p, a, b) <= PairGain(g, p, l, r) + eps
    && (eps == 0.0 && PairGain(g, p, a, b) == PairGain(g, p, l, r) ==> !PairBefore(a, b, l, r))
  }

  ghost predicate Best(g: Graph, eps: real, p: Partition, l: Id, r: Id)
    requires Total(g) > 0.0
  {
    && Candidate(g, p, l, r)
    && forall a, b :: Candidate(g, p, a, b) ==> AsGood(g, eps, p, l, r, a, b)
  }

  /** One round: a best pair, worth something. It is merged under its lower key. */
  ghost predicate Round(g: Graph, eps: real, p: Partition, l: Id, r: Id)
    requires Total(g) > 0.0
  {
    Best(g, eps, p, l, r) && PairGain(g, p, l, r) > 0.0
  }

  /** No linked pair is worth more than `eps`. */
  ghost predicate Settled(g: Graph, eps: real, p: Partition)
    requires Total(g) > 0.0
  {
    forall a, b :: Candidate(g, p, a, b) ==> PairGain(g, p, a, b) <= eps
  }

  /** From `s`, taking the moves in order, each allowed where it is taken, to `t`. */
  ghost predicate Chain<S(!new), M(!new)>(allowed: (S, M) -> bool, after: (S, M) -> S, s: S, moves: seq<M>, t: S)
    decreases |moves|
  {
    if moves == [] then s == t else
      allowed(s, moves[0]) && Chain(allowed, after, after(s, moves[0]), moves[1..], t)
  }

  lemma {:induction false} ChainExtend<S(!new), M(!new)>(allowed: (S, M) -> bool, after: (S, M) -> S,
                                                         s: S, moves: seq<M>, t: S, m: M)
    requires Chain(allowed, after, s, moves, t) && allowed(t, m)
    ensures Chain(allowed, after, s, moves + [m], after(t, m))
    decreases |moves|
  {
    if moves == [] {
      assert (moves + [m])[1..] == [];
    } else {
      ChainExtend(allowed, after, after(s, moves[0]), moves[1..], t, m);
      assert (moves + [m])[1..] == moves[1..] + [m];
    }
  }

  ghost function RoundFrom(g: Graph, eps: real): (Partition, (Id, Id)) -> bool {
    (p: Partition, m: (Id, Id)) => Total(g) > 0.0 && Round(g, eps, p, m.0, m.1)
  }

  ghost function AfterMerge(): (Partition, (Id, Id)) -> Partition {
    (p: Partition, m: (Id, Id)) => if m.0 in p && m.1 in p then Merged(p, m.0, m.1) else p
  }

  /** The rounds that merge these pairs, in this order, lead from `p` to `q`. */
  ghost predicate Rounds(g: Graph, eps: real, p: Partition, merges: seq<(Id, Id)>, q: Partition) {
    Chain(RoundFrom(g, eps), AfterMerge(), p, merges, q)
  }

  /** What greedy modularity returns: rounds from the single nodes until it settles. A
      graph without weight stays in single nodes. */
  ghost predicate GreedyOutcome(g: Graph, eps: real, p: Partition) {
    if Total(g) <= 0.0 then p == Singletons(g) else
      Settled(g, eps, p) && exists merges :: Rounds(g, eps, Singletons(g), merges, p)
  }

  // ----- Properties of every run -----

  lemma RoundsExtend(g: Graph, eps: real, p: Partition, merges: seq<(Id, Id)>, q: Partition, l: Id, r: Id)
    requires Total(g) > 0.0
    requires Rounds(g, eps, p, merges, q) && Round(g, eps, q, l, r)
    ensures l in q && r in q && Rounds(g, eps, p, merges + [(l, r)], Merged(q, l, r))
  {
    ChainExtend(RoundFrom(g, eps), AfterMerge(), p, merges, q, (l, r));
  }

  lemma {:induction false} RoundsPartition(g: Graph, eps: real, p: Partition, merges: seq<(Id, Id)>, q: Partition)
    requires Total(g) > 0.0 && IsPartition(g, p)
    requires Rounds(g, eps, p, merges, q)
    ensures IsPartition(g, q)
    decreases |merges|
  {
    if merges != [] {
      MergedPartition(g, p, merges[0].0, merges[0].1);
      RoundsPartition(g, eps, Merged(p, merges[0].0, merges[0].1), merges[1..], q);
    }
  }

  lemma OutcomePartition(g: Graph, eps: real, p: Partition)
    requires GreedyOutcome(g, eps, p)
    ensures IsPartition(g, p)
  {
    SingletonsPartition(g);
    if Total(g) > 0.0 {
      var merges :| Rounds(g, eps, Singletons(g), merges, p);
      RoundsPartition(g, eps, Singletons(g), merges, p);
    }
  }

  /** Every round raises the modularity of the whole partition. */
  lemma {:induction false} RoundsRaiseModularity(g: Graph, eps: real, p: Partition, merges: seq<(Id, Id)>, q: Partition)
    requires Symmetric(g) && Total(g) > 0.0 && IsPartition(g, p)
    requires Rounds(g, eps, p, merges, q)
    ensures if merges == [] then q == p else Modularity(g, p) < Modularity(g, q)
    decreases |merges|
  {
    if merges != [] {
      var (l, r) := merges[0];
      MergeGain(g, p, l, r);
      MergedPartition(g, p, l, r);
      RoundsRaiseModularity(g, eps, Merged(p, l, r), merges[1..], q);
    }
  }

  /** The outcome is a local optimum: merging any two of its communities, linked or not,
      raises modularity by at most `eps`. */
  lemma LocalOptimum(g: Graph, eps: real, p: Partition, c: Id, d: Id)
    requires Symmetric(g) && NonNegative(g) && Total(g) > 0.0 && eps >= 0.0
    requires GreedyOutcome(g, eps, p)
    requires c in p && d in p && c != d
    ensures Modularity(g, Merged(p, c, d)) <= Modularity(g, p) + eps
  {
    OutcomePartition(g, eps, p);
    MergeGain(g, p, c, d);
    GainSymmetric(g, p[c], p[d]);
    if !Linked(g, p[c], p[d]) {
      UnlinkedGain(g, p[c], p[d]);
    } else if c < d {
      assert Candidate(g, p, c, d);
    } else {
      LinkedSymmetric(g, p[c], p[d]);
      assert Candidate(g, p, d, c);
    }
  }

  /** With `eps` zero at most one pair is best. */
  lemma BestUnique(g: Graph, p: Partition, l: Id, r: Id, a: Id, b: Id)
    requires Total(g) > 0.0
    requires Best(g, 0.0, p, l, r) && Best(g, 0.0, p, a, b)
    ensures l == a && r == b
  {
    assert AsGood(g, 0.0, p, l, r, a, b) && AsGood(g, 0.0, p, a, b, l, r);
  }

  lemma {:induction false} RoundsUnique(g: Graph, p: Partition, ms: seq<(Id, Id)>, q: Partition,
                                        ns: seq<(Id, Id)>, q': Partition)
    requires Total(g) > 0.0
    requires Rounds(g, 0.0, p, ms, q) && Settled(g, 0.0, q)
    requires Rounds(g, 0.0, p, ns, q') && Settled(g, 0.0, q')
    ensures q == q'
    decreases |ms|
  {
    if ms != [] && ns != [] {
      BestUnique(g, p, ms[0].0, ms[0].1, ns[0].0, ns[0].1);
      RoundsUnique(g, Merged(p, ms[0].0, ms[0].1), ms[1..], q, ns[1..], q');
    }
  }

  /** With `eps` zero the graph alone decides: whatever order rows, entries or ties were
      met in, two runs end in the same partition. */
  lemma OutcomeUnique(g: Graph, p: Partition, q: Partition)
    requires GreedyOutcome(g, 0.0, p) && GreedyOutcome(g, 0.0, q)
    ensures p == q
  {
    if Total(g) > 0.0 {
      var ms :| Rounds(g, 0.0, Singletons(g), ms, p);
      var ns :| Rounds(g, 0.0, Singletons(g), ns, q);
      RoundsUnique(g, Singletons(g), ms, p, ns, q);
    }
  }
}
