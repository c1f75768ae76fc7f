/** research_team/curriculum/application/area_graph.py: the weighted graph, folded from
    asserted relationships, passages that name entities together, and semantic neighbours. */
module AreaGraph {
  import opened Sums
  import opened Counting
  import opened Graphs
  import opened Orders

  const RELATION_WEIGHT := 1.0
  const CO_MENTION_BUDGET := 0.5
  const MAX_PASSAGE_ENTITIES := 25
  const EMBEDDING_WEIGHT := 0.6
  const MIN_NEIGHBOUR_STANDOUT := 1.0
  const STANDOUT_SPAN := 1.0

  /** Contributions by pair, the lower id first. */
  type Pairs = map<(Id, Id), real>

  ghost function PairValues(edges: Pairs): ((Id, Id)) -> real {
    (p: (Id, Id)) => if p in edges then edges[p] else 0.0
  }

  function PairValue(edges: Pairs, p: (Id, Id)): real {
    if p in edges then edges[p] else 0.0
  }

  function Plus(edges: Pairs, p: (Id, Id), w: real): Pairs {
    edges[p := PairValue(edges, p) + w]
  }

  ghost function PairTotal(edges: Pairs): real {
    Sum(edges.Keys, PairValues(edges))
  }

  function Pair(i: Id, j: Id): (Id, Id) {
    if i < j then (i, j) else (j, i)
  }

  ghost predicate GoodPairs(edges: Pairs, known: set<Id>) {
    forall p :: p in edges ==> p.0 < p.1 && p.0 in known && p.1 in known && edges[p] >= 0.0
  }

  lemma PairTotalUpdate(edges: Pairs, p: (Id, Id), w: real)
    ensures PairTotal(Plus(edges, p, w)) == PairTotal(edges) + w
  {
    var after := Plus(edges, p, w);
    if p in edges {
      assert after.Keys == edges.Keys;
      SumShift(edges.Keys, p, PairValues(edges), PairValues(after), w);
    } else {
      assert after.Keys == edges.Keys + {p};
      SumPutIn(edges.Keys, p, PairValues(after));
      SumAgree(edges.Keys, PairValues(edges), PairValues(after));
    }
  }

  // ----- Co-mention -----

  predicate Counted(passage: set<Id>, known: set<Id>) {
    2 <= |passage * known| <= MAX_PASSAGE_ENTITIES
  }

  function PairsAmong(n: nat): nat {
    n * (n - 1) / 2
  }

  /** One pair's part of a passage's budget. */
  function Share(n: nat): real
    requires n >= 2
  {
    PairsAmongPositive(n);
    CO_MENTION_BUDGET / PairsAmong(n) as real
  }

  lemma PairsAmongPositive(n: nat)
    requires n >= 2
    ensures PairsAmong(n) > 0
  {
    assert n * (n - 1) >= 2 * (n - 1);
  }

  /** All pairs of a set, lower id first. */
  ghost function AllPairs(members: set<Id>): set<(Id, Id)> {
    set i, j | i in members && j in members && i < j :: (i, j)
  }

  /** The pairs a passage contributes to: none if it is not counted. */
  ghost function PairsOf(passage: set<Id>, known: set<Id>): set<(Id, Id)> {
    if Counted(passage, known) then AllPairs(passage * known) else {}
  }

  ghost function ShareOf(passage: set<Id>, known: set<Id>, p: (Id, Id)): real {
    if Counted(passage, known) && p in AllPairs(passage * known) then Share(|passage * known|) else 0.0
  }

  /** What the passages together give one pair. */
  ghost function CoWeight(passages: seq<set<Id>>, known: set<Id>, p: (Id, Id)): real {
    if passages == [] then 0.0 else
      var n := |passages| - 1;
      CoWeight(passages[..n], known, p) + ShareOf(passages[n], known, p)
  }

  ghost function CoPairs(passages: seq<set<Id>>, known: set<Id>): set<(Id, Id)> {
    if passages == [] then {} else
      var n := |passages| - 1;
      CoPairs(passages[..n], known) + PairsOf(passages[n], known)
  }

  ghost function CountedIn(passages: seq<set<Id>>, known: set<Id>): nat {
    if passages == [] then 0 else
      var n := |passages| - 1;
      CountedIn(passages[..n], known) + if Counted(passages[n], known) then 1 else 0
  }

  /** `done` has been given `share` each, on top of what was there. */
  ghost predicate Shared(before: Pairs, edges: Pairs, done: set<(Id, Id)>, share: real) {
    && edges.Keys == before.Keys + done
    && forall p :: PairValue(edges, p) == PairValue(before, p) + if p in done then share else 0.0
  }

  lemma ShareOne(before: Pairs, edges: Pairs, done: set<(Id, Id)>, share: real, p: (Id, Id))
    requires Shared(before, edges, done, share) && p !in done
    ensures Shared(before, Plus(edges, p, share), done + {p}, share)
  {
    var after := Plus(edges, p, share);
    assert forall q :: q != p ==> PairValue(after, q) == PairValue(edges, q);
  }

  ghost function Times(share: real, n: nat): real {
    share * n as real
  }

  lemma OneMore(share: real, n: nat)
    ensures Times(share, n + 1) == Times(share, n) + share
  {
    assert (n + 1) as real == n as real + 1.0;
  }

  /** Giving `share` to each pair of `done` adds `share` once for each. */
  lemma SharedTotal(before: Pairs, edges: Pairs, done: set<(Id, Id)>, share: real)
    requires Shared(before, edges, done, share)
    ensures PairTotal(edges) == PairTotal(before) + Times(share, |done|)
  {
    forall p
      ensures PairValues(edges)(p) == PairValues(before)(p) + if p in done then share else 0.0
    {
      assert PairValue(edges, p) == PairValue(before, p) + if p in done then share else 0.0;
    }
    SumWithBonus(before.Keys, done, PairValues(before), PairValues(edges), share);
  }

  /** The pairs that the two loops of lines 143-145 have visited on reaching (i, j). */
  ghost predicate Visited(members: seq<Id>, i: nat, j: nat, done: set<(Id, Id)>) {
    && (forall a, b :: 0 <= a < b < |members| ==>
      ((members[a], members[b]) in done <==> a < i || (a == i && b < j)))
    && (forall p {:trigger InOrder(members, p)} :: p in done ==> InOrder(members, p))
  }

  predicate InOrder(members: seq<Id>, p: (Id, Id)) {
    p.0 in members && p.1 in members && p.0 < p.1
  }

  /** Lines 140-145: one passage's budget, over its pairs. */
  method ShareOut(edges0: Pairs, members: seq<Id>) returns (edges: Pairs)
    requires |members| >= 2 && Increasing(members)
    ensures Shared(edges0, edges, AllPairs(set x | x in members), Share(|members|))
    ensures PairTotal(edges) == PairTotal(edges0) + CO_MENTION_BUDGET
  {
    edges := edges0;
    var n := |members|;
    var share := Share(n);
    ghost var done: set<(Id, Id)> := {};
    for i := 0 to n
      invariant Visited(members, i, i + 1, done)
      invariant Shared(edges0, edges, done, share)
      invariant TwiceRows(n, i) == 2 * |done|
    {
      ghost var row := |done|;
      for j := i + 1 to n
        invariant Visited(members, i, j, done)
        invariant Shared(edges0, edges, done, share)
        invariant |done| == row + (j - i - 1)
      {
        var p := (members[i], members[j]);
        VisitOne(members, i, j, done);
        ShareOne(edges0, edges, done, share, p);
        edges := Plus(edges, p, share);
        done := done + {p};
      }
      NextRow(members, i, done);
      RowCount(n, i, row, |done|);
    }
    AllVisited(members, done);
    SharedTotal(edges0, edges, done, share);
    BudgetSpent(n, |done|);
  }

  /** Twice the number of pairs in the first `i` rows. */
  ghost function TwiceRows(n: nat, i: nat): int {
    i * (2 * n - i - 1)
  }

  lemma VisitOne(members: seq<Id>, i: nat, j: nat, done: set<(Id, Id)>)
    requires Increasing(members) && i < j < |members|
    requires Visited(members, i, j, done)
    ensures (members[i], members[j]) !in done
    ensures Visited(members, i, j + 1, done + {(members[i], members[j])})
  {
  }

  lemma NextRow(members: seq<Id>, i: nat, done: set<(Id, Id)>)
    requires i < |members| && Visited(members, i, |members|, done)
    ensures Visited(members, i + 1, i + 2, done)
  {
  }

  lemma RowCount(n: nat, i: nat, row: nat, count: nat)
    requires 2 * row == TwiceRows(n, i) && i < n && count == row + (n - i - 1)
    ensures 2 * count == TwiceRows(n, i + 1)
  {
  }

  lemma AllVisited(members: seq<Id>, done: set<(Id, Id)>)
    requires Increasing(members) && Visited(members, |members|, |members| + 1, done)
    ensures done == AllPairs(set x | x in members)
  {
    forall i, j | i in members && j in members && i < j
      ensures (i, j) in done
    {
      var a :| 0 <= a < |members| && members[a] == i;
      var b :| 0 <= b < |members| && members[b] == j;
      assert a < b;
    }
    assert forall p :: p in done ==> InOrder(members, p);
  }

  lemma BudgetSpent(n: nat, count: nat)
    requires n >= 2 && 2 * count == TwiceRows(n, n)
    ensures count == PairsAmong(n)
    ensures Times(Share(n), count) == CO_MENTION_BUDGET
  {
    assert n * (2 * n - n - 1) == n * (n - 1);
    PairsAmongPositive(n);
    assert count == PairsAmong(n);
  }

  /** `_co_mention_edges`. A pair gets its share of every counted passage that names it;
      each counted passage spends its whole budget and no more. */
  method CoMentionEdges(passages: seq<set<Id>>, known: set<Id>) returns (edges: Pairs, counted: nat)
    ensures CoOutcome(edges, counted, passages, known)
  {
    edges, counted := map[], 0;
    for k := 0 to |passages|
      invariant CoOutcome(edges, counted, passages[..k], known)
    {
      var passage := passages[k];
      var members := Sorted(passage * known);
      if |members| < 2 || |members| > MAX_PASSAGE_ENTITIES {
        CoMentionSkip(edges, counted, passages, k, known);
        continue;
      }
      ghost var before := edges;
      edges := ShareOut(edges, members);
      SortedElements(passage * known);
      CoMentionNext(before, edges, counted, passages, k, known);
      counted := counted + 1;
    }
    assert passages[..|passages|] == passages;
  }

  /** Pairs in order and among the known; each pair's weight; and the budgets spent. */
  ghost predicate CoOutcome(edges: Pairs, counted: nat, passages: seq<set<Id>>, known: set<Id>) {
    && GoodPairs(edges, known)
    && CoMentioned(edges, passages, known)
    && counted == CountedIn(passages, known)
    && PairTotal(edges) == Times(CO_MENTION_BUDGET, counted)
  }

  ghost predicate CoMentioned(edges: Pairs, passages: seq<set<Id>>, known: set<Id>) {
    && edges.Keys == CoPairs(passages, known)
    && forall p :: PairValue(edges, p) == CoWeight(passages, known, p)
  }

  lemma CoMentionSkip(edges: Pairs, counted: nat, passages: seq<set<Id>>, k: nat, known: set<Id>)
    requires k < |passages| && !Counted(passages[k], known)
    requires CoOutcome(edges, counted, passages[..k], known)
    ensures CoOutcome(edges, counted, passages[..k + 1], known)
  {
    assert passages[..k + 1][..k] == passages[..k];
  }

  lemma CoMentionNext(before: Pairs, edges: Pairs, counted: nat, passages: seq<set<Id>>, k: nat, known: set<Id>)
    requires k < |passages| && Counted(passages[k], known)
    requires CoOutcome(before, counted, passages[..k], known)
    requires Shared(before, edges, AllPairs(passages[k] * known), Share(|passages[k] * known|))
    requires PairTotal(edges) == PairTotal(before) + CO_MENTION_BUDGET
    ensures CoOutcome(edges, counted + 1, passages[..k + 1], known)
  {
    assert passages[..k + 1][..k] == passages[..k];
    StaysGood(before, edges, passages[k], known);
    OneMore(CO_MENTION_BUDGET, counted);
  }

  lemma StaysGood(before: Pairs, edges: Pairs, passage: set<Id>, known: set<Id>)
    requires Counted(passage, known) && GoodPairs(before, known)
    requires Shared(before, edges, AllPairs(passage * known), Share(|passage * known|))
    ensures GoodPairs(edges, known)
  {
    SharePositive(|passage * known|);
    forall p | p in edges
      ensures p.0 < p.1 && p.0 in known && p.1 in known && edges[p] >= 0.0
    {
      assert edges[p] == PairValue(edges, p);
    }
  }

  lemma SharePositive(n: nat)
    requires n >= 2
    ensures Share(n) > 0.0
  {
    PairsAmongPositive(n);
  }

  // ----- Semantic neighbours -----

  /** A semantic triple: two ids and how far the pair stands out. */
  type Triple = (Id, Id, real)

  predicate Drawn(t: Triple, known: set<Id>) {
    t.0 != t.1 && t.0 in known && t.1 in known && t.2 >= MIN_NEIGHBOUR_STANDOUT
  }

  function StandoutWeight(standout: real): (w: real)
    requires standout >= MIN_NEIGHBOUR_STANDOUT
    ensures 0.0 <= w <= EMBEDDING_WEIGHT
  {
    var risen := (standout - MIN_NEIGHBOUR_STANDOUT) / STANDOUT_SPAN;
    EMBEDDING_WEIGHT * if risen < 1.0 then risen else 1.0
  }

  ghost predicate Offers(t: Triple, known: set<Id>, p: (Id, Id)) {
    Drawn(t, known) && Pair(t.0, t.1) == p
  }

  /** A pair is drawn when some triple offers it, and weighs what the best offer does:
      offering it again, in either direction, changes nothing. */
  ghost predicate SemanticOutcome(edges: Pairs, triples: seq<Triple>, known: set<Id>) {
    && GoodPairs(edges, known)
    && (forall k :: 0 <= k < |triples| ==> Meets(edges, triples[k], known))
    && (forall p :: p in edges ==> Offered(triples, known, p, edges[p]))
  }

  ghost predicate Meets(edges: Pairs, t: Triple, known: set<Id>) {
    Drawn(t, known) ==> Pair(t.0, t.1) in edges && StandoutWeight(t.2) <= edges[Pair(t.0, t.1)]
  }

  ghost predicate Offered(triples: seq<Triple>, known: set<Id>, p: (Id, Id), w: real) {
    exists k :: 0 <= k < |triples| && Offers(triples[k], known, p) && StandoutWeight(triples[k].2) == w
  }

  /** `_semantic_edges` */
  method SemanticEdges(triples: seq<Triple>, known: set<Id>) returns (edges: Pairs)
    ensures SemanticOutcome(edges, triples, known)
  {
    edges := map[];
    for k := 0 to |triples|
      invariant SemanticOutcome(edges, triples[..k], known)
    {
      var (left, right, standout) := triples[k];
      if left == right || left !in known || right !in known || standout < MIN_NEIGHBOUR_STANDOUT {
        SemanticSkip(edges, triples, k, known);
        continue;
      }
      var key := Pair(left, right);
      var weight := StandoutWeight(standout);
      var had := PairValue(edges, key);
      SemanticNext(edges, triples, k, known);
      edges := edges[key := if had > weight then had else weight];
    }
    assert triples[..|triples|] == triples;
  }

  lemma OfferKept(triples: seq<Triple>, k: nat, known: set<Id>, p: (Id, Id), w: real)
    requires k < |triples| && Offered(triples[..k], known, p, w)
    ensures Offered(triples[..k + 1], known, p, w)
  {
    var j :| 0 <= j < k && Offers(triples[..k][j], known, p) && StandoutWeight(triples[..k][j].2) == w;
    assert triples[..k + 1][j] == triples[..k][j];
  }

  lemma SemanticSkip(edges: Pairs, triples: seq<Triple>, k: nat, known: set<Id>)
    requires k < |triples| && !Drawn(triples[k], known)
    requires SemanticOutcome(edges, triples[..k], known)
    ensures SemanticOutcome(edges, triples[..k + 1], known)
  {
    forall p | p in edges
      ensures Offered(triples[..k + 1], known, p, edges[p])
    {
      OfferKept(triples, k, known, p, edges[p]);
    }
    var longer := triples[..k + 1];
    forall j | 0 <= j < |longer|
      ensures Meets(edges, longer[j], known)
    {
      assert j < k ==> longer[j] == triples[..k][j];
    }
  }

  lemma SemanticNext(edges: Pairs, triples: seq<Triple>, k: nat, known: set<Id>)
    requires k < |triples| && Drawn(triples[k], known)
    requires SemanticOutcome(edges, triples[..k], known)
    ensures var p, w := Pair(triples[k].0, triples[k].1), StandoutWeight(triples[k].2);
            SemanticOutcome(edges[p := if PairValue(edges, p) > w then PairValue(edges, p) else w],
                            triples[..k + 1], known)
  {
    var p, w := Pair(triples[k].0, triples[k].1), StandoutWeight(triples[k].2);
    var after := edges[p := if PairValue(edges, p) > w then PairValue(edges, p) else w];
    assert triples[..k + 1][k] == triples[k];
    forall q | q in after
      ensures Offered(triples[..k + 1], known, q, after[q])
    {
      if q in edges && after[q] == edges[q] {
        OfferKept(triples, k, known, q, edges[q]);
      } else {
        assert Offers(triples[..k + 1][k], known, q);
      }
    }
    var longer := triples[..k + 1];
    forall j | 0 <= j < |longer|
      ensures Meets(after, longer[j], known)
    {
      assert j < k ==> longer[j] == triples[..k][j];
    }
  }

  lemma SemanticBounds(edges: Pairs, triples: seq<Triple>, known: set<Id>, p: (Id, Id))
    requires SemanticOutcome(edges, triples, known) && p in edges
    ensures 0.0 <= edges[p] <= EMBEDDING_WEIGHT
  {
    assert Offered(triples, known, p, edges[p]);
  }

  /** The drawn edges depend on what each pair is offered: not on the order of the triples,
      nor on which way round they name a pair, nor on how often. */
  lemma SemanticUnordered(edges: Pairs, edges': Pairs, triples: seq<Triple>, triples': seq<Triple>, known: set<Id>)
    requires SemanticOutcome(edges, triples, known) && SemanticOutcome(edges', triples', known)
    requires forall p, w :: Offered(triples, known, p, w) <==> Offered(triples', known, p, w)
    ensures edges == edges'
  {
    forall p | p in edges
      ensures p in edges' && edges[p] <= edges'[p]
    {
      SemanticLess(edges, edges', triples, triples', known, p);
    }
    forall p | p in edges'
      ensures p in edges && edges'[p] <= edges[p]
    {
      SemanticLess(edges', edges, triples', triples, known, p);
    }
  }

  lemma SemanticLess(edges: Pairs, edges': Pairs, triples: seq<Triple>, triples': seq<Triple>, known: set<Id>,
                     p: (Id, Id))
    requires SemanticOutcome(edges, triples, known) && SemanticOutcome(edges', triples', known)
    requires forall q, w :: Offered(triples, known, q, w) ==> Offered(triples', known, q, w)
    requires p in edges
    ensures p in edges' && edges[p] <= edges'[p]
  {
    assert Offered(triples, known, p, edges[p]);
    var j :| 0 <= j < |triples'| && Offers(triples'[j], known, p) && StandoutWeight(triples'[j].2) == edges[p];
    assert Meets(edges', triples'[j], known);
  }

  lemma OfferedBySame(triples: seq<Triple>, triples': seq<Triple>, known: set<Id>, p: (Id, Id), w: real)
    requires forall t :: t in triples ==> t in triples'
    requires Offered(triples, known, p, w)
    ensures Offered(triples', known, p, w)
  {
    var k :| 0 <= k < |triples| && Offers(triples[k], known, p) && StandoutWeight(triples[k].2) == w;
    assert triples[k] in triples';
    var j :| 0 <= j < |triples'| && triples'[j] == triples[k];
  }

  /** An adapter that gives a pair in both directions changes nothing. */
  lemma BothDirections(edges: Pairs, triples: seq<Triple>, known: set<Id>, a: Id, b: Id, standout: real)
    requires SemanticOutcome(edges, triples, known) && (a, b, standout) in triples
    ensures SemanticOutcome(edges, triples + [(b, a, standout)], known)
  {
    var longer := triples + [(b, a, standout)];
    var i :| 0 <= i < |triples| && triples[i] == (a, b, standout);
    assert Meets(edges, triples[i], known);
    forall k | 0 <= k < |longer|
      ensures Meets(edges, longer[k], known)
    {
      if k < |triples| {
        assert longer[k] == triples[k];
      }
    }
    forall p | p in edges
      ensures Offered(longer, known, p, edges[p])
    {
      OfferedBySame(triples, longer, known, p, edges[p]);
    }
  }

  // ----- The adjacency -----

  /** Weight added to a pair at one end, and at both. */
  function HalfBumped(g: Graph, l: Id, r: Id, w: real): Graph
    requires l in g
  {
    g[l := g[l][r := Weight(g, l, r) + w]]
  }

  function Bumped(g: Graph, l: Id, r: Id, w: real): Graph
    requires l in g && r in g
  {
    HalfBumped(HalfBumped(g, l, r, w), r, l, w)
  }

  lemma RowBump(row: Row, j: Id, w: real)
    ensures var after := row[j := (if j in row then row[j] else 0.0) + w];
            Sum(after.Keys, ValuesOf(after)) == Sum(row.Keys, ValuesOf(row)) + w
  {
    var after := row[j := (if j in row then row[j] else 0.0) + w];
    if j in row {
      assert after.Keys == row.Keys;
      SumShift(row.Keys, j, ValuesOf(row), ValuesOf(after), w);
    } else {
      assert after.Keys == row.Keys + {j};
      SumPutIn(row.Keys, j, ValuesOf(after));
      SumAgree(row.Keys, ValuesOf(row), ValuesOf(after));
    }
  }

  lemma HalfBumpTotal(g: Graph, l: Id, r: Id, w: real)
    requires l in g
    ensures HalfBumped(g, l, r, w).Keys == g.Keys
    ensures Sum(g.Keys, RowTotals(HalfBumped(g, l, r, w))) == Sum(g.Keys, RowTotals(g)) + w
  {
    RowBump(g[l], r, w);
    assert HalfBumped(g, l, r, w).Keys == g.Keys;
    SumShift(g.Keys, l, RowTotals(g), RowTotals(HalfBumped(g, l, r, w)), w);
  }

  /** A bump moves the total of the graph by `w`. */
  lemma BumpTotal(g: Graph, l: Id, r: Id, w: real)
    requires l in g && r in g
    ensures Bumped(g, l, r, w).Keys == g.Keys
    ensures Total(Bumped(g, l, r, w)) == Total(g) + w
  {
    HalfBumpTotal(g, l, r, w);
    HalfBumpTotal(HalfBumped(g, l, r, w), r, l, w);
  }

  /** It moves one pair by `w`, seen from either end, and no other. */
  lemma BumpPair(g: Graph, l: Id, r: Id, w: real, i: Id, j: Id)
    requires Undirected(g) && l in g && r in g && l != r && i != j
    ensures Weight(Bumped(g, l, r, w), i, j) == Weight(g, i, j) + if Pair(i, j) == Pair(l, r) then w else 0.0
    ensures i in g ==> (j in Bumped(g, l, r, w)[i] <==> j in g[i] || Pair(i, j) == Pair(l, r))
  {
  }

  lemma BumpUndirected(g: Graph, l: Id, r: Id, w: real)
    requires Undirected(g) && l in g && r in g && l != r
    ensures Undirected(Bumped(g, l, r, w))
  {
    var after := Bumped(g, l, r, w);
    assert after[l] == g[l][r := Weight(g, l, r) + w];
    assert after[r] == g[r][l := Weight(g, r, l) + w];
    forall i, j | i in after && j in after[i]
      ensures j in after && j != i && i in after[j] && after[j][i] == after[i][j]
    {
      if Pair(i, j) != Pair(l, r) {
        assert j in g[i] && after[i][j] == g[i][j];
      }
    }
  }

  lemma BumpNonNegative(g: Graph, l: Id, r: Id, w: real)
    requires NonNegative(g) && l in g && r in g && l != r && w >= 0.0
    ensures NonNegative(Bumped(g, l, r, w))
  {
  }

  /** A sound graph on these nodes. */
  ghost predicate Sound(g: Graph, known: set<Id>) {
    Undirected(g) && NonNegative(g) && g.Keys == known
  }

  /** `g` is `before` with the contributions `edges` on top, pair by pair. */
  ghost predicate OnTop(before: Graph, g: Graph, edges: Pairs) {
    && Total(g) == Total(before) + PairTotal(edges)
    && forall i, j {:trigger AddedPair(before, g, edges, i, j)} ::
      i in before && j in before && i != j ==> AddedPair(before, g, edges, i, j)
  }

  ghost predicate AddedPair(before: Graph, g: Graph, edges: Pairs, i: Id, j: Id)
    requires i in before
  {
    && i in g
    && Weight(g, i, j) == Weight(before, i, j) + PairValue(edges, Pair(i, j))
    && (j in g[i] <==> j in before[i] || Pair(i, j) in edges)
  }

  /** The two assignments of lines 214-215, 219-220 and 224-225. */
  method AddWeight(ghost before: Graph, g: Graph, ghost done: Pairs, ghost known: set<Id>, left: Id, right: Id, w: real)
    returns (g': Graph)
    requires Sound(before, known) && Sound(g, known) && OnTop(before, g, done)
    requires left != right && left in known && right in known && w >= 0.0
    ensures Sound(g', known)
    ensures OnTop(before, g', Plus(done, Pair(left, right), w))
  {
    AddOne(before, g, done, known, Pair(left, right), w);
    BumpEitherWay(g, left, right, w);
    g' := Bumped(g, left, right, w);
  }

  lemma BumpEitherWay(g: Graph, l: Id, r: Id, w: real)
    requires l in g && r in g && l != r
    ensures Bumped(g, l, r, w) == Bumped(g, r, l, w)
  {
  }

  /** Lines 218-220 and 223-225: every contribution, at both ends. */
  method AddEdges(adjacency0: Graph, edges: Pairs, ghost known: set<Id>) returns (adjacency: Graph)
    requires Sound(adjacency0, known) && GoodPairs(edges, known)
    ensures Sound(adjacency, known) && OnTop(adjacency0, adjacency, edges)
  {
    adjacency := adjacency0;
    var todo := edges.Keys;
    ghost var done: Pairs := map[];
    while todo != {}
      invariant todo <= edges.Keys
      invariant Rest(edges, done, todo)
      invariant Sound(adjacency, known) && OnTop(adjacency0, adjacency, done)
      decreases |todo|
    {
      ghost var _ := Pick(todo);
      var p :| p in todo;
      RestLess(edges, done, todo, p);
      assert Pair(p.0, p.1) == p;
      adjacency := AddWeight(adjacency0, adjacency, done, known, p.0, p.1, edges[p]);
      done := Plus(done, p, edges[p]);
      todo := todo - {p};
    }
    RestNone(edges, done);
  }

  /** `done` is `edges` without the keys in `todo`. */
  ghost predicate Rest(edges: Pairs, done: Pairs, todo: set<(Id, Id)>) {
    done == edges - todo
  }

  lemma RestLess(edges: Pairs, done: Pairs, todo: set<(Id, Id)>, p: (Id, Id))
    requires Rest(edges, done, todo) && todo <= edges.Keys && p in todo
    ensures Rest(edges, Plus(done, p, edges[p]), todo - {p})
  {
  }

  lemma RestNone(edges: Pairs, done: Pairs)
    requires Rest(edges, done, {})
    ensures done == edges
  {
  }

  lemma AddOne(before: Graph, g: Graph, done: Pairs, known: set<Id>, p: (Id, Id), w: real)
    requires Sound(before, known) && Sound(g, known) && OnTop(before, g, done)
    requires p.0 < p.1 && p.0 in known && p.1 in known && w >= 0.0
    ensures Sound(Bumped(g, p.0, p.1, w), known)
    ensures OnTop(before, Bumped(g, p.0, p.1, w), Plus(done, p, w))
  {
    var after := Bumped(g, p.0, p.1, w);
    BumpTotal(g, p.0, p.1, w);
    BumpUndirected(g, p.0, p.1, w);
    BumpNonNegative(g, p.0, p.1, w);
    PairTotalUpdate(done, p, w);
    forall i, j | i in before && j in before && i != j
      ensures AddedPair(before, after, Plus(done, p, w), i, j)
    {
      assert AddedPair(before, g, done, i, j);
      AddOnePair(before, g, done, p, w, i, j);
    }
  }

  lemma AddOnePair(before: Graph, g: Graph, done: Pairs, p: (Id, Id), w: real, i: Id, j: Id)
    requires Undirected(g) && p.0 in g && p.1 in g && p.0 < p.1
    requires i in before && i != j && AddedPair(before, g, done, i, j)
    ensures AddedPair(before, Bumped(g, p.0, p.1, w), Plus(done, p, w), i, j)
  {
    BumpPair(g, p.0, p.1, w, i, j);
  }

  predicate Asserts(rel: (Id, Id), known: set<Id>) {
    rel.0 != rel.1 && rel.0 in known && rel.1 in known
  }

  /** One unit of weight for each relationship between two different known entities, in
      whichever direction it was stated. */
  ghost function Asserted(rels: seq<(Id, Id)>, known: set<Id>): Pairs {
    if rels == [] then map[] else
      var n := |rels| - 1;
      var before := Asserted(rels[..n], known);
      var p := Pair(rels[n].0, rels[n].1);
      if Asserts(rels[n], known) then Plus(before, p, RELATION_WEIGHT) else before
  }

  ghost function AssertedIn(rels: seq<(Id, Id)>, known: set<Id>): nat {
    if rels == [] then 0 else
      var n := |rels| - 1;
      AssertedIn(rels[..n], known) + if Asserts(rels[n], known) then 1 else 0
  }

  lemma {:induction false} AssertedTotal(rels: seq<(Id, Id)>, known: set<Id>)
    ensures PairTotal(Asserted(rels, known)) == Times(RELATION_WEIGHT, AssertedIn(rels, known))
    decreases |rels|
  {
    if rels != [] {
      var n := |rels| - 1;
      AssertedTotal(rels[..n], known);
      OneMore(RELATION_WEIGHT, AssertedIn(rels[..n], known));
      PairTotalUpdate(Asserted(rels[..n], known), Pair(rels[n].0, rels[n].1), RELATION_WEIGHT);
    }
  }

  /** Lines 208-215 */
  method AssertedEdges(empty: Graph, relationships: seq<(Id, Id)>, known: set<Id>)
    returns (adjacency: Graph, asserted: nat)
    requires Sound(empty, known)
    ensures Sound(adjacency, known)
    ensures OnTop(empty, adjacency, Asserted(relationships, known))
    ensures asserted == AssertedIn(relationships, known)
  {
    adjacency, asserted := empty, 0;
    for k := 0 to |relationships|
      invariant Sound(adjacency, known)
      invariant OnTop(empty, adjacency, Asserted(relationships[..k], known))
      invariant asserted == AssertedIn(relationships[..k], known)
    {
      var (left, right) := relationships[k];
      AssertedNext(relationships, known, k);
      if left == right || left !in known || right !in known {
        continue;
      }
      asserted := asserted + 1;
      adjacency := AddWeight(empty, adjacency, Asserted(relationships[..k], known), known,
                             left, right, RELATION_WEIGHT);
    }
    assert relationships[..|relationships|] == relationships;
  }

  lemma AssertedNext(rels: seq<(Id, Id)>, known: set<Id>, k: nat)
    requires k < |rels|
    ensures Asserted(rels[..k + 1], known) ==
      var before, p := Asserted(rels[..k], known), Pair(rels[k].0, rels[k].1);
      if Asserts(rels[k], known) then Plus(before, p, RELATION_WEIGHT) else before
    ensures AssertedIn(rels[..k + 1], known) == AssertedIn(rels[..k], known) + if Asserts(rels[k], known) then 1 else 0
  {
    assert rels[..k + 1][..k] == rels[..k];
  }

  function Unlinked(nodes: set<Id>): Graph {
    map i | i in nodes :: map[]
  }

  lemma UnlinkedSound(nodes: set<Id>)
    ensures Sound(Unlinked(nodes), nodes) && Total(Unlinked(nodes)) == 0.0
  {
    SumOfZeros(nodes, RowTotals(Unlinked(nodes)));
  }

  /** What the graph is drawn from, beside its entities. */
  datatype Mentions = Mentions(relationships: seq<(Id, Id)>, passages: seq<set<Id>>, semantic: seq<Triple>)

  /** The graph, its counts, and what passages and neighbours contributed to it. */
  datatype Built = Built(graph: Graph, asserted: nat, counted: nat, drawn: nat, co: Pairs, sem: Pairs)

  /** What `_adjacency` makes of a corpus: each pair weighs its relationships, its shares of
      passages and its best semantic offer, and is there if any of the three is; and all the
      weight there is, is the relationships at one each, the counted passages at half a unit
      each, and the semantic edges drawn. */
  ghost predicate GraphFrom(m: Mentions, b: Built) {
    var known := b.graph.Keys;
    && b.asserted == AssertedIn(m.relationships, known)
    && CoOutcome(b.co, b.counted, m.passages, known)
    && SemanticOutcome(b.sem, m.semantic, known) && b.drawn == |b.sem|
    && PairsAdd(b.graph, Asserted(m.relationships, known), b.co, b.sem)
    && Total(b.graph) == Times(RELATION_WEIGHT, b.asserted) + Times(CO_MENTION_BUDGET, b.counted) + PairTotal(b.sem)
  }

  ghost predicate PairsAdd(g: Graph, stated: Pairs, co: Pairs, sem: Pairs) {
    forall i, j {:trigger PairAdds(g, stated, co, sem, i, j)} ::
      i in g && j in g && i != j ==> PairAdds(g, stated, co, sem, i, j)
  }

  ghost predicate PairAdds(g: Graph, stated: Pairs, co: Pairs, sem: Pairs, i: Id, j: Id)
    requires i in g
  {
    var p := Pair(i, j);
    && Weight(g, i, j) == PairValue(stated, p) + PairValue(co, p) + PairValue(sem, p)
    && (j in g[i] <==> p in stated || p in co || p in sem)
  }

  /** `_adjacency`. The graph is undirected, loop-free and non-negative. */
  method Adjacency(entities: seq<Id>, relationships: seq<(Id, Id)>, passages: seq<set<Id>>, semantic: seq<Triple>)
    returns (adjacency: Graph, asserted: nat, counted: nat, drawn: nat, ghost co: Pairs, ghost sem: Pairs)
    ensures Sound(adjacency, set e | e in entities)
    ensures GraphFrom(Mentions(relationships, passages, semantic), Built(adjacency, asserted, counted, drawn, co, sem))
  {
    var known := set e | e in entities;
    var empty := Unlinked(known);
    UnlinkedSound(known);
    var stated: Graph, withPassages: Graph;
    stated, asserted := AssertedEdges(empty, relationships, known);
    AssertedTotal(relationships, known);
    var coEdges, n := CoMentionEdges(passages, known);
    counted, co := n, coEdges;
    withPassages := AddEdges(stated, coEdges, known);
    var semEdges := SemanticEdges(semantic, known);
    sem, drawn := semEdges, |semEdges|;
    adjacency := AddEdges(withPassages, semEdges, known);
    ThreeOnTop(known, empty, stated, withPassages, adjacency, Asserted(relationships, known), co, sem);
  }

  lemma ThreeOnTop(known: set<Id>, empty: Graph, stated: Graph, withPassages: Graph, g: Graph, rels: Pairs, co: Pairs,
                   sem: Pairs)
    requires empty == Unlinked(known) && stated.Keys == known && withPassages.Keys == known && g.Keys == known
    requires OnTop(empty, stated, rels) && OnTop(stated, withPassages, co) && OnTop(withPassages, g, sem)
    ensures PairsAdd(g, rels, co, sem)
  {
    forall i, j | i in g && j in g && i != j
      ensures PairAdds(g, rels, co, sem, i, j)
    {
      assert AddedPair(empty, stated, rels, i, j);
      assert AddedPair(stated, withPassages, co, i, j);
      assert AddedPair(withPassages, g, sem, i, j);
    }
  }

  // ----- No order decides the graph -----

  ghost function Stating(known: set<Id>, p: (Id, Id)): ((Id, Id)) -> bool {
    (r: (Id, Id)) => Asserts(r, known) && Pair(r.0, r.1) == p
  }

  lemma {:induction false} AssertedCounts(rels: seq<(Id, Id)>, known: set<Id>, p: (Id, Id))
    ensures p in Asserted(rels, known) <==> CountOf(rels, Stating(known, p)) > 0
    ensures PairValue(Asserted(rels, known), p) == Times(RELATION_WEIGHT, CountOf(rels, Stating(known, p)))
    decreases |rels|
  {
    if rels != [] {
      var n := |rels| - 1;
      AssertedCounts(rels[..n], known, p);
      OneMore(RELATION_WEIGHT, CountOf(rels[..n], Stating(known, p)));
    }
  }

  lemma {:induction false} AssertedInCounts(rels: seq<(Id, Id)>, known: set<Id>)
    ensures AssertedIn(rels, known) == CountOf(rels, (r: (Id, Id)) => Asserts(r, known))
    decreases |rels|
  {
    if rels != [] {
      AssertedInCounts(rels[..|rels| - 1], known);
    }
  }

  lemma AssertedUnordered(rels: seq<(Id, Id)>, rels': seq<(Id, Id)>, known: set<Id>)
    requires multiset(rels) == multiset(rels')
    ensures Asserted(rels, known) == Asserted(rels', known) && AssertedIn(rels, known) == AssertedIn(rels', known)
  {
    var a, b := Asserted(rels, known), Asserted(rels', known);
    forall p: (Id, Id)
      ensures (p in a <==> p in b) && PairValue(a, p) == PairValue(b, p)
    {
      AssertedCounts(rels, known, p);
      AssertedCounts(rels', known, p);
      CountPermuted(rels, rels', Stating(known, p));
    }
    SamePairs(a, b);
    AssertedInCounts(rels, known);
    AssertedInCounts(rels', known);
    CountPermuted(rels, rels', (r: (Id, Id)) => Asserts(r, known));
  }

  lemma SamePairs(a: Pairs, b: Pairs)
    requires forall p: (Id, Id) :: (p in a <==> p in b) && PairValue(a, p) == PairValue(b, p)
    ensures a == b
  {
    forall p | p in a
      ensures p in b && a[p] == b[p]
    {
      assert PairValue(a, p) == PairValue(b, p);
    }
    assert a.Keys == b.Keys;
  }

  ghost function Sharing(known: set<Id>, p: (Id, Id)): set<Id> -> real {
    (passage: set<Id>) => ShareOf(passage, known, p)
  }

  lemma {:induction false} CoWeightTallies(passages: seq<set<Id>>, known: set<Id>, p: (Id, Id))
    ensures CoWeight(passages, known, p) == Tally(passages, Sharing(known, p))
    ensures p in CoPairs(passages, known) <==> exists k :: 0 <= k < |passages| && p in PairsOf(passages[k], known)
    decreases |passages|
  {
    if passages != [] {
      var n := |passages| - 1;
      CoWeightTallies(passages[..n], known, p);
      if p in CoPairs(passages[..n], known) {
        var k :| 0 <= k < n && p in PairsOf(passages[..n][k], known);
        assert passages[k] == passages[..n][k];
      }
      if k :| 0 <= k < |passages| && p in PairsOf(passages[k], known) {
        assert k < n ==> passages[..n][k] == passages[k];
      }
    }
  }

  lemma {:induction false} CountedInCounts(passages: seq<set<Id>>, known: set<Id>)
    ensures CountedIn(passages, known) == CountOf(passages, (s: set<Id>) => Counted(s, known))
    decreases |passages|
  {
    if passages != [] {
      CountedInCounts(passages[..|passages| - 1], known);
    }
  }

  lemma CoPairsMoved(passages: seq<set<Id>>, passages': seq<set<Id>>, known: set<Id>, p: (Id, Id))
    requires multiset(passages) == multiset(passages') && p in CoPairs(passages, known)
    ensures p in CoPairs(passages', known)
  {
    CoWeightTallies(passages, known, p);
    CoWeightTallies(passages', known, p);
    var k :| 0 <= k < |passages| && p in PairsOf(passages[k], known);
    SameElements(passages, passages', passages[k]);
    var j :| 0 <= j < |passages'| && passages'[j] == passages[k];
  }

  lemma CoMentionUnordered(co: Pairs, co': Pairs, counted: nat, counted': nat,
                           passages: seq<set<Id>>, passages': seq<set<Id>>, known: set<Id>)
    requires CoOutcome(co, counted, passages, known) && CoOutcome(co', counted', passages', known)
    requires multiset(passages) == multiset(passages')
    ensures co == co' && counted == counted'
  {
    forall p: (Id, Id)
      ensures (p in co <==> p in co') && PairValue(co, p) == PairValue(co', p)
    {
      CoWeightTallies(passages, known, p);
      CoWeightTallies(passages', known, p);
      TallyPermuted(passages, passages', Sharing(known, p));
      if p in co {
        CoPairsMoved(passages, passages', known, p);
      }
      if p in co' {
        CoPairsMoved(passages', passages, known, p);
      }
    }
    SamePairs(co, co');
    CountedInCounts(passages, known);
    CountedInCounts(passages', known);
    CountPermuted(passages, passages', (s: set<Id>) => Counted(s, known));
  }

  lemma SameRows(g: Graph, g': Graph, stated: Pairs, co: Pairs, sem: Pairs, i: Id)
    requires Undirected(g) && Undirected(g') && g.Keys == g'.Keys && i in g
    requires PairsAdd(g, stated, co, sem) && PairsAdd(g', stated, co, sem)
    ensures g[i] == g'[i]
  {
    forall j
      ensures j in g[i] <==> j in g'[i]
      ensures j in g[i] ==> g[i][j] == g'[i][j]
    {
      if j in g && j != i {
        assert PairAdds(g, stated, co, sem, i, j) && PairAdds(g', stated, co, sem, i, j);
      }
    }
    assert g[i].Keys == g'[i].Keys;
  }

  ghost predicate SameMentions(m: Mentions, n: Mentions) {
    && multiset(m.relationships) == multiset(n.relationships)
    && multiset(m.passages) == multiset(n.passages)
    && multiset(m.semantic) == multiset(n.semantic)
  }

  lemma SameOffers(triples: seq<Triple>, triples': seq<Triple>, known: set<Id>)
    requires multiset(triples) == multiset(triples')
    ensures forall p, w :: Offered(triples, known, p, w) <==> Offered(triples', known, p, w)
  {
    forall t
      ensures t in triples <==> t in triples'
    {
      SameElements(triples, triples', t);
    }
    forall p, w
      ensures Offered(triples, known, p, w) <==> Offered(triples', known, p, w)
    {
      if Offered(triples, known, p, w) {
        OfferedBySame(triples, triples', known, p, w);
      }
      if Offered(triples', known, p, w) {
        OfferedBySame(triples', triples, known, p, w);
      }
    }
  }

  /** What was contributed, and how often, depends on what the corpus holds. */
  lemma ContributionsUnordered(m: Mentions, n: Mentions, a: Built, b: Built)
    requires SameMentions(m, n) && a.graph.Keys == b.graph.Keys
    requires GraphFrom(m, a) && GraphFrom(n, b)
    ensures Asserted(m.relationships, a.graph.Keys) == Asserted(n.relationships, a.graph.Keys)
    ensures a.(graph := b.graph) == b
  {
    AssertedUnordered(m.relationships, n.relationships, a.graph.Keys);
    CoMentionUnordered(a.co, b.co, a.counted, b.counted, m.passages, n.passages, a.graph.Keys);
    SameOffers(m.semantic, n.semantic, a.graph.Keys);
    SemanticUnordered(a.sem, b.sem, m.semantic, n.semantic, a.graph.Keys);
  }

  lemma RowsAgree(g: Graph, g': Graph, stated: Pairs, co: Pairs, sem: Pairs)
    requires Undirected(g) && Undirected(g') && g.Keys == g'.Keys
    requires PairsAdd(g, stated, co, sem) && PairsAdd(g', stated, co, sem)
    ensures g == g'
  {
    forall i | i in g
      ensures g[i] == g'[i]
    {
      SameRows(g, g', stated, co, sem, i);
    }
  }

  /** The graph and its counts depend on what the corpus holds, not on how it is listed. */
  lemma GraphUnordered(m: Mentions, n: Mentions, a: Built, b: Built)
    requires SameMentions(m, n)
    requires Undirected(a.graph) && Undirected(b.graph) && a.graph.Keys == b.graph.Keys
    requires GraphFrom(m, a) && GraphFrom(n, b)
    ensures a == b
  {
    ContributionsUnordered(m, n, a, b);
    RowsAgree(a.graph, b.graph, Asserted(m.relationships, a.graph.Keys), a.co, a.sem);
  }

  // ----- What a pair weighs -----

  predicate Joins(l: Id, r: Id, i: Id, j: Id) {
    (l == i && r == j) || (l == j && r == i)
  }

  /** The highest standout any triple gives the two, either way round; where none gives them one or
      more, anything below one. */
  ghost predicate Highest(triples: seq<Triple>, i: Id, j: Id, s: real) {
    && (forall k :: 0 <= k < |triples| && Joins(triples[k].0, triples[k].1, i, j) ==> triples[k].2 <= s)
    && (s < 1.0 || exists k :: 0 <= k < |triples| && Joins(triples[k].0, triples[k].1, i, j) && triples[k].2 == s)
  }

  /** Nothing below one, 0.6 from two on, and in proportion between. */
  function Drawing(s: real): real {
    if s <= 1.0 then 0.0 else if s >= 2.0 then 0.6 else 0.6 * (s - 1.0)
  }

  lemma WeightIsDrawing(s: real)
    requires s >= 1.0
    ensures StandoutWeight(s) == Drawing(s)
  {
  }

  lemma DrawingRises(s: real, t: real)
    requires s <= t
    ensures 0.0 <= Drawing(s) <= Drawing(t) <= 0.6
  {
  }

  /** A pair is drawn if and only if its highest standout is one or more, and that decides its weight. */
  lemma SemanticSays(edges: Pairs, triples: seq<Triple>, known: set<Id>, i: Id, j: Id, s: real)
    requires SemanticOutcome(edges, triples, known)
    requires i in known && j in known && i != j && Highest(triples, i, j, s)
    ensures Pair(i, j) in edges <==> s >= 1.0
    ensures PairValue(edges, Pair(i, j)) == Drawing(s)
  {
    var p := Pair(i, j);
    if s >= 1.0 {
      var k :| 0 <= k < |triples| && Joins(triples[k].0, triples[k].1, i, j) && triples[k].2 == s;
      assert Meets(edges, triples[k], known);
      WeightIsDrawing(s);
    }
    if p in edges {
      assert Offered(triples, known, p, edges[p]);
      var k :| 0 <= k < |triples| && Offers(triples[k], known, p) && StandoutWeight(triples[k].2) == edges[p];
      WeightIsDrawing(triples[k].2);
      DrawingRises(triples[k].2, s);
    }
  }

  /** A pair that stands out at least as much as another weighs at least as much. */
  lemma SemanticRises(edges: Pairs, triples: seq<Triple>, known: set<Id>, i: Id, j: Id, s: real, k: Id, l: Id, t: real)
    requires SemanticOutcome(edges, triples, known)
    requires i in known && j in known && i != j && Highest(triples, i, j, s)
    requires k in known && l in known && k != l && Highest(triples, k, l, t)
    requires s <= t
    ensures PairValue(edges, Pair(i, j)) <= PairValue(edges, Pair(k, l))
  {
    SemanticSays(edges, triples, known, i, j, s);
    SemanticSays(edges, triples, known, k, l, t);
    DrawingRises(s, t);
  }

  ghost function Joining(i: Id, j: Id): ((Id, Id)) -> bool {
    (r: (Id, Id)) => Joins(r.0, r.1, i, j)
  }

  ghost predicate NamesBoth(passage: set<Id>, known: set<Id>, i: Id, j: Id) {
    i in passage && j in passage && 2 <= |passage * known| <= 25
  }

  /** Half a unit over the n (n - 1) / 2 pairs of a passage that names both. */
  ghost function PartOf(known: set<Id>, i: Id, j: Id): set<Id> -> real {
    (passage: set<Id>) =>
      var n := |passage * known|;
      if NamesBoth(passage, known, i, j) then 1.0 / (n as real * (n - 1) as real) else 0.0
  }

  lemma ShareIsPart(n: nat)
    requires n >= 2
    ensures Share(n) == 1.0 / (n as real * (n - 1) as real)
  {
    PairsAmongPositive(n);
    TwicePairs(n);
    assert n as real * (n - 1) as real == 2.0 * PairsAmong(n) as real;
  }

  lemma EvenHalved(m: int, x: int)
    requires m == 2 * x
    ensures 2 * (m / 2) == m
  {
  }

  lemma TwicePairs(n: nat)
    requires n >= 2
    ensures 2 * PairsAmong(n) == n * (n - 1)
  {
    var half := n / 2;
    if n == 2 * half {
      EvenHalved(n * (n - 1), half * (n - 1));
    } else {
      assert n - 1 == 2 * half;
      EvenHalved(n * (n - 1), n * half);
    }
  }

  lemma SharesAreParts(known: set<Id>, i: Id, j: Id, passage: set<Id>)
    requires i in known && j in known && i != j
    ensures Sharing(known, Pair(i, j))(passage) == PartOf(known, i, j)(passage)
    ensures Pair(i, j) in PairsOf(passage, known) <==> NamesBoth(passage, known, i, j)
  {
    if NamesBoth(passage, known, i, j) {
      ShareIsPart(|passage * known|);
    }
  }

  lemma {:induction false} TallyAgrees<T(!new)>(q: seq<T>, f: T -> real, f': T -> real)
    requires forall x :: f(x) == f'(x)
    ensures Tally(q, f) == Tally(q, f')
  {
    if q != [] {
      TallyAgrees(q[..|q| - 1], f, f');
    }
  }

  lemma CoSays(m: Mentions, b: Built, i: Id, j: Id)
    requires GraphFrom(m, b) && i in b.graph && j in b.graph && i != j
    ensures PairValue(b.co, Pair(i, j)) == Tally(m.passages, PartOf(b.graph.Keys, i, j))
    ensures Pair(i, j) in b.co <==> exists k :: 0 <= k < |m.passages| && NamesBoth(m.passages[k], b.graph.Keys, i, j)
  {
    var known := b.graph.Keys;
    forall passage: set<Id>
      ensures Sharing(known, Pair(i, j))(passage) == PartOf(known, i, j)(passage)
      ensures Pair(i, j) in PairsOf(passage, known) <==> NamesBoth(passage, known, i, j)
    {
      SharesAreParts(known, i, j, passage);
    }
    CoWeightTallies(m.passages, known, Pair(i, j));
    TallyAgrees(m.passages, Sharing(known, Pair(i, j)), PartOf(known, i, j));
  }

  lemma StatedSays(rels: seq<(Id, Id)>, known: set<Id>, i: Id, j: Id)
    requires i in known && j in known && i != j
    ensures PairValue(Asserted(rels, known), Pair(i, j)) == CountOf(rels, Joining(i, j)) as real
    ensures Pair(i, j) in Asserted(rels, known) <==> CountOf(rels, Joining(i, j)) > 0
  {
    AssertedCounts(rels, known, Pair(i, j));
    CountAgrees(rels, Stating(known, Pair(i, j)), Joining(i, j));
  }

  /** The weight between two entities, read off the corpus: one for every relationship between them,
      either way; 1 / (n (n - 1)) for every passage that names both and up to 25 entities in all; and
      what their highest standout draws. They have an edge if and only if one of the three is there. */
  lemma PairWeighs(m: Mentions, b: Built, i: Id, j: Id, s: real)
    requires GraphFrom(m, b) && i in b.graph && j in b.graph && i != j && Highest(m.semantic, i, j, s)
    ensures Weight(b.graph, i, j) ==
              CountOf(m.relationships, Joining(i, j)) as real
              + Tally(m.passages, PartOf(b.graph.Keys, i, j)) + Drawing(s)
    ensures j in b.graph[i] <==>
      || CountOf(m.relationships, Joining(i, j)) > 0 || s >= 1.0
      || exists k :: 0 <= k < |m.passages| && NamesBoth(m.passages[k], b.graph.Keys, i, j)
  {
    assert PairAdds(b.graph, Asserted(m.relationships, b.graph.Keys), b.co, b.sem, i, j);
    StatedSays(m.relationships, b.graph.Keys, i, j);
    CoSays(m, b, i, j);
    SemanticSays(b.sem, m.semantic, b.graph.Keys, i, j, s);
  }

  /** The pairs some triple gives a standout of one or more. */
  ghost function StandingOut(triples: seq<Triple>, known: set<Id>): set<(Id, Id)> {
    set i, j | i in known && j in known && i < j && StandOut(triples, i, j) :: (i, j)
  }

  ghost predicate StandOut(triples: seq<Triple>, i: Id, j: Id) {
    exists k :: 0 <= k < |triples| && Joins(triples[k].0, triples[k].1, i, j) && triples[k].2 >= 1.0
  }

  /** What is counted: relationships between two different entities of the graph, passages naming two
      to 25 of them, and pairs that stand out; and all the weight there is. */
  lemma CountsSay(m: Mentions, b: Built)
    requires GraphFrom(m, b)
    ensures b.asserted == CountOf(m.relationships, (r: (Id, Id)) => r.0 != r.1 && r.0 in b.graph && r.1 in b.graph)
    ensures b.counted == CountOf(m.passages, (p: set<Id>) => 2 <= |p * b.graph.Keys| <= 25)
    ensures b.drawn == |StandingOut(m.semantic, b.graph.Keys)|
    ensures Total(b.graph) == b.asserted as real + b.counted as real / 2.0 + PairTotal(b.sem)
  {
    var known := b.graph.Keys;
    AssertedInCounts(m.relationships, known);
    CountAgrees(m.relationships, (r: (Id, Id)) => Asserts(r, known),
                (r: (Id, Id)) => r.0 != r.1 && r.0 in b.graph && r.1 in b.graph);
    CountedInCounts(m.passages, known);
    CountAgrees(m.passages, (s: set<Id>) => Counted(s, known), (p: set<Id>) => 2 <= |p * b.graph.Keys| <= 25);
    DrawnPairs(b.sem, m.semantic, known);
  }

  lemma DrawnPairs(edges: Pairs, triples: seq<Triple>, known: set<Id>)
    requires SemanticOutcome(edges, triples, known)
    ensures edges.Keys == StandingOut(triples, known)
  {
    forall p: (Id, Id)
      ensures p in edges <==> p in StandingOut(triples, known)
    {
      if p in edges {
        assert Offered(triples, known, p, edges[p]);
      }
      if p in StandingOut(triples, known) {
        var k :| 0 <= k < |triples| && Joins(triples[k].0, triples[k].1, p.0, p.1) && triples[k].2 >= 1.0;
        assert Meets(edges, triples[k], known);
      }
    }
  }
}
