/** research_team/curriculum/application/area_clustering.py: greedy modularity with a lazy
    heap and running tables, one split of oversized communities, absorption of small ones. */
module AreaClustering {
  import opened Sums
  import opened Graphs
  import opened Orders
  import opened Partitioning
  import opened NaiveGreedy

  // ----- The heap -----

  /** A candidate merge: the negated score when it was pushed, then the pair. */
  datatype Entry = Entry(negated: real, left: Id, right: Id)

  predicate EntryAtMost(a: Entry, b: Entry) {
    || a.negated < b.negated
    || (a.negated == b.negated && (a.left < b.left || (a.left == b.left && a.right <= b.right)))
  }

  /** Takes a least entry out. Nothing else is known of the heap's layout. */
  method HeapPop(heap: seq<Entry>) returns (least: Entry, ghost at: nat, rest: seq<Entry>)
    requires heap != []
    ensures at < |heap| && least == heap[at] && rest == heap[..at] + heap[at + 1..]
    ensures forall e :: e in heap ==> EntryAtMost(least, e)
  {
    var best := 0;
    for i := 1 to |heap|
      invariant best < i
      invariant forall j :: 0 <= j < i ==> EntryAtMost(heap[best], heap[j])
    {
      if EntryAtMost(heap[i], heap[best]) {
        best := i;
      }
    }
    least, at, rest := heap[best], best, heap[..best] + heap[best + 1..];
  }

  // ----- The tables -----

  type Degrees = map<Id, real>

  /** The score of a pair of live communities, read off the tables. */
  function Delta(total: real, degree: Degrees, between: Graph, left: Id, right: Id): real
    requires total > 0.0 && left in degree && right in degree
  {
    GainOf(total, Weight(between, left, right), degree[left], degree[right])
  }

  /** The tables say of each community, and of each pair, what its members say. */
  ghost predicate Tables(g: Graph, members: Partition, degree: Degrees, between: Graph) {
    && IsPartition(g, members)
    && degree.Keys == members.Keys && between.Keys == members.Keys
    && Undirected(between)
    && DegreesExact(g, members, degree)
    && PairsExact(g, members, between)
  }

  ghost predicate DegreesExact(g: Graph, members: Partition, degree: Degrees)
    requires degree.Keys == members.Keys
  {
    forall c :: c in members ==> degree[c] == Degree(g, members[c])
  }

  ghost predicate PairsExact(g: Graph, members: Partition, between: Graph)
    requires between.Keys == members.Keys
  {
    forall c, d {:trigger Exact(g, members, between, c, d)} ::
      c in members && d in members && c != d ==> Exact(g, members, between, c, d)
  }

  ghost predicate Exact(g: Graph, members: Partition, between: Graph, c: Id, d: Id)
    requires c in members && d in members && c in between
  {
    && Weight(between, c, d) == Cross(g, members[c], members[d])
    && (d in between[c] <==> Linked(g, members[c], members[d]))
  }

  lemma DeltaIsGain(g: Graph, members: Partition, degree: Degrees, between: Graph, l: Id, r: Id)
    requires Total(g) > 0.0 && Tables(g, members, degree, between)
    requires l in members && r in members && l != r
    ensures Delta(Total(g), degree, between, l, r) == PairGain(g, members, l, r)
  {
    assert Exact(g, members, between, l, r);
  }

  /** Row `x` of the table after `drop` has gone into `keep`. */
  function ContractedRow(between: Graph, keep: Id, drop: Id, x: Id): Row
    requires keep in between && drop in between && x in between
  {
    if x == keep then
      map o | o in between[keep].Keys + between[drop].Keys && o != keep && o != drop ::
        Weight(between, keep, o) + Weight(between, drop, o)
    else if x in between[drop] then
      map o | o in between[x].Keys + {keep} && o != drop ::
        if o == keep then Weight(between, x, keep) + between[drop][x] else Weight(between, x, o)
    else
      between[x]
  }

  function Contracted(between: Graph, keep: Id, drop: Id): Graph
    requires keep in between && drop in between
  {
    map x | x in between && x != drop :: ContractedRow(between, keep, drop, x)
  }

  lemma ContractedUndirected(between: Graph, keep: Id, drop: Id)
    requires Undirected(between)
    requires keep in between && drop in between && keep != drop
    ensures Undirected(Contracted(between, keep, drop))
  {
  }

  /** What contraction does to one pair. */
  lemma ContractedPair(between: Graph, keep: Id, drop: Id, c: Id, d: Id)
    requires Undirected(between)
    requires keep in between && drop in between && keep != drop
    requires c in between && d in between && c != d && c != drop && d != drop
    ensures Weight(Contracted(between, keep, drop), c, d) ==
            if c == keep then Weight(between, keep, d) + Weight(between, drop, d)
            else if d == keep then Weight(between, c, keep) + Weight(between, c, drop)
            else Weight(between, c, d)
    ensures d in Contracted(between, keep, drop)[c] <==>
            (d in between[c] || (c == keep && d in between[drop]) || (d == keep && drop in between[c]))
  {
  }

  /** `Exact` for the community that has grown, seen from either side. */
  lemma GrownExact(g: Graph, members: Partition, between: Graph, keep: Id, drop: Id, d: Id)
    requires Symmetric(g) && Undirected(between)
    requires between.Keys == members.Keys
    requires keep in members && drop in members && keep != drop && members[keep] !! members[drop]
    requires d in members && d != keep && d != drop
    requires Exact(g, members, between, keep, d) && Exact(g, members, between, drop, d)
    requires Exact(g, members, between, d, keep) && Exact(g, members, between, d, drop)
    ensures Exact(g, Merged(members, keep, drop), Contracted(between, keep, drop), keep, d)
    ensures Exact(g, Merged(members, keep, drop), Contracted(between, keep, drop), d, keep)
  {
    JoinedEnds(g, members[keep], members[drop], members[d]);
    assert Exact(g, Merged(members, keep, drop), Contracted(between, keep, drop), keep, d) by {
      ContractedPair(between, keep, drop, keep, d);
    }
    assert Exact(g, Merged(members, keep, drop), Contracted(between, keep, drop), d, keep) by {
      ContractedPair(between, keep, drop, d, keep);
    }
  }

  lemma UntouchedExact(g: Graph, members: Partition, between: Graph, keep: Id, drop: Id, c: Id, d: Id)
    requires Undirected(between) && between.Keys == members.Keys
    requires keep in members && drop in members && keep != drop
    requires c in members && d in members && c != d
    requires c != keep && d != keep && c != drop && d != drop
    requires Exact(g, members, between, c, d)
    ensures Exact(g, Merged(members, keep, drop), Contracted(between, keep, drop), c, d)
  {
    ContractedPair(between, keep, drop, c, d);
  }

  lemma MergeKeepsExact(g: Graph, members: Partition, degree: Degrees, between: Graph,
                        keep: Id, drop: Id, c: Id, d: Id)
    requires Symmetric(g) && Tables(g, members, degree, between)
    requires keep in members && drop in members && keep < drop
    requires c in members && d in members && c != d && c != drop && d != drop
    ensures Exact(g, Merged(members, keep, drop), Contracted(between, keep, drop), c, d)
  {
    if c == keep || d == keep {
      var o := if c == keep then d else c;
      assert Exact(g, members, between, keep, o) && Exact(g, members, between, drop, o);
      assert Exact(g, members, between, o, keep) && Exact(g, members, between, o, drop);
      GrownExact(g, members, between, keep, drop, o);
    } else {
      assert Exact(g, members, between, c, d);
      UntouchedExact(g, members, between, keep, drop, c, d);
    }
  }

  lemma MergeKeepsDegrees(g: Graph, members: Partition, degree: Degrees, keep: Id, drop: Id)
    requires degree.Keys == members.Keys && DegreesExact(g, members, degree)
    requires keep in members && drop in members && keep != drop && members[keep] !! members[drop]
    ensures DegreesExact(g, Merged(members, keep, drop), MergedDegrees(degree, keep, drop))
  {
    DegreeUnion(g, members[keep], members[drop]);
  }

  function MergedDegrees(degree: Degrees, keep: Id, drop: Id): (d: Degrees)
    requires keep in degree && drop in degree
  {
    degree[keep := degree[keep] + degree[drop]] - {drop}
  }

  lemma MergeKeepsPairs(g: Graph, members: Partition, degree: Degrees, between: Graph, keep: Id, drop: Id)
    requires Symmetric(g) && Tables(g, members, degree, between)
    requires keep in members && drop in members && keep < drop
    ensures PairsExact(g, Merged(members, keep, drop), Contracted(between, keep, drop))
  {
    forall c, d | c in members && d in members && c != drop && d != drop && c != d
      ensures Exact(g, Merged(members, keep, drop), Contracted(between, keep, drop), c, d)
    {
      MergeKeepsExact(g, members, degree, between, keep, drop, c, d);
    }
  }

  /** Merging the tables entry by entry is merging the communities they describe. */
  lemma MergeKeepsTables(g: Graph, members: Partition, degree: Degrees, between: Graph, keep: Id, drop: Id)
    requires Symmetric(g) && Tables(g, members, degree, between)
    requires keep in members && drop in members && keep < drop
    ensures Tables(g, Merged(members, keep, drop), MergedDegrees(degree, keep, drop), Contracted(between, keep, drop))
  {
    MergedPartition(g, members, keep, drop);
    ContractedUndirected(between, keep, drop);
    MergeKeepsDegrees(g, members, degree, keep, drop);
    MergeKeepsPairs(g, members, degree, between, keep, drop);
  }

  /** Row `x` while the neighbours of `drop` outside `todo` have been moved to `keep`. */
  ghost function InterimRow(between: Graph, keep: Id, drop: Id, todo: set<Id>, x: Id): Row
    requires keep in between && drop in between && x in between
  {
    if x == keep then
      map o | o in between[keep].Keys + (between[drop].Keys - todo) && o != keep ::
        Weight(between, keep, o) + if o in todo then 0.0 else Weight(between, drop, o)
    else if x in between[drop] && x !in todo then
      ContractedRow(between, keep, drop, x)
    else
      between[x]
  }

  ghost predicate Interim(before: Graph, between: Graph, keep: Id, drop: Id, todo: set<Id>)
    requires keep in before && drop in before
  {
    between.Keys == before.Keys
    && forall x :: x in before ==> between[x] == InterimRow(before, keep, drop, todo, x)
  }

  /** `drop` goes into `keep`: the three dictionaries, updated entry by entry. */
  method MergeTables(members0: Partition, degree0: Degrees, between0: Graph, keep: Id, drop: Id)
    returns (members: Partition, degree: Degrees, between: Graph)
    requires Undirected(between0)
    requires degree0.Keys == members0.Keys && between0.Keys == members0.Keys
    requires keep in members0 && drop in members0 && keep != drop
    ensures members == Merged(members0, keep, drop)
    ensures degree == MergedDegrees(degree0, keep, drop)
    ensures between == Contracted(between0, keep, drop)
  {
    members := members0[keep := members0[keep] + members0[drop]];
    degree := degree0[keep := degree0[keep] + degree0[drop]];
    between := MoveNeighbours(between0, keep, drop);
    InterimEnd(between0, between, keep, drop);
    between := between[keep := between[keep] - {drop}] - {drop};
    members := members - {drop};
    degree := degree - {drop};
  }

  /** Each neighbour of `drop` but `keep` becomes one of `keep`, in both rows. */
  method MoveNeighbours(between0: Graph, keep: Id, drop: Id) returns (between: Graph)
    requires Undirected(between0)
    requires keep in between0 && drop in between0 && keep != drop
    ensures Interim(between0, between, keep, drop, {})
  {
    between := between0;
    var todo := between[drop].Keys;
    InterimStart(between0, keep, drop);
    while todo != {}
      invariant todo <= between0[drop].Keys
      invariant Interim(between0, between, keep, drop, todo)
      decreases |todo|
    {
      ghost var _ := Pick(todo);
      var other :| other in todo;
      InterimKept(between0, between, keep, drop, todo);
      if other == keep {
        InterimSkip(between0, between, keep, drop, todo);
      } else {
        MoveOne(between0, between, keep, drop, todo, other);
        between := Moved(between, keep, drop, other);
      }
      todo := todo - {other};
    }
  }

  /** One neighbour moved: both rows gain the weight, and the old edge's far end goes. */
  function Moved(between: Graph, keep: Id, drop: Id, other: Id): Graph
    requires keep in between && drop in between && other in between[drop] && other in between && other != keep
  {
    var weight := between[drop][other];
    var joined := between[keep := between[keep][other := Weight(between, keep, other) + weight]];
    joined[other := joined[other][keep := Weight(joined, other, keep) + weight] - {drop}]
  }

  lemma InterimStart(before: Graph, keep: Id, drop: Id)
    requires Undirected(before)
    requires keep in before && drop in before && keep != drop
    ensures Interim(before, before, keep, drop, before[drop].Keys)
  {
    assert InterimRow(before, keep, drop, before[drop].Keys, keep) == before[keep];
  }

  /** `drop`'s own row is read throughout and changed never; each of its neighbours has a row. */
  lemma InterimKept(before: Graph, between: Graph, keep: Id, drop: Id, todo: set<Id>)
    requires Undirected(before)
    requires keep in before && drop in before && keep != drop
    requires Interim(before, between, keep, drop, todo)
    ensures keep in between && drop in between && between[drop] == before[drop]
    ensures forall o :: o in before[drop] ==> o in between
  {
    assert InterimRow(before, keep, drop, todo, drop) == before[drop];
  }

  lemma InterimSkip(before: Graph, between: Graph, keep: Id, drop: Id, todo: set<Id>)
    requires Undirected(before)
    requires keep in before && drop in before && keep != drop
    requires Interim(before, between, keep, drop, todo)
    ensures Interim(before, between, keep, drop, todo - {keep})
  {
    forall x | x in before
      ensures InterimRow(before, keep, drop, todo, x) == InterimRow(before, keep, drop, todo - {keep}, x)
    {
    }
  }

  lemma InterimEnd(before: Graph, between: Graph, keep: Id, drop: Id)
    requires Undirected(before)
    requires keep in before && drop in before && keep != drop
    requires Interim(before, between, keep, drop, {})
    ensures keep in between
    ensures between[keep := between[keep] - {drop}] - {drop} == Contracted(before, keep, drop)
  {
    var after := between[keep := between[keep] - {drop}] - {drop};
    forall x | x in before && x != drop
      ensures after[x] == ContractedRow(before, keep, drop, x)
    {
    }
  }

  lemma MoveOne(before: Graph, between: Graph, keep: Id, drop: Id, todo: set<Id>, other: Id)
    requires Undirected(before)
    requires keep in before && drop in before && keep != drop
    requires todo <= before[drop].Keys && other in todo && other != keep
    requires Interim(before, between, keep, drop, todo)
    requires drop in between && keep in between && other in between && other in between[drop]
    ensures Interim(before, Moved(between, keep, drop, other), keep, drop, todo - {other})
  {
    var after := Moved(between, keep, drop, other);
    KeepRow(before, between, keep, drop, todo, other);
    forall x | x in before
      ensures after[x] == InterimRow(before, keep, drop, todo - {other}, x)
    {
    }
  }

  lemma KeepRow(before: Graph, between: Graph, keep: Id, drop: Id, todo: set<Id>, other: Id)
    requires Undirected(before)
    requires keep in before && drop in before && keep != drop
    requires todo <= before[drop].Keys && other in todo && other != keep
    requires Interim(before, between, keep, drop, todo)
    requires drop in between && keep in between && other in between && other in between[drop]
    ensures Moved(between, keep, drop, other)[keep] == InterimRow(before, keep, drop, todo - {other}, keep)
  {
  }

  // ----- Building the tables -----

  method SumValues(row: Row) returns (sum: real)
    ensures sum == Sum(row.Keys, ValuesOf(row))
  {
    sum := 0.0;
    var todo := row.Keys;
    while todo != {}
      invariant todo <= row.Keys
      invariant sum + Sum(todo, ValuesOf(row)) == Sum(row.Keys, ValuesOf(row))
      decreases |todo|
    {
      ghost var _ := Pick(todo);
      var j :| j in todo;
      SumTakeOut(todo, j, ValuesOf(row));
      sum := sum + row[j];
      todo := todo - {j};
    }
  }

  method RowSums(adjacency: Graph) returns (degree: Degrees)
    ensures degree.Keys == adjacency.Keys
    ensures forall i :: i in adjacency ==> degree[i] == RowTotal(adjacency, i)
  {
    degree := map[];
    var todo := adjacency.Keys;
    while todo != {}
      invariant todo <= adjacency.Keys
      invariant degree.Keys == adjacency.Keys - todo
      invariant forall i :: i in degree ==> degree[i] == RowTotal(adjacency, i)
      decreases |todo|
    {
      ghost var _ := Pick(todo);
      var i :| i in todo;
      var sum := SumValues(adjacency[i]);
      degree := degree[i := sum];
      todo := todo - {i};
    }
  }

  lemma SingletonExact(g: Graph, c: Id, d: Id)
    requires c in g && d in g
    ensures Weight(g, c, d) == Cross(g, {c}, {d})
    ensures d in g[c] <==> Linked(g, {c}, {d})
  {
    CrossOfTwo(g, c, d);
    if d in g[c] {
      assert c in {c} && d in {d} && c in g && d in g[c];
    }
  }

  lemma SingletonTables(g: Graph, degree: Degrees)
    requires Undirected(g)
    requires degree.Keys == g.Keys && forall i :: i in g ==> degree[i] == RowTotal(g, i)
    ensures Tables(g, Singletons(g), degree, g)
  {
    SingletonsPartition(g);
    forall c | c in g
      ensures degree[c] == Degree(g, {c})
    {
      SumOfOne(c, RowTotals(g));
    }
    forall c, d | c in g && d in g && c != d
      ensures Exact(g, Singletons(g), g, c, d)
    {
      SingletonExact(g, c, d);
    }
  }

  // ----- The lazy heap -----

  /** Entries name a lower and a higher key, and if both are live they are still linked. */
  ghost predicate HeapSound(heap: seq<Entry>, between: Graph) {
    forall e :: e in heap ==>
      e.left < e.right && (e.left in between && e.right in between ==> e.right in between[e.left])
  }

  function Current(total: real, degree: Degrees, between: Graph, l: Id, r: Id): Entry
    requires total > 0.0 && l in degree && r in degree
  {
    Entry(-Delta(total, degree, between, l, r), l, r)
  }

  /** Every linked live pair has an entry with the score it has now, whatever else the heap
      holds of older scores and dead communities. */
  ghost predicate HeapComplete(heap: seq<Entry>, total: real, degree: Degrees, between: Graph)
    requires total > 0.0 && degree.Keys == between.Keys && Undirected(between)
  {
    forall l, r :: l in between && r in between[l] && l < r ==> Current(total, degree, between, l, r) in heap
  }

  /** Popping this entry would not merge: an end is gone, or the score has moved. */
  predicate Outdated(e: Entry, total: real, eps: real, degree: Degrees, between: Graph)
    requires total > 0.0
  {
    e.left !in degree || e.right !in degree || Far(Delta(total, degree, between, e.left, e.right), e.negated, eps)
  }

  predicate Far(current: real, negated: real, eps: real) {
    current + negated > eps || current + negated < -eps
  }

  ghost function OutdatedIn(heap: seq<Entry>, total: real, eps: real, degree: Degrees, between: Graph): nat
    requires total > 0.0
  {
    if heap == [] then 0 else
      (if Outdated(heap[0], total, eps, degree, between) then 1 else 0) +
      OutdatedIn(heap[1..], total, eps, degree, between)
  }

  lemma {:induction false} OutdatedInConcat(a: seq<Entry>, b: seq<Entry>, total: real, eps: real, degree: Degrees,
                                            between: Graph)
    requires total > 0.0
    ensures OutdatedIn(a + b, total, eps, degree, between)
         == OutdatedIn(a, total, eps, degree, between) + OutdatedIn(b, total, eps, degree, between)
    decreases |a|
  {
    if a == [] {
      assert a + b == b;
    } else {
      OutdatedInConcat(a[1..], b, total, eps, degree, between);
      assert (a + b)[1..] == a[1..] + b;
    }
  }

  /** Taking an outdated entry out leaves one fewer. */
  lemma OutdatedAfterPop(heap: seq<Entry>, at: nat, total: real, eps: real, degree: Degrees, between: Graph)
    requires total > 0.0 && at < |heap|
    requires Outdated(heap[at], total, eps, degree, between)
    ensures OutdatedIn(heap, total, eps, degree, between)
         == OutdatedIn(Without(heap, at), total, eps, degree, between) + 1
  {
    OutdatedInConcat(heap[..at], heap[at + 1..], total, eps, degree, between);
    OutdatedInConcat(heap[..at], heap[at..], total, eps, degree, between);
    assert heap == heap[..at] + heap[at..];
    assert heap[at..][1..] == heap[at + 1..];
  }

  // ----- Entries pushed, each once -----

  /** The pairs `left` is the lower end of. */
  ghost function RowEntries(total: real, degree: Degrees, between: Graph, left: Id): set<Entry>
    requires total > 0.0 && degree.Keys == between.Keys && Undirected(between) && left in between
  {
    set r | r in between[left] && left < r :: Current(total, degree, between, left, r)
  }

  /** All pairs with a lower end among these. */
  ghost function EntriesOf(total: real, degree: Degrees, between: Graph, lefts: set<Id>): set<Entry>
    requires total > 0.0 && degree.Keys == between.Keys && Undirected(between) && lefts <= between.Keys
  {
    set l, r | l in lefts && r in between[l] && l < r :: Current(total, degree, between, l, r)
  }

  /** `heap` holds what `before` does, and these entries once more. */
  ghost predicate Pushed(before: seq<Entry>, heap: seq<Entry>, entries: set<Entry>) {
    multiset(heap) == multiset(before) + multiset(entries)
  }

  lemma PushedOne(before: seq<Entry>, heap: seq<Entry>, entries: set<Entry>, e: Entry)
    requires Pushed(before, heap, entries) && e !in entries
    ensures Pushed(before, heap + [e], entries + {e})
  {
    assert multiset(entries + {e}) == multiset(entries) + multiset{e};
  }

  lemma PushedTwice(before: seq<Entry>, heap: seq<Entry>, heap': seq<Entry>, a: set<Entry>, b: set<Entry>)
    requires Pushed(before, heap, a) && Pushed(heap, heap', b) && a !! b
    ensures Pushed(before, heap', a + b)
  {
    assert multiset(a + b) == multiset(a) + multiset(b);
  }

  lemma EntriesMore(total: real, degree: Degrees, between: Graph, done: set<Id>, left: Id)
    requires total > 0.0 && degree.Keys == between.Keys && Undirected(between)
    requires done <= between.Keys && left in between && left !in done
    ensures EntriesOf(total, degree, between, done + {left})
         == EntriesOf(total, degree, between, done) + RowEntries(total, degree, between, left)
    ensures EntriesOf(total, degree, between, done) !! RowEntries(total, degree, between, left)
  {
  }

  /** Line 69: an entry for every linked pair, once. */
  method InitialHeap(total: real, degree: Degrees, between: Graph) returns (heap: seq<Entry>)
    requires total > 0.0 && degree.Keys == between.Keys && Undirected(between)
    ensures HeapSound(heap, between) && HeapComplete(heap, total, degree, between)
    ensures multiset(heap) == multiset(EntriesOf(total, degree, between, between.Keys))
  {
    heap := [];
    var lefts := between.Keys;
    ghost var done: set<Id> := {};
    assert EntriesOf(total, degree, between, done) == {};
    while lefts != {}
      invariant lefts <= between.Keys && done == between.Keys - lefts
      invariant HeapSound(heap, between)
      invariant Pushed([], heap, EntriesOf(total, degree, between, done))
      decreases |lefts|
    {
      ghost var _ := Pick(lefts);
      var left :| left in lefts;
      ghost var before := heap;
      heap := PushRow(heap, total, degree, between, left);
      EntriesMore(total, degree, between, done, left);
      PushedTwice([], before, heap, EntriesOf(total, degree, between, done), RowEntries(total, degree, between, left));
      lefts := lefts - {left};
      done := done + {left};
    }
    PushedComplete(total, degree, between, heap);
  }

  lemma PushedComplete(total: real, degree: Degrees, between: Graph, heap: seq<Entry>)
    requires total > 0.0 && degree.Keys == between.Keys && Undirected(between)
    requires multiset(heap) == multiset(EntriesOf(total, degree, between, between.Keys))
    ensures HeapComplete(heap, total, degree, between)
  {
    forall l, r | l in between && r in between[l] && l < r
      ensures Current(total, degree, between, l, r) in heap
    {
      assert Current(total, degree, between, l, r) in multiset(heap);
    }
  }

  method PushRow(heap0: seq<Entry>, total: real, degree: Degrees, between: Graph, left: Id)
    returns (heap: seq<Entry>)
    requires total > 0.0 && degree.Keys == between.Keys && Undirected(between)
    requires left in between && HeapSound(heap0, between)
    ensures HeapSound(heap, between)
    ensures Pushed(heap0, heap, RowEntries(total, degree, between, left))
  {
    heap := heap0;
    var rights := between[left].Keys;
    ghost var entries: set<Entry> := {};
    while rights != {}
      invariant rights <= between[left].Keys
      invariant HeapSound(heap, between)
      invariant Pushed(heap0, heap, entries)
      invariant entries ==
                set r | r in between[left] && r !in rights && left < r :: Current(total, degree, between, left, r)
      decreases |rights|
    {
      ghost var _ := Pick(rights);
      var right :| right in rights;
      if left < right {
        var e := Current(total, degree, between, left, right);
        PushedOne(heap0, heap, entries, e);
        heap := heap + [e];
        entries := entries + {e};
      }
      rights := rights - {right};
    }
  }

  /** The lower key and the higher. */
  function LowFirst(a: Id, b: Id): (Id, Id) {
    if a < b then (a, b) else (b, a)
  }

  /** The current entry of the pair of `keep` and `o`. */
  function Fresh(total: real, degree: Degrees, between: Graph, keep: Id, o: Id): Entry
    requires total > 0.0 && keep in degree && o in degree
  {
    var (low, high) := LowFirst(keep, o);
    Current(total, degree, between, low, high)
  }

  ghost predicate AllFresh(heap: seq<Entry>, total: real, degree: Degrees, between: Graph, keep: Id)
    requires total > 0.0 && degree.Keys == between.Keys && Undirected(between) && keep in between
  {
    forall o :: o in between[keep] ==> Fresh(total, degree, between, keep, o) in heap
  }

  ghost function FreshOf(total: real, degree: Degrees, between: Graph, keep: Id, others: set<Id>): set<Entry>
    requires total > 0.0 && keep in degree && others <= degree.Keys
  {
    set o | o in others :: Fresh(total, degree, between, keep, o)
  }

  lemma FreshOnce(total: real, degree: Degrees, between: Graph, keep: Id, others: set<Id>, o: Id)
    requires total > 0.0 && keep in degree && others <= degree.Keys && o in degree
    requires o !in others && keep !in others && keep != o
    ensures Fresh(total, degree, between, keep, o) !in FreshOf(total, degree, between, keep, others)
    ensures FreshOf(total, degree, between, keep, others + {o})
         == FreshOf(total, degree, between, keep, others) + {Fresh(total, degree, between, keep, o)}
  {
  }

  /** Lines 103-105: fresh entries for every pair the merged community is in. */
  method PushAround(heap0: seq<Entry>, total: real, degree: Degrees, between: Graph, keep: Id)
    returns (heap: seq<Entry>)
    requires total > 0.0 && degree.Keys == between.Keys && Undirected(between)
    requires keep in between && HeapSound(heap0, between)
    ensures HeapSound(heap, between)
    ensures heap0 <= heap
    ensures AllFresh(heap, total, degree, between, keep)
    ensures between[keep].Keys <= degree.Keys
    ensures Pushed(heap0, heap, FreshOf(total, degree, between, keep, between[keep].Keys))
  {
    heap := heap0;
    var others := Sorted(between[keep].Keys);
    AroundKeyed(between, keep);
    assert FirstOf(others, 0) == {};
    for i := 0 to |others|
      invariant heap0 <= heap
      invariant Pushed(heap0, heap, FreshOf(total, degree, between, keep, FirstOf(others, i)))
    {
      var other := others[i];
      NextOf(others, i);
      assert other in others;
      FreshOnce(total, degree, between, keep, FirstOf(others, i), other);
      PushedOne(heap0, heap, FreshOf(total, degree, between, keep, FirstOf(others, i)),
                Fresh(total, degree, between, keep, other));
      heap := heap + [Fresh(total, degree, between, keep, other)];
    }
    AllOf(between[keep].Keys);
    AroundSound(heap0, heap, total, degree, between, keep);
  }

  ghost function FirstOf(others: seq<Id>, i: nat): set<Id>
    requires i <= |others|
  {
    set o | o in others[..i]
  }

  lemma NextOf(others: seq<Id>, i: nat)
    requires i < |others| && Increasing(others)
    ensures FirstOf(others, i + 1) == FirstOf(others, i) + {others[i]} && others[i] !in FirstOf(others, i)
    ensures forall o :: o in FirstOf(others, i) ==> o in others
  {
    assert others[..i + 1] == others[..i] + [others[i]];
  }

  lemma AllOf(keys: set<Id>)
    ensures FirstOf(Sorted(keys), |Sorted(keys)|) == keys
  {
    var others := Sorted(keys);
    assert others[..|others|] == others;
    SortedElements(keys);
  }

  lemma AroundKeyed(between: Graph, keep: Id)
    requires Undirected(between) && keep in between
    ensures between[keep].Keys <= between.Keys && keep !in between[keep].Keys
    ensures forall o :: o in Sorted(between[keep].Keys) ==> o in between && o != keep
  {
    var row := between[keep];
    forall o | o in row
      ensures o in between && o != keep
    {
      assert keep in between && o in between[keep];
    }
    assert row.Keys <= between.Keys;
  }

  lemma AroundSound(heap0: seq<Entry>, heap: seq<Entry>, total: real, degree: Degrees, between: Graph, keep: Id)
    requires total > 0.0 && degree.Keys == between.Keys && Undirected(between) && keep in between
    requires HeapSound(heap0, between) && between[keep].Keys <= degree.Keys
    requires Pushed(heap0, heap, FreshOf(total, degree, between, keep, between[keep].Keys))
    ensures HeapSound(heap, between) && AllFresh(heap, total, degree, between, keep)
  {
    var entries := FreshOf(total, degree, between, keep, between[keep].Keys);
    forall e | e in heap
      ensures e in heap0 || e in entries
    {
      assert e in multiset(heap);
    }
    forall o | o in between[keep]
      ensures Fresh(total, degree, between, keep, o) in heap
    {
      assert Fresh(total, degree, between, keep, o) in multiset(heap);
    }
    forall o | o in between[keep]
      ensures HeapSound([Fresh(total, degree, between, keep, o)], between)
    {
      FreshSound(total, degree, between, keep, o);
      assert Fresh(total, degree, between, keep, o) in [Fresh(total, degree, between, keep, o)];
    }
  }

  lemma FreshSound(total: real, degree: Degrees, between: Graph, keep: Id, o: Id)
    requires total > 0.0 && degree.Keys == between.Keys && Undirected(between)
    requires keep in between && o in between[keep]
    ensures o in degree && keep != o && HeapSound([Fresh(total, degree, between, keep, o)], between)
  {
  }

  /** A merge leaves no live entry unlinked. */
  lemma SoundAfterMerge(heap: seq<Entry>, between: Graph, keep: Id, drop: Id)
    requires Undirected(between) && HeapSound(heap, between)
    requires keep in between && drop in between && keep != drop
    ensures HeapSound(heap, Contracted(between, keep, drop))
  {
    var after := Contracted(between, keep, drop);
    forall e | e in heap && e.left in after && e.right in after
      ensures e.right in after[e.left]
    {
      ContractedPair(between, keep, drop, e.left, e.right);
    }
  }

  /** A merge changes no score but those of the merged community's own pairs. */
  lemma CurrentAfterMerge(total: real, degree: Degrees, between: Graph, keep: Id, drop: Id, l: Id, r: Id)
    requires total > 0.0 && degree.Keys == between.Keys && Undirected(between)
    requires keep in between && drop in between && keep != drop
    requires l in between && r in between && l != r
    requires l != drop && r != drop && l != keep && r != keep
    ensures Current(total, MergedDegrees(degree, keep, drop), Contracted(between, keep, drop), l, r)
         == Current(total, degree, between, l, r)
    ensures r in Contracted(between, keep, drop)[l] <==> r in between[l]
  {
    ContractedPair(between, keep, drop, l, r);
  }

  /** So the entries there were, with fresh ones around `keep`, are complete again. */
  lemma CompleteAfterMerge(heap: seq<Entry>, popped: Entry, heap': seq<Entry>, total: real,
                           degree: Degrees, between: Graph, keep: Id, drop: Id)
    requires total > 0.0 && degree.Keys == between.Keys && Undirected(between)
    requires keep in between && drop in between && keep < drop
    requires Undirected(Contracted(between, keep, drop))
    requires HeapComplete(heap, total, degree, between)
    requires popped.left == keep && popped.right == drop
    requires forall e :: e in heap ==> e == popped || e in heap'
    requires AllFresh(heap', total, MergedDegrees(degree, keep, drop), Contracted(between, keep, drop), keep)
    ensures HeapComplete(heap', total, MergedDegrees(degree, keep, drop), Contracted(between, keep, drop))
  {
    var after := Contracted(between, keep, drop);
    var degree' := MergedDegrees(degree, keep, drop);
    forall l, r | l in after && r in after[l] && l < r
      ensures Current(total, degree', after, l, r) in heap'
    {
      if l == keep || r == keep {
        var o := if l == keep then r else l;
        assert o in after[keep] && LowFirst(keep, o) == (l, r);
        assert Fresh(total, degree', after, keep, o) in heap';
      } else {
        CurrentAfterMerge(total, degree, between, keep, drop, l, r);
        assert Current(total, degree, between, l, r) in heap;
      }
    }
  }

  /** The entry popped is the least, and every pair has one: so its pair is a best one. */
  lemma PoppedIsBest(g: Graph, eps: real, members: Partition, degree: Degrees, between: Graph,
                     heap: seq<Entry>, e: Entry)
    requires Total(g) > 0.0 && eps >= 0.0 && Tables(g, members, degree, between)
    requires HeapComplete(heap, Total(g), degree, between) && HeapSound(heap, between)
    requires e in heap && forall o :: o in heap ==> EntryAtMost(e, o)
    requires e.left in members && e.right in members
    requires !Outdated(e, Total(g), eps, degree, between)
    ensures Best(g, eps, members, e.left, e.right)
  {
    assert Exact(g, members, between, e.left, e.right);
    forall a, b | Candidate(g, members, a, b)
      ensures AsGood(g, eps, members, e.left, e.right, a, b)
    {
      PoppedAsGood(g, eps, members, degree, between, heap, e, a, b);
    }
  }

  lemma PoppedAsGood(g: Graph, eps: real, members: Partition, degree: Degrees, between: Graph,
                     heap: seq<Entry>, e: Entry, a: Id, b: Id)
    requires Total(g) > 0.0 && eps >= 0.0 && Tables(g, members, degree, between)
    requires HeapComplete(heap, Total(g), degree, between)
    requires forall o :: o in heap ==> EntryAtMost(e, o)
    requires e.left in members && e.right in members && e.left != e.right
    requires !Outdated(e, Total(g), eps, degree, between)
    requires Candidate(g, members, a, b)
    ensures AsGood(g, eps, members, e.left, e.right, a, b)
  {
    DeltaIsGain(g, members, degree, between, e.left, e.right);
    EntryForCandidate(g, members, degree, between, heap, a, b);
    assert EntryAtMost(e, Entry(-PairGain(g, members, a, b), a, b));
  }

  lemma EntryForCandidate(g: Graph, members: Partition, degree: Degrees, between: Graph, heap: seq<Entry>, a: Id, b: Id)
    requires Total(g) > 0.0 && Tables(g, members, degree, between)
    requires HeapComplete(heap, Total(g), degree, between)
    requires Candidate(g, members, a, b)
    ensures Entry(-PairGain(g, members, a, b), a, b) in heap
  {
    assert Exact(g, members, between, a, b);
    DeltaIsGain(g, members, degree, between, a, b);
    assert Current(Total(g), degree, between, a, b) in heap;
  }

  /** A best pair that gains nothing, or no pair at all, ends the run. */
  lemma NothingLeft(g: Graph, eps: real, members: Partition, degree: Degrees, between: Graph, heap: seq<Entry>)
    requires Total(g) > 0.0 && Tables(g, members, degree, between)
    requires HeapComplete(heap, Total(g), degree, between)
    requires heap == []
    ensures Settled(g, eps, members)
  {
    forall a, b
      ensures !Candidate(g, members, a, b)
    {
      if Candidate(g, members, a, b) {
        EntryForCandidate(g, members, degree, between, heap, a, b);
        assert false;
      }
    }
  }

  /** The loop's four structures, against the graph they are about. */
  datatype Loop = Loop(members: Partition, degree: Degrees, between: Graph, heap: seq<Entry>)

  // ----- The loop as a machine -----

  /** What the loop goes by: its tables, and what is in the heap, in no order. */
  datatype Machine = Machine(members: Partition, degree: Degrees, between: Graph, heap: multiset<Entry>)

  ghost function MachineOf(s: Loop): Machine {
    Machine(s.members, s.degree, s.between, multiset(s.heap))
  }

  ghost predicate Keyed(m: Machine) {
    m.degree.Keys == m.members.Keys == m.between.Keys
  }

  ghost predicate LeastIn(heap: multiset<Entry>, e: Entry) {
    e in heap && forall o :: o in heap ==> EntryAtMost(e, o)
  }

  ghost predicate Gone(m: Machine, e: Entry) {
    e.left !in m.members || e.right !in m.members
  }

  /** Popping this entry ends the loop. */
  ghost predicate Stops(total: real, eps: real, m: Machine, e: Entry)
    requires total > 0.0 && Keyed(m)
  {
    && !Gone(m, e)
    && !Far(Delta(total, m.degree, m.between, e.left, e.right), e.negated, eps)
    && Delta(total, m.degree, m.between, e.left, e.right) <= 0.0
  }

  /** The fresh entries around `keep`, of those the tables have. */
  ghost function Around(total: real, degree: Degrees, between: Graph, keep: Id): set<Entry>
    requires total > 0.0 && keep in degree && keep in between
  {
    FreshOf(total, degree, between, keep, between[keep].Keys * degree.Keys)
  }

  /** What popping an entry that does not end the loop makes of it. */
  ghost function Popped(total: real, eps: real, m: Machine, e: Entry): Machine
    requires total > 0.0
  {
    if !Keyed(m) || Gone(m, e) then m.(heap := m.heap - multiset{e})
    else if Far(Delta(total, m.degree, m.between, e.left, e.right), e.negated, eps) then
      m.(heap := m.heap - multiset{e} + multiset{Current(total, m.degree, m.between, e.left, e.right)})
    else if e.left == e.right then m
    else
      var degree, between := MergedDegrees(m.degree, e.left, e.right), Contracted(m.between, e.left, e.right);
      Machine(Merged(m.members, e.left, e.right), degree, between,
              m.heap - multiset{e} + multiset(Around(total, degree, between, e.left)))
  }

  ghost function Pops(total: real, eps: real): (Machine, Entry) -> bool {
    (m: Machine, e: Entry) => total > 0.0 && Keyed(m) && LeastIn(m.heap, e) && !Stops(total, eps, m, e)
  }

  ghost function AfterEntry(total: real, eps: real): (Machine, Entry) -> Machine {
    (m: Machine, e: Entry) => if total > 0.0 then Popped(total, eps, m, e) else m
  }

  ghost predicate Halted(total: real, eps: real, m: Machine)
    requires total > 0.0
  {
    m.heap == multiset{} || exists e :: Keyed(m) && LeastIn(m.heap, e) && Stops(total, eps, m, e)
  }

  /** From `m`, popping these entries in turn, the loop comes to `n`. */
  ghost predicate Pumped(total: real, eps: real, m: Machine, pops: seq<Entry>, n: Machine) {
    Chain(Pops(total, eps), AfterEntry(total, eps), m, pops, n)
  }

  lemma LeastOnce(heap: multiset<Entry>, e: Entry, o: Entry)
    requires LeastIn(heap, e) && LeastIn(heap, o)
    ensures e == o
  {
    assert EntryAtMost(e, o) && EntryAtMost(o, e);
  }

  /** There is no choice in it: whatever the heap's layout, the loop goes one way, and ends
      where it ends. */
  lemma {:induction false} PumpedOnce(total: real, eps: real, m: Machine, p: seq<Entry>, n: Machine, q: seq<Entry>,
                                      n': Machine)
    requires total > 0.0
    requires Pumped(total, eps, m, p, n) && Halted(total, eps, n)
    requires Pumped(total, eps, m, q, n') && Halted(total, eps, n')
    ensures n == n'
    decreases |p|
  {
    if p != [] && q != [] {
      LeastOnce(m.heap, p[0], q[0]);
      PumpedOnce(total, eps, Popped(total, eps, m, p[0]), p[1..], n, q[1..], n');
    } else if p != [] {
      HaltedStays(total, eps, m, p[0]);
    } else if q != [] {
      HaltedStays(total, eps, m, q[0]);
    }
  }

  lemma HaltedStays(total: real, eps: real, m: Machine, e: Entry)
    requires total > 0.0 && Halted(total, eps, m)
    ensures !Pops(total, eps)(m, e)
  {
    if LeastIn(m.heap, e) && Keyed(m) {
      var o :| Keyed(m) && LeastIn(m.heap, o) && Stops(total, eps, m, o);
      LeastOnce(m.heap, e, o);
    }
  }

  /** Where the loop starts: single nodes, and an entry for every edge. */
  ghost function StartOf(g: Graph): Machine
    requires Undirected(g) && Total(g) > 0.0
  {
    var degree := map i | i in g :: RowTotal(g, i);
    Machine(Singletons(g), degree, g, multiset(EntriesOf(Total(g), degree, g, g.Keys)))
  }

  /** The partition the loop ends with. */
  ghost predicate LazyOutcome(g: Graph, eps: real, p: Partition) {
    if Total(g) <= 0.0 || !Undirected(g) then p == Singletons(g)
    else exists pops, end ::
      Pumped(Total(g), eps, StartOf(g), pops, end) && Halted(Total(g), eps, end) && end.members == p
  }

  /** The graph and the tolerance alone decide it. */
  lemma LazyOutcomeUnique(g: Graph, eps: real, p: Partition, q: Partition)
    requires LazyOutcome(g, eps, p) && LazyOutcome(g, eps, q)
    ensures p == q
  {
    if Total(g) > 0.0 && Undirected(g) {
      var ps, m :| Pumped(Total(g), eps, StartOf(g), ps, m) && Halted(Total(g), eps, m) && m.members == p;
      var qs, n :| Pumped(Total(g), eps, StartOf(g), qs, n) && Halted(Total(g), eps, n) && n.members == q;
      PumpedOnce(Total(g), eps, StartOf(g), ps, m, qs, n);
    }
  }

  // ----- Greedy modularity -----

  ghost predicate LoopOk(g: Graph, s: Loop)
    requires Total(g) > 0.0
  {
    && Tables(g, s.members, s.degree, s.between)
    && HeapSound(s.heap, s.between)
    && HeapComplete(s.heap, Total(g), s.degree, s.between)
  }

  ghost function Measure(g: Graph, eps: real, s: Loop): nat
    requires Total(g) > 0.0
  {
    OutdatedIn(s.heap, Total(g), eps, s.degree, s.between)
  }

  predicate Dead(s: Loop, e: Entry) {
    e.left !in s.members || e.right !in s.members
  }

  function Without(heap: seq<Entry>, at: nat): seq<Entry>
    requires at < |heap|
  {
    heap[..at] + heap[at + 1..]
  }

  /** What one pop does: the loop stops where nothing is worth merging; or a naive round is taken;
      or the communities stay and there is less to pop in vain. And the machine moves with it. */
  ghost predicate PopDone(g: Graph, eps: real, s: Loop, popped: Entry, s': Loop, merged: bool, stop: bool)
    requires Total(g) > 0.0 && LoopOk(g, s)
  {
    && (Stops(Total(g), eps, MachineOf(s), popped) <==> stop)
    && (stop ==> !merged && s'.members == s.members && Settled(g, eps, s.members))
    && (!stop ==> LoopOk(g, s') && MachineOf(s') == Popped(Total(g), eps, MachineOf(s), popped))
    && (!stop && !merged ==> s'.members == s.members && Measure(g, eps, s') < Measure(g, eps, s))
    && (merged ==> Round(g, eps, s.members, popped.left, popped.right)
                   && s'.members == Merged(s.members, popped.left, popped.right))
  }

  /** Lines 72-105, given that `popped` is a least entry of the heap. */
  method AfterPop(g: Graph, eps: real, total: real, s: Loop, popped: Entry, ghost at: nat, rest: seq<Entry>)
    returns (s': Loop, merged: bool, stop: bool)
    requires Undirected(g) && eps >= 0.0 && total == Total(g) && total > 0.0
    requires LoopOk(g, s)
    requires at < |s.heap| && popped == s.heap[at] && rest == Without(s.heap, at)
    requires forall e :: e in s.heap ==> EntryAtMost(popped, e)
    ensures PopDone(g, eps, s, popped, s', merged, stop)
  {
    if Dead(s, popped) {
      DeadDone(g, eps, s, at);
      return s.(heap := rest), false, false;
    }
    LivePop(g, s, at);
    if popped.right !in s.between[popped.left] {
      assert false;
    }
    var current := Delta(total, s.degree, s.between, popped.left, popped.right);
    if Far(current, popped.negated, eps) {
      var now := Entry(-current, popped.left, popped.right);
      assert now == Current(Total(g), s.degree, s.between, popped.left, popped.right);
      StaleDone(g, eps, s, at);
      return s.(heap := rest + [now]), false, false;
    }
    if current <= 0.0 {
      StopDone(g, eps, s, at);
      return s.(heap := rest), false, true;
    }
    s' := MergePopped(g, total, s, popped, at, rest);
    MergedDone(g, eps, s, at, s');
    return s', true, false;
  }

  lemma DeadDone(g: Graph, eps: real, s: Loop, at: nat)
    requires Total(g) > 0.0 && LoopOk(g, s)
    requires at < |s.heap| && Dead(s, s.heap[at])
    ensures PopDone(g, eps, s, s.heap[at], s.(heap := Without(s.heap, at)), false, false)
  {
    DropDead(g, eps, s, at);
    PoppedDead(Total(g), eps, s, at);
  }

  lemma StaleDone(g: Graph, eps: real, s: Loop, at: nat)
    requires Total(g) > 0.0 && eps >= 0.0 && LoopOk(g, s)
    requires at < |s.heap| && !Dead(s, s.heap[at])
    requires Outdated(s.heap[at], Total(g), eps, s.degree, s.between)
    ensures var now := Current(Total(g), s.degree, s.between, s.heap[at].left, s.heap[at].right);
      PopDone(g, eps, s, s.heap[at], s.(heap := Without(s.heap, at) + [now]), false, false)
  {
    Refresh(g, eps, s, at);
    PoppedStale(Total(g), eps, s, at);
  }

  lemma StopDone(g: Graph, eps: real, s: Loop, at: nat)
    requires Undirected(g) && Total(g) > 0.0 && eps >= 0.0 && LoopOk(g, s)
    requires at < |s.heap| && forall o :: o in s.heap ==> EntryAtMost(s.heap[at], o)
    requires !Dead(s, s.heap[at]) && !Outdated(s.heap[at], Total(g), eps, s.degree, s.between)
    requires Delta(Total(g), s.degree, s.between, s.heap[at].left, s.heap[at].right) <= 0.0
    ensures PopDone(g, eps, s, s.heap[at], s.(heap := Without(s.heap, at)), false, true)
  {
    PoppedDecides(g, eps, s, s.heap[at]);
  }

  lemma MergedDone(g: Graph, eps: real, s: Loop, at: nat, s': Loop)
    requires Undirected(g) && Total(g) > 0.0 && eps >= 0.0 && LoopOk(g, s) && LoopOk(g, s')
    requires at < |s.heap| && forall o :: o in s.heap ==> EntryAtMost(s.heap[at], o)
    requires !Dead(s, s.heap[at]) && !Outdated(s.heap[at], Total(g), eps, s.degree, s.between)
    requires Delta(Total(g), s.degree, s.between, s.heap[at].left, s.heap[at].right) > 0.0
    requires MergedInto(Total(g), s, at, s')
    ensures PopDone(g, eps, s, s.heap[at], s', true, false)
  {
    PoppedDecides(g, eps, s, s.heap[at]);
    LivePop(g, s, at);
    PoppedMerged(Total(g), eps, s, at, s');
  }

  /** The two communities of an entry merged, in all four structures. */
  ghost predicate MergedInto(total: real, s: Loop, at: nat, s': Loop)
    requires total > 0.0 && at < |s.heap|
  {
    var e := s.heap[at];
    && e.left in s.members && e.right in s.members && e.left in s.degree && e.right in s.degree
    && e.left in s.between && e.right in s.between && e.left != e.right
    && s'.members == Merged(s.members, e.left, e.right)
    && s'.degree == MergedDegrees(s.degree, e.left, e.right)
    && s'.between == Contracted(s.between, e.left, e.right)
    && Pushed(Without(s.heap, at), s'.heap, Around(total, s'.degree, s'.between, e.left))
  }

  lemma PoppedDead(total: real, eps: real, s: Loop, at: nat)
    requires total > 0.0 && Keyed(MachineOf(s)) && at < |s.heap| && Dead(s, s.heap[at])
    ensures !Stops(total, eps, MachineOf(s), s.heap[at])
    ensures MachineOf(s.(heap := Without(s.heap, at))) == Popped(total, eps, MachineOf(s), s.heap[at])
  {
    RestOf(s.heap, at);
  }

  lemma PoppedStale(total: real, eps: real, s: Loop, at: nat)
    requires total > 0.0 && Keyed(MachineOf(s)) && at < |s.heap| && !Dead(s, s.heap[at])
    requires Far(Delta(total, s.degree, s.between, s.heap[at].left, s.heap[at].right), s.heap[at].negated, eps)
    ensures !Stops(total, eps, MachineOf(s), s.heap[at])
    ensures var now := Current(total, s.degree, s.between, s.heap[at].left, s.heap[at].right);
      MachineOf(s.(heap := Without(s.heap, at) + [now])) == Popped(total, eps, MachineOf(s), s.heap[at])
  {
    RestOf(s.heap, at);
  }

  lemma PoppedMerged(total: real, eps: real, s: Loop, at: nat, s': Loop)
    requires total > 0.0 && Keyed(MachineOf(s)) && at < |s.heap| && MergedInto(total, s, at, s')
    requires !Far(Delta(total, s.degree, s.between, s.heap[at].left, s.heap[at].right), s.heap[at].negated, eps)
    requires Delta(total, s.degree, s.between, s.heap[at].left, s.heap[at].right) > 0.0
    ensures !Stops(total, eps, MachineOf(s), s.heap[at])
    ensures MachineOf(s') == Popped(total, eps, MachineOf(s), s.heap[at])
  {
    RestOf(s.heap, at);
  }

  lemma RestOf(heap: seq<Entry>, at: nat)
    requires at < |heap|
    ensures multiset(Without(heap, at)) == multiset(heap) - multiset{heap[at]}
  {
    assert heap == heap[..at] + [heap[at]] + heap[at + 1..];
  }

  lemma LeastOfHeap(heap: seq<Entry>, e: Entry)
    requires e in heap && forall o :: o in heap ==> EntryAtMost(e, o)
    ensures LeastIn(multiset(heap), e)
  {
  }

  /** A popped entry that still holds: its pair is best, so its sign settles what follows. */
  lemma PoppedDecides(g: Graph, eps: real, s: Loop, e: Entry)
    requires Undirected(g) && Total(g) > 0.0 && eps >= 0.0 && LoopOk(g, s)
    requires e in s.heap && forall o :: o in s.heap ==> EntryAtMost(e, o)
    requires e.left in s.members && e.right in s.members
    requires !Outdated(e, Total(g), eps, s.degree, s.between)
    ensures Delta(Total(g), s.degree, s.between, e.left, e.right) <= 0.0 ==> Settled(g, eps, s.members)
    ensures Delta(Total(g), s.degree, s.between, e.left, e.right) > 0.0 ==> Round(g, eps, s.members, e.left, e.right)
  {
    PoppedIsBest(g, eps, s.members, s.degree, s.between, s.heap, e);
    DeltaIsGain(g, s.members, s.degree, s.between, e.left, e.right);
    if PairGain(g, s.members, e.left, e.right) <= 0.0 {
      BestSettles(g, eps, s.members, e.left, e.right);
    }
  }

  lemma BestSettles(g: Graph, eps: real, p: Partition, l: Id, r: Id)
    requires Total(g) > 0.0 && Best(g, eps, p, l, r) && PairGain(g, p, l, r) <= 0.0
    ensures Settled(g, eps, p)
  {
  }

  /** Both ends live: the pair is in order, and linked. */
  lemma LivePop(g: Graph, s: Loop, at: nat)
    requires Total(g) > 0.0 && LoopOk(g, s)
    requires at < |s.heap| && !Dead(s, s.heap[at])
    ensures s.heap[at].left < s.heap[at].right
    ensures s.heap[at].left in s.between && s.heap[at].right in s.between[s.heap[at].left]
  {
    assert s.heap[at] in s.heap;
  }

  method MergePopped(g: Graph, total: real, s: Loop, popped: Entry, ghost at: nat, rest: seq<Entry>)
    returns (s': Loop)
    requires Undirected(g) && total == Total(g) && total > 0.0
    requires LoopOk(g, s)
    requires at < |s.heap| && popped == s.heap[at] && rest == Without(s.heap, at)
    requires !Dead(s, popped) && popped.left < popped.right
    ensures LoopOk(g, s') && MergedInto(total, s, at, s')
  {
    var (keep, drop) := LowFirst(popped.left, popped.right);
    var members, degree, between := MergeTables(s.members, s.degree, s.between, keep, drop);
    MergeKeepsTables(g, s.members, s.degree, s.between, keep, drop);
    RestSound(s.heap, at, s.between, keep, drop);
    var heap := PushAround(rest, total, degree, between, keep);
    RestComplete(s.heap, at, heap, total, s.degree, s.between);
    s' := Loop(members, degree, between, heap);
    assert between[keep].Keys * degree.Keys == between[keep].Keys;
  }

  lemma RestSound(heap: seq<Entry>, at: nat, between: Graph, keep: Id, drop: Id)
    requires at < |heap|
    requires Undirected(between) && HeapSound(heap, between)
    requires keep in between && drop in between && keep != drop
    ensures HeapSound(Without(heap, at), Contracted(between, keep, drop))
  {
    SoundAfterMerge(heap, between, keep, drop);
    KeepOthers(heap, at);
  }

  lemma RestComplete(heap: seq<Entry>, at: nat, heap': seq<Entry>, total: real, degree: Degrees, between: Graph)
    requires total > 0.0 && degree.Keys == between.Keys && Undirected(between)
    requires at < |heap| && Without(heap, at) <= heap'
    requires heap[at].left in between && heap[at].right in between && heap[at].left < heap[at].right
    requires HeapComplete(heap, total, degree, between)
    requires Undirected(Contracted(between, heap[at].left, heap[at].right))
    requires AllFresh(heap', total, MergedDegrees(degree, heap[at].left, heap[at].right),
                      Contracted(between, heap[at].left, heap[at].right), heap[at].left)
    ensures HeapComplete(heap', total, MergedDegrees(degree, heap[at].left, heap[at].right),
                         Contracted(between, heap[at].left, heap[at].right))
  {
    KeepOthers(heap, at);
    assert forall e :: e in Without(heap, at) ==> e in heap';
    CompleteAfterMerge(heap, heap[at], heap', total, degree, between, heap[at].left, heap[at].right);
  }

  /** `_greedy_modularity`. `eps` is the code's 1e-12. */
  method GreedyModularity(adjacency: Graph, eps: real) returns (parts: seq<set<Id>>)
    requires Undirected(adjacency) && eps >= 0.0
    ensures GreedyParts(adjacency, eps, parts)
  {
    var degree := RowSums(adjacency);
    var doubled := SumValues(degree);
    SumAgree(adjacency.Keys, ValuesOf(degree), RowTotals(adjacency));
    var total := doubled / 2.0;
    if total <= 0.0 {
      PartsOf(adjacency, eps, Singletons(adjacency));
      return InKeyOrder(Singletons(adjacency));
    }
    SingletonTables(adjacency, degree);
    var heap := InitialHeap(total, degree, adjacency);
    StartsThere(adjacency, degree, heap);
    var members := MergeLoop(adjacency, eps, total, Loop(Singletons(adjacency), degree, adjacency, heap));
    PartsOf(adjacency, eps, members);
    parts := InKeyOrder(members);
  }

  lemma StartsThere(g: Graph, degree: Degrees, heap: seq<Entry>)
    requires Undirected(g) && Total(g) > 0.0
    requires degree.Keys == g.Keys && forall i :: i in g ==> degree[i] == RowTotal(g, i)
    requires multiset(heap) == multiset(EntriesOf(Total(g), degree, g, g.Keys))
    ensures MachineOf(Loop(Singletons(g), degree, g, heap)) == StartOf(g)
  {
    assert degree == map i | i in g :: RowTotal(g, i);
  }

  /** Where the loop is, said both ways: by the rounds so far, and by the pops so far. */
  ghost predicate Reached(g: Graph, eps: real, merges: seq<(Id, Id)>, pops: seq<Entry>, m: Machine)
    requires Total(g) > 0.0 && Undirected(g)
  {
    Rounds(g, eps, Singletons(g), merges, m.members) && Pumped(Total(g), eps, StartOf(g), pops, m)
  }

  lemma ReachedNext(g: Graph, eps: real, merges: seq<(Id, Id)>, pops: seq<Entry>, s: Loop, popped: Entry, s': Loop,
                    merged: bool)
      returns (merges': seq<(Id, Id)>)
    requires Total(g) > 0.0 && Undirected(g) && LoopOk(g, s)
    requires Reached(g, eps, merges, pops, MachineOf(s))
    requires popped in s.heap && forall e :: e in s.heap ==> EntryAtMost(popped, e)
    requires !Stops(Total(g), eps, MachineOf(s), popped)
    requires MachineOf(s') == Popped(Total(g), eps, MachineOf(s), popped)
    requires if merged then Round(g, eps, s.members, popped.left, popped.right)
                            && s'.members == Merged(s.members, popped.left, popped.right)
             else s'.members == s.members
    ensures Reached(g, eps, merges', pops + [popped], MachineOf(s'))
  {
    merges' := merges;
    LeastOfHeap(s.heap, popped);
    ChainExtend(Pops(Total(g), eps), AfterEntry(Total(g), eps), StartOf(g), pops, MachineOf(s), popped);
    if merged {
      RoundsExtend(g, eps, Singletons(g), merges, s.members, popped.left, popped.right);
      merges' := merges + [(popped.left, popped.right)];
    }
  }

  /** The loop's invariant; `last` is where the machine is, or where it stopped. */
  ghost predicate Looping(g: Graph, eps: real, s: Loop, stop: bool, merges: seq<(Id, Id)>, pops: seq<Entry>,
                          last: Machine)
    requires Total(g) > 0.0 && Undirected(g)
  {
    && last.members == s.members && Reached(g, eps, merges, pops, last)
    && if stop then Settled(g, eps, s.members) && Halted(Total(g), eps, last) else LoopOk(g, s) && last == MachineOf(s)
  }

  lemma LoopNext(g: Graph, eps: real, s: Loop, merges: seq<(Id, Id)>, pops: seq<Entry>, popped: Entry, s': Loop,
                 merged: bool)
      returns (merges': seq<(Id, Id)>)
    requires Total(g) > 0.0 && Undirected(g) && Looping(g, eps, s, false, merges, pops, MachineOf(s)) && LoopOk(g, s')
    requires popped in s.heap && forall e :: e in s.heap ==> EntryAtMost(popped, e)
    requires !Stops(Total(g), eps, MachineOf(s), popped)
    requires MachineOf(s') == Popped(Total(g), eps, MachineOf(s), popped)
    requires if merged then Round(g, eps, s.members, popped.left, popped.right)
                            && s'.members == Merged(s.members, popped.left, popped.right)
             else s'.members == s.members
    ensures Looping(g, eps, s', false, merges', pops + [popped], MachineOf(s'))
  {
    merges' := ReachedNext(g, eps, merges, pops, s, popped, s', merged);
  }

  lemma LoopStops(g: Graph, eps: real, s: Loop, merges: seq<(Id, Id)>, pops: seq<Entry>, popped: Entry, s': Loop)
    requires Total(g) > 0.0 && Undirected(g) && Looping(g, eps, s, false, merges, pops, MachineOf(s))
    requires popped in s.heap && forall e :: e in s.heap ==> EntryAtMost(popped, e)
    requires Stops(Total(g), eps, MachineOf(s), popped)
    requires s'.members == s.members && Settled(g, eps, s.members)
    ensures Looping(g, eps, s', true, merges, pops, MachineOf(s))
  {
    LeastOfHeap(s.heap, popped);
  }

  lemma LoopDone(g: Graph, eps: real, s: Loop, stop: bool, merges: seq<(Id, Id)>, pops: seq<Entry>, last: Machine)
    requires Total(g) > 0.0 && Undirected(g) && Looping(g, eps, s, stop, merges, pops, last)
    requires stop || s.heap == []
    ensures GreedyOutcome(g, eps, s.members) && LazyOutcome(g, eps, s.members)
  {
    if !stop {
      NothingLeft(g, eps, s.members, s.degree, s.between, s.heap);
    }
    OutcomeOf(g, eps, merges, s.members);
    LazyOutcomeOf(g, eps, merges, pops, last);
  }

  /** One turn of the loop: it ends, or fewer communities are left, or as many and fewer
      entries that a pop would not merge. */
  method PopOnce(g: Graph, eps: real, total: real, s0: Loop, ghost merges0: seq<(Id, Id)>, ghost pops0: seq<Entry>)
    returns (s: Loop, stop: bool, ghost merges: seq<(Id, Id)>, ghost pops: seq<Entry>, ghost last: Machine)
    requires Undirected(g) && eps >= 0.0 && total == Total(g) && total > 0.0
    requires LoopOk(g, s0) && s0.heap != [] && Looping(g, eps, s0, false, merges0, pops0, MachineOf(s0))
    ensures Looping(g, eps, s, stop, merges, pops, last)
    ensures !stop ==> LoopOk(g, s) && last == MachineOf(s)
    ensures |s.members| <= |s0.members|
    ensures !stop && |s.members| == |s0.members| ==> Measure(g, eps, s) < Measure(g, eps, s0)
  {
    merges, pops, last := merges0, pops0, MachineOf(s0);
    var popped, at, rest := HeapPop(s0.heap);
    var merged: bool;
    s, merged, stop := AfterPop(g, eps, total, s0, popped, at, rest);
    if merged {
      MergedSmaller(s0.members, popped.left, popped.right);
    }
    if stop {
      LoopStops(g, eps, s0, merges0, pops0, popped, s);
    } else {
      merges := LoopNext(g, eps, s0, merges0, pops0, popped, s, merged);
      pops := pops0 + [popped];
      last := MachineOf(s);
    }
  }

  /** Lines 71-105: pop until nothing is left, or nothing is worth merging. */
  method MergeLoop(g: Graph, eps: real, total: real, start: Loop) returns (members: Partition)
    requires Undirected(g) && eps >= 0.0 && total == Total(g) && total > 0.0
    requires LoopOk(g, start) && MachineOf(start) == StartOf(g)
    ensures GreedyOutcome(g, eps, members) && LazyOutcome(g, eps, members)
  {
    var s, stop := start, false;
    ghost var merges: seq<(Id, Id)>, pops: seq<Entry>, last := [], [], MachineOf(start);
    while s.heap != [] && !stop
      invariant !stop ==> LoopOk(g, s) && last == MachineOf(s)
      invariant Looping(g, eps, s, stop, merges, pops, last)
      decreases !stop, |s.members|, if stop then 0 else Measure(g, eps, s)
    {
      s, stop, merges, pops, last := PopOnce(g, eps, total, s, merges, pops);
    }
    LoopDone(g, eps, s, stop, merges, pops, last);
    members := s.members;
  }

  lemma LazyOutcomeOf(g: Graph, eps: real, merges: seq<(Id, Id)>, pops: seq<Entry>, last: Machine)
    requires Total(g) > 0.0 && Undirected(g) && Reached(g, eps, merges, pops, last) && Halted(Total(g), eps, last)
    ensures LazyOutcome(g, eps, last.members)
  {
  }

  lemma OutcomeOf(g: Graph, eps: real, merges: seq<(Id, Id)>, p: Partition)
    requires Total(g) > 0.0
    requires Settled(g, eps, p) && Rounds(g, eps, Singletons(g), merges, p)
    ensures GreedyOutcome(g, eps, p)
  {
  }

  lemma PartsOf(g: Graph, eps: real, p: Partition)
    requires GreedyOutcome(g, eps, p) && LazyOutcome(g, eps, p)
    ensures GreedyParts(g, eps, InKeyOrder(p))
  {
  }

  ghost predicate GreedyParts(g: Graph, eps: real, parts: seq<set<Id>>) {
    exists p :: GreedyOutcome(g, eps, p) && LazyOutcome(g, eps, p) && parts == InKeyOrder(p)
  }

  /** A dead entry goes: what is left is as sound and as complete, and one fewer outdated. */
  lemma DropDead(g: Graph, eps: real, s: Loop, at: nat)
    requires Total(g) > 0.0 && LoopOk(g, s)
    requires at < |s.heap| && Dead(s, s.heap[at])
    ensures LoopOk(g, s.(heap := Without(s.heap, at)))
    ensures Measure(g, eps, s.(heap := Without(s.heap, at))) < Measure(g, eps, s)
  {
    DeadUnneeded(s.heap, at, Total(g), s.degree, s.between);
    OutdatedAfterPop(s.heap, at, Total(g), eps, s.degree, s.between);
  }

  lemma DeadUnneeded(heap: seq<Entry>, at: nat, total: real, degree: Degrees, between: Graph)
    requires total > 0.0 && degree.Keys == between.Keys && Undirected(between)
    requires HeapSound(heap, between) && HeapComplete(heap, total, degree, between)
    requires at < |heap| && (heap[at].left !in between || heap[at].right !in between)
    ensures HeapSound(Without(heap, at), between)
    ensures HeapComplete(Without(heap, at), total, degree, between)
  {
    KeepOthers(heap, at);
  }

  lemma KeepOthers(heap: seq<Entry>, at: nat)
    requires at < |heap|
    ensures forall e :: e in heap ==> e == heap[at] || e in Without(heap, at)
    ensures forall e :: e in Without(heap, at) ==> e in heap
  {
    assert heap == heap[..at] + [heap[at]] + heap[at + 1..];
  }

  /** A moved score is replaced by the one the pair has now, and one fewer is outdated. */
  lemma Refresh(g: Graph, eps: real, s: Loop, at: nat)
    requires Total(g) > 0.0 && eps >= 0.0 && LoopOk(g, s)
    requires at < |s.heap| && !Dead(s, s.heap[at])
    requires Outdated(s.heap[at], Total(g), eps, s.degree, s.between)
    ensures var now := Current(Total(g), s.degree, s.between, s.heap[at].left, s.heap[at].right);
            var s' := s.(heap := Without(s.heap, at) + [now]);
            LoopOk(g, s') && Measure(g, eps, s') < Measure(g, eps, s)
  {
    KeepOthers(s.heap, at);
    LivePop(g, s, at);
    var rest := Without(s.heap, at);
    var now := Current(Total(g), s.degree, s.between, s.heap[at].left, s.heap[at].right);
    OutdatedAfterPop(s.heap, at, Total(g), eps, s.degree, s.between);
    OutdatedInConcat(rest, [now], Total(g), eps, s.degree, s.between);
    assert OutdatedIn([now], Total(g), eps, s.degree, s.between) == 0;
    RefreshedComplete(s.heap, rest + [now], at, Total(g), s.degree, s.between);
  }

  lemma RefreshedComplete(heap: seq<Entry>, heap': seq<Entry>, at: nat, total: real, degree: Degrees, between: Graph)
    requires total > 0.0 && degree.Keys == between.Keys && Undirected(between)
    requires at < |heap| && heap[at].left in between && heap[at].right in between
    requires heap' == Without(heap, at) + [Current(total, degree, between, heap[at].left, heap[at].right)]
    requires HeapComplete(heap, total, degree, between)
    ensures HeapComplete(heap', total, degree, between)
  {
    KeepOthers(heap, at);
  }
}
