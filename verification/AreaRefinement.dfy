/** research_team/curriculum/application/area_clustering.py, after the greedy pass: one split
    of oversized communities, then absorption of undersized ones. */
module AreaRefinement {
  import opened Wrappers
  import opened Sums
  import opened Counting
  import opened Graphs
  import opened Orders
  import opened Partitioning
  import opened NaiveGreedy
  import opened AreaClustering

  const MAX_AREA_FRACTION := 0.4
  const MIN_AREA_SIZE := 3

  // ----- What every greedy result is -----

  lemma GreedyPartition(g: Graph, eps: real, parts: seq<set<Id>>)
    requires GreedyParts(g, eps, parts)
    ensures Partitions(parts, g.Keys)
  {
    var p :| GreedyOutcome(g, eps, p) && LazyOutcome(g, eps, p) && parts == InKeyOrder(p);
    OutcomePartition(g, eps, p);
    KeyOrderPartitions(g, p);
  }

  /** The communities are listed by their lowest members. */
  lemma GreedyByLowest(g: Graph, eps: real, parts: seq<set<Id>>, j: nat, k: nat)
    requires GreedyParts(g, eps, parts) && j < k < |parts|
    ensures exists x :: x in parts[j] && forall y :: y in parts[k] ==> x < y
  {
    var p :| GreedyOutcome(g, eps, p) && LazyOutcome(g, eps, p) && parts == InKeyOrder(p);
    OutcomePartition(g, eps, p);
    KeyOrderAt(p, j);
    KeyOrderAt(p, k);
    assert Sorted(p.Keys)[j] in parts[j];
  }

  /** The list returned is a function of the graph, whatever the tolerance. */
  lemma GreedyDeterministic(g: Graph, eps: real, parts: seq<set<Id>>, parts': seq<set<Id>>)
    requires GreedyParts(g, eps, parts) && GreedyParts(g, eps, parts')
    ensures parts == parts'
  {
    var p :| GreedyOutcome(g, eps, p) && LazyOutcome(g, eps, p) && parts == InKeyOrder(p);
    var q :| GreedyOutcome(g, eps, q) && LazyOutcome(g, eps, q) && parts' == InKeyOrder(q);
    LazyOutcomeUnique(g, eps, p, q);
  }

  // ----- Splitting -----

  /** `max(MIN_AREA_SIZE, int(total_nodes * MAX_AREA_FRACTION))` */
  function Ceiling(nodes: nat): nat {
    var cut := (nodes as real * MAX_AREA_FRACTION).Floor;
    if cut < MIN_AREA_SIZE then MIN_AREA_SIZE else cut
  }

  lemma WithinCeiling(size: nat, nodes: nat)
    ensures size <= Ceiling(nodes) <==> size <= 3 || 5 * size <= 2 * nodes
  {
  }

  /** What one community of a graph of so many nodes becomes. One of up to three nodes, or of up to
      two fifths of all, stays; any other is what greedy makes of its own subgraph, if that is more
      than one part. */
  ghost predicate Piece(g: Graph, eps: real, nodes: nat, c: set<Id>, piece: seq<set<Id>>) {
    if |c| <= 3 || 5 * |c| <= 2 * nodes then piece == [c] else
      exists parts :: GreedyParts(Induced(g, c), eps, parts) && piece == if |parts| > 1 then parts else [c]
  }

  function Flatten(pieces: seq<seq<set<Id>>>): seq<set<Id>> {
    if pieces == [] then [] else Flatten(pieces[..|pieces| - 1]) + pieces[|pieces| - 1]
  }

  ghost predicate SplitOf(g: Graph, eps: real, nodes: nat, communities: seq<set<Id>>, out: seq<set<Id>>) {
    exists pieces: seq<seq<set<Id>>> ::
      PiecesOf(g, eps, nodes, communities, pieces) && out == Flatten(pieces)
  }

  ghost predicate PiecesOf(g: Graph, eps: real, nodes: nat, communities: seq<set<Id>>, pieces: seq<seq<set<Id>>>) {
    Aligned(communities, pieces, PieceOf(g, eps, nodes))
  }

  ghost function PieceOf(g: Graph, eps: real, nodes: nat): (set<Id>, seq<set<Id>>) -> bool {
    (c: set<Id>, piece: seq<set<Id>>) => Piece(g, eps, nodes, c, piece)
  }

  ghost predicate Aligned<A(!new), B(!new)>(a: seq<A>, b: seq<B>, related: (A, B) -> bool) {
    |a| == |b| && forall k :: 0 <= k < |b| ==> related(a[k], b[k])
  }

  lemma AlignedNext<A(!new), B(!new)>(a: seq<A>, k: nat, b: seq<B>, y: B, related: (A, B) -> bool)
    requires k < |a| && Aligned(a[..k], b, related) && related(a[k], y)
    ensures Aligned(a[..k + 1], b + [y], related)
  {
    var more, longer := a[..k + 1], b + [y];
    forall j | 0 <= j < |longer|
      ensures related(more[j], longer[j])
    {
      if j < k {
        assert more[j] == a[..k][j] && longer[j] == b[j];
      }
    }
  }

  /** `_split_oversized` */
  method SplitOversized(communities: seq<set<Id>>, adjacency: Graph, totalNodes: nat, eps: real)
    returns (out: seq<set<Id>>)
    requires Undirected(adjacency) && eps >= 0.0
    requires forall k :: 0 <= k < |communities| ==> communities[k] <= adjacency.Keys
    ensures SplitOf(adjacency, eps, totalNodes, communities, out)
  {
    var ceiling := Ceiling(totalNodes);
    out := [];
    ghost var pieces: seq<seq<set<Id>>> := [];
    for k := 0 to |communities|
      invariant PiecesOf(adjacency, eps, totalNodes, communities[..k], pieces)
      invariant out == Flatten(pieces)
    {
      var piece := SplitOne(communities[k], adjacency, ceiling, eps, totalNodes);
      out := out + piece;
      AddPiece(adjacency, eps, totalNodes, communities, k, pieces, piece);
      FlattenAppend(pieces, piece);
      pieces := pieces + [piece];
    }
    assert communities[..|communities|] == communities;
  }

  method SplitOne(community: set<Id>, adjacency: Graph, ceiling: nat, eps: real, ghost nodes: nat)
    returns (piece: seq<set<Id>>)
    requires Undirected(adjacency) && eps >= 0.0 && ceiling == Ceiling(nodes)
    ensures Piece(adjacency, eps, nodes, community, piece)
  {
    WithinCeiling(|community|, nodes);
    if |community| <= ceiling {
      return [community];
    }
    InducedUndirected(adjacency, community);
    var parts := GreedyModularity(Induced(adjacency, community), eps);
    piece := if |parts| > 1 then parts else [community];
  }

  lemma AddPiece(g: Graph, eps: real, nodes: nat, communities: seq<set<Id>>, k: nat,
                 pieces: seq<seq<set<Id>>>, piece: seq<set<Id>>)
    requires k < |communities|
    requires PiecesOf(g, eps, nodes, communities[..k], pieces)
    requires Piece(g, eps, nodes, communities[k], piece)
    ensures PiecesOf(g, eps, nodes, communities[..k + 1], pieces + [piece])
  {
    AlignedNext(communities, k, pieces, piece, PieceOf(g, eps, nodes));
  }

  lemma FlattenAppend(pieces: seq<seq<set<Id>>>, piece: seq<set<Id>>)
    ensures Flatten(pieces + [piece]) == Flatten(pieces) + piece
  {
    assert (pieces + [piece])[..|pieces|] == pieces;
  }

  lemma PiecePartitions(g: Graph, eps: real, nodes: nat, c: set<Id>, piece: seq<set<Id>>)
    requires Piece(g, eps, nodes, c, piece)
    requires c != {} && c <= g.Keys
    ensures Partitions(piece, c)
  {
    if piece == [c] {
      WholePartitions(c);
    } else {
      InducedParts(g, eps, c, piece);
    }
  }

  lemma InducedParts(g: Graph, eps: real, c: set<Id>, parts: seq<set<Id>>)
    requires c <= g.Keys && GreedyParts(Induced(g, c), eps, parts)
    ensures Partitions(parts, c)
  {
    GreedyPartition(Induced(g, c), eps, parts);
    assert Induced(g, c).Keys == c;
  }

  lemma WholePartitions(c: set<Id>)
    requires c != {}
    ensures Partitions([c], c)
  {
    assert [c][0] == c;
  }

  /** Flattening partitions of the parts of a partition gives a finer partition. */
  lemma {:induction false} FlattenRefines(communities: seq<set<Id>>, pieces: seq<seq<set<Id>>>)
    requires |pieces| == |communities| && Disjoint(communities)
    requires forall k :: 0 <= k < |pieces| ==> Partitions(pieces[k], communities[k])
    ensures Disjoint(Flatten(pieces))
    ensures forall i :: 0 <= i < |Flatten(pieces)| ==>
              Flatten(pieces)[i] != {} && Inside(Flatten(pieces)[i], communities)
    ensures forall k, x :: 0 <= k < |communities| && x in communities[k] ==> Listed(x, Flatten(pieces))
    decreases |pieces|
  {
    if pieces != [] {
      var n := |pieces| - 1;
      var before, last := Flatten(pieces[..n]), pieces[n];
      FlattenRefines(communities[..n], pieces[..n]);
      forall i | 0 <= i < |before|
        ensures Inside(before[i], communities)
      {
        var k :| 0 <= k < n && before[i] <= communities[..n][k];
        assert before[i] <= communities[k];
      }
      forall i, j | 0 <= i < |before| && 0 <= j < |last|
        ensures before[i] !! last[j]
      {
        var k :| 0 <= k < n && before[i] <= communities[..n][k];
        assert communities[k] !! communities[n] && last[j] <= communities[n];
      }
      forall k, x | 0 <= k < |communities| && x in communities[k]
        ensures Listed(x, before + last)
      {
        if k < n {
          assert x in communities[..n][k];
          ListedLeft(x, before, last);
        } else {
          ListedRight(x, before, last);
        }
      }
      forall i | 0 <= i < |last|
        ensures Inside(last[i], communities)
      {
        assert last[i] <= communities[n];
      }
    }
  }

  lemma ListedLeft(x: Id, a: seq<set<Id>>, b: seq<set<Id>>)
    requires Listed(x, a)
    ensures Listed(x, a + b)
  {
    var k :| 0 <= k < |a| && x in a[k];
    assert x in (a + b)[k];
  }

  lemma ListedRight(x: Id, a: seq<set<Id>>, b: seq<set<Id>>)
    requires Listed(x, b)
    ensures Listed(x, a + b)
  {
    var k :| 0 <= k < |b| && x in b[k];
    assert x in (a + b)[|a| + k];
  }

  /** The split is again a partition of the same nodes, and refines the one it was given. */
  lemma SplitRefines(g: Graph, eps: real, total: nat, communities: seq<set<Id>>, out: seq<set<Id>>, nodes: set<Id>)
    requires nodes <= g.Keys && Partitions(communities, nodes)
    requires SplitOf(g, eps, total, communities, out)
    ensures Partitions(out, nodes)
    ensures forall i :: 0 <= i < |out| ==> Inside(out[i], communities)
  {
    var pieces :| PiecesOf(g, eps, total, communities, pieces) && out == Flatten(pieces);
    forall k | 0 <= k < |pieces|
      ensures Partitions(pieces[k], communities[k])
    {
      assert Piece(g, eps, total, communities[k], pieces[k]);
      PiecePartitions(g, eps, total, communities[k], pieces[k]);
    }
    FlattenRefines(communities, pieces);
    forall x | x in nodes
      ensures Listed(x, out)
    {
      var k :| 0 <= k < |communities| && x in communities[k];
    }
    forall i | 0 <= i < |out|
      ensures out[i] <= nodes
    {
      assert Inside(out[i], communities);
    }
  }

  // ----- Absorbing -----

  predicate Surviving(c: set<Id>) {
    |c| >= 3
  }

  function Survivors(communities: seq<set<Id>>): (s: seq<set<Id>>)
    ensures SurvivorsOf(communities, s)
  {
    if communities == [] then [] else
      var rest := Survivors(communities[1..]);
      if |communities[0]| >= MIN_AREA_SIZE then [communities[0]] + rest else rest
  }

  ghost predicate SurvivorsOf(communities: seq<set<Id>>, s: seq<set<Id>>) {
    && (forall k :: 0 <= k < |s| ==> Surviving(s[k]) && s[k] in communities)
    && (forall k :: 0 <= k < |communities| && Surviving(communities[k]) ==> communities[k] in s)
  }

  /** The surviving community a node is in; the last one that claims it. */
  function HomeOf(survivors: seq<set<Id>>): (home: map<Id, nat>)
    ensures HomesIn(survivors, home)
  {
    if survivors == [] then map[] else
      var n := |survivors| - 1;
      var before := HomeOf(survivors[..n]);
      assert forall x :: x in before ==> x in survivors[..n][before[x]];
      assert forall x, k :: 0 <= k < n && x in survivors[k] ==> x in survivors[..n][k];
      before + map x | x in survivors[n] :: n
  }

  ghost predicate HomesIn(survivors: seq<set<Id>>, home: map<Id, nat>) {
    && (forall x :: x in home ==> home[x] < |survivors| && x in survivors[home[x]])
    && (forall x, k :: 0 <= k < |survivors| && x in survivors[k] ==> x in home && k <= home[x])
  }

  /** `n` is the strongest neighbour that has a home: positive weight, no heavier one, and
      the lowest id among equals. */
  ghost predicate Strongest(row: Row, home: map<Id, nat>, n: Id) {
    && n in row && n in home && row[n] > 0.0
    && forall o :: o in row && o in home ==> row[o] < row[n] || (row[o] == row[n] && n <= o)
  }

  ghost predicate JoinsAt(adjacency: Graph, home: map<Id, nat>, node: Id, at: nat) {
    node in adjacency && exists n :: Strongest(adjacency[node], home, n) && home[n] == at
  }

  ghost predicate Small(communities: seq<set<Id>>, node: Id) {
    exists k :: 0 <= k < |communities| && !Surviving(communities[k]) && node in communities[k]
  }

  /** The undersized nodes that go to survivor `at`. */
  ghost function Joiners(communities: seq<set<Id>>, adjacency: Graph, home: map<Id, nat>, at: nat): set<Id> {
    set x | x in adjacency && Small(communities, x) && JoinsAt(adjacency, home, x, at)
  }

  /** What absorption returns: each survivor with the undersized nodes that join it. */
  ghost predicate AbsorbedInto(communities: seq<set<Id>>, adjacency: Graph, out: seq<set<Id>>) {
    var survivors := Survivors(communities);
    Absorbed(communities, survivors, HomeOf(survivors), adjacency, out)
  }

  ghost predicate Absorbed(communities: seq<set<Id>>, survivors: seq<set<Id>>, home: map<Id, nat>,
                           adjacency: Graph, out: seq<set<Id>>) {
    && |out| == |survivors|
    && forall i :: 0 <= i < |out| ==> out[i] == survivors[i] + Joiners(communities, adjacency, home, i)
  }

  /** `n` is strongest among the neighbours in `seen`. */
  ghost predicate StrongestIn(row: Row, home: map<Id, nat>, seen: set<Id>, n: Id) {
    && n in seen && n in row && n in home && row[n] > 0.0
    && forall o :: o in seen && o in row && o in home ==> row[o] < row[n] || (row[o] == row[n] && n <= o)
  }

  ghost predicate NothingIn(row: Row, home: map<Id, nat>, seen: set<Id>) {
    forall n :: n in seen && n in row && n in home ==> row[n] <= 0.0
  }

  /** Lines 166-172: scanning the row in id order keeps the first of the heaviest. */
  method StrongestHome(row: Row, home: map<Id, nat>) returns (best: Option<nat>)
    ensures best.Some? ==> exists n :: Strongest(row, home, n) && home[n] == best.value
    ensures best.None? ==> NothingIn(row, home, row.Keys)
  {
    best := None;
    var bestWeight := 0.0;
    var neighbours := Sorted(row.Keys);
    ghost var bestAt: Id := 0;
    assert FirstOf(neighbours, 0) == {};
    for i := 0 to |neighbours|
      invariant ScanOk(row, home, FirstOf(neighbours, i), best, bestWeight, bestAt)
    {
      var neighbour := neighbours[i];
      assert neighbour in neighbours;
      var weight := row[neighbour];
      NextOf(neighbours, i);
      FirstBelow(neighbours, i);
      ScanNext(row, home, FirstOf(neighbours, i), best, bestWeight, bestAt, neighbour);
      if neighbour !in home || weight <= bestWeight {
        continue;
      }
      best, bestWeight, bestAt := Some(home[neighbour]), weight, neighbour;
    }
    AllOf(row.Keys);
    ScanDone(row, home, row.Keys, best, bestWeight, bestAt);
  }

  lemma FirstBelow(neighbours: seq<Id>, i: nat)
    requires Increasing(neighbours) && i < |neighbours|
    ensures forall o :: o in FirstOf(neighbours, i) ==> o < neighbours[i]
  {
  }

  /** After the neighbours in `seen`: nothing yet, or the strongest of them and its home. */
  ghost predicate ScanOk(row: Row, home: map<Id, nat>, seen: set<Id>, best: Option<nat>, bestWeight: real, bestAt: Id) {
    if best.None? then bestWeight == 0.0 && NothingIn(row, home, seen) else
      && StrongestIn(row, home, seen, bestAt)
      && home[bestAt] == best.value && row[bestAt] == bestWeight
  }

  lemma ScanNext(row: Row, home: map<Id, nat>, seen: set<Id>, best: Option<nat>, bestWeight: real, bestAt: Id, next: Id)
    requires ScanOk(row, home, seen, best, bestWeight, bestAt)
    requires next in row && forall o :: o in seen ==> o < next
    ensures if next !in home || row[next] <= bestWeight
            then ScanOk(row, home, seen + {next}, best, bestWeight, bestAt)
            else ScanOk(row, home, seen + {next}, Some(home[next]), row[next], next)
  {
  }

  lemma ScanDone(row: Row, home: map<Id, nat>, seen: set<Id>, best: Option<nat>, bestWeight: real, bestAt: Id)
    requires ScanOk(row, home, seen, best, bestWeight, bestAt)
    requires forall n :: n in row ==> n in seen
    ensures best.Some? ==> Strongest(row, home, bestAt) && home[bestAt] == best.value
    ensures best.None? ==> NothingIn(row, home, row.Keys)
  {
  }

  lemma StrongestUnique(row: Row, home: map<Id, nat>, n: Id, n': Id)
    requires Strongest(row, home, n) && Strongest(row, home, n')
    ensures n == n'
  {
  }

  /** Lines 156-159: every member of survivor `index` is at home there. */
  method FindHomes(survivors: seq<set<Id>>) returns (home: map<Id, nat>)
    ensures home == HomeOf(survivors)
  {
    home := map[];
    for index := 0 to |survivors|
      invariant home == HomeOf(survivors[..index])
    {
      home := SetHomes(home, survivors[index], index);
      assert survivors[..index + 1][..index] == survivors[..index];
    }
    assert survivors[..|survivors|] == survivors;
  }

  method SetHomes(home0: map<Id, nat>, community: set<Id>, index: nat) returns (home: map<Id, nat>)
    ensures home == home0 + map x | x in community :: index
  {
    home := home0;
    var todo := community;
    while todo != {}
      invariant todo <= community
      invariant home == home0 + map x | x in community - todo :: index
      decreases |todo|
    {
      ghost var _ := Pick(todo);
      var node :| node in todo;
      home := home[node := index];
      todo := todo - {node};
    }
    assert community - todo == community;
  }

  type Additions = map<nat, set<Id>>

  /** Of the nodes in `done`, each is added exactly where it joins. */
  ghost predicate Added(additions: Additions, adjacency: Graph, home: map<Id, nat>, done: set<Id>) {
    forall i: nat, x ::
      (i in additions && x in additions[i]) <==> (x in done && JoinsAt(adjacency, home, x, i))
  }

  method AddNode(additions0: Additions, adjacency: Graph, home: map<Id, nat>, node: Id, ghost done: set<Id>)
    returns (additions: Additions)
    requires node in adjacency && Added(additions0, adjacency, home, done)
    ensures Added(additions, adjacency, home, done + {node})
  {
    additions := additions0;
    var best := StrongestHome(adjacency[node], home);
    if best.Some? {
      var at := best.value;
      additions := additions[at := (if at in additions then additions[at] else {}) + {node}];
      JoinsOnce(adjacency, home, node, at);
    } else {
      JoinsNowhere(adjacency, home, node);
    }
  }

  lemma JoinsOnce(adjacency: Graph, home: map<Id, nat>, node: Id, at: nat)
    requires JoinsAt(adjacency, home, node, at)
    ensures forall i: nat :: JoinsAt(adjacency, home, node, i) <==> i == at
  {
    var n :| Strongest(adjacency[node], home, n) && home[n] == at;
    forall i: nat | JoinsAt(adjacency, home, node, i)
      ensures i == at
    {
      var n' :| Strongest(adjacency[node], home, n') && home[n'] == i;
      StrongestUnique(adjacency[node], home, n, n');
    }
  }

  lemma JoinsNowhere(adjacency: Graph, home: map<Id, nat>, node: Id)
    requires node in adjacency && NothingIn(adjacency[node], home, adjacency[node].Keys)
    ensures forall i: nat :: !JoinsAt(adjacency, home, node, i)
  {
  }

  method AddCommunity(additions0: Additions, adjacency: Graph, home: map<Id, nat>, community: set<Id>,
                      ghost done: set<Id>)
    returns (additions: Additions)
    requires community <= adjacency.Keys && Added(additions0, adjacency, home, done)
    ensures Added(additions, adjacency, home, done + community)
  {
    additions := additions0;
    var nodes := Sorted(community);
    ghost var now := done;
    for i := 0 to |nodes|
      invariant now == done + set k | 0 <= k < i :: nodes[k]
      invariant Added(additions, adjacency, home, now)
    {
      assert nodes[i] in nodes;
      additions := AddNode(additions, adjacency, home, nodes[i], now);
      now := now + {nodes[i]};
    }
    assert forall x :: x in community ==> x in nodes;
    assert forall k :: 0 <= k < |nodes| ==> nodes[k] in nodes;
    assert now == done + community;
  }

  /** `_absorb_small` */
  method AbsorbSmall(communities: seq<set<Id>>, adjacency: Graph) returns (out: seq<set<Id>>)
    requires forall k :: 0 <= k < |communities| ==> communities[k] <= adjacency.Keys
    ensures AbsorbedInto(communities, adjacency, out)
  {
    var survivors := Survivors(communities);
    if survivors == [] {
      return [];
    }
    var home := FindHomes(survivors);
    var additions := AddSmall(communities, adjacency, home);
    out := seq(|survivors|, i requires 0 <= i < |survivors| =>
      survivors[i] + if i in additions then additions[i] else {});
    forall i | 0 <= i < |out|
      ensures out[i] == survivors[i] + Joiners(communities, adjacency, home, i)
    {
      AdditionsAre(communities, adjacency, home, additions, i);
    }
  }

  /** Lines 161-174 */
  method AddSmall(communities: seq<set<Id>>, adjacency: Graph, home: map<Id, nat>) returns (additions: Additions)
    requires forall k :: 0 <= k < |communities| ==> communities[k] <= adjacency.Keys
    ensures Added(additions, adjacency, home, SmallNodes(communities, adjacency))
  {
    additions := map[];
    ghost var done: set<Id> := {};
    for k := 0 to |communities|
      invariant done == SmallNodes(communities[..k], adjacency)
      invariant Added(additions, adjacency, home, done)
    {
      var community := communities[k];
      SmallNext(communities, adjacency, k);
      if |community| >= MIN_AREA_SIZE {
        continue;
      }
      additions := AddCommunity(additions, adjacency, home, community, done);
      done := done + community;
    }
    assert communities[..|communities|] == communities;
  }

  ghost function SmallNodes(communities: seq<set<Id>>, adjacency: Graph): set<Id> {
    set x | x in adjacency && Small(communities, x)
  }

  lemma AdditionsAre(communities: seq<set<Id>>, adjacency: Graph, home: map<Id, nat>, additions: Additions, i: nat)
    requires Added(additions, adjacency, home, SmallNodes(communities, adjacency))
    ensures (if i in additions then additions[i] else {}) == Joiners(communities, adjacency, home, i)
  {
    var joiners := Joiners(communities, adjacency, home, i);
    var added := if i in additions then additions[i] else {};
    forall x
      ensures x in joiners <==> x in added
    {
      assert (x in SmallNodes(communities, adjacency) && JoinsAt(adjacency, home, x, i)) <==>
        (i in additions && x in additions[i]);
    }
  }

  lemma SmallNext(communities: seq<set<Id>>, g: Graph, k: nat)
    requires k < |communities| && communities[k] <= g.Keys
    ensures SmallNodes(communities[..k + 1], g) ==
      SmallNodes(communities[..k], g) + if Surviving(communities[k]) then {} else communities[k]
  {
    forall x
      ensures Small(communities[..k + 1], x) <==>
        Small(communities[..k], x) || (!Surviving(communities[k]) && x in communities[k])
    {
      if Small(communities[..k], x) {
        var j :| 0 <= j < k && !Surviving(communities[..k][j]) && x in communities[..k][j];
        assert communities[..k + 1][j] == communities[j];
      }
      if !Surviving(communities[k]) && x in communities[k] {
        assert communities[..k + 1][k] == communities[k];
      }
      if Small(communities[..k + 1], x) {
        var j :| 0 <= j <= k && !Surviving(communities[..k + 1][j]) && x in communities[..k + 1][j];
        assert j < k ==> communities[..k][j] == communities[j];
      }
    }
  }

  // ----- What absorption leaves -----

  lemma {:induction false} SurvivorsDisjoint(communities: seq<set<Id>>)
    requires Disjoint(communities)
    ensures Disjoint(Survivors(communities))
    decreases |communities|
  {
    if communities != [] {
      SurvivorsDisjoint(communities[1..]);
      forall c | c in Survivors(communities[1..])
        ensures c !! communities[0]
      {
        assert c in communities[1..];
      }
    }
  }

  lemma SameCommunity(communities: seq<set<Id>>, j: nat, k: nat, x: Id)
    requires Disjoint(communities)
    requires j < |communities| && k < |communities| && x in communities[j] && x in communities[k]
    ensures j == k
  {
  }

  /** A node of a partition lies in a survivor or in an undersized community, never both. */
  lemma SmallOrAtHome(communities: seq<set<Id>>, survivors: seq<set<Id>>, home: map<Id, nat>, k: nat, x: Id)
    requires Disjoint(communities) && SurvivorsOf(communities, survivors) && HomesIn(survivors, home)
    requires k < |communities| && x in communities[k]
    ensures Small(communities, x) <==> !Surviving(communities[k])
    ensures x in home <==> Surviving(communities[k])
  {
    if Small(communities, x) {
      var j :| 0 <= j < |communities| && !Surviving(communities[j]) && x in communities[j];
      SameCommunity(communities, j, k, x);
    }
    if x in home {
      assert survivors[home[x]] in communities;
      var j :| 0 <= j < |communities| && communities[j] == survivors[home[x]];
      SameCommunity(communities, j, k, x);
    }
    if Surviving(communities[k]) {
      var i :| 0 <= i < |survivors| && survivors[i] == communities[k];
      assert x in survivors[i];
    }
  }

  ghost predicate HasPullToSurvivor(communities: seq<set<Id>>, g: Graph, x: Id) {
    x in g && exists n :: Pulls(communities, g, x, n)
  }

  ghost predicate Pulls(communities: seq<set<Id>>, g: Graph, x: Id, n: Id)
    requires x in g
  {
    n in g[x] && g[x][n] > 0.0 && exists k :: 0 <= k < |communities| && Surviving(communities[k]) && n in communities[k]
  }

  /** Absorption of a partition: the areas are pairwise disjoint, hold at least three nodes
      and each its survivor whole; a node is in some area unless it is undersized and no
      edge of positive weight joins it to a survivor. Where an undersized node goes is what
      `Joiners` says: to its strongest surviving neighbour. */
  lemma AbsorbedAreas(communities: seq<set<Id>>, g: Graph, out: seq<set<Id>>, nodes: set<Id>)
    requires nodes <= g.Keys && Partitions(communities, nodes)
    requires AbsorbedInto(communities, g, out)
    ensures Disjoint(out)
    ensures forall i :: 0 <= i < |out| ==> Survivors(communities)[i] <= out[i] <= nodes && |out[i]| >= 3
    ensures forall x :: x in nodes ==>
      (Listed(x, out) <==> !Small(communities, x) || HasPullToSurvivor(communities, g, x))
  {
    var survivors := Survivors(communities);
    var home := HomeOf(survivors);
    SurvivorsDisjoint(communities);
    forall i | 0 <= i < |out|
      ensures survivors[i] <= out[i] <= nodes && |out[i]| >= 3
    {
      AbsorbedArea(communities, survivors, home, g, out, nodes, i);
    }
    forall i, j | 0 <= i < j < |out|
      ensures out[i] !! out[j]
    {
      AbsorbedApart(communities, survivors, home, g, out, i, j);
    }
    forall x | x in nodes
      ensures Listed(x, out) <==> !Small(communities, x) || HasPullToSurvivor(communities, g, x)
    {
      AbsorbedIff(communities, survivors, home, g, out, x);
    }
  }

  lemma AbsorbedArea(communities: seq<set<Id>>, survivors: seq<set<Id>>, home: map<Id, nat>,
                     g: Graph, out: seq<set<Id>>, nodes: set<Id>, i: nat)
    requires Partitions(communities, nodes) && SurvivorsOf(communities, survivors)
    requires Absorbed(communities, survivors, home, g, out) && i < |out|
    ensures survivors[i] <= out[i] <= nodes && |out[i]| >= 3
  {
    assert survivors[i] in communities;
    SubsetNoLarger(survivors[i], out[i]);
    forall x | x in Joiners(communities, g, home, i)
      ensures x in nodes
    {
      var k :| 0 <= k < |communities| && !Surviving(communities[k]) && x in communities[k];
      assert communities[k] <= nodes;
    }
  }

  lemma AbsorbedApart(communities: seq<set<Id>>, survivors: seq<set<Id>>, home: map<Id, nat>,
                      g: Graph, out: seq<set<Id>>, i: nat, j: nat)
    requires Disjoint(communities) && SurvivorsOf(communities, survivors) && HomesIn(survivors, home)
    requires Disjoint(survivors)
    requires Absorbed(communities, survivors, home, g, out) && i < j < |out|
    ensures out[i] !! out[j]
  {
    JoinersApart(communities, g, home, i, j);
    JoinersAway(communities, survivors, home, g, i, j);
    JoinersAway(communities, survivors, home, g, j, i);
    assert survivors[i] !! survivors[j];
  }

  lemma JoinersApart(communities: seq<set<Id>>, g: Graph, home: map<Id, nat>, i: nat, j: nat)
    requires i != j
    ensures Joiners(communities, g, home, i) !! Joiners(communities, g, home, j)
  {
    forall x | x in Joiners(communities, g, home, i)
      ensures x !in Joiners(communities, g, home, j)
    {
      JoinsOnce(g, home, x, i);
    }
  }

  lemma JoinersAway(communities: seq<set<Id>>, survivors: seq<set<Id>>, home: map<Id, nat>, g: Graph, i: nat, j: nat)
    requires Disjoint(communities) && SurvivorsOf(communities, survivors) && HomesIn(survivors, home)
    requires j < |survivors|
    ensures Joiners(communities, g, home, i) !! survivors[j]
  {
    forall x | x in Joiners(communities, g, home, i)
      ensures x !in survivors[j]
    {
      var k :| 0 <= k < |communities| && !Surviving(communities[k]) && x in communities[k];
      SmallOrAtHome(communities, survivors, home, k, x);
    }
  }

  lemma AbsorbedIff(communities: seq<set<Id>>, survivors: seq<set<Id>>, home: map<Id, nat>,
                    g: Graph, out: seq<set<Id>>, x: Id)
    requires Disjoint(communities) && SurvivorsOf(communities, survivors) && HomesIn(survivors, home)
    requires Absorbed(communities, survivors, home, g, out)
    requires x in g && Listed(x, communities)
    ensures Listed(x, out) <==> !Small(communities, x) || HasPullToSurvivor(communities, g, x)
  {
    var k :| 0 <= k < |communities| && x in communities[k];
    SmallOrAtHome(communities, survivors, home, k, x);
    if x in home {
      assert x in out[home[x]];
    } else {
      ListedIfPulled(communities, survivors, home, g, out, x);
    }
  }

  lemma ListedIfPulled(communities: seq<set<Id>>, survivors: seq<set<Id>>, home: map<Id, nat>,
                       g: Graph, out: seq<set<Id>>, x: Id)
    requires SurvivorsOf(communities, survivors) && HomesIn(survivors, home)
    requires Absorbed(communities, survivors, home, g, out)
    requires x in g && x !in home && Small(communities, x)
    ensures Listed(x, out) <==> HasPullToSurvivor(communities, g, x)
  {
    if HasPullToSurvivor(communities, g, x) {
      var at := PullLeadsHome(communities, survivors, home, g, x);
      JoinsListed(communities, survivors, home, g, out, x, at);
    }
    if Listed(x, out) {
      var at := ListedJoins(communities, survivors, home, g, out, x);
      JoinMeansPull(communities, survivors, home, g, x, at);
    }
  }

  lemma JoinsListed(communities: seq<set<Id>>, survivors: seq<set<Id>>, home: map<Id, nat>,
                    g: Graph, out: seq<set<Id>>, x: Id, at: nat)
    requires Absorbed(communities, survivors, home, g, out)
    requires x in g && Small(communities, x) && at < |survivors| && JoinsAt(g, home, x, at)
    ensures Listed(x, out)
  {
    assert x in Joiners(communities, g, home, at);
    assert x in out[at];
  }

  lemma ListedJoins(communities: seq<set<Id>>, survivors: seq<set<Id>>, home: map<Id, nat>,
                    g: Graph, out: seq<set<Id>>, x: Id) returns (at: nat)
    requires HomesIn(survivors, home) && x !in home
    requires Absorbed(communities, survivors, home, g, out) && Listed(x, out)
    ensures JoinsAt(g, home, x, at)
  {
    at :| 0 <= at < |out| && x in out[at];
    assert x !in survivors[at];
    assert x in Joiners(communities, g, home, at);
  }

  lemma PullLeadsHome(communities: seq<set<Id>>, survivors: seq<set<Id>>, home: map<Id, nat>, g: Graph, x: Id)
    returns (at: nat)
    requires SurvivorsOf(communities, survivors) && HomesIn(survivors, home)
    requires HasPullToSurvivor(communities, g, x)
    ensures at < |survivors| && JoinsAt(g, home, x, at)
  {
    var n :| Pulls(communities, g, x, n);
    var k :| 0 <= k < |communities| && Surviving(communities[k]) && n in communities[k];
    var i :| 0 <= i < |survivors| && survivors[i] == communities[k];
    assert n in survivors[i];
    var s := StrongestExists(g[x], home, g[x].Keys, n);
    at := home[s];
  }

  lemma {:induction false} StrongestExists(row: Row, home: map<Id, nat>, seen: set<Id>, n: Id) returns (s: Id)
    requires n in seen && n in row && n in home && row[n] > 0.0
    ensures StrongestIn(row, home, seen, s)
    decreases |seen|
  {
    s := n;
    if o :| o in seen && o in row && o in home && !(row[o] < row[n] || (row[o] == row[n] && n <= o)) {
      s := StrongestExists(row, home, seen - {n}, o);
    }
  }

  lemma JoinMeansPull(communities: seq<set<Id>>, survivors: seq<set<Id>>, home: map<Id, nat>, g: Graph, x: Id, i: nat)
    requires SurvivorsOf(communities, survivors) && HomesIn(survivors, home)
    requires x in g && JoinsAt(g, home, x, i)
    ensures HasPullToSurvivor(communities, g, x)
  {
    var n :| Strongest(g[x], home, n) && home[n] == i;
    assert survivors[home[n]] in communities;
    var k :| 0 <= k < |communities| && communities[k] == survivors[home[n]];
    assert Pulls(communities, g, x, n);
  }

  // ----- Where everything goes -----

  lemma {:induction false} SurvivorsNext(communities: seq<set<Id>>, c: set<Id>)
    ensures Survivors(communities + [c]) == Survivors(communities) + if Surviving(c) then [c] else []
    decreases |communities|
  {
    if communities == [] {
      assert [c][1..] == [];
    } else {
      SurvivorsNext(communities[1..], c);
      assert (communities + [c])[1..] == communities[1..] + [c];
    }
  }

  /** How many communities of three or more nodes come before this place. */
  ghost function Place(communities: seq<set<Id>>, k: nat): nat
    requires k <= |communities|
  {
    CountOf(communities[..k], (c: set<Id>) => |c| >= 3)
  }

  lemma PlaceStep(communities: seq<set<Id>>, k: nat)
    requires k < |communities|
    ensures Place(communities, k + 1) == Place(communities, k) + if Surviving(communities[k]) then 1 else 0
    ensures Survivors(communities[..k + 1]) ==
              Survivors(communities[..k]) + if Surviving(communities[k]) then [communities[k]] else []
  {
    assert communities[..k + 1] == communities[..k] + [communities[k]];
    SurvivorsNext(communities[..k], communities[k]);
    CountStep(communities, k, (c: set<Id>) => |c| >= 3);
  }

  lemma {:induction false} SurvivorsPlaced(communities: seq<set<Id>>, k: nat)
    requires k <= |communities|
    ensures |Survivors(communities[..k])| == Place(communities, k)
  {
    if k > 0 {
      SurvivorsPlaced(communities, k - 1);
      PlaceStep(communities, k - 1);
    }
  }

  lemma {:induction false} SurvivorInPlace(communities: seq<set<Id>>, j: nat, k: nat)
    requires j < k <= |communities| && Surviving(communities[j])
    ensures Place(communities, j) < |Survivors(communities[..k])|
    ensures Survivors(communities[..k])[Place(communities, j)] == communities[j]
  {
    PlaceStep(communities, k - 1);
    if j == k - 1 {
      SurvivorsPlaced(communities, j);
    } else {
      SurvivorInPlace(communities, j, k - 1);
    }
  }

  /** The areas are the communities of three or more nodes, in the order those were in, each with
      what it absorbed. */
  lemma AreasInPlace(communities: seq<set<Id>>, g: Graph, out: seq<set<Id>>, k: nat)
    requires AbsorbedInto(communities, g, out) && k < |communities|
    ensures |out| == Place(communities, |communities|)
    ensures |communities[k]| >= 3 ==> Place(communities, k) < |out| && communities[k] <= out[Place(communities, k)]
  {
    assert communities[..|communities|] == communities;
    SurvivorsPlaced(communities, |communities|);
    if Surviving(communities[k]) {
      SurvivorInPlace(communities, k, |communities|);
    }
  }

  /** The neighbour in a community of three or more that pulls the hardest, or the lowest of those. */
  ghost predicate PullsHardest(communities: seq<set<Id>>, g: Graph, x: Id, n: Id)
    requires x in g
  {
    && Pulls(communities, g, x, n)
    && forall o :: Pulls(communities, g, x, o) ==> g[x][o] < g[x][n] || (g[x][o] == g[x][n] && n <= o)
  }

  lemma HardestIsStrongest(communities: seq<set<Id>>, survivors: seq<set<Id>>, home: map<Id, nat>, g: Graph,
                           x: Id, n: Id)
    requires SurvivorsOf(communities, survivors) && HomesIn(survivors, home)
    requires x in g && PullsHardest(communities, g, x, n)
    ensures Strongest(g[x], home, n)
  {
    var k :| 0 <= k < |communities| && Surviving(communities[k]) && n in communities[k];
    var i :| 0 <= i < |survivors| && survivors[i] == communities[k];
    assert n in survivors[i];
    forall o | o in g[x] && o in home
      ensures g[x][o] < g[x][n] || (g[x][o] == g[x][n] && n <= o)
    {
      if g[x][o] > 0.0 {
        assert survivors[home[o]] in communities;
        var j :| 0 <= j < |communities| && communities[j] == survivors[home[o]];
        assert Pulls(communities, g, x, o);
      }
    }
  }

  /** A node at home is in the area that grew from its community, and in no other. */
  lemma HomeHolds(communities: seq<set<Id>>, survivors: seq<set<Id>>, home: map<Id, nat>, g: Graph,
                  out: seq<set<Id>>, n: Id, i: nat)
    requires Disjoint(communities) && SurvivorsOf(communities, survivors) && HomesIn(survivors, home)
    requires Disjoint(survivors) && Absorbed(communities, survivors, home, g, out)
    requires n in home && i < |out|
    ensures n in out[i] <==> i == home[n]
  {
    JoinersAway(communities, survivors, home, g, i, home[n]);
    assert i != home[n] ==> survivors[i] !! survivors[home[n]];
  }

  /** And a node that joins it there is in no other either. */
  lemma JoinerHeld(communities: seq<set<Id>>, survivors: seq<set<Id>>, home: map<Id, nat>, g: Graph,
                   out: seq<set<Id>>, x: Id, at: nat, i: nat)
    requires HomesIn(survivors, home) && Absorbed(communities, survivors, home, g, out)
    requires x in g && x !in home && Small(communities, x) && JoinsAt(g, home, x, at) && i < |out|
    ensures x in out[i] <==> i == at
  {
    JoinsOnce(g, home, x, at);
    assert x !in survivors[i];
  }

  /** An undersized node ends up in the area of the neighbour that pulls it the hardest, and in no
      other. */
  lemma AbsorbedByStrongest(communities: seq<set<Id>>, g: Graph, out: seq<set<Id>>, nodes: set<Id>, x: Id, n: Id)
    requires nodes <= g.Keys && Partitions(communities, nodes) && AbsorbedInto(communities, g, out)
    requires x in nodes && (exists k :: 0 <= k < |communities| && |communities[k]| < 3 && x in communities[k])
    requires PullsHardest(communities, g, x, n)
    ensures Listed(n, out) && forall i :: 0 <= i < |out| ==> (x in out[i] <==> n in out[i])
  {
    var survivors := Survivors(communities);
    var home := HomeOf(survivors);
    SurvivorsDisjoint(communities);
    HardestIsStrongest(communities, survivors, home, g, x, n);
    var k :| 0 <= k < |communities| && |communities[k]| < 3 && x in communities[k];
    SmallOrAtHome(communities, survivors, home, k, x);
    HomeHolds(communities, survivors, home, g, out, n, home[n]);
    forall i | 0 <= i < |out|
      ensures x in out[i] <==> n in out[i]
    {
      HomeHolds(communities, survivors, home, g, out, n, i);
      JoinerHeld(communities, survivors, home, g, out, x, home[n], i);
    }
  }
}
