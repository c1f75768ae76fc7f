/** research_team/curriculum/application/area_projection.py and the value objects of
    research_team/curriculum/domain/learning_area.py: communities become named areas. */
module AreaProjection {
  import opened Wrappers
  import opened Reals
  import opened Sums
  import opened Graphs
  import opened Orders
  import opened Sorting
  import opened Counting
  import opened Partitioning
  import opened AreaClustering
  import opened AreaRefinement
  import opened AreaGraph
  import opened Slugs

  const MAX_ANCHOR_SCAN := 5
  const MAX_CLUSTERED_ENTITIES := 5000

  /** `year` stands for what the code parses out of the rendered date, if anything. */
  datatype Entity = Entity(id: Id, name: string, entityType: string, year: Option<int>)

  datatype Member = Member(id: Id, name: string, entityType: string, centrality: real, year: Option<int>)

  datatype Area = Area(slug: string, members: seq<Member>, title: Option<string>)

  datatype Projection = Projection(
    areas: seq<Area>, entityCount: nat, relationshipCount: nat, coMentionCount: nat,
    semanticCount: nat, usedEmbeddings: bool)

  datatype Outcome = Projected(projection: Projection) | GraphTooLarge

  /** The text functions the projection leans on: deterministic, and otherwise unknown. */
  datatype Texts = Texts(slugify: (string, string) -> string, clauseShaped: string -> bool, shortId: Id -> string)

  // ----- The anchor -----

  predicate MoreCentral(a: Member, b: Member) {
    a.centrality > b.centrality || (a.centrality == b.centrality && a.id < b.id)
  }

  /** Line 239: most central first, ties on id. */
  function Ranked(members: seq<Member>): seq<Member> {
    SortBy(members, MoreCentral)
  }

  /** Ranking is a matter of the members alone: a permutation of them, nowhere out of order. */
  lemma RankedRanks(members: seq<Member>)
    requires forall i, j :: 0 <= i < j < |members| ==> members[i].id != members[j].id
    ensures multiset(Ranked(members)) == multiset(members)
    ensures forall i, j :: 0 <= i < j < |members| ==> MoreCentral(Ranked(members)[i], Ranked(members)[j])
  {
    SortElements(members, MoreCentral);
    forall x, y | x in members && y in members && x != y
      ensures MoreCentral(x, y) || MoreCentral(y, x)
    {
      var i :| 0 <= i < |members| && members[i] == x;
      var j :| 0 <= j < |members| && members[j] == y;
    }
    SortStrict(members, MoreCentral);
  }

  /** `_naming_anchor`, over members already ranked. */
  method NamingAnchor(ranked: seq<Member>, clauseShaped: string -> bool) returns (anchor: Option<Member>)
    ensures anchor.None? <==> ranked == []
    ensures anchor.Some? ==> IsAnchor(ranked, clauseShaped, anchor.value)
  {
    if ranked == [] {
      return None;
    }
    var scan := if |ranked| < MAX_ANCHOR_SCAN then |ranked| else MAX_ANCHOR_SCAN;
    for i := 0 to scan
      invariant forall k :: 0 <= k < i ==> clauseShaped(ranked[k].name)
    {
      if !clauseShaped(ranked[i].name) {
        return Some(ranked[i]);
      }
    }
    return Some(ranked[0]);
  }

  /** The first of the leading few whose name is no clause, or the very first. */
  ghost predicate IsAnchor(ranked: seq<Member>, clauseShaped: string -> bool, m: Member)
    requires ranked != []
  {
    || (exists i :: 0 <= i < |ranked| && i < 5 && FirstTidy(ranked, clauseShaped, i) && ranked[i] == m)
    || (m == ranked[0] && forall k :: 0 <= k < |ranked| && k < 5 ==> clauseShaped(ranked[k].name))
  }

  ghost predicate FirstTidy(ranked: seq<Member>, clauseShaped: string -> bool, i: nat)
    requires i < |ranked|
  {
    !clauseShaped(ranked[i].name) && forall k :: 0 <= k < i ==> clauseShaped(ranked[k].name)
  }

  // ----- One area -----

  /** Weight from a node into its own community. */
  ghost function Centrality(g: Graph, community: set<Id>, node: Id): real {
    Sum(community, WeightsFrom(g, node))
  }

  method CentralityOf(g: Graph, community: set<Id>, node: Id) returns (c: real)
    requires node in g
    ensures c == Centrality(g, community, node)
  {
    var row := map n | n in g[node] && n in community :: g[node][n];
    c := SumValues(row);
    SumAgree(row.Keys, ValuesOf(row), WeightsFrom(g, node));
    SumSupport(row.Keys, community, WeightsFrom(g, node));
  }

  function MemberOf(byId: map<Id, Entity>, node: Id, centrality: real): Member
    requires node in byId
  {
    var e := byId[node];
    Member(node, e.name, e.entityType, centrality, e.year)
  }

  /** The community's nodes in id order, each with what it is and how central it is here. */
  ghost predicate MembersOf(g: Graph, byId: map<Id, Entity>, community: set<Id>, members: seq<Member>) {
    && |members| == |community|
    && forall k :: 0 <= k < |members| ==>
      && members[k].id == Sorted(community)[k] && members[k].id in byId
      && members[k] == MemberOf(byId, members[k].id, RoundedTo6(Centrality(g, community, members[k].id)))
  }

  method CollectMembers(g: Graph, byId: map<Id, Entity>, community: set<Id>) returns (members: seq<Member>)
    requires community <= g.Keys && community <= byId.Keys
    ensures MembersOf(g, byId, community, members)
  {
    members := [];
    var nodes := Sorted(community);
    for k := 0 to |nodes|
      invariant |members| == k
      invariant forall j :: 0 <= j < k ==>
        && members[j].id == nodes[j] && members[j].id in byId
        && members[j] == MemberOf(byId, members[j].id, RoundedTo6(Centrality(g, community, members[j].id)))
    {
      assert nodes[k] in nodes;
      var c := CentralityOf(g, community, nodes[k]);
      members := members + [MemberOf(byId, nodes[k], RoundedTo6(c))];
    }
  }

  lemma MembersApart(g: Graph, byId: map<Id, Entity>, community: set<Id>, members: seq<Member>)
    requires MembersOf(g, byId, community, members)
    ensures forall i, j :: 0 <= i < j < |members| ==> members[i].id != members[j].id
    ensures forall m :: m in members ==> m.centrality == RoundedTo6(Centrality(g, community, m.id))
  {
  }

  /** Of two members the one ranked first weighs more into the community, or the two weigh the
      same to six places and its id is the lower. */
  lemma RankedByWeight(g: Graph, byId: map<Id, Entity>, community: set<Id>, members: seq<Member>, i: nat, j: nat)
    requires MembersOf(g, byId, community, members) && i < j < |members|
    ensures var a, b := Ranked(members)[i].id, Ranked(members)[j].id;
      var x, y := Centrality(g, community, a), Centrality(g, community, b);
      (x > y && RoundedTo6(x) > RoundedTo6(y)) || (RoundedTo6(x) == RoundedTo6(y) && a < b)
  {
    MembersApart(g, byId, community, members);
    RankedRanks(members);
    var a, b := Ranked(members)[i], Ranked(members)[j];
    assert a in multiset(Ranked(members)) && b in multiset(Ranked(members));
    var x, y := Centrality(g, community, a.id), Centrality(g, community, b.id);
    if x <= y {
      RoundedTo6Monotone(x, y);
    }
  }

  function BaseSlug(texts: Texts, anchor: Option<Member>): string {
    if anchor.Some? then texts.slugify(anchor.value.name, texts.shortId(anchor.value.id)) else "area"
  }

  function TitleOf(anchor: Option<Member>): Option<string> {
    if anchor.Some? then Some(anchor.value.name) else None
  }

  /** An area is its community's members, named after their anchor, under the first slug
      not taken. */
  ghost predicate AreaOf(g: Graph, byId: map<Id, Entity>, community: set<Id>, texts: Texts, taken: set<string>,
                         area: Area) {
    && MembersOf(g, byId, community, area.members)
    && exists anchor :: Named(area, texts, taken, anchor)
  }

  ghost predicate Named(area: Area, texts: Texts, taken: set<string>, anchor: Option<Member>) {
    && AnchorOf(Ranked(area.members), texts, anchor)
    && area.title == TitleOf(anchor)
    && FirstFree(BaseSlug(texts, anchor), taken, area.slug)
  }

  ghost predicate AnchorOf(ranked: seq<Member>, texts: Texts, anchor: Option<Member>) {
    && (anchor.None? <==> ranked == [])
    && (anchor.Some? ==> IsAnchor(ranked, texts.clauseShaped, anchor.value))
  }

  /** `_to_area` */
  method ToArea(community: set<Id>, g: Graph, byId: map<Id, Entity>, taken: set<string>, texts: Texts)
    returns (area: Area)
    requires community <= g.Keys && community <= byId.Keys
    ensures AreaOf(g, byId, community, texts, taken, area)
  {
    var members := CollectMembers(g, byId, community);
    var ranked := Ranked(members);
    var anchor := NamingAnchor(ranked, texts.clauseShaped);
    var slug, tries := FreeSlug(BaseSlug(texts, anchor), taken);
    area := Area(slug, members, TitleOf(anchor));
    assert Named(area, texts, taken, anchor);
  }

  lemma AnchorUnique(ranked: seq<Member>, texts: Texts, a: Option<Member>, b: Option<Member>)
    requires AnchorOf(ranked, texts, a) && AnchorOf(ranked, texts, b)
    ensures a == b
  {
  }

  /** Nothing is left open: the community, the graph and the slugs taken make one area. */
  lemma AreaUnique(g: Graph, byId: map<Id, Entity>, community: set<Id>, texts: Texts, taken: set<string>, a: Area,
                   b: Area)
    requires AreaOf(g, byId, community, texts, taken, a) && AreaOf(g, byId, community, texts, taken, b)
    ensures a == b
  {
    assert a.members == b.members;
    var m :| Named(a, texts, taken, m);
    var n :| Named(b, texts, taken, n);
    AnchorUnique(Ranked(a.members), texts, m, n);
    FirstFreeUnique(BaseSlug(texts, m), taken, a.slug, b.slug);
  }

  // ----- The whole projection -----

  function LowestId(c: set<Id>): Id {
    if c == {} then 0 else Least(c)
  }

  /** Largest first, ties on the lowest member. */
  predicate Larger(a: set<Id>, b: set<Id>) {
    |a| > |b| || (|a| == |b| && LowestId(a) < LowestId(b))
  }

  /** Greedy, split, absorb: what the three steps make of a graph. */
  ghost predicate Pipeline(g: Graph, eps: real, greedy: seq<set<Id>>, split: seq<set<Id>>, out: seq<set<Id>>) {
    && GreedyParts(g, eps, greedy)
    && SplitOf(g, eps, |g|, greedy, split)
    && AbsorbedInto(split, g, out)
  }

  ghost predicate Communities(g: Graph, eps: real, out: seq<set<Id>>) {
    exists greedy, split :: Pipeline(g, eps, greedy, split, out)
  }

  method FindCommunities(g: Graph, eps: real) returns (out: seq<set<Id>>)
    requires Undirected(g) && eps >= 0.0
    ensures Communities(g, eps, out)
  {
    var greedy := GreedyModularity(g, eps);
    GreedyPartition(g, eps, greedy);
    var split := SplitOversized(greedy, g, |g|, eps);
    SplitRefines(g, eps, |g|, greedy, split, g.Keys);
    out := AbsorbSmall(split, g);
    assert Pipeline(g, eps, greedy, split, out);
  }

  /** What comes out is pairwise disjoint, and never smaller than an area may be. */
  lemma CommunitiesDisjoint(g: Graph, eps: real, out: seq<set<Id>>)
    requires Communities(g, eps, out)
    ensures Disjoint(out)
    ensures forall i :: 0 <= i < |out| ==> out[i] <= g.Keys && |out[i]| >= 3
  {
    var greedy, split :| Pipeline(g, eps, greedy, split, out);
    GreedyPartition(g, eps, greedy);
    SplitRefines(g, eps, |g|, greedy, split, g.Keys);
    AbsorbedAreas(split, g, out, g.Keys);
  }

  lemma PieceUnique(g: Graph, eps: real, nodes: nat, c: set<Id>, p: seq<set<Id>>, q: seq<set<Id>>)
    requires Piece(g, eps, nodes, c, p) && Piece(g, eps, nodes, c, q)
    ensures p == q
  {
    if |c| > 3 && 5 * |c| > 2 * nodes {
      var a :| GreedyParts(Induced(g, c), eps, a) && p == if |a| > 1 then a else [c];
      var b :| GreedyParts(Induced(g, c), eps, b) && q == if |b| > 1 then b else [c];
      GreedyDeterministic(Induced(g, c), eps, a, b);
    }
  }

  /** The whole pipeline is a function of the graph. */
  lemma CommunitiesDeterministic(g: Graph, eps: real, out: seq<set<Id>>, out': seq<set<Id>>)
    requires Communities(g, eps, out) && Communities(g, eps, out')
    ensures out == out'
  {
    var greedy, split :| Pipeline(g, eps, greedy, split, out);
    var greedy', split' :| Pipeline(g, eps, greedy', split', out');
    GreedyDeterministic(g, eps, greedy, greedy');
    SplitUnique(g, eps, greedy, split, split');
  }

  lemma SplitUnique(g: Graph, eps: real, greedy: seq<set<Id>>, split: seq<set<Id>>, split': seq<set<Id>>)
    requires SplitOf(g, eps, |g|, greedy, split) && SplitOf(g, eps, |g|, greedy, split')
    ensures split == split'
  {
    var pieces :| PiecesOf(g, eps, |g|, greedy, pieces) && split == Flatten(pieces);
    var pieces' :| PiecesOf(g, eps, |g|, greedy, pieces') && split' == Flatten(pieces');
    forall k | 0 <= k < |pieces|
      ensures pieces[k] == pieces'[k]
    {
      PieceUnique(g, eps, |g|, greedy[k], pieces[k], pieces'[k]);
    }
    assert pieces == pieces';
  }

  /** Slugs tell the areas of one projection apart. */
  ghost predicate DistinctSlugs(areas: seq<Area>) {
    forall i, j :: 0 <= i < j < |areas| ==> areas[i].slug != areas[j].slug
  }

  ghost function TakenBy(areas: seq<Area>): set<string> {
    set a | a in areas :: a.slug
  }

  /** The areas of these communities, in this order, each under a slug none before it took. */
  ghost predicate AreasOf(g: Graph, byId: map<Id, Entity>, texts: Texts, ordered: seq<set<Id>>, areas: seq<Area>) {
    && |areas| == |ordered|
    && forall k :: 0 <= k < |areas| ==> AreaAt(g, byId, texts, ordered, areas, k)
  }

  ghost predicate AreaAt(g: Graph, byId: map<Id, Entity>, texts: Texts, ordered: seq<set<Id>>, areas: seq<Area>, k: nat)
    requires k < |areas| == |ordered|
  {
    AreaOf(g, byId, ordered[k], texts, TakenBy(areas[..k]), areas[k])
  }

  method NameAreas(g: Graph, byId: map<Id, Entity>, texts: Texts, ordered: seq<set<Id>>) returns (areas: seq<Area>)
    requires forall k :: 0 <= k < |ordered| ==> ordered[k] <= g.Keys && ordered[k] <= byId.Keys
    ensures AreasOf(g, byId, texts, ordered, areas)
  {
    areas := [];
    var taken: set<string> := {};
    for k := 0 to |ordered|
      invariant AreasOf(g, byId, texts, ordered[..k], areas)
      invariant taken == TakenBy(areas)
    {
      var area := ToArea(ordered[k], g, byId, taken, texts);
      AreasNext(g, byId, texts, ordered, k, areas, area);
      taken := taken + {area.slug};
      areas := areas + [area];
    }
    assert ordered[..|ordered|] == ordered;
  }

  lemma AreasNext(g: Graph, byId: map<Id, Entity>, texts: Texts, ordered: seq<set<Id>>, k: nat,
                  areas: seq<Area>, area: Area)
    requires k < |ordered| && AreasOf(g, byId, texts, ordered[..k], areas)
    requires AreaOf(g, byId, ordered[k], texts, TakenBy(areas), area)
    ensures AreasOf(g, byId, texts, ordered[..k + 1], areas + [area])
    ensures TakenBy(areas + [area]) == TakenBy(areas) + {area.slug}
  {
    var longer, communities := areas + [area], ordered[..k + 1];
    forall j | 0 <= j < |longer|
      ensures AreaAt(g, byId, texts, communities, longer, j)
    {
      if j < k {
        assert AreaAt(g, byId, texts, ordered[..k], areas, j);
        assert longer[..j] == areas[..j] && communities[j] == ordered[..k][j];
      } else {
        assert longer[..j] == areas;
      }
    }
  }

  /** All slugs of a projection differ, even where a suffixed slug is another's own name. */
  lemma SlugsDistinct(g: Graph, byId: map<Id, Entity>, texts: Texts, ordered: seq<set<Id>>, areas: seq<Area>)
    requires AreasOf(g, byId, texts, ordered, areas)
    ensures DistinctSlugs(areas)
  {
    forall i, j | 0 <= i < j < |areas|
      ensures areas[i].slug != areas[j].slug
    {
      assert AreaAt(g, byId, texts, ordered, areas, j);
      assert areas[i] in areas[..j] by {
        assert areas[..j][i] == areas[i];
      }
    }
  }

  lemma SameAreaAt(g: Graph, byId: map<Id, Entity>, texts: Texts, ordered: seq<set<Id>>,
                   areas: seq<Area>, areas': seq<Area>, k: nat)
    requires AreasOf(g, byId, texts, ordered, areas) && AreasOf(g, byId, texts, ordered, areas')
    requires k < |ordered| && areas[..k] == areas'[..k]
    ensures areas[k] == areas'[k]
  {
    assert AreaAt(g, byId, texts, ordered, areas, k) && AreaAt(g, byId, texts, ordered, areas', k);
    AreaUnique(g, byId, ordered[k], texts, TakenBy(areas[..k]), areas[k], areas'[k]);
  }

  lemma {:induction false} SamePrefix(g: Graph, byId: map<Id, Entity>, texts: Texts, ordered: seq<set<Id>>,
                                      areas: seq<Area>, areas': seq<Area>, k: nat)
    requires AreasOf(g, byId, texts, ordered, areas) && AreasOf(g, byId, texts, ordered, areas')
    requires k <= |ordered|
    ensures areas[..k] == areas'[..k]
  {
    if k > 0 {
      SamePrefix(g, byId, texts, ordered, areas, areas', k - 1);
      SameAreaAt(g, byId, texts, ordered, areas, areas', k - 1);
      PrefixNext(areas, areas', k - 1);
    }
  }

  lemma PrefixNext(areas: seq<Area>, areas': seq<Area>, k: nat)
    requires k < |areas| && k < |areas'| && areas[..k] == areas'[..k] && areas[k] == areas'[k]
    ensures areas[..k + 1] == areas'[..k + 1]
  {
    assert areas[..k + 1] == areas[..k] + [areas[k]] && areas'[..k + 1] == areas'[..k] + [areas'[k]];
  }

  /** One graph, one order of communities, one list of areas. */
  lemma AreasUnique(g: Graph, byId: map<Id, Entity>, texts: Texts, ordered: seq<set<Id>>, areas: seq<Area>,
                    areas': seq<Area>)
    requires AreasOf(g, byId, texts, ordered, areas) && AreasOf(g, byId, texts, ordered, areas')
    ensures areas == areas'
  {
    SamePrefix(g, byId, texts, ordered, areas, areas', |ordered|);
    assert areas[..|areas|] == areas && areas'[..|areas'|] == areas';
  }

  function ById(entities: seq<Entity>): (m: map<Id, Entity>)
    ensures m.Keys == set e | e in entities :: e.id
  {
    if entities == [] then map[] else
      var n := |entities| - 1;
      assert entities == entities[..n] + [entities[n]];
      ById(entities[..n])[entities[n].id := entities[n]]
  }

  function Ids(entities: seq<Entity>): (ids: seq<Id>)
    ensures |ids| == |entities| && forall k :: 0 <= k < |ids| ==> ids[k] == entities[k].id
  {
    seq(|entities|, k requires 0 <= k < |entities| => entities[k].id)
  }

  /** What the projection is made from. */
  datatype Source = Source(entities: seq<Entity>, mentions: Mentions)

  /** The graph of a source's entities and mentions. */
  ghost predicate BuiltFrom(s: Source, b: Built) {
    Sound(b.graph, set k | k in Ids(s.entities)) && GraphFrom(s.mentions, b)
  }

  /** What a projection says of the graph it was made from. */
  predicate Reports(p: Projection, entities: nat, b: Built) {
    p == Projection(p.areas, entities, b.asserted, b.counted, b.drawn, b.drawn > 0)
  }

  /** A graph's communities, largest first, as areas. */
  ghost predicate AreasFor(g: Graph, eps: real, texts: Texts, byId: map<Id, Entity>, areas: seq<Area>) {
    exists out :: Communities(g, eps, out) && AreasOf(g, byId, texts, SortBy(out, Larger), areas)
  }

  /** What `project_areas` makes of its source. */
  ghost predicate ProjectionOf(s: Source, eps: real, texts: Texts, p: Projection) {
    exists b ::
      BuiltFrom(s, b) && Reports(p, |s.entities|, b) && AreasFor(b.graph, eps, texts, ById(s.entities), p.areas)
  }

  /** `project_areas` */
  method ProjectAreas(s: Source, eps: real, texts: Texts) returns (outcome: Outcome)
    requires eps >= 0.0
    ensures outcome.GraphTooLarge? <==> |s.entities| > 5000
    ensures outcome.Projected? ==> ProjectionOf(s, eps, texts, outcome.projection)
  {
    if |s.entities| > MAX_CLUSTERED_ENTITIES {
      return GraphTooLarge;
    }
    var adjacency, asserted, counted, drawn, co, sem :=
      Adjacency(Ids(s.entities), s.mentions.relationships, s.mentions.passages, s.mentions.semantic);
    ghost var b := Built(adjacency, asserted, counted, drawn, co, sem);
    assert BuiltFrom(s, b);
    var areas := FindAreas(s.entities, adjacency, eps, texts);
    outcome := Projected(Projection(areas, |s.entities|, asserted, counted, drawn, drawn > 0));
    ProjectionMade(s, eps, texts, outcome.projection, b);
  }

  lemma ProjectionMade(s: Source, eps: real, texts: Texts, p: Projection, b: Built)
    requires BuiltFrom(s, b) && Reports(p, |s.entities|, b) && AreasFor(b.graph, eps, texts, ById(s.entities), p.areas)
    ensures ProjectionOf(s, eps, texts, p)
  {
  }

  /** Lines 303 and 308-320 */
  method FindAreas(entities: seq<Entity>, adjacency: Graph, eps: real, texts: Texts) returns (areas: seq<Area>)
    requires eps >= 0.0 && Sound(adjacency, set k | k in Ids(entities))
    ensures AreasFor(adjacency, eps, texts, ById(entities), areas)
  {
    var byId := ById(entities);
    var communities := FindCommunities(adjacency, eps);
    IdsKnown(entities);
    CommunitiesKnown(adjacency, eps, communities);
    areas := NameAreas(adjacency, byId, texts, SortBy(communities, Larger));
  }

  lemma CommunitiesKnown(g: Graph, eps: real, out: seq<set<Id>>)
    requires Communities(g, eps, out)
    ensures forall k :: 0 <= k < |out| ==> SortBy(out, Larger)[k] <= g.Keys
  {
    var sorted := SortBy(out, Larger);
    CommunitiesDisjoint(g, eps, out);
    SortMembers(out, Larger);
    forall k | 0 <= k < |sorted|
      ensures sorted[k] <= g.Keys
    {
      assert sorted[k] in sorted && sorted[k] in out;
    }
  }

  lemma IdsKnown(entities: seq<Entity>)
    ensures (set k | k in Ids(entities)) == ById(entities).Keys
  {
    var ids := Ids(entities);
    forall k | k in ids
      ensures k in ById(entities).Keys
    {
      var i :| 0 <= i < |ids| && ids[i] == k;
      assert entities[i] in entities;
    }
    forall k | k in ById(entities).Keys
      ensures k in ids
    {
      var e :| e in entities && e.id == k;
      var i :| 0 <= i < |entities| && entities[i] == e;
      assert ids[i] == k;
    }
  }

  ghost function MemberIds(area: Area): set<Id> {
    set m | m in area.members :: m.id
  }

  lemma MembersAreCommunity(g: Graph, byId: map<Id, Entity>, community: set<Id>, area: Area)
    requires MembersOf(g, byId, community, area.members)
    ensures MemberIds(area) == community
  {
    var nodes := Sorted(community);
    forall x | x in community
      ensures x in MemberIds(area)
    {
      assert x in nodes;
      var k :| 0 <= k < |nodes| && nodes[k] == x;
      assert area.members[k] in area.members;
    }
    forall m | m in area.members
      ensures m.id in community
    {
      var k :| 0 <= k < |area.members| && area.members[k] == m;
      assert nodes[k] in nodes;
    }
  }

  predicate InIdOrder(members: seq<Member>) {
    forall k, l :: 0 <= k < l < |members| ==> members[k].id < members[l].id
  }

  lemma MembersById(g: Graph, byId: map<Id, Entity>, community: set<Id>, area: Area)
    requires MembersOf(g, byId, community, area.members) && community != {}
    ensures |area.members| == |community| && InIdOrder(area.members)
    ensures area.members != [] && area.members[0].id == LowestId(community)
  {
    var nodes := Sorted(community);
    assert Least(community) in nodes && nodes[0] in nodes;
  }

  /** The area lists its community, by id. */
  ghost predicate Lists(area: Area, community: set<Id>) {
    && MemberIds(area) == community && |area.members| == |community| >= 3 && InIdOrder(area.members)
    && area.members[0].id == LowestId(community)
  }

  lemma AreaLists(g: Graph, eps: real, byId: map<Id, Entity>, texts: Texts,
                  out: seq<set<Id>>, areas: seq<Area>, i: nat)
    requires Communities(g, eps, out) && AreasOf(g, byId, texts, SortBy(out, Larger), areas) && i < |areas|
    ensures Lists(areas[i], SortBy(out, Larger)[i])
  {
    var ordered := SortBy(out, Larger);
    CommunitiesDisjoint(g, eps, out);
    SortMembers(out, Larger);
    assert AreaAt(g, byId, texts, ordered, areas, i);
    assert ordered[i] in ordered && ordered[i] in out;
    MembersAreCommunity(g, byId, ordered[i], areas[i]);
    MembersById(g, byId, ordered[i], areas[i]);
  }

  /** No member in common, and the first one larger, or as large with the lower first member. */
  ghost predicate ApartInOrder(a: Area, b: Area) {
    && MemberIds(a) !! MemberIds(b)
    && (|a.members| > |b.members|
        || (|a.members| == |b.members| > 0 && a.members[0].id < b.members[0].id))
  }

  /** What the ordering of areas takes for granted holds of every projection: no two areas
      share a slug or a member, each has three members or more, none twice; and the areas
      come largest first, lowest member id first among equals, each listed by id. */
  lemma ProjectionWellFormed(g: Graph, eps: real, byId: map<Id, Entity>, texts: Texts,
                             out: seq<set<Id>>, areas: seq<Area>)
    requires Communities(g, eps, out)
    requires AreasOf(g, byId, texts, SortBy(out, Larger), areas)
    ensures DistinctSlugs(areas)
    ensures forall i :: 0 <= i < |areas| ==> |areas[i].members| >= 3 && InIdOrder(areas[i].members)
    ensures forall i, j :: 0 <= i < j < |areas| ==> ApartInOrder(areas[i], areas[j])
  {
    CommunitiesDisjoint(g, eps, out);
    SlugsDistinct(g, byId, texts, SortBy(out, Larger), areas);
    forall i | 0 <= i < |areas|
      ensures |areas[i].members| >= 3 && InIdOrder(areas[i].members)
    {
      AreaLists(g, eps, byId, texts, out, areas, i);
    }
    forall i, j | 0 <= i < j < |areas|
      ensures ApartInOrder(areas[i], areas[j])
    {
      SortedApart(out, i, j);
      AreaLists(g, eps, byId, texts, out, areas, i);
      AreaLists(g, eps, byId, texts, out, areas, j);
    }
  }

  lemma LargerCompares(out: seq<set<Id>>)
    requires Disjoint(out) && forall i :: 0 <= i < |out| ==> out[i] != {}
    ensures Comparable(out, Larger)
  {
    forall x, y | x in out && y in out && x != y
      ensures Larger(x, y) || Larger(y, x)
    {
      var i :| 0 <= i < |out| && out[i] == x;
      var j :| 0 <= j < |out| && out[j] == y;
      assert Least(x) in x && Least(y) in y;
    }
  }

  lemma SortedApart(out: seq<set<Id>>, i: nat, j: nat)
    requires Disjoint(out) && forall i :: 0 <= i < |out| ==> out[i] != {}
    requires i < j < |out|
    ensures SortBy(out, Larger)[i] !! SortBy(out, Larger)[j]
    ensures Larger(SortBy(out, Larger)[i], SortBy(out, Larger)[j])
  {
    var apart := (a: set<Id>, b: set<Id>) => a !! b && a != {} && b != {};
    SortPairwise(out, Larger, apart);
    assert apart(SortBy(out, Larger)[i], SortBy(out, Larger)[j]);
    LargerCompares(out);
    SortStrict(out, Larger);
  }

  // ----- What a projection says -----

  /** The entity under this id, or the last of them if the corpus gives several. */
  ghost predicate IsEntity(entities: seq<Entity>, id: Id, k: nat) {
    k < |entities| && entities[k].id == id && forall l :: k < l < |entities| ==> entities[l].id != id
  }

  lemma {:induction false} LastEntity(entities: seq<Entity>, id: Id) returns (k: nat)
    requires id in ById(entities)
    ensures IsEntity(entities, id, k) && ById(entities)[id] == entities[k]
  {
    var n := |entities| - 1;
    if entities[n].id == id {
      k := n;
    } else {
      k := LastEntity(entities[..n], id);
    }
  }

  ghost predicate SaysEntity(entities: seq<Entity>, m: Member, k: nat) {
    && IsEntity(entities, m.id, k)
    && m.name == entities[k].name && m.entityType == entities[k].entityType && m.year == entities[k].year
  }

  /** The member an area is named after: its title, and its slug or what its slug was made from. */
  ghost predicate NamesArea(area: Area, texts: Texts, taken: set<string>, m: Member) {
    && m in area.members && area.title == Some(m.name)
    && SluggedBy(texts.slugify(m.name, texts.shortId(m.id)), taken, area.slug)
  }

  /** The base itself, or a suffix of it if that is taken. */
  ghost predicate SluggedBy(base: string, taken: set<string>, slug: string) {
    slug == base || (base in taken && exists n: nat :: Suffixes(base, taken, slug, n))
  }

  /** What a member says: its entity's name, type and year, and its weight into the community. */
  ghost predicate MemberSays(g: Graph, entities: seq<Entity>, community: set<Id>, m: Member) {
    && m.id in community && m.centrality == RoundedTo6(Centrality(g, community, m.id))
    && -0.0000005 <= m.centrality - Centrality(g, community, m.id) <= 0.0000005
    && exists k: nat :: SaysEntity(entities, m, k)
  }

  lemma MembersSay(g: Graph, entities: seq<Entity>, community: set<Id>, area: Area, m: Member)
    requires MembersOf(g, ById(entities), community, area.members) && m in area.members
    ensures MemberSays(g, entities, community, m)
  {
    MembersAreCommunity(g, ById(entities), community, area);
    assert m.id in MemberIds(area);
    RoundedTo6Near(Centrality(g, community, m.id));
    var k := LastEntity(entities, m.id);
    assert SaysEntity(entities, m, k);
  }

  lemma AnchorNames(g: Graph, byId: map<Id, Entity>, community: set<Id>, texts: Texts, taken: set<string>,
                    area: Area, anchor: Option<Member>)
    requires MembersOf(g, byId, community, area.members) && community != {}
    requires Named(area, texts, taken, anchor)
    ensures anchor.Some? && NamesArea(area, texts, taken, anchor.value)
    ensures IsAnchor(Ranked(area.members), texts.clauseShaped, anchor.value)
  {
    SlugSays(BaseSlug(texts, anchor), taken, area.slug);
    SortMembers(area.members, MoreCentral);
    MembersById(g, byId, community, area);
    assert anchor.Some? && anchor.value in Ranked(area.members);
  }

  /** A member says what its entity says; how central it is, is its weight into the area, to six
      places; and the area has the name of a member that leads it, if it has any. */
  lemma AreaSays(g: Graph, entities: seq<Entity>, community: set<Id>, texts: Texts, taken: set<string>, area: Area)
    requires AreaOf(g, ById(entities), community, texts, taken, area)
    ensures forall m :: m in area.members ==> MemberSays(g, entities, community, m)
    ensures area.slug !in taken
    ensures community == {} ==> area.title == None && SluggedBy("area", taken, area.slug)
    ensures community != {} ==>
      exists m :: NamesArea(area, texts, taken, m) && IsAnchor(Ranked(area.members), texts.clauseShaped, m)
  {
    forall m | m in area.members
      ensures MemberSays(g, entities, community, m)
    {
      MembersSay(g, entities, community, area, m);
    }
    var anchor :| Named(area, texts, taken, anchor);
    SlugSays(BaseSlug(texts, anchor), taken, area.slug);
    if community != {} {
      AnchorNames(g, ById(entities), community, texts, taken, area, anchor);
    }
  }

  ghost function Relating(known: set<Id>): ((Id, Id)) -> bool {
    (r: (Id, Id)) => r.0 != r.1 && r.0 in known && r.1 in known
  }

  ghost function Naming(known: set<Id>): set<Id> -> bool {
    (passage: set<Id>) => 2 <= |passage * known| <= 25
  }

  lemma BuiltCounts(m: Mentions, b: Built, known: set<Id>)
    requires GraphFrom(m, b) && b.graph.Keys == known
    ensures b.asserted == CountOf(m.relationships, Relating(known))
    ensures b.counted == CountOf(m.passages, Naming(known))
    ensures b.drawn == |StandingOut(m.semantic, known)|
  {
    CountsSay(m, b);
    CountAgrees(m.relationships, (r: (Id, Id)) => r.0 != r.1 && r.0 in b.graph && r.1 in b.graph, Relating(known));
    CountAgrees(m.passages, (q: set<Id>) => 2 <= |q * b.graph.Keys| <= 25, Naming(known));
  }

  /** The counts of a projection are of its corpus: all the entities given, relationships between two
      different ones of them, passages naming two to 25 of them, and pairs that stand out. */
  lemma ProjectionCounts(s: Source, eps: real, texts: Texts, p: Projection)
    requires ProjectionOf(s, eps, texts, p)
    ensures var known := set e | e in s.entities :: e.id;
      && p.entityCount == |s.entities|
      && p.relationshipCount == CountOf(s.mentions.relationships, Relating(known))
      && p.coMentionCount == CountOf(s.mentions.passages, Naming(known))
      && p.semanticCount == |StandingOut(s.mentions.semantic, known)|
      && (p.usedEmbeddings <==> p.semanticCount > 0)
  {
    var known := set e | e in s.entities :: e.id;
    var b :| BuiltFrom(s, b) && Reports(p, |s.entities|, b) && AreasFor(b.graph, eps, texts, ById(s.entities), p.areas);
    IdsKnown(s.entities);
    BuiltCounts(s.mentions, b, known);
  }

  // ----- Nothing else decides it -----

  ghost predicate DistinctIds(entities: seq<Entity>) {
    forall i, j :: 0 <= i < j < |entities| ==> entities[i].id != entities[j].id
  }

  /** The same corpus, listed in another order. */
  ghost predicate SameSource(s: Source, t: Source) {
    multiset(s.entities) == multiset(t.entities) && SameMentions(s.mentions, t.mentions)
  }

  lemma {:induction false} ByIdFinds(entities: seq<Entity>, k: nat)
    requires DistinctIds(entities) && k < |entities|
    ensures entities[k].id in ById(entities) && ById(entities)[entities[k].id] == entities[k]
    decreases |entities|
  {
    var n := |entities| - 1;
    if k < n {
      assert entities[..n][k] == entities[k];
      ByIdFinds(entities[..n], k);
    }
  }

  lemma ByIdFindsIn(entities: seq<Entity>, e: Entity)
    requires DistinctIds(entities) && e in entities
    ensures e.id in ById(entities) && ById(entities)[e.id] == e
  {
    var k :| 0 <= k < |entities| && entities[k] == e;
    ByIdFinds(entities, k);
  }

  lemma ByIdReordered(entities: seq<Entity>, entities': seq<Entity>)
    requires DistinctIds(entities) && DistinctIds(entities') && multiset(entities) == multiset(entities')
    ensures ById(entities) == ById(entities') && |entities| == |entities'|
  {
    var m, m' := ById(entities), ById(entities');
    forall id
      ensures (id in m <==> id in m') && (id in m ==> m[id] == m'[id])
    {
      if id in m {
        var e :| e in entities && e.id == id;
        SameElements(entities, entities', e);
        ByIdFindsIn(entities, e);
        ByIdFindsIn(entities', e);
      }
      if id in m' {
        var e :| e in entities' && e.id == id;
        SameElements(entities, entities', e);
        ByIdFindsIn(entities, e);
      }
    }
    assert m.Keys == m'.Keys;
    assert |multiset(entities)| == |entities| && |multiset(entities')| == |entities'|;
  }

  lemma SameBuilt(s: Source, t: Source, a: Built, b: Built)
    requires SameSource(s, t) && DistinctIds(s.entities) && DistinctIds(t.entities)
    requires BuiltFrom(s, a) && BuiltFrom(t, b)
    ensures a == b && ById(s.entities) == ById(t.entities) && |s.entities| == |t.entities|
  {
    ByIdReordered(s.entities, t.entities);
    IdsKnown(s.entities);
    IdsKnown(t.entities);
    GraphUnordered(s.mentions, t.mentions, a, b);
  }

  lemma AreasForUnique(g: Graph, eps: real, texts: Texts, byId: map<Id, Entity>, areas: seq<Area>, areas': seq<Area>)
    requires AreasFor(g, eps, texts, byId, areas) && AreasFor(g, eps, texts, byId, areas')
    ensures areas == areas'
  {
    var out :| Communities(g, eps, out) && AreasOf(g, byId, texts, SortBy(out, Larger), areas);
    var out' :| Communities(g, eps, out') && AreasOf(g, byId, texts, SortBy(out', Larger), areas');
    CommunitiesDeterministic(g, eps, out, out');
    AreasUnique(g, byId, texts, SortBy(out, Larger), areas, areas');
  }

  /** The projection depends on what the corpus holds and on nothing else: not on the order
      its entities, relationships, passages or neighbours are listed in, not on the layout of
      the heap, and not on the order rows and communities are gone through. */
  lemma ProjectionDeterministic(s: Source, t: Source, eps: real, texts: Texts, p: Projection, q: Projection)
    requires SameSource(s, t) && DistinctIds(s.entities) && DistinctIds(t.entities)
    requires ProjectionOf(s, eps, texts, p) && ProjectionOf(t, eps, texts, q)
    ensures p == q
  {
    var a :| BuiltFrom(s, a) && Reports(p, |s.entities|, a) && AreasFor(a.graph, eps, texts, ById(s.entities), p.areas);
    var b :| BuiltFrom(t, b) && Reports(q, |t.entities|, b) && AreasFor(b.graph, eps, texts, ById(t.entities), q.areas);
    SameBuilt(s, t, a, b);
    AreasForUnique(a.graph, eps, texts, ById(s.entities), p.areas, q.areas);
    SameProjection(p, q, |s.entities|, a);
  }

  lemma SameProjection(p: Projection, q: Projection, entities: nat, b: Built)
    requires Reports(p, entities, b) && Reports(q, entities, b) && p.areas == q.areas
    ensures p == q
  {
  }
}
