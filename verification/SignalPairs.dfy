/** research_team/curriculum/application/learning_paths.py, `_signal_pairs`: what the corpus
    says about which of two areas comes first. */
module SignalPairs {
  import opened Wrappers
  import opened Reals
  import opened Sums
  import opened Graphs
  import opened Orders
  import opened Sorting
  import opened Counting
  import opened LearningPaths
  import opened AreaProjection

  const REFERENCE_WEIGHT := 1.0
  const TEMPORAL_WEIGHT := 0.25
  const BREADTH_WEIGHT := 0.35

  datatype Relation = Relation(source: Id, target: Id, inferred: bool)

  /** What the paths are drawn from. */
  datatype Corpus = Corpus(areas: seq<Area>, relations: seq<Relation>, passages: seq<set<Id>>)

  // ----- The three signals -----

  /** Traffic between the two, as a share of itself: who is cited comes first. */
  function Reference(forward: nat, backward: nat): real {
    if forward + backward == 0 then 0.0
    else REFERENCE_WEIGHT * (backward - forward) as real / (forward + backward) as real
  }

  function Temporal(early: Option<real>, late: Option<real>): real {
    if early.None? || late.None? || early.value == late.value then 0.0
    else if early.value < late.value then TEMPORAL_WEIGHT else -TEMPORAL_WEIGHT
  }

  function Wider(wide: real, narrow: real): real {
    var widest := if wide >= narrow then wide else narrow;
    if widest == 0.0 then 0.0 else BREADTH_WEIGHT * (wide - narrow) / widest
  }

  function Reversed(s: Signals): Signals {
    Signals(-s.references, -s.temporal, -s.breadth)
  }

  /** What is known about an area beyond its traffic. */
  datatype Profile = Profile(median: Option<real>, breadth: real)

  function Weigh(forward: nat, backward: nat, a: Profile, b: Profile): Signals {
    Signals(Reference(forward, backward), Temporal(a.median, b.median), Wider(a.breadth, b.breadth))
  }

  /** Asked the other way round, the evidence is the same with its sign changed. */
  lemma WeighReversed(forward: nat, backward: nat, a: Profile, b: Profile)
    ensures Weigh(backward, forward, b, a) == Reversed(Weigh(forward, backward, a, b))
    ensures Weigh(backward, forward, b, a).Total() == -Weigh(forward, backward, a, b).Total()
  {
    if forward + backward != 0 {
      NegatedQuotient((backward - forward) as real, (forward + backward) as real);
    }
    var widest := if a.breadth >= b.breadth then a.breadth else b.breadth;
    if widest != 0.0 {
      NegatedQuotient(BREADTH_WEIGHT * (a.breadth - b.breadth), widest);
    }
  }

  lemma NegatedQuotient(x: real, y: real)
    requires y != 0.0
    ensures (-x) / y == -(x / y)
  {
  }

  lemma QuotientWithin(x: real, y: real, c: real)
    requires y > 0.0 && c >= 0.0 && -(c * y) <= x <= c * y
    ensures -c <= x / y <= c
  {
    assert x / y * y == x;
    var q := x / y;
    if q > c {
      PositiveProduct(q - c, y, (q - c) * y);
    } else if q < -c {
      PositiveProduct(-c - q, y, (-c - q) * y);
    }
  }

  lemma WeighWithin(forward: nat, backward: nat, a: Profile, b: Profile)
    requires a.breadth >= 0.0 && b.breadth >= 0.0
    ensures -1.6 <= Weigh(forward, backward, a, b).Total() <= 1.6
  {
    if forward + backward != 0 {
      QuotientWithin(REFERENCE_WEIGHT * (backward - forward) as real, (forward + backward) as real, REFERENCE_WEIGHT);
    }
    assert -REFERENCE_WEIGHT <= Reference(forward, backward) <= REFERENCE_WEIGHT;
    var widest := if a.breadth >= b.breadth then a.breadth else b.breadth;
    if widest != 0.0 {
      QuotientWithin(BREADTH_WEIGHT * (a.breadth - b.breadth), widest, BREADTH_WEIGHT);
    }
    assert -BREADTH_WEIGHT <= Wider(a.breadth, b.breadth) <= BREADTH_WEIGHT;
  }

  // ----- Profiles -----

  function Years(members: seq<Member>): seq<int> {
    if members == [] then [] else
      var n := |members| - 1;
      Years(members[..n]) + if members[n].year.Some? then [members[n].year.value] else []
  }

  function InOrder(years: seq<int>): seq<int> {
    SortBy(years, (x: int, y: int) => x < y)
  }

  function MiddleOf(years: seq<int>): real
    requires years != []
  {
    var middle := |years| / 2;
    if |years| % 2 == 1 then years[middle] as real else (years[middle - 1] + years[middle]) as real / 2.0
  }

  /** `_median_year` */
  function MedianYear(area: Area): Option<real> {
    var years := InOrder(Years(area.members));
    if years == [] then None else Some(MiddleOf(years))
  }

  lemma YearsInOrder(years: seq<int>)
    ensures multiset(InOrder(years)) == multiset(years)
    ensures forall i, j :: 0 <= i < j < |years| ==> InOrder(years)[i] <= InOrder(years)[j]
  {
    var before := (x: int, y: int) => x < y;
    SortElements(years, before);
    SortOrdered(years, before);
  }

  /** Of years in order the two in the middle, the same one twice when their number is odd. */
  lemma MiddleTwo(sorted: seq<int>)
    requires forall i, j :: 0 <= i < j < |sorted| ==> sorted[i] <= sorted[j]
    requires sorted != []
    ensures exists lower, upper :: Halves(sorted, lower, upper) && 2.0 * MiddleOf(sorted) == (lower + upper) as real
  {
    var n := |sorted|;
    var lower, upper := sorted[(n - 1) / 2], sorted[n / 2];
    CountAtMost(sorted, (y: int) => y < lower, (n - 1) / 2);
    CountAtMostRest(sorted, (y: int) => y > lower, (n - 1) / 2 + 1);
    CountAtMost(sorted, (y: int) => y < upper, n / 2);
    CountAtMostRest(sorted, (y: int) => y > upper, n / 2 + 1);
    assert Halves(sorted, lower, upper);
  }

  /** Less than half lie below the lower one and less than half above the upper one; and no more
      than half above the lower or below the upper. */
  ghost predicate Halves(years: seq<int>, lower: int, upper: int) {
    && 2 * CountOf(years, (y: int) => y < lower) < |years| && 2 * CountOf(years, (y: int) => y > lower) <= |years|
    && 2 * CountOf(years, (y: int) => y > upper) < |years| && 2 * CountOf(years, (y: int) => y < upper) <= |years|
  }

  ghost function Dated(p: int -> bool): Member -> bool {
    (m: Member) => m.year.Some? && p(m.year.value)
  }

  lemma {:induction false} YearsCounted(members: seq<Member>, p: int -> bool)
    ensures CountOf(Years(members), p) == CountOf(members, Dated(p))
  {
    if members != [] {
      var n := |members| - 1;
      YearsCounted(members[..n], p);
      if members[n].year.Some? {
        assert Years(members)[..|Years(members)| - 1] == Years(members[..n]);
      } else {
        assert Years(members) == Years(members[..n]);
      }
    }
  }

  lemma {:induction false} AllYears(members: seq<Member>)
    ensures |Years(members)| == CountOf(members, (m: Member) => m.year.Some?)
  {
    if members != [] {
      AllYears(members[..|members| - 1]);
    }
  }

  /** The two years in the middle of those the members have. */
  ghost predicate InTheMiddle(members: seq<Member>, lower: int, upper: int) {
    var dated := CountOf(members, (m: Member) => m.year.Some?);
    && 2 * CountOf(members, (m: Member) => m.year.Some? && m.year.value < lower) < dated
    && 2 * CountOf(members, (m: Member) => m.year.Some? && m.year.value > lower) <= dated
    && 2 * CountOf(members, (m: Member) => m.year.Some? && m.year.value > upper) < dated
    && 2 * CountOf(members, (m: Member) => m.year.Some? && m.year.value < upper) <= dated
  }

  lemma SameCount(members: seq<Member>, years: seq<int>, p: int -> bool, q: Member -> bool)
    requires multiset(years) == multiset(Years(members))
    requires forall m :: Dated(p)(m) <==> q(m)
    ensures CountOf(years, p) == CountOf(members, q)
  {
    CountPermuted(years, Years(members), p);
    YearsCounted(members, p);
    CountAgrees(members, Dated(p), q);
  }

  lemma HalvesOfMembers(members: seq<Member>, years: seq<int>, lower: int, upper: int)
    requires multiset(years) == multiset(Years(members)) && Halves(years, lower, upper)
    ensures InTheMiddle(members, lower, upper)
  {
    AllYears(members);
    assert |years| == |multiset(years)| == |Years(members)|;
    SameCount(members, years, (y: int) => y < lower, (m: Member) => m.year.Some? && m.year.value < lower);
    SameCount(members, years, (y: int) => y > lower, (m: Member) => m.year.Some? && m.year.value > lower);
    SameCount(members, years, (y: int) => y > upper, (m: Member) => m.year.Some? && m.year.value > upper);
    SameCount(members, years, (y: int) => y < upper, (m: Member) => m.year.Some? && m.year.value < upper);
  }

  /** The median is half-way between the two years in the middle, and there is one as soon as any
      member has a year. */
  lemma MedianIsMiddle(area: Area)
    ensures MedianYear(area).Some? <==> exists m :: m in area.members && m.year.Some?
    ensures MedianYear(area).Some? ==>
      exists lower, upper :: InTheMiddle(area.members, lower, upper)
        && 2.0 * MedianYear(area).value == (lower + upper) as real
  {
    var years := InOrder(Years(area.members));
    YearsInOrder(Years(area.members));
    AllYears(area.members);
    AnyDated(area.members);
    if years != [] {
      MiddleTwo(years);
      var lower, upper :| Halves(years, lower, upper) && 2.0 * MiddleOf(years) == (lower + upper) as real;
      HalvesOfMembers(area.members, years, lower, upper);
    }
  }

  lemma {:induction false} AnyDated(members: seq<Member>)
    ensures Years(members) != [] <==> exists m :: m in members && m.year.Some?
  {
    if members != [] {
      var n := |members| - 1;
      AnyDated(members[..n]);
      assert members == members[..n] + [members[n]];
    }
  }

  /** How many passages name the entity. */
  ghost function Presence(passages: seq<set<Id>>, id: Id): nat {
    CountOf(passages, (p: set<Id>) => id in p)
  }

  ghost function Occurrences(members: seq<Member>, passages: seq<set<Id>>): nat {
    if members == [] then 0 else
      var n := |members| - 1;
      Occurrences(members[..n], passages) + Presence(passages, members[n].id)
  }

  ghost function Breadth(area: Area, passages: seq<set<Id>>): real {
    if area.members == [] then 0.0
    else Occurrences(area.members, passages) as real / |area.members| as real
  }

  ghost function ProfileOf(area: Area, passages: seq<set<Id>>): Profile {
    Profile(MedianYear(area), Breadth(area, passages))
  }

  method CountPresence(passages: seq<set<Id>>) returns (presence: map<Id, nat>)
    ensures forall id :: Counted(presence, id) == Presence(passages, id)
  {
    presence := map[];
    for k := 0 to |passages|
      invariant forall id :: Counted(presence, id) == Presence(passages[..k], id)
    {
      ghost var before := presence;
      var todo := passages[k];
      while todo != {}
        invariant todo <= passages[k]
        invariant forall id :: Counted(presence, id) == Counted(before, id) + if id in passages[k] - todo then 1 else 0
        decreases |todo|
      {
        ghost var _ := Pick(todo);
        var id :| id in todo;
        todo := todo - {id};
        presence := presence[id := Counted(presence, id) + 1];
      }
      forall id
        ensures Presence(passages[..k + 1], id) == Presence(passages[..k], id) + if id in passages[k] then 1 else 0
      {
        CountStep(passages, k, (p: set<Id>) => id in p);
      }
    }
    assert passages[..|passages|] == passages;
  }

  function Counted<K>(counts: map<K, nat>, k: K): nat {
    if k in counts then counts[k] else 0
  }

  /** `_breadth` */
  method BreadthFrom(area: Area, presence: map<Id, nat>, ghost passages: seq<set<Id>>) returns (breadth: real)
    requires forall id :: Counted(presence, id) == Presence(passages, id)
    ensures breadth == Breadth(area, passages)
  {
    if area.members == [] {
      return 0.0;
    }
    var total := 0;
    for k := 0 to |area.members|
      invariant total == Occurrences(area.members[..k], passages)
    {
      assert area.members[..k + 1][..k] == area.members[..k];
      total := total + Counted(presence, area.members[k].id);
    }
    assert area.members[..|area.members|] == area.members;
    return total as real / |area.members| as real;
  }

  // ----- Crossings -----

  /** An area of this slug has the entity. */
  ghost predicate Lives(areas: seq<Area>, id: Id, s: Slug) {
    exists i :: 0 <= i < |areas| && id in MemberIds(areas[i]) && areas[i].slug == s
  }

  ghost predicate DisjointAreas(areas: seq<Area>) {
    forall i, j :: 0 <= i < j < |areas| ==> MemberIds(areas[i]) !! MemberIds(areas[j])
  }

  /** A stated relationship from one area into another. */
  ghost predicate Crosses(areas: seq<Area>, s: Slug, t: Slug, r: Relation) {
    !r.inferred && s != t && Lives(areas, r.source, s) && Lives(areas, r.target, t)
  }

  ghost function Crossing(areas: seq<Area>, s: Slug, t: Slug): Relation -> bool {
    (r: Relation) => Crosses(areas, s, t, r)
  }

  ghost function Crossings(c: Corpus, s: Slug, t: Slug): nat {
    CountOf(c.relations, Crossing(c.areas, s, t))
  }

  ghost predicate Homed(areas: seq<Area>, home: map<Id, Slug>) {
    forall id, s :: Lives(areas, id, s) <==> id in home && home[id] == s
  }

  /** Line 151. An entity of two areas would count for the later one; no projection has any. */
  method FindHomes(areas: seq<Area>) returns (home: map<Id, Slug>)
    requires DisjointAreas(areas)
    ensures Homed(areas, home)
  {
    home := map[];
    for i := 0 to |areas|
      invariant Homed(areas[..i], home)
    {
      ghost var before := home;
      home := HomeMembers(areas[i], home);
      HomesStep(areas, i, before, home);
    }
    assert areas[..|areas|] == areas;
  }

  ghost predicate HomesAdded(home0: map<Id, Slug>, home: map<Id, Slug>, ids: set<Id>, s: Slug) {
    && home.Keys == home0.Keys + ids
    && forall id :: id in home ==> home[id] == if id in ids then s else home0[id]
  }

  method HomeMembers(area: Area, home0: map<Id, Slug>) returns (home: map<Id, Slug>)
    ensures HomesAdded(home0, home, MemberIds(area), area.slug)
  {
    home := home0;
    for j := 0 to |area.members|
      invariant HomesAdded(home0, home, set m | m in area.members[..j] :: m.id, area.slug)
    {
      home := home[area.members[j].id := area.slug];
      assert area.members[..j + 1] == area.members[..j] + [area.members[j]];
    }
    assert area.members[..|area.members|] == area.members;
  }

  lemma HomesStep(areas: seq<Area>, i: nat, before: map<Id, Slug>, home: map<Id, Slug>)
    requires i < |areas| && DisjointAreas(areas)
    requires Homed(areas[..i], before) && HomesAdded(before, home, MemberIds(areas[i]), areas[i].slug)
    ensures Homed(areas[..i + 1], home)
  {
    var longer := areas[..i + 1];
    forall id, s
      ensures Lives(longer, id, s) <==> id in home && home[id] == s
    {
      LivesStep(areas, i, id, s);
      if id in MemberIds(areas[i]) {
        LivesOnce(areas, i, id, s);
      }
    }
  }

  lemma LivesStep(areas: seq<Area>, i: nat, id: Id, s: Slug)
    requires i < |areas|
    ensures Lives(areas[..i + 1], id, s) <==>
            Lives(areas[..i], id, s) || (id in MemberIds(areas[i]) && areas[i].slug == s)
  {
    assert areas[..i + 1] == areas[..i] + [areas[i]];
    var longer := areas[..i + 1];
    if Lives(areas[..i], id, s) {
      var k :| 0 <= k < i && id in MemberIds(areas[..i][k]) && areas[..i][k].slug == s;
      assert longer[k] == areas[k];
    }
    if Lives(longer, id, s) {
      var k :| 0 <= k < i + 1 && id in MemberIds(longer[k]) && longer[k].slug == s;
      assert k < i ==> areas[..i][k] == longer[k];
    }
    if id in MemberIds(areas[i]) && areas[i].slug == s {
      assert longer[i] == areas[i];
    }
  }

  lemma LivesOnce(areas: seq<Area>, i: nat, id: Id, s: Slug)
    requires i < |areas| && DisjointAreas(areas) && id in MemberIds(areas[i])
    ensures !Lives(areas[..i], id, s)
  {
    forall k | 0 <= k < i
      ensures id !in MemberIds(areas[..i][k])
    {
      assert MemberIds(areas[k]) !! MemberIds(areas[i]);
    }
  }

  /** Lines 157-169 */
  method CountCrossings(areas: seq<Area>, home: map<Id, Slug>, relations: seq<Relation>)
    returns (crossings: map<(Slug, Slug), nat>)
    requires Homed(areas, home)
    ensures forall s, t :: Counted(crossings, (s, t)) == CountOf(relations, Crossing(areas, s, t))
  {
    crossings := map[];
    for k := 0 to |relations|
      invariant forall s, t :: Counted(crossings, (s, t)) == CountOf(relations[..k], Crossing(areas, s, t))
    {
      var r := relations[k];
      forall s, t
        ensures CountOf(relations[..k + 1], Crossing(areas, s, t))
             == CountOf(relations[..k], Crossing(areas, s, t)) + if Crosses(areas, s, t, r) then 1 else 0
      {
        CountStep(relations, k, Crossing(areas, s, t));
      }
      if r.inferred || r.source !in home || r.target !in home || home[r.source] == home[r.target] {
        continue;
      }
      var pair := (home[r.source], home[r.target]);
      crossings := crossings[pair := Counted(crossings, pair) + 1];
    }
    assert relations[..|relations|] == relations;
  }

  // ----- All pairs -----

  /** The evidence that `a` comes before `b`; negative when it comes after. */
  ghost function Evidence(c: Corpus, a: Area, b: Area): Signals {
    Weigh(Crossings(c, a.slug, b.slug), Crossings(c, b.slug, a.slug),
          ProfileOf(a, c.passages), ProfileOf(b, c.passages))
  }

  /** The claim made is the one the evidence favours; nothing either way, and the slugs decide. */
  ghost predicate Claimed(c: Corpus, a: Area, b: Area) {
    && a.slug != b.slug
    && (Evidence(c, a, b).Total() > 0.0 || (Evidence(c, a, b).Total() == 0.0 && Before(a.slug, b.slug)))
  }

  /** Whatever is claimed of two areas is there with its evidence, and nothing else is. */
  ghost predicate SignalsOf(c: Corpus, signals: SignalMap) {
    && (forall a, b :: a in c.areas && b in c.areas && Claimed(c, a, b) ==>
         (a.slug, b.slug) in signals && signals[(a.slug, b.slug)] == Evidence(c, a, b))
    && (forall p :: p in signals ==>
          exists a, b :: a in c.areas && b in c.areas && Claimed(c, a, b) && p == (a.slug, b.slug))
  }

  ghost predicate WellFormed(c: Corpus) {
    DistinctSlugs(c.areas) && DisjointAreas(c.areas)
  }

  /** Where the loop records the pair, and what. */
  ghost function KeyFor(c: Corpus, a: Area, b: Area): (Slug, Slug) {
    if Evidence(c, a, b).Total() >= 0.0 then (a.slug, b.slug) else (b.slug, a.slug)
  }

  ghost function ValueFor(c: Corpus, a: Area, b: Area): Signals {
    if Evidence(c, a, b).Total() >= 0.0 then Evidence(c, a, b) else Reversed(Evidence(c, a, b))
  }

  ghost predicate BySlug(c: Corpus, a: Area, b: Area) {
    a in c.areas && b in c.areas && Before(a.slug, b.slug)
  }

  ghost predicate Entered(c: Corpus, signals: SignalMap, a: Area, b: Area) {
    KeyFor(c, a, b) in signals && signals[KeyFor(c, a, b)] == ValueFor(c, a, b)
  }

  ghost function KeyOf(c: Corpus): ((Area, Area)) -> (Slug, Slug) {
    (pair: (Area, Area)) => KeyFor(c, pair.0, pair.1)
  }

  ghost function ValueOf(c: Corpus): ((Area, Area)) -> Signals {
    (pair: (Area, Area)) => ValueFor(c, pair.0, pair.1)
  }

  /** The table has what is done, and nothing else. */
  ghost predicate Tabulates<D(!new), K(!new), V(!new)>(table: map<K, V>, done: set<D>, key: D -> K, value: D -> V) {
    && (forall d :: d in done ==> key(d) in table && table[key(d)] == value(d))
    && (forall k :: k in table ==> exists d :: d in done && key(d) == k)
  }

  lemma TabulateOne<D(!new), K(!new), V(!new)>(table: map<K, V>, done: set<D>, key: D -> K, value: D -> V, x: D)
    requires Tabulates(table, done, key, value)
    requires forall d :: d in done && key(d) == key(x) ==> value(d) == value(x)
    ensures Tabulates(table[key(x) := value(x)], done + {x}, key, value)
  {
    var later, more := table[key(x) := value(x)], done + {x};
    forall k | k in later
      ensures exists d :: d in more && key(d) == k
    {
      assert x in more;
      if k in table {
        var d :| d in done && key(d) == k;
        assert d in more;
      }
    }
  }

  ghost predicate Recorded(c: Corpus, signals: SignalMap, done: set<(Area, Area)>) {
    && (forall pair :: pair in done ==> BySlug(c, pair.0, pair.1))
    && Tabulates(signals, done, KeyOf(c), ValueOf(c))
  }

  lemma SameSlug(areas: seq<Area>, a: Area, b: Area)
    requires DistinctSlugs(areas) && a in areas && b in areas && a.slug == b.slug
    ensures a == b
  {
    var i :| 0 <= i < |areas| && areas[i] == a;
    var j :| 0 <= j < |areas| && areas[j] == b;
  }

  lemma KeysApart(c: Corpus, a: Area, b: Area, x: Area, y: Area)
    requires WellFormed(c) && BySlug(c, a, b) && BySlug(c, x, y)
    requires KeyFor(c, a, b) == KeyFor(c, x, y)
    ensures a == x && b == y
  {
    BeforeAsymmetric(a.slug, b.slug);
    SameSlug(c.areas, a, x);
    SameSlug(c.areas, b, y);
  }

  lemma RecordOne(c: Corpus, signals: SignalMap, done: set<(Area, Area)>, a: Area, b: Area)
    requires WellFormed(c) && Recorded(c, signals, done) && BySlug(c, a, b)
    ensures Recorded(c, signals[KeyFor(c, a, b) := ValueFor(c, a, b)], done + {(a, b)})
  {
    forall pair | pair in done && KeyOf(c)(pair) == KeyOf(c)((a, b))
      ensures ValueOf(c)(pair) == ValueOf(c)((a, b))
    {
      KeysApart(c, a, b, pair.0, pair.1);
    }
    TabulateOne(signals, done, KeyOf(c), ValueOf(c), (a, b));
  }

  lemma EvidenceReversed(c: Corpus, a: Area, b: Area)
    ensures Evidence(c, b, a) == Reversed(Evidence(c, a, b))
    ensures Evidence(c, b, a).Total() == -Evidence(c, a, b).Total()
  {
    WeighReversed(Crossings(c, a.slug, b.slug), Crossings(c, b.slug, a.slug),
                  ProfileOf(a, c.passages), ProfileOf(b, c.passages));
  }

  lemma ClaimEntered(c: Corpus, signals: SignalMap, a: Area, b: Area)
    requires Claimed(c, a, b)
    requires BySlug(c, a, b) ==> Entered(c, signals, a, b)
    requires BySlug(c, b, a) ==> Entered(c, signals, b, a)
    requires a in c.areas && b in c.areas
    ensures (a.slug, b.slug) in signals && signals[(a.slug, b.slug)] == Evidence(c, a, b)
  {
    BeforeTotal(a.slug, b.slug);
    BeforeAsymmetric(a.slug, b.slug);
    EvidenceReversed(c, a, b);
  }

  lemma KeyClaimed(c: Corpus, a: Area, b: Area)
    requires BySlug(c, a, b)
    ensures exists x, y :: x in c.areas && y in c.areas && Claimed(c, x, y) && KeyFor(c, a, b) == (x.slug, y.slug)
  {
    EvidenceReversed(c, a, b);
    BeforeAsymmetric(a.slug, a.slug);
    assert Claimed(c, a, b) || Claimed(c, b, a);
  }

  lemma DoneEntered(c: Corpus, signals: SignalMap, done: set<(Area, Area)>, a: Area, b: Area)
    requires Recorded(c, signals, done)
    requires BySlug(c, a, b) ==> (a, b) in done
    ensures BySlug(c, a, b) ==> Entered(c, signals, a, b)
  {
    if BySlug(c, a, b) {
      assert KeyOf(c)((a, b)) in signals;
    }
  }

  lemma AllRecorded(c: Corpus, signals: SignalMap, done: set<(Area, Area)>)
    requires Recorded(c, signals, done)
    requires forall a, b :: BySlug(c, a, b) ==> (a, b) in done
    ensures SignalsOf(c, signals)
  {
    forall a, b | a in c.areas && b in c.areas && Claimed(c, a, b)
      ensures (a.slug, b.slug) in signals && signals[(a.slug, b.slug)] == Evidence(c, a, b)
    {
      DoneEntered(c, signals, done, a, b);
      DoneEntered(c, signals, done, b, a);
      ClaimEntered(c, signals, a, b);
    }
    forall p | p in signals
      ensures exists a, b :: a in c.areas && b in c.areas && Claimed(c, a, b) && p == (a.slug, b.slug)
    {
      var pair :| pair in done && KeyOf(c)(pair) == p;
      KeyClaimed(c, pair.0, pair.1);
    }
  }

  ghost predicate Tables(c: Corpus, crossings: map<(Slug, Slug), nat>, medians: map<Slug, Option<real>>,
                         breadths: map<Slug, real>) {
    && (forall s, t :: Counted(crossings, (s, t)) == Crossings(c, s, t))
    && (forall a :: a in c.areas ==> a.slug in medians && medians[a.slug] == MedianYear(a))
    && (forall a :: a in c.areas ==> a.slug in breadths && breadths[a.slug] == Breadth(a, c.passages))
  }

  /** Lines 171-172 */
  method AreaTables(c: Corpus, presence: map<Id, nat>)
    returns (medians: map<Slug, Option<real>>, breadths: map<Slug, real>)
    requires DistinctSlugs(c.areas)
    requires forall id :: Counted(presence, id) == Presence(c.passages, id)
    ensures forall a :: a in c.areas ==> a.slug in medians && medians[a.slug] == MedianYear(a)
    ensures forall a :: a in c.areas ==> a.slug in breadths && breadths[a.slug] == Breadth(a, c.passages)
  {
    medians, breadths := map[], map[];
    for k := 0 to |c.areas|
      invariant forall i :: 0 <= i < k ==>
                  c.areas[i].slug in medians && medians[c.areas[i].slug] == MedianYear(c.areas[i])
      invariant forall i :: 0 <= i < k ==>
                  c.areas[i].slug in breadths && breadths[c.areas[i].slug] == Breadth(c.areas[i], c.passages)
    {
      var area := c.areas[k];
      var breadth := BreadthFrom(area, presence, c.passages);
      medians := medians[area.slug := MedianYear(area)];
      breadths := breadths[area.slug := breadth];
    }
  }

  /** Lines 179-203 */
  method ScorePair(c: Corpus, crossings: map<(Slug, Slug), nat>, medians: map<Slug, Option<real>>,
                   breadths: map<Slug, real>, before: Area, after: Area)
    returns (key: (Slug, Slug), score: Signals)
    requires Tables(c, crossings, medians, breadths) && BySlug(c, before, after)
    ensures key == KeyFor(c, before, after) && score == ValueFor(c, before, after)
  {
    var forward := Counted(crossings, (before.slug, after.slug));
    var backward := Counted(crossings, (after.slug, before.slug));
    score := Signals(Reference(forward, backward), Temporal(medians[before.slug], medians[after.slug]),
                     Wider(breadths[before.slug], breadths[after.slug]));
    assert score == Evidence(c, before, after);
    if score.Total() >= 0.0 {
      key := (before.slug, after.slug);
    } else {
      key, score := (after.slug, before.slug), Signals(-score.references, -score.temporal, -score.breadth);
    }
  }

  /** The pair is scored, if it is in slug order. */
  ghost predicate PairDone(c: Corpus, done: set<(Area, Area)>, before: Area, after: Area) {
    BySlug(c, before, after) ==> (before, after) in done
  }

  lemma PairsStay(c: Corpus, done: set<(Area, Area)>, more: set<(Area, Area)>, before: Area, j: nat)
    requires j <= |c.areas| && done <= more
    requires forall k :: 0 <= k < j ==> PairDone(c, done, before, c.areas[k])
    ensures forall k :: 0 <= k < j ==> PairDone(c, more, before, c.areas[k])
  {
  }

  lemma RowFromPairs(c: Corpus, done: set<(Area, Area)>, before: Area)
    requires forall k :: 0 <= k < |c.areas| ==> PairDone(c, done, before, c.areas[k])
    ensures RowDone(c, done, before)
  {
    forall after | BySlug(c, before, after)
      ensures (before, after) in done
    {
      var k :| 0 <= k < |c.areas| && c.areas[k] == after;
      assert PairDone(c, done, before, c.areas[k]);
    }
  }

  /** Lines 177-203 */
  method RecordPair(c: Corpus, crossings: map<(Slug, Slug), nat>, medians: map<Slug, Option<real>>,
                    breadths: map<Slug, real>, before: Area, after: Area,
                    signals0: SignalMap, ghost done0: set<(Area, Area)>)
    returns (signals: SignalMap, ghost done: set<(Area, Area)>)
    requires WellFormed(c) && Tables(c, crossings, medians, breadths)
    requires before in c.areas && after in c.areas && Recorded(c, signals0, done0)
    ensures Recorded(c, signals, done) && done0 <= done
    ensures PairDone(c, done, before, after)
  {
    signals, done := signals0, done0;
    if before.slug == after.slug || Before(after.slug, before.slug) {
      BeforeAsymmetric(before.slug, after.slug);
      return;
    }
    BeforeTotal(before.slug, after.slug);
    var key, score := ScorePair(c, crossings, medians, breadths, before, after);
    RecordOne(c, signals, done, before, after);
    signals := signals[key := score];
    done := done + {(before, after)};
  }

  /** Every pair the area is the lower of has been scored. */
  ghost predicate RowDone(c: Corpus, done: set<(Area, Area)>, before: Area) {
    forall after :: BySlug(c, before, after) ==> (before, after) in done
  }

  lemma RowStays(c: Corpus, done: set<(Area, Area)>, more: set<(Area, Area)>, before: Area)
    requires RowDone(c, done, before) && done <= more
    ensures RowDone(c, more, before)
  {
  }

  lemma AllRowsDone(c: Corpus, done: set<(Area, Area)>)
    requires forall k :: 0 <= k < |c.areas| ==> RowDone(c, done, c.areas[k])
    ensures forall a, b :: BySlug(c, a, b) ==> (a, b) in done
  {
    forall a, b | BySlug(c, a, b)
      ensures (a, b) in done
    {
      var k :| 0 <= k < |c.areas| && c.areas[k] == a;
      assert RowDone(c, done, c.areas[k]);
    }
  }

  /** Lines 176-203 */
  method ScoreRow(c: Corpus, crossings: map<(Slug, Slug), nat>, medians: map<Slug, Option<real>>,
                  breadths: map<Slug, real>, before: Area, signals0: SignalMap, ghost done0: set<(Area, Area)>)
    returns (signals: SignalMap, ghost done: set<(Area, Area)>)
    requires WellFormed(c) && Tables(c, crossings, medians, breadths)
    requires before in c.areas && Recorded(c, signals0, done0)
    ensures Recorded(c, signals, done) && done0 <= done && RowDone(c, done, before)
  {
    signals, done := signals0, done0;
    for j := 0 to |c.areas|
      invariant done0 <= done && Recorded(c, signals, done)
      invariant forall k :: 0 <= k < j ==> PairDone(c, done, before, c.areas[k])
    {
      ghost var was := done;
      signals, done := RecordPair(c, crossings, medians, breadths, before, c.areas[j], signals, done);
      PairsStay(c, was, done, before, j);
    }
    RowFromPairs(c, done, before);
  }

  /** `_signal_pairs` */
  method FindSignals(c: Corpus) returns (signals: SignalMap)
    requires WellFormed(c)
    ensures SignalsOf(c, signals)
  {
    var home := FindHomes(c.areas);
    var presence := CountPresence(c.passages);
    var crossings := CountCrossings(c.areas, home, c.relations);
    var medians, breadths := AreaTables(c, presence);
    signals := map[];
    ghost var done: set<(Area, Area)> := {};
    for i := 0 to |c.areas|
      invariant Recorded(c, signals, done)
      invariant forall k :: 0 <= k < i ==> RowDone(c, done, c.areas[k])
    {
      ghost var before := done;
      signals, done := ScoreRow(c, crossings, medians, breadths, c.areas[i], signals, done);
      forall k | 0 <= k < i
        ensures RowDone(c, done, c.areas[k])
      {
        RowStays(c, before, done, c.areas[k]);
      }
    }
    AllRowsDone(c, done);
    AllRecorded(c, signals, done);
  }

  // ----- What the signals promise -----

  lemma BreadthNotNegative(area: Area, passages: seq<set<Id>>)
    ensures Breadth(area, passages) >= 0.0
  {
    if area.members != [] {
      QuotientNotNegative(Occurrences(area.members, passages) as real, |area.members| as real);
    }
  }

  lemma QuotientNotNegative(x: real, y: real)
    requires x >= 0.0 && y > 0.0
    ensures x / y >= 0.0
  {
  }

  /** Every signal joins two different areas, and its total lies between 0 and 1.6. */
  lemma SignalsBounded(c: Corpus, signals: SignalMap, p: (Slug, Slug))
    requires SignalsOf(c, signals) && p in signals
    ensures 0.0 <= signals[p].Total() <= 1.6
    ensures p.0 != p.1 && exists a, b :: a in c.areas && b in c.areas && p == (a.slug, b.slug)
  {
    var a, b :| a in c.areas && b in c.areas && Claimed(c, a, b) && p == (a.slug, b.slug);
    BreadthNotNegative(a, c.passages);
    BreadthNotNegative(b, c.passages);
    WeighWithin(Crossings(c, a.slug, b.slug), Crossings(c, b.slug, a.slug),
                ProfileOf(a, c.passages), ProfileOf(b, c.passages));
  }

  /** Of two areas exactly one order is claimed. */
  lemma OneOrientation(c: Corpus, signals: SignalMap, a: Area, b: Area)
    requires WellFormed(c) && SignalsOf(c, signals)
    requires a in c.areas && b in c.areas && a != b
    ensures (a.slug, b.slug) in signals <==> (b.slug, a.slug) !in signals
    ensures (a.slug, b.slug) in signals <==> Claimed(c, a, b)
  {
    if a.slug == b.slug {
      SameSlug(c.areas, a, b);
    }
    SignalIsClaim(c, signals, a, b);
    SignalIsClaim(c, signals, b, a);
    EvidenceReversed(c, a, b);
    BeforeTotal(a.slug, b.slug);
    BeforeAsymmetric(a.slug, b.slug);
  }

  // ----- What the evidence is -----

  lemma ReferenceSays(forward: nat, backward: nat)
    ensures Reference(forward, backward) * (forward + backward) as real == (backward - forward) as real
    ensures forward + backward == 0 ==> Reference(forward, backward) == 0.0
  {
    if forward + backward > 0 {
      var traffic := (forward + backward) as real;
      assert (backward - forward) as real / traffic * traffic == (backward - forward) as real;
    }
  }

  lemma WiderSays(wide: real, narrow: real)
    requires wide >= 0.0 && narrow >= 0.0
    ensures wide >= narrow ==> Wider(wide, narrow) * wide == 0.35 * (wide - narrow)
    ensures narrow >= wide ==> Wider(wide, narrow) * narrow == 0.35 * (wide - narrow)
    ensures wide == narrow ==> Wider(wide, narrow) == 0.0
  {
    var widest := if wide >= narrow then wide else narrow;
    if widest > 0.0 {
      assert 0.35 * (wide - narrow) / widest * widest == 0.35 * (wide - narrow);
    }
  }

  ghost predicate ReferencesAre(e: Signals, out: nat, back: nat) {
    e.references * (out + back) as real == (back - out) as real && (out + back == 0 ==> e.references == 0.0)
  }

  predicate TemporalIs(e: Signals, p: Option<real>, q: Option<real>) {
    && (p.Some? && q.Some? && p.value < q.value ==> e.temporal == 0.25)
    && (p.Some? && q.Some? && p.value > q.value ==> e.temporal == -0.25)
    && (p.None? || q.None? || p.value == q.value ==> e.temporal == 0.0)
  }

  predicate BreadthIs(e: Signals, wide: real, narrow: real) {
    && (wide >= narrow ==> e.breadth * wide == 0.35 * (wide - narrow))
    && (narrow >= wide ==> e.breadth * narrow == 0.35 * (wide - narrow))
    && (wide == narrow ==> e.breadth == 0.0)
  }

  lemma WeighSays(out: nat, back: nat, a: Profile, b: Profile)
    requires a.breadth >= 0.0 && b.breadth >= 0.0
    ensures var e := Weigh(out, back, a, b);
      ReferencesAre(e, out, back) && TemporalIs(e, a.median, b.median) && BreadthIs(e, a.breadth, b.breadth)
  {
    ReferenceSays(out, back);
    WiderSays(a.breadth, b.breadth);
  }

  /** References are the surplus of citations of `a` as a share of the traffic; a quarter goes to
      the earlier median; and 0.35 to the wider area, in proportion to its lead. */
  lemma EvidenceSays(c: Corpus, a: Area, b: Area)
    ensures ReferencesAre(Evidence(c, a, b), Crossings(c, a.slug, b.slug), Crossings(c, b.slug, a.slug))
    ensures TemporalIs(Evidence(c, a, b), MedianYear(a), MedianYear(b))
    ensures BreadthIs(Evidence(c, a, b), Breadth(a, c.passages), Breadth(b, c.passages))
  {
    BreadthNotNegative(a, c.passages);
    BreadthNotNegative(b, c.passages);
    WeighSays(Crossings(c, a.slug, b.slug), Crossings(c, b.slug, a.slug),
              ProfileOf(a, c.passages), ProfileOf(b, c.passages));
  }

  /** Cited no less than it cites, no later and no narrower. */
  ghost predicate NotBehind(c: Corpus, a: Area, b: Area) {
    && Crossings(c, b.slug, a.slug) >= Crossings(c, a.slug, b.slug)
    && (MedianYear(a).Some? && MedianYear(b).Some? ==> MedianYear(a).value <= MedianYear(b).value)
    && Breadth(a, c.passages) >= Breadth(b, c.passages)
  }

  lemma SignOfShare(share: real, whole: real, part: real)
    requires whole >= 0.0 && share * whole == part && (whole == 0.0 ==> share == 0.0)
    ensures part >= 0.0 ==> share >= 0.0
    ensures part > 0.0 ==> share > 0.0
  {
    if share < 0.0 && whole > 0.0 {
      PositiveProduct(-share, whole, -part);
    }
  }

  lemma EvidenceFavours(c: Corpus, a: Area, b: Area)
    requires NotBehind(c, a, b)
    ensures var e := Evidence(c, a, b); e.references >= 0.0 && e.temporal >= 0.0 && e.breadth >= 0.0
    ensures var e := Evidence(c, a, b);
      !NotBehind(c, b, a) ==> e.references > 0.0 || e.temporal > 0.0 || e.breadth > 0.0
  {
    EvidenceSays(c, a, b);
    BreadthNotNegative(b, c.passages);
    var e, out, back := Evidence(c, a, b), Crossings(c, a.slug, b.slug), Crossings(c, b.slug, a.slug);
    var wide, narrow := Breadth(a, c.passages), Breadth(b, c.passages);
    SignOfShare(e.references, (out + back) as real, (back - out) as real);
    SignOfShare(e.breadth, wide, 0.35 * (wide - narrow));
  }

  /** An area that is behind in nothing is recorded as the earlier one if it is ahead in something:
      cited more than it cites, earlier or wider. Two that are level go by slug. */
  lemma FavouredFirst(c: Corpus, signals: SignalMap, a: Area, b: Area)
    requires WellFormed(c) && SignalsOf(c, signals)
    requires a in c.areas && b in c.areas && a != b && NotBehind(c, a, b)
    ensures !NotBehind(c, b, a) ==> (a.slug, b.slug) in signals && (b.slug, a.slug) !in signals
    ensures NotBehind(c, b, a) ==> ((a.slug, b.slug) in signals <==> Before(a.slug, b.slug))
  {
    OneOrientation(c, signals, a, b);
    if a.slug == b.slug {
      SameSlug(c.areas, a, b);
    }
    EvidenceFavours(c, a, b);
    if NotBehind(c, b, a) {
      EvidenceFavours(c, b, a);
      EvidenceReversed(c, a, b);
    }
  }

  /** What is recorded of two areas has their evidence, all three parts of it not negative in sum. */
  lemma SignalSays(c: Corpus, signals: SignalMap, a: Area, b: Area)
    requires WellFormed(c) && SignalsOf(c, signals) && a in c.areas && b in c.areas && a != b
    ensures var e := Evidence(c, a, b); var total := e.references + e.temporal + e.breadth;
      && ((a.slug, b.slug) in signals <==> total > 0.0 || (total == 0.0 && Before(a.slug, b.slug)))
      && ((a.slug, b.slug) in signals ==> signals[(a.slug, b.slug)] == e)
  {
    OneOrientation(c, signals, a, b);
    if a.slug == b.slug {
      SameSlug(c.areas, a, b);
    }
  }

  lemma SignalIsClaim(c: Corpus, signals: SignalMap, a: Area, b: Area)
    requires WellFormed(c) && SignalsOf(c, signals) && a in c.areas && b in c.areas
    ensures (a.slug, b.slug) in signals <==> Claimed(c, a, b)
  {
    if (a.slug, b.slug) in signals {
      var x, y :| x in c.areas && y in c.areas && Claimed(c, x, y) && (a.slug, b.slug) == (x.slug, y.slug);
      SameSlug(c.areas, a, x);
      SameSlug(c.areas, b, y);
    }
  }

  ghost predicate Reordered(c: Corpus, d: Corpus) {
    multiset(c.areas) == multiset(d.areas) && multiset(c.relations) == multiset(d.relations)
    && multiset(c.passages) == multiset(d.passages)
  }

  lemma SameLives(areas: seq<Area>, areas': seq<Area>, id: Id, s: Slug)
    requires multiset(areas) == multiset(areas') && Lives(areas, id, s)
    ensures Lives(areas', id, s)
  {
    var i :| 0 <= i < |areas| && id in MemberIds(areas[i]) && areas[i].slug == s;
    SameElements(areas, areas', areas[i]);
    var j :| 0 <= j < |areas'| && areas'[j] == areas[i];
  }

  lemma SameCrossings(c: Corpus, d: Corpus, s: Slug, t: Slug)
    requires Reordered(c, d)
    ensures Crossings(c, s, t) == Crossings(d, s, t)
  {
    CountPermuted(c.relations, d.relations, Crossing(c.areas, s, t));
    forall r: Relation
      ensures Crossing(c.areas, s, t)(r) <==> Crossing(d.areas, s, t)(r)
    {
      forall id, u
        ensures Lives(c.areas, id, u) <==> Lives(d.areas, id, u)
      {
        if Lives(c.areas, id, u) {
          SameLives(c.areas, d.areas, id, u);
        }
        if Lives(d.areas, id, u) {
          SameLives(d.areas, c.areas, id, u);
        }
      }
    }
    CountAgrees(d.relations, Crossing(c.areas, s, t), Crossing(d.areas, s, t));
  }

  lemma {:induction false} SameOccurrences(members: seq<Member>, passages: seq<set<Id>>, passages': seq<set<Id>>)
    requires multiset(passages) == multiset(passages')
    ensures Occurrences(members, passages) == Occurrences(members, passages')
    decreases |members|
  {
    if members != [] {
      var n := |members| - 1;
      SameOccurrences(members[..n], passages, passages');
      CountPermuted(passages, passages', (p: set<Id>) => members[n].id in p);
    }
  }

  lemma SameEvidence(c: Corpus, d: Corpus, a: Area, b: Area)
    requires Reordered(c, d)
    ensures Evidence(c, a, b) == Evidence(d, a, b)
  {
    SameCrossings(c, d, a.slug, b.slug);
    SameCrossings(c, d, b.slug, a.slug);
    SameOccurrences(a.members, c.passages, d.passages);
    SameOccurrences(b.members, c.passages, d.passages);
  }

  lemma SignalsWithin(c: Corpus, d: Corpus, signals: SignalMap, signals': SignalMap, p: (Slug, Slug))
    requires Reordered(c, d)
    requires SignalsOf(c, signals) && SignalsOf(d, signals') && p in signals
    ensures p in signals' && signals'[p] == signals[p]
  {
    var a, b :| a in c.areas && b in c.areas && Claimed(c, a, b) && p == (a.slug, b.slug);
    SameElements(c.areas, d.areas, a);
    SameElements(c.areas, d.areas, b);
    SameEvidence(c, d, a, b);
    assert Claimed(d, a, b);
  }

  lemma SignalsIncluded(c: Corpus, d: Corpus, signals: SignalMap, signals': SignalMap)
    requires Reordered(c, d) && SignalsOf(c, signals) && SignalsOf(d, signals')
    ensures forall p :: p in signals ==> p in signals' && signals'[p] == signals[p]
  {
    forall p | p in signals
      ensures p in signals' && signals'[p] == signals[p]
    {
      SignalsWithin(c, d, signals, signals', p);
    }
  }

  lemma SameMap<K, V>(m: map<K, V>, n: map<K, V>)
    requires forall k :: k in m ==> k in n && n[k] == m[k]
    requires forall k :: k in n ==> k in m
    ensures m == n
  {
  }

  /** The order areas, relationships and passages come in decides nothing. */
  lemma SignalsUnordered(c: Corpus, d: Corpus, signals: SignalMap, signals': SignalMap)
    requires Reordered(c, d)
    requires SignalsOf(c, signals) && SignalsOf(d, signals')
    ensures signals == signals'
  {
    SignalsIncluded(c, d, signals, signals');
    SignalsIncluded(d, c, signals', signals);
    SameMap(signals, signals');
  }
}
