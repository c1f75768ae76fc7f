/** research_team/dialogue/application/socratic.py: what every step keeps of every dialogue's
    stream, registry entry and tasks, and so what holds in every state of every run. */
module SocraticViews {
  import opened Wrappers
  import opened Dialogue
  import opened SocraticSteps
  import opened Slugs

  // ----- Runs -----

  /** The states gone through, and the steps between them. */
  datatype Run = Run(states: seq<World>, steps: seq<Step>)

  ghost predicate Follows(r: Run, k: nat)
    requires k < |r.steps| && |r.states| == |r.steps| + 1
  {
    Enabled(r.states[k], r.steps[k]) && Next(r.states[k], r.steps[k]).0 == r.states[k + 1]
  }

  ghost predicate IsRun(r: Run) {
    && |r.states| == |r.steps| + 1 && r.states[0] == INITIAL_WORLD
    && forall k {:trigger Follows(r, k)} :: 0 <= k < |r.steps| ==> Follows(r, k)
  }

  /** The run has this state. */
  ghost predicate Within(r: Run, k: nat) {
    IsRun(r) && k < |r.states|
  }

  function Last(r: Run): World
    requires r.states != []
  {
    r.states[|r.states| - 1]
  }

  /** The run, one step further. */
  function Then(r: Run, step: Step): Run
    requires r.states != [] && Enabled(Last(r), step)
  {
    Run(r.states + [Next(Last(r), step).0], r.steps + [step])
  }

  lemma ThenRuns(r: Run, step: Step)
    requires IsRun(r) && Enabled(Last(r), step)
    ensures IsRun(Then(r, step)) && Last(Then(r, step)) == Next(Last(r), step).0
  {
    var longer := Then(r, step);
    forall k | 0 <= k < |longer.steps|
      ensures Follows(longer, k)
    {
      if k < |r.steps| {
        assert Follows(r, k);
      }
    }
  }

  /** A task that still works from a live dialogue it was handed. */
  predicate HasLive(r: Reply) {
    !r.FetchingRow? && !r.FetchingTurns? && !r.Handing?
  }

  /** What is behind the log: the registry's entry, and the live dialogue of the reply under way. */
  datatype Marks = Marks(held: bool, live: bool)

  const UNMARKED := Marks(false, false)

  predicate LiveIn(w: World, id: DialogueId) {
    id in w.replies && HasLive(w.replies[id])
  }

  /** Marks of what is no longer there are gone. */
  function Trim(w: World, id: DialogueId, m: Marks): Marks {
    Marks(m.held && id in w.held, m.live && LiveIn(w, id))
  }

  function Of<K, V>(m: map<K, V>, k: K): Option<V> {
    if k in m then Some(m[k]) else None
  }

  /** An exchange is in the log, and its task has yet to put it in the registry. */
  predicate Outstanding(reply: Option<Reply>) {
    reply.Some? && reply.value.Saved?
  }

  predicate OnItsWay(w: World, id: DialogueId) {
    Outstanding(Of(w.replies, id))
  }

  /** Somebody has had an exchange, other than one still on its way to the registry. */
  predicate MovedPast(stream: seq<Event>, reply: Option<Reply>) {
    |TurnsOf(stream)| > if Outstanding(reply) then 1 else 0
  }

  /** What a `begin` would put now is behind. */
  predicate TooLate(w: World, id: DialogueId) {
    MovedPast(Stream(w, id), Of(w.replies, id))
  }

  ghost function BeginMarks(w: World, id: DialogueId, b: BeginStep, m: Marks): Marks {
    if b.BeginPuts? then m.(held := TooLate(w, id)) else m
  }

  /** What a reply takes from the registry is as far behind as the registry is. */
  ghost function ResumeMarks(w: World, id: DialogueId, r: ResumeStep, m: Marks): Marks {
    if r.ReplyStarts? && id !in w.replies then m.(live := m.held) else m
  }

  /** What a reply puts is as far behind as the reply is; one that ends between its save and
      its put leaves the registry behind. */
  ghost function RespondMarks(w: World, id: DialogueId, a: TurnStep, m: Marks): Marks
    requires CanRespond(w, id, a)
  {
    match a
    case TurnPuts(_) => m.(held := m.live)
    case ReplyEnds => m.(held := m.held || w.replies[id].Saved?)
    case _ => m
  }

  ghost function NewMarks(w: World, step: Step, id: DialogueId, m: Marks): Marks
    requires Enabled(w, step)
  {
    match step
    case Beginning(other, b) => if other == id then BeginMarks(w, id, b, m) else m
    case Resuming(other, r) => if other == id then ResumeMarks(w, id, r, m) else m
    case Turning(other, a) => if other == id then RespondMarks(w, id, a, m) else m
    case _ => m
  }

  /** What of the dialogue is behind the log in the `k`-th state, going by the steps that got
      there. */
  ghost function MarksOf(r: Run, k: nat, id: DialogueId): Marks
    requires Within(r, k)
    decreases k
  {
    if k == 0 then UNMARKED else
      assert Follows(r, k - 1);
      Trim(r.states[k], id, NewMarks(r.states[k - 1], r.steps[k - 1], id, MarksOf(r, k - 1, id)))
  }

  // ----- One dialogue -----

  /** Everything the world holds of one dialogue. */
  datatype View = View(stream: seq<Event>, held: Option<Live>, running: bool, reply: Option<Reply>,
                       begun: Option<Live>, marks: Marks)

  function ViewOf(w: World, id: DialogueId, m: Marks): View {
    View(Stream(w, id), Of(w.held, id), id in w.running, Of(w.replies, id), Of(w.begun, id), m)
  }

  /** A stream that has begun, under its own id. */
  ghost predicate Begun(stream: seq<Event>, id: DialogueId) {
    Shape(stream) && stream != [] && stream[0].id == id
  }

  /** What a reader coming back to this stream would be given. */
  function FromLog(stream: seq<Event>, id: DialogueId): Live
    requires Shape(stream) && stream != []
  {
    var e := stream[0];
    Live(id, e.project, e.topic, e.goal, e.condition, Opening(e.opening) + Spoken(TurnsOf(stream)))
  }

  /** The same dialogue, with fewer exchanges than the log has. */
  ghost predicate Behind(live: Live, stream: seq<Event>, id: DialogueId)
    requires Shape(stream) && stream != []
  {
    var log := FromLog(stream, id);
    && live.(messages := log.messages) == log
    && |live.messages| < |log.messages| && |live.messages| % 2 == |log.messages| % 2
  }

  ghost predicate Current(live: Live, stream: seq<Event>, id: DialogueId, stale: bool)
    requires Shape(stream) && stream != []
  {
    if stale then Behind(live, stream, id) else live == FromLog(stream, id)
  }

  predicate RowTells(row: State, stream: seq<Event>)
    requires Shape(stream) && stream != []
  {
    var e := stream[0];
    row.project == Some(e.project) && row.topic == e.topic && row.goal == e.goal && row.condition == e.condition
    && row.opening == e.opening
  }

  ghost predicate ReplyAgrees(r: Reply, stream: seq<Event>, id: DialogueId, stale: bool)
    requires Shape(stream) && stream != []
  {
    match r
    case FetchingRow(_, _) => true
    case FetchingTurns(project, _, row) => RowTells(row, stream) && row.project == Some(project)
    case Thinking(project, live, _) => Current(live, stream, id, stale) && project == live.project
    case Loading(live, _, asked) => Current(live, stream, id, stale) && asked.position == |live.messages| / 2
    case Saving(live, reply, asked, loaded, next) =>
      && Current(live, stream, id, stale) && asked.position == |live.messages| / 2
      && Begun(loaded, id) && Recorded(loaded, next, reply, asked)
    case Saved(live, reply, asked) =>
      Current(live.Appended(reply, asked.prompt), stream, id, stale) && EndsWith(TurnsOf(stream), (reply, asked.prompt))
    case Handing(_) => true
  }

  predicate EndsWith(turns: seq<Turn>, turn: Turn) {
    turns != [] && turns[|turns| - 1] == turn
  }

  /** The exchange is added, with what it demonstrated, to a dialogue still going on. */
  ghost predicate Recorded(loaded: seq<Event>, next: seq<Event>, reply: string, asked: Asked) {
    && Shape(loaded) && Shape(next) && loaded != [] && !IsConcluded(loaded)
    && loaded <= next && |loaded| < |next| && next[0] == loaded[0]
    && TurnsOf(next) == TurnsOf(loaded) + [(reply, asked.prompt)]
    && (IsConcluded(next) <==> asked.concluded)
    && Written(loaded, next, reply, asked)
  }

  /** The turn, then what was observed if anything was, then the conclusion if it is met; and no more. */
  predicate Written(loaded: seq<Event>, next: seq<Event>, reply: string, asked: Asked) {
    var n := |loaded|;
    && loaded <= next
    && |next| == n + 1 + (if asked.observation.Some? then 1 else 0) + (if asked.concluded then 1 else 0)
    && next[n] == TurnRecorded(reply, asked.prompt, asked.citations)
    && (asked.observation.Some? ==>
          var o := asked.observation.value; next[n + 1] == Observed(o.observation, o.evidence, o.detail))
    && (asked.concluded ==> next[|next| - 1] == Concluded(Met))
  }

  /** What a `begin` has ready for the registry: the dialogue before its first exchange. */
  function AtFirst(stream: seq<Event>, id: DialogueId): Live
    requires Shape(stream) && stream != []
  {
    FromLog(stream, id).(messages := Opening(stream[0].opening))
  }

  /** The registry's entry with the exchange that is on its way to it, if one is. */
  function Caught(held: Live, reply: Option<Reply>): Live {
    if Outstanding(reply) then held.Appended(reply.value.reply, reply.value.asked.prompt) else held
  }

  ghost predicate HeldAgrees(v: View, id: DialogueId)
    requires v.held.Some? && Shape(v.stream) && v.stream != []
  {
    Current(Caught(v.held.value, v.reply), v.stream, id, v.marks.held)
  }

  ghost predicate GoodView(v: View, id: DialogueId) {
    && (v.running <==> v.reply.Some?)
    && (v.stream == [] ==> v.held.None? && v.begun.None? && (v.reply.Some? ==> v.reply.value.FetchingRow?))
    && (v.stream != [] ==>
      && Begun(v.stream, id)
      && (v.begun.Some? ==> v.begun.value == AtFirst(v.stream, id))
      && (v.reply.Some? ==> ReplyAgrees(v.reply.value, v.stream, id, v.marks.live))
      && (v.held.Some? ==> HeldAgrees(v, id)))
    && MarksPlaced(v)
  }

  /** Only what is there is marked. */
  predicate MarksPlaced(v: View) {
    && (v.marks.held ==> v.held.Some?)
    && (v.marks.live ==> v.reply.Some? && HasLive(v.reply.value))
  }

  // ----- What a stream says -----

  lemma SpokenStep(turns: seq<Turn>, turn: Turn)
    ensures Spoken(turns + [turn]) == Spoken(turns) + [Message(User, turn.0), Message(Assistant, turn.1)]
  {
    assert (turns + [turn])[..|turns|] == turns;
  }

  lemma {:induction false} SpokenCount(turns: seq<Turn>)
    ensures |Spoken(turns)| == 2 * |turns|
  {
    if turns != [] {
      SpokenCount(turns[..|turns| - 1]);
    }
  }

  /** The rebuilt history, one exchange later. */
  lemma FromLogStep(loaded: seq<Event>, next: seq<Event>, id: DialogueId, reply: string, asked: Asked)
    requires Recorded(loaded, next, reply, asked)
    ensures FromLog(next, id) == FromLog(loaded, id).Appended(reply, asked.prompt)
    ensures |FromLog(next, id).messages| == |FromLog(loaded, id).messages| + 2
  {
    SpokenStep(TurnsOf(loaded), (reply, asked.prompt));
    assert FromLog(next, id).messages ==
           FromLog(loaded, id).messages + [Message(User, reply), Message(Assistant, asked.prompt)];
  }

  /** Events that record no turn, after a stream still going on. */
  ghost predicate Extends(s: seq<Event>, next: seq<Event>, concluded: bool) {
    && Shape(s) && s != [] && !IsConcluded(s)
    && Shape(next) && s <= next && TurnsOf(next) == TurnsOf(s) && (IsConcluded(next) <==> concluded)
  }

  lemma ExecuteQuietly(s: seq<Event>, command: Command, rest: seq<Command>) returns (next: seq<Event>)
    requires Shape(s) && s != [] && !IsConcluded(s) && (command.Observe? || command.Conclude?)
    ensures Execute(s, [command] + rest) == Execute(next, rest) && Extends(s, next, command.Conclude?)
    ensures |next| == |s| + 1
    ensures command.Observe? ==> next[|s|] == Observed(command.observation, command.evidence, command.detail)
    ensures command.Conclude? ==> next[|s|] == Concluded(command.reason)
  {
    ExecuteOngoing(s, command, rest);
    var e := Decide(command, Fold(s)).event;
    TurnsStep(s, e);
    next := s + [e];
  }

  lemma ExecuteRest(s: seq<Event>, reply: string, asked: Asked) returns (next: seq<Event>)
    requires Shape(s) && s != [] && !IsConcluded(s)
    ensures Execute(s, Exchange(reply, asked)[1..]) == Some(next) && Extends(s, next, asked.concluded)
    ensures |next| == |s| + (if asked.observation.Some? then 1 else 0) + (if asked.concluded then 1 else 0)
    ensures asked.observation.Some? ==>
      var o := asked.observation.value; next[|s|] == Observed(o.observation, o.evidence, o.detail)
    ensures asked.concluded ==> next[|next| - 1] == Concluded(Met)
  {
    var concluding := if asked.concluded then [Conclude(Met)] else [];
    next := s;
    if asked.observation.Some? {
      var o := asked.observation.value;
      var observe := Observe(o.observation, o.evidence, o.detail);
      assert Exchange(reply, asked)[1..] == [observe] + concluding;
      next := ExecuteQuietly(s, observe, concluding);
    } else {
      assert Exchange(reply, asked)[1..] == concluding;
    }
    if asked.concluded {
      assert concluding == [Conclude(Met)] + [];
      next := ExecuteQuietly(next, Conclude(Met), []);
    }
  }

  lemma TurnRecordedFirst(s: seq<Event>, reply: string, asked: Asked) returns (next: seq<Event>)
    requires Shape(s) && s != [] && !IsConcluded(s)
    ensures Execute(s, Exchange(reply, asked)) == Execute(next, Exchange(reply, asked)[1..])
    ensures Shape(next) && !IsConcluded(next) && next == s + [TurnRecorded(reply, asked.prompt, asked.citations)]
    ensures TurnsOf(next) == TurnsOf(s) + [(reply, asked.prompt)]
  {
    var commands := Exchange(reply, asked);
    var turn := RecordTurn(reply, asked.prompt, asked.citations);
    assert commands == [turn] + commands[1..];
    ExecuteOngoing(s, turn, commands[1..]);
    TurnsStep(s, TurnRecorded(reply, asked.prompt, asked.citations));
    next := s + [TurnRecorded(reply, asked.prompt, asked.citations)];
  }

  /** What `_record` makes of a stream: the exchange, and what came with it, or nothing. */
  lemma ExchangeRecorded(loaded: seq<Event>, reply: string, asked: Asked)
    requires Shape(loaded) && loaded != []
    ensures Execute(loaded, Exchange(reply, asked)).Some? <==> !IsConcluded(loaded)
    ensures !IsConcluded(loaded) ==> Recorded(loaded, Execute(loaded, Exchange(reply, asked)).value, reply, asked)
  {
    if IsConcluded(loaded) {
      ExecuteConcluded(loaded, Exchange(reply, asked));
    } else {
      var s := TurnRecordedFirst(loaded, reply, asked);
      var next := ExecuteRest(s, reply, asked);
    }
  }

  // ----- One step, one dialogue -----

  function Unheld(v: View): View {
    v.(held := None, marks := v.marks.(held := false))
  }

  lemma EvictedGood(v: View, id: DialogueId)
    requires GoodView(v, id)
    ensures GoodView(Unheld(v), id)
  {
  }

  function Ended(v: View): View {
    v.(reply := None, running := false, marks := Marks((v.marks.held || Outstanding(v.reply)) && v.held.Some?, false))
  }

  lemma EndedGood(v: View, id: DialogueId)
    requires GoodView(v, id) && v.reply.Some?
    ensures GoodView(Ended(v), id)
  {
  }

  /** A stream that grows by something other than turns changes no history. */
  lemma GrownGood(v: View, stream: seq<Event>, id: DialogueId)
    requires GoodView(v, id) && v.stream != [] && Shape(stream) && stream != []
    requires stream[0] == v.stream[0] && TurnsOf(stream) == TurnsOf(v.stream)
    ensures GoodView(v.(stream := stream), id)
  {
    assert FromLog(stream, id) == FromLog(v.stream, id);
  }

  lemma BegunGood(v: View, id: DialogueId, e: Event)
    requires GoodView(v, id) && v.stream == [] && e.Started? && e.id == id
    ensures GoodView(v.(stream := [e],
                        begun := Some(Live(id, e.project, e.topic, e.goal, e.condition, Opening(e.opening)))), id)
  {
  }

  function FetchingView(v: View, project: ProjectId, reply: string): View {
    Unheld(v).(running := true, reply := Some(FetchingRow(project, reply)))
  }

  function ThinkingView(v: View, project: ProjectId, reply: string): View
    requires v.held.Some?
  {
    v.(running := true, reply := Some(Thinking(project, v.held.value, reply)), marks := v.marks.(live := v.marks.held))
  }

  lemma StartedGood(v: View, id: DialogueId, project: ProjectId, reply: string)
    requires GoodView(v, id) && !v.running
    ensures GoodView(FetchingView(v, project, reply), id)
    ensures v.held.Some? && v.held.value.project == project ==> GoodView(ThinkingView(v, project, reply), id)
  {
  }

  lemma StagedGood(v: View, id: DialogueId, r: Reply)
    requires GoodView(v, id) && v.stream != [] && v.reply.Some? && !v.reply.value.Saved? && !r.Saved?
    requires ReplyAgrees(r, v.stream, id, v.marks.live)
    requires v.marks.live ==> HasLive(r)
    ensures GoodView(v.(reply := Some(r)), id)
  {
  }

  lemma RowGood(v: View, id: DialogueId, project: ProjectId)
    requires GoodView(v, id)
    ensures v.stream == [] ==> Fold(v.stream).status.New?
    ensures v.stream != [] ==>
      && RowTells(Fold(v.stream), v.stream)
      && Fold(v.stream).history == TurnsOf(v.stream)
      && (Fold(v.stream).status.Ended? <==> IsConcluded(v.stream)) && !Fold(v.stream).status.New?
  {
    if v.stream != [] {
      FoldTellsStream(v.stream);
    }
  }

  /** Whoever was up to date, or behind, before an exchange is so after it. */
  lemma CurrentStep(live: Live, loaded: seq<Event>, next: seq<Event>, id: DialogueId, reply: string, asked: Asked,
                    stale: bool)
    requires Recorded(loaded, next, reply, asked) && Current(live, loaded, id, stale)
    ensures Current(live.Appended(reply, asked.prompt), next, id, stale)
  {
    FromLogStep(loaded, next, id, reply, asked);
  }

  lemma SavedGood(v: View, id: DialogueId, r: Reply)
    requires GoodView(v, id) && v.reply == Some(r) && r.Saving? && v.stream == r.loaded
    ensures GoodView(v.(stream := r.next, reply := Some(Saved(r.live, r.reply, r.asked))), id)
  {
    CurrentStep(r.live, r.loaded, r.next, id, r.reply, r.asked, v.marks.live);
    if v.held.Some? {
      CurrentStep(v.held.value, r.loaded, r.next, id, r.reply, r.asked, v.marks.held);
    }
  }

  function HandedView(v: View, r: Reply): View
    requires r.Saved?
  {
    v.(reply := Some(Handing(r.asked)), held := Some(r.live.Appended(r.reply, r.asked.prompt)),
       marks := Marks(v.marks.live, false))
  }

  lemma PutGood(v: View, id: DialogueId, r: Reply)
    requires GoodView(v, id) && v.reply == Some(r) && r.Saved?
    ensures GoodView(HandedView(v, r), id)
  {
  }

  /** The opening, against a log that may have moved on. */
  lemma AtFirstAgrees(stream: seq<Event>, id: DialogueId, reply: Option<Reply>)
    requires Begun(stream, id)
    requires Outstanding(reply) ==> EndsWith(TurnsOf(stream), (reply.value.reply, reply.value.asked.prompt))
    ensures Current(Caught(AtFirst(stream, id), reply), stream, id, MovedPast(stream, reply))
  {
    var turns := TurnsOf(stream);
    SpokenCount(turns);
    if Outstanding(reply) && |turns| == 1 {
      assert turns == [] + [turns[0]];
      SpokenStep([], turns[0]);
    }
  }

  function BegunView(v: View): View {
    v.(begun := None, held := v.begun, marks := v.marks.(held := MovedPast(v.stream, v.reply)))
  }

  lemma BeginPutGood(v: View, id: DialogueId)
    requires GoodView(v, id) && v.begun.Some?
    ensures GoodView(BegunView(v), id)
  {
    AtFirstAgrees(v.stream, id, v.reply);
  }

  /** What a task about to save an observation or a conclusion has made of what it loaded. */
  ghost predicate GoodWriter(t: Writer) {
    match t
    case EndSaving(id, loaded, next) =>
      Begun(loaded, id) && !IsConcluded(loaded) && next == loaded + [Concluded(Abandoned)]
    case GradeSaving(id, mark, loaded, next) =>
      && Begun(loaded, id) && !IsConcluded(loaded)
      && loaded <= next && |next| == |loaded| + 1 && Witnesses(next[|loaded|], mark)
    case _ => true
  }

  /** What an observation says of a mark: the observation made if there is one, or else the verdict
      on the component; and the answer's kind, component, turn and verdict. */
  predicate Witnesses(e: Event, mark: Mark) {
    && e.Observed? && e.evidence == Attempt
    && (mark.observation != "" ==> e.observation == mark.observation)
    && (mark.observation == "" && mark.correct ==> e.observation == "answered " + mark.component + " correctly")
    && (mark.observation == "" && !mark.correct ==> e.observation == "answered " + mark.component + " incorrectly")
    && e.detail == Detailed(mark.kind, mark.component, Decimal(mark.position), mark.correct)
  }

  function Detailed(kind: string, component: string, turn: string, correct: bool): string {
    kind + " " + component + " at turn " + turn + ": " + if correct then "correct" else "incorrect"
  }

  lemma ObservingWitnesses(mark: Mark)
    ensures var c := Observing(mark);
      c.Observe? && c.evidence == Attempt && Witnesses(Observed(c.observation, c.evidence, c.detail), mark)
  {
    assert "correct" + "ly" == "correctly" && "incorrect" + "ly" == "incorrectly";
    var answered := "answered " + mark.component + " ";
    assert answered + Verdict(mark.correct) + "ly" == answered + (Verdict(mark.correct) + "ly");
  }

  lemma WriterSaves(v: View, t: Writer)
    requires t.EndSaving? || t.GradeSaving?
    requires GoodView(v, t.id) && GoodWriter(t) && v.stream == t.loaded
    ensures GoodView(v.(stream := t.next), t.id)
  {
    TurnsStep(t.loaded, t.next[|t.loaded|]);
    assert t.next == t.loaded + [t.next[|t.loaded|]];
    GrownGood(v, t.next, t.id);
  }

  // ----- One step, the world -----

  /** The dialogue's view in a world that follows, the marks of what is gone left out. */
  ghost function ViewThen(w': World, id: DialogueId, m: Marks): View {
    ViewOf(w', id, Trim(w', id, m))
  }

  /** The dialogue keeps all it has, but perhaps its place in the registry. */
  ghost predicate Kept(w: World, w': World, id: DialogueId) {
    && Stream(w', id) == Stream(w, id) && (id in w'.running <==> id in w.running)
    && Of(w'.replies, id) == Of(w.replies, id) && Of(w'.begun, id) == Of(w.begun, id)
    && (Of(w'.held, id) == Of(w.held, id) || id !in w'.held)
  }

  lemma KeptGood(w: World, w': World, id: DialogueId, m: Marks)
    requires GoodView(ViewOf(w, id, m), id) && Kept(w, w', id)
    ensures GoodView(ViewThen(w', id, m), id)
  {
    var v, v' := ViewOf(w, id, m), ViewThen(w', id, m);
    EvictedGood(v, id);
    assert v' == v || v' == Unheld(v);
  }

  lemma BeginKeeps(w: World, other: DialogueId, b: BeginStep, id: DialogueId)
    requires CanBegin(w, other, b) && other != id
    ensures Kept(w, Begin(w, other, b).0, id)
  {
  }

  lemma OverKeeps(w: World, other: DialogueId, id: DialogueId)
    requires other != id
    ensures Kept(w, Over(w, other), id)
  {
  }

  lemma ToKeeps(w: World, other: DialogueId, r: Reply, id: DialogueId)
    requires other != id
    ensures Kept(w, To(w, other, r), id)
  {
  }

  lemma OffKeeps(w: World, task: Task, id: DialogueId)
    ensures Kept(w, Off(w, task), id)
  {
  }

  lemma OnKeeps(w: World, task: Task, t: Writer, id: DialogueId)
    ensures Kept(w, On(w, task, t), id)
  {
  }

  lemma StartKeeps(w: World, other: DialogueId, project: ProjectId, reply: string, expired: bool, id: DialogueId)
    requires other != id
    ensures Kept(w, ReplyStarted(w, other, project, reply, expired).0, id)
  {
    var w1 := w.(running := w.running + {other});
    if other in w.held {
      ToKeeps(w1, other, Thinking(project, w.held[other], reply), id);
    }
    ToKeeps(w1, other, FetchingRow(project, reply), id);
  }

  lemma RowKeeps(w: World, other: DialogueId, project: ProjectId, reply: string, id: DialogueId)
    requires other != id
    ensures Kept(w, AfterRow(w, other, project, reply).0, id)
  {
    OverKeeps(w, other, id);
    ToKeeps(w, other, FetchingTurns(project, reply, Fold(Stream(w, other))), id);
  }

  lemma ResumeKeeps(w: World, other: DialogueId, r: ResumeStep, id: DialogueId)
    requires CanResume(w, other, r) && other != id
    ensures Kept(w, Resume(w, other, r).0, id)
  {
    if r.ReplyStarts? {
      StartKeeps(w, other, r.project, r.reply, r.expired, id);
    } else if r.RowRead? {
      RowKeeps(w, other, w.replies[other].project, w.replies[other].reply, id);
    }
  }

  lemma RespondKeeps(w: World, other: DialogueId, a: TurnStep, id: DialogueId)
    requires CanRespond(w, other, a) && other != id
    ensures Kept(w, Respond(w, other, a).0, id)
  {
    OverKeeps(w, other, id);
    forall r
      ensures Kept(w, To(w, other, r), id)
    {
      ToKeeps(w, other, r, id);
    }
  }

  /** A task that ends or grades touches its own dialogue only, and that one's stream only by
      a save that succeeds. */
  predicate Saves(w: World, task: Task, id: DialogueId) {
    task in w.writers && (w.writers[task].EndSaving? || w.writers[task].GradeSaving?)
    && w.writers[task].id == id && Stream(w, id) == w.writers[task].loaded
  }

  lemma EndKeeps(w: World, task: Task, e: EndStep, id: DialogueId)
    requires CanEnd(w, task, e) && !Saves(w, task, id)
    ensures Kept(w, End(w, task, e).0, id)
  {
    OffKeeps(w, task, id);
    forall t
      ensures Kept(w, On(w, task, t), id)
    {
      OnKeeps(w, task, t, id);
    }
  }

  lemma GradeKeeps(w: World, task: Task, g: GradeStep, id: DialogueId)
    requires CanGrade(w, task, g) && !Saves(w, task, id)
    ensures Kept(w, Grade(w, task, g).0, id)
  {
    OffKeeps(w, task, id);
    forall t
      ensures Kept(w, On(w, task, t), id)
    {
      OnKeeps(w, task, t, id);
    }
  }

  lemma CrashGood(w: World, id: DialogueId, m: Marks)
    requires GoodView(ViewOf(w, id, m), id)
    ensures GoodView(ViewThen(Next(w, Crash).0, id, m), id)
  {
  }

  lemma BeginGood(w: World, id: DialogueId, b: BeginStep, m: Marks)
    requires CanBegin(w, id, b) && GoodView(ViewOf(w, id, m), id)
    ensures GoodView(ViewThen(Begin(w, id, b).0, id, BeginMarks(w, id, b, m)), id)
  {
    var v, v' := ViewOf(w, id, m), ViewThen(Begin(w, id, b).0, id, BeginMarks(w, id, b, m));
    match b
    case BeginSaves(project, topic, goal, condition, opening) =>
      BegunGood(v, id, Started(id, project, topic, goal, condition, opening));
    case BeginPuts(_) =>
      BeginPutGood(v, id);
      EvictedGood(BegunView(v), id);
      assert v' == BegunView(v) || v' == Unheld(BegunView(v));
    case BeginCancelled =>
      assert v' == v.(begun := None);
  }

  lemma StartView(w: World, id: DialogueId, project: ProjectId, reply: string, expired: bool, m: Marks)
    requires id !in w.running && id !in w.replies && MarksPlaced(ViewOf(w, id, m))
    ensures var v, v' := ViewOf(w, id, m),
                         ViewThen(ReplyStarted(w, id, project, reply, expired).0, id, m.(live := m.held));
      || v' == FetchingView(v, project, reply)
      || (v.held.Some? && v.held.value.project == project && v' == ThinkingView(v, project, reply))
  {
  }

  lemma StartGood(w: World, id: DialogueId, project: ProjectId, reply: string, expired: bool, m: Marks)
    requires GoodView(ViewOf(w, id, m), id)
    ensures var m' := if id in w.replies then m else m.(live := m.held);
      GoodView(ViewThen(ReplyStarted(w, id, project, reply, expired).0, id, m'), id)
  {
    var v := ViewOf(w, id, m);
    if v.running {
      KeptGood(w, w, id, m);
    } else {
      StartView(w, id, project, reply, expired, m);
      StartedGood(v, id, project, reply);
    }
  }

  lemma ToGood(w: World, id: DialogueId, m: Marks, r: Reply)
    requires GoodView(ViewOf(w, id, m), id)
    requires id in w.replies && !w.replies[id].Saved? && !r.Saved? && (HasLive(w.replies[id]) ==> HasLive(r))
    requires Stream(w, id) != [] && ReplyAgrees(r, Stream(w, id), id, m.live)
    ensures GoodView(ViewThen(To(w, id, r), id, m), id)
  {
    var v := ViewOf(w, id, m);
    StagedGood(v, id, r);
    assert ViewThen(To(w, id, r), id, m) == v.(reply := Some(r));
  }

  lemma OverGood(w: World, id: DialogueId, m: Marks)
    requires GoodView(ViewOf(w, id, m), id) && id in w.replies
    ensures GoodView(ViewThen(Over(w, id), id, m.(held := m.held || w.replies[id].Saved?)), id)
  {
    var v := ViewOf(w, id, m);
    EndedGood(v, id);
    assert ViewThen(Over(w, id), id, m.(held := m.held || w.replies[id].Saved?)) == Ended(v);
  }

  lemma ResumeGood(w: World, id: DialogueId, r: ResumeStep, m: Marks)
    requires CanResume(w, id, r) && GoodView(ViewOf(w, id, m), id)
    ensures GoodView(ViewThen(Resume(w, id, r).0, id, ResumeMarks(w, id, r, m)), id)
  {
    if r.ReplyStarts? {
      StartGood(w, id, r.project, r.reply, r.expired, m);
      return;
    }
    var v, t := ViewOf(w, id, m), w.replies[id];
    var row := Fold(v.stream);
    RowGood(v, id, t.project);
    if r.TurnsRead? {
      ToGood(w, id, m, Thinking(t.project, Resumed(id, t.project, t.row, row.history), t.reply));
    } else if row.status.New? || row.project != Some(t.project) || row.status.Ended? {
      OverGood(w, id, m);
    } else {
      ToGood(w, id, m, FetchingTurns(t.project, t.reply, row));
    }
  }

  lemma LoadGood(w: World, id: DialogueId, m: Marks)
    requires CanRespond(w, id, TranscriptLoaded) && GoodView(ViewOf(w, id, m), id)
    ensures GoodView(ViewThen(Respond(w, id, TranscriptLoaded).0, id, m), id)
  {
    var stream, t := Stream(w, id), w.replies[id];
    var next := Execute(stream, Exchange(t.reply, t.asked));
    ExchangeRecorded(stream, t.reply, t.asked);
    if next.None? {
      OverGood(w, id, m);
    } else {
      ToGood(w, id, m, Saving(t.live, t.reply, t.asked, stream, next.value));
    }
  }

  lemma SaveGood(w: World, id: DialogueId, m: Marks)
    requires CanRespond(w, id, TurnSaves) && GoodView(ViewOf(w, id, m), id)
    ensures GoodView(ViewThen(Respond(w, id, TurnSaves).0, id, m), id)
  {
    var v, t := ViewOf(w, id, m), w.replies[id];
    if v.stream != t.loaded {
      OverGood(w, id, m);
    } else {
      SavedGood(v, id, t);
      assert ViewThen(Respond(w, id, TurnSaves).0, id, m) ==
             v.(stream := t.next, reply := Some(Saved(t.live, t.reply, t.asked)));
    }
  }

  lemma PutStepGood(w: World, id: DialogueId, evicted: set<DialogueId>, m: Marks)
    requires CanRespond(w, id, TurnPuts(evicted)) && GoodView(ViewOf(w, id, m), id)
    ensures GoodView(ViewThen(Respond(w, id, TurnPuts(evicted)).0, id, m.(held := m.live)), id)
  {
    var v, t := ViewOf(w, id, m), w.replies[id];
    PutGood(v, id, t);
    EvictedGood(HandedView(v, t), id);
    var v' := ViewThen(Respond(w, id, TurnPuts(evicted)).0, id, m.(held := m.live));
    assert v' == HandedView(v, t) || v' == Unheld(HandedView(v, t));
  }

  lemma RespondGood(w: World, id: DialogueId, a: TurnStep, m: Marks)
    requires CanRespond(w, id, a) && GoodView(ViewOf(w, id, m), id)
    ensures GoodView(ViewThen(Respond(w, id, a).0, id, RespondMarks(w, id, a, m)), id)
  {
    match a
    case ExecutorAnswers(prompt, citations, observation, concluded) =>
      var t := w.replies[id];
      ToGood(w, id, m, Loading(t.live, t.reply,
                               Asked(prompt, citations, observation, concluded, |t.live.messages| / 2)));
    case TranscriptLoaded => LoadGood(w, id, m);
    case TurnSaves => SaveGood(w, id, m);
    case TurnPuts(evicted) => PutStepGood(w, id, evicted, m);
    case ReplyEnds => OverGood(w, id, m);
  }

  lemma WriterSaveGood(w: World, w': World, task: Task, id: DialogueId, m: Marks)
    requires Saves(w, task, id) && GoodWriter(w.writers[task]) && GoodView(ViewOf(w, id, m), id)
    requires w'.(writers := w.writers) == w.(streams := w.streams[id := w.writers[task].next])
    ensures GoodView(ViewThen(w', id, m), id)
  {
    var v, t := ViewOf(w, id, m), w.writers[task];
    WriterSaves(v, t);
    assert ViewThen(w', id, m) == v.(stream := t.next);
  }

  lemma EndGood(w: World, task: Task, e: EndStep, id: DialogueId, m: Marks)
    requires CanEnd(w, task, e) && GoodWriter(w.writers[task]) && GoodView(ViewOf(w, id, m), id)
    ensures GoodView(ViewThen(End(w, task, e).0, id, m), id)
  {
    if Saves(w, task, id) {
      WriterSaveGood(w, End(w, task, e).0, task, id, m);
    } else {
      EndKeeps(w, task, e, id);
      KeptGood(w, End(w, task, e).0, id, m);
    }
  }

  lemma GradeGood(w: World, task: Task, g: GradeStep, id: DialogueId, m: Marks)
    requires CanGrade(w, task, g) && GoodWriter(w.writers[task]) && GoodView(ViewOf(w, id, m), id)
    ensures GoodView(ViewThen(Grade(w, task, g).0, id, m), id)
  {
    if Saves(w, task, id) {
      WriterSaveGood(w, Grade(w, task, g).0, task, id, m);
    } else {
      GradeKeeps(w, task, g, id);
      KeptGood(w, Grade(w, task, g).0, id, m);
    }
  }

  lemma OtherGood(w: World, step: Step, id: DialogueId, m: Marks)
    requires Enabled(w, step) && GoodView(ViewOf(w, id, m), id)
    requires (step.Beginning? || step.Resuming? || step.Turning?) && step.id != id
    ensures GoodView(ViewThen(Next(w, step).0, id, m), id)
  {
    match step
    case Beginning(other, b) => BeginKeeps(w, other, b, id);
    case Resuming(other, r) => ResumeKeeps(w, other, r, id);
    case Turning(other, a) => RespondKeeps(w, other, a, id);
    KeptGood(w, Next(w, step).0, id, m);
  }

  ghost predicate GoodWriters(w: World) {
    forall task :: task in w.writers ==> GoodWriter(w.writers[task])
  }

  lemma OwnGood(w: World, step: Step, id: DialogueId, m: Marks)
    requires Enabled(w, step) && GoodView(ViewOf(w, id, m), id)
    requires (step.Beginning? || step.Resuming? || step.Turning?) && step.id == id
    ensures GoodView(ViewThen(Next(w, step).0, id, NewMarks(w, step, id, m)), id)
  {
    match step
    case Beginning(_, b) => BeginGood(w, id, b, m);
    case Resuming(_, r) => ResumeGood(w, id, r, m);
    case Turning(_, a) => RespondGood(w, id, a, m);
  }

  /** Whatever the step, every dialogue's cache, tasks and log still fit together. */
  lemma StepGood(w: World, step: Step, id: DialogueId, m: Marks)
    requires Enabled(w, step) && GoodView(ViewOf(w, id, m), id) && GoodWriters(w)
    ensures GoodView(ViewThen(Next(w, step).0, id, NewMarks(w, step, id, m)), id)
  {
    if step.Beginning? || step.Resuming? || step.Turning? {
      if step.id == id {
        OwnGood(w, step, id, m);
      } else {
        OtherGood(w, step, id, m);
      }
      return;
    }
    if step.Ending? {
      EndGood(w, step.task, step.e, id, m);
    } else if step.Grading? {
      GradeGood(w, step.task, step.g, id, m);
    } else if step.Crash? {
      CrashGood(w, id, m);
    } else {
      KeptGood(w, Next(w, step).0, id, m);
    }
  }

  // ----- The tasks that end and grade -----

  lemma EndLoads(stream: seq<Event>, id: DialogueId)
    requires stream == [] || Begun(stream, id)
    ensures var next := Execute(stream, [Conclude(Abandoned)]);
      if stream == [] || IsConcluded(stream) then next.None?
      else next.Some? && GoodWriter(EndSaving(id, stream, next.value))
  {
    DecidedByStream(Conclude(Abandoned), stream);
    if stream != [] && !IsConcluded(stream) {
      assert [Conclude(Abandoned)] == [Conclude(Abandoned)] + [];
      ExecuteOngoing(stream, Conclude(Abandoned), []);
    }
  }

  lemma GradeLoads(stream: seq<Event>, id: DialogueId, mark: Mark)
    requires stream == [] || Begun(stream, id)
    ensures var next := Execute(stream, [Observing(mark)]);
      if stream == [] || IsConcluded(stream) then next.None?
      else next.Some? && GoodWriter(GradeSaving(id, mark, stream, next.value))
  {
    DecidedByStream(Observing(mark), stream);
    ObservingWitnesses(mark);
    if stream != [] && !IsConcluded(stream) {
      assert [Observing(mark)] == [Observing(mark)] + [];
      ExecuteOngoing(stream, Observing(mark), []);
    }
  }

  ghost predicate GoodStreams(w: World) {
    forall id :: Stream(w, id) == [] || Begun(Stream(w, id), id)
  }

  /** A writer is gone, or has come to where it should be. */
  ghost predicate MovedOn(w: World, w': World, task: Task) {
    || w'.writers == w.writers - {task}
    || (task in w'.writers && GoodWriter(w'.writers[task]) && w'.writers == w.writers[task := w'.writers[task]])
  }

  lemma EndMovesOn(w: World, task: Task, e: EndStep)
    requires CanEnd(w, task, e) && GoodStreams(w)
    ensures MovedOn(w, End(w, task, e).0, task)
  {
    EndLoads(Stream(w, w.writers[task].id), w.writers[task].id);
  }

  lemma LoadMovesOn(w: World, task: Task, id: DialogueId, mark: Mark)
    requires GoodStreams(w)
    ensures MovedOn(w, LoadGrade(w, task, id, mark).0, task)
  {
    GradeLoads(Stream(w, id), id, mark);
  }

  lemma RecordMovesOn(w: World, task: Task, id: DialogueId, mark: Mark)
    ensures MovedOn(w, RecordGrade(w, task, id, mark).0, task)
  {
  }

  lemma GradeMovesOn(w: World, task: Task, g: GradeStep)
    requires CanGrade(w, task, g) && GoodStreams(w)
    ensures MovedOn(w, Grade(w, task, g).0, task)
  {
    var t := w.writers[task];
    match g
    case GradeLoaded => LoadMovesOn(w, task, t.id, t.mark);
    case GradeSaves =>
    case ProgressSaves => RecordMovesOn(w, task, t.id, t.mark);
  }

  /** Who does not write leaves the writers, and all progress, alone. */
  ghost predicate NotWritten(w: World, w': World) {
    w'.writers == w.writers && w'.progress == w.progress
  }

  lemma BeginLeaves(w: World, id: DialogueId, b: BeginStep)
    requires CanBegin(w, id, b)
    ensures NotWritten(w, Begin(w, id, b).0)
  {
  }

  lemma StartLeaves(w: World, id: DialogueId, project: ProjectId, reply: string, expired: bool)
    ensures NotWritten(w, ReplyStarted(w, id, project, reply, expired).0)
  {
  }

  lemma RowLeaves(w: World, id: DialogueId, project: ProjectId, reply: string)
    ensures NotWritten(w, AfterRow(w, id, project, reply).0)
  {
  }

  lemma ResumeLeaves(w: World, id: DialogueId, r: ResumeStep)
    requires CanResume(w, id, r)
    ensures NotWritten(w, Resume(w, id, r).0)
  {
    match r
    case ReplyStarts(project, reply, expired) => StartLeaves(w, id, project, reply, expired);
    case RowRead => RowLeaves(w, id, w.replies[id].project, w.replies[id].reply);
    case TurnsRead =>
  }

  lemma RespondLeaves(w: World, id: DialogueId, a: TurnStep)
    requires CanRespond(w, id, a)
    ensures NotWritten(w, Respond(w, id, a).0)
  {
  }

  lemma StepGoodWriters(w: World, step: Step)
    requires Enabled(w, step) && GoodWriters(w) && GoodStreams(w)
    ensures GoodWriters(Next(w, step).0)
  {
    match step
    case Ending(task, e) => EndMovesOn(w, task, e);
    case Grading(task, g) => GradeMovesOn(w, task, g);
    case Beginning(id, b) => BeginLeaves(w, id, b);
    case Resuming(id, r) => ResumeLeaves(w, id, r);
    case Turning(id, a) => RespondLeaves(w, id, a);
    case _ =>
  }

  // ----- All runs -----

  ghost predicate Good(r: Run, k: nat)
    requires Within(r, k)
  {
    GoodWriters(r.states[k])
    && forall id {:trigger MarksOf(r, k, id)} :: GoodView(ViewOf(r.states[k], id, MarksOf(r, k, id)), id)
  }

  lemma GoodBegins(r: Run, k: nat)
    requires Within(r, k) && Good(r, k)
    ensures GoodStreams(r.states[k])
  {
    var w := r.states[k];
    forall id
      ensures Stream(w, id) == [] || Begun(Stream(w, id), id)
    {
      assert GoodView(ViewOf(w, id, MarksOf(r, k, id)), id);
    }
  }

  lemma GoodNext(r: Run, k: nat, id: DialogueId)
    requires Within(r, k + 1) && Good(r, k)
    ensures GoodView(ViewOf(r.states[k + 1], id, MarksOf(r, k + 1, id)), id)
  {
    assert Follows(r, k);
    assert GoodView(ViewOf(r.states[k], id, MarksOf(r, k, id)), id);
    StepGood(r.states[k], r.steps[k], id, MarksOf(r, k, id));
  }

  lemma {:induction false} RunGood(r: Run, k: nat)
    requires Within(r, k)
    ensures Good(r, k)
  {
    if k > 0 {
      RunGood(r, k - 1);
      GoodBegins(r, k - 1);
      assert Follows(r, k - 1);
      StepGoodWriters(r.states[k - 1], r.steps[k - 1]);
      forall id
        ensures GoodView(ViewOf(r.states[k], id, MarksOf(r, k, id)), id)
      {
        GoodNext(r, k - 1, id);
      }
    }
  }

  lemma RunGoodAt(r: Run, k: nat, id: DialogueId)
    requires Within(r, k)
    ensures GoodView(ViewOf(r.states[k], id, MarksOf(r, k, id)), id)
  {
    RunGood(r, k);
  }

  /** What comes after leaves the marks before it as they were. */
  lemma {:induction false} SameMarks(r: Run, step: Step, k: nat, id: DialogueId)
    requires IsRun(r) && Enabled(Last(r), step) && IsRun(Then(r, step)) && k < |r.states|
    ensures MarksOf(Then(r, step), k, id) == MarksOf(r, k, id)
  {
    if k > 0 {
      SameMarks(r, step, k - 1, id);
      assert Follows(r, k - 1) && Follows(Then(r, step), k - 1);
    }
  }

  /** The marks after one more step. */
  lemma MarksThen(r: Run, step: Step, id: DialogueId)
    requires IsRun(r) && Enabled(Last(r), step)
    ensures IsRun(Then(r, step))
    ensures MarksOf(Then(r, step), |r.steps| + 1, id)
         == Trim(Next(Last(r), step).0, id, NewMarks(Last(r), step, id, MarksOf(r, |r.steps|, id)))
  {
    ThenRuns(r, step);
    SameMarks(r, step, |r.steps|, id);
    var longer := Then(r, step);
    assert longer.states[|r.steps|] == Last(r) && longer.steps[|r.steps|] == step;
  }
}
