/** research_team/dialogue/application/socratic.py: what its service does between one await
    and the next, as steps over the stores, the registry and the tasks under way.

    A save compares the stream with what was loaded and swaps, or is refused. The read model
    says what the stream folds to. The registry may lose any entry at any time. */
module SocraticSteps {
  import opened Wrappers
  import opened Slugs
  import opened Dialogue
  import Learner

  datatype Task = Task(number: int)

  datatype Role = User | Assistant
  datatype Message = Message(role: Role, text: string)

  datatype Live = Live(id: DialogueId, project: ProjectId, topic: string, goal: string, condition: string,
                       messages: seq<Message>) {
    function Appended(reply: string, prompt: string): Live {
      this.(messages := messages + [Message(User, reply), Message(Assistant, prompt)])
    }
  }

  datatype Observation = Observation(observation: string, evidence: Evidence, detail: string)

  datatype Asked = Asked(prompt: string, citations: seq<string>, observation: Option<Observation>, concluded: bool,
                         position: nat)

  /** Where a reply is suspended. */
  datatype Reply =
    | FetchingRow(project: ProjectId, reply: string)
    | FetchingTurns(project: ProjectId, reply: string, row: State)
    | Thinking(project: ProjectId, live: Live, reply: string)
    | Loading(live: Live, reply: string, asked: Asked)
    | Saving(live: Live, reply: string, asked: Asked, loaded: seq<Event>, next: seq<Event>)
    | Saved(live: Live, reply: string, asked: Asked)
    | Handing(asked: Asked)

  /** One marked answer. */
  datatype Mark = Mark(position: nat, component: string, kind: string, digest: string, correct: bool, score: real,
                       observation: string)

  /** Where an ending or a grading is suspended. */
  datatype Writer =
    | EndLoading(id: DialogueId)
    | EndSaving(id: DialogueId, loaded: seq<Event>, next: seq<Event>)
    | EndSaved(id: DialogueId)
    | GradeLoading(id: DialogueId, mark: Mark)
    | GradeSaving(id: DialogueId, mark: Mark, loaded: seq<Event>, next: seq<Event>)
    | GradeSaved(id: DialogueId, mark: Mark)

  /** The two stores outlive the process; the rest is the service's own. `begun` holds what a
      `begin` has saved and not yet put in the registry. Its row can be read by then, so its
      id is known to whoever lists the dialogues. */
  datatype World = World(
    streams: map<DialogueId, seq<Event>>, progress: map<DialogueId, seq<Learner.Event>>,
    held: map<DialogueId, Live>, running: set<DialogueId>, replies: map<DialogueId, Reply>,
    writers: map<Task, Writer>, begun: map<DialogueId, Live>)

  const INITIAL_WORLD := World(map[], map[], map[], {}, map[], map[], map[])

  /** `begin`, once the framing is there */
  datatype BeginStep =
    | BeginSaves(project: ProjectId, topic: string, goal: string, condition: string, opening: string)
    | BeginPuts(evicted: set<DialogueId>)
    | BeginCancelled

  /** `respond`, as far as the live dialogue */
  datatype ResumeStep =
    | ReplyStarts(project: ProjectId, reply: string, expired: bool)
    | RowRead
    | TurnsRead

  /** `respond`, from the executor's answer on; it may end, for whatever reason, anywhere */
  datatype TurnStep =
    | ExecutorAnswers(prompt: string, citations: seq<string>, observation: Option<Observation>, concluded: bool)
    | TranscriptLoaded
    | TurnSaves
    | TurnPuts(evicted: set<DialogueId>)
    | ReplyEnds

  /** `end` */
  datatype EndStep = EndLoaded | EndSaves | EndForgets

  /** `record_attempt` */
  datatype GradeStep = GradeLoaded | GradeSaves | ProgressSaves

  datatype Step =
    | Beginning(id: DialogueId, b: BeginStep)
    | Resuming(id: DialogueId, r: ResumeStep)
    | Turning(id: DialogueId, a: TurnStep)
    | EndCalled(task: Task, id: DialogueId)
    | Ending(task: Task, e: EndStep)
    | GradeCalled(task: Task, id: DialogueId, mark: Mark)
    | Grading(task: Task, g: GradeStep)
    | WriterFails(task: Task)
    | Forgotten(ids: set<DialogueId>)
    | Crash

  /** What whoever called is told, if anything yet. */
  datatype Outcome =
    | Waiting
    | DialogueInFlight
    | UnknownDialogue
    | DialogueConcluded
    | CommandRejected
    | SaveRefused
    | Dropped
    | Given(asked: Asked)
    | Finished

  function Spoken(turns: seq<Turn>): seq<Message> {
    if turns == [] then [] else
      var n := |turns| - 1;
      Spoken(turns[..n]) + [Message(User, turns[n].0), Message(Assistant, turns[n].1)]
  }

  function Opening(opening: string): seq<Message> {
    if opening != "" then [Message(Assistant, opening)] else []
  }

  /** What `_resume` rebuilds from a dialogue's row and turns. */
  function Resumed(id: DialogueId, project: ProjectId, row: State, turns: seq<Turn>): Live {
    Live(id, project, row.topic, row.goal, row.condition, Opening(row.opening) + Spoken(turns))
  }

  /** What `_record` executes. */
  function Exchange(reply: string, asked: Asked): seq<Command> {
    [RecordTurn(reply, asked.prompt, asked.citations)]
    + (if asked.observation.Some?
       then [Observe(asked.observation.value.observation, asked.observation.value.evidence,
                      asked.observation.value.detail)]
       else [])
    + (if asked.concluded then [Conclude(Met)] else [])
  }

  function Verdict(correct: bool): string {
    if correct then "correct" else "incorrect"
  }

  function Observing(mark: Mark): Command {
    Observe(
      if mark.observation != "" then mark.observation
      else "answered " + mark.component + " " + Verdict(mark.correct) + "ly",
      Attempt,
      mark.kind + " " + mark.component + " at turn " + Decimal(mark.position) + ": " + Verdict(mark.correct))
  }

  function Attempting(id: DialogueId, mark: Mark): Learner.Command {
    Learner.RecordAttempt(id, "turn/" + Decimal(mark.position), mark.component, mark.kind, mark.digest,
                          mark.correct, mark.score)
  }

  function Stream(w: World, id: DialogueId): seq<Event> {
    if id in w.streams then w.streams[id] else []
  }

  function ProgressOf(w: World, id: DialogueId): seq<Learner.Event> {
    if id in w.progress then w.progress[id] else []
  }

  function Over(w: World, id: DialogueId): World {
    w.(replies := w.replies - {id}, running := w.running - {id})
  }

  function To(w: World, id: DialogueId, stage: Reply): World {
    w.(replies := w.replies[id := stage])
  }

  function On(w: World, task: Task, stage: Writer): World {
    w.(writers := w.writers[task := stage])
  }

  function Off(w: World, task: Task): World {
    w.(writers := w.writers - {task})
  }

  function Put(w: World, id: DialogueId, live: Live, evicted: set<DialogueId>): World {
    w.(held := w.held[id := live] - evicted)
  }

  // ----- What may happen -----

  /** No two dialogues are given one id. */
  predicate CanBegin(w: World, id: DialogueId, b: BeginStep) {
    if b.BeginSaves? then id !in w.streams else id in w.begun
  }

  /** Anybody may reply to any id, at any time. */
  predicate CanResume(w: World, id: DialogueId, r: ResumeStep) {
    match r
    case ReplyStarts(_, _, _) => true
    case RowRead => id in w.replies && w.replies[id].FetchingRow?
    case TurnsRead => id in w.replies && w.replies[id].FetchingTurns?
  }

  predicate CanRespond(w: World, id: DialogueId, a: TurnStep) {
    id in w.replies &&
    match a
    case ExecutorAnswers(_, _, _, _) => w.replies[id].Thinking?
    case TranscriptLoaded => w.replies[id].Loading?
    case TurnSaves => w.replies[id].Saving?
    case TurnPuts(_) => w.replies[id].Saved?
    case ReplyEnds => true
  }

  predicate CanEnd(w: World, task: Task, e: EndStep) {
    task in w.writers &&
    match e
    case EndLoaded => w.writers[task].EndLoading?
    case EndSaves => w.writers[task].EndSaving?
    case EndForgets => w.writers[task].EndSaved?
  }

  predicate CanGrade(w: World, task: Task, g: GradeStep) {
    task in w.writers &&
    match g
    case GradeLoaded => w.writers[task].GradeLoading?
    case GradeSaves => w.writers[task].GradeSaving?
    case ProgressSaves => w.writers[task].GradeSaved?
  }

  predicate Enabled(w: World, step: Step) {
    match step
    case Beginning(id, b) => CanBegin(w, id, b)
    case Resuming(id, r) => CanResume(w, id, r)
    case Turning(id, a) => CanRespond(w, id, a)
    case EndCalled(task, _) => task !in w.writers
    case Ending(task, e) => CanEnd(w, task, e)
    case GradeCalled(task, _, _) => task !in w.writers
    case Grading(task, g) => CanGrade(w, task, g)
    case WriterFails(task) => task in w.writers
    case Forgotten(_) => true
    case Crash => true
  }

  // ----- What happens then -----

  function Next(w: World, step: Step): (World, Outcome)
    requires Enabled(w, step)
  {
    match step
    case Beginning(id, b) => Begin(w, id, b)
    case Resuming(id, r) => Resume(w, id, r)
    case Turning(id, a) => Respond(w, id, a)
    case EndCalled(task, id) => (On(w, task, EndLoading(id)), Waiting)
    case Ending(task, e) => End(w, task, e)
    case GradeCalled(task, id, mark) => (On(w, task, GradeLoading(id, mark)), Waiting)
    case Grading(task, g) => Grade(w, task, g)
    case WriterFails(task) => (Off(w, task), Dropped)
    case Forgotten(ids) => (w.(held := w.held - ids), Finished)
    case Crash => (World(w.streams, w.progress, map[], {}, map[], map[], map[]), Dropped)
  }

  function Begin(w: World, id: DialogueId, b: BeginStep): (World, Outcome)
    requires CanBegin(w, id, b)
  {
    match b
    case BeginSaves(project, topic, goal, condition, opening) =>
      var started := Started(id, project, topic, goal, condition, opening);
      (w.(streams := w.streams[id := [started]],
          begun := w.begun[id := Live(id, project, topic, goal, condition, Opening(opening))]), Waiting)
    case BeginPuts(evicted) => (Put(w, id, w.begun[id], evicted).(begun := w.begun - {id}), Finished)
    case BeginCancelled => (w.(begun := w.begun - {id}), Dropped)
  }

  function Resume(w: World, id: DialogueId, r: ResumeStep): (World, Outcome)
    requires CanResume(w, id, r)
  {
    match r
    case ReplyStarts(project, reply, expired) => ReplyStarted(w, id, project, reply, expired)
    case RowRead => AfterRow(w, id, w.replies[id].project, w.replies[id].reply)
    case TurnsRead =>
      var t := w.replies[id];
      (To(w, id, Thinking(t.project, Resumed(id, t.project, t.row, Fold(Stream(w, id)).history), t.reply)), Waiting)
  }

  /** The guard, and then the registry: an entry of another project, or one too old, is
      dropped by being asked for. */
  function ReplyStarted(w: World, id: DialogueId, project: ProjectId, reply: string, expired: bool): (World, Outcome) {
    if id in w.running then (w, DialogueInFlight)
    else
      var w1 := w.(running := w.running + {id});
      if id in w.held && w.held[id].project == project && !expired then
        (To(w1, id, Thinking(project, w.held[id], reply)), Waiting)
      else (To(w1, id, FetchingRow(project, reply)).(held := w.held - {id}), Waiting)
  }

  /** The three refusals of `_resume`. */
  function AfterRow(w: World, id: DialogueId, project: ProjectId, reply: string): (World, Outcome) {
    var row := Fold(Stream(w, id));
    if row.status.New? || row.project != Some(project) then (Over(w, id), UnknownDialogue)
    else if row.status.Ended? then (Over(w, id), DialogueConcluded)
    else (To(w, id, FetchingTurns(project, reply, row)), Waiting)
  }

  function Respond(w: World, id: DialogueId, a: TurnStep): (World, Outcome)
    requires CanRespond(w, id, a)
  {
    var t := w.replies[id];
    match a
    case ExecutorAnswers(prompt, citations, observation, concluded) =>
      (To(w, id, Loading(t.live, t.reply, Asked(prompt, citations, observation, concluded, |t.live.messages| / 2))),
       Waiting)
    case TranscriptLoaded =>
      var next := Execute(Stream(w, id), Exchange(t.reply, t.asked));
      if next.None? then (Over(w, id), CommandRejected)
      else (To(w, id, Saving(t.live, t.reply, t.asked, Stream(w, id), next.value)), Waiting)
    case TurnSaves =>
      if Stream(w, id) != t.loaded then (Over(w, id), SaveRefused)
      else (To(w, id, Saved(t.live, t.reply, t.asked)).(streams := w.streams[id := t.next]), Waiting)
    case TurnPuts(evicted) =>
      (Put(To(w, id, Handing(t.asked)), id, t.live.Appended(t.reply, t.asked.prompt), evicted), Given(t.asked))
    case ReplyEnds =>
      (Over(w, id), if t.Handing? then Finished else Dropped)
  }

  function End(w: World, task: Task, e: EndStep): (World, Outcome)
    requires CanEnd(w, task, e)
  {
    var t := w.writers[task];
    match e
    case EndLoaded =>
      var next := Execute(Stream(w, t.id), [Conclude(Abandoned)]);
      if next.None? then (Off(w, task), CommandRejected)
      else (On(w, task, EndSaving(t.id, Stream(w, t.id), next.value)), Waiting)
    case EndSaves =>
      if Stream(w, t.id) != t.loaded then (Off(w, task), SaveRefused)
      else (On(w, task, EndSaved(t.id)).(streams := w.streams[t.id := t.next]), Waiting)
    case EndForgets =>
      (Off(w, task).(held := w.held - {t.id}), Finished)
  }

  /** The observation first, on the dialogue's own stream; the attempt after it. */
  function Grade(w: World, task: Task, g: GradeStep): (World, Outcome)
    requires CanGrade(w, task, g)
  {
    var t := w.writers[task];
    match g
    case GradeLoaded => LoadGrade(w, task, t.id, t.mark)
    case GradeSaves => SaveGrade(w, task, t)
    case ProgressSaves => RecordGrade(w, task, t.id, t.mark)
  }

  function LoadGrade(w: World, task: Task, id: DialogueId, mark: Mark): (World, Outcome) {
    var next := Execute(Stream(w, id), [Observing(mark)]);
    if next.None? then (Off(w, task), CommandRejected)
    else (On(w, task, GradeSaving(id, mark, Stream(w, id), next.value)), Waiting)
  }

  function SaveGrade(w: World, task: Task, t: Writer): (World, Outcome)
    requires t.GradeSaving?
  {
    if Stream(w, t.id) != t.loaded then (Off(w, task), SaveRefused)
    else (On(w, task, GradeSaved(t.id, t.mark)).(streams := w.streams[t.id := t.next]), Waiting)
  }

  function RecordGrade(w: World, task: Task, id: DialogueId, mark: Mark): (World, Outcome) {
    var decision := Learner.Decide(Attempting(id, mark), Learner.Fold(ProgressOf(w, id)));
    if decision.Refused? then (Off(w, task), CommandRejected)
    else (Off(w, task).(progress := w.progress[id := ProgressOf(w, id) + decision.events]), Finished)
  }
}
