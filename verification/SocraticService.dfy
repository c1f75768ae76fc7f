/** research_team/dialogue/application/socratic.py, `SocraticDialogueService`, and the registry
    of research_team/dialogue/application/socratic_models.py: the object, whose methods are
    the stretches between one await and the next. What it has gone through is a run, and what
    its methods promise is what holds of runs. */
module SocraticService {
  import opened Wrappers
  import opened Dialogue
  import opened SocraticSteps
  import opened SocraticViews
  import opened SocraticRuns
  import opened SocraticGrading
  import Learner

  /** The history `_resume` folds: the opening question if there is one, then each turn. */
  method RebuildMessages(opening: string, turns: seq<Turn>) returns (messages: seq<Message>)
    ensures messages == Opening(opening) + Spoken(turns)
  {
    messages := [];
    if opening != "" {
      messages := [Message(Assistant, opening)];
    }
    for k := 0 to |turns|
      invariant messages == Opening(opening) + Spoken(turns[..k])
    {
      assert turns[..k + 1][..k] == turns[..k];
      messages := messages + [Message(User, turns[k].0)];
      messages := messages + [Message(Assistant, turns[k].1)];
    }
    assert turns[..|turns|] == turns;
  }

  /** `aggregate.execute`; `None` once a command has been refused. */
  method ExecuteOne(aggregate: Option<seq<Event>>, command: Command, ghost commands: seq<Command>,
                    ghost rest: seq<Command>)
    returns (next: Option<seq<Event>>)
    requires commands == [command] + rest
    ensures aggregate.None? ==> next.None?
    ensures aggregate.Some? ==>
      Execute(aggregate.value, commands) == if next.Some? then Execute(next.value, rest) else None
  {
    if aggregate.None? {
      return None;
    }
    assert commands[0] == command && commands[1..] == rest;
    var decision := Decide(command, Fold(aggregate.value));
    return if decision.Accepted? then Some(aggregate.value + [decision.event]) else None;
  }

  /** `_record`, as far as its save. */
  method RecordExchange(loaded: seq<Event>, reply: string, asked: Asked) returns (next: Option<seq<Event>>)
    ensures next == Execute(loaded, Exchange(reply, asked))
    ensures Shape(loaded) && loaded != [] ==>
      && (next.Some? <==> !IsConcluded(loaded))
      && (next.Some? ==> Written(loaded, next.value, reply, asked))
  {
    ghost var commands := Exchange(reply, asked);
    ghost var concluding := if asked.concluded then [Conclude(Met)] else [];
    assert commands == [RecordTurn(reply, asked.prompt, asked.citations)] + commands[1..];
    next := ExecuteOne(Some(loaded), RecordTurn(reply, asked.prompt, asked.citations), commands, commands[1..]);
    if asked.observation.Some? {
      var o := asked.observation.value;
      assert commands[1..] == [Observe(o.observation, o.evidence, o.detail)] + concluding;
      next := ExecuteOne(next, Observe(o.observation, o.evidence, o.detail), commands[1..], concluding);
    } else {
      assert commands[1..] == concluding;
    }
    if asked.concluded {
      assert concluding == [Conclude(Met)] + [];
      next := ExecuteOne(next, Conclude(Met), concluding, []);
    }
    if Shape(loaded) && loaded != [] {
      ExchangeRecorded(loaded, reply, asked);
    }
  }

  // ----- What one more step means -----

  ghost function MarkIn(r: Run, id: DialogueId): Marks
    requires IsRun(r)
  {
    MarksOf(r, |r.steps|, id)
  }

  /** The registry's entry is what the log would give. */
  ghost predicate Agrees(w: World, id: DialogueId)
    requires id in w.held
  {
    Begun(Stream(w, id), id) && Caught(w.held[id], Of(w.replies, id)) == FromLog(Stream(w, id), id)
  }

  lemma HeldMeans(r: Run, id: DialogueId)
    requires IsRun(r) && id in Last(r).held
    ensures Agrees(Last(r), id) <==> !MarkIn(r, id).held
  {
    CacheAgreesIff(r, |r.steps|, id);
  }

  lemma HeldAfter(r: Run, step: Step, id: DialogueId)
    requires IsRun(r) && Enabled(Last(r), step) && id in Next(Last(r), step).0.held
    ensures Agrees(Next(Last(r), step).0, id) <==> !NewMarks(Last(r), step, id, MarkIn(r, id)).held
  {
    ThenRuns(r, step);
    MarksThen(r, step, id);
    HeldMeans(Then(r, step), id);
  }

  lemma StartMeans(r: Run, id: DialogueId, project: ProjectId, reply: string, expired: bool)
    requires IsRun(r) && id !in Last(r).running
    ensures var w, w' := Last(r), ReplyStarted(Last(r), id, project, reply, expired).0;
      ThinksOf(w', id) ==>
        && Begun(Stream(w, id), id) && OwnerOf(w, id) == Some(project)
        && (w'.replies[id].live == FromLog(Stream(w, id), id) <==> !MarkIn(r, id).held)
  {
    var w := Last(r);
    RunGoodAt(r, |r.steps|, id);
    if id in w.held {
      HeldMeans(r, id);
      FoldTellsStream(Stream(w, id));
    }
  }

  lemma RowMeans(r: Run, id: DialogueId)
    requires IsRun(r) && CanResume(Last(r), id, RowRead)
    ensures var row := Fold(Stream(Last(r), id));
      && (row.status.New? ==> row.project == None)
      && (row.status.Ended? <==> IsConcluded(Stream(Last(r), id)))
  {
    RunGoodAt(r, |r.steps|, id);
    if Stream(Last(r), id) != [] {
      FoldTellsStream(Stream(Last(r), id));
    }
  }

  lemma TurnsMean(r: Run, id: DialogueId)
    requires IsRun(r) && CanResume(Last(r), id, TurnsRead)
    ensures var w, t := Last(r), Last(r).replies[id];
      && Begun(Stream(w, id), id) && OwnerOf(w, id) == Some(t.project)
      && Resumed(id, t.project, t.row, Fold(Stream(w, id)).history) == FromLog(Stream(w, id), id)
  {
    RunGoodAt(r, |r.steps|, id);
    FoldTellsStream(Stream(Last(r), id));
  }

  lemma AnswerMeans(r: Run, id: DialogueId)
    requires IsRun(r) && ThinksOf(Last(r), id)
    ensures var turns := |TurnsOf(Stream(Last(r), id))|;
      && |Last(r).replies[id].live.messages| / 2 <= turns
      && (|Last(r).replies[id].live.messages| / 2 == turns <==> !MarkIn(r, id).live)
  {
    RunGoodAt(r, |r.steps|, id);
    SpokenHalves(Stream(Last(r), id), id);
  }

  lemma LoadMeans(r: Run, id: DialogueId)
    requires IsRun(r) && CanRespond(Last(r), id, TranscriptLoaded)
    ensures var w, t := Last(r), Last(r).replies[id];
      var next := Execute(Stream(w, id), Exchange(t.reply, t.asked));
      && (next.Some? <==> !IsConcluded(Stream(w, id)))
      && (next.Some? ==> Recorded(Stream(w, id), next.value, t.reply, t.asked))
  {
    RunGoodAt(r, |r.steps|, id);
    ExchangeRecorded(Stream(Last(r), id), Last(r).replies[id].reply, Last(r).replies[id].asked);
  }

  lemma SaveMeans(r: Run, id: DialogueId)
    requires IsRun(r) && CanRespond(Last(r), id, TurnSaves) && Stream(Last(r), id) == Last(r).replies[id].loaded
    ensures var t := Last(r).replies[id];
      && Recorded(t.loaded, t.next, t.reply, t.asked)
      && (t.asked.position == |TurnsOf(t.loaded)| <==> !MarkIn(r, id).live)
  {
    RunGoodAt(r, |r.steps|, id);
    SpokenHalves(Last(r).replies[id].loaded, id);
  }

  lemma EndLoadMeans(r: Run, task: Task)
    requires IsRun(r) && CanEnd(Last(r), task, EndLoaded)
    ensures var stream := Stream(Last(r), Last(r).writers[task].id);
      Execute(stream, [Conclude(Abandoned)]).Some? <==> stream != [] && !IsConcluded(stream)
  {
    RunGood(r, |r.steps|);
    GoodBegins(r, |r.steps|);
    EndLoads(Stream(Last(r), Last(r).writers[task].id), Last(r).writers[task].id);
  }

  lemma GradeLoadMeans(r: Run, task: Task)
    requires IsRun(r) && CanGrade(Last(r), task, GradeLoaded)
    ensures var stream := Stream(Last(r), Last(r).writers[task].id);
      Execute(stream, [Observing(Last(r).writers[task].mark)]).Some? <==> stream != [] && !IsConcluded(stream)
  {
    var t := Last(r).writers[task];
    RunGood(r, |r.steps|);
    GoodBegins(r, |r.steps|);
    GradeLoads(Stream(Last(r), t.id), t.id, t.mark);
  }

  lemma WriterGood(r: Run, task: Task)
    requires IsRun(r) && task in Last(r).writers
    ensures GoodWriter(Last(r).writers[task])
  {
    RunGood(r, |r.steps|);
  }

  /** What ending has made of the stream it loaded. */
  lemma EndingMeans(r: Run, task: Task)
    requires IsRun(r) && task in Last(r).writers && Last(r).writers[task].EndSaving?
    ensures var t := Last(r).writers[task];
      && t.next == t.loaded + [Concluded(Abandoned)] && IsConcluded(t.next) && TurnsOf(t.next) == TurnsOf(t.loaded)
  {
    WriterGood(r, task);
    TurnsStep(Last(r).writers[task].loaded, Concluded(Abandoned));
  }

  /** One more observation, that witnesses the mark, and the same turns. */
  ghost predicate GainsMark(before: seq<Event>, after: seq<Event>, mark: Mark) {
    && before <= after && |after| == |before| + 1 && Witnesses(after[|before|], mark)
    && Marked(after) == Marked(before) + 1 && TurnsOf(after) == TurnsOf(before)
  }

  lemma OneMarks(before: seq<Event>, after: seq<Event>, mark: Mark)
    requires before <= after && |after| == |before| + 1 && Witnesses(after[|before|], mark)
    ensures GainsMark(before, after, mark)
  {
    var e := after[|before|];
    assert after == before + [e];
    TurnsStep(before, e);
    MarkedStep(before, e);
  }

  /** What grading has made of it. */
  lemma GradingMeans(r: Run, task: Task)
    requires IsRun(r) && task in Last(r).writers && Last(r).writers[task].GradeSaving?
    ensures var t := Last(r).writers[task]; GainsMark(t.loaded, t.next, t.mark)
  {
    WriterGood(r, task);
    var t := Last(r).writers[task];
    OneMarks(t.loaded, t.next, t.mark);
  }

  /** One more attempt, the mark's, or nothing; and no more attempts than observations. */
  ghost predicate AttemptSaved(w: World, w': World, t: Writer, outcome: Outcome)
    requires t.GradeSaved?
  {
    var before, after := ProgressOf(w, t.id), ProgressOf(w', t.id);
    && outcome == (if t.mark.component == "" then CommandRejected else Finished)
    && Attempts(after) == Attempts(before) + (if outcome == Finished then 1 else 0)
    && Attempts(after) <= Marked(Stream(w', t.id))
    && if outcome == Finished then Adds(before, after, t.id, t.mark) else w'.progress == w.progress
  }

  lemma RecordSaves(w: World, task: Task, id: DialogueId, mark: Mark)
    ensures var (w', outcome) := RecordGrade(w, task, id, mark);
      var before, after := ProgressOf(w, id), ProgressOf(w', id);
      && outcome == (if mark.component == "" then CommandRejected else Finished)
      && Attempts(after) == Attempts(before) + (if outcome == Finished then 1 else 0)
      && if outcome == Finished then Adds(before, after, id, mark) else w'.progress == w.progress
  {
    AttemptAdds(id, mark, ProgressOf(w, id));
    if mark.component != "" {
      OneMoreAttempt(id, mark, ProgressOf(w, id));
    }
  }

  lemma RecordMeans(r: Run, task: Task)
    requires IsRun(r) && CanGrade(Last(r), task, ProgressSaves)
    ensures var w, t := Last(r), Last(r).writers[task]; var (w', outcome) := RecordGrade(w, task, t.id, t.mark);
      AttemptSaved(w, w', t, outcome)
  {
    var t := Last(r).writers[task];
    var step := Grading(task, ProgressSaves);
    RecordSaves(Last(r), task, t.id, t.mark);
    ThenRuns(r, step);
    AttemptsWitnessed(Then(r, step), |r.steps| + 1, t.id);
  }

  lemma MarkedStep(loaded: seq<Event>, e: Event)
    ensures Marked(loaded + [e]) == Marked(loaded) + if e.Observed? && e.evidence.Attempt? then 1 else 0
  {
    assert (loaded + [e])[..|loaded|] == loaded;
  }

  /** Nothing outlives a crash, so nothing can be behind. */
  lemma CrashMeans(r: Run, id: DialogueId)
    requires IsRun(r)
    ensures IsRun(Then(r, Crash)) && MarkIn(Then(r, Crash), id) == UNMARKED
  {
    MarksThen(r, Crash, id);
  }

  class SocraticDialogueService {
    var streams: map<DialogueId, seq<Event>>
    var progress: map<DialogueId, seq<Learner.Event>>
    var held: map<DialogueId, Live>
    var running: set<DialogueId>
    var replies: map<DialogueId, Reply>
    var writers: map<Task, Writer>
    var begun: map<DialogueId, Live>
    ghost var run: Run

    ghost function Now(): World
      reads this
    {
      World(streams, progress, held, running, replies, writers, begun)
    }

    /** The object is where its run has come to. */
    ghost predicate Valid()
      reads this
    {
      IsRun(run) && Last(run) == Now()
    }

    ghost function MarkOf(id: DialogueId): Marks
      reads this
      requires Valid()
    {
      MarkIn(run, id)
    }

    constructor ()
      ensures Valid() && Now() == INITIAL_WORLD
    {
      streams, progress, held, running, replies, writers, begun := map[], map[], map[], {}, map[], map[], map[];
      run := Run([INITIAL_WORLD], []);
    }

    function Load(id: DialogueId): (stream: seq<Event>)
      reads this
      ensures stream == Stream(Now(), id)
    {
      if id in streams then streams[id] else []
    }

    /** The step just taken goes on record. */
    ghost method Advance(step: Step)
      requires IsRun(run) && Enabled(Last(run), step) && Now() == Next(Last(run), step).0
      modifies this`run
      ensures Valid() && run == Then(old(run), step)
    {
      ThenRuns(run, step);
      run := Then(run, step);
    }

    // ----- The registry -----

    /** A hit, or a miss that drops what was there. */
    method Recall(id: DialogueId, project: ProjectId, expired: bool) returns (live: Option<Live>)
      modifies this`held
      ensures live ==
              if id in old(held) && old(held)[id].project == project && !expired then Some(old(held)[id]) else None
      ensures held == if live.Some? then old(held) else old(held) - {id}
    {
      if id !in held {
        return None;
      }
      if held[id].project != project || expired {
        held := held - {id};
        return None;
      }
      return Some(held[id]);
    }

    method Keep(id: DialogueId, live: Live, evicted: set<DialogueId>)
      modifies this`held
      ensures held == old(held)[id := live] - evicted
    {
      held := held[id := live];
      held := held - evicted;
    }

    /** `forget`, `clear` and `evict_idle`. No stream is touched: what is gone can be rebuilt. */
    method Forget(ids: set<DialogueId>)
      requires Valid()
      modifies this
      ensures Valid() && run == Then(old(run), Forgotten(ids))
      ensures forall id :: id in ids ==> id !in held
      ensures streams == old(streams) && progress == old(progress)
    {
      held := held - ids;
      Advance(Forgotten(ids));
    }

    // ----- begin -----

    /** The framing is on the stream, and nothing is in the registry yet. */
    method SaveFraming(id: DialogueId, project: ProjectId, topic: string, goal: string, condition: string,
                       opening: string)
      requires Valid() && CanBegin(Now(), id, BeginSaves(project, topic, goal, condition, opening))
      modifies this
      ensures Valid() && run == Then(old(run), Beginning(id, BeginSaves(project, topic, goal, condition, opening)))
      ensures Stream(Now(), id) == [Started(id, project, topic, goal, condition, opening)]
      ensures Begun(Stream(Now(), id), id) && TurnsOf(Stream(Now(), id)) == [] && held == old(held)
      ensures id in begun && begun[id] == FromLog(Stream(Now(), id), id)
    {
      var decision := Decide(Start(id, project, topic, goal, condition, opening), INITIAL);
      var messages := RebuildMessages(opening, []);
      streams := streams[id := [decision.event]];
      assert messages == Opening(opening);
      begun := begun[id := Live(id, project, topic, goal, condition, messages)];
      Advance(Beginning(id, BeginSaves(project, topic, goal, condition, opening)));
      assert [decision.event][..0] == [];
    }

    /** The registry's entry is what the log would give, unless somebody has had an exchange
        in the meantime. */
    method PutBegun(id: DialogueId, evicted: set<DialogueId>)
      requires Valid() && CanBegin(Now(), id, BeginPuts(evicted))
      modifies this
      ensures Valid() && run == Then(old(run), Beginning(id, BeginPuts(evicted)))
      ensures id in held <==> id !in evicted
      ensures id in held ==> (Agrees(Now(), id) <==> !TooLate(old(Now()), id))
    {
      Keep(id, begun[id], evicted);
      begun := begun - {id};
      Advance(Beginning(id, BeginPuts(evicted)));
      if id in held {
        HeldAfter(old(run), Beginning(id, BeginPuts(evicted)), id);
      }
    }

    method CancelBegin(id: DialogueId)
      requires Valid() && CanBegin(Now(), id, BeginCancelled)
      modifies this
      ensures Valid() && run == Then(old(run), Beginning(id, BeginCancelled))
      ensures id !in begun && streams == old(streams) && held == old(held)
    {
      begun := begun - {id};
      Advance(Beginning(id, BeginCancelled));
    }

    // ----- respond -----

    /** Lines 185-189 and 431-433, as far as the cache goes. One reply at a time; and what the
        registry gives is the history in the log, unless the entry is marked, and is given to
        the dialogue's own project only. */
    method StartReply(id: DialogueId, project: ProjectId, reply: string, expired: bool) returns (outcome: Outcome)
      requires Valid()
      modifies this
      ensures Valid() && run == Then(old(run), Resuming(id, ReplyStarts(project, reply, expired)))
      ensures outcome == DialogueInFlight <==> id in old(replies)
      ensures id in old(replies) ==> Now() == old(Now())
      ensures id !in old(replies) ==> id in replies && id in running && streams == old(streams)
      ensures id !in old(replies) && ThinksOf(Now(), id) ==>
        && Begun(Stream(Now(), id), id) && OwnerOf(Now(), id) == Some(project)
        && (replies[id].live == FromLog(Stream(Now(), id), id) <==> !old(MarkOf(id)).held)
      ensures id !in old(replies) && !ThinksOf(Now(), id) ==> replies[id] == FetchingRow(project, reply) && id !in held
    {
      GuardHolds(run, |run.steps|, id);
      if id in running {
        outcome := DialogueInFlight;
      } else {
        StartMeans(run, id, project, reply, expired);
        running := running + {id};
        var cached := Recall(id, project, expired);
        if cached.Some? {
          replies := replies[id := Thinking(project, cached.value, reply)];
        } else {
          replies := replies[id := FetchingRow(project, reply)];
        }
        outcome := Waiting;
      }
      Advance(Resuming(id, ReplyStarts(project, reply, expired)));
    }

    /** The generator's `finally`. */
    method Release(id: DialogueId)
      modifies this`running, this`replies
      ensures running == old(running) - {id} && replies == old(replies) - {id}
    {
      running := running - {id};
      replies := replies - {id};
    }

    /** Refused as unknown exactly when the stream is not this project's, or none; as concluded
        exactly when it is and has ended; and a refusal frees the slot. */
    method ReadRow(id: DialogueId) returns (outcome: Outcome)
      requires Valid() && CanResume(Now(), id, RowRead)
      modifies this
      ensures Valid() && run == Then(old(run), Resuming(id, RowRead))
      ensures var own := OwnerOf(old(Now()), id) == Some(old(replies)[id].project);
        && (outcome == UnknownDialogue <==> !own)
        && (outcome == DialogueConcluded <==> own && IsConcluded(Stream(old(Now()), id)))
        && (outcome == Waiting <==> own && !IsConcluded(Stream(old(Now()), id)))
      ensures outcome != Waiting ==> id !in replies && id !in running
      ensures streams == old(streams) && held == old(held)
    {
      var row, task := Fold(Load(id)), replies[id];
      RowMeans(run, id);
      if row.status.New? || row.project != Some(task.project) {
        Release(id);
        outcome := UnknownDialogue;
      } else if row.status.Ended? {
        Release(id);
        outcome := DialogueConcluded;
      } else {
        replies := replies[id := FetchingTurns(task.project, task.reply, row)];
        outcome := Waiting;
      }
      Advance(Resuming(id, RowRead));
    }

    /** What is rebuilt is the history in the log. */
    method ReadTurns(id: DialogueId)
      requires Valid() && CanResume(Now(), id, TurnsRead)
      modifies this
      ensures Valid() && run == Then(old(run), Resuming(id, TurnsRead))
      ensures ThinksOf(Now(), id) && OwnerOf(Now(), id) == Some(replies[id].project)
      ensures Begun(Stream(Now(), id), id) && replies[id].live == FromLog(Stream(Now(), id), id)
      ensures streams == old(streams) && held == old(held)
    {
      var task := replies[id];
      TurnsMean(run, id);
      var messages := RebuildMessages(task.row.opening, Fold(Load(id)).history);
      var live := Live(id, task.project, task.row.topic, task.row.goal, task.row.condition, messages);
      replies := replies[id := Thinking(task.project, live, task.reply)];
      Advance(Resuming(id, TurnsRead));
    }

    /** Line 244. The answer is numbered by the exchanges on the stream, unless the dialogue
        it was made from is marked; then too low. */
    method TakeAnswer(id: DialogueId, prompt: string, citations: seq<string>, observation: Option<Observation>,
                      concluded: bool)
      requires Valid() && CanRespond(Now(), id, ExecutorAnswers(prompt, citations, observation, concluded))
      modifies this
      ensures Valid() && run == Then(old(run), Turning(id, ExecutorAnswers(prompt, citations, observation, concluded)))
      ensures id in replies && replies[id].Loading? && streams == old(streams) && held == old(held)
      ensures var asked := replies[id].asked;
        && asked == Asked(prompt, citations, observation, concluded, asked.position)
        && replies[id].live == old(replies)[id].live && replies[id].reply == old(replies)[id].reply
      ensures var position, turns := replies[id].asked.position, |TurnsOf(Stream(Now(), id))|;
        position <= turns && (position == turns <==> !old(MarkOf(id)).live)
    {
      var task := replies[id];
      AnswerMeans(run, id);
      var asked := Asked(prompt, citations, observation, concluded, |task.live.messages| / 2);
      replies := replies[id := Loading(task.live, task.reply, asked)];
      Advance(Turning(id, ExecutorAnswers(prompt, citations, observation, concluded)));
    }

    /** The exchange can be recorded exactly if the stream just loaded has not ended; what is
        to be saved adds that exchange and no other. */
    method LoadTranscript(id: DialogueId) returns (outcome: Outcome)
      requires Valid() && CanRespond(Now(), id, TranscriptLoaded)
      modifies this
      ensures Valid() && run == Then(old(run), Turning(id, TranscriptLoaded))
      ensures outcome == (if IsConcluded(Stream(Now(), id)) then CommandRejected else Waiting)
      ensures outcome == Waiting ==>
        && id in replies && replies[id].Saving? && replies[id].loaded == Stream(Now(), id)
        && Recorded(Stream(Now(), id), replies[id].next, old(replies)[id].reply, old(replies)[id].asked)
      ensures outcome != Waiting ==> id !in replies && id !in running
      ensures streams == old(streams) && held == old(held)
    {
      var task, loaded := replies[id], Load(id);
      LoadMeans(run, id);
      var next := RecordExchange(loaded, task.reply, task.asked);
      if next.None? {
        Release(id);
        outcome := CommandRejected;
      } else {
        replies := replies[id := Saving(task.live, task.reply, task.asked, loaded, next.value)];
        outcome := Waiting;
      }
      Advance(Turning(id, TranscriptLoaded));
    }

    /** Either nobody has saved since, and the exchange is the stream's last turn, at its own
        position unless the reply is marked; or the save is refused and the stream as it was. */
    method SaveTurn(id: DialogueId) returns (outcome: Outcome)
      requires Valid() && CanRespond(Now(), id, TurnSaves)
      modifies this
      ensures Valid() && run == Then(old(run), Turning(id, TurnSaves))
      ensures outcome == (if Stream(old(Now()), id) == old(replies)[id].loaded then Waiting else SaveRefused)
      ensures outcome == Waiting ==>
        var t := old(replies)[id];
        && OnItsWay(Now(), id) && Shape(Stream(Now(), id)) && Stream(old(Now()), id) <= Stream(Now(), id)
        && TurnsOf(Stream(Now(), id)) == TurnsOf(Stream(old(Now()), id)) + [(t.reply, t.asked.prompt)]
        && Written(Stream(old(Now()), id), Stream(Now(), id), t.reply, t.asked)
        && (IsConcluded(Stream(Now(), id)) <==> t.asked.concluded)
        && (t.asked.position == |TurnsOf(Stream(old(Now()), id))| <==> !old(MarkOf(id)).live)
      ensures outcome != Waiting ==> streams == old(streams) && id !in replies && id !in running
      ensures held == old(held)
    {
      var task := replies[id];
      if Load(id) != task.loaded {
        Release(id);
        outcome := SaveRefused;
      } else {
        SaveMeans(run, id);
        streams := streams[id := task.next];
        replies := replies[id := Saved(task.live, task.reply, task.asked)];
        outcome := Waiting;
      }
      Advance(Turning(id, TurnSaves));
    }

    /** Lines 250-257. The entry put is what the log would give, concluded or not, unless the
        reply was made from a marked dialogue. */
    method PutTurn(id: DialogueId, evicted: set<DialogueId>) returns (outcome: Outcome)
      requires Valid() && CanRespond(Now(), id, TurnPuts(evicted))
      modifies this
      ensures Valid() && run == Then(old(run), Turning(id, TurnPuts(evicted)))
      ensures outcome == Given(old(replies)[id].asked) && streams == old(streams)
      ensures id in held <==> id !in evicted
      ensures id in held ==> (Agrees(Now(), id) <==> !old(MarkOf(id)).live)
    {
      var task := replies[id];
      Keep(id, task.live.Appended(task.reply, task.asked.prompt), evicted);
      replies := replies[id := Handing(task.asked)];
      outcome := Given(task.asked);
      Advance(Turning(id, TurnPuts(evicted)));
      if id in held {
        HeldAfter(old(run), Turning(id, TurnPuts(evicted)), id);
      }
    }

    /** However the reply ends, handed over, failed, abandoned or cancelled, the slot is free and
        what is stored stays; and the registry agrees with the log if it did and no exchange was
        on its way to it. */
    method EndReply(id: DialogueId) returns (outcome: Outcome)
      requires Valid() && CanRespond(Now(), id, ReplyEnds)
      modifies this
      ensures Valid() && run == Then(old(run), Turning(id, ReplyEnds))
      ensures outcome == if old(replies)[id].Handing? then Finished else Dropped
      ensures id !in replies && id !in running && streams == old(streams) && held == old(held)
      ensures id in held ==> (Agrees(Now(), id) <==> !old(MarkOf(id)).held && !OnItsWay(old(Now()), id))
    {
      outcome := if replies[id].Handing? then Finished else Dropped;
      Release(id);
      Advance(Turning(id, ReplyEnds));
      if id in held {
        HeldAfter(old(run), Turning(id, ReplyEnds), id);
      }
    }

    // ----- end -----

    method CallEnd(task: Task, id: DialogueId)
      requires Valid() && task !in writers
      modifies this
      ensures Valid() && run == Then(old(run), EndCalled(task, id))
      ensures task in writers && writers[task] == EndLoading(id) && streams == old(streams)
    {
      writers := writers[task := EndLoading(id)];
      Advance(EndCalled(task, id));
    }

    /** There is something to end exactly if the stream has begun and not ended. */
    method LoadForEnd(task: Task) returns (outcome: Outcome)
      requires Valid() && CanEnd(Now(), task, EndLoaded)
      modifies this
      ensures Valid() && run == Then(old(run), Ending(task, EndLoaded))
      ensures var stream := Stream(Now(), old(writers)[task].id);
        outcome == if stream != [] && !IsConcluded(stream) then Waiting else CommandRejected
      ensures streams == old(streams) && (outcome != Waiting ==> task !in writers)
    {
      var id := writers[task].id;
      EndLoadMeans(run, task);
      assert [Conclude(Abandoned)] == [Conclude(Abandoned)] + [];
      var next := ExecuteOne(Some(Load(id)), Conclude(Abandoned), [Conclude(Abandoned)], []);
      if next.None? {
        writers := writers - {task};
        outcome := CommandRejected;
      } else {
        writers := writers[task := EndSaving(id, Load(id), next.value)];
        outcome := Waiting;
      }
      Advance(Ending(task, EndLoaded));
    }

    /** Either nobody has saved since, and the dialogue has ended, its turns as they were; or the
        save is refused and the stream as it was. */
    method SaveEnd(task: Task) returns (outcome: Outcome)
      requires Valid() && CanEnd(Now(), task, EndSaves)
      modifies this
      ensures Valid() && run == Then(old(run), Ending(task, EndSaves))
      ensures var t := old(writers)[task];
        && outcome == (if Stream(old(Now()), t.id) == t.loaded then Waiting else SaveRefused)
        && (outcome == Waiting ==>
              && Stream(Now(), t.id) == Stream(old(Now()), t.id) + [Concluded(Abandoned)]
              && TurnsOf(Stream(Now(), t.id)) == TurnsOf(Stream(old(Now()), t.id)))
      ensures outcome != Waiting ==> streams == old(streams) && task !in writers
      ensures held == old(held)
    {
      var t := writers[task];
      EndingMeans(run, task);
      if Load(t.id) != t.loaded {
        writers := writers - {task};
        outcome := SaveRefused;
      } else {
        streams := streams[t.id := t.next];
        writers := writers[task := EndSaved(t.id)];
        outcome := Waiting;
      }
      Advance(Ending(task, EndSaves));
    }

    /** The dialogue has ended and the registry no longer has it: a reply that starts now will
        read the row. */
    method ForgetEnded(task: Task)
      requires Valid() && CanEnd(Now(), task, EndForgets)
      modifies this
      ensures Valid() && run == Then(old(run), Ending(task, EndForgets))
      ensures var id := old(writers)[task].id; IsConcluded(Stream(Now(), id)) && id !in held
      ensures streams == old(streams) && task !in writers
    {
      RunEndsSaved(run, |run.steps|);
      held := held - {writers[task].id};
      writers := writers - {task};
      Advance(Ending(task, EndForgets));
    }

    // ----- record_attempt -----

    method CallGrade(task: Task, id: DialogueId, mark: Mark)
      requires Valid() && task !in writers
      modifies this
      ensures Valid() && run == Then(old(run), GradeCalled(task, id, mark))
      ensures task in writers && writers[task] == GradeLoading(id, mark) && streams == old(streams)
    {
      writers := writers[task := GradeLoading(id, mark)];
      Advance(GradeCalled(task, id, mark));
    }

    method LoadForGrade(task: Task) returns (outcome: Outcome)
      requires Valid() && CanGrade(Now(), task, GradeLoaded)
      modifies this
      ensures Valid() && run == Then(old(run), Grading(task, GradeLoaded))
      ensures var stream := Stream(Now(), old(writers)[task].id);
        outcome == if stream != [] && !IsConcluded(stream) then Waiting else CommandRejected
      ensures streams == old(streams) && progress == old(progress) && (outcome != Waiting ==> task !in writers)
    {
      var t := writers[task];
      var observing := Observing(t.mark);
      GradeLoadMeans(run, task);
      assert [observing] == [observing] + [];
      var next := ExecuteOne(Some(Load(t.id)), observing, [observing], []);
      if next.None? {
        writers := writers - {task};
        outcome := CommandRejected;
      } else {
        writers := writers[task := GradeSaving(t.id, t.mark, Load(t.id), next.value)];
        outcome := Waiting;
      }
      Advance(Grading(task, GradeLoaded));
    }

    /** Either nobody has saved since, and the stream has one more observation that rests on an
        attempt and the same turns; or the save is refused and nothing is stored. The attempt
        itself is not stored yet. */
    method SaveObservation(task: Task) returns (outcome: Outcome)
      requires Valid() && CanGrade(Now(), task, GradeSaves)
      modifies this
      ensures Valid() && run == Then(old(run), Grading(task, GradeSaves))
      ensures var t := old(writers)[task];
        && outcome == (if Stream(old(Now()), t.id) == t.loaded then Waiting else SaveRefused)
        && (outcome == Waiting ==> GainsMark(Stream(old(Now()), t.id), Stream(Now(), t.id), t.mark))
      ensures outcome != Waiting ==> streams == old(streams) && task !in writers
      ensures progress == old(progress) && held == old(held)
    {
      var t := writers[task];
      GradingMeans(run, task);
      if Load(t.id) != t.loaded {
        writers := writers - {task};
        outcome := SaveRefused;
      } else {
        streams := streams[t.id := t.next];
        writers := writers[task := GradeSaved(t.id, t.mark)];
        outcome := Waiting;
      }
      Advance(Grading(task, GradeSaves));
    }

    /** One more attempt, or none if it has no component; and still no more attempts than the
        stream has observations for. */
    method SaveAttempt(task: Task) returns (outcome: Outcome)
      requires Valid() && CanGrade(Now(), task, ProgressSaves)
      modifies this
      ensures Valid() && run == Then(old(run), Grading(task, ProgressSaves))
      ensures AttemptSaved(old(Now()), Now(), old(writers)[task], outcome)
      ensures streams == old(streams) && held == old(held) && task !in writers
    {
      var t := writers[task];
      RecordMeans(run, task);
      var events := if t.id in progress then progress[t.id] else [];
      var decision := Learner.Decide(Attempting(t.id, t.mark), Learner.Fold(events));
      writers := writers - {task};
      if decision.Refused? {
        outcome := CommandRejected;
      } else {
        progress := progress[t.id := events + decision.events];
        outcome := Finished;
      }
      Advance(Grading(task, ProgressSaves));
    }

    method FailWriter(task: Task)
      requires Valid() && task in writers
      modifies this
      ensures Valid() && run == Then(old(run), WriterFails(task))
      ensures task !in writers && streams == old(streams) && progress == old(progress) && held == old(held)
    {
      writers := writers - {task};
      Advance(WriterFails(task));
    }

    /** The process dies: what is left is what was stored, and nothing is behind it. */
    method Restart()
      requires Valid()
      modifies this
      ensures Valid() && run == Then(old(run), Crash)
      ensures streams == old(streams) && progress == old(progress) && held == map[] && running == {}
      ensures forall id :: MarkOf(id) == UNMARKED
    {
      held, running, replies, writers, begun := map[], {}, map[], map[], map[];
      Advance(Crash);
      forall id
        ensures MarkOf(id) == UNMARKED
      {
        CrashMeans(old(run), id);
      }
    }
  }
}
