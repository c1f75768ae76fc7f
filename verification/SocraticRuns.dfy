/** research_team/dialogue/application/socratic.py over whole runs: the registry against the
    log, whatever is interleaved with whatever. */
module SocraticRuns {
  import opened Wrappers
  import opened Dialogue
  import opened SocraticSteps
  import opened SocraticViews

  // ----- The cache and the log -----

  /** In every state of every run a registry entry, with the exchange on its way to it if one
      is, is what `_resume` would rebuild from the log, if and only if it is not marked: it
      came from the log, or from a live dialogue that did, and since then no reply ended
      between its save and its put, and no `begin` put its opening over an exchange. */
  lemma CacheAgreesIff(r: Run, k: nat, id: DialogueId)
    requires Within(r, k) && id in r.states[k].held
    ensures var w := r.states[k];
      && Begun(Stream(w, id), id)
      && (Caught(w.held[id], Of(w.replies, id)) == FromLog(Stream(w, id), id) <==> !MarksOf(r, k, id).held)
  {
    RunGoodAt(r, k, id);
  }

  /** A reply ends between its save and its put, or a `begin` puts its opening over an
      exchange others have had meanwhile. */
  predicate Mislays(w: World, step: Step) {
    || (step.Turning? && step.a.ReplyEnds? && OnItsWay(w, step.id))
    || (step.Beginning? && step.b.BeginPuts? && TooLate(w, step.id))
  }

  ghost predicate NoneMislaid(r: Run, k: nat)
    requires Within(r, k)
  {
    forall j {:trigger Mislays(r.states[j], r.steps[j])} :: 0 <= j < k ==> !Mislays(r.states[j], r.steps[j])
  }

  lemma {:induction false} NoneMislaidNoneMarked(r: Run, k: nat, id: DialogueId)
    requires Within(r, k) && NoneMislaid(r, k)
    ensures MarksOf(r, k, id) == UNMARKED
  {
    if k > 0 {
      NoneMislaidNoneMarked(r, k - 1, id);
      assert Follows(r, k - 1);
      assert !Mislays(r.states[k - 1], r.steps[k - 1]);
    }
  }

  /** Where neither of the two happens, the cache agrees with the log in every state of every
      run, whatever is begun, answered, failed, abandoned, forgotten, evicted, graded, ended or
      crashed, in whatever order. */
  lemma CacheAgreesWithLog(r: Run, k: nat, id: DialogueId)
    requires Within(r, k) && NoneMislaid(r, k) && id in r.states[k].held
    ensures var w := r.states[k];
      Begun(Stream(w, id), id) && Caught(w.held[id], Of(w.replies, id)) == FromLog(Stream(w, id), id)
  {
    NoneMislaidNoneMarked(r, k, id);
    CacheAgreesIff(r, k, id);
  }

  /** Live or resumed, the executor is given the history that is in the log, if and only if
      the live dialogue it was handed is not marked. */
  lemma ExecutorSeesLog(r: Run, k: nat, id: DialogueId)
    requires Within(r, k)
    requires var w := r.states[k]; id in w.replies && w.replies[id].Thinking?
    ensures var w := r.states[k];
      && Begun(Stream(w, id), id)
      && (w.replies[id].live == FromLog(Stream(w, id), id) <==> !MarksOf(r, k, id).live)
  {
    RunGoodAt(r, k, id);
  }

  function LastSaid(messages: seq<Message>): string {
    if messages == [] then "" else messages[|messages| - 1].text
  }

  /** Until the end, the question a history closes with is the one the stream has pending. */
  lemma LastSaidIsPending(stream: seq<Event>, id: DialogueId)
    requires Shape(stream) && stream != [] && !IsConcluded(stream)
    ensures LastSaid(FromLog(stream, id).messages) == Fold(stream).pending
  {
    FoldTellsStream(stream);
    var turns := TurnsOf(stream);
    if turns != [] {
      var n := |turns| - 1;
      assert turns == turns[..n] + [turns[n]];
      SpokenStep(turns[..n], turns[n]);
    }
  }

  /** The question a reply announces on opening is the one its dialogue has pending. */
  lemma AnnouncedIsPending(r: Run, k: nat, id: DialogueId)
    requires Within(r, k) && !MarksOf(r, k, id).live
    requires var w := r.states[k]; id in w.replies && w.replies[id].Thinking? && !IsConcluded(Stream(w, id))
    ensures var w := r.states[k]; LastSaid(w.replies[id].live.messages) == Fold(Stream(w, id)).pending
  {
    ExecutorSeesLog(r, k, id);
    LastSaidIsPending(Stream(r.states[k], id), id);
  }

  /** One reply at a time: the guard holds exactly the dialogues being answered. */
  lemma GuardHolds(r: Run, k: nat, id: DialogueId)
    requires Within(r, k)
    ensures var w := r.states[k]; id in w.running <==> id in w.replies
  {
    RunGoodAt(r, k, id);
  }

  // ----- Positions -----

  lemma SpokenHalves(stream: seq<Event>, id: DialogueId)
    requires Shape(stream) && stream != []
    ensures |FromLog(stream, id).messages| / 2 == |TurnsOf(stream)|
  {
    SpokenCount(TurnsOf(stream));
  }

  /** A recorded reply is numbered by the exchanges behind it, opening question or none: its
      turn is the one at that place in the stream; and one answered from a marked dialogue is
      numbered too low. */
  lemma PositionIsIndex(r: Run, k: nat, id: DialogueId)
    requires Within(r, k) && CanRespond(r.states[k], id, TurnSaves)
    requires Respond(r.states[k], id, TurnSaves).1.Waiting?
    ensures var w := r.states[k];
      var asked, turns := w.replies[id].asked, TurnsOf(Stream(Respond(w, id, TurnSaves).0, id));
      && asked.position < |turns| && turns[|turns| - 1] == (w.replies[id].reply, asked.prompt)
      && (asked.position == |turns| - 1 <==> !MarksOf(r, k, id).live)
  {
    RunGoodAt(r, k, id);
    SpokenHalves(r.states[k].replies[id].loaded, id);
  }

  // ----- The end of a dialogue -----

  ghost predicate Grows(w: World, w': World, id: DialogueId) {
    Stream(w, id) <= Stream(w', id) && (IsConcluded(Stream(w, id)) ==> Stream(w', id) == Stream(w, id))
  }

  lemma RespondGrows(w: World, id: DialogueId, a: TurnStep, m: Marks)
    requires CanRespond(w, id, a) && GoodView(ViewOf(w, id, m), id)
    ensures Grows(w, Respond(w, id, a).0, id)
  {
  }

  lemma BeginGrows(w: World, other: DialogueId, b: BeginStep, id: DialogueId)
    requires CanBegin(w, other, b)
    ensures Grows(w, Begin(w, other, b).0, id)
  {
  }

  lemma ResumeGrows(w: World, other: DialogueId, r: ResumeStep, id: DialogueId)
    requires CanResume(w, other, r)
    ensures Grows(w, Resume(w, other, r).0, id)
  {
  }

  lemma EndGrows(w: World, task: Task, e: EndStep, id: DialogueId)
    requires CanEnd(w, task, e) && GoodWriter(w.writers[task])
    ensures Grows(w, End(w, task, e).0, id)
  {
    if !Saves(w, task, id) {
      EndKeeps(w, task, e, id);
    }
  }

  lemma GradeGrows(w: World, task: Task, g: GradeStep, id: DialogueId)
    requires CanGrade(w, task, g) && GoodWriter(w.writers[task])
    ensures Grows(w, Grade(w, task, g).0, id)
  {
    if !Saves(w, task, id) {
      GradeKeeps(w, task, g, id);
    }
  }

  lemma StreamGrows(w: World, step: Step, id: DialogueId, m: Marks)
    requires Enabled(w, step) && GoodView(ViewOf(w, id, m), id) && GoodWriters(w)
    ensures Grows(w, Next(w, step).0, id)
  {
    match step
    case Beginning(other, b) => BeginGrows(w, other, b, id);
    case Resuming(other, r) => ResumeGrows(w, other, r, id);
    case Turning(other, a) =>
      if other == id {
        RespondGrows(w, id, a, m);
      } else {
        RespondKeeps(w, other, a, id);
      }
    case Ending(task, e) => EndGrows(w, task, e, id);
    case Grading(task, g) => GradeGrows(w, task, g, id);
    case _ =>
  }

  /** Streams only grow, by what keeps their shape, and a concluded stream not at all. */
  lemma NothingAfterConclusion(r: Run, k: nat, step: Step, id: DialogueId)
    requires Within(r, k) && Enabled(r.states[k], step)
    ensures var w := r.states[k];
      Grows(w, Next(w, step).0, id) && Shape(Stream(Next(w, step).0, id))
  {
    RunGood(r, k);
    GrowsInShape(r.states[k], step, id, MarksOf(r, k, id));
  }

  lemma GrowsInShape(w: World, step: Step, id: DialogueId, m: Marks)
    requires Enabled(w, step) && GoodView(ViewOf(w, id, m), id) && GoodWriters(w)
    ensures Grows(w, Next(w, step).0, id) && Shape(Stream(Next(w, step).0, id))
  {
    StreamGrows(w, step, id, m);
    StepGood(w, step, id, m);
    assert GoodView(ViewThen(Next(w, step).0, id, NewMarks(w, step, id, m)), id);
  }

  /** Marking a concluded dialogue stores neither an observation nor an attempt, whether it
      was concluded before the stream was loaded or after. */
  lemma ConcludedNotGraded(r: Run, k: nat, task: Task, g: GradeStep)
    requires Within(r, k) && CanGrade(r.states[k], task, g) && !g.ProgressSaves?
    requires var w := r.states[k]; IsConcluded(Stream(w, w.writers[task].id))
    ensures var w := r.states[k]; Grade(w, task, g).0 == Off(w, task)
  {
    RunGood(r, k);
    GoodBegins(r, k);
    ConcludedRefusesGrade(r.states[k], task, g);
  }

  lemma ConcludedRefusesGrade(w: World, task: Task, g: GradeStep)
    requires CanGrade(w, task, g) && !g.ProgressSaves? && GoodWriter(w.writers[task]) && GoodStreams(w)
    requires IsConcluded(Stream(w, w.writers[task].id))
    ensures Grade(w, task, g).0 == Off(w, task)
  {
    var t := w.writers[task];
    GradeLoads(Stream(w, t.id), t.id, t.mark);
  }

  /** Nor does a reply to a concluded dialogue store anything: it is refused when decided, or
      when saved if the conclusion came in between. */
  lemma ConcludedNotRecorded(r: Run, k: nat, id: DialogueId, a: TurnStep)
    requires Within(r, k) && CanRespond(r.states[k], id, a)
    requires a.TranscriptLoaded? || a.TurnSaves?
    requires IsConcluded(Stream(r.states[k], id))
    ensures Respond(r.states[k], id, a).0 == Over(r.states[k], id)
  {
    RunGoodAt(r, k, id);
    ConcludedRefusesTurn(r.states[k], id, a, MarksOf(r, k, id));
  }

  lemma ConcludedRefusesTurn(w: World, id: DialogueId, a: TurnStep, m: Marks)
    requires CanRespond(w, id, a) && (a.TranscriptLoaded? || a.TurnSaves?)
    requires IsConcluded(Stream(w, id)) && GoodView(ViewOf(w, id, m), id)
    ensures Respond(w, id, a).0 == Over(w, id)
  {
    var t := w.replies[id];
    if a.TranscriptLoaded? {
      ExchangeRecorded(Stream(w, id), t.reply, t.asked);
    }
  }

  /** Whose the dialogue is, going by its row. */
  function OwnerOf(w: World, id: DialogueId): Option<ProjectId> {
    Fold(Stream(w, id)).project
  }

  /** Whatever reaches the executor is on behalf of the project its dialogue belongs to. */
  lemma OwnProjectOnly(r: Run, k: nat, id: DialogueId)
    requires Within(r, k)
    requires var w := r.states[k]; id in w.replies && w.replies[id].Thinking?
    ensures var w := r.states[k]; OwnerOf(w, id) == Some(w.replies[id].project)
  {
    RunGoodAt(r, k, id);
    FoldTellsStream(Stream(r.states[k], id));
  }

  predicate ThinksOf(w: World, id: DialogueId) {
    id in w.replies && w.replies[id].Thinking?
  }

  predicate FetchesTurns(w: World, id: DialogueId) {
    id in w.replies && w.replies[id].FetchingTurns?
  }

  /** A reply starts, and the registry has the dialogue for it. */
  predicate Hits(w: World, step: Step, id: DialogueId) {
    && step.Resuming? && step.id == id && step.r.ReplyStarts? && id !in w.running
    && id in w.held && w.held[id].project == step.r.project && !step.r.expired
  }

  /** The step by which a reply gets to the executor: out of the registry, or from reading turns;
      and to reading turns only past a row read while the dialogue was going on. */
  lemma ReachesExecutor(r: Run, k: nat, id: DialogueId)
    requires Within(r, k + 1)
    ensures var w, w', step := r.states[k], r.states[k + 1], r.steps[k];
      && (!ThinksOf(w, id) ==> (ThinksOf(w', id) <==> Hits(w, step, id) || step == Resuming(id, TurnsRead)))
      && (!FetchesTurns(w, id) && FetchesTurns(w', id) ==> step == Resuming(id, RowRead) && !IsConcluded(Stream(w, id)))
  {
    assert Follows(r, k);
    RunGoodAt(r, k, id);
    EntersBy(r.states[k], r.steps[k], id, MarksOf(r, k, id));
  }

  lemma EntersBy(w: World, step: Step, id: DialogueId, m: Marks)
    requires Enabled(w, step) && GoodView(ViewOf(w, id, m), id)
    ensures var w' := Next(w, step).0;
      && (!ThinksOf(w, id) ==> (ThinksOf(w', id) <==> Hits(w, step, id) || step == Resuming(id, TurnsRead)))
      && (!FetchesTurns(w, id) && FetchesTurns(w', id) ==> step == Resuming(id, RowRead) && !IsConcluded(Stream(w, id)))
  {
    if step.Resuming? && step.id == id {
      ResumeEnters(w, id, step.r, m);
    } else if step.Turning? && step.id == id {
      RespondEnters(w, id, step.a);
    } else if !step.Crash? {
      RepliesLeft(w, step, id);
    }
  }

  lemma ResumeEnters(w: World, id: DialogueId, r: ResumeStep, m: Marks)
    requires CanResume(w, id, r) && GoodView(ViewOf(w, id, m), id)
    ensures var w' := Resume(w, id, r).0;
      && (!ThinksOf(w, id) ==> (ThinksOf(w', id) <==> Hits(w, Resuming(id, r), id) || r.TurnsRead?))
      && (!FetchesTurns(w, id) && FetchesTurns(w', id) ==> r.RowRead? && !IsConcluded(Stream(w, id)))
  {
    RowGood(ViewOf(w, id, m), id, 0);
  }

  lemma RespondEnters(w: World, id: DialogueId, a: TurnStep)
    requires CanRespond(w, id, a)
    ensures var w' := Respond(w, id, a).0; !ThinksOf(w', id) && !FetchesTurns(w', id)
  {
  }

  lemma RepliesLeft(w: World, step: Step, id: DialogueId)
    requires Enabled(w, step) && !step.Crash? && !((step.Resuming? || step.Turning?) && step.id == id)
    ensures Of(Next(w, step).0.replies, id) == Of(w.replies, id)
  {
    match step
    case Resuming(other, r) => ResumeKeeps(w, other, r, id);
    case Turning(other, a) => RespondKeeps(w, other, a, id);
    case Ending(task, e) => EndLeavesReplies(w, task, e);
    case Grading(task, g) => GradeLeavesReplies(w, task, g);
    case _ =>
  }

  lemma EndLeavesReplies(w: World, task: Task, e: EndStep)
    requires CanEnd(w, task, e)
    ensures End(w, task, e).0.replies == w.replies
  {
  }

  lemma GradeLeavesReplies(w: World, task: Task, g: GradeStep)
    requires CanGrade(w, task, g)
    ensures Grade(w, task, g).0.replies == w.replies
  {
    var t := w.writers[task];
    match g
    case GradeLoaded => assert LoadGrade(w, task, t.id, t.mark).0.replies == w.replies;
    case GradeSaves =>
    case ProgressSaves => RecordLeavesReplies(w, task, t.id, t.mark);
  }

  lemma RecordLeavesReplies(w: World, task: Task, id: DialogueId, mark: Mark)
    ensures RecordGrade(w, task, id, mark).0.replies == w.replies
  {
  }

  /** The dialogue is concluded, and no reply to it is with the executor or reading turns. */
  predicate Waits(w: World, id: DialogueId) {
    IsConcluded(Stream(w, id)) && !ThinksOf(w, id) && !FetchesTurns(w, id)
  }

  lemma WaitsOn(r: Run, k: nat, id: DialogueId)
    requires Within(r, k + 1) && Waits(r.states[k], id) && !Hits(r.states[k], r.steps[k], id)
    ensures Waits(r.states[k + 1], id)
  {
    assert Follows(r, k);
    NothingAfterConclusion(r, k, r.steps[k], id);
    ReachesExecutor(r, k, id);
  }

  lemma {:induction false} WaitsUntilHit(r: Run, i: nat, j: nat, id: DialogueId)
    requires Within(r, j) && i <= j && Waits(r.states[i], id)
    requires forall m :: i <= m < j ==> !Hits(r.states[m], r.steps[m], id)
    ensures forall m :: i <= m <= j ==> Waits(r.states[m], id)
    decreases j
  {
    if i < j {
      WaitsUntilHit(r, i, j - 1, id);
      WaitsOn(r, j - 1, id);
    }
  }

  lemma HitThinks(r: Run, k: nat, id: DialogueId)
    requires Within(r, k + 1) && Hits(r.states[k], r.steps[k], id)
    ensures ThinksOf(r.states[k + 1], id)
  {
    GuardHolds(r, k, id);
    ReachesExecutor(r, k, id);
  }

  /** From then on, over whatever run, a reply to a concluded dialogue is with the executor at some
      time if and only if one starts while the registry has the dialogue: left there by the turn
      that concluded it, or put back after it was dropped. */
  lemma ConcludedAsksIff(r: Run, i: nat, j: nat, id: DialogueId)
    requires Within(r, j) && i <= j && Waits(r.states[i], id)
    ensures (exists m :: i <= m <= j && ThinksOf(r.states[m], id))
       <==> (exists m :: i <= m < j && Hits(r.states[m], r.steps[m], id))
  {
    if forall m :: i <= m < j ==> !Hits(r.states[m], r.steps[m], id) {
      WaitsUntilHit(r, i, j, id);
    } else {
      var m :| i <= m < j && Hits(r.states[m], r.steps[m], id);
      HitThinks(r, m, id);
    }
  }

  /** Reading the row lets through the owner of a dialogue that is going on. Everybody else is
      refused, however long after the reply started, and the slot is free. */
  lemma RowRefuses(r: Run, k: nat, id: DialogueId)
    requires Within(r, k) && CanResume(r.states[k], id, RowRead)
    ensures var w := r.states[k];
      var own, outcome := OwnerOf(w, id) == Some(w.replies[id].project), Resume(w, id, RowRead).1;
      && (outcome == Waiting <==> own && !IsConcluded(Stream(w, id)))
      && (outcome != Waiting ==>
            Resume(w, id, RowRead) == (Over(w, id), if own then DialogueConcluded else UnknownDialogue))
  {
    RunGoodAt(r, k, id);
    if Stream(r.states[k], id) != [] {
      FoldTellsStream(Stream(r.states[k], id));
    }
  }

  /** As long as none starts while the registry has it, all a reply to a concluded dialogue does
      before it would get to the executor is start, unless another is under way, read the row and
      be refused. */
  lemma ConcludedRefuses(r: Run, i: nat, k: nat, id: DialogueId)
    requires Within(r, k + 1) && i <= k && Waits(r.states[i], id)
    requires forall m :: i <= m <= k ==> !Hits(r.states[m], r.steps[m], id)
    requires r.steps[k].Resuming? && r.steps[k].id == id
    ensures var w, step := r.states[k], r.steps[k];
      && Enabled(w, step) && !step.r.TurnsRead?
      && (step.r.ReplyStarts? ==> Next(w, step).1 == if id in w.running then DialogueInFlight else Waiting)
      && (step.r.RowRead? ==>
            Next(w, step) == (Over(w, id),
              if OwnerOf(w, id) == Some(w.replies[id].project) then DialogueConcluded else UnknownDialogue))
  {
    WaitsUntilHit(r, i, k, id);
    assert Follows(r, k);
    if r.steps[k].r.RowRead? {
      RowRefuses(r, k, id);
    }
  }

  // ----- Ending -----

  /** A task that has saved its conclusion has concluded its dialogue. */
  ghost predicate EndsSaved(w: World) {
    forall task :: task in w.writers && w.writers[task].EndSaved? ==> IsConcluded(Stream(w, w.writers[task].id))
  }

  lemma EndSavesConclusion(w: World, task: Task, e: EndStep)
    requires CanEnd(w, task, e) && GoodWriter(w.writers[task])
    ensures var w' := End(w, task, e).0;
      task in w'.writers && w'.writers[task].EndSaved? ==> IsConcluded(Stream(w', w'.writers[task].id))
  {
  }

  lemma LoadNotEnded(w: World, task: Task, id: DialogueId, mark: Mark)
    ensures var w' := LoadGrade(w, task, id, mark).0; task in w'.writers ==> !w'.writers[task].EndSaved?
  {
  }

  lemma RecordNotEnded(w: World, task: Task, id: DialogueId, mark: Mark)
    ensures task !in RecordGrade(w, task, id, mark).0.writers
  {
  }

  lemma GradeNotEnded(w: World, task: Task, g: GradeStep)
    requires CanGrade(w, task, g)
    ensures var w' := Grade(w, task, g).0; task in w'.writers ==> !w'.writers[task].EndSaved?
  {
    var t := w.writers[task];
    match g
    case GradeLoaded => LoadNotEnded(w, task, t.id, t.mark);
    case GradeSaves =>
    case ProgressSaves => RecordNotEnded(w, task, t.id, t.mark);
  }

  /** Whoever is past the save of a conclusion after a step was so before it, or is just now. */
  lemma EndedBefore(w: World, step: Step, task: Task)
    requires Enabled(w, step) && GoodWriters(w) && GoodStreams(w)
    requires var w' := Next(w, step).0; task in w'.writers && w'.writers[task].EndSaved?
    ensures var w' := Next(w, step).0;
      || (task in w.writers && w.writers[task] == w'.writers[task])
      || IsConcluded(Stream(w', w'.writers[task].id))
  {
    match step
    case Ending(other, e) =>
      EndMovesOn(w, other, e);
      EndSavesConclusion(w, other, e);
    case Grading(other, g) =>
      GradeMovesOn(w, other, g);
      GradeNotEnded(w, other, g);
    case Beginning(id, b) => BeginLeaves(w, id, b);
    case Resuming(id, r) => ResumeLeaves(w, id, r);
    case Turning(id, a) => RespondLeaves(w, id, a);
    case _ =>
  }

  lemma {:induction false} RunEndsSaved(r: Run, k: nat)
    requires Within(r, k)
    ensures EndsSaved(r.states[k])
  {
    if k > 0 {
      RunEndsSaved(r, k - 1);
      RunGood(r, k - 1);
      GoodBegins(r, k - 1);
      var w, w', step := r.states[k - 1], r.states[k], r.steps[k - 1];
      assert Follows(r, k - 1);
      forall task | task in w'.writers && w'.writers[task].EndSaved?
        ensures IsConcluded(Stream(w', w'.writers[task].id))
      {
        EndedBefore(w, step, task);
        NothingAfterConclusion(r, k - 1, step, w'.writers[task].id);
      }
    }
  }
}
