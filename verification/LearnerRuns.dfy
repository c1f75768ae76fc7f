/** research_team/curriculum/domain/learner.py, over whole runs: what the fold keeps and what is
    completed, said of the commands given and not of the events they left. */
module LearnerRuns {
  import opened Wrappers
  import opened Orders
  import opened Learner

  // ----- The commands at a slot -----

  /** An attempt under some name of the slot, and so one that is accepted. */
  predicate Attempts(command: Command, slot: string) {
    && command.RecordAttempt? && command.path != "" && command.component != ""
    && command.path + "\n" + command.component == slot
  }

  /** A checklist under some name of the slot, with no negative index. */
  predicate Ticks(command: Command, slot: string) {
    && command.RecordChecklist? && command.path != "" && command.component != ""
    && command.path + "\n" + command.component == slot
    && forall i :: 0 <= i < |command.checked| ==> command.checked[i] >= 0
  }

  function AttemptsAt(commands: seq<Command>, slot: string): seq<Command> {
    if commands == [] then [] else
      var n := |commands| - 1;
      AttemptsAt(commands[..n], slot) + if Attempts(commands[n], slot) then [commands[n]] else []
  }

  function TicksAt(commands: seq<Command>, slot: string): seq<Command> {
    if commands == [] then [] else
      var n := |commands| - 1;
      TicksAt(commands[..n], slot) + if Ticks(commands[n], slot) then [commands[n]] else []
  }

  // ----- What the events carry -----

  predicate CarriesAttempt(e: Event, c: Command) {
    && e.Answered? && c.RecordAttempt? && e.id == c.id && e.path == c.path && e.component == c.component
    && e.kind == c.kind && e.digest == c.digest && e.correct == c.correct && e.score == c.score
  }

  /** The boxes of the command, each once and in increasing order. */
  ghost predicate CarriesTicks(e: Event, c: Command) {
    && e.Checked? && c.RecordChecklist? && e.id == c.id && e.path == c.path && e.component == c.component
    && Increasing(e.checked) && forall x :: x in e.checked <==> x in c.checked
  }

  ghost predicate AllCarry<A(!new), B(!new)>(a: seq<A>, b: seq<B>, carries: (A, B) -> bool) {
    |a| == |b| && forall k :: 0 <= k < |a| ==> carries(a[k], b[k])
  }

  /** A slot's answers and checklists are those of the commands, in turn. */
  ghost predicate CarriedOver(events: seq<Event>, commands: seq<Command>, slot: string) {
    && AllCarry(Answers(events, slot), AttemptsAt(commands, slot), CarriesAttempt)
    && AllCarry(Checks(events, slot), TicksAt(commands, slot), CarriesTicks)
  }

  lemma {:induction false} EventsCarryCommands(commands: seq<Command>, slot: string)
    ensures CarriedOver(Log(commands), commands, slot)
  {
    if commands != [] {
      var n := |commands| - 1;
      EventsCarryCommands(commands[..n], slot);
      CarriesOne(commands[..n], commands[n], slot);
      assert commands == commands[..n] + [commands[n]];
    }
  }

  lemma AtStep(commands: seq<Command>, command: Command, slot: string)
    ensures AttemptsAt(commands + [command], slot) ==
              AttemptsAt(commands, slot) + if Attempts(command, slot) then [command] else []
    ensures TicksAt(commands + [command], slot) ==
              TicksAt(commands, slot) + if Ticks(command, slot) then [command] else []
  {
    assert (commands + [command])[..|commands|] == commands;
  }

  lemma CarryNext<A(!new), B(!new)>(a: seq<A>, x: A, b: seq<B>, y: B, carries: (A, B) -> bool)
    requires AllCarry(a, b, carries) && carries(x, y)
    ensures AllCarry(a + [x], b + [y], carries)
  {
  }

  /** What a command leaves: nothing if it is refused; else an event that carries it, and behind an
      attempt perhaps a completion. */
  lemma DecideCarries(command: Command, state: State)
    ensures var slot := Key(command.path, command.component); var decision := Decide(command, state);
      && (decision.Accepted? <==> Attempts(command, slot) || Ticks(command, slot))
      && (decision.Accepted? ==>
            && decision.events != []
            && (command.RecordAttempt? ==> CarriesAttempt(decision.events[0], command))
            && (command.RecordChecklist? ==> CarriesTicks(decision.events[0], command))
            && |decision.events| <= (if command.RecordAttempt? then 2 else 1)
            && (|decision.events| == 2 ==> decision.events[1].Completed?))
  {
  }

  lemma CarriesEvent(events: seq<Event>, commands: seq<Command>, e: Event, command: Command, slot: string)
    requires CarriedOver(events, commands, slot)
    requires CarriesAttempt(e, command) || CarriesTicks(e, command)
    requires var own := Key(command.path, command.component); Attempts(command, own) || Ticks(command, own)
    ensures CarriedOver(events + [e], commands + [command], slot)
  {
    AnswersStep(events, e, slot);
    AtStep(commands, command, slot);
    if Attempts(command, slot) {
      CarryNext(Answers(events, slot), e, AttemptsAt(commands, slot), command, CarriesAttempt);
    } else if Ticks(command, slot) {
      CarryNext(Checks(events, slot), e, TicksAt(commands, slot), command, CarriesTicks);
    }
  }

  lemma CompletionCarriesOn(events: seq<Event>, commands: seq<Command>, e: Event, slot: string)
    requires CarriedOver(events, commands, slot) && e.Completed?
    ensures CarriedOver(events + [e], commands, slot)
  {
    AnswersStep(events, e, slot);
  }

  lemma CarriesOne(commands: seq<Command>, command: Command, slot: string)
    requires CarriedOver(Log(commands), commands, slot)
    ensures CarriedOver(Log(commands + [command]), commands + [command], slot)
  {
    var log := Log(commands);
    LogStep(commands, command);
    DecideCarries(command, Fold(log));
    if Decide(command, Fold(log)).Accepted? {
      var decided := Decide(command, Fold(log)).events;
      CarriesEvent(log, commands, decided[0], command, slot);
      if |decided| == 2 {
        CompletionCarriesOn(log + [decided[0]], commands + [command], decided[1], slot);
        assert log + decided == log + [decided[0]] + [decided[1]];
      } else {
        assert decided == [decided[0]];
      }
    } else {
      AtStep(commands, command, slot);
    }
  }

  // ----- What the fold keeps -----

  /** The best of the scores, or zero if none is better. */
  ghost predicate BestOf(best: real, attempts: seq<Command>) {
    && best >= 0.0
    && (forall c :: c in attempts && c.RecordAttempt? ==> c.score <= best)
    && (best == 0.0 || exists c :: c in attempts && c.RecordAttempt? && c.score == best)
  }

  ghost predicate LastAttempt(item: Item, attempts: seq<Command>) {
    if attempts == [] then item.last == 0.0 && item.lastDigest == "" else
      var c := attempts[|attempts| - 1];
      c.RecordAttempt? && item.last == c.score && item.lastDigest == c.digest && (c.kind != "" ==> item.kind == c.kind)
  }

  ghost predicate LastTicked(item: Item, ticks: seq<Command>) {
    if ticks == [] then item.checked == [] else
      var c := ticks[|ticks| - 1];
      c.RecordChecklist? && Increasing(item.checked) && forall x :: x in item.checked <==> x in c.checked
  }

  /** Over every run of commands: an item is there once an attempt or a checklist was accepted at
      its slot; it has as many attempts, is correct if and only if one of them was, and has their
      best score, the last one's score and digest, and the boxes last ticked. */
  lemma ItemTellsCommands(commands: seq<Command>, slot: string)
    ensures var attempts, ticks := AttemptsAt(commands, slot), TicksAt(commands, slot);
      var items := Fold(Log(commands)).items;
      && (slot in items <==> attempts != [] || ticks != [])
      && (slot in items ==>
            var item := items[slot];
            && item.attempts == |attempts|
            && (item.correct <==> exists c :: c in attempts && c.RecordAttempt? && c.correct)
            && BestOf(item.best, attempts) && LastAttempt(item, attempts) && LastTicked(item, ticks))
  {
    var events := Log(commands);
    var answers, attempts := Answers(events, slot), AttemptsAt(commands, slot);
    FoldTellsHistory(events, slot);
    EventsCarryCommands(commands, slot);
    CarriedCorrect(answers, attempts);
    if slot in Fold(events).items {
      CarriedBest(Fold(events).items[slot].best, answers, attempts);
    }
  }

  lemma CarriedCorrect(answers: seq<Event>, attempts: seq<Command>)
    requires AllCarry(answers, attempts, CarriesAttempt)
    ensures AnyCorrect(answers) <==> exists c :: c in attempts && c.RecordAttempt? && c.correct
  {
    if AnyCorrect(answers) {
      var k :| 0 <= k < |answers| && answers[k].Answered? && answers[k].correct;
      assert CarriesAttempt(answers[k], attempts[k]);
    }
    if c :| c in attempts && c.RecordAttempt? && c.correct {
      var k :| 0 <= k < |attempts| && attempts[k] == c;
      assert CarriesAttempt(answers[k], attempts[k]);
    }
  }

  lemma CarriedBest(best: real, answers: seq<Event>, attempts: seq<Command>)
    requires AllCarry(answers, attempts, CarriesAttempt) && IsBest(best, answers)
    ensures BestOf(best, attempts)
  {
    forall c | c in attempts && c.RecordAttempt?
      ensures c.score <= best
    {
      var k :| 0 <= k < |attempts| && attempts[k] == c;
      assert CarriesAttempt(answers[k], attempts[k]);
    }
    if best != 0.0 {
      var k :| 0 <= k < |answers| && answers[k].Answered? && answers[k].score == best;
      assert CarriesAttempt(answers[k], attempts[k]);
    }
  }

  predicate Touches(e: Event, slot: string) {
    !e.Completed? && Slot(e) == slot
  }

  /** The first event that says anything of the slot. */
  ghost predicate FirstTouch(events: seq<Event>, slot: string, k: nat) {
    k < |events| && Touches(events[k], slot) && forall j :: 0 <= j < k ==> !Touches(events[j], slot)
  }

  /** The last kind an answer gave, or the one to start from. */
  function KindGiven(answers: seq<Event>, start: string): string {
    if answers == [] then start else
      var a := answers[|answers| - 1];
      if a.Answered? && a.kind != "" then a.kind else KindGiven(answers[..|answers| - 1], start)
  }

  lemma KindStep(answers: seq<Event>, a: Event, start: string)
    ensures KindGiven(answers + [a], start) ==
              if a.Answered? && a.kind != "" then a.kind else KindGiven(answers, start)
  {
    assert (answers + [a])[..|answers|] == answers;
  }

  lemma {:induction false} UntouchedAbsent(events: seq<Event>, slot: string)
    requires forall j :: 0 <= j < |events| ==> !Touches(events[j], slot)
    ensures slot !in Fold(events).items && Answers(events, slot) == []
  {
    if events != [] {
      UntouchedAbsent(events[..|events| - 1], slot);
    }
  }

  /** An event leaves an item its name, and its kind unless it gives one. */
  lemma ItemNext(state: State, e: Event, slot: string)
    requires slot in state.items
    ensures slot in Evolve(state, e).items
    ensures var item, next := state.items[slot], Evolve(state, e).items[slot];
      && next.path == item.path && next.component == item.component
      && next.kind == if e.Answered? && Slot(e) == slot && e.kind != "" then e.kind else item.kind
  {
  }

  lemma ItemFirst(state: State, e: Event, slot: string)
    requires slot !in state.items && Touches(e, slot)
    ensures slot in Evolve(state, e).items
    ensures var item := Evolve(state, e).items[slot];
      && item.path == e.path && item.component == e.component
      && item.kind == if e.Answered? then e.kind else "checklist"
  {
  }

  /** What the item starts out as. */
  function KindAtFirst(e: Event): string {
    if e.Checked? then "checklist" else ""
  }

  /** An item has the name its slot was first used under, and the kind its answers last gave; where
      none gave any, it is a checklist if it began as one, and has no kind otherwise. */
  lemma {:induction false} NameAndKind(events: seq<Event>, slot: string, k: nat)
    requires FirstTouch(events, slot, k)
    ensures slot in Fold(events).items
    ensures var item := Fold(events).items[slot];
      && item.path == events[k].path && item.component == events[k].component
      && item.kind == KindGiven(Answers(events, slot), KindAtFirst(events[k]))
    decreases |events|
  {
    var n := |events| - 1;
    var before, e := events[..n], events[n];
    assert events == before + [e];
    FoldStep(before, e);
    AnswersStep(before, e, slot);
    KindStep(Answers(before, slot), e, KindAtFirst(events[k]));
    if k == n {
      UntouchedAbsent(before, slot);
      ItemFirst(Fold(before), e, slot);
    } else {
      NameAndKind(before, slot, k);
      ItemNext(Fold(before), e, slot);
    }
  }

  lemma {:induction false} CreatedByAny(events: seq<Event>)
    ensures Fold(events).created <==> exists k :: 0 <= k < |events| && !events[k].Completed?
    ensures Fold(events).id.Some? <==> Fold(events).created
  {
    if events != [] {
      var n := |events| - 1;
      CreatedByAny(events[..n]);
      if k :| 0 <= k < n && !events[..n][k].Completed? {
        assert !events[k].Completed?;
      }
    }
  }

  /** The record is created by the first answer or checklist, and keeps its id. */
  lemma {:induction false} CreatedUnder(events: seq<Event>, k: nat)
    requires k < |events| && !events[k].Completed? && forall j :: 0 <= j < k ==> events[j].Completed?
    ensures Fold(events).created && Fold(events).id == Some(events[k].id)
    decreases |events|
  {
    var n := |events| - 1;
    CreatedByAny(events[..n]);
    if k < n {
      CreatedUnder(events[..n], k);
    }
  }

  // ----- What is completed -----

  /** The first of the attempts that is correct. */
  predicate FirstRight(attempts: seq<Command>, k: nat) {
    && k < |attempts| && attempts[k].RecordAttempt? && attempts[k].correct
    && forall j :: 0 <= j < k && attempts[j].RecordAttempt? ==> !attempts[j].correct
  }

  lemma FirstRightIff(answers: seq<Event>, attempts: seq<Command>, k: nat)
    requires AllCarry(answers, attempts, CarriesAttempt)
    ensures FirstRight(attempts, k) <==> FirstCorrect(answers) == Some(k)
  {
    FirstCorrectIsFirst(answers);
    forall j | 0 <= j < |answers|
      ensures CarriesAttempt(answers[j], attempts[j])
    {
    }
    if FirstRight(attempts, k) {
      assert answers[k].Answered? && answers[k].correct;
    }
  }

  ghost predicate CompletedBy(completions: seq<Event>, attempts: seq<Command>, k: nat) {
    && FirstRight(attempts, k) && |completions| == 1
    && completions[0].Completed? && completions[0].attempts == k + 1 && completions[0].id == attempts[k].id
    && completions[0].path == attempts[k].path && completions[0].component == attempts[k].component
  }

  /** Over every run of commands an item is completed once, by its first correct attempt and with
      that one's number, and not at all if there is none. */
  lemma CompletedByFirstRight(commands: seq<Command>, slot: string)
    ensures var completions, attempts := Completions(Log(commands), slot), AttemptsAt(commands, slot);
      if completions == [] then forall k: nat :: !FirstRight(attempts, k)
      else exists k: nat :: CompletedBy(completions, attempts, k)
  {
    var answers, attempts := Answers(Log(commands), slot), AttemptsAt(commands, slot);
    var completions, first := Completions(Log(commands), slot), FirstCorrect(answers);
    CompletedAtMostOnce(commands, slot);
    EventsCarryCommands(commands, slot);
    if first.Some? {
      FirstRightIff(answers, attempts, first.value);
      assert CarriesAttempt(answers[first.value], attempts[first.value]);
      assert CompletedBy(completions, attempts, first.value);
    } else {
      forall k: nat
        ensures !FirstRight(attempts, k)
      {
        FirstRightIff(answers, attempts, k);
      }
    }
  }

  /** A completion stands right behind the correct answer it is of. */
  lemma {:induction false} CompletedBehindAnswer(commands: seq<Command>, k: nat)
    requires k < |Log(commands)| && Log(commands)[k].Completed?
    ensures k > 0 && Log(commands)[k - 1].Answered? && Log(commands)[k - 1].correct
    ensures Slot(Log(commands)[k - 1]) == Slot(Log(commands)[k])
  {
    var n := |commands| - 1;
    var log := Log(commands[..n]);
    if k < |log| {
      CompletedBehindAnswer(commands[..n], k);
    }
  }
}
