/** research_team/curriculum/domain/learner.py: what one learner has done, item by item, as
    commands decided against a fold of the events before them. */
module Learner {
  import opened Wrappers
  import opened Orders

  type ProgressId = int

  datatype Command =
    | RecordAttempt(id: ProgressId, path: string, component: string, kind: string,
                    digest: string, correct: bool, score: real)
    | RecordChecklist(id: ProgressId, path: string, component: string, checked: seq<int>)

  datatype Event =
    | Answered(id: ProgressId, path: string, component: string, kind: string,
               digest: string, correct: bool, score: real)
    | Completed(id: ProgressId, path: string, component: string, attempts: nat)
    | Checked(id: ProgressId, path: string, component: string, checked: seq<int>)

  datatype Item = Item(
    path: string, component: string, kind: string, attempts: nat, correct: bool,
    best: real, last: real, lastDigest: string, checked: seq<int>)

  datatype State = State(id: Option<ProgressId>, created: bool, items: map<string, Item>)

  datatype Refusal = NameMissing | NegativeIndex

  datatype Decision = Accepted(events: seq<Event>) | Refused(reason: Refusal)

  const INITIAL := State(None, false, map[])

  function Key(path: string, component: string): string {
    path + "\n" + component
  }

  function Slot(e: Event): string {
    Key(e.path, e.component)
  }

  function Decide(command: Command, state: State): Decision {
    match command
    case RecordAttempt(id, path, component, kind, digest, correct, score) =>
      if path == "" || component == "" then Refused(NameMissing) else
        var answered := Answered(id, path, component, kind, digest, correct, score);
        var slot := Key(path, component);
        if !correct || (slot in state.items && state.items[slot].correct) then Accepted([answered])
        else
          var before := if slot in state.items then state.items[slot].attempts else 0;
          Accepted([answered, Completed(id, path, component, before + 1)])
    case RecordChecklist(id, path, component, checked) =>
      if path == "" || component == "" then Refused(NameMissing)
      else if exists i :: 0 <= i < |checked| && checked[i] < 0 then Refused(NegativeIndex)
      else Accepted([Checked(id, path, component, Sorted(set i | 0 <= i < |checked| :: checked[i]))])
  }

  function ItemFor(state: State, e: Event, kind: string): Item {
    if Slot(e) in state.items then state.items[Slot(e)]
    else Item(e.path, e.component, kind, 0, false, 0.0, 0.0, "", [])
  }

  function Stored(state: State, e: Event, item: Item): State {
    State(if state.id.Some? then state.id else Some(e.id), true, state.items[Slot(e) := item])
  }

  /** Having once been right is not undone; the best score only rises. */
  function Again(item: Item, e: Event): Item
    requires e.Answered?
  {
    item.(kind := if e.kind != "" then e.kind else item.kind, attempts := item.attempts + 1,
          correct := item.correct || e.correct, best := if e.score > item.best then e.score else item.best,
          last := e.score, lastDigest := e.digest)
  }

  function Evolve(state: State, e: Event): State {
    match e
    case Answered(_, _, _, kind, _, _, _) =>
      Stored(state, e, Again(ItemFor(state, e, kind), e))
    case Checked(_, _, _, checked) =>
      Stored(state, e, ItemFor(state, e, "checklist").(checked := checked))
    case Completed(_, _, _, _) => state
  }

  function Fold(events: seq<Event>): State {
    if events == [] then INITIAL else Evolve(Fold(events[..|events| - 1]), events[|events| - 1])
  }

  lemma FoldStep(events: seq<Event>, e: Event)
    ensures Fold(events + [e]) == Evolve(Fold(events), e)
  {
    assert (events + [e])[..|events|] == events;
  }

  /** The events a list of commands leaves behind, those refused leaving none. */
  function Log(commands: seq<Command>): seq<Event> {
    if commands == [] then [] else
      var n := |commands| - 1;
      var log := Log(commands[..n]);
      var decision := Decide(commands[n], Fold(log));
      if decision.Accepted? then log + decision.events else log
  }

  // ----- The same, read off the history -----

  function Answers(events: seq<Event>, slot: string): seq<Event> {
    if events == [] then [] else
      var n := |events| - 1;
      Answers(events[..n], slot) + if events[n].Answered? && Slot(events[n]) == slot then [events[n]] else []
  }

  function Checks(events: seq<Event>, slot: string): seq<Event> {
    if events == [] then [] else
      var n := |events| - 1;
      Checks(events[..n], slot) + if events[n].Checked? && Slot(events[n]) == slot then [events[n]] else []
  }

  function Completions(events: seq<Event>, slot: string): seq<Event> {
    if events == [] then [] else
      var n := |events| - 1;
      Completions(events[..n], slot) + if events[n].Completed? && Slot(events[n]) == slot then [events[n]] else []
  }

  lemma AnswersStep(events: seq<Event>, e: Event, slot: string)
    ensures Answers(events + [e], slot) ==
      if e.Answered? && Slot(e) == slot then Answers(events, slot) + [e] else Answers(events, slot)
    ensures Checks(events + [e], slot) ==
      if e.Checked? && Slot(e) == slot then Checks(events, slot) + [e] else Checks(events, slot)
    ensures Completions(events + [e], slot) ==
      if e.Completed? && Slot(e) == slot then Completions(events, slot) + [e] else Completions(events, slot)
  {
    assert (events + [e])[..|events|] == events;
  }

  ghost predicate AnyCorrect(answers: seq<Event>) {
    exists k :: 0 <= k < |answers| && answers[k].Answered? && answers[k].correct
  }

  /** The best of the scores, or zero if none is better. */
  ghost predicate IsBest(best: real, answers: seq<Event>) {
    && best >= 0.0
    && (forall k :: 0 <= k < |answers| && answers[k].Answered? ==> answers[k].score <= best)
    && (best == 0.0 || exists k :: 0 <= k < |answers| && answers[k].Answered? && answers[k].score == best)
  }

  ghost predicate LastIs(item: Item, answers: seq<Event>) {
    if answers == [] then item.last == 0.0 && item.lastDigest == ""
    else
      var a := answers[|answers| - 1];
      a.Answered? && item.last == a.score && item.lastDigest == a.digest && (a.kind != "" ==> item.kind == a.kind)
  }

  ghost predicate CheckedIs(item: Item, checks: seq<Event>) {
    if checks == [] then item.checked == []
    else checks[|checks| - 1].Checked? && item.checked == checks[|checks| - 1].checked
  }

  /** The item says of its slot what the history says. */
  ghost predicate Tells(item: Item, events: seq<Event>, slot: string) {
    && Key(item.path, item.component) == slot
    && item.attempts == |Answers(events, slot)|
    && (item.correct <==> AnyCorrect(Answers(events, slot)))
    && IsBest(item.best, Answers(events, slot))
    && LastIs(item, Answers(events, slot))
    && CheckedIs(item, Checks(events, slot))
  }

  ghost predicate Agrees(state: State, events: seq<Event>, slot: string) {
    && (slot in state.items <==> Answers(events, slot) != [] || Checks(events, slot) != [])
    && (slot in state.items ==> Tells(state.items[slot], events, slot))
  }

  lemma AnyCorrectStep(answers: seq<Event>, a: Event)
    requires a.Answered?
    ensures AnyCorrect(answers + [a]) <==> AnyCorrect(answers) || a.correct
  {
    var longer := answers + [a];
    if AnyCorrect(answers) {
      var k :| 0 <= k < |answers| && answers[k].Answered? && answers[k].correct;
      assert longer[k] == answers[k];
    }
    assert longer[|answers|] == a;
  }

  lemma IsBestStep(best: real, answers: seq<Event>, a: Event)
    requires IsBest(best, answers) && a.Answered?
    ensures IsBest(if a.score > best then a.score else best, answers + [a])
  {
    var longer := answers + [a];
    assert longer[|answers|] == a;
    if best != 0.0 {
      var k :| 0 <= k < |answers| && answers[k].Answered? && answers[k].score == best;
      assert longer[k] == answers[k];
    }
  }

  lemma AnsweredAgain(item: Item, events: seq<Event>, e: Event)
    requires e.Answered? && Tells(item, events, Slot(e))
    ensures Tells(Again(item, e), events + [e], Slot(e))
  {
    AnswersStep(events, e, Slot(e));
    AnyCorrectStep(Answers(events, Slot(e)), e);
    IsBestStep(item.best, Answers(events, Slot(e)), e);
  }

  /** An item not seen before tells of nothing. */
  lemma NewItemTells(state: State, events: seq<Event>, e: Event, kind: string)
    requires Agrees(state, events, Slot(e))
    ensures Tells(ItemFor(state, e, kind), events, Slot(e))
  {
  }

  lemma CheckedAgain(item: Item, events: seq<Event>, e: Event)
    requires e.Checked? && Tells(item, events, Slot(e))
    ensures Tells(item.(checked := e.checked), events + [e], Slot(e))
  {
    var slot := Slot(e);
    AnswersStep(events, e, slot);
    assert Answers(events + [e], slot) == Answers(events, slot);
    var checks := Checks(events + [e], slot);
    assert checks[|checks| - 1] == e;
  }

  lemma NotTouched(state: State, events: seq<Event>, e: Event, slot: string)
    requires Agrees(state, events, slot) && (Slot(e) != slot || e.Completed?)
    ensures Agrees(Evolve(state, e), events + [e], slot)
  {
    AnswersStep(events, e, slot);
  }

  lemma TouchedAgrees(state: State, events: seq<Event>, e: Event, item: Item)
    requires Agrees(state, events, Slot(e)) && !e.Completed?
    requires Evolve(state, e).items == state.items[Slot(e) := item] && Tells(item, events + [e], Slot(e))
    ensures Agrees(Evolve(state, e), events + [e], Slot(e))
  {
    AnswersStep(events, e, Slot(e));
  }

  lemma AnsweredAgrees(state: State, events: seq<Event>, e: Event)
    requires Agrees(state, events, Slot(e)) && e.Answered?
    ensures Agrees(Evolve(state, e), events + [e], Slot(e))
  {
    var item := ItemFor(state, e, e.kind);
    NewItemTells(state, events, e, e.kind);
    AnsweredAgain(item, events, e);
    TouchedAgrees(state, events, e, Again(item, e));
  }

  lemma CheckedAgrees(state: State, events: seq<Event>, e: Event)
    requires Agrees(state, events, Slot(e)) && e.Checked?
    ensures Agrees(Evolve(state, e), events + [e], Slot(e))
  {
    var item := ItemFor(state, e, "checklist");
    NewItemTells(state, events, e, "checklist");
    CheckedAgain(item, events, e);
    TouchedAgrees(state, events, e, item.(checked := e.checked));
  }

  lemma EvolveAgrees(state: State, events: seq<Event>, e: Event, slot: string)
    requires Agrees(state, events, slot)
    ensures Agrees(Evolve(state, e), events + [e], slot)
  {
    if Slot(e) != slot || e.Completed? {
      NotTouched(state, events, e, slot);
    } else if e.Answered? {
      AnsweredAgrees(state, events, e);
    } else {
      CheckedAgrees(state, events, e);
    }
  }

  /** The fold keeps, slot by slot, what the history says: of any events, in any order. */
  lemma {:induction false} FoldTellsHistory(events: seq<Event>, slot: string)
    ensures Agrees(Fold(events), events, slot)
  {
    if events != [] {
      var n := |events| - 1;
      FoldTellsHistory(events[..n], slot);
      EvolveAgrees(Fold(events[..n]), events[..n], events[n], slot);
      assert events == events[..n] + [events[n]];
    }
  }

  // ----- Completion -----

  function FirstCorrect(answers: seq<Event>): Option<nat> {
    if answers == [] then None else
      var n := |answers| - 1;
      var first := FirstCorrect(answers[..n]);
      if first.Some? then first
      else if answers[n].Answered? && answers[n].correct then Some(n) else None
  }

  lemma {:induction false} FirstCorrectIsFirst(answers: seq<Event>)
    ensures FirstCorrect(answers).Some? <==> AnyCorrect(answers)
    ensures FirstCorrect(answers).Some? ==>
      var k := FirstCorrect(answers).value;
      && k < |answers| && answers[k].Answered? && answers[k].correct
      && forall j :: 0 <= j < k && answers[j].Answered? ==> !answers[j].correct
  {
    if answers != [] {
      var n := |answers| - 1;
      FirstCorrectIsFirst(answers[..n]);
      if AnyCorrect(answers) && !(answers[n].Answered? && answers[n].correct) {
        var k :| 0 <= k < |answers| && answers[k].Answered? && answers[k].correct;
        assert answers[..n][k] == answers[k];
      }
    }
  }

  lemma FirstCorrectStep(answers: seq<Event>, a: Event)
    requires a.Answered?
    ensures FirstCorrect(answers + [a]) ==
      if FirstCorrect(answers).Some? then FirstCorrect(answers) else if a.correct then Some(|answers|) else None
  {
    assert (answers + [a])[..|answers|] == answers;
  }

  /** The completion is of this answer, and numbered by it. */
  predicate Completes(done: Event, answers: seq<Event>, k: nat) {
    && k < |answers| && answers[k].Answered? && done.Completed? && done.attempts == k + 1
    && done.id == answers[k].id && done.path == answers[k].path && done.component == answers[k].component
  }

  /** One completion, of the first correct answer, if there is one; else none. */
  ghost predicate CompletedOnce(events: seq<Event>, slot: string) {
    var first := FirstCorrect(Answers(events, slot));
    if first.None? then Completions(events, slot) == []
    else
      |Completions(events, slot)| == 1 && Completes(Completions(events, slot)[0], Answers(events, slot), first.value)
  }

  lemma NothingCompleted(events: seq<Event>, e: Event, slot: string)
    requires CompletedOnce(events, slot)
    requires Slot(e) == slot ==> !e.Completed?
    requires Slot(e) == slot && e.Answered? && e.correct ==> FirstCorrect(Answers(events, slot)).Some?
    ensures CompletedOnce(events + [e], slot)
  {
    AnswersStep(events, e, slot);
    if e.Answered? {
      FirstCorrectStep(Answers(events, slot), e);
    }
  }

  lemma FirstCompleted(events: seq<Event>, e: Event, done: Event, slot: string)
    requires CompletedOnce(events, slot) && FirstCorrect(Answers(events, slot)).None?
    requires Slot(e) == slot && e.Answered? && e.correct
    requires done.id == e.id && done.path == e.path && done.component == e.component
    requires done.Completed? && done.attempts == |Answers(events, slot)| + 1
    ensures CompletedOnce(events + [e] + [done], slot)
  {
    AnswersStep(events, e, slot);
    AnswersStep(events + [e], done, slot);
    FirstCorrectStep(Answers(events, slot), e);
  }

  lemma DecideCompletes(command: Command, events: seq<Event>, slot: string)
    requires CompletedOnce(events, slot)
    requires Decide(command, Fold(events)).Accepted?
    ensures CompletedOnce(events + Decide(command, Fold(events)).events, slot)
  {
    var decided := Decide(command, Fold(events)).events;
    var e := decided[0];
    FoldTellsHistory(events, slot);
    FirstCorrectIsFirst(Answers(events, slot));
    if |decided| == 1 {
      assert decided == [e];
      NothingCompleted(events, e, slot);
    } else {
      assert events + decided == events + [e] + [decided[1]];
      if Slot(e) == slot {
        FirstCompleted(events, e, decided[1], slot);
      } else {
        NothingCompleted(events, e, slot);
        NothingCompleted(events + [e], decided[1], slot);
      }
    }
  }

  /** Over every run of commands, an item is completed once, when first answered correctly,
      with the number of answers that took; and never otherwise. */
  lemma {:induction false} CompletedAtMostOnce(commands: seq<Command>, slot: string)
    ensures CompletedOnce(Log(commands), slot)
  {
    if commands != [] {
      var n := |commands| - 1;
      CompletedAtMostOnce(commands[..n], slot);
      var log := Log(commands[..n]);
      if Decide(commands[n], Fold(log)).Accepted? {
        DecideCompletes(commands[n], log, slot);
      }
    }
  }

  /** What each decision is refused for, and for nothing else. */
  lemma RefusedIff(command: Command, state: State)
    ensures Decide(command, state).Refused? <==>
      || command.path == "" || command.component == ""
      || (command.RecordChecklist? && exists i :: 0 <= i < |command.checked| && command.checked[i] < 0)
  {
  }

  // ----- Items by name -----

  predicate Clean(s: string) {
    '\n' !in s
  }

  lemma LongerPathBreaks(path: string, component: string, path': string, component': string)
    requires Key(path, component) == Key(path', component') && |path| < |path'|
    ensures '\n' in path'
  {
    assert Key(path, component)[|path|] == '\n';
    assert Key(path', component')[|path|] == path'[|path|];
  }

  lemma SameLengthSame(path: string, component: string, path': string, component': string)
    requires Key(path, component) == Key(path', component') && |path| == |path'|
    ensures path == path' && component == component'
  {
    var k := Key(path, component);
    assert k[..|path|] == path && k[..|path|] == path';
    assert k[|path| + 1..] == component && k[|path| + 1..] == component';
  }

  /** Without line breaks in the paths, a slot stands for one path and one component. */
  lemma KeyInjective(path: string, component: string, path': string, component': string)
    requires Clean(path) && Clean(path')
    requires Key(path, component) == Key(path', component')
    ensures path == path' && component == component'
  {
    if |path| < |path'| {
      LongerPathBreaks(path, component, path', component');
    } else if |path'| < |path| {
      LongerPathBreaks(path', component', path, component);
    }
    SameLengthSame(path, component, path', component');
  }

  /** A name an attempt may be made under: neither half is empty, and nothing more is asked. */
  predicate Named(path: string, component: string) {
    path != "" && component != ""
  }

  lemma NamedIffAccepted(command: Command, state: State)
    requires command.RecordAttempt?
    ensures Decide(command, state).Accepted? <==> Named(command.path, command.component)
  {
  }

  /** Another name under the same key. */
  ghost predicate Shares(path: string, component: string, path': string, component': string) {
    && Named(path', component') && (path', component') != (path, component)
    && Key(path', component') == Key(path, component)
  }

  /** A line break with something on either side of it, in the path or in the component. */
  predicate Breaks(path: string, component: string) {
    || (exists i :: 1 <= i < |path| && path[i] == '\n')
    || (exists i :: 0 <= i < |component| - 1 && component[i] == '\n')
  }

  /** A key cut at a line break inside a name is the key of the two halves. */
  lemma CutInPath(path: string, component: string, i: nat)
    requires Named(path, component) && 1 <= i < |path| && path[i] == '\n'
    ensures Shares(path, component, path[..i], path[i + 1..] + "\n" + component)
  {
    assert path == path[..i] + "\n" + path[i + 1..];
    assert |path[..i]| < |path|;
  }

  lemma CutInComponent(path: string, component: string, i: nat)
    requires Named(path, component) && i < |component| - 1 && component[i] == '\n'
    ensures Shares(path, component, path + "\n" + component[..i], component[i + 1..])
  {
    assert component == component[..i] + "\n" + component[i + 1..];
    assert |path + "\n" + component[..i]| > |path|;
  }

  lemma SharedBreaks(path: string, component: string, path': string, component': string)
    requires Named(path, component) && Shares(path, component, path', component')
    ensures Breaks(path, component)
  {
    var k := Key(path, component);
    assert |path| + |component| == |path'| + |component'|;
    if |path'| < |path| {
      assert Key(path', component')[|path'|] == '\n' && k[|path'|] == path[|path'|];
    } else if |path'| > |path| {
      var i := |path'| - |path| - 1;
      assert Key(path', component')[|path'|] == '\n' && k[|path'|] == component[i];
    } else {
      SameLengthSame(path, component, path', component');
      assert false;
    }
  }

  /** An item shares its slot with another exactly if its path has a line break after its
      first character, or its component one before its last. */
  lemma SlotSharedIff(path: string, component: string)
    requires Named(path, component)
    ensures (exists p, c :: Shares(path, component, p, c)) <==> Breaks(path, component)
  {
    if p, c :| Shares(path, component, p, c) {
      SharedBreaks(path, component, p, c);
    }
    if i :| 1 <= i < |path| && path[i] == '\n' {
      CutInPath(path, component, i);
    }
    if i :| 0 <= i < |component| - 1 && component[i] == '\n' {
      CutInComponent(path, component, i);
    }
  }

  function AnswersTo(events: seq<Event>, path: string, component: string): seq<Event> {
    if events == [] then [] else
      var n := |events| - 1;
      AnswersTo(events[..n], path, component) +
        if events[n].Answered? && events[n].path == path && events[n].component == component then [events[n]] else []
  }

  lemma AnswersToStep(events: seq<Event>, e: Event, path: string, component: string)
    ensures AnswersTo(events + [e], path, component) ==
      if e.Answered? && e.path == path && e.component == component then AnswersTo(events, path, component) + [e]
      else AnswersTo(events, path, component)
  {
    assert (events + [e])[..|events|] == events;
  }

  lemma LogStep(commands: seq<Command>, command: Command)
    ensures Log(commands + [command]) ==
      var decision := Decide(command, Fold(Log(commands)));
      if decision.Accepted? then Log(commands) + decision.events else Log(commands)
  {
    assert (commands + [command])[..|commands|] == commands;
  }

  /** The history after one more answer, or one more event of another kind. */
  ghost predicate OneMore(events: seq<Event>, more: seq<Event>, named: bool, slotted: bool,
                          slot: string, path: string, component: string) {
    && |Answers(more, slot)| == |Answers(events, slot)| + (if slotted then 1 else 0)
    && |AnswersTo(more, path, component)| == |AnswersTo(events, path, component)| + (if named then 1 else 0)
  }

  lemma OneMoreEvent(events: seq<Event>, e: Event, slot: string, path: string, component: string)
    ensures OneMore(events, events + [e], e.Answered? && (e.path, e.component) == (path, component),
                    e.Answered? && Slot(e) == slot, slot, path, component)
  {
    AnswersStep(events, e, slot);
    AnswersToStep(events, e, path, component);
  }

  lemma AttemptEvents(events: seq<Event>, command: Command) returns (e: Event, last: Event)
    requires command.RecordAttempt? && Decide(command, Fold(events)).Accepted?
    ensures e.Answered? && e.path == command.path && e.component == command.component && last.Completed?
    ensures var decided := Decide(command, Fold(events)).events; decided == [e] || decided == [e] + [last]
  {
    var decided := Decide(command, Fold(events)).events;
    e := decided[0];
    last := if |decided| == 2 then decided[1] else Completed(0, "", "", 0);
  }

  /** What an accepted attempt adds: the answer, and perhaps a completion after it. */
  lemma AttemptAdds(events: seq<Event>, command: Command, slot: string, path: string, component: string)
    requires command.RecordAttempt? && Decide(command, Fold(events)).Accepted?
    ensures OneMore(events, events + Decide(command, Fold(events)).events,
                    (command.path, command.component) == (path, component),
                    Key(command.path, command.component) == slot, slot, path, component)
  {
    var e, last := AttemptEvents(events, command);
    OneMoreEvent(events, e, slot, path, component);
    OneMoreEvent(events + [e], last, slot, path, component);
    assert events + ([e] + [last]) == events + [e] + [last];
  }

  /** Any attempt under this name is accepted. */
  ghost predicate Accepts(state: State, path: string, component: string) {
    forall again: Command {:trigger Decide(again, state)} ::
      again.RecordAttempt? && again.path == path && again.component == component ==> Decide(again, state).Accepted?
  }

  /** Whatever the history, an answer to an item is one more attempt at every item it shares its
      slot with, though it is no answer to any of those; and those can be answered too. */
  lemma SharedSlotMerges(commands: seq<Command>, command: Command, path: string, component: string)
    requires command.RecordAttempt? && Named(command.path, command.component)
    requires Shares(command.path, command.component, path, component)
    ensures var before, after := Log(commands), Log(commands + [command]);
      && Accepts(Fold(after), path, component)
      && |AnswersTo(after, path, component)| == |AnswersTo(before, path, component)|
      && Key(path, component) in Fold(after).items
      && Fold(after).items[Key(path, component)].attempts == 1 +
           if Key(path, component) in Fold(before).items then Fold(before).items[Key(path, component)].attempts else 0
  {
    var before, after, slot := Log(commands), Log(commands + [command]), Key(path, component);
    NamedIffAccepted(command, Fold(before));
    forall again: Command | again.RecordAttempt? && again.path == path && again.component == component
      ensures Decide(again, Fold(after)).Accepted?
    {
      NamedIffAccepted(again, Fold(after));
    }
    LogStep(commands, command);
    AttemptAdds(before, command, slot, path, component);
    FoldTellsHistory(before, slot);
    FoldTellsHistory(after, slot);
  }

  /** So one answer to the item "c" of the path "a\nb" is one to the item "b\nc" of "a". */
  lemma KeyCollides()
    ensures Key("a\nb", "c") == Key("a", "b\nc")
    ensures var events := Log([RecordAttempt(0, "a\nb", "c", "", "", false, 0.0)]);
      && AnswersTo(events, "a", "b\nc") == []
      && Key("a", "b\nc") in Fold(events).items && Fold(events).items[Key("a", "b\nc")].attempts == 1
  {
    var command := RecordAttempt(0, "a\nb", "c", "", "", false, 0.0);
    assert Key("a\nb", "c") == "a\nb\nc" == Key("a", "b\nc");
    assert "a\nb" != "a" by {
      assert |"a\nb"| == 3;
    }
    SharedSlotMerges([], command, "a", "b\nc");
    assert [] + [command] == [command];
  }

  ghost predicate AllNamed(events: seq<Event>) {
    forall k :: 0 <= k < |events| ==> Named(events[k].path, events[k].component)
  }

  lemma {:induction false} LogNamed(commands: seq<Command>)
    ensures AllNamed(Log(commands))
  {
    if commands != [] {
      LogNamed(commands[..|commands| - 1]);
    }
  }

  /** Under a name that no other shares its slot with, the slot's answers are the name's. */
  lemma {:induction false} AnswersByName(events: seq<Event>, path: string, component: string)
    requires AllNamed(events) && Named(path, component) && !Breaks(path, component)
    ensures Answers(events, Key(path, component)) == AnswersTo(events, path, component)
  {
    if events != [] {
      var n := |events| - 1;
      var e := events[n];
      AnswersByName(events[..n], path, component);
      if Slot(e) == Key(path, component) && (e.path, e.component) != (path, component) {
        SharedBreaks(path, component, e.path, e.component);
      }
    }
  }

  lemma SharedSlotTells(path: string, component: string) returns (commands: seq<Command>)
    requires Named(path, component) && Breaks(path, component)
    ensures Answers(Log(commands), Key(path, component)) != AnswersTo(Log(commands), path, component)
  {
    SlotSharedIff(path, component);
    var p, c :| Shares(path, component, p, c);
    var command := RecordAttempt(0, p, c, "", "", false, 0.0);
    commands := [] + [command];
    NamedIffAccepted(command, Fold([]));
    LogStep([], command);
    AttemptAdds([], command, Key(path, component), path, component);
  }

  /** Over every run of commands an item's slot holds its own answers and no others, if and only
      if its name has no line break with something on either side of it. */
  lemma SlotIsOwnIff(path: string, component: string)
    requires Named(path, component)
    ensures (forall commands ::
               Answers(Log(commands), Key(path, component)) == AnswersTo(Log(commands), path, component))
        <==> !Breaks(path, component)
  {
    if Breaks(path, component) {
      var commands := SharedSlotTells(path, component);
    } else {
      forall commands
        ensures Answers(Log(commands), Key(path, component)) == AnswersTo(Log(commands), path, component)
      {
        LogNamed(commands);
        AnswersByName(Log(commands), path, component);
      }
    }
  }

  /** The record kept of an item, against the answers given to that item, whatever else was
      answered. */
  lemma ItemTellsAnswers(commands: seq<Command>, path: string, component: string)
    requires Named(path, component) && !Breaks(path, component)
    ensures var events := Log(commands);
      && (AnswersTo(events, path, component) != [] ==> Key(path, component) in Fold(events).items)
      && (Key(path, component) in Fold(events).items ==>
            var item := Fold(events).items[Key(path, component)];
            && item.attempts == |AnswersTo(events, path, component)|
            && (item.correct <==> AnyCorrect(AnswersTo(events, path, component)))
            && IsBest(item.best, AnswersTo(events, path, component)))
  {
    SlotIsOwnIff(path, component);
    FoldTellsHistory(Log(commands), Key(path, component));
  }

  /** An event touches its own item and no other. */
  lemma OthersUntouched(state: State, e: Event, slot: string)
    requires slot != Slot(e)
    ensures slot in Evolve(state, e).items <==> slot in state.items
    ensures slot in state.items ==> Evolve(state, e).items[slot] == state.items[slot]
  {
  }
}
