/** research_team/dialogue/domain/socratic.py: a guided dialogue as commands decided against
    a fold of its stream. The stream's own id is on its first event only. */
module Dialogue {
  import opened Wrappers

  type DialogueId = int
  type ProjectId = int

  datatype Evidence = Attempt | Assessment
  datatype Reason = Met | Abandoned

  datatype Event =
    | Started(id: DialogueId, project: ProjectId, topic: string, goal: string, condition: string, opening: string)
    | TurnRecorded(reply: string, prompt: string, citations: seq<string>)
    | Observed(observation: string, evidence: Evidence, detail: string)
    | Concluded(reason: Reason)

  datatype Command =
    | Start(id: DialogueId, project: ProjectId, topic: string, goal: string, condition: string, opening: string)
    | RecordTurn(reply: string, prompt: string, citations: seq<string>)
    | Observe(observation: string, evidence: Evidence, detail: string)
    | Conclude(reason: Reason)

  datatype Status = New | Ongoing | Ended

  type Turn = (string, string)

  datatype State = State(
    id: Option<DialogueId>, project: Option<ProjectId>, topic: string, goal: string, condition: string,
    status: Status, turns: nat, observations: seq<string>, opening: string, pending: string,
    reason: Option<Reason>, history: seq<Turn>)

  datatype Refusal = AlreadyConcluded | AlreadyStarted | NotStarted

  datatype Decision = Accepted(event: Event) | Refused(refusal: Refusal)

  const INITIAL := State(None, None, "", "", "", New, 0, [], "", "", None, [])

  /** A conclusion outranks every other ground for refusal. */
  function Decide(command: Command, state: State): Decision {
    if command.Start? && state.status.New? then
      Accepted(Started(command.id, command.project, command.topic, command.goal, command.condition, command.opening))
    else if state.status.Ended? then Refused(AlreadyConcluded)
    else if command.Start? then Refused(AlreadyStarted)
    else if state.status.New? then Refused(NotStarted)
    else match command
      case RecordTurn(reply, prompt, citations) => Accepted(TurnRecorded(reply, prompt, citations))
      case Observe(observation, evidence, detail) => Accepted(Observed(observation, evidence, detail))
      case Conclude(reason) => Accepted(Concluded(reason))
  }

  function Evolve(state: State, e: Event): State {
    match e
    case Started(id, project, topic, goal, condition, opening) =>
      State(Some(id), Some(project), topic, goal, condition, Ongoing, 0, [], opening, opening, None, [])
    case TurnRecorded(reply, prompt, _) =>
      state.(turns := state.turns + 1, pending := prompt, history := state.history + [(reply, prompt)])
    case Observed(observation, _, _) =>
      state.(observations := state.observations + [observation])
    case Concluded(reason) =>
      state.(status := Ended, reason := Some(reason), pending := "")
  }

  function Fold(events: seq<Event>): State {
    if events == [] then INITIAL else Evolve(Fold(events[..|events| - 1]), events[|events| - 1])
  }

  lemma FoldStep(events: seq<Event>, e: Event)
    ensures Fold(events + [e]) == Evolve(Fold(events), e)
  {
    assert (events + [e])[..|events|] == events;
  }

  // ----- What a stream can look like -----

  /** Every event was decided, one command at a time, from nothing. */
  ghost predicate Lawful(events: seq<Event>) {
    forall k :: 0 <= k < |events| ==> Decided(events, k)
  }

  ghost predicate Decided(events: seq<Event>, k: nat)
    requires k < |events|
  {
    exists command :: Decide(command, Fold(events[..k])) == Accepted(events[k])
  }

  /** A start, then turns and observations, then at most one conclusion, last of all. */
  predicate Shape(events: seq<Event>) {
    && (events != [] ==> events[0].Started?)
    && (forall k :: 1 <= k < |events| ==> !events[k].Started?)
    && (forall k :: 0 <= k < |events| - 1 ==> !events[k].Concluded?)
  }

  predicate IsConcluded(events: seq<Event>) {
    events != [] && events[|events| - 1].Concluded?
  }

  lemma ShapePrefix(events: seq<Event>, k: nat)
    requires Shape(events) && k <= |events|
    ensures Shape(events[..k]) && (k < |events| ==> !IsConcluded(events[..k]))
  {
  }

  function TurnsOf(events: seq<Event>): seq<Turn> {
    if events == [] then [] else
      var n := |events| - 1;
      TurnsOf(events[..n]) + if events[n].TurnRecorded? then [(events[n].reply, events[n].prompt)] else []
  }

  function ObservationsOf(events: seq<Event>): seq<string> {
    if events == [] then [] else
      var n := |events| - 1;
      ObservationsOf(events[..n]) + if events[n].Observed? then [events[n].observation] else []
  }

  lemma TurnsStep(events: seq<Event>, e: Event)
    ensures TurnsOf(events + [e]) ==
            if e.TurnRecorded? then TurnsOf(events) + [(e.reply, e.prompt)] else TurnsOf(events)
    ensures ObservationsOf(events + [e]) ==
            if e.Observed? then ObservationsOf(events) + [e.observation] else ObservationsOf(events)
  {
    assert (events + [e])[..|events|] == events;
  }

  /** Which question the reader is looking at. */
  function PendingOf(events: seq<Event>): string
    requires Shape(events) && events != []
  {
    if IsConcluded(events) then ""
    else if TurnsOf(events) == [] then events[0].opening
    else TurnsOf(events)[|TurnsOf(events)| - 1].1
  }

  ghost predicate Tells(state: State, events: seq<Event>)
    requires Shape(events) && events != []
  {
    && state.id == Some(events[0].id) && state.project == Some(events[0].project)
    && state.topic == events[0].topic && state.goal == events[0].goal && state.condition == events[0].condition
    && state.opening == events[0].opening
    && state.status == (if IsConcluded(events) then Ended else Ongoing)
    && state.history == TurnsOf(events) && state.turns == |state.history|
    && state.observations == ObservationsOf(events)
    && state.pending == PendingOf(events)
    && state.reason == (if IsConcluded(events) then Some(events[|events| - 1].reason) else None)
  }

  /** The state a stream folds to is what can be read off the stream. */
  lemma {:induction false} FoldTellsStream(events: seq<Event>)
    requires Shape(events) && events != []
    ensures Tells(Fold(events), events)
    decreases |events|
  {
    var n := |events| - 1;
    assert events == events[..n] + [events[n]];
    TurnsStep(events[..n], events[n]);
    if n > 0 {
      ShapePrefix(events, n);
      FoldTellsStream(events[..n]);
    } else {
      assert TurnsOf(events[..0]) == [] && ObservationsOf(events[..0]) == [];
    }
  }

  /** Which commands a dialogue accepts, and why it refuses the others. */
  lemma DecidedByStream(command: Command, events: seq<Event>)
    requires Shape(events)
    ensures Decide(command, Fold(events)).Accepted? <==> (command.Start? <==> events == []) && !IsConcluded(events)
    ensures Decide(command, Fold(events)) == Refused(AlreadyConcluded) <==> IsConcluded(events)
    ensures Decide(command, Fold(events)) == Refused(NotStarted) <==> !command.Start? && events == []
  {
    if events != [] {
      FoldTellsStream(events);
    }
  }

  function Asking(e: Event): Command {
    match e
    case Started(id, project, topic, goal, condition, opening) => Start(id, project, topic, goal, condition, opening)
    case TurnRecorded(reply, prompt, citations) => RecordTurn(reply, prompt, citations)
    case Observed(observation, evidence, detail) => Observe(observation, evidence, detail)
    case Concluded(reason) => Conclude(reason)
  }

  lemma AcceptedShape(command: Command, events: seq<Event>)
    requires Shape(events) && Decide(command, Fold(events)).Accepted?
    ensures Shape(events + [Decide(command, Fold(events)).event])
  {
    DecidedByStream(command, events);
  }

  lemma {:induction false} LawfulShape(events: seq<Event>, k: nat)
    requires Lawful(events) && k <= |events|
    ensures Shape(events[..k])
  {
    if k > 0 {
      LawfulShape(events, k - 1);
      assert Decided(events, k - 1);
      var command :| Decide(command, Fold(events[..k - 1])) == Accepted(events[k - 1]);
      AcceptedShape(command, events[..k - 1]);
      assert events[..k] == events[..k - 1] + [events[k - 1]];
    }
  }

  /** The streams that commands can write are those of this shape, all of them. */
  lemma LawfulIffShape(events: seq<Event>)
    ensures Lawful(events) <==> Shape(events)
  {
    if Lawful(events) {
      LawfulShape(events, |events|);
      assert events[..|events|] == events;
    }
    if Shape(events) {
      forall k | 0 <= k < |events|
        ensures Decided(events, k)
      {
        ShapePrefix(events, k);
        DecidedByStream(Asking(events[k]), events[..k]);
        assert Decide(Asking(events[k]), Fold(events[..k])) == Accepted(events[k]);
      }
    }
  }

  // ----- Several commands, one save -----

  /** `execute`, one command after another; nothing at all when one is refused. */
  function Execute(events: seq<Event>, commands: seq<Command>): Option<seq<Event>>
    decreases |commands|
  {
    if commands == [] then Some(events) else
      match Decide(commands[0], Fold(events))
      case Accepted(e) => Execute(events + [e], commands[1..])
      case Refused(_) => None
  }

  /** Between start and conclusion each command leaves its event, the one that asks for the same. */
  lemma ExecuteOngoing(events: seq<Event>, command: Command, rest: seq<Command>)
    requires Shape(events) && events != [] && !IsConcluded(events) && !command.Start?
    ensures Decide(command, Fold(events)).Accepted? && Asking(Decide(command, Fold(events)).event) == command
    ensures var next := events + [Decide(command, Fold(events)).event];
      Shape(next) && Execute(events, [command] + rest) == Execute(next, rest)
  {
    DecidedByStream(command, events);
    AcceptedShape(command, events);
    assert ([command] + rest)[1..] == rest;
  }

  lemma ExecuteConcluded(events: seq<Event>, commands: seq<Command>)
    requires Shape(events) && IsConcluded(events) && commands != []
    ensures Execute(events, commands) == None
  {
    DecidedByStream(commands[0], events);
  }
}
