/** research_team/dialogue/application/socratic.py, `record_attempt`: one answer, two writes,
    the dialogue's own stream first. */
module SocraticGrading {
  import opened Sums
  import opened Dialogue
  import opened SocraticSteps
  import opened SocraticViews
  import opened SocraticRuns
  import opened Slugs
  import Learner
  import LearnerRuns

  /** The answers a progress record has. */
  function Attempts(events: seq<Learner.Event>): nat {
    if events == [] then 0 else
      var n := |events| - 1;
      Attempts(events[..n]) + if events[n].Answered? then 1 else 0
  }

  /** The observations of a stream that rest on an answer marked. */
  function Marked(stream: seq<Event>): nat {
    if stream == [] then 0 else
      var n := |stream| - 1;
      Marked(stream[..n]) + if stream[n].Observed? && stream[n].evidence.Attempt? then 1 else 0
  }

  /** Gradings between their two writes. */
  function Between(w: World, id: DialogueId): set<Task> {
    set task | task in w.writers && w.writers[task].GradeSaved? && w.writers[task].id == id
  }

  lemma {:induction false} MarkedGrows(a: seq<Event>, b: seq<Event>)
    requires a <= b
    ensures Marked(a) <= Marked(b)
    decreases |b|
  {
    if a != b {
      var n := |b| - 1;
      assert a == b[..|a|] == b[..n][..|a|];
      MarkedGrows(a, b[..n]);
    }
  }

  lemma OneMoreAttempt(id: DialogueId, mark: Mark, events: seq<Learner.Event>)
    requires Learner.Decide(Attempting(id, mark), Learner.Fold(events)).Accepted?
    ensures Attempts(events + Learner.Decide(Attempting(id, mark), Learner.Fold(events)).events) == Attempts(events) + 1
  {
    var decided := Learner.Decide(Attempting(id, mark), Learner.Fold(events)).events;
    var once := events + [decided[0]];
    assert once[..|events|] == events;
    if |decided| == 2 {
      var twice := events + decided;
      assert twice[..|events| + 1] == once;
    } else {
      assert events + decided == once;
    }
  }

  lemma OneMoreMarked(loaded: seq<Event>, e: Event)
    requires e.Observed? && e.evidence.Attempt?
    ensures Marked(loaded + [e]) == Marked(loaded) + 1
  {
    assert (loaded + [e])[..|loaded|] == loaded;
  }

  /** Every stored attempt, and every one still to be stored, has its observation. */
  ghost predicate Witnessed(w: World, id: DialogueId) {
    Attempts(ProgressOf(w, id)) + |Between(w, id)| <= Marked(Stream(w, id))
  }

  /** The second write is this dialogue's, or the first is, and succeeds. */
  predicate Observes(w: World, task: Task, g: GradeStep, id: DialogueId)
    requires CanGrade(w, task, g)
  {
    g.GradeSaves? && w.writers[task].id == id && Stream(w, id) == w.writers[task].loaded
  }

  predicate Records(w: World, task: Task, g: GradeStep, id: DialogueId)
    requires CanGrade(w, task, g)
  {
    g.ProgressSaves? && w.writers[task].id == id
  }

  lemma ObservedStep(w: World, task: Task, id: DialogueId)
    requires CanGrade(w, task, GradeSaves) && Observes(w, task, GradeSaves, id)
    requires Witnessed(w, id) && GoodWriter(w.writers[task])
    ensures Witnessed(SaveGrade(w, task, w.writers[task]).0, id)
  {
    var t, w' := w.writers[task], SaveGrade(w, task, w.writers[task]).0;
    OneMoreMarked(t.loaded, t.next[|t.loaded|]);
    assert t.next == t.loaded + [t.next[|t.loaded|]];
    assert Between(w', id) == Between(w, id) + {task};
  }

  lemma RecordedAtMostOne(w: World, task: Task, id: DialogueId, mark: Mark)
    ensures Attempts(ProgressOf(RecordGrade(w, task, id, mark).0, id)) <= Attempts(ProgressOf(w, id)) + 1
  {
    if Learner.Decide(Attempting(id, mark), Learner.Fold(ProgressOf(w, id))).Accepted? {
      OneMoreAttempt(id, mark, ProgressOf(w, id));
    }
  }

  lemma RecordedLeaves(w: World, task: Task, id: DialogueId, mark: Mark)
    ensures RecordGrade(w, task, id, mark).0.writers == w.writers - {task}
  {
  }

  lemma RecordedNoEvent(w: World, task: Task, id: DialogueId, mark: Mark)
    ensures RecordGrade(w, task, id, mark).0.streams == w.streams
  {
  }

  lemma RecordedElsewhere(w: World, task: Task, id: DialogueId, mark: Mark, other: DialogueId)
    ensures other != id ==> ProgressOf(RecordGrade(w, task, id, mark).0, other) == ProgressOf(w, other)
  {
  }

  lemma OneFewer(w: World, w': World, task: Task, id: DialogueId)
    requires task in Between(w, id) && w'.writers == w.writers - {task}
    ensures |Between(w', id)| == |Between(w, id)| - 1
  {
    assert Between(w', id) == Between(w, id) - {task};
  }

  lemma RecordedStep(w: World, task: Task, id: DialogueId)
    requires CanGrade(w, task, ProgressSaves) && Records(w, task, ProgressSaves, id) && Witnessed(w, id)
    ensures Witnessed(RecordGrade(w, task, id, w.writers[task].mark).0, id)
  {
    var mark := w.writers[task].mark;
    RecordedAtMostOne(w, task, id, mark);
    RecordedLeaves(w, task, id, mark);
    RecordedNoEvent(w, task, id, mark);
    OneFewer(w, RecordGrade(w, task, id, mark).0, task, id);
  }

  /** No task gets between its two writes, as far as this dialogue goes. */
  ghost predicate NoneEnters(w: World, w': World, id: DialogueId) {
    forall task :: task in Between(w', id) ==> task in w.writers && w.writers[task] == w'.writers[task]
  }

  lemma EndLeaves(w: World, task: Task, e: EndStep, id: DialogueId)
    requires CanEnd(w, task, e)
    ensures NoneEnters(w, End(w, task, e).0, id) && End(w, task, e).0.progress == w.progress
  {
  }

  lemma NoneEntersBy(w: World, w': World, task: Task, id: DialogueId)
    requires || w'.writers == w.writers - {task}
             || (task in w'.writers && w'.writers == w.writers[task := w'.writers[task]]
                 && !(w'.writers[task].GradeSaved? && w'.writers[task].id == id))
    ensures NoneEnters(w, w', id)
  {
  }

  lemma LoadedLeaves(w: World, task: Task, id: DialogueId, mark: Mark, other: DialogueId)
    ensures var w' := LoadGrade(w, task, id, mark).0; NoneEnters(w, w', other) && w'.progress == w.progress
  {
    NoneEntersBy(w, LoadGrade(w, task, id, mark).0, task, other);
  }

  lemma SavedLeaves(w: World, task: Task, t: Writer, id: DialogueId)
    requires t.GradeSaving? && (t.id != id || Stream(w, id) != t.loaded)
    ensures var w' := SaveGrade(w, task, t).0; NoneEnters(w, w', id) && w'.progress == w.progress
  {
    NoneEntersBy(w, SaveGrade(w, task, t).0, task, id);
  }

  lemma GradeLeaves(w: World, task: Task, g: GradeStep, id: DialogueId)
    requires CanGrade(w, task, g) && !Observes(w, task, g, id) && !Records(w, task, g, id)
    ensures NoneEnters(w, Grade(w, task, g).0, id) && ProgressOf(Grade(w, task, g).0, id) == ProgressOf(w, id)
  {
    var t := w.writers[task];
    match g
    case GradeLoaded => LoadedLeaves(w, task, t.id, t.mark, id);
    case GradeSaves => SavedLeaves(w, task, t, id);
    case ProgressSaves =>
      RecordedLeaves(w, task, t.id, t.mark);
      RecordedElsewhere(w, task, t.id, t.mark, id);
      NoneEntersBy(w, RecordGrade(w, task, t.id, t.mark).0, task, id);
  }

  lemma QuietStep(w: World, step: Step, id: DialogueId)
    requires Enabled(w, step)
    requires step.Grading? ==> !Observes(w, step.task, step.g, id) && !Records(w, step.task, step.g, id)
    ensures NoneEnters(w, Next(w, step).0, id) && ProgressOf(Next(w, step).0, id) == ProgressOf(w, id)
  {
    match step
    case Ending(task, e) => EndLeaves(w, task, e, id);
    case Grading(task, g) => GradeLeaves(w, task, g, id);
    case Beginning(other, b) => BeginLeaves(w, other, b);
    case Resuming(other, r) => ResumeLeaves(w, other, r);
    case Turning(other, a) => RespondLeaves(w, other, a);
    case _ =>
  }

  lemma QuietWitnessed(w: World, w': World, id: DialogueId)
    requires Witnessed(w, id) && NoneEnters(w, w', id) && ProgressOf(w', id) == ProgressOf(w, id)
    requires Stream(w, id) <= Stream(w', id)
    ensures Witnessed(w', id)
  {
    SubsetNoLarger(Between(w', id), Between(w, id));
    MarkedGrows(Stream(w, id), Stream(w', id));
  }

  lemma StepWitnessed(w: World, step: Step, id: DialogueId)
    requires Enabled(w, step) && Witnessed(w, id) && GoodWriters(w)
    requires Stream(w, id) <= Stream(Next(w, step).0, id)
    ensures Witnessed(Next(w, step).0, id)
  {
    if step.Grading? && Observes(w, step.task, step.g, id) {
      ObservedStep(w, step.task, id);
    } else if step.Grading? && Records(w, step.task, step.g, id) {
      RecordedStep(w, step.task, id);
    } else {
      QuietStep(w, step, id);
      QuietWitnessed(w, Next(w, step).0, id);
    }
  }

  /** In every state of every run, crashes and failures between the two writes included, the
      attempts stored for a dialogue, together with those whose second write is still to
      come, are no more than the observations on its stream that rest on attempts. */
  lemma {:induction false} AttemptsWitnessed(r: Run, k: nat, id: DialogueId)
    requires Within(r, k)
    ensures Witnessed(r.states[k], id)
  {
    if k > 0 {
      AttemptsWitnessed(r, k - 1, id);
      RunGood(r, k - 1);
      assert Follows(r, k - 1);
      NothingAfterConclusion(r, k - 1, r.steps[k - 1], id);
      StepWitnessed(r.states[k - 1], r.steps[k - 1], id);
    }
  }

  // ----- What the two writes say -----

  /** The answer stored is the mark: under its turn, with its verdict and its score. */
  predicate StoresMark(e: Learner.Event, id: DialogueId, mark: Mark) {
    && e.Answered? && e.id == id && e.path == "turn/" + Decimal(mark.position) && e.component == mark.component
    && e.kind == mark.kind && e.digest == mark.digest && e.correct == mark.correct && e.score == mark.score
  }

  /** One more answer, and perhaps a completion after it. */
  predicate Adds(before: seq<Learner.Event>, after: seq<Learner.Event>, id: DialogueId, mark: Mark) {
    && before <= after && |before| < |after| <= |before| + 2 && StoresMark(after[|before|], id, mark)
    && (|after| > |before| + 1 ==> after[|before| + 1].Completed?)
  }

  lemma AttemptAdds(id: DialogueId, mark: Mark, events: seq<Learner.Event>)
    ensures var decision := Learner.Decide(Attempting(id, mark), Learner.Fold(events));
      && (decision.Accepted? <==> mark.component != "")
      && (decision.Accepted? ==> Adds(events, events + decision.events, id, mark))
  {
    var command := Attempting(id, mark);
    LearnerRuns.DecideCarries(command, Learner.Fold(events));
    assert command.path == "turn/" + Decimal(mark.position);
  }

  /** The stream has an observation of this mark. */
  ghost predicate HasMark(stream: seq<Event>, mark: Mark) {
    exists e :: e in stream && Witnesses(e, mark)
  }

  /** The stream has an observation of this answer, with its kind, component, turn and verdict. */
  ghost predicate Shows(stream: seq<Event>, a: Learner.Event) {
    a.Answered? ==>
      && "turn/" <= a.path
      && exists e :: e in stream && SaysOf(e, a.kind, a.component, a.path[|"turn/"|..], a.correct)
  }

  predicate SaysOf(e: Event, kind: string, component: string, turn: string, correct: bool) {
    e.Observed? && e.evidence == Attempt && e.detail == Detailed(kind, component, turn, correct)
  }

  ghost predicate Backed(w: World, id: DialogueId) {
    && (forall a :: a in ProgressOf(w, id) ==> Shows(Stream(w, id), a))
    && (forall task :: task in Between(w, id) ==> HasMark(Stream(w, id), w.writers[task].mark))
  }

  lemma StoredShows(stream: seq<Event>, a: Learner.Event, id: DialogueId, mark: Mark)
    requires HasMark(stream, mark) && StoresMark(a, id, mark)
    ensures Shows(stream, a)
  {
    var e :| e in stream && Witnesses(e, mark);
    assert a.path[|"turn/"|..] == Decimal(mark.position);
    assert SaysOf(e, a.kind, a.component, a.path[|"turn/"|..], a.correct);
  }

  lemma BackedStays(w: World, w': World, id: DialogueId)
    requires Backed(w, id) && NoneEnters(w, w', id) && ProgressOf(w', id) == ProgressOf(w, id)
    requires Stream(w, id) <= Stream(w', id)
    ensures Backed(w', id)
  {
    var before, after := Stream(w, id), Stream(w', id);
    assert forall e :: e in before ==> e in after by {
      assert before == after[..|before|];
    }
    forall task | task in Between(w', id)
      ensures HasMark(after, w'.writers[task].mark)
    {
      assert task in Between(w, id);
    }
    forall a | a in ProgressOf(w', id)
      ensures Shows(after, a)
    {
      assert Shows(before, a);
    }
  }

  lemma ObservedBacked(w: World, task: Task, id: DialogueId)
    requires CanGrade(w, task, GradeSaves) && Observes(w, task, GradeSaves, id)
    requires Backed(w, id) && GoodWriter(w.writers[task])
    ensures Backed(SaveGrade(w, task, w.writers[task]).0, id)
  {
    var t, w' := w.writers[task], SaveGrade(w, task, w.writers[task]).0;
    var without := w'.(writers := w'.writers - {task});
    BackedStays(w, without, id);
    assert t.next[|t.loaded|] in Stream(w', id) && Witnesses(t.next[|t.loaded|], t.mark);
    forall other | other in Between(w', id)
      ensures HasMark(Stream(w', id), w'.writers[other].mark)
    {
      assert other != task ==> other in Between(without, id);
    }
  }

  lemma RecordedBacked(w: World, task: Task, id: DialogueId)
    requires CanGrade(w, task, ProgressSaves) && Records(w, task, ProgressSaves, id) && Backed(w, id)
    ensures Backed(RecordGrade(w, task, id, w.writers[task].mark).0, id)
  {
    var mark := w.writers[task].mark;
    var w', before := RecordGrade(w, task, id, mark).0, ProgressOf(w, id);
    AttemptAdds(id, mark, before);
    RecordedLeaves(w, task, id, mark);
    RecordedNoEvent(w, task, id, mark);
    assert task in Between(w, id);
    forall a | a in ProgressOf(w', id)
      ensures Shows(Stream(w', id), a)
    {
      if a !in before {
        StoredOrDone(w, w', task, id, a);
      }
    }
  }

  lemma StoredOrDone(w: World, w': World, task: Task, id: DialogueId, a: Learner.Event)
    requires task in Between(w, id) && Backed(w, id) && Stream(w', id) == Stream(w, id)
    requires || ProgressOf(w', id) == ProgressOf(w, id)
             || Adds(ProgressOf(w, id), ProgressOf(w', id), id, w.writers[task].mark)
    requires a in ProgressOf(w', id) && a !in ProgressOf(w, id)
    ensures Shows(Stream(w', id), a)
  {
    var before, after, mark := ProgressOf(w, id), ProgressOf(w', id), w.writers[task].mark;
    assert forall j :: 0 <= j < |before| ==> after[j] == before[j] && before[j] in before;
    var k :| 0 <= k < |after| && after[k] == a;
    if k == |before| {
      StoredShows(Stream(w, id), a, id, mark);
    }
  }

  lemma StepBacked(w: World, step: Step, id: DialogueId)
    requires Enabled(w, step) && Backed(w, id) && GoodWriters(w)
    requires Stream(w, id) <= Stream(Next(w, step).0, id)
    ensures Backed(Next(w, step).0, id)
  {
    if step.Grading? && Observes(w, step.task, step.g, id) {
      ObservedBacked(w, step.task, id);
    } else if step.Grading? && Records(w, step.task, step.g, id) {
      RecordedBacked(w, step.task, id);
    } else {
      QuietStep(w, step, id);
      BackedStays(w, Next(w, step).0, id);
    }
  }

  /** In every state of every run each answer stored for a dialogue has an observation on its stream
      that names the same kind, component and turn, with the same verdict. */
  lemma {:induction false} AttemptsBacked(r: Run, k: nat, id: DialogueId)
    requires Within(r, k)
    ensures Backed(r.states[k], id)
  {
    if k > 0 {
      AttemptsBacked(r, k - 1, id);
      RunGood(r, k - 1);
      assert Follows(r, k - 1);
      NothingAfterConclusion(r, k - 1, r.steps[k - 1], id);
      StepBacked(r.states[k - 1], r.steps[k - 1], id);
    }
  }
}
