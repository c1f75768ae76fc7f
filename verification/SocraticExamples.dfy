/** research_team/dialogue/application/socratic.py: three runs, for what the service does not
    guarantee. */
module SocraticExamples {
  import opened Wrappers
  import opened Dialogue
  import opened SocraticSteps
  import opened SocraticViews
  import opened SocraticRuns

  /** A run in which nothing has been mislaid. */
  ghost predicate Tidy(r: Run) {
    IsRun(r) && NoneMislaid(r, |r.steps|)
  }

  lemma TidyThen(r: Run, step: Step)
    requires Tidy(r) && Enabled(Last(r), step) && !Mislays(Last(r), step)
    ensures Tidy(Then(r, step)) && Last(Then(r, step)) == Next(Last(r), step).0
  {
    ThenRuns(r, step);
    var longer := Then(r, step);
    forall j | 0 <= j < |longer.steps|
      ensures !Mislays(longer.states[j], longer.steps[j])
    {
      assert j < |r.steps| ==> !Mislays(r.states[j], r.steps[j]);
    }
  }

  const BEGIN_SAVES := Beginning(0, BeginSaves(0, "topic", "goal", "condition", "question"))
  const BEGIN_PUTS := Beginning(0, BeginPuts({}))

  /** A dialogue begun, and a reply to it on its way to the executor. */
  lemma Opened() returns (r: Run)
    ensures Tidy(r)
    ensures ThinksOf(Last(r), 0) && 0 in Last(r).held && Last(r).running == {0}
    ensures !IsConcluded(Stream(Last(r), 0)) && Begun(Stream(Last(r), 0), 0)
  {
    var starts := Resuming(0, ReplyStarts(0, "answer", false));
    r := Run([INITIAL_WORLD], []);
    TidyThen(r, BEGIN_SAVES);
    r := Then(r, BEGIN_SAVES);
    TidyThen(r, BEGIN_PUTS);
    r := Then(r, BEGIN_PUTS);
    TidyThen(r, starts);
    r := Then(r, starts);
  }

  /** The same, but the reply overtakes the `begin`, whose entry is still to come. */
  lemma Overtaken() returns (r: Run)
    ensures Tidy(r)
    ensures ThinksOf(Last(r), 0) && 0 in Last(r).begun && Last(r).running == {0}
    ensures !IsConcluded(Stream(Last(r), 0)) && Begun(Stream(Last(r), 0), 0)
  {
    var starts := Resuming(0, ReplyStarts(0, "answer", false));
    r := Run([INITIAL_WORLD], []);
    TidyThen(r, BEGIN_SAVES);
    r := Then(r, BEGIN_SAVES);
    TidyThen(r, starts);
    r := Then(r, starts);
    FoldTellsStream(Stream(Last(r), 0));
    TidyThen(r, Resuming(0, RowRead));
    r := Then(r, Resuming(0, RowRead));
    TidyThen(r, Resuming(0, TurnsRead));
    r := Then(r, Resuming(0, TurnsRead));
  }

  /** The reply answered and its exchange saved. */
  lemma Stored(before: Run, concluded: bool) returns (r: Run)
    requires Tidy(before)
    requires var w := Last(before); ThinksOf(w, 0) && Begun(Stream(w, 0), 0) && !IsConcluded(Stream(w, 0))
    ensures Tidy(r)
    ensures var w, w' := Last(before), Last(r);
      && w'.held == w.held && w'.running == w.running && w'.begun == w.begun && OnItsWay(w', 0)
      && (IsConcluded(Stream(w', 0)) <==> concluded)
  {
    r := before;
    var t, stream := Last(r).replies[0], Stream(Last(r), 0);
    var answers := Turning(0, ExecutorAnswers("next", [], None, concluded));
    TidyThen(r, answers);
    r := Then(r, answers);
    ExchangeRecorded(stream, t.reply, Asked("next", [], None, concluded, |t.live.messages| / 2));
    TidyThen(r, Turning(0, TranscriptLoaded));
    r := Then(r, Turning(0, TranscriptLoaded));
    TidyThen(r, Turning(0, TurnSaves));
    r := Then(r, Turning(0, TurnSaves));
  }

  /** And put, and handed over. */
  lemma Handed(before: Run) returns (r: Run)
    requires Tidy(before) && OnItsWay(Last(before), 0)
    ensures Tidy(r)
    ensures var w, w' := Last(before), Last(r);
      && 0 in w'.held && w'.running == w.running - {0} && w'.begun == w.begun
      && 0 !in w'.replies && w'.streams == w.streams
  {
    r := before;
    TidyThen(r, Turning(0, TurnPuts({})));
    r := Then(r, Turning(0, TurnPuts({})));
    TidyThen(r, Turning(0, ReplyEnds));
    r := Then(r, Turning(0, ReplyEnds));
  }

  /** The registry has the dialogue, and not as the log has it. */
  ghost predicate Disagrees(w: World, id: DialogueId) {
    id in w.held && id !in w.replies && Begun(Stream(w, id), id) && w.held[id] != FromLog(Stream(w, id), id)
  }

  /** A reply cancelled while its save is coming back leaves the registry an exchange behind
      the log: what the next reply is answered from is not what resuming would give it. */
  lemma LostPutDisagrees() returns (before: Run, step: Step)
    ensures Tidy(before) && step == Turning(0, ReplyEnds) && Enabled(Last(before), step)
    ensures IsRun(Then(before, step)) && Disagrees(Last(Then(before, step)), 0)
  {
    var replying := Opened();
    before := Stored(replying, false);
    step := Turning(0, ReplyEnds);
    ThenRuns(before, step);
    MarkedDisagrees(before, step);
  }

  /** A `begin` that is slow to put its entry puts it over that of a reply that was faster:
      nothing was cancelled, and the registry has forgotten an exchange. */
  lemma LateBeginDisagrees() returns (before: Run, step: Step)
    ensures Tidy(before) && step == Beginning(0, BeginPuts({})) && Enabled(Last(before), step)
    ensures IsRun(Then(before, step)) && Disagrees(Last(Then(before, step)), 0)
  {
    var overtaken := Overtaken();
    var stored := Stored(overtaken, false);
    before := Handed(stored);
    step := BEGIN_PUTS;
    SavedTurn(stored);
    ThenRuns(before, step);
    MarkedDisagrees(before, step);
  }

  lemma SavedTurn(r: Run)
    requires IsRun(r) && OnItsWay(Last(r), 0)
    ensures TurnsOf(Stream(Last(r), 0)) != []
  {
    RunGoodAt(r, |r.steps|, 0);
  }

  lemma MarkedDisagrees(before: Run, step: Step)
    requires Tidy(before) && Enabled(Last(before), step) && IsRun(Then(before, step))
    requires NewMarks(Last(before), step, 0, UNMARKED).held
    requires var w := Next(Last(before), step).0; 0 in w.held && 0 !in w.replies
    ensures Disagrees(Last(Then(before, step)), 0)
  {
    var r, n := Then(before, step), |before.steps|;
    SameMarks(before, step, n, 0);
    NoneMislaidNoneMarked(before, n, 0);
    assert r.states[n] == Last(before) && r.steps[n] == step;
    CacheAgreesIff(r, n + 1, 0);
  }

  /** A dialogue its last exchange concluded is put back in the registry, and a reply to it
      runs the executor. */
  lemma ConcludedStillAsks() returns (r: Run)
    ensures Tidy(r) && ThinksOf(Last(r), 0) && IsConcluded(Stream(Last(r), 0))
  {
    var replying := Opened();
    var stored := Stored(replying, true);
    r := Handed(stored);
    var starts := Resuming(0, ReplyStarts(Last(r).held[0].project, "answer", false));
    TidyThen(r, starts);
    r := Then(r, starts);
  }
}
