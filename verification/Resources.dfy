/** research_team/wiring/resources.py, `LazyAsyncResource`: one resource, opened when first
    asked for, by however many tasks ask and close at once.

    A task runs until it awaits; what happens between two awaits is one step. */
module Resources {
  import opened Wrappers
  import opened Sums

  datatype Task = Task(number: int)
  datatype Resource = Resource(handle: int)

  /** Where a task is suspended. */
  datatype Point =
    | GetAwaitsLock
    | GetAwaitsFactory
    | CloseAwaitsLock
    | CloseAwaitsClose(closing: Resource)

  /** How a call ended, if it did: what a `get` returned is what the field held. */
  datatype Outcome = Suspended | Returned(value: Option<Resource>) | Closed | Raised

  /** The object, its lock and its tasks; and what the outside holds open. A resource whose
      closing raised is stranded: nobody will close it again, open or not. */
  datatype World = World(
    resource: Option<Resource>, holder: Option<Task>, tasks: map<Task, Point>,
    live: set<Resource>, stranded: set<Resource>, made: set<Resource>)

  datatype Step =
    | GetCalled(task: Task)
    | GetLocked(task: Task)
    | FactoryDone(task: Task, made: Resource)
    | FactoryRaised(task: Task)
    | CloseCalled(task: Task)
    | CloseLocked(task: Task)
    | CloseDone(task: Task)
    | CloseRaised(task: Task)
    | WaitCancelled(task: Task)

  const INITIAL_WORLD := World(None, None, map[], {}, {}, {})

  predicate At(tasks: map<Task, Point>, task: Task, point: Point) {
    task in tasks && tasks[task] == point
  }

  predicate AtClose(tasks: map<Task, Point>, task: Task) {
    task in tasks && tasks[task].CloseAwaitsClose?
  }

  /** What may happen next. The lock goes to any task that waits for it. */
  predicate Enabled(w: World, step: Step) {
    match step
    case GetCalled(task) => task !in w.tasks
    case GetLocked(task) => At(w.tasks, task, GetAwaitsLock) && w.holder.None?
    case FactoryDone(task, made) => At(w.tasks, task, GetAwaitsFactory) && made !in w.made
    case FactoryRaised(task) => At(w.tasks, task, GetAwaitsFactory)
    case CloseCalled(task) => task !in w.tasks
    case CloseLocked(task) => At(w.tasks, task, CloseAwaitsLock) && w.holder.None?
    case CloseDone(task) => AtClose(w.tasks, task)
    case CloseRaised(task) => AtClose(w.tasks, task)
    case WaitCancelled(task) => At(w.tasks, task, GetAwaitsLock) || At(w.tasks, task, CloseAwaitsLock)
  }

  function Without(tasks: map<Task, Point>, task: Task): map<Task, Point> {
    tasks - {task}
  }

  function Next(w: World, step: Step): (World, Outcome)
    requires Enabled(w, step)
  {
    match step
    case GetCalled(task) =>
      if w.resource.Some? then (w, Returned(w.resource))
      else (w.(tasks := w.tasks[task := GetAwaitsLock]), Suspended)
    case GetLocked(task) =>
      if w.resource.Some? then (w.(tasks := Without(w.tasks, task)), Returned(w.resource))
      else (w.(tasks := w.tasks[task := GetAwaitsFactory], holder := Some(task)), Suspended)
    case FactoryDone(task, made) =>
      (World(Some(made), None, Without(w.tasks, task), w.live + {made}, w.stranded, w.made + {made}),
       Returned(Some(made)))
    case FactoryRaised(task) =>
      (w.(tasks := Without(w.tasks, task), holder := None), Raised)
    case CloseCalled(task) =>
      (w.(tasks := w.tasks[task := CloseAwaitsLock]), Suspended)
    case CloseLocked(task) =>
      if w.resource.None? then (w.(tasks := Without(w.tasks, task)), Closed)
      else (w.(tasks := w.tasks[task := CloseAwaitsClose(w.resource.value)], holder := Some(task), resource := None),
            Suspended)
    case CloseDone(task) =>
      (w.(tasks := Without(w.tasks, task), holder := None, live := w.live - {w.tasks[task].closing}), Closed)
    case CloseRaised(task) =>
      (w.(tasks := Without(w.tasks, task), holder := None, stranded := w.stranded + {w.tasks[task].closing}), Raised)
    case WaitCancelled(task) =>
      (w.(tasks := Without(w.tasks, task)), Raised)
  }

  // ----- Runs -----

  /** The steps can be taken one after another, from `w`. */
  predicate Possible(w: World, steps: seq<Step>)
    decreases |steps|
  {
    steps == [] || (Enabled(w, steps[0]) && Possible(Next(w, steps[0]).0, steps[1..]))
  }

  function After(w: World, steps: seq<Step>): World
    requires Possible(w, steps)
    decreases |steps|
  {
    if steps == [] then w else After(Next(w, steps[0]).0, steps[1..])
  }

  ghost predicate Reachable(w: World) {
    exists steps :: Possible(INITIAL_WORLD, steps) && After(INITIAL_WORLD, steps) == w
  }

  /** The resource in the field, or else the one being closed. */
  ghost predicate InUse(w: World, r: Resource) {
    w.resource == Some(r) || (w.holder.Some? && At(w.tasks, w.holder.value, CloseAwaitsClose(r)))
  }

  predicate Inside(w: World, task: Task) {
    At(w.tasks, task, GetAwaitsFactory) || AtClose(w.tasks, task)
  }

  /** The lock is held by whoever is past it, and only while the field is empty; what is open
      and not stranded is in use. */
  ghost predicate Sound(w: World) {
    && (forall task :: Inside(w, task) <==> w.holder == Some(task))
    && (w.holder.Some? ==> w.resource.None?)
    && (forall r :: r in w.live && r !in w.stranded <==> InUse(w, r))
    && w.stranded <= w.live <= w.made
  }

  lemma StepSound(w: World, step: Step)
    requires Sound(w) && Enabled(w, step)
    ensures Sound(Next(w, step).0)
  {
    var w' := Next(w, step).0;
    assert Inside(w, step.task) <==> w.holder == Some(step.task);
    if AtClose(w.tasks, step.task) {
      assert InUse(w, w.tasks[step.task].closing);
    }
    if w.resource.Some? {
      assert InUse(w, w.resource.value);
    }
    forall task
      ensures Inside(w', task) <==> w'.holder == Some(task)
    {
      assert Inside(w, task) <==> w.holder == Some(task);
    }
    forall r
      ensures r in w'.live && r !in w'.stranded <==> InUse(w', r)
    {
      assert r in w.live && r !in w.stranded <==> InUse(w, r);
    }
  }

  lemma {:induction false} RunSound(w: World, steps: seq<Step>)
    requires Sound(w) && Possible(w, steps)
    ensures Sound(After(w, steps))
    decreases |steps|
  {
    if steps != [] {
      StepSound(w, steps[0]);
      RunSound(Next(w, steps[0]).0, steps[1..]);
    }
  }

  lemma ReachableSound(w: World)
    requires Reachable(w)
    ensures Sound(w)
  {
    var steps :| Possible(INITIAL_WORLD, steps) && After(INITIAL_WORLD, steps) == w;
    RunSound(INITIAL_WORLD, steps);
  }

  /** At most one resource is open, apart from those whose closing raised. */
  lemma OneLive(w: World, r: Resource, s: Resource)
    requires Reachable(w)
    requires r in w.live - w.stranded && s in w.live - w.stranded
    ensures r == s
  {
    ReachableSound(w);
  }

  /** The factory runs alone: in one task, with nothing open or closing but what is stranded. */
  lemma FactoryAlone(w: World, task: Task)
    requires Reachable(w) && At(w.tasks, task, GetAwaitsFactory)
    ensures w.live == w.stranded
    ensures forall other :: Inside(w, other) ==> other == task
  {
    ReachableSound(w);
    assert Inside(w, task);
    forall r
      ensures r in w.live ==> r in w.stranded
    {
      assert r in w.live && r !in w.stranded <==> InUse(w, r);
    }
  }

  /** A `get` that returns, returns a resource: the one in the field, which is open. */
  lemma GetReturnsResource(w: World, step: Step)
    requires Reachable(w) && Enabled(w, step) && Next(w, step).1.Returned?
    ensures Next(w, step).1.value.Some? && Next(w, step).0.resource == Next(w, step).1.value
    ensures Next(w, step).1.value.value in Next(w, step).0.live
  {
    ReachableSound(w);
    StepSound(w, step);
    var w' := Next(w, step).0;
    if w'.resource.Some? {
      assert InUse(w', w'.resource.value);
    }
  }

  /** The field keeps its resource until a closing takes it. */
  lemma {:induction false} FieldKept(w: World, steps: seq<Step>)
    requires Sound(w) && w.resource.Some? && Possible(w, steps)
    requires forall k :: 0 <= k < |steps| ==> !steps[k].CloseLocked?
    ensures After(w, steps).resource == w.resource
    decreases |steps|
  {
    if steps != [] {
      StepSound(w, steps[0]);
      assert !steps[0].CloseLocked?;
      assert Inside(w, steps[0].task) <==> w.holder == Some(steps[0].task);
      FieldKept(Next(w, steps[0]).0, steps[1..]);
    }
  }

  /** Two `get`s with no closing between them return the same resource. */
  lemma SameBetweenCloses(w: World, first: Step, steps: seq<Step>, last: Step)
    requires Reachable(w) && Enabled(w, first) && Possible(Next(w, first).0, steps)
    requires forall k :: 0 <= k < |steps| ==> !steps[k].CloseLocked?
    requires Enabled(After(Next(w, first).0, steps), last)
    requires Next(w, first).1.Returned? && Next(After(Next(w, first).0, steps), last).1.Returned?
    ensures Next(w, first).1 == Next(After(Next(w, first).0, steps), last).1
  {
    GetReturnsResource(w, first);
    ReachableSound(w);
    StepSound(w, first);
    var w1 := Next(w, first).0;
    FieldKept(w1, steps);
    RunSound(w1, steps);
    var w2 := After(w1, steps);
    assert Inside(w2, last.task) <==> w2.holder == Some(last.task);
  }

  /** A factory that raised leaves the object as good as new to the next caller. */
  lemma ReusableAfterRaise(w: World, failed: Task, task: Task, r: Resource)
    requires Reachable(w) && At(w.tasks, failed, GetAwaitsFactory)
    requires task !in w.tasks && r !in w.made
    ensures var steps := [FactoryRaised(failed), GetCalled(task), GetLocked(task), FactoryDone(task, r)];
      Possible(w, steps) && After(w, steps).resource == Some(r) && After(w, steps).holder.None?
  {
    ReachableSound(w);
    assert Inside(w, failed);
    var w1 := Next(w, FactoryRaised(failed)).0;
    var w2 := Next(w1, GetCalled(task)).0;
    var w3 := Next(w2, GetLocked(task)).0;
    var w4 := Next(w3, FactoryDone(task, r)).0;
    var steps := [FactoryRaised(failed), GetCalled(task), GetLocked(task), FactoryDone(task, r)];
    RunOfFour(w, steps[0], steps[1], steps[2], steps[3]);
  }

  lemma RunStep(w: World, step: Step, steps: seq<Step>)
    requires Enabled(w, step) && Possible(Next(w, step).0, steps)
    ensures Possible(w, [step] + steps)
    ensures After(w, [step] + steps) == After(Next(w, step).0, steps)
  {
    assert ([step] + steps)[1..] == steps;
  }

  lemma RunOfFour(w: World, a: Step, b: Step, c: Step, d: Step)
    requires Enabled(w, a) && Enabled(Next(w, a).0, b) && Enabled(Next(Next(w, a).0, b).0, c)
    requires Enabled(Next(Next(Next(w, a).0, b).0, c).0, d)
    ensures Possible(w, [a, b, c, d])
    ensures After(w, [a, b, c, d]) == Next(Next(Next(Next(w, a).0, b).0, c).0, d).0
  {
    var w3 := Next(Next(Next(w, a).0, b).0, c).0;
    var w2, w1 := Next(Next(w, a).0, b).0, Next(w, a).0;
    RunStep(w3, d, []);
    RunStep(w2, c, [d]);
    RunStep(w1, b, [c, d]);
    RunStep(w, a, [b, c, d]);
    assert [d] == [d] + [] && [c, d] == [c] + [d] && [b, c, d] == [b] + [c, d] && [a, b, c, d] == [a] + [b, c, d];
  }

  /** Nobody waits for ever: as long as there are tasks, one of them can go on. */
  lemma NoDeadlock(w: World) returns (step: Step)
    requires Reachable(w) && w.tasks.Keys != {}
    ensures Enabled(w, step) && !step.GetCalled? && !step.CloseCalled? && !step.WaitCancelled?
  {
    ReachableSound(w);
    if w.holder.Some? {
      var task := w.holder.value;
      assert Inside(w, task);
      step := if AtClose(w.tasks, task) then CloseDone(task) else FactoryRaised(task);
    } else {
      var task := Pick(w.tasks.Keys);
      assert !Inside(w, task);
      step := if w.tasks[task].GetAwaitsLock? then GetLocked(task) else CloseLocked(task);
    }
  }

  // ----- One more step -----

  lemma {:induction false} OneMoreStep(w: World, steps: seq<Step>, step: Step)
    requires Possible(w, steps) && Enabled(After(w, steps), step)
    ensures Possible(w, steps + [step])
    ensures After(w, steps + [step]) == Next(After(w, steps), step).0
    decreases |steps|
  {
    if steps == [] {
      RunStep(w, step, []);
      assert [] + [step] == [step] + [];
    } else {
      OneMoreStep(Next(w, steps[0]).0, steps[1..], step);
      RunStep(w, steps[0], steps[1..] + [step]);
      assert [steps[0]] + (steps[1..] + [step]) == steps + [step];
    }
  }

  /** Nothing is open but what is stranded. */
  predicate NothingOpen(w: World) {
    w.live == w.stranded
  }

  /** This is open, and nothing else but what is stranded. */
  predicate OnlyOpen(w: World, r: Resource) {
    r in w.live && r !in w.stranded && forall s :: s in w.live && s !in w.stranded ==> s == r
  }

  /** What is open, by where the lock and the field are. */
  lemma OpenIs(w: World)
    requires Sound(w)
    ensures w.resource.Some? ==> OnlyOpen(w, w.resource.value)
    ensures forall task :: AtClose(w.tasks, task) ==> OnlyOpen(w, w.tasks[task].closing)
    ensures w.resource.None? && (forall task :: !AtClose(w.tasks, task)) ==> NothingOpen(w)
    ensures forall task :: At(w.tasks, task, GetAwaitsFactory) ==> NothingOpen(w)
  {
    forall r
      ensures r in w.live && r !in w.stranded <==> InUse(w, r)
    {
    }
    if w.resource.Some? {
      assert InUse(w, w.resource.value);
    }
    forall task | AtClose(w.tasks, task)
      ensures OnlyOpen(w, w.tasks[task].closing)
    {
      assert Inside(w, task);
      assert InUse(w, w.tasks[task].closing);
    }
    forall task | At(w.tasks, task, GetAwaitsFactory)
      ensures NothingOpen(w)
    {
      assert Inside(w, task);
    }
  }

  // ----- The object -----

  class LazyAsyncResource {
    var resource: Option<Resource>
    var holder: Option<Task>
    var tasks: map<Task, Point>
    ghost var live: set<Resource>
    ghost var stranded: set<Resource>
    ghost var made: set<Resource>
    ghost var steps: seq<Step>

    ghost function State(): World
      reads this
    {
      World(resource, holder, tasks, live, stranded, made)
    }

    /** The object is where its steps have brought it. */
    ghost predicate Valid()
      reads this
    {
      Possible(INITIAL_WORLD, steps) && After(INITIAL_WORLD, steps) == State()
    }

    constructor ()
      ensures Valid() && State() == INITIAL_WORLD
    {
      resource, holder, tasks, live, stranded, made, steps := None, None, map[], {}, {}, {}, [];
    }

    /** The step just taken goes on record. */
    ghost method Advance(step: Step)
      requires Possible(INITIAL_WORLD, steps) && Enabled(After(INITIAL_WORLD, steps), step)
      requires State() == Next(After(INITIAL_WORLD, steps), step).0
      modifies this`steps
      ensures Valid() && steps == old(steps) + [step] && Sound(State())
    {
      OneMoreStep(INITIAL_WORLD, steps, step);
      RunSound(INITIAL_WORLD, steps + [step]);
      steps := steps + [step];
    }

    /** Line 64, the check without the lock: it returns the open resource, or it waits. */
    method CallGet(task: Task) returns (outcome: Outcome)
      requires Valid() && Enabled(State(), GetCalled(task))
      modifies this
      ensures Valid() && steps == old(steps) + [GetCalled(task)]
      ensures outcome.Returned? ==>
                outcome.value.Some? && OnlyOpen(State(), outcome.value.value) && State() == old(State())
      ensures !outcome.Returned? ==> outcome == Suspended && At(tasks, task, GetAwaitsLock) && live == old(live)
      ensures outcome.Returned? <==> old(resource).Some?
    {
      RunSound(INITIAL_WORLD, steps);
      OpenIs(State());
      if resource.None? {
        tasks := tasks[task := GetAwaitsLock];
        outcome := Suspended;
      } else {
        outcome := Returned(resource);
      }
      Advance(GetCalled(task));
    }

    /** Lines 65-68, the check again with the lock held: it returns the open resource and frees
        the lock, or it runs the factory, alone and with nothing open. */
    method EnterGet(task: Task) returns (outcome: Outcome)
      requires Valid() && Enabled(State(), GetLocked(task))
      modifies this
      ensures Valid() && steps == old(steps) + [GetLocked(task)]
      ensures outcome.Returned? ==> outcome.value.Some? && OnlyOpen(State(), outcome.value.value) && holder == None
      ensures !outcome.Returned? ==>
        && outcome == Suspended && At(tasks, task, GetAwaitsFactory) && holder == Some(task)
        && NothingOpen(State()) && forall other :: Inside(State(), other) ==> other == task
      ensures outcome.Returned? <==> old(resource).Some?
    {
      holder := Some(task);
      if resource.None? {
        tasks := tasks[task := GetAwaitsFactory];
        outcome := Suspended;
      } else {
        Release(task);
        outcome := Returned(resource);
      }
      Advance(GetLocked(task));
      OpenIs(State());
    }

    method Release(task: Task)
      modifies this`holder, this`tasks
      ensures holder == None && tasks == Without(old(tasks), task)
    {
      holder := None;
      tasks := tasks - {task};
    }

    /** Lines 67-68. What the factory made is returned, and is the one thing open. */
    method FinishFactory(task: Task, built: Resource) returns (outcome: Outcome)
      requires Valid() && Enabled(State(), FactoryDone(task, built))
      modifies this
      ensures Valid() && steps == old(steps) + [FactoryDone(task, built)]
      ensures outcome == Returned(Some(built)) && OnlyOpen(State(), built)
      ensures holder == None && task !in tasks && resource == Some(built)
    {
      live, made := live + {built}, made + {built};
      resource := Some(built);
      Release(task);
      outcome := Returned(resource);
      Advance(FactoryDone(task, built));
      OpenIs(State());
    }

    /** A factory that raises leaves nothing open, the field empty and the lock free. */
    method FailFactory(task: Task) returns (outcome: Outcome)
      requires Valid() && Enabled(State(), FactoryRaised(task))
      modifies this
      ensures Valid() && steps == old(steps) + [FactoryRaised(task)]
      ensures outcome == Raised && resource == None && holder == None && task !in tasks && NothingOpen(State())
    {
      RunSound(INITIAL_WORLD, steps);
      OpenIs(State());
      assert Inside(State(), task);
      Release(task);
      outcome := Raised;
      Advance(FactoryRaised(task));
    }

    method CallClose(task: Task)
      requires Valid() && Enabled(State(), CloseCalled(task))
      modifies this
      ensures Valid() && steps == old(steps) + [CloseCalled(task)]
      ensures At(tasks, task, CloseAwaitsLock) && resource == old(resource) && live == old(live)
    {
      tasks := tasks[task := CloseAwaitsLock];
      Advance(CloseCalled(task));
    }

    /** Lines 81-86. While the closing is awaited nobody can be given the resource, nor open
        another; and with nothing to close there is nothing open. */
    method EnterClose(task: Task) returns (outcome: Outcome)
      requires Valid() && Enabled(State(), CloseLocked(task))
      modifies this
      ensures Valid() && steps == old(steps) + [CloseLocked(task)]
      ensures resource == None
      ensures outcome == Suspended ==>
        && AtClose(tasks, task) && old(resource) == Some(tasks[task].closing) && OnlyOpen(State(), tasks[task].closing)
        && forall other :: Inside(State(), other) ==> other == task
      ensures outcome != Suspended ==> outcome == Closed && holder == None && task !in tasks && NothingOpen(State())
      ensures outcome == Suspended <==> old(resource).Some?
    {
      holder := Some(task);
      if resource.Some? {
        var closing := resource.value;
        resource := None;
        tasks := tasks[task := CloseAwaitsClose(closing)];
        outcome := Suspended;
      } else {
        Release(task);
        outcome := Closed;
      }
      Advance(CloseLocked(task));
      OpenIs(State());
      assert outcome != Suspended ==> forall other :: Inside(State(), other) <==> holder == Some(other);
    }

    /** What was being closed is closed, and nothing is open. */
    method FinishClose(task: Task) returns (outcome: Outcome)
      requires Valid() && Enabled(State(), CloseDone(task))
      modifies this
      ensures Valid() && steps == old(steps) + [CloseDone(task)]
      ensures outcome == Closed && holder == None && task !in tasks && NothingOpen(State())
      ensures old(tasks)[task].closing !in live
    {
      RunSound(INITIAL_WORLD, steps);
      OpenIs(State());
      live := live - {tasks[task].closing};
      Release(task);
      outcome := Closed;
      Advance(CloseDone(task));
    }

    /** A closing that raises strands its resource, and leaves the object free for another. */
    method FailClose(task: Task) returns (outcome: Outcome)
      requires Valid() && Enabled(State(), CloseRaised(task))
      modifies this
      ensures Valid() && steps == old(steps) + [CloseRaised(task)]
      ensures outcome == Raised && resource == None && holder == None && task !in tasks && NothingOpen(State())
      ensures stranded == old(stranded) + {old(tasks)[task].closing}
    {
      RunSound(INITIAL_WORLD, steps);
      OpenIs(State());
      assert Inside(State(), task);
      stranded := stranded + {tasks[task].closing};
      Release(task);
      outcome := Raised;
      Advance(CloseRaised(task));
    }

    method CancelWait(task: Task)
      requires Valid() && Enabled(State(), WaitCancelled(task))
      modifies this
      ensures Valid() && steps == old(steps) + [WaitCancelled(task)]
      ensures task !in tasks && resource == old(resource) && holder == old(holder) && live == old(live)
    {
      tasks := tasks - {task};
      Advance(WaitCancelled(task));
    }
  }
}
