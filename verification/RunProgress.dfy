/**
 Every run ends, whatever happens: no reachable state before the end is stuck,
 and the number of steps is bounded in advance. A VM goroutine left to itself
 behaves as CreateVM.
 */
module RunProgress {
  import opened Cluster
  import opened Planner
  import opened RunProtocol
  import DiskWiring
  import RunSafety
  import Readiness
  import Resources
  import Retry

  // ---------------------------------------------------------------------
  // No state is stuck
  // ---------------------------------------------------------------------

  /** A task that runs can make its call; when none runs, the first idle one can be started. */
  lemma GroupMovesOn(tasks: seq<Task>, limit: int) returns (i: nat)
    requires !Joined(tasks)
    ensures i < |tasks| && (tasks[i].Running? || MaySpawn(tasks, i, limit))
  {
    if k: nat :| k < |tasks| && tasks[k].Running? {
      i := k;
    } else {
      RunSafety.NoneActive(tasks);
      i := 0;
      while !tasks[i].Idle?
        invariant i < |tasks| && AllStarted(tasks, i)
        invariant exists k: nat :: i <= k < |tasks| && tasks[k].Idle?
        decreases |tasks| - i
      {
        i := i + 1;
      }
    }
  }

  /** A wait can always be brought to its end. */
  lemma SomeWait(su: Setup) returns (wait: Wait)
    ensures WaitDone(su, wait)
  {
    var waits := Readiness.Waits(su.planned.vmNames, _ => n => Readiness.Turn(false, n, Readiness.Phase(true), false), 0, 1);
    assert Readiness.WaitInv(waits, Readiness.Begin(waits));
    var steps, end := Readiness.FinishWait(waits, Readiness.Begin(waits));
    wait := Wait(waits, steps, end);
  }

  /** Before Run has returned some step other than a cancellation is possible. */
  lemma NeverStuck(su: Setup, st: State) returns (step: Step)
    requires Sized(su, st) && !st.stage.Returned?
    requires st.stage.CreatingServices? ==> forall name <- st.stage.todo :: HasService(su, name)
    ensures !step.CancelContext? && Enabled(su, st, step)
  {
    match st.stage {
      case Namespacing => step := NamespaceStep(Resources.Ensuring(Delivered, false, Delivered));
      case CreatingServices(todo) =>
        if todo == {} {
          step := ServicesDone;
        } else {
          var name :| name in todo;
          step := CreateService(name, Delivered);
        }
      case CreatingSecrets =>
        if Joined(st.secrets) {
          step := JoinSecrets;
        } else {
          var i := GroupMovesOn(st.secrets, SECRET_LIMIT);
          step := if st.secrets[i].Running? then CallSecret(i, Delivered) else SpawnSecret(i);
        }
      case CreatingVMs =>
        if Joined(st.vms) {
          step := JoinVMs;
        } else {
          var i := GroupMovesOn(st.vms, su.vmLimit);
          step := if st.vms[i].Running? then CallVM(i, Delivered) else SpawnVM(i);
        }
      case Waiting =>
        if su.waitForReady {
          var wait := SomeWait(su);
          step := WaitEnds(wait);
        } else {
          step := WaitSkipped;
        }
    }
  }

  // ---------------------------------------------------------------------
  // Every step brings the end closer
  // ---------------------------------------------------------------------

  function TaskWeight(t: Task): nat {
    match t
    case Idle => 8
    case Running(attempt) => if attempt <= 5 then 7 - attempt else 1
    case _ => 0
  }

  function Weight(tasks: seq<Task>): nat {
    if tasks == [] then 0 else TaskWeight(tasks[0]) + Weight(tasks[1..])
  }

  function StageWeight(su: Setup, stage: Stage): nat {
    match stage
    case Namespacing => 6 + |su.planned.instances|
    case CreatingServices(todo) => 5 + |todo|
    case CreatingSecrets => 4
    case CreatingVMs => 3
    case Waiting => 2
    case Returned(_) => 0
  }

  function Measure(su: Setup, st: State): nat {
    StageWeight(su, st.stage) + Weight(st.secrets) + Weight(st.vms) + if st.stopped then 0 else 1
  }

  lemma {:induction false} WeightAfter(tasks: seq<Task>, i: nat, t: Task)
    requires i < |tasks|
    ensures Weight(tasks[i := t]) == Weight(tasks) - TaskWeight(tasks[i]) + TaskWeight(t)
  {
    if i == 0 {
      assert tasks[i := t][1..] == tasks[1..];
    } else {
      assert tasks[i := t][1..] == tasks[1..][i - 1 := t];
      WeightAfter(tasks[1..], i - 1, t);
    }
  }

  lemma ServiceStepsMove(su: Setup, st: State, step: Step)
    requires Sized(su, st) && Enabled(su, st, step) && (step.CreateService? || step.NamespaceStep?)
    ensures var next := Next(su, st, step);
            StageWeight(su, next.stage) < StageWeight(su, st.stage) && next.stopped == st.stopped
  {
    ServicesAreInstances(su);
    hide NamespaceCalled, ServiceCalled, ServiceNames, HasService, WaitDone;
  }

  lemma OtherStepsMove(su: Setup, st: State, step: Step)
    requires Sized(su, st) && Enabled(su, st, step) && !RunSafety.OnSecret(step) && !RunSafety.OnVM(step)
    ensures var next := Next(su, st, step);
            if step.CancelContext? then next.stage == st.stage && !st.stopped && next.stopped
            else StageWeight(su, next.stage) < StageWeight(su, st.stage) && next.stopped == st.stopped
  {
    if step.CreateService? || step.NamespaceStep? {
      ServiceStepsMove(su, st, step);
    } else {
      PlainStepsMove(su, st, step);
    }
    hide Next, Enabled;
  }

  lemma PlainStepsMove(su: Setup, st: State, step: Step)
    requires Sized(su, st) && Enabled(su, st, step) && !RunSafety.OnSecret(step) && !RunSafety.OnVM(step)
    requires !step.CreateService? && !step.NamespaceStep?
    ensures var next := Next(su, st, step);
            if step.CancelContext? then next.stage == st.stage && !st.stopped && next.stopped
            else StageWeight(su, next.stage) < StageWeight(su, st.stage) && next.stopped == st.stopped
  {
    hide Joined, AllDone, WaitDone, Readiness.AllReady;
  }

  lemma ServicesAreInstances(su: Setup)
    ensures |ServiceNames(su)| <= |su.planned.instances|
  {
    SubsetSize(ServiceNames(su), su.planned.instances.Keys);
  }

  lemma {:induction false} SubsetSize<T>(s: set<T>, t: set<T>)
    requires s <= t
    ensures |s| <= |t|
  {
    if s != {} {
      var x :| x in s;
      SubsetSize(s - {x}, t - {x});
    }
  }

  lemma TaskMoves(su: Setup, st: State, step: Step)
    requires Sized(su, st) && Enabled(su, st, step)
    ensures var next := Next(su, st, step);
            && (RunSafety.OnSecret(step) ==> TaskWeight(next.secrets[step.i]) < TaskWeight(st.secrets[step.i]))
            && (RunSafety.OnVM(step) ==> TaskWeight(next.vms[step.i]) < TaskWeight(st.vms[step.i]))
  {
    hide SecretCalled, VMCalled, NamespaceCalled, ServiceCalled, Joined, AllDone, AllStarted, Active, HasService, WaitDone;
  }

  lemma StepMovesOn(su: Setup, st: State, step: Step)
    requires Sized(su, st) && Enabled(su, st, step)
    ensures Measure(su, Next(su, st, step)) < Measure(su, st)
  {
    var next := Next(su, st, step);
    RunSafety.StepMovesOneTask(su, st, step);
    TaskMoves(su, st, step);
    hide Next, Enabled, TaskWeight, StageWeight, Weight;
    if RunSafety.OnSecret(step) {
      RunSafety.TaskStepsStay(su, st, step);
      WeightAfter(st.secrets, step.i, next.secrets[step.i]);
    } else if RunSafety.OnVM(step) {
      RunSafety.TaskStepsStay(su, st, step);
      WeightAfter(st.vms, step.i, next.vms[step.i]);
    } else {
      OtherStepsMove(su, st, step);
    }
  }

  lemma {:induction false} StepsAreBounded(su: Setup, st: State, steps: seq<Step>, st': State)
    requires Sized(su, st) && Leads(su, st, steps, st')
    ensures |steps| + Measure(su, st') <= Measure(su, st)
    decreases |steps|
  {
    hide Measure;
    if steps != [] {
      StepMovesOn(su, st, steps[0]);
      StepsAreBounded(su, Next(su, st, steps[0]), steps[1..], st');
    }
  }

  lemma {:induction false} IdleWeight(n: nat)
    ensures Weight(seq(n, _ => Idle)) == 8 * n
  {
    if n > 0 {
      assert seq(n, _ => Idle)[1..] == seq(n - 1, _ => Idle);
      IdleWeight(n - 1);
    }
  }

  /** A run with `p` planned VMs and `w` workloads takes at most 16p + w + 7 steps, retries and cancellation included. */
  lemma EveryRunEnds(su: Setup, s0: Store, steps: seq<Step>, st: State)
    requires Leads(su, Init(su, s0), steps, st)
    ensures |steps| <= 16 * |su.planned.plans| + |su.planned.instances| + 7
  {
    StepsAreBounded(su, Init(su, s0), steps, st);
    IdleWeight(|su.planned.plans|);
  }

  /** A run that cannot go on, other than by being cancelled, has returned. */
  lemma StuckMeansReturned(su: Setup, s0: Store, steps: seq<Step>, st: State)
    requires Leads(su, Init(su, s0), steps, st) && Sized(su, st)
    requires forall step: Step :: Enabled(su, st, step) ==> step.CancelContext?
    ensures st.stage.Returned?
  {
    TodoAreServices(su, Init(su, s0), steps, st);
    if !st.stage.Returned? {
      var step := NeverStuck(su, st);
    }
  }

  predicate TodoHasServices(su: Setup, st: State) {
    st.stage.CreatingServices? ==> forall name <- st.stage.todo :: HasService(su, name)
  }

  lemma TodoKeepsServices(su: Setup, st: State, step: Step)
    requires Sized(su, st) && TodoHasServices(su, st) && Enabled(su, st, step)
    ensures TodoHasServices(su, Next(su, st, step))
  {
    hide NamespaceCalled, ServiceCalled, SecretCalled, VMCalled, Joined, AllDone, AllStarted, Active, HasService, WaitDone,
         Readiness.AllReady;
    assert forall name <- ServiceNames(su) :: HasService(su, name);
  }

  lemma {:induction false} TodoAreServices(su: Setup, st: State, steps: seq<Step>, st': State)
    requires Sized(su, st) && TodoHasServices(su, st) && Leads(su, st, steps, st')
    ensures Sized(su, st') && TodoHasServices(su, st')
    decreases |steps|
  {
    hide Enabled, Next, TodoHasServices;
    if steps != [] {
      TodoKeepsServices(su, st, steps[0]);
      TodoAreServices(su, Next(su, st, steps[0]), steps[1..], st');
    }
  }

  // ---------------------------------------------------------------------
  // One goroutine
  // ---------------------------------------------------------------------

  /** Goroutine `i` alone from attempt `n` on, under the script that CreateVM is given. */
  function Turns(su: Setup, st: State, i: nat, script: nat -> Retry.Attempt, n: nat): (end: State)
    requires Sized(su, st) && i < |st.vms| && st.vms[i] == Running(n) && n <= Retry.DEFAULT_MAX_RETRIES
    ensures Sized(su, end)
    decreases Retry.DEFAULT_MAX_RETRIES - n
  {
    var begun := st.(stopped := st.stopped || script(n).cancelled);
    var called := VMCalled(su, begun, i, script(n).fault);
    if !called.vms[i].Running? then called
    else Turns(su, called.(stopped := script(n).interrupted), i, script, n + 1)
  }

  /** Turn by turn, the goroutine leaves what CreateVM's retry loop leaves, and succeeds when it does. */
  lemma {:induction false} TurnsAreAttempts(su: Setup, st: State, i: nat, vm: Object, script: nat -> Retry.Attempt,
                                            n: nat, base: nat)
    requires Sized(su, st) && i < |st.vms| && st.vms[i] == Running(n) && n <= Retry.DEFAULT_MAX_RETRIES
    requires !st.stopped && !st.groupStopped
    requires BuildVM(su, i, st.secretNames[i]) == DiskWiring.Built(vm)
    ensures var r := Retry.Attempts(Retry.CreateVM(vm), st.store, VMKey(su, i), script, n, Retry.DEFAULT_MAX_RETRIES, base);
            var end := Turns(su, st, i, script, n);
            && end.store == r.store
            && end.vms[i] == (if r.outcome.Succeeded? then Done else Errored)
            && end.groupStopped == !r.outcome.Succeeded?
    decreases Retry.DEFAULT_MAX_RETRIES - n
  {
    hide BuildVM, VMKey, ServeCreate;
    Retry.AttemptsUnfold(Retry.CreateVM(vm), st.store, VMKey(su, i), script, n, Retry.DEFAULT_MAX_RETRIES, base);
    hide Retry.Attempts;
    var called := VMCalled(su, st, i, script(n).fault);
    if !script(n).cancelled && called.vms[i].Running? && !script(n).interrupted {
      TurnsAreAttempts(su, called, i, vm, script, n + 1, base);
    }
  }
}
