/**
 What every reachable state of a run keeps, whatever is interleaved, fails, is
 lost or is cancelled.
 */
module RunSafety {
  import opened Cluster
  import opened Planner
  import opened Resources
  import opened RunProtocol
  import DiskWiring
  import Readiness

  // ---------------------------------------------------------------------
  // The invariant
  // ---------------------------------------------------------------------

  /**
   From `s` to `s'` nothing but the run's namespace object has changed, and
   everything new is an object of this run.
   */
  ghost predicate Grown(su: Setup, s: Store, s': Store) {
    && (forall key <- s :: key in s' && (key != NamespaceKey(su) ==> s'[key] == s[key]))
    && (forall key <- s' | key !in s && key != NamespaceKey(su) :: Made(su, key, s'[key]))
  }

  /** A finished secret goroutine has left the secret in the store and its name in the plan. */
  predicate SecretsRecorded(su: Setup, st: State)
    requires Sized(su, st)
  {
    forall i: nat | i < |st.secrets| ::
      if st.secrets[i].Done? then
        && st.secretNames[i] == SecretName(su, i) && SecretFor(su, i).key in st.store
        && |su.planned.plans[i].userdata| <= MAX_SECRET_DATA_SIZE
      else st.secretNames[i] == ""
  }

  predicate NoVMWork(st: State) { NoWork(st.vms) }

  /** VM goroutines exist only when every secret goroutine has succeeded. */
  predicate Barrier(st: State) {
    && ((st.stage.CreatingVMs? || st.stage.Waiting?) ==> AllDone(st.secrets))
    && (NoVMWork(st) || AllDone(st.secrets))
    && ((st.stage.Namespacing? || st.stage.CreatingServices? || st.stage.CreatingSecrets?) ==> NoVMWork(st))
  }

  predicate WithinLimits(su: Setup, st: State) {
    && Active(st.secrets) <= SECRET_LIMIT
    && (su.vmLimit > 0 ==> Active(st.vms) <= su.vmLimit)
  }

  /** Each new VM boots from the secret named after it and from no other, and that secret exists. */
  ghost predicate VMsHaveSecrets(s0: Store, s: Store) {
    forall key <- s | key !in s0 && key.kind.VirtualMachine? ::
      && s[key].spec.VMSpec?
      && DiskWiring.CloudInitSecrets(s[key].spec) == {key.name + "-cloudinit"}
      && Key(Secret, key.namespace, key.name + "-cloudinit") in s
  }

  /** The stage is past the creation of this service, on the way to success. */
  predicate ServiceIsDue(st: State, name: string) {
    match st.stage
    case Namespacing => false
    case CreatingServices(todo) => name !in todo
    case Returned(end) => end.Deployed?
    case _ => true
  }

  predicate ServicesMade(su: Setup, st: State) {
    forall name <- su.planned.instances | HasService(su, name) && ServiceIsDue(st, name) ::
      ServiceFor(su, name).key in st.store
  }

  predicate VMsMade(su: Setup, st: State)
    requires Sized(su, st)
  {
    forall i: nat | i < |st.vms| && st.vms[i].Done? ::
      VMKey(su, i) in st.store && BuildVM(su, i, SecretName(su, i)).Built?
  }

  predicate SuccessIsComplete(st: State) {
    (st.stage.Waiting? || st.stage == Returned(Deployed)) ==> AllDone(st.secrets) && AllDone(st.vms)
  }

  /** Whether and how the run has waited, against how it has returned. */
  ghost predicate WaitTells(su: Setup, st: State) {
    && (st.wait.Some? ==> WaitDone(su, st.wait.value))
    && match st.stage
       case Returned(Deployed) =>
         if su.waitForReady then st.wait.Some? && Readiness.AllReady(st.wait.value.end.results) else st.wait.None?
       case Returned(NotReady) =>
         su.waitForReady && st.wait.Some? && !Readiness.AllReady(st.wait.value.end.results)
       case _ => st.wait.None?
  }

  /** What has happened when the run is at this stage, or has come back in this way. */
  predicate StageTells(st: State) {
    match st.stage
    case Namespacing => NoWork(st.secrets) && NoWork(st.vms)
    case CreatingServices(_) => NoWork(st.secrets) && NoWork(st.vms)
    case CreatingVMs => (exists t <- st.vms :: t.Errored?) ==> st.groupStopped
    case Returned(ResourcesFailed) => NoWork(st.secrets) && NoWork(st.vms)
    case Returned(SecretsFailed) => Joined(st.secrets) && (exists t <- st.secrets :: t.Errored?) && NoWork(st.vms)
    case Returned(VMsFailed) => AllDone(st.secrets) && Joined(st.vms) && exists t <- st.vms :: t.Errored?
    case Returned(NotReady) => AllDone(st.secrets) && AllDone(st.vms)
    case _ => true
  }

  predicate NoWork(tasks: seq<Task>) {
    forall t <- tasks :: t.Idle?
  }

  /** A group's goroutines are started from the first to the last. */
  predicate InOrder(tasks: seq<Task>) {
    forall i, j | 0 <= i < j < |tasks| && !tasks[j].Idle? :: !tasks[i].Idle?
  }

  /** Past its first stage the run has its namespace, labelled as managed. */
  predicate NamespaceReady(su: Setup, st: State) {
    st.stage.Namespacing? || st.stage == Returned(ResourcesFailed) || (
      && NamespaceKey(su) in st.store
      && LABEL_MANAGED_BY in st.store[NamespaceKey(su)].labels
      && st.store[NamespaceKey(su)].labels[LABEL_MANAGED_BY] == MANAGED_BY_VALUE)
  }

  function DoneCount(tasks: seq<Task>): nat {
    if tasks == [] then 0 else (if tasks[0].Done? then 1 else 0) + DoneCount(tasks[1..])
  }

  /** The counters that go into the run's result. */
  predicate Counted(su: Setup, st: State) {
    && st.secretsCreated == DoneCount(st.secrets)
    && match st.stage
       case Namespacing => st.servicesCreated == 0
       case CreatingServices(todo) => todo <= ServiceNames(su) && st.servicesCreated + |todo| == |ServiceNames(su)|
       case Returned(end) => end.Deployed? ==> st.servicesCreated == |ServiceNames(su)|
       case _ => st.servicesCreated == |ServiceNames(su)|
  }

  ghost predicate Inv(su: Setup, s0: Store, st: State) {
    && Sized(su, st)
    && Grown(su, s0, st.store)
    && SecretsRecorded(su, st)
    && Barrier(st)
    && WithinLimits(su, st)
    && VMsHaveSecrets(s0, st.store)
    && ServicesMade(su, st) && VMsMade(su, st)
    && SuccessIsComplete(st)
    && Counted(su, st)
    && WaitTells(su, st)
    && StageTells(st) && NamespaceReady(su, st)
    && InOrder(st.secrets) && InOrder(st.vms)
  }

  // ---------------------------------------------------------------------
  // The objects of a run carry its labels
  // ---------------------------------------------------------------------

  predicate Ours(su: Setup, key: Key, o: Object) {
    && key.namespace == su.input.config.namespace
    && key.kind in {VirtualMachine, Service, Secret}
    && LABEL_MANAGED_BY in o.labels && o.labels[LABEL_MANAGED_BY] == MANAGED_BY_VALUE
    && LABEL_RUN_ID in o.labels && o.labels[LABEL_RUN_ID] == su.input.runID
  }

  lemma MadeIsOurs(su: Setup, key: Key, o: Object)
    requires ValidSetup(su) && Made(su, key, o)
    ensures Ours(su, key, o)
  {
    if name: string :| HasService(su, name) && ServiceFor(su, name) == NamedObject(key, o) {
      ServiceIsOurs(su, name);
    } else if i: nat :| i < |su.planned.plans| && SecretFor(su, i) == NamedObject(key, o) {
      SecretIsOurs(su, i);
    } else {
      var i: nat :| i < |su.planned.plans| && IsVMFor(su, i, key, o);
      VMIsOurs(su, i, key, o);
    }
  }

  lemma ServiceIsOurs(su: Setup, name: string)
    requires HasService(su, name)
    ensures var svc := ServiceFor(su, name);
            Ours(su, svc.key, svc.obj) && svc.key.kind == Service
  {
    LabelsDiffer();
  }

  lemma SecretIsOurs(su: Setup, i: nat)
    requires i < |su.planned.plans|
    ensures var secret := SecretFor(su, i);
            Ours(su, secret.key, secret.obj)
  {
    LabelsDiffer();
  }

  lemma VMIsOurs(su: Setup, i: nat, key: Key, o: Object)
    requires ValidSetup(su) && i < |su.planned.plans| && IsVMFor(su, i, key, o)
    ensures Ours(su, key, o)
  {
    LabelsDiffer();
    PlanningConserves(su.input, su.names, "");
    hide PlanNames;
    assert PlannedFor(su.planned.plans[i], su.input);
  }

  /** A VM built for its own secret refers to that secret and to no other. */
  lemma OwnSecretOnly(su: Setup, i: nat)
    requires ValidSetup(su) && i < |su.planned.plans|
    ensures var b := BuildVM(su, i, SecretName(su, i));
            b.Built? ==> b.vm.spec.VMSpec? && DiskWiring.CloudInitSecrets(b.vm.spec) == {SecretName(su, i)}
  {
    var plan := su.planned.plans[i];
    PlanningConserves(su.input, su.names, "");
    hide PlanNames;
    assert PlannedFor(plan, su.input);
    PlanIsWired(su.input, plan, su.isQuantity);
    hide DiskWiring.WellWired, DiskWiring.BuildVMSpec;
    DiskWiring.OneCloudInitSecret(plan.vm.(secretName := SecretName(su, i)), su.isQuantity);
  }

  // ---------------------------------------------------------------------
  // Each step keeps the invariant
  // ---------------------------------------------------------------------

  lemma GrownTransitive(su: Setup, s: Store, s': Store, s'': Store)
    requires Grown(su, s, s') && Grown(su, s', s'')
    ensures Grown(su, s, s'')
  {
    hide Made, NamespaceKey;
  }

  lemma CreateGrows(su: Setup, s: Store, key: Key, o: Object, f: Fault)
    requires Made(su, key, o)
    ensures Grown(su, s, ServeCreate(s, key, o, f).store)
    ensures Settled(ServeCreate(s, key, o, f).reply) ==> key in ServeCreate(s, key, o, f).store
    ensures ServeCreate(s, key, o, f).store.Keys <= s.Keys + {key}
  {
    hide Made, NamespaceKey;
  }

  lemma NothingGrows(su: Setup, s: Store)
    ensures Grown(su, s, s)
  {
  }

  lemma NamespaceGrows(su: Setup, s: Store, calls: Ensuring)
    ensures Grown(su, s, NamespaceEnsured(su, s, calls).store)
  {
    hide Made, MergedLabels;
  }

  lemma VMIsMade(su: Setup, i: nat, key: Key, o: Object)
    requires i < |su.planned.plans| && IsVMFor(su, i, key, o)
    ensures Made(su, key, o)
  {
  }

  /** One turn of a VM goroutine leaves the store alone, or asks for the VM as planned. */
  lemma VMTurnGrows(su: Setup, st: State, i: nat, fault: Fault)
    requires Sized(su, st) && SecretsRecorded(su, st) && AllDone(st.secrets)
    requires i < |st.vms| && st.vms[i].Running?
    ensures Grown(su, st.store, VMCalled(su, st, i, fault).store)
  {
    hide ServeCreate, Grown, Made;
    assert st.secrets[i] in st.secrets;
    var built := BuildVM(su, i, SecretName(su, i));
    hide BuildVM;
    NothingGrows(su, st.store);
    if built.Built? {
      VMIsMade(su, i, VMKey(su, i), built.vm);
      CreateGrows(su, st.store, VMKey(su, i), built.vm, fault);
    }
  }

  lemma ServiceGrows(su: Setup, st: State, name: string, fault: Fault)
    requires st.stage.CreatingServices? && HasService(su, name)
    ensures var next := ServiceCalled(su, st, name, fault);
            && Grown(su, st.store, next.store)
            && (next.stage.CreatingServices? ==> ServiceFor(su, name).key in next.store)
            && (forall key <- next.store | key !in st.store :: key.kind.Service?)
  {
    ServiceIsOurs(su, name);
    var svc := ServiceFor(su, name);
    hide ServiceFor, Grown, ServeCreate;
    CreateGrows(su, st.store, svc.key, svc.obj, fault);
  }

  lemma SecretGrows(su: Setup, st: State, i: nat, fault: Fault)
    requires |st.secrets| == |st.secretNames| == |su.planned.plans| && i < |st.secrets|
    ensures var next := SecretCalled(su, st, i, fault);
            && Grown(su, st.store, next.store)
            && (next.secrets[i].Done? ==>
                  && SecretFor(su, i).key in next.store && next.secretNames[i] == SecretName(su, i)
                  && |su.planned.plans[i].userdata| <= MAX_SECRET_DATA_SIZE)
            && (!next.secrets[i].Done? ==> next.secretNames[i] == st.secretNames[i])
            && (forall key <- next.store | key !in st.store :: key.kind.Secret?)
  {
    NothingGrows(su, st.store);
    var secret := SecretFor(su, i);
    assert secret.key.kind == Secret;
    hide SecretFor, Grown, ServeCreate;
    CreateGrows(su, st.store, secret.key, secret.obj, fault);
  }

  lemma StepGrows(su: Setup, s0: Store, st: State, step: Step)
    requires Inv(su, s0, st) && Enabled(su, st, step)
    ensures Grown(su, st.store, Next(su, st, step).store)
  {
    NothingGrows(su, st.store);
    hide Grown, NamespaceCalled, ServiceCalled, SecretCalled, VMCalled;
    match step
    case NamespaceStep(calls) =>
      NamespaceGrows(su, st.store, calls);
      NamespaceCalledStore(su, st, calls);
    case CreateService(name, fault) => ServiceGrows(su, st, name, fault);
    case CallSecret(i, fault) => SecretGrows(su, st, i, fault);
    case CallVM(i, fault) => VMTurnGrows(su, st, i, fault);
    case _ =>
  }

  lemma NamespaceCalledStore(su: Setup, st: State, calls: Ensuring)
    ensures NamespaceCalled(su, st, calls).store == NamespaceEnsured(su, st.store, calls).store
  {
  }

  lemma {:induction false} ActiveAfter(tasks: seq<Task>, i: nat, t: Task)
    requires i < |tasks|
    ensures Active(tasks[i := t]) == Active(tasks) - (if tasks[i].Running? then 1 else 0) + (if t.Running? then 1 else 0)
  {
    if i == 0 {
      assert tasks[i := t][1..] == tasks[1..];
    } else {
      assert tasks[i := t][1..] == tasks[1..][i - 1 := t];
      ActiveAfter(tasks[1..], i - 1, t);
    }
  }

  predicate OnSecret(step: Step) { step.SpawnSecret? || step.CallSecret? }

  predicate OnVM(step: Step) { step.SpawnVM? || step.CallVM? }

  /** A step moves at most one task, and none of the other group. */
  lemma StepMovesOneTask(su: Setup, st: State, step: Step)
    requires Sized(su, st) && Enabled(su, st, step)
    ensures var next := Next(su, st, step);
            if OnSecret(step) then
              && step.i < |st.secrets| && next.vms == st.vms
              && next.secrets == st.secrets[step.i := next.secrets[step.i]]
              && !next.secrets[step.i].Idle?
            else if OnVM(step) then
              && step.i < |st.vms| && next.secrets == st.secrets && next.secretNames == st.secretNames
              && next.vms == st.vms[step.i := next.vms[step.i]]
              && !next.vms[step.i].Idle?
            else next.secrets == st.secrets && next.vms == st.vms && next.secretNames == st.secretNames
  {
    hide NamespaceCalled, ServiceCalled, SecretCalled, VMCalled, AllStarted, Joined, AllDone, Active;
  }

  lemma SpawnHasRoom(su: Setup, st: State, step: Step)
    requires Sized(su, st) && Enabled(su, st, step)
    ensures step.SpawnSecret? ==> Active(st.secrets) < SECRET_LIMIT && st.secrets[step.i].Idle?
    ensures step.SpawnVM? ==> (su.vmLimit > 0 ==> Active(st.vms) < su.vmLimit) && st.vms[step.i].Idle?
    ensures step.CallSecret? ==> st.secrets[step.i].Running?
    ensures step.CallVM? ==> st.vms[step.i].Running?
  {
    hide AllStarted, Joined, Active, WaitDone;
  }

  lemma StepKeepsLimits(su: Setup, st: State, step: Step)
    requires Sized(su, st) && WithinLimits(su, st) && Enabled(su, st, step)
    ensures WithinLimits(su, Next(su, st, step))
  {
    var next := Next(su, st, step);
    StepMovesOneTask(su, st, step);
    SpawnHasRoom(su, st, step);
    hide Next, Active, Enabled;
    if OnSecret(step) {
      ActiveAfter(st.secrets, step.i, next.secrets[step.i]);
    } else if OnVM(step) {
      ActiveAfter(st.vms, step.i, next.vms[step.i]);
    }
  }

  lemma {:induction false} DoneAfter(tasks: seq<Task>, i: nat, t: Task)
    requires i < |tasks|
    ensures DoneCount(tasks[i := t]) == DoneCount(tasks) - (if tasks[i].Done? then 1 else 0) + (if t.Done? then 1 else 0)
  {
    if i == 0 {
      assert tasks[i := t][1..] == tasks[1..];
    } else {
      assert tasks[i := t][1..] == tasks[1..][i - 1 := t];
      DoneAfter(tasks[1..], i - 1, t);
    }
  }

  lemma TaskStepsStay(su: Setup, st: State, step: Step)
    requires Sized(su, st) && Enabled(su, st, step) && (OnSecret(step) || OnVM(step))
    ensures var next := Next(su, st, step);
            && next.stage == st.stage && next.stopped == st.stopped && next.wait == st.wait
            && next.servicesCreated == st.servicesCreated
            && (OnVM(step) ==> next.secretsCreated == st.secretsCreated)
  {
    hide SecretCalled, VMCalled, AllStarted, Active;
  }

  lemma SecretCounted(su: Setup, st: State, step: Step)
    requires Sized(su, st) && Enabled(su, st, step) && OnSecret(step)
    ensures var next := Next(su, st, step);
            && next.secretsCreated == st.secretsCreated + (if next.secrets[step.i].Done? then 1 else 0)
            && !st.secrets[step.i].Done?
  {
    hide SecretCalled, AllStarted, Active;
  }

  lemma ServiceStepCounted(su: Setup, st: State, name: string, fault: Fault)
    requires st.stage.CreatingServices? && name in st.stage.todo && HasService(su, name) && Counted(su, st)
    ensures Counted(su, ServiceCalled(su, st, name, fault))
  {
    hide ServiceCalled, ServiceNames, HasService, DoneCount;
  }

  lemma StageStepCounted(su: Setup, st: State, step: Step)
    requires Sized(su, st) && Enabled(su, st, step) && Counted(su, st) && !OnSecret(step) && !OnVM(step)
    ensures Counted(su, Next(su, st, step))
  {
    hide NamespaceCalled, ServiceCalled, ServiceNames, HasService, Joined, AllDone, DoneCount, WaitDone, Readiness.AllReady;
    if step.CreateService? {
      ServiceStepCounted(su, st, step.name, step.fault);
      hide Counted;
    }
  }

  lemma StepKeepsCounts(su: Setup, s0: Store, st: State, step: Step)
    requires Inv(su, s0, st) && Enabled(su, st, step)
    ensures Counted(su, Next(su, st, step))
  {
    if OnSecret(step) {
      StepMovesOneTask(su, st, step);
      DoneAfter(st.secrets, step.i, Next(su, st, step).secrets[step.i]);
      SecretCounted(su, st, step);
      TaskStepsStay(su, st, step);
    } else if OnVM(step) {
      StepMovesOneTask(su, st, step);
      TaskStepsStay(su, st, step);
    } else {
      StageStepCounted(su, st, step);
    }
    hide Next, Enabled, ServiceNames, DoneCount, Grown, VMsHaveSecrets, SecretsRecorded, ServicesMade, VMsMade, Barrier,
         WithinLimits, SuccessIsComplete;
  }

  lemma TaskKeepsBarrier(su: Setup, st: State, step: Step)
    requires Sized(su, st) && Enabled(su, st, step) && (OnSecret(step) || OnVM(step))
    requires Barrier(st) && SuccessIsComplete(st)
    ensures Barrier(Next(su, st, step)) && SuccessIsComplete(Next(su, st, step))
  {
    StepMovesOneTask(su, st, step);
    TaskStepsStay(su, st, step);
    hide Next, Active, AllStarted;
  }

  lemma StageKeepsBarrier(su: Setup, st: State, step: Step)
    requires Sized(su, st) && Enabled(su, st, step) && !(OnSecret(step) || OnVM(step))
    requires Barrier(st) && SuccessIsComplete(st)
    ensures Barrier(Next(su, st, step)) && SuccessIsComplete(Next(su, st, step))
  {
    StepMovesOneTask(su, st, step);
    hide NamespaceCalled, ServiceCalled, ServiceNames, WaitDone, Readiness.AllReady;
  }

  lemma StepKeepsBarrier(su: Setup, s0: Store, st: State, step: Step)
    requires Inv(su, s0, st) && Enabled(su, st, step)
    ensures Barrier(Next(su, st, step)) && SuccessIsComplete(Next(su, st, step))
  {
    hide Next, Barrier, SuccessIsComplete, Grown, VMsHaveSecrets, SecretsRecorded, ServicesMade, VMsMade, Counted,
         WithinLimits, Enabled;
    if OnSecret(step) || OnVM(step) {
      TaskKeepsBarrier(su, st, step);
    } else {
      StageKeepsBarrier(su, st, step);
    }
  }

  lemma SecretStepRecords(su: Setup, st: State, step: Step)
    requires Sized(su, st) && SecretsRecorded(su, st) && Enabled(su, st, step) && OnSecret(step)
    requires Grown(su, st.store, Next(su, st, step).store)
    ensures SecretsRecorded(su, Next(su, st, step))
  {
    hide SecretFor, SecretCalled, AllStarted, Active, Made;
    if step.CallSecret? {
      SecretGrows(su, st, step.i, step.fault);
    }
  }

  lemma StepKeepsSecrets(su: Setup, s0: Store, st: State, step: Step)
    requires Inv(su, s0, st) && Enabled(su, st, step)
    ensures SecretsRecorded(su, Next(su, st, step))
  {
    StepGrows(su, s0, st, step);
    StepMovesOneTask(su, st, step);
    if OnSecret(step) {
      SecretStepRecords(su, st, step);
    }
    hide Next, Enabled, SecretFor, Made, VMsHaveSecrets, Barrier, ServicesMade, VMsMade, WithinLimits, Counted, WaitTells,
         InOrder, StageTells, NamespaceReady, SuccessIsComplete;
  }

  lemma StageStepMakesServices(su: Setup, st: State, step: Step)
    requires Sized(su, st) && ServicesMade(su, st) && Enabled(su, st, step) && !OnSecret(step) && !OnVM(step)
    requires Grown(su, st.store, Next(su, st, step).store)
    ensures ServicesMade(su, Next(su, st, step))
  {
    hide ServiceFor, NamespaceCalled, ServiceCalled, HasService, Made, Joined, AllDone, WaitDone, Readiness.AllReady;
    if step.CreateService? {
      ServiceGrows(su, st, step.name, step.fault);
    }
    assert forall name <- su.planned.instances | HasService(su, name) :: name in ServiceNames(su);
  }

  lemma StepKeepsServices(su: Setup, s0: Store, st: State, step: Step)
    requires Inv(su, s0, st) && Enabled(su, st, step)
    ensures ServicesMade(su, Next(su, st, step))
  {
    StepGrows(su, s0, st, step);
    if OnSecret(step) || OnVM(step) {
      TaskStepsStay(su, st, step);
    } else {
      StageStepMakesServices(su, st, step);
    }
    hide Next, Enabled, ServiceFor, HasService, Made, VMsHaveSecrets, Barrier, SecretsRecorded, VMsMade, WithinLimits, Counted,
         WaitTells;
  }

  lemma VMDone(su: Setup, st: State, i: nat, fault: Fault)
    requires Sized(su, st) && i < |st.vms| && st.vms[i].Running? && st.secretNames[i] == SecretName(su, i)
    ensures var next := VMCalled(su, st, i, fault);
            next.vms[i].Done? ==> VMKey(su, i) in next.store && BuildVM(su, i, SecretName(su, i)).Built?
  {
    hide BuildVM, VMKey;
  }

  lemma VMStepMakes(su: Setup, st: State, step: Step)
    requires Sized(su, st) && VMsMade(su, st) && Enabled(su, st, step) && OnVM(step)
    requires forall i: nat | i < |st.secretNames| :: st.secretNames[i] == SecretName(su, i)
    requires Grown(su, st.store, Next(su, st, step).store)
    ensures VMsMade(su, Next(su, st, step))
  {
    hide VMCalled, BuildVM, VMKey, SecretName, AllStarted, Active, Made;
    if step.CallVM? {
      VMDone(su, st, step.i, step.fault);
    }
  }

  lemma NamesAreRecorded(su: Setup, st: State)
    requires Sized(su, st) && SecretsRecorded(su, st) && AllDone(st.secrets)
    ensures forall i: nat | i < |st.secretNames| :: st.secretNames[i] == SecretName(su, i)
  {
    hide SecretFor, SecretName;
    forall i: nat | i < |st.secretNames| ensures st.secretNames[i] == SecretName(su, i) {
      assert st.secrets[i] in st.secrets;
    }
  }

  lemma StepKeepsVMs(su: Setup, s0: Store, st: State, step: Step)
    requires Inv(su, s0, st) && Enabled(su, st, step)
    ensures VMsMade(su, Next(su, st, step))
  {
    StepGrows(su, s0, st, step);
    StepMovesOneTask(su, st, step);
    if OnVM(step) {
      NamesAreRecorded(su, st);
      VMStepMakes(su, st, step);
    }
    hide Next, Enabled, BuildVM, VMKey, Made, VMsHaveSecrets, Barrier, ServicesMade, WithinLimits, SecretsRecorded, Counted,
         WaitTells, InOrder, StageTells, NamespaceReady, SuccessIsComplete;
  }

  lemma NewVMsComeLast(su: Setup, s0: Store, st: State, step: Step, key: Key)
    requires Inv(su, s0, st) && Enabled(su, st, step)
    ensures key in Next(su, st, step).store && key !in st.store && key.kind.VirtualMachine? ==> AllDone(st.secrets)
  {
    if step.CallVM? {
      hide Next, Grown, VMsHaveSecrets, SecretsRecorded, ServicesMade, VMsMade, Counted, WithinLimits, WaitTells;
    } else if key.kind.VirtualMachine? {
      NoNewVM(su, st, step, key);
    }
  }

  lemma NoNewVM(su: Setup, st: State, step: Step, key: Key)
    requires Sized(su, st) && Enabled(su, st, step) && !step.CallVM? && key.kind.VirtualMachine?
    ensures key in Next(su, st, step).store ==> key in st.store
  {
    hide NamespaceCalled, ServiceCalled, SecretCalled, AllStarted, Joined, AllDone, Active, WaitDone, Readiness.AllReady;
    match step
    case NamespaceStep(calls) => NoNewVMWithNamespace(su, st, calls, key);
    case CreateService(name, fault) => ServiceGrows(su, st, name, fault);
    case CallSecret(i, fault) => SecretGrows(su, st, i, fault);
    case _ =>
  }

  lemma NoNewVMWithNamespace(su: Setup, st: State, calls: Ensuring, key: Key)
    requires key.kind.VirtualMachine?
    ensures key in NamespaceCalled(su, st, calls).store ==> key in st.store
  {
  }

  lemma StepKeepsWait(su: Setup, st: State, step: Step)
    requires Sized(su, st) && Enabled(su, st, step) && WaitTells(su, st)
    ensures WaitTells(su, Next(su, st, step))
  {
    if OnSecret(step) || OnVM(step) {
      TaskStepsStay(su, st, step);
      hide Next;
    } else {
      OtherStepsTell(su, st, step);
    }
  }

  lemma OtherStepsTell(su: Setup, st: State, step: Step)
    requires Sized(su, st) && Enabled(su, st, step) && WaitTells(su, st) && !OnSecret(step) && !OnVM(step)
    ensures WaitTells(su, Next(su, st, step))
  {
    hide NamespaceCalled, ServiceCalled, Joined, AllDone, WaitDone, Readiness.AllReady, ServiceNames;
  }

  lemma StepKeepsStage(su: Setup, s0: Store, st: State, step: Step)
    requires Inv(su, s0, st) && Enabled(su, st, step)
    ensures StageTells(Next(su, st, step))
  {
    StepMovesOneTask(su, st, step);
    if OnSecret(step) || OnVM(step) {
      TaskStepsStay(su, st, step);
      TaskStage(su, st, step);
      TaskStopsGroup(su, st, step);
      hide Next, Enabled;
    } else {
      OtherStepsStage(su, st, step);
    }
    hide Inv, StageTells;
  }

  lemma TaskStage(su: Setup, st: State, step: Step)
    requires Sized(su, st) && Enabled(su, st, step) && (OnSecret(step) || OnVM(step))
    ensures st.stage.CreatingSecrets? || st.stage.CreatingVMs?
  {
    hide AllStarted, Active;
  }

  lemma TaskStopsGroup(su: Setup, st: State, step: Step)
    requires Sized(su, st) && Enabled(su, st, step) && (OnSecret(step) || OnVM(step)) && StageTells(st)
    ensures st.stage.CreatingVMs? && (exists t <- Next(su, st, step).vms :: t.Errored?) ==> Next(su, st, step).groupStopped
  {
    hide AllStarted, Active, BuildVM, VMCalled, SecretCalled;
    var next := Next(su, st, step);
    if st.stage.CreatingVMs? && exists t <- next.vms :: t.Errored? {
      var j :| 0 <= j < |next.vms| && next.vms[j].Errored?;
      if j != step.i {
        assert st.vms[j] in st.vms;
      }
    }
  }

  lemma OtherStepsStage(su: Setup, st: State, step: Step)
    requires Sized(su, st) && Enabled(su, st, step) && !OnSecret(step) && !OnVM(step)
    requires StageTells(st) && Barrier(st) && SuccessIsComplete(st)
    ensures StageTells(Next(su, st, step))
  {
    hide NamespaceCalled, ServiceCalled, WaitDone, Readiness.AllReady, ServiceNames, HasService;
  }

  /** Only the namespace is ever changed, and only in the first step. */
  lemma StepsKeepObjects(su: Setup, st: State, step: Step)
    requires Sized(su, st) && Enabled(su, st, step) && !step.NamespaceStep?
    ensures forall key <- st.store :: key in Next(su, st, step).store && Next(su, st, step).store[key] == st.store[key]
  {
    hide AllStarted, Active, Joined, AllDone, WaitDone, Readiness.AllReady, BuildVM, ServiceFor, SecretFor, VMKey,
         NamespaceCalled, HasService, SecretName;
  }

  lemma MovingKeepsOrder(tasks: seq<Task>, i: nat, t: Task)
    requires i < |tasks| && InOrder(tasks) && !t.Idle? && forall j: nat | j < i :: !tasks[j].Idle?
    ensures InOrder(tasks[i := t])
  {
  }

  lemma MovesInOrder(su: Setup, st: State, step: Step)
    requires Sized(su, st) && Enabled(su, st, step) && InOrder(st.secrets) && InOrder(st.vms)
    ensures OnSecret(step) ==> step.i < |st.secrets| && forall j: nat | j < step.i :: !st.secrets[j].Idle?
    ensures OnVM(step) ==> step.i < |st.vms| && forall j: nat | j < step.i :: !st.vms[j].Idle?
  {
    hide Active, Joined, WaitDone;
  }

  lemma StepKeepsOrder(su: Setup, st: State, step: Step)
    requires Sized(su, st) && Enabled(su, st, step) && InOrder(st.secrets) && InOrder(st.vms)
    ensures InOrder(Next(su, st, step).secrets) && InOrder(Next(su, st, step).vms)
  {
    StepMovesOneTask(su, st, step);
    MovesInOrder(su, st, step);
    var next := Next(su, st, step);
    hide Next, Enabled, InOrder;
    if OnSecret(step) {
      MovingKeepsOrder(st.secrets, step.i, next.secrets[step.i]);
    } else if OnVM(step) {
      MovingKeepsOrder(st.vms, step.i, next.vms[step.i]);
    }
  }

  lemma StepKeepsNamespace(su: Setup, st: State, step: Step)
    requires Sized(su, st) && Enabled(su, st, step) && NamespaceReady(su, st)
    ensures NamespaceReady(su, Next(su, st, step))
  {
    if step.NamespaceStep? {
      EnsuringIsGentle(st.store, su.input.config.namespace, map[LABEL_MANAGED_BY := MANAGED_BY_VALUE], step.calls, step.calls);
      hide EnsuredNamespace, ServiceNames;
    } else {
      StepsKeepObjects(su, st, step);
      NotBackToStart(su, st, step);
      hide Next, Enabled;
    }
  }

  lemma NotBackToStart(su: Setup, st: State, step: Step)
    requires Sized(su, st) && Enabled(su, st, step) && !step.NamespaceStep?
    ensures var next := Next(su, st, step);
            next.stage.Namespacing? || next.stage == Returned(ResourcesFailed)
            || !(st.stage.Namespacing? || st.stage == Returned(ResourcesFailed))
  {
    hide ServiceCalled, SecretCalled, VMCalled, WaitDone, AllStarted, Active;
  }

  /** Growing keeps the VMs behind their secrets when it adds only VMs that are. */
  lemma GrowingKeepsSecrets(su: Setup, s0: Store, s: Store, s': Store)
    requires Grown(su, s, s') && VMsHaveSecrets(s0, s)
    requires forall key <- s' | key !in s && key.kind.VirtualMachine? ::
               && s'[key].spec.VMSpec? && DiskWiring.CloudInitSecrets(s'[key].spec) == {key.name + "-cloudinit"}
               && Key(Secret, key.namespace, key.name + "-cloudinit") in s'
    ensures VMsHaveSecrets(s0, s')
  {
    hide Made, DiskWiring.CloudInitSecrets;
  }

  lemma StepKeepsVMsBehindSecrets(su: Setup, s0: Store, st: State, step: Step)
    requires ValidSetup(su) && Inv(su, s0, st) && Enabled(su, st, step)
    ensures VMsHaveSecrets(s0, Next(su, st, step).store)
  {
    hide Next, Enabled, Made, DiskWiring.CloudInitSecrets, VMsHaveSecrets, ValidSetup, Barrier, SecretsRecorded, ServicesMade,
         VMsMade, WithinLimits, Counted, WaitTells;
    var s, s' := st.store, Next(su, st, step).store;
    StepGrows(su, s0, st, step);
    forall key <- s' | key !in s && key.kind.VirtualMachine?
      ensures s'[key].spec.VMSpec?
      ensures DiskWiring.CloudInitSecrets(s'[key].spec) == {key.name + "-cloudinit"}
      ensures Key(Secret, key.namespace, key.name + "-cloudinit") in s'
    {
      NewVMsComeLast(su, s0, st, step, key);
      NewVMHasSecret(su, s0, st, key, s'[key]);
    }
    GrowingKeepsSecrets(su, s0, s, s');
  }

  lemma NewVMHasSecret(su: Setup, s0: Store, st: State, key: Key, o: Object)
    requires ValidSetup(su) && Inv(su, s0, st) && AllDone(st.secrets)
    requires Made(su, key, o) && key.kind.VirtualMachine?
    ensures o.spec.VMSpec? && DiskWiring.CloudInitSecrets(o.spec) == {key.name + "-cloudinit"}
    ensures Key(Secret, key.namespace, key.name + "-cloudinit") in st.store
  {
    hide Barrier, WithinLimits, ServicesMade, VMsMade, VMsHaveSecrets, DiskWiring.CloudInitSecrets;
    hide DiskWiring.BuildVMSpec, Grown, ValidSetup;
    var i: nat :| i < |su.planned.plans| && IsVMFor(su, i, key, o);
    OwnSecretOnly(su, i);
    VMIsOurs(su, i, key, o);
    assert st.secrets[i] in st.secrets;
  }

  lemma StepKeeps(su: Setup, s0: Store, st: State, step: Step)
    requires ValidSetup(su) && Inv(su, s0, st) && Enabled(su, st, step)
    ensures Inv(su, s0, Next(su, st, step))
  {
    StepGrows(su, s0, st, step);
    GrownTransitive(su, s0, st.store, Next(su, st, step).store);
    StepKeepsSecrets(su, s0, st, step);
    StepKeepsBarrier(su, s0, st, step);
    StepKeepsLimits(su, st, step);
    StepKeepsVMsBehindSecrets(su, s0, st, step);
    StepKeepsServices(su, s0, st, step);
    StepKeepsVMs(su, s0, st, step);
    StepKeepsCounts(su, s0, st, step);
    StepKeepsWait(su, st, step);
    StepKeepsStage(su, s0, st, step);
    StepKeepsNamespace(su, st, step);
    StepKeepsOrder(su, st, step);
    hide InOrder, StageTells, NamespaceReady, WaitTells, Next, Grown, SecretsRecorded, Barrier, WithinLimits, VMsHaveSecrets,
         ServicesMade, VMsMade, SuccessIsComplete, Sized, Counted;
  }

  lemma {:induction false} NoneActive(tasks: seq<Task>)
    requires forall t <- tasks :: !t.Running?
    ensures Active(tasks) == 0
  {
    if tasks != [] {
      NoneActive(tasks[1..]);
    }
  }

  lemma {:induction false} NoneDone(n: nat)
    ensures DoneCount(seq(n, _ => Idle)) == 0
  {
    if n > 0 {
      assert seq(n, _ => Idle)[1..] == seq(n - 1, _ => Idle);
      NoneDone(n - 1);
    }
  }

  lemma {:induction false} EachDone(tasks: seq<Task>)
    requires AllDone(tasks)
    ensures DoneCount(tasks) == |tasks|
  {
    if tasks != [] {
      EachDone(tasks[1..]);
    }
  }

  lemma InitInv(su: Setup, s0: Store)
    ensures Inv(su, s0, Init(su, s0))
  {
    NoneActive(seq(|su.planned.plans|, _ => Idle));
    NoneDone(|su.planned.plans|);
    NothingGrows(su, s0);
    hide Grown, Made, HasService;
  }

  lemma {:induction false} StepsKeep(su: Setup, s0: Store, st: State, steps: seq<Step>, st': State)
    requires ValidSetup(su) && Inv(su, s0, st) && Leads(su, st, steps, st')
    ensures Inv(su, s0, st')
    decreases |steps|
  {
    if steps != [] {
      StepKeeps(su, s0, st, steps[0]);
      StepsKeep(su, s0, Next(su, st, steps[0]), steps[1..], st');
    }
  }

  // ---------------------------------------------------------------------
  // Whole runs
  // ---------------------------------------------------------------------

  /**
   In every state that any interleaving, failure, lost reply or cancellation
   can lead to: what was there before is untouched, the rest is labelled as
   this run's, every VM of the run boots from its own secret and that secret
   exists, no VM is begun before every secret is there, and the groups keep
   to their limits.
   */
  lemma EveryRunIsSafe(su: Setup, s0: Store, steps: seq<Step>, st: State)
    requires ValidSetup(su) && Leads(su, Init(su, s0), steps, st)
    ensures forall key <- s0 | key != NamespaceKey(su) :: key in st.store && st.store[key] == s0[key]
    ensures forall key <- st.store | key !in s0 && key != NamespaceKey(su) :: Ours(su, key, st.store[key])
    ensures VMsHaveSecrets(s0, st.store)
    ensures (exists t <- st.vms :: !t.Idle?) ==>
              AllDone(st.secrets) && forall i: nat | i < |su.planned.plans| :: SecretFor(su, i).key in st.store
    ensures forall i, j | 0 <= i < j < |st.secrets| && !st.secrets[j].Idle? :: !st.secrets[i].Idle?
    ensures forall i, j | 0 <= i < j < |st.vms| && !st.vms[j].Idle? :: !st.vms[i].Idle?
    ensures Active(st.secrets) <= 10 && (su.vmLimit > 0 ==> Active(st.vms) <= su.vmLimit)
  {
    hide Ours, ValidSetup;
    InitInv(su, s0);
    StepsKeep(su, s0, Init(su, s0), steps, st);
    forall key <- st.store | key !in s0 && key != NamespaceKey(su) ensures Ours(su, key, st.store[key]) {
      MadeIsOurs(su, key, st.store[key]);
    }
    if AllDone(st.secrets) {
      SecretsAreThere(su, s0, st);
    }
    hide Made, Leads, SecretsRecorded;
  }

  lemma SecretsAreThere(su: Setup, s0: Store, st: State)
    requires Inv(su, s0, st) && AllDone(st.secrets)
    ensures forall i: nat | i < |su.planned.plans| ::
              SecretFor(su, i).key in st.store && |su.planned.plans[i].userdata| <= MAX_SECRET_DATA_SIZE
  {
    hide Barrier, WithinLimits, ServicesMade, VMsMade, VMsHaveSecrets, Grown, SecretFor;
    forall i: nat | i < |su.planned.plans|
      ensures SecretFor(su, i).key in st.store && |su.planned.plans[i].userdata| <= MAX_SECRET_DATA_SIZE
    {
      assert st.secrets[i] in st.secrets;
    }
  }

  /**
   When Run returns without error, every service, every secret and every VM it
   planned is in the cluster, its counters say so, and if it was to wait it has
   seen every VM running in time.
   */
  lemma SuccessMeansDeployed(su: Setup, s0: Store, steps: seq<Step>, st: State)
    requires ValidSetup(su) && Leads(su, Init(su, s0), steps, st)
    ensures st.stage == Returned(Deployed) ==>
              && (forall name <- su.planned.instances | HasService(su, name) :: ServiceFor(su, name).key in st.store)
              && (forall i: nat | i < |su.planned.plans| ::
                    && SecretFor(su, i).key in st.store && |su.planned.plans[i].userdata| <= MAX_SECRET_DATA_SIZE
                    && VMKey(su, i) in st.store && BuildVM(su, i, SecretName(su, i)).Built?)
              && st.servicesCreated == |ServiceNames(su)| && st.secretsCreated == |su.planned.plans|
              && (su.waitForReady ==> st.wait.Some?)
              && (su.waitForReady ==>
                    forall plan <- su.planned.plans :: Readiness.SeenRunning(st.wait.value.waits, plan.vm.name))
  {
    hide ValidSetup, WithinLimits;
    InitInv(su, s0);
    StepsKeep(su, s0, Init(su, s0), steps, st);
    if st.stage == Returned(Deployed) {
      SecretsAreThere(su, s0, st);
      EachDone(st.secrets);
      if su.waitForReady {
        VMsWereSeen(su, st.wait.value);
      }
      hide Leads, Barrier, WaitTells, Grown, VMsHaveSecrets, SecretsRecorded, ServiceFor, SecretFor, VMKey, BuildVM;
      forall i: nat | i < |su.planned.plans| ensures VMKey(su, i) in st.store && BuildVM(su, i, SecretName(su, i)).Built? {
        assert st.vms[i] in st.vms;
      }
    }
  }

  lemma VMsWereSeen(su: Setup, wait: Wait)
    requires ValidSetup(su) && WaitDone(su, wait) && Readiness.AllReady(wait.end.results)
    ensures forall plan <- su.planned.plans :: Readiness.SeenRunning(wait.waits, plan.vm.name)
  {
    Readiness.AllReadyWereSeen(wait.waits, wait.steps, wait.end);
    PlanningConserves(su.input, su.names, "");
    hide PlanNames, Readiness.SeenRunning;
    forall plan <- su.planned.plans ensures Readiness.SeenRunning(wait.waits, plan.vm.name) {
      var k :| 0 <= k < |su.planned.plans| && su.planned.plans[k] == plan;
      assert su.planned.vmNames[k] == plan.vm.name;
    }
  }

  /**
   How a run comes back tells how far it got: without its namespace or a service
   no secret is begun, without all secrets no VM is, and it waits only for VMs
   that have all been created.
   */
  lemma EndTellsHowFar(su: Setup, s0: Store, steps: seq<Step>, st: State)
    requires ValidSetup(su) && Leads(su, Init(su, s0), steps, st) && st.stage.Returned?
    ensures match st.stage.end
            case ResourcesFailed => (forall t <- st.secrets :: t.Idle?) && forall t <- st.vms :: t.Idle?
            case SecretsFailed => (exists t <- st.secrets :: t.Errored?) && forall t <- st.vms :: t.Idle?
            case VMsFailed => (forall t <- st.secrets :: t.Done?) && exists t <- st.vms :: t.Errored?
            case NotReady =>
              && su.waitForReady && (forall t <- st.secrets :: t.Done?) && (forall t <- st.vms :: t.Done?)
              && st.wait.Some? && exists name <- st.wait.value.end.results :: !st.wait.value.end.results[name].Ready?
            case Deployed => (forall t <- st.secrets :: t.Done?) && forall t <- st.vms :: t.Done?
    ensures !st.stage.end.ResourcesFailed? ==>
              && NamespaceKey(su) in st.store && LABEL_MANAGED_BY in st.store[NamespaceKey(su)].labels
              && st.store[NamespaceKey(su)].labels[LABEL_MANAGED_BY] == MANAGED_BY_VALUE
  {
    InitInv(su, s0);
    StepsKeep(su, s0, Init(su, s0), steps, st);
    hide Leads, ValidSetup, Grown, SecretsRecorded, VMsHaveSecrets, ServicesMade, VMsMade, Counted, WithinLimits, Barrier,
         InOrder;
  }

  /** The VM goroutines have been told to stop, or are through. */
  predicate NoMoreVMs(st: State) {
    match st.stage
    case CreatingVMs => st.stopped || st.groupStopped
    case Waiting => true
    case Returned(_) => true
    case _ => false
  }

  lemma StepCreatesNoMore(su: Setup, st: State, step: Step)
    requires Sized(su, st) && NoMoreVMs(st) && Enabled(su, st, step)
    ensures NoMoreVMs(Next(su, st, step)) && Next(su, st, step).store == st.store
  {
    hide AllStarted, Active, Joined, AllDone, WaitDone, Readiness.AllReady, BuildVM, SecretCalled, ServiceCalled,
         NamespaceCalled, HasService;
  }

  lemma {:induction false} StepsCreateNoMore(su: Setup, st: State, steps: seq<Step>, st': State)
    requires Sized(su, st) && NoMoreVMs(st) && Leads(su, st, steps, st')
    ensures st'.store == st.store
    decreases |steps|
  {
    if steps != [] {
      StepCreatesNoMore(su, st, steps[0]);
      StepsCreateNoMore(su, Next(su, st, steps[0]), steps[1..], st');
    }
  }

  /**
   Once a VM goroutine has failed, or the context is cancelled while VMs are
   created, nothing more is created, whatever the other goroutines go on to do.
   */
  lemma NothingAfterAFailure(su: Setup, s0: Store, steps: seq<Step>, st: State, more: seq<Step>, st': State)
    requires ValidSetup(su) && Leads(su, Init(su, s0), steps, st)
    requires (exists t <- st.vms :: t.Errored?) || (st.stage.CreatingVMs? && st.stopped)
    requires Sized(su, st) && Leads(su, st, more, st')
    ensures st'.store == st.store
  {
    InitInv(su, s0);
    StepsKeep(su, s0, Init(su, s0), steps, st);
    hide Leads, ValidSetup, Grown, SecretsRecorded, VMsHaveSecrets, ServicesMade, VMsMade, Counted, WithinLimits;
    StepsCreateNoMore(su, st, more, st');
  }
}
