/**
 The deployment part of Run in internal/orchestrator/orchestrator.go as a state
 machine: the namespace, the services, a group of goroutines creating secrets,
 a group creating VMs with retries, and the wait. A step is one API call or one
 scheduling decision; which step comes next, and what becomes of each call, is
 left open.
 */
module RunProtocol {
  import opened Options
  import opened Cluster
  import opened Planner
  import opened Resources
  import DiskWiring
  import Readiness
  import Retry

  // The limit given to the errgroup of the secrets.
  const SECRET_LIMIT := 10

  /** What Run has in hand once planning is over. */
  datatype Setup = Setup(input: Inputs, names: seq<string>, planned: Planned, vmLimit: int,
                         isQuantity: DiskWiring.Quantities, waitForReady: bool)

  /** The plans are those of planVMs, over a registry of built-in workloads and validated catalog entries. */
  ghost predicate ValidSetup(su: Setup) {
    && PlanNames(su.input, su.names, NOTHING_PLANNED) == Plans(su.planned)
    && (forall name <- su.input.registry :: DiskWiring.Registered(su.input.registry[name].storage, su.isQuantity))
  }

  datatype Task = Idle | Running(attempt: nat) | Done | Errored

  datatype Stage = Namespacing | CreatingServices(todo: set<string>) | CreatingSecrets | CreatingVMs | Waiting
                 | Returned(end: RunEnd)

  /** How a run that is no dry run comes back; the first is its only return without error. */
  datatype RunEnd = Deployed | ResourcesFailed | SecretsFailed | VMsFailed | NotReady

  /** One execution of WaitForAllVMsReady. */
  datatype Wait = Wait(waits: Readiness.Waits, steps: seq<Readiness.WaitStep>, end: Readiness.WaitState)

  /** `stopped` is the parent context, `groupStopped` the one derived for the current errgroup. */
  datatype State = State(store: Store, stage: Stage, secrets: seq<Task>, secretNames: seq<string>, vms: seq<Task>,
                         servicesCreated: nat, secretsCreated: nat, stopped: bool, groupStopped: bool,
                         wait: Option<Wait>)

  predicate Sized(su: Setup, st: State) {
    |st.secrets| == |st.vms| == |st.secretNames| == |su.planned.plans|
  }

  // ---------------------------------------------------------------------
  // The objects of a run
  // ---------------------------------------------------------------------

  function NamespaceKey(su: Setup): Key { Key(Namespace, "", su.input.config.namespace) }

  predicate HasService(su: Setup, name: string) {
    name in su.planned.instances && su.planned.instances[name].service.Some?
  }

  function ServiceNames(su: Setup): set<string> {
    set name <- su.planned.instances | HasService(su, name)
  }

  function ServiceFor(su: Setup, name: string): NamedObject
    requires HasService(su, name)
  {
    var svc := BuildService(name, su.input.config.namespace, su.planned.instances[name].service.value);
    svc.(obj := svc.obj.(labels := svc.obj.labels[LABEL_RUN_ID := su.input.runID]))
  }

  function SecretName(su: Setup, i: nat): string
    requires i < |su.planned.plans|
  {
    su.planned.plans[i].vm.name + "-cloudinit"
  }

  function SecretFor(su: Setup, i: nat): NamedObject
    requires i < |su.planned.plans|
  {
    var plan := su.planned.plans[i];
    NamedObject(
      Key(Secret, su.input.config.namespace, SecretName(su, i)),
      Object(map[LABEL_APP_NAME := if LABEL_APP_NAME in plan.vm.labels then plan.vm.labels[LABEL_APP_NAME] else "",
                 LABEL_MANAGED_BY := MANAGED_BY_VALUE, LABEL_COMPONENT := plan.component,
                 LABEL_RUN_ID := su.input.runID],
             SecretSpec(plan.userdata)))
  }

  function VMKey(su: Setup, i: nat): Key
    requires i < |su.planned.plans|
  {
    Key(VirtualMachine, su.planned.plans[i].vm.namespace, su.planned.plans[i].vm.name)
  }

  function BuildVM(su: Setup, i: nat, secretName: string): DiskWiring.Built
    requires i < |su.planned.plans|
  {
    DiskWiring.BuildVMSpec(su.planned.plans[i].vm.(secretName := secretName), su.isQuantity)
  }

  /** VM `i` as this run means to create it: booting from its own secret. */
  predicate IsVMFor(su: Setup, i: nat, key: Key, o: Object)
    requires i < |su.planned.plans|
  {
    key == VMKey(su, i) && BuildVM(su, i, SecretName(su, i)) == DiskWiring.Built(o)
  }

  /** The object is one that this run creates. */
  ghost predicate Made(su: Setup, key: Key, o: Object) {
    || (exists name: string :: HasService(su, name) && ServiceFor(su, name) == NamedObject(key, o))
    || (exists i: nat :: i < |su.planned.plans| && SecretFor(su, i) == NamedObject(key, o))
    || (exists i: nat :: i < |su.planned.plans| && IsVMFor(su, i, key, o))
  }

  // ---------------------------------------------------------------------
  // Steps
  // ---------------------------------------------------------------------

  datatype Step =
    | NamespaceStep(calls: Ensuring)
    | CreateService(name: string, fault: Fault)
    | ServicesDone
    | SpawnSecret(i: nat)
    | CallSecret(i: nat, fault: Fault)
    | JoinSecrets
    | SpawnVM(i: nat)
    | CallVM(i: nat, fault: Fault)
    | JoinVMs
    | CancelContext
    | WaitSkipped
    | WaitEnds(wait: Wait)

  function Active(tasks: seq<Task>): nat {
    if tasks == [] then 0 else (if tasks[0].Running? then 1 else 0) + Active(tasks[1..])
  }

  /** errgroup starts goroutines in order and blocks at the limit, if there is one. */
  predicate MaySpawn(tasks: seq<Task>, i: nat, limit: int) {
    i < |tasks| && tasks[i].Idle? && AllStarted(tasks, i) && (limit > 0 ==> Active(tasks) < limit)
  }

  predicate AllStarted(tasks: seq<Task>, n: nat)
    requires n <= |tasks|
  {
    forall j: nat | j < n :: !tasks[j].Idle?
  }

  predicate Joined(tasks: seq<Task>) {
    forall t <- tasks :: t.Done? || t.Errored?
  }

  predicate AllDone(tasks: seq<Task>) {
    forall t <- tasks :: t.Done?
  }

  /** The wait for the planned VMs, with its goroutines interleaved in whatever way, until all have exited. */
  ghost predicate WaitDone(su: Setup, wait: Wait) {
    && wait.waits.names == su.planned.vmNames
    && Readiness.Leads(wait.waits, Readiness.Begin(wait.waits), wait.steps, wait.end)
    && Readiness.Finished(wait.end)
  }

  ghost predicate Enabled(su: Setup, st: State, step: Step)
    requires Sized(su, st)
  {
    match step
    case NamespaceStep(_) => st.stage.Namespacing?
    case CreateService(name, _) => st.stage.CreatingServices? && name in st.stage.todo && HasService(su, name)
    case ServicesDone => st.stage == CreatingServices({})
    case SpawnSecret(i) => st.stage.CreatingSecrets? && MaySpawn(st.secrets, i, SECRET_LIMIT)
    case CallSecret(i, _) => st.stage.CreatingSecrets? && i < |st.secrets| && st.secrets[i].Running?
    case JoinSecrets => st.stage.CreatingSecrets? && Joined(st.secrets)
    case SpawnVM(i) => st.stage.CreatingVMs? && MaySpawn(st.vms, i, su.vmLimit)
    case CallVM(i, _) => st.stage.CreatingVMs? && i < |st.vms| && st.vms[i].Running?
    case JoinVMs => st.stage.CreatingVMs? && Joined(st.vms)
    case CancelContext => !st.stopped
    case WaitSkipped => st.stage.Waiting? && !su.waitForReady
    case WaitEnds(wait) => st.stage.Waiting? && su.waitForReady && WaitDone(su, wait)
  }

  function NamespaceEnsured(su: Setup, s: Store, calls: Ensuring): Ensured {
    EnsuredNamespace(s, su.input.config.namespace, map[LABEL_MANAGED_BY := MANAGED_BY_VALUE], calls)
  }

  function Next(su: Setup, st: State, step: Step): (next: State)
    requires Sized(su, st)
    requires Enabled(su, st, step)
    ensures Sized(su, next)
  {
    match step
    case NamespaceStep(calls) => NamespaceCalled(su, st, calls)
    case CreateService(name, fault) => ServiceCalled(su, st, name, fault)
    case ServicesDone => st.(stage := CreatingSecrets)
    case SpawnSecret(i) => st.(secrets := st.secrets[i := Running(0)])
    case CallSecret(i, fault) => SecretCalled(su, st, i, fault)
    case JoinSecrets =>
      st.(stage := if AllDone(st.secrets) then CreatingVMs else Returned(SecretsFailed), groupStopped := false)
    case SpawnVM(i) => st.(vms := st.vms[i := Running(0)])
    case CallVM(i, fault) => VMCalled(su, st, i, fault)
    case JoinVMs => st.(stage := if AllDone(st.vms) then Waiting else Returned(VMsFailed))
    case CancelContext => st.(stopped := true)
    case WaitSkipped => st.(stage := Returned(Deployed))
    case WaitEnds(wait) =>
      st.(wait := Some(wait),
          stage := Returned(if Readiness.AllReady(wait.end.results) then Deployed else NotReady))
  }

  /** The namespace is there, or the run returns. */
  function NamespaceCalled(su: Setup, st: State, calls: Ensuring): (next: State)
    ensures next == st.(store := next.store, stage := next.stage)
    ensures next.stage in {CreatingServices(ServiceNames(su)), Returned(ResourcesFailed)}
  {
    var ensured := NamespaceEnsured(su, st.store, calls);
    st.(store := ensured.store,
        stage := if ensured.ok then CreatingServices(ServiceNames(su)) else Returned(ResourcesFailed))
  }

  /** One service is there, or the run returns. */
  function ServiceCalled(su: Setup, st: State, name: string, fault: Fault): (next: State)
    requires st.stage.CreatingServices? && HasService(su, name)
    ensures next == st.(store := next.store, stage := next.stage, servicesCreated := next.servicesCreated)
    ensures (next.stage == CreatingServices(st.stage.todo - {name}) && next.servicesCreated == st.servicesCreated + 1)
            || (next.stage == Returned(ResourcesFailed) && next.servicesCreated == st.servicesCreated)
  {
    var svc := ServiceFor(su, name);
    var r := ServeCreate(st.store, svc.key, svc.obj, fault);
    if Settled(r.reply) then
      st.(store := r.store, stage := CreatingServices(st.stage.todo - {name}), servicesCreated := st.servicesCreated + 1)
    else st.(store := r.store, stage := Returned(ResourcesFailed))
  }

  /** The goroutine for secret `i`. */
  function SecretCalled(su: Setup, st: State, i: nat, fault: Fault): (next: State)
    requires |st.secrets| == |st.secretNames| == |su.planned.plans| && i < |st.secrets|
    ensures |next.secrets| == |st.secrets| && |next.secretNames| == |st.secretNames|
    ensures next == st.(store := next.store, secrets := st.secrets[i := next.secrets[i]],
                        secretNames := st.secretNames[i := next.secretNames[i]],
                        secretsCreated := next.secretsCreated, groupStopped := next.groupStopped)
    ensures (next.secrets[i].Done? && next.secretsCreated == st.secretsCreated + 1)
            || (next.secrets[i].Errored? && next.secretsCreated == st.secretsCreated)
  {
    if |su.planned.plans[i].userdata| > MAX_SECRET_DATA_SIZE then
      st.(secrets := st.secrets[i := Errored], groupStopped := true)
    else
      var secret := SecretFor(su, i);
      var r := ServeCreate(st.store, secret.key, secret.obj, fault);
      if Settled(r.reply) then
        st.(store := r.store, secrets := st.secrets[i := Done],
            secretNames := st.secretNames[i := SecretName(su, i)], secretsCreated := st.secretsCreated + 1)
      else st.(store := r.store, secrets := st.secrets[i := Errored], groupStopped := true)
  }

  /** One turn of the goroutine for VM `i`: it builds the spec, and each attempt first looks at the context. */
  function VMCalled(su: Setup, st: State, i: nat, fault: Fault): (next: State)
    requires |st.vms| == |st.secretNames| == |su.planned.plans| && i < |st.vms| && st.vms[i].Running?
    ensures |next.vms| == |st.vms|
    ensures next == st.(store := next.store, vms := st.vms[i := next.vms[i]], groupStopped := next.groupStopped)
    ensures next.vms[i].Done? || next.vms[i].Errored? || next.vms[i] == Running(st.vms[i].attempt + 1)
    ensures next.vms[i].Running? ==> st.vms[i].attempt < Retry.DEFAULT_MAX_RETRIES
    ensures next.groupStopped <==> st.groupStopped || next.vms[i].Errored?
  {
    var built := BuildVM(su, i, st.secretNames[i]);
    if built.BuildFailed? || st.stopped || st.groupStopped then
      st.(vms := st.vms[i := Errored], groupStopped := true)
    else
      var r := ServeCreate(st.store, VMKey(su, i), built.vm, fault);
      if Settled(r.reply) then st.(store := r.store, vms := st.vms[i := Done])
      else if Retry.IsTransient(r.reply.error) && st.vms[i].attempt < Retry.DEFAULT_MAX_RETRIES then
        st.(store := r.store, vms := st.vms[i := Running(st.vms[i].attempt + 1)])
      else st.(store := r.store, vms := st.vms[i := Errored], groupStopped := true)
  }

  function Init(su: Setup, s: Store): State {
    var idle := seq(|su.planned.plans|, _ => Idle);
    State(s, Namespacing, idle, seq(|su.planned.plans|, _ => ""), idle, 0, 0, false, false, None)
  }

  /** The steps can be taken one after the other from `st` and lead to `st'`. */
  ghost predicate Leads(su: Setup, st: State, steps: seq<Step>, st': State)
    requires Sized(su, st)
    decreases |steps|
  {
    if steps == [] then st == st'
    else Enabled(su, st, steps[0]) && Leads(su, Next(su, st, steps[0]), steps[1..], st')
  }
}
