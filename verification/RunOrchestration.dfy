/**
 The code behind the steps of a run: createResources as a loop, and the bodies
 of the goroutines of createSecrets and createVMs, over the API server and the
 fields they share (internal/orchestrator/orchestrator.go).
 */
module RunOrchestration {
  import opened Options
  import opened Cluster
  import opened Planner
  import opened Resources
  import opened RunProtocol
  import Retry

  lemma {:induction false} LeadsOn(su: Setup, st: State, steps: seq<Step>, st': State, step: Step)
    requires Sized(su, st) && Sized(su, st') && Leads(su, st, steps, st') && Enabled(su, st', step)
    ensures Leads(su, st, steps + [step], Next(su, st', step))
    decreases |steps|
  {
    hide Enabled, Next;
    if steps == [] {
      assert [step][1..] == [];
      assert Leads(su, Next(su, st, step), [], Next(su, st', step));
      assert steps + [step] == [step];
    } else {
      LeadsOn(su, Next(su, st, steps[0]), steps[1..], st', step);
      assert (steps + [step])[1..] == steps[1..] + [step];
    }
  }

  /** The steps are the calls of createResources, each with what it is to meet. */
  ghost predicate AsScripted(steps: seq<Step>, calls: Ensuring, faults: string -> Fault) {
    forall step <- steps ::
      match step
      case NamespaceStep(c) => c == calls
      case CreateService(name, fault) => fault == faults(name)
      case ServicesDone => true
      case _ => false
  }

  lemma OneMoreScripted(steps: seq<Step>, step: Step, calls: Ensuring, faults: string -> Fault)
    requires AsScripted(steps, calls, faults) && AsScripted([step], calls, faults)
    ensures AsScripted(steps + [step], calls, faults)
  {
    assert step in [step];
  }

  lemma StepsOfCreation(calls: Ensuring, faults: string -> Fault)
    ensures AsScripted([], calls, faults) && AsScripted([NamespaceStep(calls)], calls, faults)
    ensures AsScripted([ServicesDone], calls, faults)
    ensures forall name: string :: AsScripted([RunProtocol.CreateService(name, faults(name))], calls, faults)
  {
  }

  class Run {
    const su: Setup
    const api: ApiServer
    var stage: Stage
    var secrets: seq<Task>
    var secretNames: seq<string>
    var vms: seq<Task>
    var servicesCreated: nat
    var secretsCreated: nat
    var stopped: bool
    var groupStopped: bool
    var wait: Option<Wait>

    function Now(): State
      reads this, api
    {
      State(api.objects, stage, secrets, secretNames, vms, servicesCreated, secretsCreated, stopped, groupStopped,
            wait)
    }

    constructor (su: Setup, api: ApiServer)
      ensures this.su == su && this.api == api && Now() == Init(su, api.objects)
    {
      this.su, this.api := su, api;
      stage := Namespacing;
      secrets, vms := seq(|su.planned.plans|, _ => Idle), seq(|su.planned.plans|, _ => Idle);
      secretNames := seq(|su.planned.plans|, _ => "");
      servicesCreated, secretsCreated := 0, 0;
      stopped, groupStopped := false, false;
      wait := None;
    }

    /** The namespace is ensured, or the run returns. */
    method NamespaceTurn(calls: Ensuring) returns (ok: bool)
      requires Sized(su, Now()) && stage.Namespacing?
      modifies this, api
      ensures Now() == NamespaceCalled(su, old(Now()), calls)
      ensures ok <==> stage.CreatingServices?
    {
      hide EnsuredNamespace, ServiceNames;
      var labels := map[LABEL_MANAGED_BY := MANAGED_BY_VALUE];
      ok := EnsureNamespace(api, su.input.config.namespace, labels, calls);
      stage := if ok then CreatingServices(ServiceNames(su)) else Returned(ResourcesFailed);
    }

    /** One service is created, or the run returns. */
    method ServiceTurn(name: string, fault: Fault) returns (ok: bool)
      requires Sized(su, Now()) && stage.CreatingServices? && HasService(su, name)
      modifies this, api
      ensures Now() == ServiceCalled(su, old(Now()), name, fault)
      ensures ok <==> stage.CreatingServices?
    {
      hide ServeCreate, ServiceFor, HasService;
      var svc := ServiceFor(su, name);
      ok := Resources.CreateService(api, svc.key, svc.obj, fault);
      if ok {
        servicesCreated := servicesCreated + 1;
        stage := CreatingServices(stage.todo - {name});
      } else {
        stage := Returned(ResourcesFailed);
      }
    }

    /** createResources: the namespace, then the services in whatever order the map yields; stops at the first error. */
    method CreateResources(calls: Ensuring, faults: string -> Fault) returns (ok: bool, ghost steps: seq<Step>)
      requires Sized(su, Now()) && stage.Namespacing? && servicesCreated == 0
      modifies this, api
      ensures Leads(su, old(Now()), steps, Now()) && AsScripted(steps, calls, faults)
      ensures stage == if ok then CreatingSecrets else Returned(ResourcesFailed)
      ensures ok ==> servicesCreated == |ServiceNames(su)|
    {
      StepsOfCreation(calls, faults);
      hide AsScripted, Leads, HasService, Next, Enabled, NamespaceCalled, ServiceCalled;
      ghost var start := Now();
      NoSteps(su, start);
      NamespaceNext(su, start, calls);
      LeadsOn(su, start, [], start, NamespaceStep(calls));
      steps := [] + [NamespaceStep(calls)];
      assert steps == [NamespaceStep(calls)];
      ok := NamespaceTurn(calls);
      if !ok {
        return;
      }
      var todo := ServiceNames(su);
      AllHaveServices(su);
      while todo != {}
        invariant todo <= ServiceNames(su) && stage == CreatingServices(todo)
        invariant servicesCreated + |todo| == |ServiceNames(su)|
        invariant Sized(su, Now()) && Leads(su, start, steps, Now()) && AsScripted(steps, calls, faults)
      {
        var name :| name in todo;
        ServiceNext(su, Now(), name, faults(name));
        LeadsOn(su, start, steps, Now(), RunProtocol.CreateService(name, faults(name)));
        OneMoreScripted(steps, RunProtocol.CreateService(name, faults(name)), calls, faults);
        steps := steps + [RunProtocol.CreateService(name, faults(name))];
        ok := ServiceTurn(name, faults(name));
        if !ok {
          return;
        }
        todo := todo - {name};
      }
      DoneNext(su, Now());
      LeadsOn(su, start, steps, Now(), ServicesDone);
      OneMoreScripted(steps, ServicesDone, calls, faults);
      steps := steps + [ServicesDone];
      stage := CreatingSecrets;
      return true, steps;
    }

    /** The goroutine for secret `i`. */
    method SecretTurn(i: nat, fault: Fault)
      requires Sized(su, Now()) && Enabled(su, Now(), CallSecret(i, fault))
      modifies this, api
      ensures Now() == Next(su, old(Now()), CallSecret(i, fault))
    {
      SecretParts(su, i);
      SecretStep(su, Now(), i, fault);
      hide ServeCreate, SecretFor, SecretName, Next, Enabled;
      var secretName := SecretName(su, i);
      var secret := SecretFor(su, i);
      var reply := CreateCloudInitSecret(api, secret.key, su.planned.plans[i].userdata, secret.obj.labels, fault);
      if !reply.SecretThere? {
        secrets, groupStopped := secrets[i := Errored], true;
        return;
      }
      secretNames := secretNames[i := secretName];
      secretsCreated := secretsCreated + 1;
      secrets := secrets[i := Done];
    }

    /** One turn of the goroutine for VM `i`: BuildVMSpec, and an attempt of CreateVM. */
    method VMTurn(i: nat, fault: Fault)
      requires Sized(su, Now()) && Enabled(su, Now(), CallVM(i, fault))
      modifies this, api
      ensures Now() == Next(su, old(Now()), CallVM(i, fault))
    {
      hide BuildVM, ServeCreate, AllStarted, Joined, AllDone;
      var attempt := vms[i].attempt;
      var built := BuildVM(su, i, secretNames[i]);
      if built.BuildFailed? || stopped || groupStopped {
        vms, groupStopped := vms[i := Errored], true;
        return;
      }
      var reply := api.Create(VMKey(su, i), built.vm, fault);
      if Settled(reply) {
        vms := vms[i := Done];
      } else if Retry.IsTransient(reply.error) && attempt < Retry.DEFAULT_MAX_RETRIES {
        vms := vms[i := Running(attempt + 1)];
      } else {
        vms, groupStopped := vms[i := Errored], true;
      }
    }
  }

  lemma NamespaceNext(su: Setup, st: State, calls: Ensuring)
    requires Sized(su, st) && st.stage.Namespacing?
    ensures Enabled(su, st, NamespaceStep(calls)) && Next(su, st, NamespaceStep(calls)) == NamespaceCalled(su, st, calls)
  {
    hide NamespaceCalled;
  }

  lemma ServiceNext(su: Setup, st: State, name: string, fault: Fault)
    requires Sized(su, st) && st.stage.CreatingServices? && name in st.stage.todo && HasService(su, name)
    ensures Enabled(su, st, RunProtocol.CreateService(name, fault))
    ensures Next(su, st, RunProtocol.CreateService(name, fault)) == ServiceCalled(su, st, name, fault)
  {
    hide ServiceCalled, HasService;
  }

  lemma DoneNext(su: Setup, st: State)
    requires Sized(su, st) && st.stage == CreatingServices({})
    ensures Enabled(su, st, ServicesDone) && Next(su, st, ServicesDone) == st.(stage := CreatingSecrets)
  {
  }

  lemma SecretStep(su: Setup, st: State, i: nat, fault: Fault)
    requires Sized(su, st) && Enabled(su, st, CallSecret(i, fault))
    ensures i < |st.secrets| && Next(su, st, CallSecret(i, fault)) == SecretCalled(su, st, i, fault)
  {
    hide SecretCalled;
  }

  lemma SecretParts(su: Setup, i: nat)
    requires i < |su.planned.plans|
    ensures var secret := SecretFor(su, i);
            secret.obj == Object(secret.obj.labels, SecretSpec(su.planned.plans[i].userdata))
  {
  }

  lemma NoSteps(su: Setup, st: State)
    requires Sized(su, st)
    ensures Leads(su, st, [], st)
  {
  }

  lemma AllHaveServices(su: Setup)
    ensures forall name <- ServiceNames(su) :: HasService(su, name)
  {
  }
}
