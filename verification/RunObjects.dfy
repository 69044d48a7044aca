/**
 The objects of a run, field by field, told from the configuration, the manifests
 and the requested names: what a run leaves in the cluster and what a dry run
 prints (createResources, createSecrets, createVMs and printDryRun of
 internal/orchestrator/orchestrator.go with BuildVMSpec of internal/vm/vm.go).
 */
module RunObjects {
  import opened Options
  import opened Cluster
  import opened Planner
  import opened PlanLaws
  import opened RunProtocol
  import DiskWiring
  import DryRun
  import RunSafety

  // ---------------------------------------------------------------------
  // VMs
  // ---------------------------------------------------------------------

  /** The labels of a VM; of a workload without two roles it has no role label. */
  function LabelsOfVM(input: Inputs, name: string, role: Option<string>): Labels {
    map["app.kubernetes.io/name" := "virtwork-" + name, "app.kubernetes.io/managed-by" := "virtwork",
        "app.kubernetes.io/component" := name, "virtwork/run-id" := input.runID]
    + if role.Some? then map["virtwork/role" := role.value] else map[]
  }

  /** The memory of a VM: what the file sets for its workload, else what is set for the run. */
  function MemoryOf(input: Inputs, name: string): string {
    if name in input.config.workloads && input.config.workloads[name].memory != ""
    then input.config.workloads[name].memory else input.config.memory
  }

  function CoresOf(input: Inputs, name: string): int {
    if name in input.config.workloads && input.config.workloads[name].cpuCores > 0
    then input.config.workloads[name].cpuCores else input.config.cpuCores
  }

  /** Behind the image and the cloud-init disk a VM has the disks of its workload, and DataVolumes named after it. */
  predicate HasStorage(spec: Spec, storage: DiskWiring.Storage, vmName: string)
    requires spec.VMSpec?
  {
    && |spec.disks| == |storage.disks| + 2 && |spec.templates| == |storage.templates|
    && (forall d | 0 <= d < |storage.disks| :: spec.disks[d + 2] == storage.disks[d])
    && (forall t | 0 <= t < |storage.templates| ::
          spec.templates[t] == DataVolumeTemplate(storage.templates[t].name + "-" + vmName, storage.templates[t].size))
  }

  /** VM `i` of this workload and role. */
  predicate IsVM(input: Inputs, name: string, role: Option<string>, i: nat, key: Key, o: Object) {
    && name in input.registry && input.registry[name].storage.Some?
    && key == Key(VirtualMachine, input.config.namespace, VMName(name, role, i))
    && o.labels == LabelsOfVM(input, name, role) && o.spec.VMSpec?
    && o.spec.memory == MemoryOf(input, name) && o.spec.cpuCores == CoresOf(input, name) % 0x1_0000_0000
    && DiskWiring.Only(o.spec.volumes, DiskWiring.HasImage) == [Volume("containerdisk", ContainerDisk(input.config.image))]
    && DiskWiring.CloudInitSecrets(o.spec) == {key.name + "-cloudinit"}
    && HasStorage(o.spec, input.registry[name].storage.value, key.name)
  }

  /** The secret with the cloud-init text for VM `i` of this workload and role. */
  predicate IsSecret(input: Inputs, name: string, role: Option<string>, i: nat, key: Key, o: Object) {
    && key == Key(Secret, input.config.namespace, VMName(name, role, i) + "-cloudinit")
    && name in input.registry && (if role.Some? then role.value else "") in input.registry[name].userdata
    && o == Object(map["app.kubernetes.io/name" := "virtwork-" + name, "app.kubernetes.io/managed-by" := "virtwork",
                       "app.kubernetes.io/component" := name, "virtwork/run-id" := input.runID],
                   SecretSpec(input.registry[name].userdata[if role.Some? then role.value else ""]))
  }

  lemma LabelsAgree(input: Inputs, name: string, role: Option<string>)
    ensures VMLabels(name, role, input.runID) == LabelsOfVM(input, name, role)
  {
  }

  lemma PlannedVMIsAsked(su: Setup, i: nat, name: string, role: Option<string>, n: nat, key: Key, o: Object)
    requires ValidSetup(su) && i < |su.planned.plans| && IsFor(su.planned.plans[i], name, role, n)
    requires IsVMFor(su, i, key, o)
    ensures IsVM(su.input, name, role, n, key, o)
  {
    var plan := su.planned.plans[i];
    PlanFacts(su, i);
    LabelsAgree(su.input, name, role);
    RunSafety.OwnSecretOnly(su, i);
    PlanIsWired(su.input, plan, su.isQuantity);
    hide ValidSetup, DiskWiring.WellWired, DiskWiring.Registered, VMLabels, LabelsOfVM, DiskWiring.Only, PlannedFor,
         HasStorage, DiskWiring.CloudInitSecrets;
    BuiltHasStorage(plan.vm.(secretName := SecretName(su, i)), su.isQuantity, su.input.registry[name].storage.value);
  }

  lemma BuiltHasStorage(options: DiskWiring.VMOptions, isQuantity: DiskWiring.Quantities, storage: DiskWiring.Storage)
    requires DiskWiring.WellWired(options.storage) && options.storage == DiskWiring.ForVM(storage, options.name)
    ensures var b := DiskWiring.BuildVMSpec(options, isQuantity);
            b.Built? ==>
              && b.vm.labels == options.labels && b.vm.spec.VMSpec? && b.vm.spec.memory == options.memory
              && DiskWiring.Only(b.vm.spec.volumes, DiskWiring.HasImage)
                 == [Volume("containerdisk", ContainerDisk(options.image))]
              && HasStorage(b.vm.spec, storage, options.name)
  {
    DiskWiring.BuiltVMIsAsAsked(options, isQuantity);
    DiskWiring.RenamedForVM(storage, options.name);
    hide DiskWiring.WellWired, DiskWiring.ForVM, DiskWiring.Only;
  }

  lemma PlanFacts(su: Setup, i: nat)
    requires ValidSetup(su) && i < |su.planned.plans|
    ensures PlannedFor(su.planned.plans[i], su.input) && FollowsConfig(su.planned.plans[i], su.input)
    ensures forall name <- su.input.registry :: DiskWiring.Registered(su.input.registry[name].storage, su.isQuantity)
  {
    PlanningConserves(su.input, su.names, "");
    PlansFollowConfig(su.input, su.names);
    hide PlanNames;
    assert su.planned.plans[i] in su.planned.plans;
  }

  lemma PlannedSecretIsAsked(su: Setup, i: nat, name: string, role: Option<string>, n: nat)
    requires ValidSetup(su) && i < |su.planned.plans| && IsFor(su.planned.plans[i], name, role, n)
    ensures IsSecret(su.input, name, role, n, SecretFor(su, i).key, SecretFor(su, i).obj)
  {
    PlanFacts(su, i);
    LabelsDiffer();
    hide ValidSetup, DiskWiring.Registered;
  }

  // ---------------------------------------------------------------------
  // Services
  // ---------------------------------------------------------------------

  /** The name of the service that a workload declares. */
  function ServiceName(name: string, source: ServiceSource): string {
    match source
    case NetworkService => "virtwork-iperf3-server"
    case TPSService => "virtwork-tps-server"
    case CatalogService(_) => "virtwork-" + name
  }

  function LabelsOfService(input: Inputs, component: string): Labels {
    map["app.kubernetes.io/name" := "virtwork", "app.kubernetes.io/managed-by" := "virtwork",
        "app.kubernetes.io/component" := component, "virtwork/run-id" := input.runID]
  }

  /** The service of this workload. */
  predicate IsService(input: Inputs, name: string, key: Key, o: Object) {
    && name in input.registry && input.registry[name].service.Some? && o.spec.ServiceSpec?
    && var source := input.registry[name].service.value;
    && key == Key(Service, input.config.namespace, ServiceName(name, source))
    && match source
       case NetworkService =>
         && o.labels == LabelsOfService(input, "network") && o.spec.selector == map["virtwork/role" := "server"]
         && o.spec.ports == [Port("iperf3", 5201, "TCP")]
       case TPSService =>
         && o.labels == LabelsOfService(input, "tps")
         && o.spec.selector == map["virtwork/role" := "server", "app.kubernetes.io/component" := "tps"]
         && o.spec.ports == [Port("netperf-ctrl", 12865, "TCP"), Port("netperf-data", 12866, "TCP"),
                             Port("http-data", 8080, "TCP")]
       case CatalogService(def) =>
         && o.labels == LabelsOfService(input, name)
         && o.spec.selector == (if def.selectorRole != "" then map["virtwork/role" := def.selectorRole]
                                else map["app.kubernetes.io/name" := "virtwork-" + name])
         && |o.spec.ports| == |def.ports|
         && forall p | 0 <= p < |def.ports| ::
              o.spec.ports[p] == Port(def.ports[p].name, def.ports[p].port,
                                      if DiskWiring.SpellsUDP(def.ports[p].protocol) then "UDP" else "TCP")
  }

  lemma PortsAgree(ports: seq<DiskWiring.ServicePort>)
    ensures |ConvertPorts(ports)| == |ports|
    ensures forall p | 0 <= p < |ports| ::
              ConvertPorts(ports)[p] == Port(ports[p].name, ports[p].port,
                                             if DiskWiring.SpellsUDP(ports[p].protocol) then "UDP" else "TCP")
  {
    forall p | 0 <= p < |ports| {
      DiskWiring.UpperMeans(ports[p].protocol);
    }
    hide DiskWiring.ToUpper, DiskWiring.SpellsUDP;
  }

  lemma ServiceLabelsAgree(input: Inputs, component: string)
    ensures ServiceLabels(component)[LABEL_RUN_ID := input.runID] == LabelsOfService(input, component)
  {
  }

  lemma DeclaredServiceIsAsked(su: Setup, name: string)
    requires HasService(su, name) && name in su.input.registry && su.planned.instances[name] == su.input.registry[name]
    ensures IsService(su.input, name, ServiceFor(su, name).key, ServiceFor(su, name).obj)
  {
    var source := su.input.registry[name].service.value;
    match source {
      case NetworkService => ServiceLabelsAgree(su.input, "network");
      case TPSService => ServiceLabelsAgree(su.input, "tps");
      case CatalogService(def) =>
        ServiceLabelsAgree(su.input, name);
        PortsAgree(def.ports);
    }
    hide ServiceLabels, LabelsOfService, ConvertPorts, DiskWiring.SpellsUDP;
  }

  // ---------------------------------------------------------------------
  // Whole runs
  // ---------------------------------------------------------------------

  /** Some request asks for VM `i` in this role of this workload. */
  ghost predicate AsksFor(input: Inputs, names: seq<string>, name: string, role: Option<string>, i: nat) {
    && name in names && IsPlanned(input, name)
    && exists k: nat :: k < SlotCount(input, name) && role == SlotRole(input, name, k) && i < SlotVMs(input, name, k)
  }

  /** The object is one that the inputs ask for. */
  ghost predicate IsAsked(input: Inputs, names: seq<string>, key: Key, o: Object) {
    match key.kind
    case VirtualMachine =>
      exists name, role, i :: AsksFor(input, names, name, role, i) && IsVM(input, name, role, i, key, o)
    case Secret =>
      exists name, role, i :: AsksFor(input, names, name, role, i) && IsSecret(input, name, role, i, key, o)
    case Service => exists name <- names :: IsPlanned(input, name) && IsService(input, name, key, o)
    case _ => false
  }

  lemma PlanIsAsked(su: Setup, j: nat) returns (name: string, role: Option<string>, i: nat)
    requires ValidSetup(su) && j < |su.planned.plans|
    ensures AsksFor(su.input, su.names, name, role, i) && IsFor(su.planned.plans[j], name, role, i)
  {
    PlansAreAskedFor(su.input, su.names, NOTHING_PLANNED);
    var plan := su.planned.plans[j];
    assert plan in su.planned.plans;
    hide PlanNames, IsFor, SlotVMs, SlotRole, SlotCount;
    name :| name in su.names && IsAskedFor(plan, su.input, name);
    var k: nat, n: nat :| k < SlotCount(su.input, name) && n < SlotVMs(su.input, name, k)
      && IsFor(plan, name, SlotRole(su.input, name, k), n);
    role, i := SlotRole(su.input, name, k), n;
  }

  lemma InstancesArePlanned(su: Setup)
    requires ValidSetup(su)
    ensures forall name :: name in su.planned.instances <==> name in su.names && IsPlanned(su.input, name)
    ensures forall name <- su.planned.instances ::
              name in su.input.registry && su.planned.instances[name] == su.input.registry[name]
  {
    PlanningRecords(su.input, su.names);
    hide PlanNames;
  }

  /** Whatever a run means to create is asked for. */
  lemma MadeIsAsked(su: Setup, key: Key, o: Object)
    requires ValidSetup(su) && Made(su, key, o)
    ensures IsAsked(su.input, su.names, key, o)
  {
    hide ValidSetup, AsksFor, IsFor, IsPlanned, IsVM, IsSecret, IsService;
    if name: string :| HasService(su, name) && ServiceFor(su, name) == NamedObject(key, o) {
      InstancesArePlanned(su);
      RunSafety.ServiceIsOurs(su, name);
      KnownWhenPlanned(su.input, name);
      DeclaredServiceIsAsked(su, name);
    } else if j: nat :| j < |su.planned.plans| && SecretFor(su, j) == NamedObject(key, o) {
      var name, role, i := PlanIsAsked(su, j);
      PlannedSecretIsAsked(su, j, name, role, i);
    } else {
      var j: nat :| j < |su.planned.plans| && IsVMFor(su, j, key, o);
      var name, role, i := PlanIsAsked(su, j);
      PlannedVMIsAsked(su, j, name, role, i, key, o);
    }
  }

  lemma KnownWhenPlanned(input: Inputs, name: string)
    requires IsPlanned(input, name)
    ensures name in input.registry
  {
  }

  /**
   In every state that any interleaving, failure, lost reply or cancellation leads
   to, every object that the run has created, but for the namespace, is asked for:
   a VM with the configured image, memory, cores, labels and disks of its role, a
   secret with the role's cloud-init text, or a service that a workload declares.
   */
  lemma EveryObjectIsAsked(su: Setup, s0: Store, steps: seq<Step>, st: State)
    requires ValidSetup(su) && Leads(su, Init(su, s0), steps, st)
    ensures forall key <- st.store | key !in s0 && key != NamespaceKey(su) ::
              IsAsked(su.input, su.names, key, st.store[key])
  {
    RunSafety.InitInv(su, s0);
    RunSafety.StepsKeep(su, s0, Init(su, s0), steps, st);
    assert RunSafety.Grown(su, s0, st.store);
    hide ValidSetup, Leads, RunSafety.Inv, Made, IsAsked;
    forall key <- st.store | key !in s0 && key != NamespaceKey(su) ensures IsAsked(su.input, su.names, key, st.store[key]) {
      MadeIsAsked(su, key, st.store[key]);
    }
  }

  /** So is everything that a dry run prints. */
  lemma EverythingPrintedIsAsked(su: Setup, docs: seq<NamedObject>)
    requires ValidSetup(su) && DryRun.Prints(su, docs)
    ensures forall doc <- docs :: IsAsked(su.input, su.names, doc.key, doc.obj)
  {
    hide ValidSetup, DryRun.Prints, Made, IsAsked;
    forall doc <- docs ensures IsAsked(su.input, su.names, doc.key, doc.obj) {
      DryRun.PrintedIsMade(su, docs, doc.key, doc.obj);
      MadeIsAsked(su, doc.key, doc.obj);
    }
  }

  /** VM `i` of the k-th role of this workload is in the cluster, with its secret. */
  predicate IsThere(input: Inputs, s: Store, name: string, role: Option<string>, i: nat) {
    && Key(VirtualMachine, input.config.namespace, VMName(name, role, i)) in s
    && Key(Secret, input.config.namespace, VMName(name, role, i) + "-cloudinit") in s
  }

  /**
   When Run returns without error, everything that was asked for is in the
   cluster: every VM of every role with its secret, and the service of every
   requested workload that declares one.
   */
  lemma EveryRequestIsMet(su: Setup, s0: Store, steps: seq<Step>, st: State)
    requires ValidSetup(su) && Leads(su, Init(su, s0), steps, st) && st.stage == Returned(Deployed)
    ensures forall name, role, i | AsksFor(su.input, su.names, name, role, i) :: IsThere(su.input, st.store, name, role, i)
    ensures forall name <- su.names | IsPlanned(su.input, name) && su.input.registry[name].service.Some? ::
              Key(Service, su.input.config.namespace, ServiceName(name, su.input.registry[name].service.value)) in st.store
  {
    RunSafety.SuccessMeansDeployed(su, s0, steps, st);
    InstancesArePlanned(su);
    hide ValidSetup, Leads, IsPlanned, AsksFor, IsThere, BuildVM, ServiceFor, SecretFor, VMKey, IsService;
    forall name, role, i | AsksFor(su.input, su.names, name, role, i) ensures IsThere(su.input, st.store, name, role, i) {
      var j := PlanFor(su, name, role, i);
      KeysOfPlan(su, j, name, role, i);
    }
    forall name <- su.names | IsPlanned(su.input, name) && su.input.registry[name].service.Some?
      ensures Key(Service, su.input.config.namespace, ServiceName(name, su.input.registry[name].service.value)) in st.store
    {
      DeclaredServiceIsAsked(su, name);
      KeyOfService(su.input, name, ServiceFor(su, name).key, ServiceFor(su, name).obj);
    }
  }

  lemma KeyOfService(input: Inputs, name: string, key: Key, o: Object)
    requires IsService(input, name, key, o)
    ensures key == Key(Service, input.config.namespace, ServiceName(name, input.registry[name].service.value))
  {
  }

  lemma PlanFor(su: Setup, name: string, role: Option<string>, i: nat) returns (j: nat)
    requires ValidSetup(su) && AsksFor(su.input, su.names, name, role, i)
    ensures j < |su.planned.plans| && IsFor(su.planned.plans[j], name, role, i)
  {
    var k: nat :| k < SlotCount(su.input, name) && role == SlotRole(su.input, name, k) && i < SlotVMs(su.input, name, k);
    var n :| 0 <= n < |su.names| && su.names[n] == name;
    PlanAt(su.input, su.names, n, k, i);
    hide PlanNames, SlotCount, SlotVMs, SlotRole, VMsOfAll, VMsInSlots, IsFor, IsPlanned;
    j := VMsOfAll(su.input, su.names[..n]) + VMsInSlots(su.input, name, k) + i;
  }

  lemma KeysOfPlan(su: Setup, j: nat, name: string, role: Option<string>, i: nat)
    requires ValidSetup(su) && j < |su.planned.plans| && IsFor(su.planned.plans[j], name, role, i)
    ensures VMKey(su, j) == Key(VirtualMachine, su.input.config.namespace, VMName(name, role, i))
    ensures SecretFor(su, j).key == Key(Secret, su.input.config.namespace, VMName(name, role, i) + "-cloudinit")
  {
    PlanFacts(su, j);
    hide ValidSetup;
  }
}
