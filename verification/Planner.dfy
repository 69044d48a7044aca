/**
 Planning a run: planVMs of internal/orchestrator/orchestrator.go with the role
 distribution of internal/workloads/generic_multi.go and workload.go. A
 workload instance is what the registry's factory returns for the merged
 parameters; its cloud-init text is an abstract value.
 */
module Planner {
  import opened Collections
  import opened Options
  import opened Cluster
  import opened Naming
  import DiskWiring
  import ParamParser

  datatype RoleDefinition = RoleDefinition(name: string, vmCount: int)

  datatype RoleSpec = RoleSpec(role: string, vmCount: nat)

  /**
   `roles` has two or more entries for a multi-VM workload. `userdata` holds the
   cloud-init text by role, under "" for a single-role workload; a missing
   entry is a generation error. `storage` is None when a size is invalid.
   */
  datatype Workload = Workload(roles: seq<RoleDefinition>, userdata: map<string, string>,
                               storage: Option<DiskWiring.Storage>, service: Option<ServiceSource>)

  datatype RunConfig = RunConfig(namespace: string, image: string, cpuCores: int, memory: string, vmCountFlag: int,
                                 workloads: map<string, ParamParser.WorkloadConfig>)

  datatype Inputs = Inputs(config: RunConfig, runID: string, registry: map<string, Workload>,
                           acceptsParams: (string, map<string, string>) -> bool)

  datatype VMPlan = VMPlan(component: string, role: Option<string>, userdata: string, vm: DiskWiring.VMOptions)

  /** A row of workload_details. */
  datatype WorkloadRecord = WorkloadRecord(name: string, vmCount: nat, cpuCores: int, memory: string)

  /** What planVMs returns; `ids` holds the row number last recorded for a workload name. */
  datatype Planned = Planned(plans: seq<VMPlan>, vmNames: seq<string>, instances: map<string, Workload>,
                             ids: map<string, nat>, records: seq<WorkloadRecord>)

  const NOTHING_PLANNED := Planned([], [], map[], map[], [])

  datatype PlanError = InvalidParams(name: string) | UnknownWorkload(name: string) | InvalidStorage(name: string)
                     | NoUserdata(name: string, role: Option<string>)

  datatype PlanResult = Plans(planned: Planned) | PlanFailed(error: PlanError)

  // ---------------------------------------------------------------------
  // Services
  // ---------------------------------------------------------------------

  datatype ServiceSource = NetworkService | TPSService | CatalogService(def: DiskWiring.ServiceDefinition)

  datatype NamedObject = NamedObject(key: Key, obj: Object)

  function ServiceLabels(component: string): Labels {
    map[LABEL_APP_NAME := MANAGED_BY_VALUE, LABEL_MANAGED_BY := MANAGED_BY_VALUE, LABEL_COMPONENT := component]
  }

  function ConvertPorts(ports: seq<DiskWiring.ServicePort>): seq<Port> {
    seq(|ports|, i requires 0 <= i < |ports| =>
      Port(ports[i].name, ports[i].port, if DiskWiring.ToUpper(ports[i].protocol) == "UDP" then "UDP" else "TCP"))
  }

  /** The selector of a catalog service: the whole workload, or one role of any workload. */
  function CatalogSelector(name: string, def: DiskWiring.ServiceDefinition): Labels {
    if def.selectorRole != "" then map[LABEL_ROLE := def.selectorRole] else map[LABEL_APP_NAME := "virtwork-" + name]
  }

  function BuildService(name: string, namespace: string, source: ServiceSource): NamedObject {
    match source
    case NetworkService =>
      NamedObject(Key(Service, namespace, "virtwork-iperf3-server"),
                  Object(ServiceLabels("network"),
                         ServiceSpec(map[LABEL_ROLE := "server"], [Port("iperf3", 5201, "TCP")])))
    case TPSService =>
      NamedObject(Key(Service, namespace, "virtwork-tps-server"),
                  Object(ServiceLabels("tps"),
                         ServiceSpec(map[LABEL_ROLE := "server", LABEL_COMPONENT := "tps"],
                                     [Port("netperf-ctrl", 12865, "TCP"), Port("netperf-data", 12866, "TCP"),
                                      Port("http-data", 8080, "TCP")])))
    case CatalogService(def) =>
      NamedObject(Key(Service, namespace, "virtwork-" + name),
                  Object(ServiceLabels(name), ServiceSpec(CatalogSelector(name, def), ConvertPorts(def.ports))))
  }

  // ---------------------------------------------------------------------
  // One workload
  // ---------------------------------------------------------------------

  function Override(default: int, configured: int): int { if configured > 0 then configured else default }

  predicate Disabled(input: Inputs, name: string) {
    name in input.config.workloads && input.config.workloads[name].enabled == Some(false)
  }

  /** The run-wide settings overridden by what the file configures for this workload. */
  function Effective(input: Inputs, name: string): ParamParser.WorkloadConfig {
    var file := ParamParser.Lookup(input.config.workloads, name);
    ParamParser.WorkloadConfig(
      Some(true),
      Override(input.config.vmCountFlag, file.vmCount),
      Override(input.config.cpuCores, file.cpuCores),
      if file.memory != "" then file.memory else input.config.memory,
      file.params)
  }

  predicate IsMulti(w: Workload) { |w.roles| > 1 }

  function RoleCount(rd: RoleDefinition, configured: int): (n: nat)
    ensures n >= 1
  {
    if rd.vmCount < 1 then Max(1, configured) else rd.vmCount
  }

  function RoleDistribution(roles: seq<RoleDefinition>, configured: int): seq<RoleSpec> {
    seq(|roles|, i requires 0 <= i < |roles| => RoleSpec(roles[i].name, RoleCount(roles[i], configured)))
  }

  /** The VMs of one role (or of a whole single-role workload), numbered from 0. */
  datatype Group = Group(prefix: string, role: Option<string>, count: nat)

  function Groups(w: Workload, name: string, configured: int): seq<Group> {
    if IsMulti(w) then
      var specs := RoleDistribution(w.roles, configured);
      seq(|specs|, i requires 0 <= i < |specs| =>
        Group("virtwork-" + name + "-" + specs[i].role, Some(specs[i].role), specs[i].vmCount))
    else [Group("virtwork-" + name, None, Max(1, configured))]
  }

  function Total(groups: seq<Group>): nat {
    if groups == [] then 0 else Total(groups[..|groups| - 1]) + groups[|groups| - 1].count
  }

  /** VMCount of a workload: accumulated over its role distribution. */
  method VMCount(w: Workload, name: string, configured: int) returns (total: nat)
    ensures total == Total(Groups(w, name, configured))
  {
    var groups := Groups(w, name, configured);
    if !IsMulti(w) {
      assert groups[..|groups| - 1] == [];
      return Max(1, configured);
    }
    total := 0;
    for i := 0 to |groups|
      invariant total == Total(groups[..i])
    {
      assert groups[..i + 1][..i] == groups[..i];
      total := total + groups[i].count;
    }
    assert groups[..|groups|] == groups;
  }

  function VMLabels(name: string, role: Option<string>, runID: string): Labels {
    var labels := map[LABEL_APP_NAME := "virtwork-" + name, LABEL_MANAGED_BY := MANAGED_BY_VALUE,
                      LABEL_COMPONENT := name, LABEL_RUN_ID := runID];
    if role.Some? then labels[LABEL_ROLE := role.value] else labels
  }

  function RoleKey(role: Option<string>): string { if role.Some? then role.value else "" }

  /** VM `i` of a group; the name of its cloud-init secret is still to be filled in. */
  function PlanOf(input: Inputs, name: string, w: Workload, g: Group, i: nat): VMPlan
    requires w.storage.Some? && RoleKey(g.role) in w.userdata
  {
    var vmName := Numbered(g.prefix, i);
    var config := Effective(input, name);
    VMPlan(name, g.role, w.userdata[RoleKey(g.role)], DiskWiring.VMOptions(
      vmName, input.config.namespace, input.config.image, "", config.cpuCores, config.memory,
      VMLabels(name, g.role, input.runID), DiskWiring.ForVM(w.storage.value, vmName)))
  }

  function PlansOfGroup(input: Inputs, name: string, w: Workload, g: Group, n: nat): seq<VMPlan>
    requires w.storage.Some? && RoleKey(g.role) in w.userdata
  {
    seq(n, i requires 0 <= i < n => PlanOf(input, name, w, g, i))
  }

  /** The plans of the first groups up to one without cloud-init text; `None` when there is one. */
  function PlansOfGroups(input: Inputs, name: string, w: Workload, groups: seq<Group>): Option<seq<VMPlan>>
    requires w.storage.Some?
  {
    if groups == [] then Some([])
    else
      var g := groups[|groups| - 1];
      var before := PlansOfGroups(input, name, w, groups[..|groups| - 1]);
      if before.None? || RoleKey(g.role) !in w.userdata then None
      else Some(before.value + PlansOfGroup(input, name, w, g, g.count))
  }

  function NamesOf(plans: seq<VMPlan>): seq<string> {
    seq(|plans|, i requires 0 <= i < |plans| => plans[i].vm.name)
  }

  // ---------------------------------------------------------------------
  // All workloads
  // ---------------------------------------------------------------------

  /** The first group whose cloud-init text is missing. */
  function Missing(w: Workload, groups: seq<Group>): Option<Group> {
    if groups == [] then None
    else if Missing(w, groups[..|groups| - 1]).Some? then Missing(w, groups[..|groups| - 1])
    else if RoleKey(groups[|groups| - 1].role) !in w.userdata then Some(groups[|groups| - 1])
    else None
  }

  function PlanOne(input: Inputs, name: string, p: Planned): PlanResult {
    var config := Effective(input, name);
    if Disabled(input, name) then Plans(p)
    else if config.params != map[] && !(name in input.registry && input.acceptsParams(name, config.params)) then
      PlanFailed(InvalidParams(name))
    else if name !in input.registry then PlanFailed(UnknownWorkload(name))
    else
      var w := input.registry[name];
      var groups := Groups(w, name, config.vmCount);
      if w.storage.None? then PlanFailed(InvalidStorage(name))
      else
        var plans := PlansOfGroups(input, name, w, groups);
        MissingIffNone(input, name, w, groups);
        if plans.None? then PlanFailed(NoUserdata(name, Missing(w, groups).value.role))
        else Plans(Planned(
          p.plans + plans.value,
          p.vmNames + NamesOf(plans.value),
          p.instances[name := w],
          p.ids[name := |p.records|],
          p.records + [WorkloadRecord(name, Total(groups), config.cpuCores, config.memory)]))
  }

  lemma {:induction false} MissingIffNone(input: Inputs, name: string, w: Workload, groups: seq<Group>)
    requires w.storage.Some?
    ensures PlansOfGroups(input, name, w, groups).None? <==> Missing(w, groups).Some?
  {
    if groups != [] {
      MissingIffNone(input, name, w, groups[..|groups| - 1]);
    }
  }

  function PlanNames(input: Inputs, names: seq<string>, p: Planned): PlanResult {
    if names == [] then Plans(p)
    else match PlanOne(input, names[0], p)
      case PlanFailed(e) => PlanFailed(e)
      case Plans(next) => PlanNames(input, names[1..], next)
  }

  /** The parameters set for a workload. */
  function ParamsFor(input: Inputs, name: string): map<string, string> {
    if name in input.config.workloads then input.config.workloads[name].params else map[]
  }

  /** There is a cloud-init text for every role, or for the workload when it has no two roles. */
  predicate HasTexts(w: Workload) {
    if |w.roles| > 1 then forall rd <- w.roles :: rd.name in w.userdata else "" in w.userdata
  }

  /** The workload is skipped, or it is known, its parameters are accepted, and all it needs can be built. */
  predicate Plannable(input: Inputs, name: string) {
    Disabled(input, name) || (
      && name in input.registry
      && (ParamsFor(input, name) == map[] || input.acceptsParams(name, ParamsFor(input, name)))
      && input.registry[name].storage.Some?
      && HasTexts(input.registry[name]))
  }

  lemma TextsOfGroups(w: Workload, name: string, configured: int)
    ensures HasTexts(w) <==> forall g <- Groups(w, name, configured) :: RoleKey(g.role) in w.userdata
  {
    var groups := Groups(w, name, configured);
    if IsMulti(w) {
      assert forall k | 0 <= k < |groups| :: RoleKey(groups[k].role) == w.roles[k].name;
      if HasTexts(w) {
        forall g <- groups ensures RoleKey(g.role) in w.userdata {
          var k :| 0 <= k < |groups| && groups[k] == g;
          assert w.roles[k] in w.roles;
        }
      } else {
        var rd :| rd in w.roles && rd.name !in w.userdata;
        var k :| 0 <= k < |w.roles| && w.roles[k] == rd;
        assert groups[k] in groups;
      }
    } else {
      assert groups[0] in groups;
    }
  }

  lemma {:induction false} NoneMissingIff(w: Workload, groups: seq<Group>)
    ensures Missing(w, groups).None? <==> forall g <- groups :: RoleKey(g.role) in w.userdata
  {
    if groups != [] {
      NoneMissingIff(w, groups[..|groups| - 1]);
    }
  }

  /** Planning fails exactly when some requested workload cannot be planned. */
  lemma {:induction false} PlanningSucceedsIff(input: Inputs, names: seq<string>, p: Planned)
    ensures PlanNames(input, names, p).Plans? <==> forall name <- names :: Plannable(input, name)
  {
    if names != [] {
      PlanOneSucceedsIff(input, names[0], p);
      if Plannable(input, names[0]) {
        PlanningSucceedsIff(input, names[1..], PlanOne(input, names[0], p).planned);
      }
    }
  }

  lemma PlanOneSucceedsIff(input: Inputs, name: string, p: Planned)
    ensures PlanOne(input, name, p).Plans? <==> Plannable(input, name)
  {
    assert Effective(input, name).params == ParamsFor(input, name);
    if name in input.registry && input.registry[name].storage.Some? {
      var w := input.registry[name];
      MissingIffNone(input, name, w, Groups(w, name, Effective(input, name).vmCount));
      NoneMissingIff(w, Groups(w, name, Effective(input, name).vmCount));
      TextsOfGroups(w, name, Effective(input, name).vmCount);
      hide Groups, Effective, PlansOfGroups, Missing, HasTexts;
    }
  }

  method PlanVMs(input: Inputs, names: seq<string>) returns (r: PlanResult)
    ensures r == PlanNames(input, names, NOTHING_PLANNED)
  {
    var plans: seq<VMPlan>, vmNames: seq<string>, records: seq<WorkloadRecord> := [], [], [];
    var instances: map<string, Workload>, ids: map<string, nat> := map[], map[];
    for n := 0 to |names|
      invariant PlanNames(input, names[n..], Planned(plans, vmNames, instances, ids, records))
                == PlanNames(input, names, NOTHING_PLANNED)
    {
      var name := names[n];
      assert names[n..][1..] == names[n + 1..];
      if Disabled(input, name) {
        continue;
      }
      var config := Effective(input, name);
      if config.params != map[] {
        if !(name in input.registry && input.acceptsParams(name, config.params)) {
          return PlanFailed(InvalidParams(name));
        }
      }
      if name !in input.registry {
        return PlanFailed(UnknownWorkload(name));
      }
      var w := input.registry[name];
      var vmCount := VMCount(w, name, config.vmCount);
      if w.storage.None? {
        return PlanFailed(InvalidStorage(name));
      }
      var groups := Groups(w, name, config.vmCount);
      MissingIffNone(input, name, w, groups);
      var missing, morePlans, moreNames := PlanGroups(input, name, w, groups);
      if missing.Some? {
        return PlanFailed(NoUserdata(name, missing.value.role));
      }
      instances := instances[name := w];
      ids := ids[name := |records|];
      records := records + [WorkloadRecord(name, vmCount, config.cpuCores, config.memory)];
      plans, vmNames := plans + morePlans, vmNames + moreNames;
    }
    return Plans(Planned(plans, vmNames, instances, ids, records));
  }

  /** The loop over roles and VM numbers. */
  method PlanGroups(input: Inputs, name: string, w: Workload, groups: seq<Group>)
    returns (missing: Option<Group>, plans: seq<VMPlan>, vmNames: seq<string>)
    requires w.storage.Some?
    ensures missing == Missing(w, groups)
    ensures missing.None? ==>
              PlansOfGroups(input, name, w, groups) == Some(plans) && vmNames == NamesOf(plans)
  {
    MissingIffNone(input, name, w, groups);
    plans, vmNames := [], [];
    for k := 0 to |groups|
      invariant Missing(w, groups[..k]).None?
      invariant PlansOfGroups(input, name, w, groups[..k]) == Some(plans) && vmNames == NamesOf(plans)
    {
      var g := groups[k];
      assert groups[..k + 1][..k] == groups[..k];
      if RoleKey(g.role) !in w.userdata {
        MissingIsFirst(w, groups, k);
        return Some(g), plans, vmNames;
      }
      ghost var before := plans;
      for i := 0 to g.count
        invariant plans == before + PlansOfGroup(input, name, w, g, i)
        invariant vmNames == NamesOf(plans)
      {
        var plan := PlanOf(input, name, w, g, i);
        plans := plans + [plan];
        vmNames := vmNames + [plan.vm.name];
      }
    }
    assert groups[..|groups|] == groups;
    return None, plans, vmNames;
  }

  lemma {:induction false} MissingIsFirst(w: Workload, groups: seq<Group>, k: nat)
    requires k < |groups| && Missing(w, groups[..k]).None? && RoleKey(groups[k].role) !in w.userdata
    ensures Missing(w, groups) == Some(groups[k])
    decreases |groups|
  {
    if k == |groups| - 1 {
      assert groups[..|groups| - 1] == groups[..k];
    } else {
      var rest := groups[..|groups| - 1];
      assert rest[..k] == groups[..k];
      MissingIsFirst(w, rest, k);
    }
  }

  // ---------------------------------------------------------------------
  // Every plan is labelled for its run
  // ---------------------------------------------------------------------

  /** A plan carries the labels and the namespace that cleanup looks for, and its workload's storage. */
  predicate PlannedFor(plan: VMPlan, input: Inputs) {
    && plan.vm.labels == VMLabels(plan.component, plan.role, input.runID)
    && plan.vm.namespace == input.config.namespace
    && plan.vm.secretName == ""
    && plan.component in input.registry
    && input.registry[plan.component].storage.Some?
    && plan.vm.storage == DiskWiring.ForVM(input.registry[plan.component].storage.value, plan.vm.name)
  }

  /** The plan follows the configuration: the file's setting for the workload where it is positive, else the run's. */
  predicate FollowsConfig(plan: VMPlan, input: Inputs) {
    var config := input.config;
    var configured := plan.component in config.workloads;
    && plan.vm.image == config.image
    && plan.vm.cpuCores == (if configured && config.workloads[plan.component].cpuCores > 0
                            then config.workloads[plan.component].cpuCores else config.cpuCores)
    && plan.vm.memory == (if configured && config.workloads[plan.component].memory != ""
                          then config.workloads[plan.component].memory else config.memory)
    && plan.component in input.registry
    && RoleKey(plan.role) in input.registry[plan.component].userdata
    && plan.userdata == input.registry[plan.component].userdata[RoleKey(plan.role)]
    && !(configured && config.workloads[plan.component].enabled == Some(false))
  }

  lemma {:induction false} GroupsFollowConfig(input: Inputs, name: string, w: Workload, groups: seq<Group>)
    requires w.storage.Some? && name in input.registry && input.registry[name] == w && !Disabled(input, name)
    ensures var plans := PlansOfGroups(input, name, w, groups);
            plans.Some? ==> forall plan <- plans.value :: FollowsConfig(plan, input)
  {
    if groups != [] {
      GroupsFollowConfig(input, name, w, groups[..|groups| - 1]);
    }
  }

  lemma {:induction false} PlanNamesFollowConfig(input: Inputs, names: seq<string>, p: Planned)
    requires forall plan <- p.plans :: FollowsConfig(plan, input)
    ensures var r := PlanNames(input, names, p);
            r.Plans? ==> forall plan <- r.planned.plans :: FollowsConfig(plan, input)
  {
    if names != [] && PlanOne(input, names[0], p).Plans? {
      if !Disabled(input, names[0]) {
        var w := input.registry[names[0]];
        GroupsFollowConfig(input, names[0], w, Groups(w, names[0], Effective(input, names[0]).vmCount));
      }
      hide FollowsConfig, Groups, Effective;
      PlanNamesFollowConfig(input, names[1..], PlanOne(input, names[0], p).planned);
    }
  }

  /** Every planned VM has the settings, the image and the cloud-init text meant for it, and no disabled workload has one. */
  lemma PlansFollowConfig(input: Inputs, names: seq<string>)
    ensures var r := PlanNames(input, names, NOTHING_PLANNED);
            r.Plans? ==> forall plan <- r.planned.plans :: FollowsConfig(plan, input)
  {
    PlanNamesFollowConfig(input, names, NOTHING_PLANNED);
  }

  predicate AllPlannedFor(plans: seq<VMPlan>, input: Inputs) {
    forall plan <- plans :: PlannedFor(plan, input)
  }

  lemma {:induction false} GroupsPlanned(input: Inputs, name: string, w: Workload, groups: seq<Group>)
    requires w.storage.Some? && name in input.registry && input.registry[name] == w
    ensures var plans := PlansOfGroups(input, name, w, groups);
            plans.Some? ==>
              && AllPlannedFor(plans.value, input)
              && (forall plan <- plans.value :: plan.component == name)
              && |plans.value| == Total(groups)
  {
    if groups != [] {
      GroupsPlanned(input, name, w, groups[..|groups| - 1]);
    }
  }

  // ---------------------------------------------------------------------
  // Counts are conserved
  // ---------------------------------------------------------------------

  function PlansFor(plans: seq<VMPlan>, name: string): nat {
    if plans == [] then 0 else (if plans[0].component == name then 1 else 0) + PlansFor(plans[1..], name)
  }

  function RecordedFor(records: seq<WorkloadRecord>, name: string): nat {
    if records == [] then 0
    else (if records[0].name == name then records[0].vmCount else 0) + RecordedFor(records[1..], name)
  }

  function RecordedTotal(records: seq<WorkloadRecord>): nat {
    if records == [] then 0 else records[0].vmCount + RecordedTotal(records[1..])
  }

  lemma {:induction false} PlansForSum(p: seq<VMPlan>, q: seq<VMPlan>, name: string)
    ensures PlansFor(p + q, name) == PlansFor(p, name) + PlansFor(q, name)
  {
    if p == [] {
      assert p + q == q;
    } else {
      assert (p + q)[1..] == p[1..] + q;
      PlansForSum(p[1..], q, name);
    }
  }

  lemma {:induction false} PlansForOne(p: seq<VMPlan>, owner: string, name: string)
    requires forall plan <- p :: plan.component == owner
    ensures PlansFor(p, name) == if owner == name then |p| else 0
  {
    if p != [] {
      PlansForOne(p[1..], owner, name);
    }
  }

  lemma {:induction false} RecordedSum(r: seq<WorkloadRecord>, last: WorkloadRecord, name: string)
    ensures RecordedFor(r + [last], name) == RecordedFor(r, name) + (if last.name == name then last.vmCount else 0)
    ensures RecordedTotal(r + [last]) == RecordedTotal(r) + last.vmCount
  {
    if r == [] {
      assert r + [last] == [last];
    } else {
      assert (r + [last])[1..] == r[1..] + [last];
      RecordedSum(r[1..], last, name);
    }
  }

  predicate Conserved(p: Planned, name: string) {
    && p.vmNames == NamesOf(p.plans)
    && |p.plans| == RecordedTotal(p.records)
    && PlansFor(p.plans, name) == RecordedFor(p.records, name)
  }

  lemma {:induction false} PlanNamesConserves(input: Inputs, names: seq<string>, p: Planned, name: string)
    requires AllPlannedFor(p.plans, input) && Conserved(p, name)
    ensures var r := PlanNames(input, names, p);
            r.Plans? ==> AllPlannedFor(r.planned.plans, input) && Conserved(r.planned, name)
  {
    if names != [] && PlanOne(input, names[0], p).Plans? {
      PlanOneConserves(input, names[0], p, name);
      PlanNamesConserves(input, names[1..], PlanOne(input, names[0], p).planned, name);
    }
  }

  lemma PlanOneConserves(input: Inputs, next: string, p: Planned, name: string)
    requires AllPlannedFor(p.plans, input) && Conserved(p, name)
    ensures var r := PlanOne(input, next, p);
            r.Plans? ==> AllPlannedFor(r.planned.plans, input) && Conserved(r.planned, name)
  {
    var r := PlanOne(input, next, p);
    if r.Plans? && !Disabled(input, next) {
      var w := input.registry[next];
      var config := Effective(input, next);
      var groups := Groups(w, next, config.vmCount);
      var more := PlansOfGroups(input, next, w, groups).value;
      GroupsPlanned(input, next, w, groups);
      PlansForSum(p.plans, more, name);
      PlansForOne(more, next, name);
      RecordedSum(p.records, WorkloadRecord(next, Total(groups), config.cpuCores, config.memory), name);
      assert NamesOf(p.plans + more) == NamesOf(p.plans) + NamesOf(more);
    }
  }

  /**
   Every plan is labelled for the run, the names are listed in plan order, and
   for each workload as many VMs are planned as were recorded for it, also when
   a workload is requested more than once.
   */
  lemma PlanningConserves(input: Inputs, names: seq<string>, name: string)
    ensures var r := PlanNames(input, names, NOTHING_PLANNED);
            r.Plans? ==> AllPlannedFor(r.planned.plans, input) && Conserved(r.planned, name)
  {
    PlanNamesConserves(input, names, NOTHING_PLANNED, name);
  }

  /** Every VM that can be built from the plans has its disks, volumes and templates consistent. */
  lemma PlannedVMsAreWired(input: Inputs, names: seq<string>, plan: VMPlan, secretName: string,
                           isQuantity: DiskWiring.Quantities)
    requires forall name <- input.registry :: DiskWiring.Registered(input.registry[name].storage, isQuantity)
    ensures var r := PlanNames(input, names, NOTHING_PLANNED);
            var built := DiskWiring.BuildVMSpec(plan.vm.(secretName := secretName), isQuantity);
            r.Plans? && plan in r.planned.plans && built.Built? ==>
              && DiskWiring.PairedAndDistinct(built.vm.spec.disks, built.vm.spec.volumes)
              && DiskWiring.ReferencesResolve(built.vm.spec.volumes, built.vm.spec.templates)
  {
    PlanningConserves(input, names, "");
    var r := PlanNames(input, names, NOTHING_PLANNED);
    if r.Plans? && plan in r.planned.plans {
      hide PlanNames;
      PlanIsWired(input, plan, isQuantity);
      DiskWiring.BuiltVMIsWired(plan.vm.(secretName := secretName), isQuantity);
    }
  }

  lemma PlanIsWired(input: Inputs, plan: VMPlan, isQuantity: DiskWiring.Quantities)
    requires PlannedFor(plan, input)
    requires forall name <- input.registry :: DiskWiring.Registered(input.registry[name].storage, isQuantity)
    ensures DiskWiring.WellWired(plan.vm.storage)
  {
    var storage := input.registry[plan.component].storage;
    hide DiskWiring.Registered, DiskWiring.WellWired;
    DiskWiring.RegisteredStorageIsWired(storage, isQuantity);
    DiskWiring.RenamingKeepsWiring(storage.value, plan.vm.name);
  }

  // ---------------------------------------------------------------------
  // VM names are distinct exactly when the prefixes are
  // ---------------------------------------------------------------------

  predicate Distinct(s: seq<string>) {
    forall i, j | 0 <= i < j < |s| :: s[i] != s[j]
  }

  /** The groups of all workloads that are planned, in plan order. */
  function AllGroups(input: Inputs, names: seq<string>): seq<Group> {
    if names == [] then []
    else (if Disabled(input, names[0]) || names[0] !in input.registry then []
          else Groups(input.registry[names[0]], names[0], Effective(input, names[0]).vmCount))
         + AllGroups(input, names[1..])
  }

  function Prefixes(groups: seq<Group>): seq<string> {
    seq(|groups|, i requires 0 <= i < |groups| => groups[i].prefix)
  }

  function GroupNames(g: Group): seq<string> {
    seq(g.count, i requires 0 <= i < g.count => Numbered(g.prefix, i))
  }

  function AllNames(groups: seq<Group>): seq<string> {
    if groups == [] then [] else AllNames(groups[..|groups| - 1]) + GroupNames(groups[|groups| - 1])
  }

  lemma {:induction false} AllNamesSum(g: seq<Group>, h: seq<Group>)
    ensures AllNames(g + h) == AllNames(g) + AllNames(h)
    decreases |h|
  {
    if h == [] {
      assert g + h == g;
    } else {
      assert (g + h)[..|g + h| - 1] == g + h[..|h| - 1];
      AllNamesSum(g, h[..|h| - 1]);
    }
  }

  lemma {:induction false} NamesFollowGroups(input: Inputs, name: string, w: Workload, groups: seq<Group>)
    requires w.storage.Some?
    ensures var plans := PlansOfGroups(input, name, w, groups);
            plans.Some? ==> NamesOf(plans.value) == AllNames(groups)
  {
    if groups != [] {
      var before := PlansOfGroups(input, name, w, groups[..|groups| - 1]);
      NamesFollowGroups(input, name, w, groups[..|groups| - 1]);
      var g := groups[|groups| - 1];
      if before.Some? && RoleKey(g.role) in w.userdata {
        var more := PlansOfGroup(input, name, w, g, g.count);
        assert NamesOf(before.value + more) == NamesOf(before.value) + NamesOf(more);
        assert NamesOf(more) == GroupNames(g);
      }
    }
  }

  lemma {:induction false} NamesFollowAllGroups(input: Inputs, names: seq<string>, p: Planned)
    ensures var r := PlanNames(input, names, p);
            r.Plans? ==> r.planned.vmNames == p.vmNames + AllNames(AllGroups(input, names))
  {
    if names != [] && PlanOne(input, names[0], p).Plans? {
      var next := PlanOne(input, names[0], p).planned;
      NamesFollowAllGroups(input, names[1..], next);
      if Disabled(input, names[0]) {
        assert AllGroups(input, names) == AllGroups(input, names[1..]);
      } else {
        var w := input.registry[names[0]];
        var groups := Groups(w, names[0], Effective(input, names[0]).vmCount);
        NamesFollowGroups(input, names[0], w, groups);
        AllNamesSum(groups, AllGroups(input, names[1..]));
      }
    }
  }

  lemma {:induction false} NameComesFromGroup(groups: seq<Group>, k: nat)
    requires k < |AllNames(groups)|
    ensures exists g, i: nat ::
              0 <= g < |groups| && i < groups[g].count && AllNames(groups)[k] == Numbered(groups[g].prefix, i)
  {
    var before, last := groups[..|groups| - 1], groups[|groups| - 1];
    if k < |AllNames(before)| {
      NameComesFromGroup(before, k);
      var g, i: nat :| 0 <= g < |before| && i < before[g].count && AllNames(before)[k] == Numbered(before[g].prefix, i);
      assert groups[g] == before[g];
    } else {
      var i := k - |AllNames(before)|;
      assert AllNames(groups)[k] == Numbered(last.prefix, i);
    }
  }

  lemma {:induction false} FirstNameOf(groups: seq<Group>, g: nat) returns (k: nat)
    requires g < |groups| && forall h <- groups :: h.count >= 1
    ensures k < |AllNames(groups)| && AllNames(groups)[k] == Numbered(groups[g].prefix, 0)
  {
    var before, last := groups[..|groups| - 1], groups[|groups| - 1];
    if g == |groups| - 1 {
      k := |AllNames(before)|;
      assert AllNames(groups)[k] == GroupNames(last)[0];
    } else {
      k := FirstNameOf(before, g);
    }
  }

  lemma {:induction false} NamesDistinctIffPrefixes(groups: seq<Group>)
    requires forall g <- groups :: g.count >= 1
    ensures Distinct(AllNames(groups)) <==> Distinct(Prefixes(groups))
  {
    if groups != [] {
      var before, last := groups[..|groups| - 1], groups[|groups| - 1];
      NamesDistinctIffPrefixes(before);
      var names, tail := AllNames(before), GroupNames(last);
      assert Prefixes(groups) == Prefixes(before) + [last.prefix];
      if Distinct(Prefixes(groups)) {
        forall i, j | 0 <= i < |Prefixes(before)| && i < j < |Prefixes(before)|
          ensures Prefixes(before)[i] != Prefixes(before)[j]
        {
          assert Prefixes(groups)[i] == Prefixes(before)[i] && Prefixes(groups)[j] == Prefixes(before)[j];
        }
        forall prefix <- Prefixes(before) ensures prefix != last.prefix {
          var g :| 0 <= g < |before| && Prefixes(before)[g] == prefix;
          assert Prefixes(groups)[g] != Prefixes(groups)[|before|];
        }
        forall i, j | 0 <= i < j < |AllNames(groups)| ensures AllNames(groups)[i] != AllNames(groups)[j] {
          LaterNameDiffers(before, last, i, j);
        }
      } else if !Distinct(Prefixes(before)) {
        var i, j :| 0 <= i < j < |names| && names[i] == names[j];
        assert AllNames(groups)[i] == AllNames(groups)[j];
      } else {
        var g :| 0 <= g < |before| && before[g].prefix == last.prefix;
        var k := FirstNameOf(before, g);
        assert AllNames(groups)[k] == AllNames(groups)[|names|] by {
          assert tail[0] == Numbered(last.prefix, 0);
        }
      }
    }
  }

  lemma LaterNameDiffers(before: seq<Group>, last: Group, i: nat, j: nat)
    requires Distinct(AllNames(before)) && last.prefix !in Prefixes(before)
    requires i < j < |AllNames(before) + GroupNames(last)|
    ensures (AllNames(before) + GroupNames(last))[i] != (AllNames(before) + GroupNames(last))[j]
  {
    var n := |AllNames(before)|;
    if j >= n {
      if i >= n {
        NumberedInjective(last.prefix, last.prefix, i - n, j - n);
      } else {
        NameComesFromGroup(before, i);
        var g, m: nat :| 0 <= g < |before| && m < before[g].count && AllNames(before)[i] == Numbered(before[g].prefix, m);
        assert Prefixes(before)[g] == before[g].prefix;
        NumberedInjective(before[g].prefix, last.prefix, m, j - n);
      }
    }
  }

  lemma {:induction false} GroupsHaveVMs(input: Inputs, names: seq<string>)
    ensures forall g <- AllGroups(input, names) :: g.count >= 1
  {
    if names != [] {
      GroupsHaveVMs(input, names[1..]);
    }
  }

  /** The planned VM names are pairwise distinct exactly when the name prefixes are. */
  lemma PlannedNamesDistinct(input: Inputs, names: seq<string>)
    ensures var r := PlanNames(input, names, NOTHING_PLANNED);
            r.Plans? ==> (Distinct(r.planned.vmNames) <==> Distinct(Prefixes(AllGroups(input, names))))
  {
    NamesFollowAllGroups(input, names, NOTHING_PLANNED);
    GroupsHaveVMs(input, names);
    NamesDistinctIffPrefixes(AllGroups(input, names));
    var r := PlanNames(input, names, NOTHING_PLANNED);
    assert r.Plans? ==> r.planned.vmNames == AllNames(AllGroups(input, names));
  }

  /**
   A catalog entry named after a workload and one of its roles takes that role's
   names: planning both succeeds and names two VMs alike.
   */
  lemma RoleShadowedByWorkload(input: Inputs)
    requires Plannable(input, "network") && Plannable(input, "network-server")
    requires !Disabled(input, "network") && !Disabled(input, "network-server")
    requires IsMulti(input.registry["network"]) && input.registry["network"].roles[0].name == "server"
    requires !IsMulti(input.registry["network-server"])
    ensures var r := PlanNames(input, ["network", "network-server"], NOTHING_PLANNED);
            r.Plans? && !Distinct(r.planned.vmNames)
  {
    var names := ["network", "network-server"];
    PlanningSucceedsIff(input, names, NOTHING_PLANNED);
    PlannedNamesDistinct(input, names);
    hide PlanNames;
    assert names[1..] == ["network-server"] && names[1..][1..] == [];
    var w, entry := input.registry["network"], input.registry["network-server"];
    var first := Groups(w, "network", Effective(input, "network").vmCount);
    var second := Groups(entry, "network-server", Effective(input, "network-server").vmCount);
    var groups := AllGroups(input, names);
    assert AllGroups(input, names[1..]) == second + [];
    assert groups == first + second;
    assert groups[0] == first[0] && groups[|first|] == second[0];
    assert "virtwork-" + "network" + "-" + "server" == "virtwork-" + "network-server";
    assert Prefixes(groups)[0] == Prefixes(groups)[|first|];
  }

  // ---------------------------------------------------------------------
  // Which VMs a service reaches
  // ---------------------------------------------------------------------

  /**
   A catalog service reaches only its own workload's VMs exactly when it has no
   role selector or no other planned workload has a VM in that role.
   */
  lemma CatalogServiceReach(input: Inputs, plans: seq<VMPlan>, name: string, def: DiskWiring.ServiceDefinition)
    requires AllPlannedFor(plans, input)
    ensures (forall plan <- plans | MatchesLabels(plan.vm.labels, CatalogSelector(name, def)) :: plan.component == name)
            <==> (def.selectorRole == "" ||
                  forall plan <- plans | plan.role == Some(def.selectorRole) :: plan.component == name)
  {
    forall plan <- plans
      ensures MatchesLabels(plan.vm.labels, CatalogSelector(name, def))
              <==> if def.selectorRole == "" then plan.component == name else plan.role == Some(def.selectorRole)
    {
      SelectorMeaning(input, plan, name, def);
    }
  }

  lemma SelectorMeaning(input: Inputs, plan: VMPlan, name: string, def: DiskWiring.ServiceDefinition)
    requires PlannedFor(plan, input)
    ensures MatchesLabels(plan.vm.labels, CatalogSelector(name, def))
            <==> if def.selectorRole == "" then plan.component == name else plan.role == Some(def.selectorRole)
  {
    LabelsDiffer();
    var selector := CatalogSelector(name, def);
    if def.selectorRole == "" {
      assert selector.Keys == {LABEL_APP_NAME};
      assert plan.vm.labels[LABEL_APP_NAME] == "virtwork-" + plan.component;
      assert ("virtwork-" + plan.component)[9..] == plan.component && ("virtwork-" + name)[9..] == name;
    } else {
      assert selector.Keys == {LABEL_ROLE};
    }
  }

  function SelectorOf(source: ServiceSource): Labels {
    BuildService("", "", source).obj.spec.selector
  }

  /**
   The iperf3 service reaches every planned VM in the role "server", of
   whatever workload; the tps service only those of tps.
   */
  lemma BuiltInServiceReach(input: Inputs, plan: VMPlan)
    requires PlannedFor(plan, input)
    ensures MatchesLabels(plan.vm.labels, SelectorOf(NetworkService)) <==> plan.role == Some("server")
    ensures MatchesLabels(plan.vm.labels, SelectorOf(TPSService)) <==> plan.role == Some("server") && plan.component == "tps"
  {
    LabelsDiffer();
    assert SelectorOf(NetworkService).Keys == {LABEL_ROLE};
    assert SelectorOf(TPSService).Keys == {LABEL_ROLE, LABEL_COMPONENT};
  }
}
