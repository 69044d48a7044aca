/**
 What a plan holds, told from the configuration, the manifests and the requested
 names alone: every VM at its position, the counts by role, the rows recorded,
 the workloads kept, and the error when there is one (planVMs of
 internal/orchestrator/orchestrator.go with RoleDistribution of
 internal/workloads/generic_multi.go).
 */
module PlanLaws {
  import opened Options
  import opened Naming
  import opened Planner
  import DiskWiring

  // ---------------------------------------------------------------------
  // What the inputs ask for
  // ---------------------------------------------------------------------

  predicate IsPlanned(input: Inputs, name: string) {
    name in input.registry && !(name in input.config.workloads && input.config.workloads[name].enabled == Some(false))
  }

  /** The VM count set for a workload: the file's when it is positive, else the flag's. */
  function CountSet(input: Inputs, name: string): int {
    if name in input.config.workloads && input.config.workloads[name].vmCount > 0
    then input.config.workloads[name].vmCount else input.config.vmCountFlag
  }

  /** A workload with fewer than two roles is one slot, any other has a slot for each. */
  function SlotCount(input: Inputs, name: string): nat
    requires name in input.registry
  {
    if |input.registry[name].roles| > 1 then |input.registry[name].roles| else 1
  }

  function SlotRole(input: Inputs, name: string, k: nat): Option<string>
    requires name in input.registry && k < SlotCount(input, name)
  {
    if |input.registry[name].roles| > 1 then Some(input.registry[name].roles[k].name) else None
  }

  /** A role's own count counts when it is positive, else the one set for the workload, which is at least one. */
  function SlotVMs(input: Inputs, name: string, k: nat): nat
    requires name in input.registry && k < SlotCount(input, name)
  {
    var w := input.registry[name];
    if |w.roles| > 1 && w.roles[k].vmCount >= 1 then w.roles[k].vmCount
    else if CountSet(input, name) >= 1 then CountSet(input, name)
    else 1
  }

  function VMsInSlots(input: Inputs, name: string, n: nat): nat
    requires name in input.registry && n <= SlotCount(input, name)
  {
    if n == 0 then 0 else VMsInSlots(input, name, n - 1) + SlotVMs(input, name, n - 1)
  }

  function VMsOf(input: Inputs, name: string): nat {
    if IsPlanned(input, name) then VMsInSlots(input, name, SlotCount(input, name)) else 0
  }

  function VMsOfAll(input: Inputs, names: seq<string>): nat {
    if names == [] then 0 else VMsOf(input, names[0]) + VMsOfAll(input, names[1..])
  }

  function VMName(name: string, role: Option<string>, i: nat): string {
    "virtwork-" + name + (if role.Some? then "-" + role.value else "") + "-" + Decimal(i)
  }

  // ---------------------------------------------------------------------
  // Every VM at its position
  // ---------------------------------------------------------------------

  /** The groups that are planned for a workload. */
  function GroupsOf(input: Inputs, name: string): seq<Group>
    requires name in input.registry
  {
    Groups(input.registry[name], name, Effective(input, name).vmCount)
  }

  lemma SlotIsGroup(input: Inputs, name: string, k: nat)
    requires name in input.registry && k < SlotCount(input, name)
    ensures |GroupsOf(input, name)| == SlotCount(input, name)
    ensures var g := GroupsOf(input, name)[k];
            && g.role == SlotRole(input, name, k) && g.count == SlotVMs(input, name, k)
            && g.prefix == "virtwork-" + name + (if g.role.Some? then "-" + g.role.value else "")
  {
    if !IsMulti(input.registry[name]) {
      assert "virtwork-" + name + "" == "virtwork-" + name;
    } else {
      var role := input.registry[name].roles[k].name;
      assert "virtwork-" + name + "-" + role == "virtwork-" + name + ("-" + role);
    }
  }

  lemma {:induction false} SlotsAreGroups(input: Inputs, name: string, n: nat)
    requires name in input.registry && n <= SlotCount(input, name)
    ensures |GroupsOf(input, name)| == SlotCount(input, name)
    ensures Total(GroupsOf(input, name)[..n]) == VMsInSlots(input, name, n)
  {
    SlotIsGroup(input, name, 0);
    if n > 0 {
      SlotIsGroup(input, name, n - 1);
      SlotsAreGroups(input, name, n - 1);
      hide GroupsOf, SlotVMs;
      var groups := GroupsOf(input, name);
      assert groups[..n][..n - 1] == groups[..n - 1];
    }
  }

  /** Plan `i` of group `k` comes after all plans of the groups before. */
  lemma {:induction false} GroupPlanAt(input: Inputs, name: string, w: Workload, groups: seq<Group>, k: nat, i: nat)
    requires w.storage.Some? && PlansOfGroups(input, name, w, groups).Some?
    requires k < |groups| && i < groups[k].count
    ensures var plans := PlansOfGroups(input, name, w, groups).value;
            && |plans| == Total(groups) && Total(groups[..k]) + i < |plans|
            && RoleKey(groups[k].role) in w.userdata
            && plans[Total(groups[..k]) + i] == PlanOf(input, name, w, groups[k], i)
    decreases |groups|
  {
    var before := groups[..|groups| - 1];
    PlansTotal(input, name, w, before);
    if k < |before| {
      GroupPlanAt(input, name, w, before, k, i);
      assert groups[..k] == before[..k];
    }
  }

  lemma {:induction false} PlansTotal(input: Inputs, name: string, w: Workload, groups: seq<Group>)
    requires w.storage.Some? && PlansOfGroups(input, name, w, groups).Some?
    ensures |PlansOfGroups(input, name, w, groups).value| == Total(groups)
  {
    if groups != [] {
      PlansTotal(input, name, w, groups[..|groups| - 1]);
    }
  }

  /** What planning one more workload adds. */
  lemma PlanOneAdds(input: Inputs, name: string, p: Planned)
    requires PlanOne(input, name, p).Plans?
    ensures var next := PlanOne(input, name, p).planned;
            && p.plans <= next.plans && |next.plans| == |p.plans| + VMsOf(input, name)
    ensures IsPlanned(input, name) ==>
              && input.registry[name].storage.Some?
              && PlansOfGroups(input, name, input.registry[name], GroupsOf(input, name)).Some?
              && PlanOne(input, name, p).planned.plans
                 == p.plans + PlansOfGroups(input, name, input.registry[name], GroupsOf(input, name)).value
  {
    if IsPlanned(input, name) {
      SlotsAreGroups(input, name, SlotCount(input, name));
      PlansTotal(input, name, input.registry[name], GroupsOf(input, name));
      var groups := GroupsOf(input, name);
      assert groups[..|groups|] == groups;
    }
    hide PlansOfGroups, Total;
  }

  /** The plan is for VM `i` of a slot. */
  predicate IsFor(plan: VMPlan, name: string, role: Option<string>, i: nat) {
    plan.component == name && plan.role == role && plan.vm.name == VMName(name, role, i)
  }

  /** The plan at this position is for VM `i` of a slot. */
  predicate IsAt(plans: seq<VMPlan>, at: nat, name: string, role: Option<string>, i: nat) {
    at < |plans| && IsFor(plans[at], name, role, i)
  }

  lemma StaysAt(plans: seq<VMPlan>, more: seq<VMPlan>, at: nat, name: string, role: Option<string>, i: nat)
    requires plans <= more && IsAt(plans, at, name, role, i)
    ensures IsAt(more, at, name, role, i)
  {
    hide IsFor;
  }

  lemma SlotPlanAt(input: Inputs, name: string, p: Planned, k: nat, i: nat)
    requires IsPlanned(input, name) && PlanOne(input, name, p).Plans?
    requires k < SlotCount(input, name) && i < SlotVMs(input, name, k)
    ensures IsAt(PlanOne(input, name, p).planned.plans, |p.plans| + VMsInSlots(input, name, k) + i,
                 name, SlotRole(input, name, k), i)
  {
    KnownIfPlanned(input, name);
    PlanOneAdds(input, name, p);
    hide *;
    var groups := GroupsOf(input, name);
    SlotIsGroup(input, name, k);
    SlotsAreGroups(input, name, k);
    GroupPlanAt(input, name, input.registry[name], groups, k, i);
    var plans, more := p.plans, PlansOfGroups(input, name, input.registry[name], groups).value;
    PlanOfIsFor(input, name, input.registry[name], groups[k], i);
    assert (plans + more)[|plans| + (Total(groups[..k]) + i)] == more[Total(groups[..k]) + i];
    AtMeans(plans + more, |plans| + VMsInSlots(input, name, k) + i, name, groups[k].role, i);
  }

  lemma KnownIfPlanned(input: Inputs, name: string)
    requires IsPlanned(input, name)
    ensures name in input.registry
  {
  }

  lemma AtMeans(plans: seq<VMPlan>, at: nat, name: string, role: Option<string>, i: nat)
    ensures IsAt(plans, at, name, role, i) <==> at < |plans| && IsFor(plans[at], name, role, i)
  {
    hide IsFor;
  }

  lemma PlanOfIsFor(input: Inputs, name: string, w: Workload, g: Group, i: nat)
    requires w.storage.Some? && RoleKey(g.role) in w.userdata
    requires g.prefix == "virtwork-" + name + (if g.role.Some? then "-" + g.role.value else "")
    ensures IsFor(PlanOf(input, name, w, g, i), name, g.role, i)
  {
    hide Effective, VMLabels, DiskWiring.ForVM;
  }

  lemma {:induction false} PlansOnlyGrow(input: Inputs, names: seq<string>, p: Planned)
    requires PlanNames(input, names, p).Plans?
    ensures var q := PlanNames(input, names, p).planned;
            p.plans <= q.plans && |q.plans| == |p.plans| + VMsOfAll(input, names)
  {
    if names != [] {
      PlanOneAdds(input, names[0], p);
      PlansOnlyGrow(input, names[1..], PlanOne(input, names[0], p).planned);
      hide PlanOne, VMsOf;
    }
  }

  lemma {:induction false} PlanAtFrom(input: Inputs, names: seq<string>, p: Planned, n: nat, k: nat, i: nat)
    requires PlanNames(input, names, p).Plans? && n < |names| && IsPlanned(input, names[n])
    requires k < SlotCount(input, names[n]) && i < SlotVMs(input, names[n], k)
    ensures IsAt(PlanNames(input, names, p).planned.plans,
                 |p.plans| + VMsOfAll(input, names[..n]) + VMsInSlots(input, names[n], k) + i,
                 names[n], SlotRole(input, names[n], k), i)
  {
    FirstRequest(input, names, p);
    VMsBefore(input, names, n);
    hide *;
    var next := PlanOne(input, names[0], p).planned;
    if n == 0 {
      SlotPlanAt(input, names[0], p, k, i);
      PlansOnlyGrow(input, names[1..], next);
      StaysAt(next.plans, PlanNames(input, names, p).planned.plans, |p.plans| + VMsInSlots(input, names[0], k) + i,
              names[0], SlotRole(input, names[0], k), i);
    } else {
      PlanOneAdds(input, names[0], p);
      PlanAtFrom(input, names[1..], next, n - 1, k, i);
    }
  }

  lemma VMsBefore(input: Inputs, names: seq<string>, n: nat)
    requires n < |names|
    ensures VMsOfAll(input, names[..n])
            == if n == 0 then 0 else VMsOf(input, names[0]) + VMsOfAll(input, names[1..][..n - 1])
  {
    if n > 0 {
      assert names[..n][1..] == names[1..][..n - 1];
    }
  }

  lemma FirstRequest(input: Inputs, names: seq<string>, p: Planned)
    requires names != [] && PlanNames(input, names, p).Plans?
    ensures PlanOne(input, names[0], p).Plans?
    ensures PlanNames(input, names[1..], PlanOne(input, names[0], p).planned) == PlanNames(input, names, p)
  {
    hide PlanOne;
  }

  /**
   The whole plan, position by position: VM `i` of role `k` of the n-th request
   comes after the VMs of all requests before, of the roles before and of the
   numbers before, has its name from workload, role and number, and there are no
   other VMs.
   */
  lemma PlanAt(input: Inputs, names: seq<string>, n: nat, k: nat, i: nat)
    requires n < |names| && IsPlanned(input, names[n])
    requires k < SlotCount(input, names[n]) && i < SlotVMs(input, names[n], k)
    ensures var r := PlanNames(input, names, NOTHING_PLANNED);
            r.Plans? ==>
              var at := VMsOfAll(input, names[..n]) + VMsInSlots(input, names[n], k) + i;
              && at < |r.planned.plans| == VMsOfAll(input, names)
              && IsFor(r.planned.plans[at], names[n], SlotRole(input, names[n], k), i)
  {
    hide PlanNames, VMsOfAll, VMsInSlots, SlotRole, SlotVMs, SlotCount, IsPlanned, IsFor;
    if PlanNames(input, names, NOTHING_PLANNED).Plans? {
      PlansOnlyGrow(input, names, NOTHING_PLANNED);
      PlanAtFrom(input, names, NOTHING_PLANNED, n, k, i);
    }
  }

  /** The plan is for one of the VMs that are asked for. */
  ghost predicate IsAskedFor(plan: VMPlan, input: Inputs, name: string) {
    IsPlanned(input, name) && exists k: nat, i: nat ::
      k < SlotCount(input, name) && i < SlotVMs(input, name, k) && IsFor(plan, name, SlotRole(input, name, k), i)
  }

  lemma {:induction false} GroupPlansAreAskedFor(input: Inputs, name: string, n: nat)
    requires IsPlanned(input, name) && input.registry[name].storage.Some? && n <= SlotCount(input, name)
    ensures |GroupsOf(input, name)| == SlotCount(input, name)
    ensures var plans := PlansOfGroups(input, name, input.registry[name], GroupsOf(input, name)[..n]);
            plans.Some? ==> forall plan <- plans.value :: IsAskedFor(plan, input, name)
  {
    SlotIsGroup(input, name, 0);
    if n > 0 {
      SlotIsGroup(input, name, n - 1);
      GroupPlansAreAskedFor(input, name, n - 1);
      var w, groups := input.registry[name], GroupsOf(input, name);
      assert groups[..n][..n - 1] == groups[..n - 1];
      var plans := PlansOfGroups(input, name, w, groups[..n]);
      if plans.Some? {
        var g := groups[n - 1];
        var more := PlansOfGroup(input, name, w, g, g.count);
        hide GroupsOf, SlotVMs, SlotRole, SlotCount;
        forall plan <- more ensures IsAskedFor(plan, input, name) {
          var i: nat :| i < g.count && plan == PlanOf(input, name, w, g, i);
          assert IsFor(plan, name, SlotRole(input, name, n - 1), i);
        }
      }
    }
  }

  lemma {:induction false} PlansAreAskedFor(input: Inputs, names: seq<string>, p: Planned)
    requires PlanNames(input, names, p).Plans?
    ensures forall plan <- PlanNames(input, names, p).planned.plans ::
              plan in p.plans || exists name <- names :: IsAskedFor(plan, input, name)
  {
    if names != [] {
      FirstRequest(input, names, p);
      PlanOneAdds(input, names[0], p);
      PlansAreAskedFor(input, names[1..], PlanOne(input, names[0], p).planned);
      if IsPlanned(input, names[0]) {
        GroupPlansAreAskedFor(input, names[0], SlotCount(input, names[0]));
        var groups := GroupsOf(input, names[0]);
        assert groups[..|groups|] == groups;
      }
      hide PlanNames, PlanOne, PlansOfGroups, IsAskedFor, IsPlanned, VMsOf;
      assert names[0] in names && forall name <- names[1..] :: name in names;
    }
  }

  // ---------------------------------------------------------------------
  // How many VMs of a role
  // ---------------------------------------------------------------------

  /** Workload and role of each plan. */
  function RolesOf(plans: seq<VMPlan>): seq<(string, Option<string>)> {
    seq(|plans|, i requires 0 <= i < |plans| => (plans[i].component, plans[i].role))
  }

  /** The VMs that the first `n` slots ask for in a role; two roles of one name add up. */
  function RoleVMs(input: Inputs, name: string, role: Option<string>, n: nat): nat
    requires name in input.registry && n <= SlotCount(input, name)
  {
    if n == 0 then 0
    else RoleVMs(input, name, role, n - 1) + if SlotRole(input, name, n - 1) == role then SlotVMs(input, name, n - 1) else 0
  }

  function AllRoleVMs(input: Inputs, name: string, role: Option<string>): nat {
    if IsPlanned(input, name) then RoleVMs(input, name, role, SlotCount(input, name)) else 0
  }

  function CountIn(groups: seq<Group>, role: Option<string>): nat {
    if groups == [] then 0
    else
      var last := groups[|groups| - 1];
      CountIn(groups[..|groups| - 1], role) + if last.role == role then last.count else 0
  }

  lemma {:induction false} CountInSlots(input: Inputs, name: string, role: Option<string>, n: nat)
    requires name in input.registry && n <= SlotCount(input, name)
    ensures |GroupsOf(input, name)| == SlotCount(input, name)
    ensures CountIn(GroupsOf(input, name)[..n], role) == RoleVMs(input, name, role, n)
  {
    SlotIsGroup(input, name, 0);
    if n > 0 {
      SlotIsGroup(input, name, n - 1);
      CountInSlots(input, name, role, n - 1);
      hide GroupsOf, SlotVMs, SlotRole;
      var groups := GroupsOf(input, name);
      assert groups[..n][..n - 1] == groups[..n - 1];
    }
  }

  lemma {:induction false} SameRoles(plans: seq<VMPlan>, name: string, role: Option<string>, other: (string, Option<string>))
    requires forall plan <- plans :: plan.component == name && plan.role == role
    ensures multiset(RolesOf(plans))[other] == if other == (name, role) then |plans| else 0
  {
    if plans != [] {
      var before, last := plans[..|plans| - 1], plans[|plans| - 1];
      SameRoles(before, name, role, other);
      assert RolesOf(plans) == RolesOf(before) + [(name, role)];
    }
  }

  lemma {:induction false} GroupsCount(input: Inputs, name: string, w: Workload, groups: seq<Group>, other: string,
                                       role: Option<string>)
    requires w.storage.Some? && PlansOfGroups(input, name, w, groups).Some?
    ensures multiset(RolesOf(PlansOfGroups(input, name, w, groups).value))[(other, role)]
            == if other == name then CountIn(groups, role) else 0
  {
    if groups != [] {
      var before, last := groups[..|groups| - 1], groups[|groups| - 1];
      GroupsCount(input, name, w, before, other, role);
      var plans, more := PlansOfGroups(input, name, w, before).value, PlansOfGroup(input, name, w, last, last.count);
      SameRoles(more, name, last.role, (other, role));
      assert RolesOf(plans + more) == RolesOf(plans) + RolesOf(more);
    }
  }

  lemma PlanOneCounts(input: Inputs, next: string, p: Planned, name: string, role: Option<string>)
    requires PlanOne(input, next, p).Plans?
    ensures multiset(RolesOf(PlanOne(input, next, p).planned.plans))[(name, role)]
            == multiset(RolesOf(p.plans))[(name, role)] + if next == name then AllRoleVMs(input, name, role) else 0
  {
    PlanOneAdds(input, next, p);
    if IsPlanned(input, next) {
      hide PlanOne, PlansOfGroups, GroupsOf, CountIn, RoleVMs, RolesOf, SlotCount;
      var groups := GroupsOf(input, next);
      CountInSlots(input, next, role, SlotCount(input, next));
      GroupsCount(input, next, input.registry[next], groups, name, role);
      assert groups[..|groups|] == groups;
      RolesOfSum(p.plans, PlansOfGroups(input, next, input.registry[next], groups).value);
    } else {
      NothingAdded(input, next, p);
    }
  }

  lemma RolesOfSum(p: seq<VMPlan>, q: seq<VMPlan>)
    ensures RolesOf(p + q) == RolesOf(p) + RolesOf(q)
    ensures multiset(RolesOf(p + q)) == multiset(RolesOf(p)) + multiset(RolesOf(q))
  {
    assert RolesOf(p + q) == RolesOf(p) + RolesOf(q);
  }

  lemma NothingAdded(input: Inputs, name: string, p: Planned)
    requires !IsPlanned(input, name) && PlanOne(input, name, p).Plans?
    ensures PlanOne(input, name, p).planned == p
  {
  }

  lemma {:induction false} RolesCountedFrom(input: Inputs, names: seq<string>, p: Planned, name: string,
                                            role: Option<string>)
    requires PlanNames(input, names, p).Plans?
    ensures multiset(RolesOf(PlanNames(input, names, p).planned.plans))[(name, role)]
            == multiset(RolesOf(p.plans))[(name, role)] + multiset(names)[name] * AllRoleVMs(input, name, role)
  {
    if names != [] {
      FirstRequest(input, names, p);
      hide *;
      PlanOneCounts(input, names[0], p, name, role);
      RolesCountedFrom(input, names[1..], PlanOne(input, names[0], p).planned, name, role);
      OneMoreRequest(names, name, AllRoleVMs(input, name, role));
    }
  }

  lemma OneMoreRequest(names: seq<string>, name: string, each: nat)
    requires names != []
    ensures multiset(names)[name] * each == (if names[0] == name then each else 0) + multiset(names[1..])[name] * each
  {
    assert names == [names[0]] + names[1..];
    var rest := multiset(names[1..])[name];
    assert (1 + rest) * each == each + rest * each;
  }

  /**
   For every workload and role, also when a workload is requested more than once
   or not at all: as many VMs are planned as its roles of that name ask for, per
   request. A workload that is disabled has none.
   */
  lemma RolesAreCounted(input: Inputs, names: seq<string>, name: string, role: Option<string>)
    ensures var r := PlanNames(input, names, NOTHING_PLANNED);
            r.Plans? ==> multiset(RolesOf(r.planned.plans))[(name, role)]
                         == multiset(names)[name] * AllRoleVMs(input, name, role)
  {
    if PlanNames(input, names, NOTHING_PLANNED).Plans? {
      RolesCountedFrom(input, names, NOTHING_PLANNED, name, role);
    }
  }

  // ---------------------------------------------------------------------
  // Rows and instances
  // ---------------------------------------------------------------------

  /** The row for a planned workload: its VMs, and the cores and memory of the file where they are set. */
  function RecordFor(input: Inputs, name: string): WorkloadRecord {
    var listed := name in input.config.workloads;
    WorkloadRecord(
      name, VMsOf(input, name),
      if listed && input.config.workloads[name].cpuCores > 0 then input.config.workloads[name].cpuCores
      else input.config.cpuCores,
      if listed && input.config.workloads[name].memory != "" then input.config.workloads[name].memory
      else input.config.memory)
  }

  /** A row for each request that is planned, in the order of the requests. */
  function RecordsFor(input: Inputs, names: seq<string>): seq<WorkloadRecord> {
    if names == [] then []
    else (if IsPlanned(input, names[0]) then [RecordFor(input, names[0])] else []) + RecordsFor(input, names[1..])
  }

  lemma PlanOneKeeps(input: Inputs, name: string, p: Planned)
    requires PlanOne(input, name, p).Plans?
    ensures var next := PlanOne(input, name, p).planned;
            && next.records == p.records + (if IsPlanned(input, name) then [RecordFor(input, name)] else [])
            && next.instances == if IsPlanned(input, name) then p.instances[name := input.registry[name]] else p.instances
  {
    if IsPlanned(input, name) {
      SlotsAreGroups(input, name, SlotCount(input, name));
      var groups := GroupsOf(input, name);
      assert groups[..|groups|] == groups;
    }
    hide Groups, Total, PlansOfGroups, Missing;
  }

  lemma {:induction false} RecordsFrom(input: Inputs, names: seq<string>, p: Planned)
    requires PlanNames(input, names, p).Plans?
    ensures PlanNames(input, names, p).planned.records == p.records + RecordsFor(input, names)
  {
    if names != [] {
      FirstRequest(input, names, p);
      PlanOneKeeps(input, names[0], p);
      RecordsFrom(input, names[1..], PlanOne(input, names[0], p).planned);
      hide PlanNames, PlanOne, RecordFor, IsPlanned;
    }
  }

  /** The workloads that were kept before, and those that are requested and planned. */
  predicate KeepsPlanned(input: Inputs, names: seq<string>, before: map<string, Workload>, after: map<string, Workload>) {
    && (forall name <- after :: name in before || (name in names && IsPlanned(input, name)))
    && (forall name <- before :: name in after)
    && (forall name <- names | IsPlanned(input, name) :: name in after && after[name] == input.registry[name])
    && (forall name <- before | !(name in names && IsPlanned(input, name)) :: after[name] == before[name])
  }

  lemma KeepsMore(input: Inputs, names: seq<string>, before: map<string, Workload>, next: map<string, Workload>,
                  after: map<string, Workload>)
    requires names != [] && KeepsPlanned(input, names[1..], next, after)
    requires next == if IsPlanned(input, names[0]) then before[names[0] := input.registry[names[0]]] else before
    ensures KeepsPlanned(input, names, before, after)
  {
    assert forall name :: name in names <==> name == names[0] || name in names[1..];
  }

  lemma {:induction false} InstancesFrom(input: Inputs, names: seq<string>, p: Planned)
    requires PlanNames(input, names, p).Plans?
    ensures KeepsPlanned(input, names, p.instances, PlanNames(input, names, p).planned.instances)
  {
    if names != [] {
      FirstRequest(input, names, p);
      PlanOneKeeps(input, names[0], p);
      hide *;
      var next := PlanOne(input, names[0], p).planned;
      InstancesFrom(input, names[1..], next);
      KeepsMore(input, names, p.instances, next.instances, PlanNames(input, names, p).planned.instances);
    }
  }

  /**
   One row is recorded for each request that is planned, in their order, and
   exactly the planned workloads are kept for their services.
   */
  lemma PlanningRecords(input: Inputs, names: seq<string>)
    requires PlanNames(input, names, NOTHING_PLANNED).Plans?
    ensures var p := PlanNames(input, names, NOTHING_PLANNED).planned;
            && p.records == RecordsFor(input, names)
            && (forall name :: name in p.instances <==> name in names && IsPlanned(input, name))
            && (forall name <- p.instances :: p.instances[name] == input.registry[name])
  {
    RecordsFrom(input, names, NOTHING_PLANNED);
    InstancesFrom(input, names, NOTHING_PLANNED);
    hide PlanNames, RecordsFor;
  }

  // ---------------------------------------------------------------------
  // The error
  // ---------------------------------------------------------------------

  /** What is wrong with a request that cannot be planned. */
  predicate IsPlanError(input: Inputs, name: string, e: PlanError) {
    var known := name in input.registry;
    var refused := ParamsFor(input, name) != map[] && !(known && input.acceptsParams(name, ParamsFor(input, name)));
    match e
    case InvalidParams(n) => n == name && refused
    case UnknownWorkload(n) => n == name && !refused && !known
    case InvalidStorage(n) => n == name && !refused && known && input.registry[name].storage.None?
    case NoUserdata(n, role) =>
      && n == name && !refused && known && input.registry[name].storage.Some?
      && exists k: nat :: k < SlotCount(input, name) && role == SlotRole(input, name, k) && FirstWithoutText(input, name, k)
  }

  predicate FirstWithoutText(input: Inputs, name: string, k: nat)
    requires name in input.registry && k < SlotCount(input, name)
  {
    && RoleKey(SlotRole(input, name, k)) !in input.registry[name].userdata
    && forall j: nat | j < k :: RoleKey(SlotRole(input, name, j)) in input.registry[name].userdata
  }

  lemma {:induction false} MissingIsThere(w: Workload, groups: seq<Group>) returns (k: nat)
    requires Missing(w, groups).Some?
    ensures k < |groups| && Missing(w, groups) == Some(groups[k]) && RoleKey(groups[k].role) !in w.userdata
    ensures forall j: nat | j < k :: RoleKey(groups[j].role) in w.userdata
  {
    var before := groups[..|groups| - 1];
    if Missing(w, before).Some? {
      k := MissingIsThere(w, before);
      assert forall j: nat | j <= k :: before[j] == groups[j];
    } else {
      k := |groups| - 1;
      NoneMissingIff(w, before);
      forall j: nat | j < k ensures RoleKey(groups[j].role) in w.userdata {
        assert before[j] in before;
      }
    }
  }

  lemma PlanOneError(input: Inputs, name: string, p: Planned)
    requires PlanOne(input, name, p).PlanFailed?
    ensures IsPlanError(input, name, PlanOne(input, name, p).error)
  {
    var e := PlanOne(input, name, p).error;
    assert Effective(input, name).params == ParamsFor(input, name);
    if e.NoUserdata? {
      var w := input.registry[name];
      MissingIffNone(input, name, w, GroupsOf(input, name));
      var k := MissingIsThere(w, GroupsOf(input, name));
      SlotIsGroup(input, name, 0);
      forall j: nat | j <= k ensures GroupsOf(input, name)[j].role == SlotRole(input, name, j) {
        SlotIsGroup(input, name, j);
      }
      assert FirstWithoutText(input, name, k);
    }
  }

  /** Planning stops at the first request that cannot be planned, with the error that tells what is wrong with it. */
  lemma {:induction false} PlanErrorIsFirst(input: Inputs, names: seq<string>, p: Planned) returns (n: nat)
    requires PlanNames(input, names, p).PlanFailed?
    ensures n < |names| && !Plannable(input, names[n]) && forall j | 0 <= j < n :: Plannable(input, names[j])
    ensures IsPlanError(input, names[n], PlanNames(input, names, p).error)
  {
    PlanOneSucceedsIff(input, names[0], p);
    hide Plannable, IsPlanError, PlanOne;
    if PlanOne(input, names[0], p).PlanFailed? {
      PlanOneError(input, names[0], p);
      n := 0;
    } else {
      var m := PlanErrorIsFirst(input, names[1..], PlanOne(input, names[0], p).planned);
      n := m + 1;
      assert names[1..][m] == names[n] && forall j | 1 <= j < n :: names[j] == names[1..][j - 1];
    }
  }
}
