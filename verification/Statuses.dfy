/**
 The rows of workload_details over a run: how Run and waitForReadiness of
 internal/orchestrator/orchestrator.go take them out of "pending".
 */
module Statuses {
  import opened Options
  import opened Planner
  import opened Readiness
  import opened RunProtocol
  import RunSafety
  import AuditDeletion
  import Cluster

  datatype Status = Pending | Failed | Created

  // ---------------------------------------------------------------------
  // Row numbers
  // ---------------------------------------------------------------------

  /** `ids` leads each planned workload to the last row recorded for it. */
  ghost predicate IdsFit(p: Planned) {
    && (forall name <- p.ids :: p.ids[name] < |p.records| && p.records[p.ids[name]].name == name)
    && (forall k: nat | k < |p.records| :: p.records[k].name in p.ids && k <= p.ids[p.records[k].name])
    && (forall plan <- p.plans :: plan.component in p.ids)
  }

  lemma PlanOneKeepsIds(input: Inputs, name: string, p: Planned)
    requires IdsFit(p)
    ensures var r := PlanOne(input, name, p);
            r.Plans? ==> IdsFit(r.planned)
  {
    var r := PlanOne(input, name, p);
    if r.Plans? && !Disabled(input, name) {
      var w := input.registry[name];
      GroupsPlanned(input, name, w, Groups(w, name, Effective(input, name).vmCount));
      hide PlansOfGroups, Groups, Effective, Missing, Total, AllPlannedFor;
    }
  }

  lemma {:induction false} PlanNamesKeepsIds(input: Inputs, names: seq<string>, p: Planned)
    requires IdsFit(p)
    ensures var r := PlanNames(input, names, p);
            r.Plans? ==> IdsFit(r.planned)
  {
    if names != [] && PlanOne(input, names[0], p).Plans? {
      PlanOneKeepsIds(input, names[0], p);
      PlanNamesKeepsIds(input, names[1..], PlanOne(input, names[0], p).planned);
    }
  }

  lemma PlanningFits(input: Inputs, names: seq<string>)
    ensures var r := PlanNames(input, names, NOTHING_PLANNED);
            r.Plans? ==> IdsFit(r.planned)
  {
    PlanNamesKeepsIds(input, names, NOTHING_PLANNED);
  }

  /** Different workloads have different rows. */
  predicate IdsApart(ids: map<string, nat>, rows: nat) {
    && (forall name <- ids :: ids[name] < rows)
    && (forall name <- ids, other <- ids | name != other :: ids[name] != ids[other])
  }

  lemma FittingIdsAreApart(p: Planned)
    requires IdsFit(p)
    ensures IdsApart(p.ids, |p.records|)
  {
  }

  // ---------------------------------------------------------------------
  // The table
  // ---------------------------------------------------------------------

  class WorkloadTable {
    var status: seq<Status>
    /** How often each row has been updated. */
    var updates: seq<nat>

    constructor (records: seq<WorkloadRecord>)
      ensures status == seq(|records|, _ => Pending) && updates == seq(|records|, _ => 0)
    {
      status, updates := seq(|records|, _ => Pending), seq(|records|, _ => 0);
    }

    method UpdateWorkloadStatus(id: nat, s: Status, fault: AuditDeletion.WriteFault)
      requires |updates| == |status|
      modifies this
      ensures if id < |old(status)| && !fault.NotWritten? then
                status == old(status)[id := s] && updates == old(updates)[id := old(updates)[id] + 1]
              else status == old(status) && updates == old(updates)
    {
      if id < |status| && !fault.NotWritten? {
        status, updates := status[id := s], updates[id := updates[id] + 1];
      }
    }
  }

  /** What the write of each workload's status meets. */
  type Writes = string -> AuditDeletion.WriteFault

  /**
   The rows of `ids` have been given the picked status once each, except where
   the write failed, and no other row has been touched.
   */
  ghost predicate MarkedOnce(before: seq<Status>, after: seq<Status>, counts: seq<nat>, counts': seq<nat>,
                             ids: map<string, nat>, pick: string -> Status, writes: Writes)
  {
    && |after| == |before| == |counts'| == |counts|
    && (forall name <- ids ::
          && ids[name] < |before|
          && RowMarked(before, after, counts, counts', ids[name], pick(name), writes(name)))
    && (forall id: nat | id < |before| && id !in ids.Values :: after[id] == before[id] && counts'[id] == counts[id])
  }

  ghost predicate RowMarked(before: seq<Status>, after: seq<Status>, counts: seq<nat>, counts': seq<nat>, id: nat, s: Status,
                            write: AuditDeletion.WriteFault)
    requires id < |before| == |after| == |counts| == |counts'|
  {
    if write.NotWritten? then after[id] == before[id] && counts'[id] == counts[id]
    else after[id] == s && counts'[id] == counts[id] + 1
  }

  method UpdateAll(table: WorkloadTable, ids: map<string, nat>, pick: string -> Status, writes: Writes)
    requires |table.updates| == |table.status| && IdsApart(ids, |table.status|)
    modifies table
    ensures MarkedOnce(old(table.status), table.status, old(table.updates), table.updates, ids, pick, writes)
  {
    var todo := ids.Keys;
    while todo != {}
      invariant todo <= ids.Keys
      invariant |table.updates| == |table.status| == |old(table.status)|
      invariant forall name <- ids :: name !in todo ==>
                  RowMarked(old(table.status), table.status, old(table.updates), table.updates, ids[name], pick(name),
                            writes(name))
      invariant forall name <- todo :: table.status[ids[name]] == old(table.status)[ids[name]]
                                       && table.updates[ids[name]] == old(table.updates)[ids[name]]
      invariant forall id: nat | id < |table.status| && id !in ids.Values ::
                  table.status[id] == old(table.status)[id] && table.updates[id] == old(table.updates)[id]
    {
      var name :| name in todo;
      assert ids[name] in ids.Values;
      table.UpdateWorkloadStatus(ids[name], pick(name), writes(name));
      todo := todo - {name};
    }
  }

  // ---------------------------------------------------------------------
  // waitForReadiness and the end of Run
  // ---------------------------------------------------------------------

  /** The workload a VM name is booked under: that of the last plan with the name. */
  function Owner(plans: seq<VMPlan>, vmName: string): Option<string> {
    if plans == [] then None
    else
      var last := plans[|plans| - 1];
      if last.vm.name == vmName then Some(last.component) else Owner(plans[..|plans| - 1], vmName)
  }

  function FailedWorkloads(plans: seq<VMPlan>, results: map<string, WaitOutcome>): set<string> {
    set name <- results | !results[name].Ready? && Owner(plans, name).Some? :: Owner(plans, name).value
  }

  method WaitForReadiness(table: WorkloadTable, ids: map<string, nat>, plans: seq<VMPlan>,
                          results: map<string, WaitOutcome>, waitForReady: bool, writes: Writes) returns (ok: bool)
    requires |table.updates| == |table.status| && IdsApart(ids, |table.status|)
    modifies table
    ensures ok <==> !waitForReady || AllReady(results)
    ensures ok ==> table.status == old(table.status) && table.updates == old(table.updates)
    ensures !ok ==>
              MarkedOnce(old(table.status), table.status, old(table.updates), table.updates, ids,
                         name => if name in FailedWorkloads(plans, results) then Failed else Created, writes)
  {
    if !waitForReady {
      return true;
    }
    var vmToComponent: map<string, string> := map[];
    for i := 0 to |plans|
      invariant forall name :: if name in vmToComponent then Owner(plans[..i], name) == Some(vmToComponent[name])
                               else Owner(plans[..i], name) == None
    {
      assert plans[..i + 1][..i] == plans[..i];
      vmToComponent := vmToComponent[plans[i].vm.name := plans[i].component];
    }
    assert plans[..|plans|] == plans;
    var failures, failedWorkloads := 0, {};
    var todo := results.Keys;
    while todo != {}
      invariant todo <= results.Keys
      invariant failures == 0 <==> forall name <- results :: name !in todo ==> results[name].Ready?
      invariant forall c :: c in failedWorkloads <==>
                  exists name :: name in results && name !in todo && !results[name].Ready? && Owner(plans, name) == Some(c)
    {
      var name :| name in todo;
      todo := todo - {name};
      if !results[name].Ready? {
        failures := failures + 1;
        if name in vmToComponent {
          failedWorkloads := failedWorkloads + {vmToComponent[name]};
        }
      }
    }
    assert failedWorkloads == FailedWorkloads(plans, results);
    if failures > 0 {
      UpdateAll(table, ids, name => if name in failedWorkloads then Failed else Created, writes);
      return false;
    }
    return true;
  }

  /** The ways out of Run after planning: the dry run, which may fail to build a VM, or a deployment at its end. */
  datatype WayOut = DryRun(printed: bool) | Deployment(end: State)

  function ResultsOf(st: State): map<string, WaitOutcome> {
    if st.wait.Some? then st.wait.value.end.results else map[]
  }

  /** The status that a workload's row is given at the end of a deployment. */
  function FinalStatus(planned: Planned, st: State, name: string): Status
    requires st.stage.Returned?
  {
    match st.stage.end
    case Deployed => Created
    case VMsFailed => Failed
    case NotReady => if name in FailedWorkloads(planned.plans, ResultsOf(st)) then Failed else Created
    case _ => Pending
  }

  /** What Run leaves in the table and returns. */
  ghost predicate Concludes(su: Setup, way: WayOut, ok: bool, before: seq<Status>, after: seq<Status>, counts: seq<nat>,
                            counts': seq<nat>, writes: Writes)
  {
    match way
    case DryRun(printed) => ok == printed && after == before && counts' == counts
    case Deployment(st) =>
      && st.stage.Returned?
      && (ok <==> st.stage.end.Deployed?)
      && if st.stage.end.ResourcesFailed? || st.stage.end.SecretsFailed? then after == before && counts' == counts
         else MarkedOnce(before, after, counts, counts', su.planned.ids,
                         name requires st.stage.Returned? => FinalStatus(su.planned, st, name), writes)
  }

  /** Run after planning, along the way out that it takes: what it returns and what it does to the workloads' rows. */
  method FinishRun(table: WorkloadTable, su: Setup, way: WayOut, writes: Writes) returns (ok: bool)
    requires IdsFit(su.planned) && |table.updates| == |table.status| == |su.planned.records|
    requires way.Deployment? ==> way.end.stage.Returned? && RunSafety.WaitTells(su, way.end)
    modifies table
    ensures Concludes(su, way, ok, old(table.status), table.status, old(table.updates), table.updates, writes)
  {
    FittingIdsAreApart(su.planned);
    var ids := su.planned.ids;
    if way.DryRun? {
      return way.printed;
    }
    var st := way.end;
    match st.stage.end {
      case ResourcesFailed => return false;
      case SecretsFailed => return false;
      case VMsFailed =>
        UpdateAll(table, ids, _ => Failed, writes);
        return false;
      case _ =>
    }
    ok := WaitForReadiness(table, ids, su.planned.plans, ResultsOf(st), su.waitForReady, writes);
    if !ok {
      return;
    }
    UpdateAll(table, ids, _ => Created, writes);
  }

  // ---------------------------------------------------------------------
  // Which workloads are marked failed
  // ---------------------------------------------------------------------

  /** The workload has a VM that did not become ready. */
  predicate HasFailedVM(plans: seq<VMPlan>, results: map<string, WaitOutcome>, component: string) {
    exists plan <- plans :: plan.component == component && plan.vm.name in results && !results[plan.vm.name].Ready?
  }

  predicate OneOwnerPerName(plans: seq<VMPlan>) {
    forall p <- plans, q <- plans | p.vm.name == q.vm.name :: p.component == q.component
  }

  /** A VM name is booked under the workload of the last plan that has it. */
  lemma {:induction false} OwnerIsLast(plans: seq<VMPlan>, vmName: string)
    ensures match Owner(plans, vmName)
            case Some(c) =>
              exists k :: 0 <= k < |plans| && plans[k].vm.name == vmName && plans[k].component == c
                          && forall j | k < j < |plans| :: plans[j].vm.name != vmName
            case None => forall plan <- plans :: plan.vm.name != vmName
  {
    if plans != [] {
      var before, last := plans[..|plans| - 1], plans[|plans| - 1];
      assert plans == before + [last];
      OwnerIsLast(before, vmName);
      if last.vm.name != vmName && Owner(before, vmName).Some? {
        var k :| 0 <= k < |before| && before[k].vm.name == vmName && before[k].component == Owner(before, vmName).value
          && forall j | k < j < |before| :: before[j].vm.name != vmName;
        assert plans[k] == before[k] && forall j | k < j < |before| :: plans[j] == before[j];
      }
    }
  }

  /**
   Whatever the waits report, the workloads marked failed are those with a VM
   that failed: exactly when no two workloads share a VM name.
   */
  lemma FailedAreTheOwnersIff(plans: seq<VMPlan>)
    ensures (forall results: map<string, WaitOutcome>, component ::
               component in FailedWorkloads(plans, results) <==> HasFailedVM(plans, results, component))
            <==> OneOwnerPerName(plans)
  {
    if OneOwnerPerName(plans) {
      forall results: map<string, WaitOutcome>, component
        ensures component in FailedWorkloads(plans, results) <==> HasFailedVM(plans, results, component)
      {
        FailedHaveOwners(plans, results, component);
      }
    }
    if forall results: map<string, WaitOutcome>, component ::
         component in FailedWorkloads(plans, results) <==> HasFailedVM(plans, results, component)
    {
      forall p <- plans, q <- plans | p.vm.name == q.vm.name ensures p.component == q.component {
        var results := map[p.vm.name := TimedOut];
        assert HasFailedVM(plans, results, p.component) && HasFailedVM(plans, results, q.component);
        assert forall c <- FailedWorkloads(plans, results) :: Some(c) == Owner(plans, p.vm.name);
      }
    }
  }

  lemma FailedHaveOwners(plans: seq<VMPlan>, results: map<string, WaitOutcome>, component: string)
    requires OneOwnerPerName(plans)
    ensures component in FailedWorkloads(plans, results) <==> HasFailedVM(plans, results, component)
  {
    if component in FailedWorkloads(plans, results) {
      var name :| name in results && !results[name].Ready? && Owner(plans, name) == Some(component);
      OwnerIsLast(plans, name);
    }
    if HasFailedVM(plans, results, component) {
      var plan :| plan in plans && plan.component == component && plan.vm.name in results
        && !results[plan.vm.name].Ready?;
      OwnerIsLast(plans, plan.vm.name);
      assert Owner(plans, plan.vm.name) == Some(component);
    }
  }

  /**
   From planning to the return: when Run comes back without error from a
   deployment, whatever was interleaved on the way, every service, secret and VM
   is in the cluster, every VM was seen running in time if the run was to wait,
   and every workload's row is created, updated once, if the write succeeded.
   */
  lemma RunWithoutError(su: Setup, s0: Cluster.Store, steps: seq<Step>, st: State, ok: bool, before: seq<Status>,
                        after: seq<Status>, counts: seq<nat>, counts': seq<nat>, writes: Writes)
    requires ValidSetup(su) && RunProtocol.Leads(su, Init(su, s0), steps, st)
    requires Concludes(su, Deployment(st), ok, before, after, counts, counts', writes)
    ensures ok ==>
              && (forall name <- su.planned.instances | HasService(su, name) :: ServiceFor(su, name).key in st.store)
              && (forall i: nat | i < |su.planned.plans| :: SecretFor(su, i).key in st.store && VMKey(su, i) in st.store)
              && (su.waitForReady ==> st.wait.Some?)
              && (su.waitForReady ==>
                    forall plan <- su.planned.plans :: SeenRunning(st.wait.value.waits, plan.vm.name))
    ensures ok ==> |after| == |before| == |counts| == |counts'| && forall name <- su.planned.ids ::
              su.planned.ids[name] < |after| &&
              (!writes(name).NotWritten? ==>
                 after[su.planned.ids[name]] == Created
                 && counts'[su.planned.ids[name]] == counts[su.planned.ids[name]] + 1)
  {
    RunSafety.SuccessMeansDeployed(su, s0, steps, st);
    hide ValidSetup, RunProtocol.Leads, SeenRunning, ServiceFor, SecretFor, VMKey;
  }

  /** The row of a workload is given this status once, if the write succeeds. */
  predicate BecomesOnce(p: Planned, after: seq<Status>, counts: seq<nat>, counts': seq<nat>, name: string, s: Status,
                        writes: Writes)
    requires name in p.ids
  {
    && p.ids[name] < |after| == |counts| == |counts'|
    && (!writes(name).NotWritten? ==>
          after[p.ids[name]] == s && counts'[p.ids[name]] == counts[p.ids[name]] + 1)
  }

  /**
   When Run comes back with an error from a deployment: after a VM that could not
   be created every workload is failed; after VMs that did not come up exactly
   the workloads with such a VM are, as long as no two share a VM name, and the
   others are created; without its services and secrets the rows stay as they were.
   */
  lemma RunWithError(su: Setup, s0: Cluster.Store, steps: seq<Step>, st: State, ok: bool, before: seq<Status>,
                     after: seq<Status>, counts: seq<nat>, counts': seq<nat>, writes: Writes, name: string)
    requires ValidSetup(su) && RunProtocol.Leads(su, Init(su, s0), steps, st) && name in su.planned.ids
    requires Concludes(su, Deployment(st), ok, before, after, counts, counts', writes) && !ok
    ensures (exists t <- st.vms :: t.Errored?) ==> BecomesOnce(su.planned, after, counts, counts', name, Failed, writes)
    ensures (exists t <- st.vms :: !t.Done?) && !(exists t <- st.vms :: t.Errored?) ==> after == before && counts' == counts
    ensures |st.vms| > 0 && (forall t <- st.vms :: t.Done?) && OneOwnerPerName(su.planned.plans) ==>
              && st.wait.Some?
              && BecomesOnce(su.planned, after, counts, counts', name,
                             if HasFailedVM(su.planned.plans, st.wait.value.end.results, name) then Failed else Created,
                             writes)
  {
    RunSafety.EndTellsHowFar(su, s0, steps, st);
    RowsAtEnd(su, st, ok, before, after, counts, counts', writes, name);
    EndOfTasks(st);
    hide ValidSetup, RunProtocol.Leads, HasFailedVM, OneOwnerPerName, BecomesOnce, Concludes;
  }

  lemma EndOfTasks(st: State)
    requires st.stage.Returned?
    requires match st.stage.end
             case ResourcesFailed => forall t <- st.vms :: t.Idle?
             case SecretsFailed => forall t <- st.vms :: t.Idle?
             case VMsFailed => exists t <- st.vms :: t.Errored?
             case _ => forall t <- st.vms :: t.Done?
    ensures (exists t <- st.vms :: t.Errored?) <==> st.stage.end.VMsFailed?
    ensures |st.vms| > 0 ==> ((forall t <- st.vms :: t.Done?) <==> st.stage.end.NotReady? || st.stage.end.Deployed?)
  {
    if |st.vms| > 0 {
      assert st.vms[0] in st.vms;
    }
  }

  lemma RowsAtEnd(su: Setup, st: State, ok: bool, before: seq<Status>, after: seq<Status>, counts: seq<nat>,
                  counts': seq<nat>, writes: Writes, name: string)
    requires name in su.planned.ids && Concludes(su, Deployment(st), ok, before, after, counts, counts', writes) && !ok
    ensures match st.stage.end
            case VMsFailed => BecomesOnce(su.planned, after, counts, counts', name, Failed, writes)
            case NotReady =>
              OneOwnerPerName(su.planned.plans) ==>
                BecomesOnce(su.planned, after, counts, counts', name,
                            if HasFailedVM(su.planned.plans, ResultsOf(st), name) then Failed else Created, writes)
            case _ => after == before && counts' == counts
  {
    if OneOwnerPerName(su.planned.plans) {
      FailedHaveOwners(su.planned.plans, ResultsOf(st), name);
    }
    hide FailedWorkloads, HasFailedVM, OneOwnerPerName, ResultsOf;
  }

  /** A workload that is requested twice leaves its first row pending for good. */
  lemma RepeatedWorkloadStaysPending(input: Inputs, names: seq<string>, k: nat)
    ensures var r := PlanNames(input, names, NOTHING_PLANNED);
            r.Plans? && k < |r.planned.records| ==>
              (k !in r.planned.ids.Values <==>
                 exists later: nat ::
                   k < later < |r.planned.records| && r.planned.records[later].name == r.planned.records[k].name)
  {
    PlanningFits(input, names);
    hide PlanNames;
    var r := PlanNames(input, names, NOTHING_PLANNED);
    if r.Plans? && k < |r.planned.records| {
      var p := r.planned;
      var name := p.records[k].name;
      assert p.ids[name] in p.ids.Values;
      if k in p.ids.Values {
        var owner :| owner in p.ids && p.ids[owner] == k;
      }
    }
  }
}
