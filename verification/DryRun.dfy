/**
 Dry run: printDryRun of internal/orchestrator/orchestrator.go, and how what it
 prints relates to what a run with the same inputs creates.
 */
module DryRun {
  import opened Collections
  import opened Cluster
  import opened Planner
  import opened Resources
  import opened RunProtocol
  import Readiness
  import RunSafety

  // ---------------------------------------------------------------------
  // printDryRun
  // ---------------------------------------------------------------------

  function ServiceDocs(su: Setup, order: seq<string>): seq<NamedObject>
    requires forall name <- order :: HasService(su, name)
  {
    seq(|order|, i requires 0 <= i < |order| => ServiceFor(su, order[i]))
  }

  function SecretDocs(su: Setup): seq<NamedObject> {
    seq(|su.planned.plans|, i requires 0 <= i < |su.planned.plans| => SecretFor(su, i))
  }

  predicate AllBuild(su: Setup) {
    forall i: nat | i < |su.planned.plans| :: BuildVM(su, i, SecretName(su, i)).Built?
  }

  function VMDocs(su: Setup, n: nat): seq<NamedObject>
    requires n <= |su.planned.plans|
    requires forall i: nat | i < n :: BuildVM(su, i, SecretName(su, i)).Built?
  {
    seq(n, i requires 0 <= i < n => NamedObject(VMKey(su, i), BuildVM(su, i, SecretName(su, i)).vm))
  }

  ghost predicate Prints(su: Setup, docs: seq<NamedObject>) {
    AllBuild(su) && exists order: seq<string> ::
      && Lists(order, ServiceNames(su))
      && docs == ServiceDocs(su, order) + SecretDocs(su) + VMDocs(su, |su.planned.plans|)
  }

  /** All services and secrets have been printed, and the VMs before the first that cannot be built. */
  ghost predicate PrintsUpToFailure(su: Setup, docs: seq<NamedObject>) {
    exists order: seq<string>, n: nat ::
      && n < |su.planned.plans| && BuildVM(su, n, SecretName(su, n)).BuildFailed?
      && (forall i: nat | i < n :: BuildVM(su, i, SecretName(su, i)).Built?)
      && Lists(order, ServiceNames(su))
      && docs == ServiceDocs(su, order) + SecretDocs(su) + VMDocs(su, n)
  }

  /** `docs` is what has been written, also when a VM cannot be built and an error is returned. */
  method PrintDryRun(su: Setup) returns (ok: bool, docs: seq<NamedObject>, svcCount: nat, secretCount: nat)
    ensures ok <==> AllBuild(su)
    ensures ok ==> Prints(su, docs) && svcCount == |ServiceNames(su)| && secretCount == |su.planned.plans|
    ensures !ok ==> PrintsUpToFailure(su, docs) && svcCount == secretCount == 0
  {
    hide BuildVM, ServiceFor, SecretFor, VMKey, HasService;
    var todo := ServiceNames(su);
    assert forall name <- todo :: HasService(su, name);
    hide ServiceNames;
    ghost var order: seq<string> := [];
    docs, svcCount, secretCount := [], 0, 0;
    while todo != {}
      invariant todo <= ServiceNames(su)
      invariant svcCount + |todo| == |ServiceNames(su)|
      invariant Lists(order, ServiceNames(su) - todo)
      invariant docs == ServiceDocs(su, order)
    {
      var name :| name in todo;
      docs := docs + [ServiceFor(su, name)];
      order := order + [name];
      svcCount := svcCount + 1;
      todo := todo - {name};
    }
    assert ServiceNames(su) - todo == ServiceNames(su);
    for i := 0 to |su.planned.plans|
      invariant docs == ServiceDocs(su, order) + SecretDocs(su)[..i]
    {
      docs := docs + [SecretFor(su, i)];
    }
    for i := 0 to |su.planned.plans|
      invariant forall k: nat | k < i :: BuildVM(su, k, SecretName(su, k)).Built?
      invariant docs == ServiceDocs(su, order) + SecretDocs(su) + VMDocs(su, i)
    {
      var built := BuildVM(su, i, SecretName(su, i));
      if built.BuildFailed? {
        return false, docs, 0, 0;
      }
      docs := docs + [NamedObject(VMKey(su, i), built.vm)];
    }
    return true, docs, svcCount, |su.planned.plans|;
  }

  // ---------------------------------------------------------------------
  // The printed objects are those of a run
  // ---------------------------------------------------------------------

  predicate DistinctKeys(docs: seq<NamedObject>) {
    forall i, j | 0 <= i < j < |docs| :: docs[i].key != docs[j].key
  }

  function AsStore(docs: seq<NamedObject>): Store {
    if docs == [] then map[] else AsStore(docs[..|docs| - 1])[docs[|docs| - 1].key := docs[|docs| - 1].obj]
  }

  lemma {:induction false} AsStoreHolds(docs: seq<NamedObject>)
    requires DistinctKeys(docs)
    ensures Holds(AsStore(docs), docs) && |AsStore(docs)| == |docs|
  {
    if docs != [] {
      var before, last := docs[..|docs| - 1], docs[|docs| - 1];
      AsStoreHolds(before);
      assert docs == before + [last];
      OneMoreDoc(AsStore(before), before, last);
    }
  }

  /** The store holds exactly the printed objects. */
  ghost predicate Holds(s: Store, docs: seq<NamedObject>) {
    && (forall key <- s :: NamedObject(key, s[key]) in docs)
    && (forall doc <- docs :: doc.key in s && s[doc.key] == doc.obj)
  }

  lemma OneMoreDoc(s: Store, docs: seq<NamedObject>, last: NamedObject)
    requires Holds(s, docs) && DistinctKeys(docs + [last])
    ensures last.key !in s && Holds(s[last.key := last.obj], docs + [last])
  {
    forall doc <- docs ensures doc.key != last.key {
      var k :| 0 <= k < |docs| && docs[k] == doc;
      assert (docs + [last])[k] == doc && (docs + [last])[|docs|] == last;
    }
    forall key <- s ensures key != last.key {
      assert NamedObject(key, s[key]) in docs;
    }
  }

  /** What is printed is what the run means to create. */
  lemma PrintedIsMade(su: Setup, docs: seq<NamedObject>, key: Key, o: Object)
    requires Prints(su, docs)
    ensures NamedObject(key, o) in docs <==> Made(su, key, o)
  {
    var order: seq<string> :| Lists(order, ServiceNames(su)) &&
      docs == ServiceDocs(su, order) + SecretDocs(su) + VMDocs(su, |su.planned.plans|);
    ServicesPrinted(su, order, key, o);
    SecretsPrinted(su, key, o);
    VMsPrinted(su, key, o);
    hide ServiceDocs, SecretDocs, VMDocs, IsVMFor, SecretFor, ServiceFor;
    assert NamedObject(key, o) in docs <==>
      NamedObject(key, o) in ServiceDocs(su, order) || NamedObject(key, o) in SecretDocs(su)
      || NamedObject(key, o) in VMDocs(su, |su.planned.plans|);
  }

  lemma ServicesPrinted(su: Setup, order: seq<string>, key: Key, o: Object)
    requires Lists(order, ServiceNames(su))
    ensures NamedObject(key, o) in ServiceDocs(su, order)
            <==> exists name: string :: HasService(su, name) && ServiceFor(su, name) == NamedObject(key, o)
  {
    hide ServiceFor;
    if name: string :| HasService(su, name) && ServiceFor(su, name) == NamedObject(key, o) {
      assert name in ServiceNames(su);
      var k :| 0 <= k < |order| && order[k] == name;
      assert ServiceDocs(su, order)[k] == NamedObject(key, o);
    }
    if NamedObject(key, o) in ServiceDocs(su, order) {
      var k :| 0 <= k < |order| && ServiceDocs(su, order)[k] == NamedObject(key, o);
      assert order[k] in order;
    }
  }

  lemma SecretsPrinted(su: Setup, key: Key, o: Object)
    ensures NamedObject(key, o) in SecretDocs(su)
            <==> exists i: nat :: i < |su.planned.plans| && SecretFor(su, i) == NamedObject(key, o)
  {
    hide SecretFor;
    if i: nat :| i < |su.planned.plans| && SecretFor(su, i) == NamedObject(key, o) {
      assert SecretDocs(su)[i] == NamedObject(key, o);
    }
  }

  lemma VMsPrinted(su: Setup, key: Key, o: Object)
    requires AllBuild(su)
    ensures NamedObject(key, o) in VMDocs(su, |su.planned.plans|)
            <==> exists i: nat :: i < |su.planned.plans| && IsVMFor(su, i, key, o)
  {
    hide BuildVM, VMKey;
    var docs := VMDocs(su, |su.planned.plans|);
    if i: nat :| i < |su.planned.plans| && IsVMFor(su, i, key, o) {
      assert docs[i] == NamedObject(key, o);
    }
    if NamedObject(key, o) in docs {
      var i: nat :| i < |docs| && docs[i] == NamedObject(key, o);
      assert IsVMFor(su, i, key, o);
    }
  }

  /** The objects of a run without its namespace object. */
  function Created(su: Setup, s0: Store, s: Store): Store {
    map key <- s | key !in s0 && key != NamespaceKey(su) :: s[key]
  }

  /**
   For distinct object names that are still free in the cluster, every run that
   returns without error has created exactly the printed objects, field by
   field, and reports the same counts.
   */
  lemma DryRunShowsTheRun(su: Setup, docs: seq<NamedObject>, s0: Store, steps: seq<Step>, st: State)
    requires ValidSetup(su) && Prints(su, docs) && DistinctKeys(docs)
    requires forall doc <- docs :: doc.key !in s0
    requires Leads(su, Init(su, s0), steps, st)
    ensures st.stage == Returned(Deployed) ==>
              && Created(su, s0, st.store) == AsStore(docs)
              && |docs| == st.servicesCreated + st.secretsCreated + |su.planned.plans|
  {
    if st.stage == Returned(Deployed) {
      RunSafety.InitInv(su, s0);
      RunSafety.StepsKeep(su, s0, Init(su, s0), steps, st);
      RunSafety.SuccessMeansDeployed(su, s0, steps, st);
      DocCount(su, docs);
      hide Leads, ValidSetup, Prints, BuildVM;
      CreatedIsPrinted(su, docs, s0, st.store);
    }
  }

  lemma CreatedIsPrinted(su: Setup, docs: seq<NamedObject>, s0: Store, s: Store)
    requires Prints(su, docs) && DistinctKeys(docs)
    requires forall doc <- docs :: doc.key !in s0
    requires RunSafety.Grown(su, s0, s)
    requires forall name <- su.planned.instances | HasService(su, name) :: ServiceFor(su, name).key in s
    requires forall i: nat | i < |su.planned.plans| :: SecretFor(su, i).key in s && VMKey(su, i) in s
    ensures Created(su, s0, s) == AsStore(docs)
  {
    AsStoreHolds(docs);
    PrintedIsThere(su, docs, s);
    CreatedIsMade(su, docs, s0, s);
    hide AsStore, Prints, RunSafety.Grown, Created, ServiceFor, SecretFor, VMKey, HasService, NamespaceKey, DistinctKeys;
    SameStore(Created(su, s0, s), AsStore(docs), docs);
  }

  lemma SameStore(a: Store, b: Store, docs: seq<NamedObject>)
    requires forall key <- a :: NamedObject(key, a[key]) in docs
    requires forall key <- b :: NamedObject(key, b[key]) in docs
    requires forall doc <- docs :: doc.key in a && doc.key in b && b[doc.key] == doc.obj
    ensures a == b
  {
    forall key <- a ensures key in b && a[key] == b[key] {
      var doc := NamedObject(key, a[key]);
      assert doc in docs;
    }
    forall key <- b ensures key in a {
      var doc := NamedObject(key, b[key]);
      assert doc in docs;
    }
  }

  lemma CreatedIsMade(su: Setup, docs: seq<NamedObject>, s0: Store, s: Store)
    requires Prints(su, docs) && RunSafety.Grown(su, s0, s)
    ensures forall key <- Created(su, s0, s) :: NamedObject(key, Created(su, s0, s)[key]) in docs
    ensures forall key :: key in Created(su, s0, s) <==> key in s && key !in s0 && key != NamespaceKey(su)
  {
    hide Prints, Made, NamespaceKey;
    forall key <- Created(su, s0, s) ensures NamedObject(key, Created(su, s0, s)[key]) in docs {
      PrintedIsMade(su, docs, key, s[key]);
    }
  }

  lemma PrintedIsThere(su: Setup, docs: seq<NamedObject>, s: Store)
    requires Prints(su, docs)
    requires forall name <- su.planned.instances | HasService(su, name) :: ServiceFor(su, name).key in s
    requires forall i: nat | i < |su.planned.plans| :: SecretFor(su, i).key in s && VMKey(su, i) in s
    ensures forall doc <- docs :: doc.key in s && doc.key != NamespaceKey(su)
  {
    hide Prints, Made, ServiceFor, SecretFor, VMKey, NamespaceKey, HasService;
    forall doc <- docs ensures doc.key in s && doc.key != NamespaceKey(su) {
      PrintedIsMade(su, docs, doc.key, doc.obj);
      MadeIsDeployed(su, s, doc.key, doc.obj);
    }
  }

  lemma MadeIsDeployed(su: Setup, s: Store, key: Key, o: Object)
    requires Made(su, key, o)
    requires forall name <- su.planned.instances | HasService(su, name) :: ServiceFor(su, name).key in s
    requires forall i: nat | i < |su.planned.plans| :: SecretFor(su, i).key in s && VMKey(su, i) in s
    ensures key in s && key != NamespaceKey(su)
  {
    hide BuildVM;
  }

  lemma DocCount(su: Setup, docs: seq<NamedObject>)
    requires Prints(su, docs)
    ensures |docs| == |ServiceNames(su)| + 2 * |su.planned.plans|
  {
    var order: seq<string> :| Lists(order, ServiceNames(su)) &&
      docs == ServiceDocs(su, order) + SecretDocs(su) + VMDocs(su, |su.planned.plans|);
    ListSize(order, ServiceNames(su));
  }

  // ---------------------------------------------------------------------
  // Runs in which nothing fails and, if they wait, every VM comes up in time
  // ---------------------------------------------------------------------

  ghost predicate Clean(step: Step) {
    match step
    case NamespaceStep(calls) => calls == Ensuring(Delivered, false, Delivered)
    case CreateService(_, fault) => fault.Delivered?
    case CallSecret(_, fault) => fault.Delivered?
    case CallVM(_, fault) => fault.Delivered?
    case CancelContext => false
    case WaitEnds(wait) => Readiness.AllComeUp(wait.waits)
    case _ => true
  }

  predicate SecretsFit(su: Setup) {
    forall plan <- su.planned.plans :: |plan.userdata| <= MAX_SECRET_DATA_SIZE
  }

  /** Nothing has gone wrong so far. */
  predicate GoesWell(st: State) {
    && !st.stopped && !st.groupStopped && (st.stage.Returned? ==> st.stage.end.Deployed?)
    && (forall t <- st.secrets :: !t.Errored?) && (forall t <- st.vms :: !t.Errored?)
  }

  /** A call without a fault goes well. */
  lemma TaskGoesWell(su: Setup, st: State, step: Step)
    requires Sized(su, st) && GoesWell(st) && Enabled(su, st, step) && Clean(step)
    requires AllBuild(su) && SecretsFit(su)
    requires step.CallVM? ==> forall i: nat | i < |st.secretNames| :: st.secretNames[i] == SecretName(su, i)
    requires RunSafety.OnSecret(step) || RunSafety.OnVM(step)
    ensures GoesWell(Next(su, st, step))
  {
    hide BuildVM, SecretFor, VMKey, Active, AllStarted, SecretName;
  }

  lemma StageGoesWell(su: Setup, st: State, step: Step)
    requires Sized(su, st) && GoesWell(st) && Enabled(su, st, step) && Clean(step)
    requires !RunSafety.OnSecret(step) && !RunSafety.OnVM(step)
    ensures GoesWell(Next(su, st, step))
  {
    if step.WaitEnds? {
      Readiness.ComingUpIsReady(step.wait.waits, step.wait.steps, step.wait.end);
    }
    hide ServiceFor, ServiceNames, WaitDone, Readiness.AllReady, Readiness.AllComeUp;
  }

  lemma StepGoesWell(su: Setup, s0: Store, st: State, step: Step)
    requires RunSafety.Inv(su, s0, st) && GoesWell(st) && Enabled(su, st, step) && Clean(step)
    requires AllBuild(su) && SecretsFit(su)
    ensures GoesWell(Next(su, st, step))
  {
    if step.CallVM? {
      RunSafety.NamesAreRecorded(su, st);
    }
    if RunSafety.OnSecret(step) || RunSafety.OnVM(step) {
      TaskGoesWell(su, st, step);
    } else {
      StageGoesWell(su, st, step);
    }
    hide Next, RunSafety.Inv, Enabled, Clean;
  }

  lemma {:induction false} CleanStepsGoWell(su: Setup, s0: Store, st: State, steps: seq<Step>, st': State)
    requires ValidSetup(su) && RunSafety.Inv(su, s0, st) && GoesWell(st) && Leads(su, st, steps, st')
    requires AllBuild(su) && SecretsFit(su) && forall step <- steps :: Clean(step)
    ensures GoesWell(st')
    decreases |steps|
  {
    if steps != [] {
      RunSafety.StepKeeps(su, s0, st, steps[0]);
      StepGoesWell(su, s0, st, steps[0]);
      CleanStepsGoWell(su, s0, Next(su, st, steps[0]), steps[1..], st');
    }
  }

  /**
   When no call fails and every VM that is waited for comes up in time, however
   long it is not there at first, a run returns without error exactly when the
   dry run does and every cloud-init text fits a Secret, which the dry run does
   not check.
   */
  lemma CleanRunSucceedsIff(su: Setup, s0: Store, steps: seq<Step>, st: State)
    requires ValidSetup(su) && Leads(su, Init(su, s0), steps, st) && forall step <- steps :: Clean(step)
    ensures st.stage.Returned? ==> (st.stage.end.Deployed? <==> AllBuild(su) && SecretsFit(su))
  {
    if AllBuild(su) && SecretsFit(su) {
      RunSafety.InitInv(su, s0);
      CleanStepsGoWell(su, s0, Init(su, s0), steps, st);
    } else if st.stage == Returned(Deployed) {
      RunSafety.SuccessMeansDeployed(su, s0, steps, st);
      hide BuildVM, Leads, ValidSetup;
    }
  }
}
