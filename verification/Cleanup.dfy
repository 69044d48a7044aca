/**
 Label-driven teardown: CleanupAll and PreviewCleanup of internal/cleanup/cleanup.go.
 */
module Cleanup {
  import opened Collections
  import opened Options
  import opened Cluster

  // ---------------------------------------------------------------------
  // What a cleanup meets
  // ---------------------------------------------------------------------

  /** What one delete call meets: another client that was faster, and the fault of the call. */
  datatype Meeting = Meeting(vanished: bool, fault: Fault)

  /** The kinds whose list calls fail. */
  type Down = set<Kind>

  /** What the deletion of the i-th listed object of a kind meets; Namespace 0 is the namespace itself. */
  type Script = (Kind, nat) -> Meeting

  /** The kinds in the order in which they are deleted. */
  const KINDS := [VirtualMachine, Service, Secret, DataVolume, PersistentVolumeClaim]

  /** The labels that cleanup selects on; an empty run id selects the objects of every run. */
  function Selector(runID: string): Labels {
    var managed := map[LABEL_MANAGED_BY := MANAGED_BY_VALUE];
    if runID != "" then managed[LABEL_RUN_ID := runID] else managed
  }

  datatype DeleteError = DeleteError(key: Key, error: ApiError)

  /** The counter and the name list of one kind. */
  datatype Pass = Pass(count: nat, names: seq<string>)

  const EMPTY_PASS := Pass(0, [])

  datatype CleanupResult = CleanupResult(vms: Pass, services: Pass, secrets: Pass, dvs: Pass, pvcs: Pass,
                                         namespaceDeleted: bool, errors: seq<DeleteError>, runIDs: seq<string>)

  datatype CleanupPreview = CleanupPreview(vmCount: nat, serviceCount: nat, secretCount: nat, dvCount: nat, pvcCount: nat,
                                           totalCount: nat, runIDs: seq<string>)

  function CollectRunID(labels: Labels, ids: set<string>): set<string> {
    if LABEL_RUN_ID in labels && labels[LABEL_RUN_ID] != "" then ids + {labels[LABEL_RUN_ID]} else ids
  }

  // ---------------------------------------------------------------------
  // One kind
  // ---------------------------------------------------------------------

  datatype Sweep = Sweep(store: Store, deleted: seq<string>, errors: seq<DeleteError>, runIDs: set<string>)

  /** The loop over the listed objects of one kind. */
  function Swept(begun: Sweep, kind: Kind, items: seq<Item>, dryRun: bool, script: Script): Sweep {
    if items == [] then begun
    else
      var n := |items| - 1;
      var w := Swept(begun, kind, items[..n], dryRun, script);
      var m := script(kind, n);
      var r := ServeRacedDelete(w.store, items[n].key, dryRun, m.vanished, m.fault);
      Sweep(r.store,
            if r.reply.Ok? then w.deleted + [items[n].key.name] else w.deleted,
            if r.reply.Failed? && !r.reply.error.NotFound?
            then w.errors + [DeleteError(items[n].key, r.reply.error)] else w.errors,
            CollectRunID(items[n].labels, w.runIDs))
  }

  lemma NothingSwept(begun: Sweep, kind: Kind, dryRun: bool, script: Script)
    ensures Swept(begun, kind, [], dryRun, script) == begun
  {
  }

  lemma OneMoreSwept(begun: Sweep, kind: Kind, items: seq<Item>, i: nat, dryRun: bool, script: Script)
    requires i < |items|
    ensures var w := Swept(begun, kind, items[..i], dryRun, script);
            var r := ServeRacedDelete(w.store, items[i].key, dryRun, script(kind, i).vanished, script(kind, i).fault);
            Swept(begun, kind, items[..i + 1], dryRun, script)
            == Sweep(r.store,
                     if r.reply.Ok? then w.deleted + [items[i].key.name] else w.deleted,
                     if r.reply.Failed? && !r.reply.error.NotFound?
                     then w.errors + [DeleteError(items[i].key, r.reply.error)] else w.errors,
                     CollectRunID(items[i].labels, w.runIDs))
  {
    assert items[..i + 1][..i] == items[..i];
  }

  method SweepKind(api: ApiServer, kind: Kind, namespace: string, selector: Labels, dryRun: bool, script: Script,
                   down: Down, errors: seq<DeleteError>, runIDSet: set<string>)
    returns (listing: Option<seq<Item>>, pass: Pass, errors': seq<DeleteError>, runIDSet': set<string>)
    modifies api
    ensures listing.None? <==> kind in down
    ensures listing.None? ==> api.objects == old(api.objects) && pass == EMPTY_PASS
                              && errors' == errors && runIDSet' == runIDSet
    ensures listing.Some? ==>
              && IsListing(listing.value, old(api.objects), kind, namespace, selector)
              && pass.count == |pass.names|
              && Sweep(api.objects, pass.names, errors', runIDSet')
                 == Swept(Sweep(old(api.objects), [], errors, runIDSet), kind, listing.value, dryRun, script)
  {
    hide Swept, IsListing, ServeRacedDelete, CollectRunID;
    pass, errors', runIDSet' := EMPTY_PASS, errors, runIDSet;
    listing := api.List(kind, namespace, selector, kind in down);
    if listing.None? {
      return;
    }
    var items := listing.value;
    var deleted, names := 0, [];
    ghost var begun := Sweep(old(api.objects), [], errors, runIDSet);
    NothingSwept(begun, kind, dryRun, script);
    for i := 0 to |items|
      invariant deleted == |names|
      invariant Sweep(api.objects, names, errors', runIDSet') == Swept(begun, kind, items[..i], dryRun, script)
    {
      OneMoreSwept(begun, kind, items, i, dryRun, script);
      runIDSet' := CollectRunID(items[i].labels, runIDSet');
      var reply := api.Delete(items[i].key, dryRun, script(kind, i).vanished, script(kind, i).fault);
      if reply.Failed? {
        if !reply.error.NotFound? {
          errors' := errors' + [DeleteError(items[i].key, reply.error)];
        }
        continue;
      }
      deleted := deleted + 1;
      names := names + [items[i].key.name];
    }
    assert items[..|items|] == items;
    pass := Pass(deleted, names);
  }

  // ---------------------------------------------------------------------
  // CleanupAll
  // ---------------------------------------------------------------------

  datatype Progress = Progress(store: Store, passes: seq<Pass>, errors: seq<DeleteError>, runIDs: set<string>)

  /** The first passes, given what their list calls returned. */
  function Passed(s: Store, listings: seq<seq<Item>>, dryRun: bool, script: Script): Progress
    requires |listings| <= |KINDS|
    decreases |listings|
  {
    if listings == [] then Progress(s, [], [], {})
    else
      var n := |listings| - 1;
      var p := Passed(s, listings[..n], dryRun, script);
      var w := Swept(Sweep(p.store, [], p.errors, p.runIDs), KINDS[n], listings[n], dryRun, script);
      Progress(w.store, p.passes + [Pass(|w.deleted|, w.deleted)], w.errors, w.runIDs)
  }

  /** Each listing is a reply to the list call that was made when the passes before it were done. */
  ghost predicate AreListings(s: Store, listings: seq<seq<Item>>, namespace: string, selector: Labels,
                              dryRun: bool, script: Script)
    decreases |listings|
  {
    && |listings| <= |KINDS|
    && (listings == [] || (
          var n := |listings| - 1;
          && AreListings(s, listings[..n], namespace, selector, dryRun, script)
          && IsListing(listings[n], Passed(s, listings[..n], dryRun, script).store, KINDS[n], namespace, selector)))
  }

  function AllPasses(r: CleanupResult): seq<Pass> {
    [r.vms, r.services, r.secrets, r.dvs, r.pvcs]
  }

  /** The namespace is deleted without the dry-run option. */
  function NamespaceDelete(s: Store, namespace: string, script: Script): Result {
    ServeRacedDelete(s, Key(Namespace, "", namespace), false, script(Namespace, 0).vanished, script(Namespace, 0).fault)
  }

  /** What CleanupAll returns and leaves behind when the list calls returned `listings`. */
  ghost predicate IsOutcome(s: Store, s': Store, result: CleanupResult, failed: Option<Kind>, listings: seq<seq<Item>>,
                            namespace: string, runID: string, dryRun: bool, deleteNamespace: bool, script: Script)
  {
    && AreListings(s, listings, namespace, Selector(runID), dryRun, script)
    && failed == (if |listings| < |KINDS| then Some(KINDS[|listings|]) else None)
    && var p := Passed(s, listings, dryRun, script);
    && AllPasses(result) == p.passes + EmptyPasses(|KINDS| - |listings|)
    && (if failed.Some? then result.runIDs == [] else Lists(result.runIDs, p.runIDs))
    && if failed.Some? || !deleteNamespace then
         s' == p.store && result.errors == p.errors && !result.namespaceDeleted
       else
         var d := NamespaceDelete(p.store, namespace, script);
         && s' == d.store && result.namespaceDeleted == d.reply.Ok?
         && result.errors == p.errors + NamespaceErrors(d.reply, namespace)
  }

  function EmptyPasses(n: nat): seq<Pass> { seq(n, _ => EMPTY_PASS) }

  function NamespaceErrors(reply: Reply, namespace: string): seq<DeleteError> {
    if reply.Ok? || reply.error.NotFound? then [] else [DeleteError(Key(Namespace, "", namespace), reply.error)]
  }

  /** The passes so far are in their fields, and the fields of the others are empty. */
  ghost predicate PassesKept(r: CleanupResult, passes: seq<Pass>) {
    && |passes| <= |KINDS|
    && forall k | 0 <= k < |KINDS| :: AllPasses(r)[k] == if k < |passes| then passes[k] else EMPTY_PASS
  }

  /** Where a cleanup stands after the passes whose list calls returned `listings`. */
  ghost predicate Standing(s: Store, store: Store, r: CleanupResult, ids: set<string>, listings: seq<seq<Item>>,
                           namespace: string, runID: string, dryRun: bool, script: Script)
  {
    && AreListings(s, listings, namespace, Selector(runID), dryRun, script)
    && var now := Passed(s, listings, dryRun, script);
    && store == now.store && ids == now.runIDs && |now.passes| == |listings|
    && PassesKept(r, now.passes) && r.errors == now.errors && r.runIDs == [] && !r.namespaceDeleted
  }

  /** The result with the fields of the n-th kind filled in. */
  function WithPass(r: CleanupResult, n: nat, pass: Pass, errors: seq<DeleteError>): CleanupResult {
    match n
    case 0 => r.(vms := pass, errors := errors)
    case 1 => r.(services := pass, errors := errors)
    case 2 => r.(secrets := pass, errors := errors)
    case 3 => r.(dvs := pass, errors := errors)
    case _ => r.(pvcs := pass, errors := errors)
  }

  lemma PassRecorded(r: CleanupResult, passes: seq<Pass>, n: nat, pass: Pass, errors: seq<DeleteError>)
    requires PassesKept(r, passes) && n == |passes| < |KINDS|
    ensures var r' := WithPass(r, n, pass, errors);
            && PassesKept(r', passes + [pass])
            && r'.errors == errors && r'.runIDs == r.runIDs && r'.namespaceDeleted == r.namespaceDeleted
  {
    forall k | 0 <= k < |KINDS|
      ensures AllPasses(WithPass(r, n, pass, errors))[k] == if k < n + 1 then (passes + [pass])[k] else EMPTY_PASS
    {
      assert k != n ==> AllPasses(WithPass(r, n, pass, errors))[k] == AllPasses(r)[k];
    }
  }

  lemma NextPass(s: Store, store: Store, r: CleanupResult, ids: set<string>, listings: seq<seq<Item>>, namespace: string,
                 runID: string, dryRun: bool, script: Script, listing: seq<Item>, next: Sweep)
    requires Standing(s, store, r, ids, listings, namespace, runID, dryRun, script) && |listings| < |KINDS|
    requires IsListing(listing, store, KINDS[|listings|], namespace, Selector(runID))
    requires next == Swept(Sweep(store, [], r.errors, ids), KINDS[|listings|], listing, dryRun, script)
    ensures Standing(s, next.store,
                     WithPass(r, |listings|, Pass(|next.deleted|, next.deleted), next.errors), next.runIDs,
                     listings + [listing], namespace, runID, dryRun, script)
  {
    var now := Passed(s, listings, dryRun, script);
    PassedNext(s, listings, namespace, runID, dryRun, script, listing);
    PassRecorded(r, now.passes, |listings|, Pass(|next.deleted|, next.deleted), next.errors);
    hide PassesKept, Swept, IsListing, Selector, Passed, AreListings, WithPass;
  }

  lemma PassedNext(s: Store, listings: seq<seq<Item>>, namespace: string, runID: string, dryRun: bool, script: Script,
                   listing: seq<Item>)
    requires AreListings(s, listings, namespace, Selector(runID), dryRun, script) && |listings| < |KINDS|
    requires IsListing(listing, Passed(s, listings, dryRun, script).store, KINDS[|listings|], namespace, Selector(runID))
    ensures AreListings(s, listings + [listing], namespace, Selector(runID), dryRun, script)
    ensures var p := Passed(s, listings, dryRun, script);
            var w := Swept(Sweep(p.store, [], p.errors, p.runIDs), KINDS[|listings|], listing, dryRun, script);
            Passed(s, listings + [listing], dryRun, script)
            == Progress(w.store, p.passes + [Pass(|w.deleted|, w.deleted)], w.errors, w.runIDs)
  {
    hide IsListing, Swept, Selector;
    assert (listings + [listing])[..|listings|] == listings;
  }

  lemma NothingPassed(s: Store, namespace: string, runID: string, dryRun: bool, script: Script)
    ensures Standing(s, s, CleanupResult(EMPTY_PASS, EMPTY_PASS, EMPTY_PASS, EMPTY_PASS, EMPTY_PASS, false, [], []), {}, [],
                     namespace, runID, dryRun, script)
  {
  }

  lemma PassesPadded(r: CleanupResult, passes: seq<Pass>)
    requires PassesKept(r, passes)
    ensures |passes| <= |KINDS| && AllPasses(r) == passes + EmptyPasses(|KINDS| - |passes|)
  {
  }

  lemma OtherFieldsChange(r: CleanupResult, r': CleanupResult, passes: seq<Pass>)
    requires PassesKept(r, passes) && AllPasses(r') == AllPasses(r)
    ensures PassesKept(r', passes)
  {
  }

  lemma Stopped(s: Store, store: Store, r: CleanupResult, ids: set<string>, listings: seq<seq<Item>>, namespace: string,
                runID: string, dryRun: bool, deleteNamespace: bool, script: Script)
    requires Standing(s, store, r, ids, listings, namespace, runID, dryRun, script) && |listings| < |KINDS|
    ensures IsOutcome(s, store, r, Some(KINDS[|listings|]), listings, namespace, runID, dryRun, deleteNamespace, script)
  {
    PassesPadded(r, Passed(s, listings, dryRun, script).passes);
    hide AreListings, Passed, Selector, NamespaceDelete, PassesKept;
  }

  lemma Finished(s: Store, store: Store, r: CleanupResult, ids: set<string>, listings: seq<seq<Item>>, namespace: string,
                 runID: string, dryRun: bool, deleteNamespace: bool, script: Script, r': CleanupResult, s': Store)
    requires Standing(s, store, r, ids, listings, namespace, runID, dryRun, script) && |listings| == |KINDS|
    requires AllPasses(r') == AllPasses(r) && Lists(r'.runIDs, ids)
    requires var d := if deleteNamespace then NamespaceDelete(store, namespace, script) else Result(store, Failed(NotFound));
             && s' == d.store && r'.namespaceDeleted == d.reply.Ok?
             && r'.errors == r.errors + NamespaceErrors(d.reply, namespace)
    ensures IsOutcome(s, s', r', None, listings, namespace, runID, dryRun, deleteNamespace, script)
  {
    var passes := Passed(s, listings, dryRun, script).passes;
    OtherFieldsChange(r, r', passes);
    PassesPadded(r', passes);
    hide AreListings, Passed, Selector, NamespaceDelete, Lists, PassesKept;
    assert passes + EmptyPasses(0) == passes;
  }

  /** `failed` is the kind that could not be listed; a cleanup that stops there reports no run ids. */
  method CleanupAll(api: ApiServer, namespace: string, runID: string, dryRun: bool, deleteNamespace: bool, script: Script,
                    down: Down)
    returns (result: CleanupResult, failed: Option<Kind>, ghost listings: seq<seq<Item>>)
    modifies api
    ensures failed.Some? <==> exists kind <- KINDS :: kind in down
    ensures failed.Some? ==> failed.value in down && forall k | 0 <= k < |listings| <= |KINDS| :: KINDS[k] !in down
    ensures IsOutcome(old(api.objects), api.objects, result, failed, listings, namespace, runID, dryRun, deleteNamespace,
                      script)
  {
    hide IsOutcome, Standing, Swept, IsListing, Selector, NamespaceDelete, Lists;
    ghost var s := api.objects;
    var selector := Selector(runID);
    result := CleanupResult(EMPTY_PASS, EMPTY_PASS, EMPTY_PASS, EMPTY_PASS, EMPTY_PASS, false, [], []);
    var runIDSet: set<string> := {};
    listings := [];
    NothingPassed(s, namespace, runID, dryRun, script);

    ghost var before1, ids1 := api.objects, runIDSet;
    var listing1, pass1, errors1, set1 :=
      SweepKind(api, VirtualMachine, namespace, selector, dryRun, script, down, result.errors, runIDSet);
    if listing1.None? {
      Stopped(s, api.objects, result, runIDSet, listings, namespace, runID, dryRun, deleteNamespace, script);
      return result, Some(VirtualMachine), listings;
    }
    NextPass(s, before1, result, ids1, listings, namespace, runID, dryRun, script, listing1.value,
             Sweep(api.objects, pass1.names, errors1, set1));
    listings, runIDSet := listings + [listing1.value], set1;
    result := result.(vms := pass1, errors := errors1);

    ghost var before2, ids2 := api.objects, runIDSet;
    var listing2, pass2, errors2, set2 :=
      SweepKind(api, Service, namespace, selector, dryRun, script, down, result.errors, runIDSet);
    if listing2.None? {
      Stopped(s, api.objects, result, runIDSet, listings, namespace, runID, dryRun, deleteNamespace, script);
      return result, Some(Service), listings;
    }
    NextPass(s, before2, result, ids2, listings, namespace, runID, dryRun, script, listing2.value,
             Sweep(api.objects, pass2.names, errors2, set2));
    listings, runIDSet := listings + [listing2.value], set2;
    result := result.(services := pass2, errors := errors2);

    ghost var before3, ids3 := api.objects, runIDSet;
    var listing3, pass3, errors3, set3 :=
      SweepKind(api, Secret, namespace, selector, dryRun, script, down, result.errors, runIDSet);
    if listing3.None? {
      Stopped(s, api.objects, result, runIDSet, listings, namespace, runID, dryRun, deleteNamespace, script);
      return result, Some(Secret), listings;
    }
    NextPass(s, before3, result, ids3, listings, namespace, runID, dryRun, script, listing3.value,
             Sweep(api.objects, pass3.names, errors3, set3));
    listings, runIDSet := listings + [listing3.value], set3;
    result := result.(secrets := pass3, errors := errors3);

    ghost var before4, ids4 := api.objects, runIDSet;
    var listing4, pass4, errors4, set4 :=
      SweepKind(api, DataVolume, namespace, selector, dryRun, script, down, result.errors, runIDSet);
    if listing4.None? {
      Stopped(s, api.objects, result, runIDSet, listings, namespace, runID, dryRun, deleteNamespace, script);
      return result, Some(DataVolume), listings;
    }
    NextPass(s, before4, result, ids4, listings, namespace, runID, dryRun, script, listing4.value,
             Sweep(api.objects, pass4.names, errors4, set4));
    listings, runIDSet := listings + [listing4.value], set4;
    result := result.(dvs := pass4, errors := errors4);

    ghost var before5, ids5 := api.objects, runIDSet;
    var listing5, pass5, errors5, set5 :=
      SweepKind(api, PersistentVolumeClaim, namespace, selector, dryRun, script, down, result.errors, runIDSet);
    if listing5.None? {
      Stopped(s, api.objects, result, runIDSet, listings, namespace, runID, dryRun, deleteNamespace, script);
      return result, Some(PersistentVolumeClaim), listings;
    }
    NextPass(s, before5, result, ids5, listings, namespace, runID, dryRun, script, listing5.value,
             Sweep(api.objects, pass5.names, errors5, set5));
    listings, runIDSet := listings + [listing5.value], set5;
    result := result.(pvcs := pass5, errors := errors5);

    ghost var swept, swept' := result, api.objects;
    var runIDs := InSomeOrder(runIDSet);
    result := result.(runIDs := runIDs);
    failed := None;

    if deleteNamespace {
      var reply := DeleteNamespace(api, namespace, script);
      if reply.Failed? {
        if !reply.error.NotFound? {
          result := result.(errors := result.errors + [DeleteError(Key(Namespace, "", namespace), reply.error)]);
        }
      } else {
        result := result.(namespaceDeleted := true);
      }
    }
    Finished(s, swept', swept, runIDSet, listings, namespace, runID, dryRun, deleteNamespace, script, result, api.objects);
  }

  method DeleteNamespace(api: ApiServer, namespace: string, script: Script) returns (reply: Reply)
    modifies api
    ensures Result(api.objects, reply) == NamespaceDelete(old(api.objects), namespace, script)
  {
    reply := api.Delete(Key(Namespace, "", namespace), false, script(Namespace, 0).vanished, script(Namespace, 0).fault);
  }

  // ---------------------------------------------------------------------
  // PreviewCleanup
  // ---------------------------------------------------------------------

  /** The objects a cleanup is after. */
  predicate Targeted(s: Store, key: Key, namespace: string, runID: string) {
    key.kind in KINDS && Listed(s, key, key.kind, namespace, Selector(runID))
  }

  /** A cleanup is after the managed objects of five kinds in its namespace, of its run if it is given a run id. */
  lemma TargetedMeans(s: Store, key: Key, namespace: string, runID: string)
    ensures Targeted(s, key, namespace, runID) <==>
              && key in s && key.namespace == namespace
              && key.kind in {VirtualMachine, Service, Secret, DataVolume, PersistentVolumeClaim}
              && "app.kubernetes.io/managed-by" in s[key].labels
              && s[key].labels["app.kubernetes.io/managed-by"] == "virtwork"
              && (runID != "" ==>
                    "virtwork/run-id" in s[key].labels && s[key].labels["virtwork/run-id"] == runID)
  {
    LabelsDiffer();
    var selector := Selector(runID);
    assert selector.Keys == {LABEL_MANAGED_BY} + if runID != "" then {LABEL_RUN_ID} else {};
  }

  function Targets(s: Store, kind: Kind, namespace: string, runID: string): set<Key> {
    set key <- s | Listed(s, key, kind, namespace, Selector(runID))
  }

  /** The run ids on objects of the first `n` kinds. */
  ghost function RunIDs(s: Store, n: nat, namespace: string, runID: string): set<string>
    requires n <= |KINDS|
  {
    set key <- s | Targeted(s, key, namespace, runID) && key.kind in KINDS[..n]
      && LABEL_RUN_ID in s[key].labels && s[key].labels[LABEL_RUN_ID] != "" :: s[key].labels[LABEL_RUN_ID]
  }

  function Collected(items: seq<Item>, ids: set<string>): set<string> {
    if items == [] then ids else CollectRunID(items[|items| - 1].labels, Collected(items[..|items| - 1], ids))
  }

  method CountKind(api: ApiServer, kind: Kind, namespace: string, selector: Labels, down: Down, ids: set<string>)
    returns (count: Option<nat>, ids': set<string>, ghost items: seq<Item>)
    ensures count.None? <==> kind in down
    ensures count.Some? ==>
              && IsListing(items, api.objects, kind, namespace, selector)
              && count.value == |items| && ids' == Collected(items, ids)
  {
    var listing := api.List(kind, namespace, selector, kind in down);
    if listing.None? {
      return None, ids, [];
    }
    ids', items := ids, listing.value;
    for i := 0 to |listing.value|
      invariant ids' == Collected(items[..i], ids)
    {
      assert items[..i + 1][..i] == items[..i];
      ids' := CollectRunID(listing.value[i].labels, ids');
    }
    assert items[..|items|] == items;
    count := Some(|listing.value|);
  }

  /** `None` when a list call fails; nothing is ever modified. */
  method PreviewCleanup(api: ApiServer, namespace: string, runID: string, down: Down)
    returns (preview: Option<CleanupPreview>)
    ensures preview.None? <==> exists kind <- KINDS :: kind in down
    ensures preview.Some? ==> IsPreview(preview.value, api.objects, namespace, runID)
  {
    hide Targets, IsListing, Collected, Lists, RunIDs, Selector;
    var s := api.objects;
    var selector := Selector(runID);
    var ids: set<string> := {};
    NoRunIDs(s, namespace, runID);
    var vms, ids1, l1 := CountKind(api, VirtualMachine, namespace, selector, down, ids);
    if vms.None? {
      return None;
    }
    NextKind(s, 0, namespace, runID, l1, ids);
    var services, ids2, l2 := CountKind(api, Service, namespace, selector, down, ids1);
    if services.None? {
      return None;
    }
    NextKind(s, 1, namespace, runID, l2, ids1);
    var secrets, ids3, l3 := CountKind(api, Secret, namespace, selector, down, ids2);
    if secrets.None? {
      return None;
    }
    NextKind(s, 2, namespace, runID, l3, ids2);
    var dvs, ids4, l4 := CountKind(api, DataVolume, namespace, selector, down, ids3);
    if dvs.None? {
      return None;
    }
    NextKind(s, 3, namespace, runID, l4, ids3);
    var pvcs, ids5, l5 := CountKind(api, PersistentVolumeClaim, namespace, selector, down, ids4);
    if pvcs.None? {
      return None;
    }
    NextKind(s, 4, namespace, runID, l5, ids4);
    var runIDs := InSomeOrder(ids5);
    return Some(CleanupPreview(vms.value, services.value, secrets.value, dvs.value, pvcs.value,
                               vms.value + services.value + secrets.value + dvs.value + pvcs.value, runIDs));
  }

  ghost predicate IsPreview(p: CleanupPreview, s: Store, namespace: string, runID: string) {
    && p.vmCount == |Targets(s, VirtualMachine, namespace, runID)|
    && p.serviceCount == |Targets(s, Service, namespace, runID)|
    && p.secretCount == |Targets(s, Secret, namespace, runID)|
    && p.dvCount == |Targets(s, DataVolume, namespace, runID)|
    && p.pvcCount == |Targets(s, PersistentVolumeClaim, namespace, runID)|
    && p.totalCount == p.vmCount + p.serviceCount + p.secretCount + p.dvCount + p.pvcCount
    && Lists(p.runIDs, RunIDs(s, |KINDS|, namespace, runID))
  }

  lemma NoRunIDs(s: Store, namespace: string, runID: string)
    ensures RunIDs(s, 0, namespace, runID) == {}
  {
  }

  lemma {:induction false} ListingSize(items: seq<Item>)
    requires forall i, j | 0 <= i < j < |items| :: items[i].key != items[j].key
    ensures |ItemKeys(items)| == |items|
  {
    if items != [] {
      var before, last := items[..|items| - 1], items[|items| - 1];
      ListingSize(before);
      AppendItem(before, last);
      assert before + [last] == items;
      assert forall i :: 0 <= i < |before| ==> before[i] == items[i];
    }
  }

  lemma {:induction false} CollectedIDs(items: seq<Item>, ids: set<string>)
    ensures forall id :: id in Collected(items, ids) <==>
              id in ids || exists i :: 0 <= i < |items| && Carries(items[i].labels, id)
  {
    if items != [] {
      var before := items[..|items| - 1];
      CollectedIDs(before, ids);
      assert forall i :: 0 <= i < |before| ==> items[i] == before[i];
    }
  }

  /** Listing one more kind counts its targets and adds their run ids. */
  lemma NextKind(s: Store, n: nat, namespace: string, runID: string, items: seq<Item>, ids: set<string>)
    requires n < |KINDS| && IsListing(items, s, KINDS[n], namespace, Selector(runID))
    requires ids == RunIDs(s, n, namespace, runID)
    ensures |items| == |Targets(s, KINDS[n], namespace, runID)|
    ensures Collected(items, ids) == RunIDs(s, n + 1, namespace, runID)
  {
    ListingSize(items);
    assert ItemKeys(items) == Targets(s, KINDS[n], namespace, runID) by {
      hide Selector, MatchesLabels;
    }
    hide IsListing, Targets, RunIDs, Collected;
    forall id ensures id in Collected(items, ids) <==> id in RunIDs(s, n + 1, namespace, runID) {
      NextKindHasID(s, n, namespace, runID, items, ids, id);
    }
  }

  /** The object carries this run id. */
  predicate Carries(labels: Labels, id: string) {
    id != "" && LABEL_RUN_ID in labels && labels[LABEL_RUN_ID] == id
  }

  lemma HasRunID(s: Store, n: nat, namespace: string, runID: string, id: string)
    requires n <= |KINDS|
    ensures id in RunIDs(s, n, namespace, runID)
            <==> exists key ::
                   key in s && Targeted(s, key, namespace, runID) && key.kind in KINDS[..n] && Carries(s[key].labels, id)
  {
    hide Targeted;
  }

  lemma NextKindHasID(s: Store, n: nat, namespace: string, runID: string, items: seq<Item>, ids: set<string>, id: string)
    requires n < |KINDS| && IsListing(items, s, KINDS[n], namespace, Selector(runID))
    requires ids == RunIDs(s, n, namespace, runID)
    ensures id in Collected(items, ids) <==> id in RunIDs(s, n + 1, namespace, runID)
  {
    HasRunID(s, n, namespace, runID, id);
    HasRunID(s, n + 1, namespace, runID, id);
    CollectedIDs(items, ids);
    assert KINDS[..n + 1] == KINDS[..n] + [KINDS[n]];
    hide Collected, Selector, MatchesLabels, RunIDs;
    if i :| 0 <= i < |items| && Carries(items[i].labels, id) {
      assert items[i].key in ItemKeys(items);
      assert Targeted(s, items[i].key, namespace, runID) && Carries(s[items[i].key].labels, id);
    }
    if key :| key in s && Targeted(s, key, namespace, runID) && key.kind == KINDS[n] && Carries(s[key].labels, id) {
      assert key in ItemKeys(items);
      var i :| 0 <= i < |items| && items[i].key == key;
      assert Carries(items[i].labels, id);
    }
  }
}
