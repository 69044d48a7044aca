/**
 Names and run ids are matched crosswise when rows are marked as deleted: which
 clusters let a cleanup mark the rows of a run whose objects it did not delete
 (markDeletionsInAudit in internal/orchestrator/cleanup.go).
 */
module CrossMarks {
  import opened Collections
  import opened Options
  import opened Cluster
  import opened Cleanup
  import opened CleanupLaws
  import opened AuditDeletion
  import opened CleanupAudit

  // ---------------------------------------------------------------------
  // One cleanup
  // ---------------------------------------------------------------------

  predicate Labelled(s: Store, key: Key, id: string) {
    key in s && LABEL_RUN_ID in s[key].labels && s[key].labels[LABEL_RUN_ID] == id
  }

  /** The row was written by the run whose object of that name was deleted. */
  ghost predicate OwnRow(s: Store, listings: seq<seq<Item>>, script: Script, k: nat, row: Row, log: Executions)
    requires k < |KINDS|
  {
    row.auditId in log && exists i: nat ::
      Confirmed(listings, script, k, i) && listings[k][i].key.name == row.name
      && Labelled(s, listings[k][i].key, log[row.auditId])
  }

  /** Every deleted object of the kind carries every run id that this cleanup has collected. */
  predicate OneRunID(s: Store, result: CleanupResult, listings: seq<seq<Item>>, script: Script, k: nat)
    requires k < |KINDS| == |listings|
  {
    forall i: nat | i < |listings[k]| && Confirmed(listings, script, k, i) ::
      forall id <- result.runIDs :: Labelled(s, listings[k][i].key, id)
  }

  /**
   After this cleanup, whatever is in the audit tables, only rows of the deleted
   objects' own runs are hit: exactly when each deleted object carries each
   collected run id. Of two run ids one object cannot carry both.
   */
  lemma HitsAreOwnIff(s: Store, s': Store, result: CleanupResult, listings: seq<seq<Item>>, namespace: string,
                      runID: string, dryRun: bool, deleteNamespace: bool, script: Script, k: nat)
    requires IsOutcome(s, s', result, None, listings, namespace, runID, dryRun, deleteNamespace, script) && k < |KINDS|
    ensures |listings| == |KINDS|
    ensures (forall row, log :: HitAs(row, k, log, result, namespace) ==> OwnRow(s, listings, script, k, row, log))
            <==> OneRunID(s, result, listings, script, k)
  {
    assert |listings| == |KINDS|;
    hide IsOutcome, AllPasses;
    if OneRunID(s, result, listings, script, k) {
      forall row, log | HitAs(row, k, log, result, namespace) ensures OwnRow(s, listings, script, k, row, log) {
        var i := HitIsConfirmed(s, s', result, listings, namespace, runID, dryRun, deleteNamespace, script, row, k, log);
      }
    }
    if forall row, log :: HitAs(row, k, log, result, namespace) ==> OwnRow(s, listings, script, k, row, log) {
      forall i: nat, id | i < |listings[k]| && Confirmed(listings, script, k, i) && id in result.runIDs
        ensures Labelled(s, listings[k][i].key, id)
      {
        OwnLabel(s, s', result, listings, namespace, runID, dryRun, deleteNamespace, script, k, i, id);
      }
    }
  }

  lemma OwnLabel(s: Store, s': Store, result: CleanupResult, listings: seq<seq<Item>>, namespace: string, runID: string,
                 dryRun: bool, deleteNamespace: bool, script: Script, k: nat, i: nat, id: string)
    requires IsOutcome(s, s', result, None, listings, namespace, runID, dryRun, deleteNamespace, script) && k < |KINDS|
    requires Confirmed(listings, script, k, i) && id in result.runIDs
    requires forall row, log :: HitAs(row, k, log, result, namespace) ==> OwnRow(s, listings, script, k, row, log)
    ensures Labelled(s, listings[k][i].key, id)
  {
    var key := listings[k][i].key;
    var row, log := Row(0, ResourceType(KINDS[k]), key.name, namespace, "created", None), map[0 := id];
    LabelIsListed(s, s', result, listings, namespace, runID, dryRun, deleteNamespace, script, k, i);
    hide IsOutcome, AllPasses, Labelled;
    assert HitAs(row, k, log, result, namespace);
    var i': nat :| Confirmed(listings, script, k, i') && listings[k][i'].key.name == row.name
      && Labelled(s, listings[k][i'].key, log[row.auditId]);
    LabelIsListed(s, s', result, listings, namespace, runID, dryRun, deleteNamespace, script, k, i');
  }

  // ---------------------------------------------------------------------
  // All cleanups of a cluster
  // ---------------------------------------------------------------------

  /** Whatever a cleanup meets, and whatever is in the audit tables, only rows of the deleted objects' own runs are hit. */
  ghost predicate HitsOwnOnly(s: Store, namespace: string, runID: string, k: nat)
    requires k < |KINDS|
  {
    forall s', result, listings, dryRun, deleteNamespace, script, row, log ::
      (&& IsOutcome(s, s', result, None, listings, namespace, runID, dryRun, deleteNamespace, script)
       && HitAs(row, k, log, result, namespace))
      ==> OwnRow(s, listings, script, k, row, log)
  }

  /** Every target of the kind carries every run id found on a target of any kind. */
  ghost predicate OneRunOnly(s: Store, namespace: string, runID: string, k: nat)
    requires k < |KINDS|
  {
    forall key, id :: key in Targets(s, KINDS[k], namespace, runID) && id in RunIDs(s, |KINDS|, namespace, runID)
      ==> Labelled(s, key, id)
  }

  /**
   No cleanup of this cluster can mark another run's row for an object of the
   kind: exactly when all targets are of the one run that is found.
   */
  lemma CrossMarksIff(s: Store, namespace: string, runID: string, k: nat)
    requires k < |KINDS|
    ensures HitsOwnOnly(s, namespace, runID, k) <==> OneRunOnly(s, namespace, runID, k)
  {
    if OneRunOnly(s, namespace, runID, k) {
      forall s', result, listings, dryRun, deleteNamespace, script, row, log |
        IsOutcome(s, s', result, None, listings, namespace, runID, dryRun, deleteNamespace, script)
        && HitAs(row, k, log, result, namespace)
        ensures OwnRow(s, listings, script, k, row, log)
      {
        OneRunHitsOwn(s, s', result, listings, namespace, runID, dryRun, deleteNamespace, script, k, row, log);
      }
    }
    if HitsOwnOnly(s, namespace, runID, k) {
      OwnHitsOneRun(s, namespace, runID, k);
    }
  }

  lemma OneRunHitsOwn(s: Store, s': Store, result: CleanupResult, listings: seq<seq<Item>>, namespace: string,
                      runID: string, dryRun: bool, deleteNamespace: bool, script: Script, k: nat, row: Row,
                      log: Executions)
    requires IsOutcome(s, s', result, None, listings, namespace, runID, dryRun, deleteNamespace, script)
    requires k < |KINDS| && HitAs(row, k, log, result, namespace) && OneRunOnly(s, namespace, runID, k)
    ensures OwnRow(s, listings, script, k, row, log)
  {
    CleanupAccounts(s, s', result, listings, namespace, runID, dryRun, deleteNamespace, script);
    var i := HitIsConfirmed(s, s', result, listings, namespace, runID, dryRun, deleteNamespace, script, row, k, log);
    hide IsOutcome, HitAs, RunIDs, Labelled, Reports, Having, Selector, IsRowOf;
    TargetIsListed(s, listings[k], k, namespace, runID, i);
    hide IsListing, Targets;
    assert log[row.auditId] in RunIDs(s, |KINDS|, namespace, runID);
    assert listings[k][i].key.name == row.name by {
      RowOfName(row, listings[k][i].key);
    }
  }

  lemma RowOfName(row: Row, key: Key)
    requires IsRowOf(row, key)
    ensures row.name == key.name
  {
  }

  lemma TargetIsListed(s: Store, items: seq<Item>, k: nat, namespace: string, runID: string, i: nat)
    requires k < |KINDS| && IsListing(items, s, KINDS[k], namespace, Selector(runID)) && i < |items|
    ensures items[i].key in Targets(s, KINDS[k], namespace, runID)
  {
    hide Selector, MatchesLabels;
    assert items[i].key in ItemKeys(items);
  }

  // ---------------------------------------------------------------------
  // A cleanup in which every call is served
  // ---------------------------------------------------------------------

  ghost const ALL_SERVED: Script := (kind: Kind, i: nat) => Meeting(false, Delivered)

  ghost function ItemsOf(s: Store, keys: seq<Key>): seq<Item>
    requires forall key <- keys :: key in s
  {
    seq(|keys|, i requires 0 <= i < |keys| => assert keys[i] in keys; Item(keys[i], s[keys[i]].labels))
  }

  /** What a list call can reply. */
  lemma SomeListing(s: Store, kind: Kind, namespace: string, runID: string) returns (items: seq<Item>)
    ensures IsListing(items, s, kind, namespace, Selector(runID))
  {
    var targets := Targets(s, kind, namespace, runID);
    var keys := SomeList(targets);
    hide Selector, MatchesLabels;
    items := ItemsOf(s, keys);
    forall key ensures key in ItemKeys(items) <==> key in targets {
      if key in targets {
        var i :| 0 <= i < |keys| && keys[i] == key;
        assert items[i].key == key;
      }
      if key in ItemKeys(items) {
        var i :| 0 <= i < |items| && items[i].key == key;
        assert keys[i] in keys;
      }
    }
    forall i | 0 <= i < |items| ensures items[i].key in s {
      assert keys[i] in keys;
    }
  }

  /** A cleanup of this cluster can go through without any failure. */
  lemma ServedCleanup(s: Store, namespace: string, runID: string)
    returns (s': Store, result: CleanupResult, listings: seq<seq<Item>>)
    ensures IsOutcome(s, s', result, None, listings, namespace, runID, false, false, ALL_SERVED)
  {
    listings := [];
    hide Swept, IsListing, Selector, NamespaceDelete;
    while |listings| < |KINDS|
      invariant |listings| <= |KINDS| && AreListings(s, listings, namespace, Selector(runID), false, ALL_SERVED)
      invariant |Passed(s, listings, false, ALL_SERVED).passes| == |listings|
      decreases |KINDS| - |listings|
    {
      var p := Passed(s, listings, false, ALL_SERVED);
      var items := SomeListing(p.store, KINDS[|listings|], namespace, runID);
      assert (listings + [items])[..|listings|] == listings;
      listings := listings + [items];
    }
    var p := Passed(s, listings, false, ALL_SERVED);
    hide AreListings, Passed;
    var runIDs := SomeList(p.runIDs);
    result := CleanupResult(p.passes[0], p.passes[1], p.passes[2], p.passes[3], p.passes[4], false, p.errors, runIDs);
    s' := p.store;
    assert AllPasses(result) == p.passes && p.passes + EmptyPasses(0) == p.passes;
  }

  lemma OwnHitsOneRun(s: Store, namespace: string, runID: string, k: nat)
    requires k < |KINDS| && HitsOwnOnly(s, namespace, runID, k)
    ensures OneRunOnly(s, namespace, runID, k)
  {
    var s', result, listings := ServedCleanup(s, namespace, runID);
    hide IsOutcome, Labelled, HitAs;
    ServedCleanupHitsIff(s, s', result, listings, namespace, runID, k);
  }

  lemma ServedCleanupHitsIff(s: Store, s': Store, result: CleanupResult, listings: seq<seq<Item>>, namespace: string,
                             runID: string, k: nat)
    requires IsOutcome(s, s', result, None, listings, namespace, runID, false, false, ALL_SERVED) && k < |KINDS|
    requires forall row, log :: HitAs(row, k, log, result, namespace) ==> OwnRow(s, listings, ALL_SERVED, k, row, log)
    ensures OneRunOnly(s, namespace, runID, k)
  {
    HitsAreOwnIff(s, s', result, listings, namespace, runID, false, false, ALL_SERVED, k);
    CleanupAccounts(s, s', result, listings, namespace, runID, false, false, ALL_SERVED);
    hide IsOutcome, HitAs, OwnRow, Labelled, RunIDs, Reports, Having, Selector, MatchesLabels;
    forall key, id | key in Targets(s, KINDS[k], namespace, runID) && id in RunIDs(s, |KINDS|, namespace, runID)
      ensures Labelled(s, key, id)
    {
      assert key in ItemKeys(listings[k]);
      var i: nat :| i < |listings[k]| && listings[k][i].key == key;
      assert Confirmed(listings, ALL_SERVED, k, i);
    }
  }

  // ---------------------------------------------------------------------
  // With and without a filter
  // ---------------------------------------------------------------------

  /** A cleanup filtered by run id never marks another run's row. */
  lemma FilteredHitsOwnOnly(s: Store, namespace: string, runID: string, k: nat)
    requires runID != "" && k < |KINDS|
    ensures HitsOwnOnly(s, namespace, runID, k)
  {
    FilteredRunIDs(s, namespace, runID);
    assert LABEL_RUN_ID in Selector(runID) && Selector(runID)[LABEL_RUN_ID] == runID;
    assert OneRunOnly(s, namespace, runID, k);
    CrossMarksIff(s, namespace, runID, k);
  }

  /** So each object that a filtered cleanup deletes carries the one run id that it collects. */
  lemma FilteredHasOneRunID(s: Store, s': Store, result: CleanupResult, listings: seq<seq<Item>>, namespace: string,
                            runID: string, dryRun: bool, deleteNamespace: bool, script: Script, k: nat)
    requires IsOutcome(s, s', result, None, listings, namespace, runID, dryRun, deleteNamespace, script) && k < |KINDS|
    requires runID != ""
    ensures |listings| == |KINDS| && OneRunID(s, result, listings, script, k)
  {
    FilteredHitsOwnOnly(s, namespace, runID, k);
    HitsAreOwnIff(s, s', result, listings, namespace, runID, dryRun, deleteNamespace, script, k);
    hide IsOutcome, HitAs, OwnRow, OneRunID;
  }

  function ManagedVM(runID: string): Object {
    Object(map[LABEL_MANAGED_BY := MANAGED_BY_VALUE, LABEL_RUN_ID := runID], OtherSpec)
  }

  /** Two VMs of two runs. */
  function TwoRuns(namespace: string): Store {
    map[Key(VirtualMachine, namespace, "a") := ManagedVM("r1"), Key(VirtualMachine, namespace, "b") := ManagedVM("r2")]
  }

  /**
   Two runs cleaned up together: the row that the second run once wrote about
   a VM named "a" is marked, although the VM that was deleted is the first run's.
   */
  lemma TwoRunsMarkCrosswise(namespace: string, clock: nat -> string, faults: nat -> WriteFault)
    returns (s': Store, result: CleanupResult, listings: seq<seq<Item>>, row: Row, log: Executions)
    requires !faults(0).NotWritten?
    ensures IsOutcome(TwoRuns(namespace), s', result, None, listings, namespace, "", false, false, ALL_SERVED)
    ensures IsRowOf(row, Key(VirtualMachine, namespace, "a")) && row.auditId in log && log[row.auditId] == "r2"
    ensures Labelled(TwoRuns(namespace), Key(VirtualMachine, namespace, "a"), "r1")
    ensures IsMarked(row, MarkedVMs([row], log, result, namespace, clock, faults)[0], clock(0))
    ensures !OwnRow(TwoRuns(namespace), listings, ALL_SERVED, 0, row, log)
  {
    s', result, listings := ServedCleanup(TwoRuns(namespace), namespace, "");
    row, log := Row(1, "", "a", namespace, "created", None), map[1 := "r2"];
    TwoRunsTargets(namespace);
    TwoRunsReported(namespace, s', result, listings);
    hide IsOutcome, RunIDs, Targets, TwoRuns, Labelled, OwnRow;
    NotOwn(TwoRuns(namespace), s', result, listings, namespace, row, log);
  }

  lemma TwoRunsReported(namespace: string, s': Store, result: CleanupResult, listings: seq<seq<Item>>)
    requires IsOutcome(TwoRuns(namespace), s', result, None, listings, namespace, "", false, false, ALL_SERVED)
    ensures "a" in result.vms.names && "r2" in result.runIDs
  {
    var s := TwoRuns(namespace);
    TwoRunsTargets(namespace);
    CleanupAccounts(s, s', result, listings, namespace, "", false, false, ALL_SERVED);
    var a := Key(VirtualMachine, namespace, "a");
    hide IsOutcome, RunIDs, Targets, Having, Selector, TwoRuns, Labelled, IsListing, Reports;
    ListedBecauseTarget(s, listings[0], namespace, a);
    var i: nat :| i < |listings[0]| && listings[0][i].key == a;
    ReportedNames(AllPasses(result)[0], listings[0], KINDS[0], ALL_SERVED, "a");
    assert FateOf(ALL_SERVED(KINDS[0], i)).Removed?;
  }

  lemma ListedBecauseTarget(s: Store, items: seq<Item>, namespace: string, key: Key)
    requires IsListing(items, s, KINDS[0], namespace, Selector("")) && key in Targets(s, KINDS[0], namespace, "")
    ensures key in ItemKeys(items)
  {
  }

  lemma NotOwn(s: Store, s': Store, result: CleanupResult, listings: seq<seq<Item>>, namespace: string, row: Row,
               log: Executions)
    requires IsOutcome(s, s', result, None, listings, namespace, "", false, false, ALL_SERVED)
    requires row.name == "a" && row.auditId in log && log[row.auditId] == "r2"
    requires Labelled(s, Key(VirtualMachine, namespace, "a"), "r1")
    ensures !OwnRow(s, listings, ALL_SERVED, 0, row, log)
  {
    assert "r1"[1] != "r2"[1];
    forall i: nat | Confirmed(listings, ALL_SERVED, 0, i) && listings[0][i].key.name == "a"
      ensures !Labelled(s, listings[0][i].key, "r2")
    {
      LabelIsListed(s, s', result, listings, namespace, "", false, false, ALL_SERVED, 0, i);
      hide IsOutcome;
      assert listings[0][i].key == Key(VirtualMachine, namespace, "a");
    }
  }

  lemma TwoRunsTargets(namespace: string)
    ensures var s := TwoRuns(namespace);
            && Key(VirtualMachine, namespace, "a") in Targets(s, KINDS[0], namespace, "")
            && "r2" in RunIDs(s, |KINDS|, namespace, "")
            && Labelled(s, Key(VirtualMachine, namespace, "a"), "r1")
  {
    LabelsDiffer();
    var s := TwoRuns(namespace);
    var a, b := Key(VirtualMachine, namespace, "a"), Key(VirtualMachine, namespace, "b");
    assert "a"[0] != "b"[0] && |"r2"| == 2;
    assert Selector("") == map[LABEL_MANAGED_BY := MANAGED_BY_VALUE];
    assert KINDS[..|KINDS|] == KINDS && KINDS[0] == VirtualMachine;
    assert Targeted(s, b, namespace, "") && s[b].labels[LABEL_RUN_ID] == "r2";
  }
}
