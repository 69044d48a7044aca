/**
 Cleanup with its audit trail: Execute and markDeletionsInAudit of
 internal/orchestrator/cleanup.go over the audit tables.
 */
module CleanupAudit {
  import opened Collections
  import opened Options
  import opened Cluster
  import opened Cleanup
  import opened CleanupLaws
  import opened AuditDeletion

  /** A row of the events table. */
  datatype Event = Event(auditId: int, eventType: string)

  datatype Counts = Counts(vms: nat, services: nat, secrets: nat, dvs: nat, pvcs: nat, namespaceDeleted: bool)

  /** What a cleanup adds to its own row of audit_log. */
  datatype Summary = Summary(linkedRunIDs: Option<seq<string>>, counts: Option<Counts>)

  class AuditDb {
    const log: Executions
    var vms: seq<Row>
    var resources: seq<Row>
    var events: seq<Event>
    var summaries: map<int, Summary>

    constructor (log: Executions, vms: seq<Row>, resources: seq<Row>)
      ensures this.log == log && this.vms == vms && this.resources == resources
      ensures events == [] && summaries == map id <- log :: Summary(None, None)
    {
      this.log, this.vms, this.resources := log, vms, resources;
      events, summaries := [], map id <- log :: Summary(None, None);
    }

    method MarkVMsDeletedByName(names: seq<string>, namespace: string, runIDs: seq<string>, now: string, fault: WriteFault)
      returns (ok: bool)
      modifies `vms, `resources
      ensures vms == if fault.NotWritten? then old(vms) else MarkedRows(old(vms), log, "", names, namespace, runIDs, now)
      ensures resources == old(resources)
    {
      if |names| == 0 || |runIDs| == 0 {
        NothingToMark(vms, log, "", names, namespace, runIDs, now);
        return true;
      }
      var query, args := BuildMarkDeletedQuery("vm_details", "vm_name", "", names, namespace, runIDs, now);
      ok := Exec(query, args, fault);
    }

    method MarkResourcesDeletedByName(resourceType: string, names: seq<string>, namespace: string, runIDs: seq<string>,
                                      now: string, fault: WriteFault)
      returns (ok: bool)
      modifies `vms, `resources
      ensures resources == if fault.NotWritten? then old(resources)
                           else MarkedRows(old(resources), log, resourceType, names, namespace, runIDs, now)
      ensures vms == old(vms)
    {
      if |names| == 0 || |runIDs| == 0 {
        NothingToMark(resources, log, resourceType, names, namespace, runIDs, now);
        return true;
      }
      var query, args :=
        BuildMarkDeletedQuery("resource_details", "resource_name", resourceType, names, namespace, runIDs, now);
      ok := Exec(query, args, fault);
    }

    /** The database reads the text of the query; it refuses one that does not parse or resolve. */
    method Exec(query: Query, args: seq<string>, fault: WriteFault) returns (ok: bool)
      modifies `vms, `resources
      ensures var t := Executed(query, args, Tables(old(vms), old(resources)), log);
              && Tables(vms, resources)
                 == (if fault.NotWritten? || t.None? then Tables(old(vms), old(resources)) else t.value)
              && ok == (fault.Written? && t.Some?)
    {
      var t := Executed(query, args, Tables(vms, resources), log);
      if t.None? {
        return false;
      }
      if !fault.NotWritten? {
        vms, resources := t.value.vms, t.value.resources;
      }
      return fault.Written?;
    }

    method RecordEvent(e: Event, fault: WriteFault)
      modifies `events
      ensures events == old(events) + if fault.NotWritten? then [] else [e]
    {
      if !fault.NotWritten? {
        events := events + [e];
      }
    }

    method LinkCleanupToRuns(id: int, runIDs: seq<string>, fault: WriteFault)
      modifies `summaries
      ensures summaries == if fault.NotWritten? then old(summaries) else Linked(old(summaries), id, runIDs)
    {
      if !fault.NotWritten? {
        summaries := Linked(summaries, id, runIDs);
      }
    }

    method RecordCleanupCounts(id: int, counts: Counts, fault: WriteFault)
      modifies `summaries
      ensures summaries == if fault.NotWritten? then old(summaries) else Counted(old(summaries), id, counts)
    {
      if !fault.NotWritten? {
        summaries := Counted(summaries, id, counts);
      }
    }
  }

  /** UPDATE audit_log WHERE id = ?: nothing happens when there is no such row. */
  function Linked(s: map<int, Summary>, id: int, runIDs: seq<string>): map<int, Summary> {
    if id in s then s[id := s[id].(linkedRunIDs := Some(runIDs))] else s
  }

  function Counted(s: map<int, Summary>, id: int, counts: Counts): map<int, Summary> {
    if id in s then s[id := s[id].(counts := Some(counts))] else s
  }

  /** Returning early is the same as running the query over empty lists. */
  lemma NothingToMark(rows: seq<Row>, log: Executions, resourceType: string, names: seq<string>, namespace: string,
                      runIDs: seq<string>, now: string)
    requires names == [] || runIDs == []
    ensures MarkedRows(rows, log, resourceType, names, namespace, runIDs, now) == rows
  {
  }

  // ---------------------------------------------------------------------
  // Execute
  // ---------------------------------------------------------------------

  /** The resource types in the order in which they are marked, as positions in KINDS after the VMs. */
  const TYPES := ["", "Service", "Secret", "DataVolume", "PersistentVolumeClaim"]

  /** resource_details after marking the types before position `k`. */
  function MarkedResources(rows: seq<Row>, log: Executions, result: CleanupResult, namespace: string, k: nat,
                           clock: nat -> string, faults: nat -> WriteFault): seq<Row>
    requires 1 <= k <= |TYPES|
  {
    if k == 1 then rows
    else
      var before := MarkedResources(rows, log, result, namespace, k - 1, clock, faults);
      if faults(k - 1).NotWritten? then before
      else MarkedRows(before, log, TYPES[k - 1], AllPasses(result)[k - 1].names, namespace, result.runIDs, clock(k - 1))
  }

  function MarkedVMs(rows: seq<Row>, log: Executions, result: CleanupResult, namespace: string, clock: nat -> string,
                     faults: nat -> WriteFault): seq<Row>
  {
    if faults(0).NotWritten? then rows
    else MarkedRows(rows, log, "", result.vms.names, namespace, result.runIDs, clock(0))
  }

  method MarkDeletionsInAudit(db: AuditDb, result: CleanupResult, namespace: string, clock: nat -> string,
                              faults: nat -> WriteFault)
    modifies db`vms, db`resources
    ensures db.vms == MarkedVMs(old(db.vms), db.log, result, namespace, clock, faults)
    ensures db.resources == MarkedResources(old(db.resources), db.log, result, namespace, |TYPES|, clock, faults)
  {
    hide MarkedRows;
    if |result.vms.names| > 0 && |result.runIDs| > 0 {
      var _ := db.MarkVMsDeletedByName(result.vms.names, namespace, result.runIDs, clock(0), faults(0));
    } else {
      NothingToMark(db.vms, db.log, "", result.vms.names, namespace, result.runIDs, clock(0));
    }
    var deleted := [result.vms.names, result.services.names, result.secrets.names, result.dvs.names, result.pvcs.names];
    for k := 1 to |TYPES|
      invariant db.vms == MarkedVMs(old(db.vms), db.log, result, namespace, clock, faults)
      invariant db.resources == MarkedResources(old(db.resources), db.log, result, namespace, k, clock, faults)
    {
      assert deleted[k] == AllPasses(result)[k].names;
      if |deleted[k]| > 0 && |result.runIDs| > 0 {
        var _ := db.MarkResourcesDeletedByName(TYPES[k], deleted[k], namespace, result.runIDs, clock(k), faults(k));
      } else {
        NothingToMark(db.resources, db.log, TYPES[k], deleted[k], namespace, result.runIDs, clock(k));
      }
    }
  }

  function CountsOf(r: CleanupResult): Counts {
    Counts(r.vms.count, r.services.count, r.secrets.count, r.dvs.count, r.pvcs.count, r.namespaceDeleted)
  }

  // The faults of Execute's own writes; those below |TYPES| belong to the markings.
  const STARTED := 5
  const LINKED := 6
  const COUNTED := 7
  const COMPLETED := 8

  function EventIf(fault: WriteFault, e: Event): seq<Event> {
    if fault.NotWritten? then [] else [e]
  }

  /** The cleanup's own row after Execute. */
  function Summarized(s: map<int, Summary>, id: int, r: CleanupResult, faults: nat -> WriteFault): map<int, Summary> {
    var linked := if r.runIDs == [] || faults(LINKED).NotWritten? then s else Linked(s, id, r.runIDs);
    if faults(COUNTED).NotWritten? then linked else Counted(linked, id, CountsOf(r))
  }

  /** `found` is what CleanupAll returned; it is passed on only when no list call failed. */
  method Execute(api: ApiServer, db: AuditDb, execID: int, namespace: string, runID: string, dryRun: bool,
                 deleteNamespace: bool, script: Script, down: Down, clock: nat -> string, faults: nat -> WriteFault)
    returns (result: Option<CleanupResult>, ghost found: CleanupResult, ghost failed: Option<Kind>,
             ghost listings: seq<seq<Item>>)
    modifies api, db
    ensures IsOutcome(old(api.objects), api.objects, found, failed, listings, namespace, runID, dryRun, deleteNamespace,
                      script)
    ensures result == if failed.None? then Some(found) else None
    ensures failed.Some? <==> exists kind <- KINDS :: kind in down
    ensures failed.Some? ==>
              && db.vms == old(db.vms) && db.resources == old(db.resources) && db.summaries == old(db.summaries)
              && db.events == old(db.events) + EventIf(faults(STARTED), Event(execID, "cleanup_started"))
    ensures failed.None? ==>
              && db.vms == MarkedVMs(old(db.vms), db.log, found, namespace, clock, faults)
              && db.resources == MarkedResources(old(db.resources), db.log, found, namespace, |TYPES|, clock, faults)
              && db.summaries == Summarized(old(db.summaries), execID, found, faults)
              && db.events == old(db.events) + EventIf(faults(STARTED), Event(execID, "cleanup_started"))
                              + EventIf(faults(COMPLETED), Event(execID, "cleanup_completed"))
  {
    hide IsOutcome, MarkedVMs, MarkedResources;
    db.RecordEvent(Event(execID, "cleanup_started"), faults(STARTED));
    var r, kind;
    r, kind, listings := CleanupAll(api, namespace, runID, dryRun, deleteNamespace, script, down);
    found, failed := r, kind;
    if kind.Some? {
      return None, found, failed, listings;
    }
    if |r.runIDs| > 0 {
      db.LinkCleanupToRuns(execID, r.runIDs, faults(LINKED));
    }
    MarkDeletionsInAudit(db, r, namespace, clock, faults);
    db.RecordCleanupCounts(execID, CountsOf(r), faults(COUNTED));
    db.RecordEvent(Event(execID, "cleanup_completed"), faults(COMPLETED));
    result := Some(r);
  }

  /**
   What the audit log says about a cleanup whose writes succeed: the run ids it
   is linked to are those on the targets it found, and its counts are those of
   the objects whose deletion was confirmed.
   */
  lemma SummaryIsTrue(s: Store, s': Store, result: CleanupResult, listings: seq<seq<Item>>, namespace: string,
                      runID: string, dryRun: bool, deleteNamespace: bool, script: Script, before: map<int, Summary>,
                      id: int, faults: nat -> WriteFault)
    requires IsOutcome(s, s', result, None, listings, namespace, runID, dryRun, deleteNamespace, script)
    requires id in before && faults(LINKED).Written? && faults(COUNTED).Written?
    ensures var row := Summarized(before, id, result, faults)[id];
            && (RunIDs(s, |KINDS|, namespace, runID) != {} ==>
                  row.linkedRunIDs.Some? && Lists(row.linkedRunIDs.value, RunIDs(s, |KINDS|, namespace, runID)))
            && row.counts == Some(CountsOf(result)) && |listings| == |KINDS|
    ensures forall k | 0 <= k < |KINDS| ::
              ByKind(CountsOf(result))[k] == |Having(KINDS[k], |listings[k]|, script, Removed)|
  {
    CleanupAccounts(s, s', result, listings, namespace, runID, dryRun, deleteNamespace, script);
    assert |listings| == |KINDS|;
    hide IsOutcome, IsListing, Targets, RunIDs, Having, Selector;
    assert result.runIDs == [] ==> RunIDs(s, |KINDS|, namespace, runID) == {};
    forall k | 0 <= k < |KINDS| ensures ByKind(CountsOf(result))[k] == |Having(KINDS[k], |listings[k]|, script, Removed)| {
      CountOfKind(result, k);
    }
  }

  /** The counts in the order of KINDS. */
  function ByKind(c: Counts): seq<nat> {
    [c.vms, c.services, c.secrets, c.dvs, c.pvcs]
  }

  lemma CountOfKind(r: CleanupResult, k: nat)
    requires k < |KINDS|
    ensures ByKind(CountsOf(r))[k] == AllPasses(r)[k].count
  {
  }

  // ---------------------------------------------------------------------
  // The audit tables agree with the cluster
  // ---------------------------------------------------------------------

  /** The i-th listed object of a kind was deleted, as far as the server confirmed it. */
  predicate Confirmed(listings: seq<seq<Item>>, script: Script, k: nat, i: nat)
    requires k < |KINDS|
  {
    |listings| == |KINDS| && i < |listings[k]| && FateOf(script(KINDS[k], i)).Removed?
  }

  lemma ReportedNames(pass: Pass, items: seq<Item>, kind: Kind, script: Script, name: string)
    requires Reports(pass, items, kind, script)
    ensures name in pass.names <==>
              exists i: nat :: i < |items| && FateOf(script(kind, i)).Removed? && items[i].key.name == name
  {
    var removed := Having(kind, |items|, script, Removed);
    HavingMeans(kind, |items|, script, Removed);
    if name in pass.names {
      var j :| 0 <= j < |pass.names| && pass.names[j] == name;
      assert removed[j] in removed && items[removed[j]].key.name == name;
    }
    if i: nat :| i < |items| && FateOf(script(kind, i)).Removed? && items[i].key.name == name {
      assert i in removed;
      var j :| 0 <= j < |removed| && removed[j] == i;
      assert pass.names[j] == name;
    }
  }

  /** The resource_type in the row of an object; vm_details has no such column. */
  function ResourceType(kind: Kind): string {
    match kind
    case Service => "Service"
    case Secret => "Secret"
    case DataVolume => "DataVolume"
    case PersistentVolumeClaim => "PersistentVolumeClaim"
    case _ => ""
  }

  /** Each marking names the type of the kind whose names it is given. */
  lemma TypeOfKind(k: nat)
    requires k < |TYPES|
    ensures TYPES[k] == ResourceType(KINDS[k]) && (k > 0 ==> |ResourceType(KINDS[k])| > 0)
    ensures k == 0 <==> KINDS[k].VirtualMachine?
  {
  }

  /** The row is marked with this time, and nothing else about it has changed. */
  predicate IsMarked(row: Row, row': Row, now: string) {
    row' == row.(status := "deleted", deletedAt := Some(now))
  }

  /** The deletions of the k-th kind have been written, and the row is one of theirs. */
  predicate WrittenAs(row: Row, k: nat, log: Executions, result: CleanupResult, namespace: string,
                      faults: nat -> WriteFault)
    requires k < |KINDS|
  {
    HitAs(row, k, log, result, namespace) && !faults(k).NotWritten?
  }

  predicate HitAs(row: Row, k: nat, log: Executions, result: CleanupResult, namespace: string)
    requires k < |KINDS|
  {
    Hit(row, log, ResourceType(KINDS[k]), AllPasses(result)[k].names, namespace, result.runIDs)
  }

  /** resource_details after the marking: the hit rows are marked, the others untouched. */
  lemma {:induction false} ResourceRows(rows: seq<Row>, log: Executions, result: CleanupResult, namespace: string, k: nat,
                                        clock: nat -> string, faults: nat -> WriteFault, j: nat)
    requires 1 <= k <= |TYPES| && j < |rows|
    ensures var rows' := MarkedResources(rows, log, result, namespace, k, clock, faults);
            && |rows'| == |rows|
            && (forall m | 1 <= m < k && WrittenAs(rows[j], m, log, result, namespace, faults) ::
                  IsMarked(rows[j], rows'[j], clock(m)))
            && ((forall m | 1 <= m < k :: !WrittenAs(rows[j], m, log, result, namespace, faults)) ==> rows'[j] == rows[j])
  {
    if k > 1 {
      ResourceRows(rows, log, result, namespace, k - 1, clock, faults, j);
      NextMarking(rows, log, result, namespace, k, clock, faults, j);
      hide MarkedResources, HitAs;
      forall m | 1 <= m < k - 1 && HitAs(rows[j], m, log, result, namespace)
        ensures !HitAs(rows[j], k - 1, log, result, namespace)
      {
        OneTypeOnly(rows[j], m, k - 1, log, result, namespace);
      }
      forall now ensures HitAs(rows[j].(status := "deleted", deletedAt := Some(now)), k - 1, log, result, namespace)
                         <==> HitAs(rows[j], k - 1, log, result, namespace) {
        MarkingKeepsHits(rows[j], now, k - 1, log, result, namespace);
      }
    }
  }

  lemma NextMarking(rows: seq<Row>, log: Executions, result: CleanupResult, namespace: string, k: nat,
                    clock: nat -> string, faults: nat -> WriteFault, j: nat)
    requires 1 < k <= |TYPES| && j < |rows|
    requires |MarkedResources(rows, log, result, namespace, k - 1, clock, faults)| == |rows|
    ensures var before := MarkedResources(rows, log, result, namespace, k - 1, clock, faults);
            var after := MarkedResources(rows, log, result, namespace, k, clock, faults);
            && |after| == |rows|
            && if WrittenAs(before[j], k - 1, log, result, namespace, faults) then IsMarked(before[j], after[j], clock(k - 1))
               else after[j] == before[j]
  {
    TypeOfKind(k - 1);
    hide ResourceType;
  }

  lemma MarkingKeepsHits(row: Row, now: string, m: nat, log: Executions, result: CleanupResult, namespace: string)
    requires m < |KINDS|
    ensures HitAs(row.(status := "deleted", deletedAt := Some(now)), m, log, result, namespace)
            <==> HitAs(row, m, log, result, namespace)
  {
  }

  lemma OneTypeOnly(row: Row, m: nat, k: nat, log: Executions, result: CleanupResult, namespace: string)
    requires 1 <= m < k < |KINDS| && HitAs(row, m, log, result, namespace)
    ensures !HitAs(row, k, log, result, namespace)
  {
    TypesDiffer(m, k);
    hide ResourceType;
  }

  lemma TypesDiffer(m: nat, k: nat)
    requires 1 <= m < k < |KINDS|
    ensures ResourceType(KINDS[m]) != ResourceType(KINDS[k])
    ensures ResourceType(KINDS[m]) != "" && ResourceType(KINDS[k]) != ""
  {
    assert |"Service"| == 7 && |"Secret"| == 6 && |"DataVolume"| == 10 && |"PersistentVolumeClaim"| == 21;
  }

  /** The table with the rows for VMs, or for other objects, after Execute. */
  function TableAfter(rows: seq<Row>, ofVMs: bool, log: Executions, result: CleanupResult, namespace: string,
                      clock: nat -> string, faults: nat -> WriteFault): seq<Row>
  {
    if ofVMs then MarkedVMs(rows, log, result, namespace, clock, faults)
    else MarkedResources(rows, log, result, namespace, |TYPES|, clock, faults)
  }

  /** A row of the right table is about this object: the table of VMs, or that of resources with its type. */
  predicate IsRowOf(row: Row, key: Key) {
    && row.name == key.name && row.namespace == key.namespace
    && (!key.kind.VirtualMachine? ==> row.resourceType == ResourceType(key.kind))
  }

  lemma ListedTarget(s: Store, items: seq<Item>, k: nat, namespace: string, runID: string, i: nat)
    requires k < |KINDS| && IsListing(items, s, KINDS[k], namespace, Selector(runID)) && i < |items|
    ensures var key := items[i].key;
            && key in s && Targeted(s, key, namespace, runID) && key.kind == KINDS[k] && key.namespace == namespace
            && (LABEL_RUN_ID in s[key].labels && s[key].labels[LABEL_RUN_ID] != "" ==>
                  s[key].labels[LABEL_RUN_ID] in RunIDs(s, |KINDS|, namespace, runID))
  {
    hide Selector, MatchesLabels;
    assert items[i].key in ItemKeys(items);
    assert KINDS[..|KINDS|] == KINDS;
  }

  lemma LabelIsListed(s: Store, s': Store, result: CleanupResult, listings: seq<seq<Item>>, namespace: string,
                      runID: string, dryRun: bool, deleteNamespace: bool, script: Script, k: nat, i: nat)
    requires IsOutcome(s, s', result, None, listings, namespace, runID, dryRun, deleteNamespace, script)
    requires k < |KINDS| && Confirmed(listings, script, k, i)
    ensures var key := listings[k][i].key;
            && key in s && key.kind == KINDS[k] && key.namespace == namespace
            && key.name in AllPasses(result)[k].names
            && (LABEL_RUN_ID in s[key].labels && s[key].labels[LABEL_RUN_ID] != "" ==>
                  s[key].labels[LABEL_RUN_ID] in result.runIDs)
  {
    CleanupAccounts(s, s', result, listings, namespace, runID, dryRun, deleteNamespace, script);
    hide IsOutcome, Reports, Targets, Selector, MatchesLabels, IsListing, RunIDs, Targeted, AllPasses;
    ReportedNames(AllPasses(result)[k], listings[k], KINDS[k], script, listings[k][i].key.name);
    ListedTarget(s, listings[k], k, namespace, runID, i);
  }

  /** Every row about a deleted object that its own run has written is marked. */
  lemma DeletionsAreMarked(s: Store, s': Store, result: CleanupResult, listings: seq<seq<Item>>, namespace: string,
                           runID: string, dryRun: bool, deleteNamespace: bool, script: Script, k: nat, i: nat,
                           rows: seq<Row>, log: Executions, clock: nat -> string, faults: nat -> WriteFault)
    requires IsOutcome(s, s', result, None, listings, namespace, runID, dryRun, deleteNamespace, script)
    requires k < |KINDS| && Confirmed(listings, script, k, i) && !faults(k).NotWritten?
    ensures var key := listings[k][i].key;
            key in s && forall j: nat | j < |rows| && IsRowOf(rows[j], key) ::
              (&& rows[j].auditId in log && LABEL_RUN_ID in s[key].labels && s[key].labels[LABEL_RUN_ID] != ""
               && log[rows[j].auditId] == s[key].labels[LABEL_RUN_ID])
              ==> var rows' := TableAfter(rows, key.kind.VirtualMachine?, log, result, namespace, clock, faults);
                  |rows'| == |rows| && IsMarked(rows[j], rows'[j], clock(k))
  {
    LabelIsListed(s, s', result, listings, namespace, runID, dryRun, deleteNamespace, script, k, i);
    hide IsOutcome, Confirmed, MarkedResources, Targeted;
    var key := listings[k][i].key;
    TypeOfKind(k);
    forall j: nat | j < |rows| && IsRowOf(rows[j], key) && rows[j].auditId in log
      && LABEL_RUN_ID in s[key].labels && s[key].labels[LABEL_RUN_ID] != ""
      && log[rows[j].auditId] == s[key].labels[LABEL_RUN_ID]
      ensures |TableAfter(rows, k == 0, log, result, namespace, clock, faults)| == |rows|
      ensures IsMarked(rows[j], TableAfter(rows, k == 0, log, result, namespace, clock, faults)[j], clock(k))
    {
      assert WrittenAs(rows[j], k, log, result, namespace, faults);
      if k > 0 {
        ResourceRows(rows, log, result, namespace, |TYPES|, clock, faults, j);
      }
    }
  }

  lemma {:induction false} GoneInAll(listings: seq<seq<Item>>, k: nat, dryRun: bool, script: Script)
    requires k < |listings| <= |KINDS|
    ensures Gone(KINDS[k], listings[k], dryRun, script) <= AllGone(listings, dryRun, script)
    decreases |listings|
  {
    var n := |listings| - 1;
    if k < n {
      GoneInAll(listings[..n], k, dryRun, script);
    }
  }

  lemma ConfirmedIsGone(s: Store, s': Store, result: CleanupResult, listings: seq<seq<Item>>, namespace: string,
                        runID: string, deleteNamespace: bool, script: Script, k: nat, i: nat)
    requires IsOutcome(s, s', result, None, listings, namespace, runID, false, deleteNamespace, script)
    requires k < |KINDS| && Confirmed(listings, script, k, i)
    ensures listings[k][i].key !in s'
  {
    GoneInAll(listings, k, false, script);
    PassedStore(s, listings, false, script);
    assert listings[k][i].key in Gone(KINDS[k], listings[k], false, script);
    MeetingStore(s - AllGone(listings, false, script), NamespaceOf(namespace), false, script(Namespace, 0));
    hide AreListings, Passed, AllGone, Gone, Lists, ServeRacedDelete, Selector;
  }

  lemma ChangedIsHit(ofVMs: bool, rows: seq<Row>, log: Executions, result: CleanupResult, namespace: string,
                     clock: nat -> string, faults: nat -> WriteFault, j: nat) returns (k: nat)
    requires j < |rows|
    requires var rows' := TableAfter(rows, ofVMs, log, result, namespace, clock, faults);
             |rows'| == |rows| ==> rows'[j] != rows[j]
    ensures var rows' := TableAfter(rows, ofVMs, log, result, namespace, clock, faults);
            |rows'| == |rows| && IsMarked(rows[j], rows'[j], clock(k))
    ensures k < |KINDS| && (KINDS[k].VirtualMachine? <==> ofVMs) && HitAs(rows[j], k, log, result, namespace)
  {
    k := 0;
    if !ofVMs {
      ResourceRows(rows, log, result, namespace, |TYPES|, clock, faults, j);
      hide MarkedResources, HitAs;
      k :| 1 <= k < |TYPES| && WrittenAs(rows[j], k, log, result, namespace, faults);
    }
  }

  /**
   Every row that changes is marked, is about an object whose deletion the
   server confirmed and which, unless in a dry run, is gone; with a run id
   filter the row was written by that run.
   */
  lemma MarkedWasDeleted(s: Store, s': Store, result: CleanupResult, listings: seq<seq<Item>>, namespace: string,
                         runID: string, dryRun: bool, deleteNamespace: bool, script: Script, ofVMs: bool,
                         rows: seq<Row>, log: Executions, clock: nat -> string, faults: nat -> WriteFault, j: nat)
    returns (k: nat, i: nat)
    requires IsOutcome(s, s', result, None, listings, namespace, runID, dryRun, deleteNamespace, script)
    requires j < |rows|
    requires var rows' := TableAfter(rows, ofVMs, log, result, namespace, clock, faults);
             |rows'| == |rows| ==> rows'[j] != rows[j]
    ensures var rows' := TableAfter(rows, ofVMs, log, result, namespace, clock, faults);
            |rows'| == |rows| && IsMarked(rows[j], rows'[j], clock(k))
    ensures k < |KINDS| && Confirmed(listings, script, k, i)
    ensures var key := listings[k][i].key;
            && key.kind == KINDS[k] && key.namespace == namespace && (key.kind.VirtualMachine? <==> ofVMs)
            && IsRowOf(rows[j], key)
    ensures !dryRun ==> listings[k][i].key !in s'
    ensures rows[j].auditId in log && log[rows[j].auditId] in result.runIDs
    ensures runID != "" ==> log[rows[j].auditId] == runID
  {
    k := ChangedIsHit(ofVMs, rows, log, result, namespace, clock, faults, j);
    i := HitIsConfirmed(s, s', result, listings, namespace, runID, dryRun, deleteNamespace, script, rows[j], k, log);
    hide IsOutcome, TableAfter, Confirmed, IsRowOf, HitAs;
    if !dryRun {
      ConfirmedIsGone(s, s', result, listings, namespace, runID, deleteNamespace, script, k, i);
    }
  }

  lemma HitIsConfirmed(s: Store, s': Store, result: CleanupResult, listings: seq<seq<Item>>, namespace: string,
                       runID: string, dryRun: bool, deleteNamespace: bool, script: Script, row: Row, k: nat,
                       log: Executions) returns (i: nat)
    requires IsOutcome(s, s', result, None, listings, namespace, runID, dryRun, deleteNamespace, script)
    requires k < |KINDS| && HitAs(row, k, log, result, namespace)
    ensures Confirmed(listings, script, k, i) && IsRowOf(row, listings[k][i].key)
    ensures listings[k][i].key.kind == KINDS[k] && listings[k][i].key.namespace == namespace
    ensures row.auditId in log && log[row.auditId] in result.runIDs && (runID != "" ==> log[row.auditId] == runID)
  {
    CleanupAccounts(s, s', result, listings, namespace, runID, dryRun, deleteNamespace, script);
    assert |listings| == |KINDS|;
    hide IsOutcome, Reports, IsListing, RunIDs, AllPasses, Targets, Having, FateOf, ResourceType;
    var items, kind := listings[k], KINDS[k];
    ReportedNames(AllPasses(result)[k], items, kind, script, row.name);
    i :| i < |items| && FateOf(script(kind, i)).Removed? && items[i].key.name == row.name;
    TypeOfKind(k);
    ListedTarget(s, items, k, namespace, runID, i);
    if runID != "" {
      FilteredRunIDs(s, namespace, runID);
    }
  }

  /** With a filter, the only run id on a target is that one. */
  lemma FilteredRunIDs(s: Store, namespace: string, runID: string)
    requires runID != ""
    ensures RunIDs(s, |KINDS|, namespace, runID) <= {runID}
  {
    assert LABEL_RUN_ID in Selector(runID) && Selector(runID)[LABEL_RUN_ID] == runID;
  }
}
