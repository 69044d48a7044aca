/**
 What a cleanup removes and what it reports, whatever fails, is lost or is
 removed by others in the meantime.
 */
module CleanupLaws {
  import opened Collections
  import opened Options
  import opened Cluster
  import opened Cleanup

  // ---------------------------------------------------------------------
  // One kind: every listed object has one fate
  // ---------------------------------------------------------------------

  datatype Fate = Removed | Missing | Errored(error: ServerError)

  /** A reply that is lost, or not given, counts as an error, whatever it did to the object. */
  function FateOf(m: Meeting): Fate {
    if m.fault.Delivered? then if m.vanished then Missing else Removed else Fate.Errored(m.fault.error)
  }

  /** After this meeting the object is gone. */
  predicate Removes(m: Meeting, dryRun: bool) {
    m.vanished || (!dryRun && !m.fault.Rejected?)
  }

  predicate SameFate(f: Fate, g: Fate) {
    (f.Removed? <==> g.Removed?) && (f.Missing? <==> g.Missing?)
  }

  /** The positions below `n` with a fate, in order. */
  function Having(kind: Kind, n: nat, script: Script, fate: Fate): seq<nat> {
    if n == 0 then []
    else Having(kind, n - 1, script, fate) + if SameFate(FateOf(script(kind, n - 1)), fate) then [n - 1] else []
  }

  const SOME_ERROR := Fate.Errored(Refused)

  lemma {:induction false} HavingSplits(kind: Kind, n: nat, script: Script)
    ensures |Having(kind, n, script, Removed)| + |Having(kind, n, script, Missing)|
            + |Having(kind, n, script, SOME_ERROR)| == n
  {
    if n > 0 {
      HavingSplits(kind, n - 1, script);
    }
  }

  lemma {:induction false} HavingMeans(kind: Kind, n: nat, script: Script, fate: Fate)
    ensures forall i <- Having(kind, n, script, fate) :: i < n
    ensures forall i: nat :: i in Having(kind, n, script, fate) <==> i < n && SameFate(FateOf(script(kind, i)), fate)
  {
    if n > 0 {
      HavingMeans(kind, n - 1, script, fate);
    }
  }

  lemma HavingNext(kind: Kind, n: nat, script: Script)
    requires n > 0
    ensures var fate := FateOf(script(kind, n - 1));
            && Having(kind, n, script, Removed)
               == Having(kind, n - 1, script, Removed) + (if fate.Removed? then [n - 1] else [])
            && Having(kind, n, script, SOME_ERROR)
               == Having(kind, n - 1, script, SOME_ERROR) + (if fate.Errored? then [n - 1] else [])
  {
  }

  function NamesAt(items: seq<Item>, at: seq<nat>): seq<string>
    requires forall i <- at :: i < |items|
  {
    seq(|at|, k requires 0 <= k < |at| => assert at[k] in at; items[at[k]].key.name)
  }

  predicate DistinctItems(items: seq<Item>) {
    forall i, j | 0 <= i < j < |items| :: items[i].key != items[j].key
  }

  predicate AllIn(items: seq<Item>, s: Store) {
    forall item <- items :: item.key in s
  }

  function ErrorsAt(items: seq<Item>, kind: Kind, at: seq<nat>, script: Script): seq<DeleteError>
    requires forall i <- at :: i < |items| && FateOf(script(kind, i)).Errored?
  {
    seq(|at|, k requires 0 <= k < |at| =>
      assert at[k] in at; DeleteError(items[at[k]].key, Server(FateOf(script(kind, at[k])).error)))
  }

  /** The objects among the first `n` that a pass leaves gone. */
  ghost function Gone(kind: Kind, items: seq<Item>, dryRun: bool, script: Script): set<Key> {
    set i | 0 <= i < |items| && Removes(script(kind, i), dryRun) :: items[i].key
  }

  lemma MeetingStore(s: Store, key: Key, dryRun: bool, m: Meeting)
    ensures ServeRacedDelete(s, key, dryRun, m.vanished, m.fault).store == if Removes(m, dryRun) then s - {key} else s
  {
    assert s - {key} - {key} == s - {key};
    assert key !in s ==> s - {key} == s;
  }

  lemma MeetingReply(s: Store, key: Key, dryRun: bool, m: Meeting)
    requires key in s
    ensures var reply := ServeRacedDelete(s, key, dryRun, m.vanished, m.fault).reply;
            match FateOf(m)
            case Removed => reply.Ok?
            case Missing => reply == Failed(NotFound)
            case Errored(e) => reply == Failed(Server(e))
  {
  }

  lemma GoneNext(kind: Kind, items: seq<Item>, dryRun: bool, script: Script)
    requires items != []
    ensures var n := |items| - 1;
            Gone(kind, items, dryRun, script)
            == Gone(kind, items[..n], dryRun, script) + if Removes(script(kind, n), dryRun) then {items[n].key} else {}
  {
    var n := |items| - 1;
    hide Removes;
    forall key | key in Gone(kind, items[..n], dryRun, script) ensures key in Gone(kind, items, dryRun, script) {
      var i :| 0 <= i < n && Removes(script(kind, i), dryRun) && items[..n][i].key == key;
      assert items[i].key == key;
    }
    forall key | key in Gone(kind, items, dryRun, script)
      ensures key in Gone(kind, items[..n], dryRun, script) || (key == items[n].key && Removes(script(kind, n), dryRun))
    {
      var i :| 0 <= i <= n && Removes(script(kind, i), dryRun) && items[i].key == key;
      assert i < n ==> items[..n][i].key == key;
    }
  }

  /** The store after a pass: exactly the objects that met their end are gone. */
  lemma {:induction false} SweptStore(begun: Sweep, kind: Kind, items: seq<Item>, dryRun: bool, script: Script)
    ensures Swept(begun, kind, items, dryRun, script).store == begun.store - Gone(kind, items, dryRun, script)
  {
    if items != [] {
      var n := |items| - 1;
      SweptStore(begun, kind, items[..n], dryRun, script);
      GoneNext(kind, items, dryRun, script);
      MeetingStore(begun.store - Gone(kind, items[..n], dryRun, script), items[n].key, dryRun, script(kind, n));
      hide Gone, Removes, ServeRacedDelete;
    }
  }

  /** The last item of a listing is still there when its turn comes, so its reply tells its fate. */
  lemma SweptNext(begun: Sweep, kind: Kind, items: seq<Item>, dryRun: bool, script: Script)
    requires items != [] && DistinctItems(items) && AllIn(items, begun.store)
    ensures var n := |items| - 1;
            var w, w' := Swept(begun, kind, items[..n], dryRun, script), Swept(begun, kind, items, dryRun, script);
            var fate := FateOf(script(kind, n));
            && w'.deleted == (if fate.Removed? then w.deleted + [items[n].key.name] else w.deleted)
            && w'.errors == (if fate.Errored? then w.errors + [DeleteError(items[n].key, Server(fate.error))] else w.errors)
            && w'.runIDs == CollectRunID(items[n].labels, w.runIDs)
    ensures DistinctItems(items[..|items| - 1]) && AllIn(items[..|items| - 1], begun.store)
  {
    var n := |items| - 1;
    SweptStore(begun, kind, items[..n], dryRun, script);
    StillThere(begun.store, kind, items, dryRun, script);
    MeetingReply(begun.store - Gone(kind, items[..n], dryRun, script), items[n].key, dryRun, script(kind, n));
    hide Gone, ServeRacedDelete, CollectRunID, FateOf;
  }

  /** The names reported as deleted. */
  lemma {:induction false} SweptDeleted(begun: Sweep, kind: Kind, items: seq<Item>, dryRun: bool, script: Script)
    requires DistinctItems(items) && AllIn(items, begun.store)
    ensures var removed := Having(kind, |items|, script, Removed);
            && (forall i <- removed :: i < |items|)
            && Swept(begun, kind, items, dryRun, script).deleted == begun.deleted + NamesAt(items, removed)
  {
    HavingMeans(kind, |items|, script, Removed);
    if items == [] {
      assert NamesAt(items, []) == [];
    } else {
      var n := |items| - 1;
      SweptNext(begun, kind, items, dryRun, script);
      SweptDeleted(begun, kind, items[..n], dryRun, script);
      HavingMeans(kind, n, script, Removed);
      hide DistinctItems, AllIn, NamesAt, Swept, FateOf, Having, SameFate, CollectRunID;
      NamesGrow(items, kind, script, begun.deleted, Swept(begun, kind, items[..n], dryRun, script).deleted);
    }
  }

  lemma NamesGrow(items: seq<Item>, kind: Kind, script: Script, begun: seq<string>, names: seq<string>)
    requires items != []
    requires var n := |items| - 1;
             var removed := Having(kind, n, script, Removed);
             (forall i <- removed :: i < n) && names == begun + NamesAt(items[..n], removed)
    ensures var n := |items| - 1;
            var removed := Having(kind, |items|, script, Removed);
            && (forall i <- removed :: i < |items|)
            && begun + NamesAt(items, removed)
               == if FateOf(script(kind, n)).Removed? then names + [items[n].key.name] else names
  {
    var n := |items| - 1;
    HavingNext(kind, |items|, script);
    hide NamesAt, FateOf, Having, SameFate;
    NamesAtNext(items, Having(kind, n, script, Removed));
  }

  lemma ErroredMeans(kind: Kind, n: nat, script: Script)
    ensures forall i <- Having(kind, n, script, SOME_ERROR) :: i < n && FateOf(script(kind, i)).Errored?
  {
    HavingMeans(kind, n, script, SOME_ERROR);
  }

  /** The errors reported: one for each call that got no reply of its own. */
  lemma {:induction false} SweptErrors(begun: Sweep, kind: Kind, items: seq<Item>, dryRun: bool, script: Script)
    requires DistinctItems(items) && AllIn(items, begun.store)
    ensures var errored := Having(kind, |items|, script, SOME_ERROR);
            && (forall i <- errored :: i < |items| && FateOf(script(kind, i)).Errored?)
            && Swept(begun, kind, items, dryRun, script).errors == begun.errors + ErrorsAt(items, kind, errored, script)
  {
    ErroredMeans(kind, |items|, script);
    if items == [] {
      assert ErrorsAt(items, kind, [], script) == [];
    } else {
      var n := |items| - 1;
      SweptNext(begun, kind, items, dryRun, script);
      SweptErrors(begun, kind, items[..n], dryRun, script);
      hide DistinctItems, AllIn, ErrorsAt, Swept, FateOf, Having, SameFate, CollectRunID;
      ErrorsGrow(items, kind, script, begun.errors, Swept(begun, kind, items[..n], dryRun, script).errors);
    }
  }

  lemma ErrorsGrow(items: seq<Item>, kind: Kind, script: Script, begun: seq<DeleteError>, errors: seq<DeleteError>)
    requires items != []
    requires var n := |items| - 1;
             var errored := Having(kind, n, script, SOME_ERROR);
             && (forall i <- errored :: i < n && FateOf(script(kind, i)).Errored?)
             && errors == begun + ErrorsAt(items[..n], kind, errored, script)
    ensures var n := |items| - 1;
            var errored := Having(kind, |items|, script, SOME_ERROR);
            var fate := FateOf(script(kind, n));
            && (forall i <- errored :: i < |items| && FateOf(script(kind, i)).Errored?)
            && begun + ErrorsAt(items, kind, errored, script)
               == if fate.Errored? then errors + [DeleteError(items[n].key, Server(fate.error))] else errors
  {
    var n := |items| - 1;
    HavingNext(kind, |items|, script);
    hide ErrorsAt, FateOf, Having, SameFate;
    ErrorsAtNext(items, kind, Having(kind, n, script, SOME_ERROR), script);
  }

  lemma {:induction false} SweptRunIDs(begun: Sweep, kind: Kind, items: seq<Item>, dryRun: bool, script: Script)
    ensures Swept(begun, kind, items, dryRun, script).runIDs == Collected(items, begun.runIDs)
  {
    if items != [] {
      SweptRunIDs(begun, kind, items[..|items| - 1], dryRun, script);
    }
  }

  lemma StillThere(s: Store, kind: Kind, items: seq<Item>, dryRun: bool, script: Script)
    requires items != [] && DistinctItems(items) && AllIn(items, s)
    ensures var n := |items| - 1;
            items[n].key in s - Gone(kind, items[..n], dryRun, script)
  {
    assert items[|items| - 1] in items;
  }

  lemma NamesAtNext(items: seq<Item>, at: seq<nat>)
    requires items != [] && forall i <- at :: i < |items| - 1
    ensures NamesAt(items, at) == NamesAt(items[..|items| - 1], at)
    ensures NamesAt(items, at + [|items| - 1]) == NamesAt(items, at) + [items[|items| - 1].key.name]
  {
    assert forall k | 0 <= k < |at| :: at[k] in at;
  }

  lemma ErrorsAtNext(items: seq<Item>, kind: Kind, at: seq<nat>, script: Script)
    requires items != [] && forall i <- at :: i < |items| - 1 && FateOf(script(kind, i)).Errored?
    ensures ErrorsAt(items, kind, at, script) == ErrorsAt(items[..|items| - 1], kind, at, script)
    ensures var n := |items| - 1;
            var fate := FateOf(script(kind, n));
            fate.Errored? ==> ErrorsAt(items, kind, at + [n], script)
                              == ErrorsAt(items, kind, at, script) + [DeleteError(items[n].key, Server(fate.error))]
  {
    assert forall k | 0 <= k < |at| :: at[k] in at;
  }

  // ---------------------------------------------------------------------
  // All kinds
  // ---------------------------------------------------------------------

  /** The objects that the first passes leave gone. */
  ghost function AllGone(listings: seq<seq<Item>>, dryRun: bool, script: Script): set<Key>
    requires |listings| <= |KINDS|
    decreases |listings|
  {
    if listings == [] then {}
    else
      var n := |listings| - 1;
      AllGone(listings[..n], dryRun, script) + Gone(KINDS[n], listings[n], dryRun, script)
  }

  lemma GoneWasListed(kind: Kind, items: seq<Item>, dryRun: bool, script: Script)
    ensures Gone(kind, items, dryRun, script) <= ItemKeys(items)
  {
  }

  /** Earlier passes do not touch the kinds of later ones, so each pass lists what was there at the start. */
  lemma ListedFromStart(s: Store, gone: set<Key>, items: seq<Item>, n: nat, namespace: string, selector: Labels)
    requires n < |KINDS| && forall key <- gone :: key.kind in KINDS[..n]
    requires IsListing(items, s - gone, KINDS[n], namespace, selector)
    ensures IsListing(items, s, KINDS[n], namespace, selector)
  {
    assert KINDS[n] !in KINDS[..n];
    hide MatchesLabels;
    forall key ensures key in ItemKeys(items) <==> Listed(s, key, KINDS[n], namespace, selector) {
      assert key in gone ==> key.kind != KINDS[n];
      assert key in ItemKeys(items) <==> Listed(s - gone, key, KINDS[n], namespace, selector);
    }
  }

  lemma {:induction false} PassedStore(s: Store, listings: seq<seq<Item>>, dryRun: bool, script: Script)
    requires |listings| <= |KINDS|
    ensures Passed(s, listings, dryRun, script).store == s - AllGone(listings, dryRun, script)
    decreases |listings|
  {
    if listings != [] {
      var n := |listings| - 1;
      PassedStore(s, listings[..n], dryRun, script);
      var p := Passed(s, listings[..n], dryRun, script);
      SweptStore(Sweep(p.store, [], p.errors, p.runIDs), KINDS[n], listings[n], dryRun, script);
      hide Gone, Swept;
    }
  }

  ghost predicate TargetsAmong(s: Store, keys: set<Key>, n: nat, namespace: string, runID: string)
    requires n <= |KINDS|
  {
    forall key <- keys :: Targeted(s, key, namespace, runID) && key.kind in KINDS[..n]
  }

  ghost predicate ListedAtStart(s: Store, listings: seq<seq<Item>>, namespace: string, runID: string)
    requires |listings| <= |KINDS|
  {
    forall k | 0 <= k < |listings| :: IsListing(listings[k], s, KINDS[k], namespace, Selector(runID))
  }

  /** The last pass on its own. */
  lemma LastPass(s: Store, listings: seq<seq<Item>>, namespace: string, runID: string, dryRun: bool, script: Script)
    requires listings != [] && AreListings(s, listings, namespace, Selector(runID), dryRun, script)
    ensures |listings| <= |KINDS|
    ensures var n := |listings| - 1;
            var p := Passed(s, listings[..n], dryRun, script);
            var w := Swept(Sweep(p.store, [], p.errors, p.runIDs), KINDS[n], listings[n], dryRun, script);
            && AreListings(s, listings[..n], namespace, Selector(runID), dryRun, script)
            && IsListing(listings[n], p.store, KINDS[n], namespace, Selector(runID))
            && Passed(s, listings, dryRun, script)
               == Progress(w.store, p.passes + [Pass(|w.deleted|, w.deleted)], w.errors, w.runIDs)
  {
    hide IsListing, Swept, Selector;
  }

  lemma GoneWithLast(listings: seq<seq<Item>>, dryRun: bool, script: Script)
    requires listings != [] && |listings| <= |KINDS|
    ensures var n := |listings| - 1;
            AllGone(listings, dryRun, script)
            == AllGone(listings[..n], dryRun, script) + Gone(KINDS[n], listings[n], dryRun, script)
  {
  }

  lemma StartListingsGrow(s: Store, listings: seq<seq<Item>>, namespace: string, runID: string)
    requires listings != [] && |listings| <= |KINDS|
    requires ListedAtStart(s, listings[..|listings| - 1], namespace, runID)
    requires IsListing(listings[|listings| - 1], s, KINDS[|listings| - 1], namespace, Selector(runID))
    ensures ListedAtStart(s, listings, namespace, runID)
  {
    hide IsListing, Selector;
    var before := listings[..|listings| - 1];
    assert forall k | 0 <= k < |before| :: listings[k] == before[k];
  }

  /** Only targets go, and each pass lists the targets of its kind as they were when cleanup began. */
  lemma {:induction false} PassedTargets(s: Store, listings: seq<seq<Item>>, namespace: string, runID: string,
                                         dryRun: bool, script: Script)
    requires AreListings(s, listings, namespace, Selector(runID), dryRun, script)
    ensures TargetsAmong(s, AllGone(listings, dryRun, script), |listings|, namespace, runID)
    ensures ListedAtStart(s, listings, namespace, runID)
    decreases |listings|
  {
    hide AreListings, Passed, Selector, IsListing, AllGone, TargetsAmong, ListedAtStart;
    if listings == [] {
      NothingListed(s, namespace, runID, dryRun, script);
    } else {
      var n := |listings| - 1;
      var before := listings[..n];
      LastPass(s, listings, namespace, runID, dryRun, script);
      PassedTargets(s, before, namespace, runID, dryRun, script);
      PassedStore(s, before, dryRun, script);
      GoneWithLast(listings, dryRun, script);
      hide Gone;
      KindsOf(s, AllGone(before, dryRun, script), n, namespace, runID);
      ListedFromStart(s, AllGone(before, dryRun, script), listings[n], n, namespace, Selector(runID));
      NextTargets(s, AllGone(before, dryRun, script), listings[n], n, namespace, runID, dryRun, script);
      StartListingsGrow(s, listings, namespace, runID);
    }
  }

  lemma NothingListed(s: Store, namespace: string, runID: string, dryRun: bool, script: Script)
    ensures TargetsAmong(s, AllGone([], dryRun, script), 0, namespace, runID)
    ensures ListedAtStart(s, [], namespace, runID)
  {
  }

  lemma KindsOf(s: Store, keys: set<Key>, n: nat, namespace: string, runID: string)
    requires n <= |KINDS| && TargetsAmong(s, keys, n, namespace, runID)
    ensures forall key <- keys :: key.kind in KINDS[..n]
  {
  }

  lemma NextTargets(s: Store, gone: set<Key>, items: seq<Item>, n: nat, namespace: string, runID: string, dryRun: bool,
                    script: Script)
    requires n < |KINDS| && IsListing(items, s, KINDS[n], namespace, Selector(runID))
    requires TargetsAmong(s, gone, n, namespace, runID)
    ensures TargetsAmong(s, gone + Gone(KINDS[n], items, dryRun, script), n + 1, namespace, runID)
  {
    hide Selector, MatchesLabels;
    GoneWasListed(KINDS[n], items, dryRun, script);
    hide Gone;
    assert KINDS[..n + 1] == KINDS[..n] + [KINDS[n]];
  }

  lemma ListingIsSound(items: seq<Item>, s: Store, kind: Kind, namespace: string, selector: Labels)
    requires IsListing(items, s, kind, namespace, selector)
    ensures DistinctItems(items) && AllIn(items, s)
  {
  }

  function ErrorCount(listings: seq<seq<Item>>, script: Script): nat
    requires |listings| <= |KINDS|
    decreases |listings|
  {
    if listings == [] then 0
    else
      var n := |listings| - 1;
      ErrorCount(listings[..n], script) + |Having(KINDS[n], |listings[n]|, script, SOME_ERROR)|
  }

  /** A kind's counter and names are those of the objects whose deletion was confirmed. */
  ghost predicate Reports(pass: Pass, items: seq<Item>, kind: Kind, script: Script) {
    var removed := Having(kind, |items|, script, Removed);
    (forall i <- removed :: i < |items|) && pass == Pass(|removed|, NamesAt(items, removed))
  }

  lemma PassReports(s: Store, begun: Sweep, items: seq<Item>, n: nat, namespace: string, runID: string, dryRun: bool,
                    script: Script)
    requires n < |KINDS| && begun.deleted == [] && begun.runIDs == RunIDs(s, n, namespace, runID)
    requires IsListing(items, begun.store, KINDS[n], namespace, Selector(runID))
    requires IsListing(items, s, KINDS[n], namespace, Selector(runID))
    ensures var w := Swept(begun, KINDS[n], items, dryRun, script);
            && Reports(Pass(|w.deleted|, w.deleted), items, KINDS[n], script)
            && |w.errors| == |begun.errors| + |Having(KINDS[n], |items|, script, SOME_ERROR)|
            && w.runIDs == RunIDs(s, n + 1, namespace, runID)
  {
    ListingIsSound(items, begun.store, KINDS[n], namespace, Selector(runID));
    SweptDeleted(begun, KINDS[n], items, dryRun, script);
    SweptErrors(begun, KINDS[n], items, dryRun, script);
    SweptRunIDs(begun, KINDS[n], items, dryRun, script);
    NextKind(s, n, namespace, runID, items, begun.runIDs);
    hide Swept, IsListing, RunIDs, Having, DistinctItems, AllIn, Collected, Selector;
  }

  ghost predicate AllReported(p: Progress, s: Store, listings: seq<seq<Item>>, namespace: string, runID: string,
                              script: Script)
    requires |listings| <= |KINDS|
  {
    && |p.passes| == |listings|
    && (forall k | 0 <= k < |listings| :: Reports(p.passes[k], listings[k], KINDS[k], script))
    && |p.errors| == ErrorCount(listings, script)
    && p.runIDs == RunIDs(s, |listings|, namespace, runID)
  }

  lemma ReportsGrow(p: Progress, s: Store, listings: seq<seq<Item>>, namespace: string, runID: string, script: Script,
                    pass: Pass, p': Progress)
    requires listings != [] && |listings| <= |KINDS|
    requires AllReported(p, s, listings[..|listings| - 1], namespace, runID, script)
    requires var n := |listings| - 1;
             && p'.passes == p.passes + [pass] && Reports(pass, listings[n], KINDS[n], script)
             && |p'.errors| == |p.errors| + |Having(KINDS[n], |listings[n]|, script, SOME_ERROR)|
             && p'.runIDs == RunIDs(s, n + 1, namespace, runID)
    ensures AllReported(p', s, listings, namespace, runID, script)
  {
    hide Reports, Having, RunIDs;
    var before := listings[..|listings| - 1];
    assert forall k | 0 <= k < |before| :: listings[k] == before[k];
  }

  /** What is reported, pass by pass. */
  lemma {:induction false} PassedReports(s: Store, listings: seq<seq<Item>>, namespace: string, runID: string,
                                         dryRun: bool, script: Script)
    requires AreListings(s, listings, namespace, Selector(runID), dryRun, script)
    ensures AllReported(Passed(s, listings, dryRun, script), s, listings, namespace, runID, script)
    decreases |listings|
  {
    hide Selector, RunIDs, Reports;
    if listings == [] {
      NoRunIDs(s, namespace, runID);
    } else {
      var n := |listings| - 1;
      LastPass(s, listings, namespace, runID, dryRun, script);
      PassedReports(s, listings[..n], namespace, runID, dryRun, script);
      PassedTargets(s, listings, namespace, runID, dryRun, script);
      var p := Passed(s, listings[..n], dryRun, script);
      hide AreListings, Swept, IsListing, AllReported, Having, Passed;
      PassReports(s, Sweep(p.store, [], p.errors, p.runIDs), listings[n], n, namespace, runID, dryRun, script);
      var p' := Passed(s, listings, dryRun, script);
      ReportsGrow(p, s, listings, namespace, runID, script, p'.passes[n], p');
    }
  }

  // ---------------------------------------------------------------------
  // Whole cleanups
  // ---------------------------------------------------------------------

  function NamespaceOf(namespace: string): Key { Key(Namespace, "", namespace) }

  lemma HavingSplitsAll(listings: seq<seq<Item>>, script: Script)
    requires |listings| == |KINDS|
    ensures forall k | 0 <= k < |KINDS| ::
              |Having(KINDS[k], |listings[k]|, script, Removed)| + |Having(KINDS[k], |listings[k]|, script, Missing)|
              + |Having(KINDS[k], |listings[k]|, script, SOME_ERROR)| == |listings[k]|
  {
    forall k | 0 <= k < |KINDS| {
      HavingSplits(KINDS[k], |listings[k]|, script);
    }
  }

  /**
   When no list call fails, the targets of each kind at the start split into
   confirmed deletions, objects found missing and errors; the counter and the
   names are those of the confirmed deletions, and the run ids are those on all
   targets, deleted or not.
   */
  lemma CleanupAccounts(s: Store, s': Store, result: CleanupResult, listings: seq<seq<Item>>, namespace: string,
                        runID: string, dryRun: bool, deleteNamespace: bool, script: Script)
    requires IsOutcome(s, s', result, None, listings, namespace, runID, dryRun, deleteNamespace, script)
    ensures forall k | 0 <= k < |KINDS| ::
              && IsListing(listings[k], s, KINDS[k], namespace, Selector(runID))
              && Reports(AllPasses(result)[k], listings[k], KINDS[k], script)
              && |Targets(s, KINDS[k], namespace, runID)|
                 == AllPasses(result)[k].count + |Having(KINDS[k], |listings[k]|, script, Missing)|
                    + |Having(KINDS[k], |listings[k]|, script, SOME_ERROR)|
    ensures Lists(result.runIDs, RunIDs(s, |KINDS|, namespace, runID))
  {
    PassedTargets(s, listings, namespace, runID, dryRun, script);
    PassedReports(s, listings, namespace, runID, dryRun, script);
    HavingSplitsAll(listings, script);
    hide AreListings, Passed, Having, NamesAt, RunIDs, Selector, NamespaceDelete, Lists, AllGone, IsListing, Targets,
         TargetsAmong;
    forall k | 0 <= k < |KINDS| ensures |listings[k]| == |Targets(s, KINDS[k], namespace, runID)| {
      ListingCounts(s, listings[k], k, namespace, runID);
    }
    assert AllPasses(result) == Passed(s, listings, dryRun, script).passes + [];
  }

  /**
   One error for each call that got no reply of its own, that for the namespace
   being the last; the namespace counts as deleted when it was there and its
   deletion was asked for and confirmed.
   */
  lemma ErrorsAreAccounted(s: Store, s': Store, result: CleanupResult, listings: seq<seq<Item>>, namespace: string,
                           runID: string, dryRun: bool, deleteNamespace: bool, script: Script)
    requires IsOutcome(s, s', result, None, listings, namespace, runID, dryRun, deleteNamespace, script)
    ensures var key, m := Key(Namespace, "", namespace), script(Namespace, 0);
            && (result.namespaceDeleted <==> deleteNamespace && key in s && !m.vanished && m.fault.Delivered?)
            && (key in s' <==> key in s && !(deleteNamespace && (m.vanished || !m.fault.Rejected?)))
            && |result.errors| == ErrorCount(listings, script) + (if deleteNamespace && !m.fault.Delivered? then 1 else 0)
            && (deleteNamespace && !m.fault.Delivered? ==>
                  result.errors[|result.errors| - 1] == DeleteError(key, Server(m.fault.error)))
  {
    SweptOutcome(s, s', result, listings, namespace, runID, dryRun, deleteNamespace, script);
    PassedReports(s, listings, namespace, runID, dryRun, script);
    NamespaceStays(s, listings, namespace, runID, dryRun, script);
    NamespaceReply(Passed(s, listings, dryRun, script).store, namespace, script);
    hide IsOutcome, AreListings, RunIDs, Reports, Selector, Passed, NamespaceDelete, NamespaceErrors, ErrorCount, AllPasses;
  }

  lemma NamespaceStays(s: Store, listings: seq<seq<Item>>, namespace: string, runID: string, dryRun: bool, script: Script)
    requires AreListings(s, listings, namespace, Selector(runID), dryRun, script)
    ensures NamespaceOf(namespace) in Passed(s, listings, dryRun, script).store <==> NamespaceOf(namespace) in s
  {
    OtherKindsStay(s, listings, namespace, runID, dryRun, script);
    hide AreListings, Selector, Passed;
    assert Namespace !in KINDS[..|listings|];
  }

  /** How a cleanup that could list everything ends. */
  lemma SweptOutcome(s: Store, s': Store, result: CleanupResult, listings: seq<seq<Item>>, namespace: string,
                     runID: string, dryRun: bool, deleteNamespace: bool, script: Script)
    requires IsOutcome(s, s', result, None, listings, namespace, runID, dryRun, deleteNamespace, script)
    ensures |listings| == |KINDS| && AreListings(s, listings, namespace, Selector(runID), dryRun, script)
    ensures var p := Passed(s, listings, dryRun, script);
            if !deleteNamespace then s' == p.store && result.errors == p.errors && !result.namespaceDeleted
            else
              var d := NamespaceDelete(p.store, namespace, script);
              && s' == d.store && result.namespaceDeleted == d.reply.Ok?
              && result.errors == p.errors + NamespaceErrors(d.reply, namespace)
  {
    assert |listings| == |KINDS|;
    hide AreListings, Passed, Selector, Lists, AllPasses, NamespaceDelete, NamespaceErrors;
  }

  lemma NamespaceReply(s: Store, namespace: string, script: Script)
    ensures var key, m, d := NamespaceOf(namespace), script(Namespace, 0), NamespaceDelete(s, namespace, script);
            && (d.reply.Ok? <==> key in s && !m.vanished && m.fault.Delivered?)
            && (key in d.store <==> key in s && !m.vanished && m.fault.Rejected?)
            && NamespaceErrors(d.reply, namespace)
               == if m.fault.Delivered? then [] else [DeleteError(key, Server(m.fault.error))]
  {
  }

  /** Passes leave objects of other kinds alone. */
  lemma OtherKindsStay(s: Store, listings: seq<seq<Item>>, namespace: string, runID: string, dryRun: bool, script: Script)
    requires AreListings(s, listings, namespace, Selector(runID), dryRun, script)
    ensures |listings| <= |KINDS|
    ensures var store := Passed(s, listings, dryRun, script).store;
            && (forall key <- s | key.kind !in KINDS[..|listings|] :: key in store)
            && forall key <- store :: key in s
  {
    PassedTargets(s, listings, namespace, runID, dryRun, script);
    PassedStore(s, listings, dryRun, script);
    hide AllGone, Passed, Targeted, ListedAtStart, IsListing, Selector;
  }

  /** A cleanup that cannot list a kind reports what it did up to there, and nothing for that kind and the later ones. */
  lemma FailedCleanupAccounts(s: Store, s': Store, result: CleanupResult, failed: Kind, listings: seq<seq<Item>>,
                              namespace: string, runID: string, dryRun: bool, deleteNamespace: bool, script: Script)
    requires IsOutcome(s, s', result, Some(failed), listings, namespace, runID, dryRun, deleteNamespace, script)
    ensures |listings| < |KINDS| && failed == KINDS[|listings|]
    ensures forall k | 0 <= k < |KINDS| ::
              if k < |listings| then
                && IsListing(listings[k], s, KINDS[k], namespace, Selector(runID))
                && Reports(AllPasses(result)[k], listings[k], KINDS[k], script)
              else AllPasses(result)[k] == Pass(0, [])
    ensures |result.errors| == ErrorCount(listings, script) && result.runIDs == [] && !result.namespaceDeleted
    ensures forall key <- s | key.kind !in KINDS[..|listings|] :: key in s'
  {
    FailedOutcome(s, s', result, failed, listings, namespace, runID, dryRun, deleteNamespace, script);
    PassedTargets(s, listings, namespace, runID, dryRun, script);
    PassedReports(s, listings, namespace, runID, dryRun, script);
    OtherKindsStay(s, listings, namespace, runID, dryRun, script);
    hide IsOutcome, AreListings, RunIDs, Reports, Selector, Passed, IsListing, TargetsAmong, ErrorCount, AllPasses;
  }

  lemma FailedOutcome(s: Store, s': Store, result: CleanupResult, failed: Kind, listings: seq<seq<Item>>,
                      namespace: string, runID: string, dryRun: bool, deleteNamespace: bool, script: Script)
    requires IsOutcome(s, s', result, Some(failed), listings, namespace, runID, dryRun, deleteNamespace, script)
    ensures |listings| < |KINDS| && failed == KINDS[|listings|]
    ensures AreListings(s, listings, namespace, Selector(runID), dryRun, script)
    ensures var p := Passed(s, listings, dryRun, script);
            && s' == p.store && result.errors == p.errors && result.runIDs == [] && !result.namespaceDeleted
            && AllPasses(result) == p.passes + EmptyPasses(|KINDS| - |listings|)
  {
    hide AreListings, Passed, Selector, Lists, AllPasses, NamespaceDelete;
  }

  /** In whatever way a cleanup ends, only targets are gone, and the namespace if that was asked for. */
  lemma CleanupSparesOthers(s: Store, s': Store, result: CleanupResult, failed: Option<Kind>, listings: seq<seq<Item>>,
                            namespace: string, runID: string, dryRun: bool, deleteNamespace: bool, script: Script)
    requires IsOutcome(s, s', result, failed, listings, namespace, runID, dryRun, deleteNamespace, script)
    ensures forall key <- s' :: key in s && s'[key] == s[key]
    ensures forall key <- s | key !in s' ::
              Targeted(s, key, namespace, runID) || (deleteNamespace && failed.None? && key == NamespaceOf(namespace))
  {
    PassedStore(s, listings, dryRun, script);
    PassedTargets(s, listings, namespace, runID, dryRun, script);
    MeetingStore(s - AllGone(listings, dryRun, script), NamespaceOf(namespace), false, script(Namespace, 0));
    hide AreListings, Passed, AllGone, Removes, ServeRacedDelete, Targeted, Lists;
  }

  /** What is left when every target, and the namespace if asked for, is gone. */
  function Remaining(s: Store, namespace: string, runID: string, deleteNamespace: bool): Store {
    map key <- s | !Targeted(s, key, namespace, runID) && !(deleteNamespace && key == NamespaceOf(namespace)) :: s[key]
  }

  lemma NoErrorsMeansGone(kind: Kind, items: seq<Item>, script: Script)
    requires |Having(kind, |items|, script, SOME_ERROR)| == 0
    ensures Gone(kind, items, false, script) == ItemKeys(items)
  {
    HavingMeans(kind, |items|, script, SOME_ERROR);
    forall i: nat | i < |items| ensures Removes(script(kind, i), false) {
      assert i !in Having(kind, |items|, script, SOME_ERROR);
    }
  }

  lemma {:induction false} ErrorFreePasses(s: Store, listings: seq<seq<Item>>, namespace: string, runID: string,
                                           script: Script)
    requires |listings| <= |KINDS| && ListedAtStart(s, listings, namespace, runID) && ErrorCount(listings, script) == 0
    ensures forall k | 0 <= k < |listings| :: Targets(s, KINDS[k], namespace, runID) <= AllGone(listings, false, script)
    decreases |listings|
  {
    if listings != [] {
      var n := |listings| - 1;
      var before := listings[..n];
      StartListingsShrink(s, listings, namespace, runID);
      ErrorFreePasses(s, before, namespace, runID, script);
      LastTargetsGone(s, listings[n], n, namespace, runID, script);
      GoneWithLast(listings, false, script);
      hide AllGone, Gone, Targets, ListedAtStart;
    }
  }

  lemma StartListingsShrink(s: Store, listings: seq<seq<Item>>, namespace: string, runID: string)
    requires listings != [] && |listings| <= |KINDS| && ListedAtStart(s, listings, namespace, runID)
    ensures ListedAtStart(s, listings[..|listings| - 1], namespace, runID)
    ensures IsListing(listings[|listings| - 1], s, KINDS[|listings| - 1], namespace, Selector(runID))
  {
    hide IsListing, Selector;
    var before := listings[..|listings| - 1];
    assert forall k | 0 <= k < |before| :: listings[k] == before[k];
  }

  lemma LastTargetsGone(s: Store, items: seq<Item>, n: nat, namespace: string, runID: string, script: Script)
    requires n < |KINDS| && IsListing(items, s, KINDS[n], namespace, Selector(runID))
    requires |Having(KINDS[n], |items|, script, SOME_ERROR)| == 0
    ensures Targets(s, KINDS[n], namespace, runID) == Gone(KINDS[n], items, false, script)
  {
    NoErrorsMeansGone(KINDS[n], items, script);
    hide Gone, Selector, MatchesLabels;
    assert ItemKeys(items) == Targets(s, KINDS[n], namespace, runID);
  }

  lemma AllTargetsGone(s: Store, listings: seq<seq<Item>>, namespace: string, runID: string, script: Script)
    requires |listings| == |KINDS| && ListedAtStart(s, listings, namespace, runID) && ErrorCount(listings, script) == 0
    ensures forall key <- s | Targeted(s, key, namespace, runID) :: key in AllGone(listings, false, script)
  {
    ErrorFreePasses(s, listings, namespace, runID, script);
    hide AllGone, ErrorCount, ListedAtStart, Selector, MatchesLabels;
    forall key <- s | Targeted(s, key, namespace, runID) ensures key in AllGone(listings, false, script) {
      var k :| 0 <= k < |KINDS| && KINDS[k] == key.kind;
      assert key in Targets(s, KINDS[k], namespace, runID);
    }
  }

  lemma ErrorFreeStore(s: Store, s': Store, result: CleanupResult, listings: seq<seq<Item>>, namespace: string,
                       runID: string, deleteNamespace: bool, script: Script)
    requires IsOutcome(s, s', result, None, listings, namespace, runID, false, deleteNamespace, script)
    requires result.errors == []
    ensures Passed(s, listings, false, script).errors == []
    ensures s' == s - AllGone(listings, false, script) - if deleteNamespace then {NamespaceOf(namespace)} else {}
  {
    PassedStore(s, listings, false, script);
    var left := s - AllGone(listings, false, script);
    MeetingStore(left, NamespaceOf(namespace), false, script(Namespace, 0));
    hide AreListings, Passed, AllGone, Lists, Selector;
    if !deleteNamespace {
      assert left - {} == left;
    } else if NamespaceOf(namespace) !in left {
      assert left - {NamespaceOf(namespace)} == left;
    }
  }

  /** A cleanup that is not a dry run and returns no error has removed every target. */
  lemma ErrorFreeCleanupIsComplete(s: Store, s': Store, result: CleanupResult, listings: seq<seq<Item>>, namespace: string,
                                   runID: string, deleteNamespace: bool, script: Script)
    requires IsOutcome(s, s', result, None, listings, namespace, runID, false, deleteNamespace, script)
    requires result.errors == []
    ensures s' == Remaining(s, namespace, runID, deleteNamespace)
  {
    ErrorFreeStore(s, s', result, listings, namespace, runID, deleteNamespace, script);
    PassedReports(s, listings, namespace, runID, false, script);
    PassedTargets(s, listings, namespace, runID, false, script);
    hide AreListings, Passed, AllGone, Lists, Selector, ErrorCount, Reports, RunIDs, ListedAtStart;
    AllTargetsGone(s, listings, namespace, runID, script);
    TargetsMinus(s, AllGone(listings, false, script), namespace, runID, deleteNamespace);
  }

  lemma TargetsMinus(s: Store, gone: set<Key>, namespace: string, runID: string, deleteNamespace: bool)
    requires TargetsAmong(s, gone, |KINDS|, namespace, runID)
    requires forall key <- s | Targeted(s, key, namespace, runID) :: key in gone
    ensures s - gone - (if deleteNamespace then {NamespaceOf(namespace)} else {})
            == Remaining(s, namespace, runID, deleteNamespace)
  {
    hide Targeted;
  }

  function PreviewedCounts(p: CleanupPreview): seq<nat> {
    [p.vmCount, p.serviceCount, p.secretCount, p.dvCount, p.pvcCount]
  }

  /** A count is at most the previewed one, and equal to it exactly when every deletion of the kind is confirmed. */
  ghost predicate Foretold(count: nat, previewed: nat, kind: Kind, script: Script) {
    count <= previewed && (count == previewed <==> forall i: nat | i < previewed :: FateOf(script(kind, i)).Removed?)
  }

  lemma PreviewCountsTargets(p: CleanupPreview, s: Store, namespace: string, runID: string, k: nat)
    requires IsPreview(p, s, namespace, runID) && k < |KINDS|
    ensures PreviewedCounts(p)[k] == |Targets(s, KINDS[k], namespace, runID)|
  {
    hide Targets, Lists, RunIDs;
  }

  lemma CountIsForetold(pass: Pass, items: seq<Item>, kind: Kind, script: Script)
    requires Reports(pass, items, kind, script)
    ensures Foretold(pass.count, |items|, kind, script)
  {
    hide Having, NamesAt, FateOf;
    HavingAll(kind, |items|, script);
  }

  lemma ListingCounts(s: Store, items: seq<Item>, k: nat, namespace: string, runID: string)
    requires k < |KINDS| && IsListing(items, s, KINDS[k], namespace, Selector(runID))
    ensures |items| == |Targets(s, KINDS[k], namespace, runID)|
  {
    ListingSize(items);
    hide Selector, MatchesLabels;
    assert ItemKeys(items) == Targets(s, KINDS[k], namespace, runID);
  }

  /**
   The preview's counts and run ids against what a cleanup of the same cluster
   reports: they agree exactly as far as the deletions are confirmed, and the
   run ids agree always.
   */
  lemma PreviewForetells(s: Store, s': Store, result: CleanupResult, listings: seq<seq<Item>>, preview: CleanupPreview,
                         namespace: string, runID: string, dryRun: bool, deleteNamespace: bool, script: Script)
    requires IsOutcome(s, s', result, None, listings, namespace, runID, dryRun, deleteNamespace, script)
    requires IsPreview(preview, s, namespace, runID)
    ensures forall k | 0 <= k < |KINDS| ::
              Foretold(AllPasses(result)[k].count, PreviewedCounts(preview)[k], KINDS[k], script)
    ensures forall id :: id in result.runIDs <==> id in preview.runIDs
  {
    CleanupAccounts(s, s', result, listings, namespace, runID, dryRun, deleteNamespace, script);
    hide IsOutcome, IsListing, RunIDs, Targets, Selector, Having, Reports, Foretold, AllPasses, PreviewedCounts;
    forall k | 0 <= k < |KINDS|
      ensures Foretold(AllPasses(result)[k].count, PreviewedCounts(preview)[k], KINDS[k], script)
    {
      PreviewCountsTargets(preview, s, namespace, runID, k);
      ListingCounts(s, listings[k], k, namespace, runID);
      CountIsForetold(AllPasses(result)[k], listings[k], KINDS[k], script);
    }
  }

  lemma {:induction false} HavingAll(kind: Kind, n: nat, script: Script)
    ensures |Having(kind, n, script, Removed)| <= n
    ensures |Having(kind, n, script, Removed)| == n <==> forall i: nat | i < n :: FateOf(script(kind, i)).Removed?
  {
    if n > 0 {
      HavingAll(kind, n - 1, script);
    }
  }

  lemma {:induction false} DryRunGoneNothing(listings: seq<seq<Item>>, script: Script)
    requires |listings| <= |KINDS| && forall kind: Kind, i: nat :: !script(kind, i).vanished
    ensures AllGone(listings, true, script) == {}
    decreases |listings|
  {
    if listings != [] {
      DryRunGoneNothing(listings[..|listings| - 1], script);
    }
  }

  /**
   A dry run, left alone by other clients, changes nothing unless it is also
   asked to delete the namespace: that deletion is real as soon as the
   namespace exists and the server takes the call.
   */
  lemma DryRunIsDryIff(s: Store, s': Store, result: CleanupResult, failed: Option<Kind>, listings: seq<seq<Item>>,
                       namespace: string, runID: string, deleteNamespace: bool, script: Script)
    requires IsOutcome(s, s', result, failed, listings, namespace, runID, true, deleteNamespace, script)
    requires forall kind: Kind, i: nat :: !script(kind, i).vanished
    ensures s' == s <==> !(deleteNamespace && failed.None? && NamespaceOf(namespace) in s
                           && !script(Namespace, 0).fault.Rejected?)
  {
    PassedStore(s, listings, true, script);
    DryRunGoneNothing(listings, script);
    assert s - {} == s;
    MeetingStore(s, NamespaceOf(namespace), false, script(Namespace, 0));
    hide AreListings, Passed, AllGone, Lists, Selector, ServeRacedDelete;
    assert NamespaceOf(namespace) !in s - {NamespaceOf(namespace)};
    assert NamespaceOf(namespace) !in s ==> s - {NamespaceOf(namespace)} == s;
  }

  /** Attempts that failed half-way do not change what an error-free cleanup leaves. */
  lemma CleanupConverges(s: Store, s1: Store, namespace: string, runID: string, deleteNamespace: bool)
    requires forall key <- s1 :: key in s && s1[key] == s[key]
    requires forall key <- s | key !in s1 ::
               Targeted(s, key, namespace, runID) || (deleteNamespace && key == NamespaceOf(namespace))
    ensures Remaining(s1, namespace, runID, deleteNamespace) == Remaining(s, namespace, runID, deleteNamespace)
  {
    hide MatchesLabels, Selector;
    forall key <- s1 ensures Targeted(s1, key, namespace, runID) <==> Targeted(s, key, namespace, runID) {
    }
  }
}
