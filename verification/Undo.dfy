/**
 Cleanup by run id undoes a run: the central promise of the labels that every
 object of a run carries.
 */
module Undo {
  import opened Options
  import opened Cluster
  import opened Cleanup
  import opened CleanupLaws
  import opened RunProtocol
  import RunSafety

  /** Some cleanup of the namespace for this run id, dry or not, however it ended. */
  ghost predicate Attempted(s: Store, s': Store, namespace: string, runID: string) {
    exists result, failed, listings, dryRun, script ::
      IsOutcome(s, s', result, failed, listings, namespace, runID, dryRun, false, script)
  }

  ghost predicate Attempts(s: Store, tries: seq<Store>, namespace: string, runID: string)
    decreases |tries|
  {
    tries == [] || (Attempted(s, tries[0], namespace, runID) && Attempts(tries[0], tries[1..], namespace, runID))
  }

  function LastOf(s: Store, tries: seq<Store>): Store {
    if tries == [] then s else tries[|tries| - 1]
  }

  lemma AttemptKeepsRemaining(s: Store, s': Store, namespace: string, runID: string)
    requires Attempted(s, s', namespace, runID)
    ensures Remaining(s', namespace, runID, false) == Remaining(s, namespace, runID, false)
  {
    hide IsOutcome, Remaining, Targeted;
    var result, failed, listings, dryRun, script :|
      IsOutcome(s, s', result, failed, listings, namespace, runID, dryRun, false, script);
    CleanupSparesOthers(s, s', result, failed, listings, namespace, runID, dryRun, false, script);
    CleanupConverges(s, s', namespace, runID, false);
  }

  lemma {:induction false} AttemptsConverge(s: Store, tries: seq<Store>, namespace: string, runID: string)
    requires Attempts(s, tries, namespace, runID)
    ensures Remaining(LastOf(s, tries), namespace, runID, false) == Remaining(s, namespace, runID, false)
    decreases |tries|
  {
    hide Attempted, Remaining;
    if tries != [] {
      AttemptKeepsRemaining(s, tries[0], namespace, runID);
      AttemptsConverge(tries[0], tries[1..], namespace, runID);
      assert LastOf(s, tries) == LastOf(tries[0], tries[1..]);
    }
  }

  /** Apart from the namespace object, the store is as it was. */
  predicate Restored(su: Setup, s0: Store, s: Store) {
    s - {NamespaceKey(su)} == s0 - {NamespaceKey(su)}
  }

  predicate NothingTargeted(s: Store, namespace: string, runID: string) {
    forall key <- s :: !Targeted(s, key, namespace, runID)
  }

  lemma OursIsTargeted(su: Setup, s: Store, key: Key)
    requires key in s && RunSafety.Ours(su, key, s[key])
    ensures Targeted(s, key, su.input.config.namespace, su.input.runID)
  {
  }

  lemma TargetedStays(s0: Store, s: Store, key: Key, namespace: string, runID: string)
    requires key in s0 && key in s && s[key] == s0[key]
    ensures Targeted(s, key, namespace, runID) <==> Targeted(s0, key, namespace, runID)
  {
    hide Selector;
  }

  lemma NamespaceIsNoTarget(su: Setup, s: Store, runID: string)
    ensures !Targeted(s, NamespaceKey(su), su.input.config.namespace, runID)
  {
  }

  lemma RemainingAfterRun(su: Setup, s0: Store, s: Store)
    requires forall key <- s0 | key != NamespaceKey(su) :: key in s && s[key] == s0[key]
    requires forall key <- s | key !in s0 && key != NamespaceKey(su) :: RunSafety.Ours(su, key, s[key])
    ensures var namespace, runID := su.input.config.namespace, su.input.runID;
            Restored(su, s0, Remaining(s, namespace, runID, false)) <==> NothingTargeted(s0, namespace, runID)
  {
    var namespace, runID, ns := su.input.config.namespace, su.input.runID, NamespaceKey(su);
    var left := Remaining(s, namespace, runID, false);
    NamespaceIsNoTarget(su, s0, runID);
    forall key <- s | key !in s0 && key != ns ensures key !in left {
      OursIsTargeted(su, s, key);
    }
    forall key <- s0 | key != ns ensures key in left <==> !Targeted(s0, key, namespace, runID) {
      TargetedStays(s0, s, key, namespace, runID);
    }
    hide Targeted, NamespaceKey, RunSafety.Ours;
    if Restored(su, s0, left) {
      forall key <- s0 ensures !Targeted(s0, key, namespace, runID) {
        if key != ns {
          assert key in s0 - {ns};
          assert key in left - {ns};
        }
      }
    }
  }

  /**
   Take any state of any run - any interleaving, failures, lost replies,
   cancelled or finished - then any number of cleanups for its run id, however
   they end, then one that returns no error. The cluster is as it was before
   the run exactly when nothing in it was a target of that cleanup to begin with.
   */
  lemma CleanupUndoesRun(su: Setup, s0: Store, steps: seq<Step>, st: State, tries: seq<Store>, s': Store,
                         result: CleanupResult, listings: seq<seq<Item>>, script: Script)
    requires ValidSetup(su) && Leads(su, Init(su, s0), steps, st)
    requires Attempts(st.store, tries, su.input.config.namespace, su.input.runID)
    requires IsOutcome(LastOf(st.store, tries), s', result, None, listings, su.input.config.namespace, su.input.runID,
                       false, false, script)
    requires result.errors == []
    ensures Restored(su, s0, s') <==> NothingTargeted(s0, su.input.config.namespace, su.input.runID)
  {
    hide IsOutcome, Attempts, Leads, ValidSetup, Restored, NothingTargeted;
    RunSafety.EveryRunIsSafe(su, s0, steps, st);
    ErrorFreeCleanupIsComplete(LastOf(st.store, tries), s', result, listings, su.input.config.namespace,
                               su.input.runID, false, script);
    AttemptsConverge(st.store, tries, su.input.config.namespace, su.input.runID);
    RemainingAfterRun(su, s0, st.store);
  }

  predicate OnNoObject(s: Store, runID: string) {
    forall key <- s :: !(LABEL_RUN_ID in s[key].labels && s[key].labels[LABEL_RUN_ID] == runID)
  }

  /** A fresh run id targets nothing; the empty one of a run without audit targets every managed object. */
  lemma WhenNothingIsTargeted(s: Store, namespace: string, runID: string)
    ensures runID != "" && OnNoObject(s, runID) ==> NothingTargeted(s, namespace, runID)
    ensures NothingTargeted(s, namespace, "") <==>
              forall key <- s | key.kind in KINDS && key.namespace == namespace ::
                !(LABEL_MANAGED_BY in s[key].labels && s[key].labels[LABEL_MANAGED_BY] == MANAGED_BY_VALUE)
  {
    hide Targeted;
    forall key <- s ensures Targeted(s, key, namespace, runID) ==> !OnNoObject(s, runID) || runID == "" {
      TargetedMeans(s, key, namespace, runID);
    }
    forall key <- s
      ensures Targeted(s, key, namespace, "") <==>
                && key.kind in KINDS && key.namespace == namespace
                && LABEL_MANAGED_BY in s[key].labels && s[key].labels[LABEL_MANAGED_BY] == MANAGED_BY_VALUE
    {
      TargetedMeans(s, key, namespace, "");
    }
  }
}
