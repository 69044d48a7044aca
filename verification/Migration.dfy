/**
 The schema migrations of internal/audit/migrate.go, over any list of
 migrations and any sequence of opens, each of which may fail or be cut off
 at any statement. Only what the database has committed survives an open.
 */
module Migration {
  import opened Collections

  /** Committed contents: the rows of schema_version, and which migrations have taken effect, in order. */
  datatype Db = Db(hasTable: bool, rows: seq<nat>, applied: seq<nat>)

  const EMPTY_DB := Db(false, [], [])

  /**
   What happens to one statement. A statement that fails, or during which the
   process dies, may still have been committed when it commits at all.
   */
  datatype Fault = Fine | Fail(committed: bool) | Crash(committed: bool)

  datatype Outcome = Ok | Failed | Crashed

  /** The fault of the n-th statement of one open. */
  type Faults = nat -> Fault

  function OutcomeOf(f: Fault): Outcome {
    match f
    case Fine => Ok
    case Fail(_) => Failed
    case Crash(_) => Crashed
  }

  /** The committed state after a statement that would turn `db` into `after`. */
  function Commits(db: Db, after: Db, f: Fault): Db {
    if f.Fine? || f.committed then after else db
  }

  function Version(db: Db): nat {
    if db.rows == [] then 0 else db.rows[0]
  }

  function SetVersion(rows: seq<nat>, v: nat): seq<nat> {
    seq(|rows|, _ => v)
  }

  function UpTo(n: nat): seq<nat> { seq(n, i => i) }

  // ---------------------------------------------------------------------
  // One open, statement by statement
  // ---------------------------------------------------------------------

  datatype Opened = Opened(db: Db, outcome: Outcome)

  /** The bookkeeping table, its one row, and the version read back. */
  function Prepare(db: Db, faults: Faults): Opened {
    var created := Commits(db, db.(hasTable := true), faults(0));
    if !faults(0).Fine? then Opened(created, OutcomeOf(faults(0)))
    else if !faults(1).Fine? then Opened(created, OutcomeOf(faults(1)))
    else
      var inserts := created.rows == [];
      var seeded := if inserts then Commits(created, created.(rows := [0]), faults(2)) else created;
      if inserts && !faults(2).Fine? then Opened(seeded, OutcomeOf(faults(2)))
      else Opened(seeded, OutcomeOf(faults(3)))
  }

  function Open(db: Db, count: nat, faults: Faults): Opened {
    var ready := Prepare(db, faults);
    if !ready.outcome.Ok? then ready else Migrations(ready.db, Version(ready.db), count, faults, 4)
  }

  /** The transaction for migration `i`: what COMMIT would make visible. */
  function Migrated(db: Db, i: nat): Db {
    db.(rows := SetVersion(db.rows, i + 1), applied := db.applied + [i])
  }

  function Migrations(db: Db, i: nat, count: nat, faults: Faults, n: nat): Opened
    decreases if i < count then count - i else 0
  {
    if i >= count then Opened(db, Ok)
    // BEGIN, the migration itself and the version update roll back together.
    else if !faults(n).Fine? then Opened(db, OutcomeOf(faults(n)))
    else if !faults(n + 1).Fine? then Opened(db, OutcomeOf(faults(n + 1)))
    else if !faults(n + 2).Fine? then Opened(db, OutcomeOf(faults(n + 2)))
    else
      var committed := Commits(db, Migrated(db, i), faults(n + 3));
      if !faults(n + 3).Fine? then Opened(committed, OutcomeOf(faults(n + 3)))
      else Migrations(committed, i + 1, count, faults, n + 4)
  }

  class Database {
    var hasTable: bool
    var rows: seq<nat>
    var applied: seq<nat>

    function State(): Db
      reads this
    {
      Db(hasTable, rows, applied)
    }

    constructor ()
      ensures State() == EMPTY_DB
    {
      hasTable, rows, applied := false, [], [];
    }

    method EnsureVersionRow(faults: Faults) returns (outcome: Outcome)
      modifies this
      ensures Opened(State(), outcome) == Prepare(old(State()), faults)
    {
      if faults(0).Fine? || faults(0).committed {
        hasTable := true;
      }
      if !faults(0).Fine? {
        return OutcomeOf(faults(0));
      }
      if !faults(1).Fine? {
        return OutcomeOf(faults(1));
      }
      if |rows| == 0 {
        if faults(2).Fine? || faults(2).committed {
          rows := [0];
        }
        if !faults(2).Fine? {
          return OutcomeOf(faults(2));
        }
      }
      return OutcomeOf(faults(3));
    }

    /** migrateDB over a list of `count` migrations. */
    method MigrateDB(count: nat, faults: Faults) returns (outcome: Outcome)
      modifies this
      ensures Opened(State(), outcome) == Open(old(State()), count, faults)
    {
      outcome := EnsureVersionRow(faults);
      if !outcome.Ok? {
        return;
      }
      var i, n := Version(State()), 4;
      while i < count
        invariant Migrations(State(), i, count, faults, n) == Open(old(State()), count, faults)
      {
        var txApplied, txRows := applied, rows;
        if !faults(n).Fine? {
          return OutcomeOf(faults(n));
        }
        txApplied := txApplied + [i];
        if !faults(n + 1).Fine? {
          return OutcomeOf(faults(n + 1));
        }
        txRows := SetVersion(txRows, i + 1);
        if !faults(n + 2).Fine? {
          return OutcomeOf(faults(n + 2));
        }
        if faults(n + 3).Fine? || faults(n + 3).committed {
          applied, rows := txApplied, txRows;
        }
        if !faults(n + 3).Fine? {
          return OutcomeOf(faults(n + 3));
        }
        i, n := i + 1, n + 4;
      }
      return Ok;
    }
  }

  // ---------------------------------------------------------------------
  // What every history of opens keeps
  // ---------------------------------------------------------------------

  /** Migrations 0 .. version-1 have each taken effect exactly once, in order, and no others. */
  predicate Consistent(db: Db) {
    && |db.rows| <= 1
    && (!db.hasTable ==> db.rows == [])
    && db.applied == UpTo(Version(db))
  }

  lemma {:induction false} MigrationsKeep(db: Db, i: nat, count: nat, faults: Faults, n: nat)
    requires Consistent(db) && db.hasTable && |db.rows| == 1 && i == Version(db)
    ensures var o := Migrations(db, i, count, faults, n);
            && Consistent(o.db) && o.db.hasTable && |o.db.rows| == 1
            && i <= Version(o.db) <= Max(i, count)
            && (o.outcome.Ok? ==> Version(o.db) == Max(i, count))
    decreases if i < count then count - i else 0
  {
    if i < count {
      var after := Migrated(db, i);
      assert UpTo(i + 1) == UpTo(i) + [i];
      assert Consistent(after) && Version(after) == i + 1;
      if faults(n + 3).Fine? {
        MigrationsKeep(after, i + 1, count, faults, n + 4);
      }
    }
  }

  /** One open, whatever goes wrong in it; when it returns no error the schema is complete. */
  lemma OpenKeeps(db: Db, count: nat, faults: Faults)
    requires Consistent(db)
    ensures var o := Open(db, count, faults);
            && Consistent(o.db)
            && Version(db) <= Version(o.db) <= Max(Version(db), count)
            && (o.outcome.Ok? ==> Version(o.db) == Max(Version(db), count))
  {
    var created := db.(hasTable := true);
    var seeded := if created.rows == [] then created.(rows := [0]) else created;
    assert Consistent(created) && Consistent(seeded);
    MigrationsKeep(seeded, Version(seeded), count, faults, 4);
  }

  predicate FineFrom(faults: Faults, n: nat, k: nat) {
    forall j: nat | n <= j < k :: faults(j).Fine?
  }

  /** The first statement in this range that is not executed in peace fails, or takes the process with it. */
  ghost predicate FirstTrouble(faults: Faults, n: nat, end: nat, crash: bool) {
    exists k: nat :: n <= k < end && FineFrom(faults, n, k) && if crash then faults(k).Crash? else faults(k).Fail?
  }

  ghost predicate Tells(outcome: Outcome, faults: Faults, n: nat, end: nat) {
    match outcome
    case Ok => FineFrom(faults, n, end)
    case Failed => FirstTrouble(faults, n, end, false)
    case Crashed => FirstTrouble(faults, n, end, true)
  }

  lemma TellsLater(outcome: Outcome, faults: Faults, n: nat, m: nat, end: nat)
    requires n <= m <= end && FineFrom(faults, n, m) && Tells(outcome, faults, m, end)
    ensures Tells(outcome, faults, n, end)
  {
    if !outcome.Ok? {
      var k: nat :| m <= k < end && FineFrom(faults, m, k)
        && if outcome.Crashed? then faults(k).Crash? else faults(k).Fail?;
      assert FineFrom(faults, n, k);
    }
  }

  /** Of the four statements of each migration, the first that is not executed in peace decides the outcome. */
  lemma {:induction false} MigrationsTell(db: Db, i: nat, count: nat, faults: Faults, n: nat)
    ensures Tells(Migrations(db, i, count, faults, n).outcome, faults, n, n + 4 * (Max(i, count) - i))
    decreases if i < count then count - i else 0
  {
    var end := n + 4 * (Max(i, count) - i);
    if i < count {
      if FineFrom(faults, n, n + 4) {
        MigrationsTell(Migrated(db, i), i + 1, count, faults, n + 4);
        hide Tells;
        TellsLater(Migrations(db, i, count, faults, n).outcome, faults, n, n + 4, end);
      } else {
        var k :| n <= k < n + 4 && !faults(k).Fine? && FineFrom(faults, n, k);
      }
    }
  }

  /** The faults of the statements that an open executes: the version is seeded only where there is none. */
  function Executed(db: Db, faults: Faults): Faults {
    (n: nat) => if n == 2 && db.rows != [] then Fine else faults(n)
  }

  /** The outcome of an open is that of the first of its statements that is not executed in peace. */
  lemma OpenTells(db: Db, count: nat, faults: Faults)
    ensures Tells(Open(db, count, faults).outcome, Executed(db, faults), 0, 4 + 4 * (Max(Version(db), count) - Version(db)))
  {
    var met, end := Executed(db, faults), 4 + 4 * (Max(Version(db), count) - Version(db));
    if FineFrom(met, 0, 4) {
      assert met(0).Fine? && met(1).Fine? && met(2).Fine? && met(3).Fine?;
      var seeded := if db.rows == [] then db.(hasTable := true, rows := [0]) else db.(hasTable := true);
      MigrationsTell(seeded, Version(seeded), count, faults, 4);
      assert Open(db, count, faults) == Migrations(seeded, Version(seeded), count, faults, 4);
      TellsSame(Open(db, count, faults).outcome, faults, met, 4, end);
      hide Tells;
      TellsLater(Open(db, count, faults).outcome, met, 0, 4, end);
    } else {
      var k: nat := if !met(0).Fine? then 0 else if !met(1).Fine? then 1 else if !met(2).Fine? then 2 else 3;
      assert !met(k).Fine? && FineFrom(met, 0, k);
      assert Open(db, count, faults).outcome == OutcomeOf(met(k));
    }
  }

  lemma TellsSame(outcome: Outcome, faults: Faults, met: Faults, n: nat, end: nat)
    requires Tells(outcome, faults, n, end) && forall k: nat | n <= k :: met(k) == faults(k)
    ensures Tells(outcome, met, n, end)
  {
    if !outcome.Ok? {
      var k: nat :| n <= k < end && FineFrom(faults, n, k) && if outcome.Crashed? then faults(k).Crash? else faults(k).Fail?;
      assert FineFrom(met, n, k);
    }
  }

  datatype Call = Call(count: nat, faults: Faults)

  /** Successive opens, also by builds that know different numbers of migrations. */
  function Reopened(db: Db, calls: seq<Call>): Db
    decreases |calls|
  {
    if calls == [] then db else Reopened(Open(db, calls[0].count, calls[0].faults).db, calls[1..])
  }

  function MostKnown(calls: seq<Call>): nat {
    if calls == [] then 0 else Max(calls[0].count, MostKnown(calls[1..]))
  }

  lemma {:induction false} HistoryKeeps(db: Db, calls: seq<Call>)
    requires Consistent(db)
    ensures Consistent(Reopened(db, calls))
    ensures Version(db) <= Version(Reopened(db, calls)) <= Max(Version(db), MostKnown(calls))
    decreases |calls|
  {
    if calls != [] {
      OpenKeeps(db, calls[0].count, calls[0].faults);
      HistoryKeeps(Open(db, calls[0].count, calls[0].faults).db, calls[1..]);
    }
  }

  /** From a new file on: a migration is in effect exactly when the stored version has passed it, and then once. */
  lemma EveryHistoryIsExactlyOnce(calls: seq<Call>)
    ensures var db := Reopened(EMPTY_DB, calls);
            && db.applied == UpTo(Version(db))
            && (forall i: nat :: multiset(db.applied)[i] == if i < Version(db) then 1 else 0)
            && Version(db) <= MostKnown(calls)
  {
    HistoryKeeps(EMPTY_DB, calls);
    EachOnce(Version(Reopened(EMPTY_DB, calls)));
  }

  lemma {:induction false} EachOnce(n: nat)
    ensures forall i: nat :: multiset(UpTo(n))[i] == if i < n then 1 else 0
  {
    if n != 0 {
      EachOnce(n - 1);
      assert UpTo(n) == UpTo(n - 1) + [n - 1];
    }
  }

  // ---------------------------------------------------------------------
  // Opens in which nothing fails
  // ---------------------------------------------------------------------

  lemma {:induction false} MigrationsFinish(db: Db, i: nat, count: nat, faults: Faults, n: nat)
    requires forall k :: faults(k) == Fine
    ensures Migrations(db, i, count, faults, n).outcome == Ok
    decreases if i < count then count - i else 0
  {
    if i < count {
      MigrationsFinish(Migrated(db, i), i + 1, count, faults, n + 4);
    }
  }

  /** After any history, an open without failures completes the schema and the next changes nothing. */
  lemma CleanOpenCompletes(calls: seq<Call>, count: nat, faults: Faults, again: Faults)
    requires forall k :: faults(k) == Fine
    ensures var db := Reopened(EMPTY_DB, calls);
            var first := Open(db, count, faults);
            && first.outcome == Ok
            && Version(first.db) == Max(Version(db), count)
            && Open(first.db, count, again).db == first.db
  {
    HistoryKeeps(EMPTY_DB, calls);
    var db := Reopened(EMPTY_DB, calls);
    var seeded := if db.rows == [] then db.(hasTable := true, rows := [0]) else db.(hasTable := true);
    MigrationsFinish(seeded, Version(seeded), count, faults, 4);
    MigrationsKeep(seeded, Version(seeded), count, faults, 4);
    var first := Open(db, count, faults);
    assert first == Migrations(seeded, Version(seeded), count, faults, 4);
    assert first.db.(hasTable := true) == first.db;
  }
}
