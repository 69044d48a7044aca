/**
 Waiting for VMs: WaitForVMReady and WaitForAllVMsReady of internal/wait/wait.go.
 Times are counted from the start of a wait.
 */
module Readiness {
  import opened Collections
  import opened Options

  /** What one look at the VirtualMachineInstance yields; a client may also panic. */
  datatype Seen = Phase(running: bool) | NotCreated | GetFailed | Panics

  /** One turn of the polling loop: the context, the clock, the cluster, and the context during the pause. */
  datatype Turn = Turn(cancelled: bool, at: int, seen: Seen, interrupted: bool)

  type World = nat -> Turn

  /** The pause between two turns lasts at least the interval; there is none when it is not positive. */
  ghost predicate Ticks(world: World, interval: int) {
    world(0).at >= 0 && forall n: nat :: world(n).at + Max(0, interval) <= world(n + 1).at
  }

  /** The clock goes past the deadline at some time, as it does by itself when there are pauses. */
  ghost predicate Passes(world: World, timeout: int) {
    exists n: nat :: world(n).at > timeout
  }

  datatype WaitOutcome = Ready | Cancelled | TimedOut | GetError | Panicked

  /** What a turn decides; `None` when the loop goes round again. The deadline itself is still in time. */
  function Verdict(t: Turn, timeout: int): Option<WaitOutcome> {
    if t.cancelled then Some(Cancelled)
    else if t.at > timeout then Some(TimedOut)
    else match t.seen
      case GetFailed => Some(GetError)
      case Panics => Some(Panicked)
      case Phase(running) => if running then Some(Ready) else if t.interrupted then Some(Cancelled) else None
      case NotCreated => if t.interrupted then Some(Cancelled) else None
  }

  /** The turn found nothing wrong and the VM not there or not running yet, and its pause was not cut short. */
  predicate WaitsOn(t: Turn, timeout: int) {
    !t.cancelled && t.at <= timeout && (t.seen == NotCreated || t.seen == Phase(false)) && !t.interrupted
  }

  /** How a turn can end the wait. */
  predicate EndsAs(t: Turn, timeout: int, outcome: WaitOutcome) {
    match outcome
    case Ready => !t.cancelled && t.at <= timeout && t.seen == Phase(true)
    case GetError => !t.cancelled && t.at <= timeout && t.seen == GetFailed
    case Panicked => !t.cancelled && t.at <= timeout && t.seen == Panics
    case TimedOut => !t.cancelled && t.at > timeout
    case Cancelled =>
      t.cancelled || (t.at <= timeout && (t.seen == NotCreated || t.seen == Phase(false)) && t.interrupted)
  }

  /** What the loop decides in a turn is what the turn met. */
  lemma VerdictMeans(t: Turn, timeout: int)
    ensures Verdict(t, timeout).None? <==> WaitsOn(t, timeout)
    ensures forall outcome :: Verdict(t, timeout) == Some(outcome) <==> EndsAs(t, timeout, outcome)
  {
  }

  ghost predicate AllWaitOn(world: World, timeout: int, n: nat) {
    forall m: nat | m < n :: WaitsOn(world(m), timeout)
  }

  /** The outcome of the wait: that of the first turn that does not wait on. */
  ghost predicate IsVerdict(world: World, timeout: int, outcome: WaitOutcome) {
    exists n: nat :: EndsAs(world(n), timeout, outcome) && AllWaitOn(world, timeout, n)
  }

  /** Turns at most: those that can begin before the deadline has passed, and the one that finds it has. */
  function MaxPolls(timeout: int, interval: int): nat
    requires interval > 0
  {
    if timeout < 0 then 0 else timeout / interval + 1
  }

  lemma {:induction false} TimePasses(world: World, interval: int, n: nat)
    requires interval > 0 && Ticks(world, interval)
    ensures n * interval <= world(n).at
  {
    if n > 0 {
      TimePasses(world, interval, n - 1);
      assert world(n - 1).at + interval <= world(n).at;
      assert n * interval == (n - 1) * interval + interval;
    }
  }

  /** A turn that looks at the cluster is one of the first MaxPolls. */
  lemma LooksAreEarly(world: World, timeout: int, interval: int, n: nat)
    requires interval > 0 && Ticks(world, interval) && world(n).at <= timeout
    ensures n < MaxPolls(timeout, interval)
  {
    TimePasses(world, interval, n);
    var q := timeout / interval;
    assert timeout == q * interval + timeout % interval;
    assert q + 1 <= n ==> (q + 1) * interval <= n * interval;
  }

  lemma {:induction false} ClockIsMonotone(world: World, interval: int, m: nat, n: nat)
    requires Ticks(world, interval)
    ensures m <= n ==> world(m).at <= world(n).at
    decreases n
  {
    if m < n {
      ClockIsMonotone(world, interval, m, n - 1);
      assert world(n - 1).at + Max(0, interval) <= world(n).at;
    }
  }

  /** A bound on the looks at the cluster: known in advance when there are pauses, else left to the clock. */
  ghost function LookBound(world: World, timeout: int, interval: int): nat
    requires interval > 0 || Passes(world, timeout)
  {
    if interval > 0 then MaxPolls(timeout, interval)
    else
      var n: nat :| world(n).at > timeout;
      n
  }

  lemma LooksAreBounded(world: World, timeout: int, interval: int, n: nat)
    requires Ticks(world, interval) && (interval > 0 || Passes(world, timeout)) && world(n).at <= timeout
    ensures n < LookBound(world, timeout, interval)
  {
    if interval > 0 {
      LooksAreEarly(world, timeout, interval, n);
    } else {
      var last := LookBound(world, timeout, interval);
      ClockIsMonotone(world, interval, last, n);
    }
  }

  method WaitForVMReady(world: World, timeout: int, interval: int) returns (outcome: WaitOutcome, polls: nat)
    requires Ticks(world, interval) && (interval > 0 || Passes(world, timeout))
    ensures forall o :: o == outcome <==> IsVerdict(world, timeout, o)
    ensures interval > 0 ==> polls <= if timeout < 0 then 0 else timeout / interval + 1
    ensures polls > 0 ==> AllWaitOn(world, timeout, polls - 1)
    ensures outcome.Ready? <==> polls > 0 && world(polls - 1).seen == Phase(true)
    ensures outcome.Ready? ==> world(polls - 1).at <= timeout
  {
    hide LookBound, Passes, Ticks, IsVerdict;
    ghost var bound := LookBound(world, timeout, interval);
    assert interval > 0 ==> bound == MaxPolls(timeout, interval) by {
      BoundWithPauses(world, timeout, interval);
    }
    polls := 0;
    while true
      invariant AllWaitOn(world, timeout, polls)
      invariant polls <= bound
      decreases bound - polls
    {
      var turn := world(polls);
      if turn.cancelled {
        FirstEndDecides(world, timeout, polls, Cancelled);
        return Cancelled, polls;
      }
      if turn.at > timeout {
        FirstEndDecides(world, timeout, polls, TimedOut);
        return TimedOut, polls;
      }
      LooksAreBounded(world, timeout, interval, polls);
      polls := polls + 1;
      match turn.seen {
        case GetFailed =>
          FirstEndDecides(world, timeout, polls - 1, GetError);
          return GetError, polls;
        case Panics =>
          FirstEndDecides(world, timeout, polls - 1, Panicked);
          return Panicked, polls;
        case Phase(running) =>
          if running {
            FirstEndDecides(world, timeout, polls - 1, Ready);
            return Ready, polls;
          }
        case NotCreated =>
      }
      if turn.interrupted {
        FirstEndDecides(world, timeout, polls - 1, Cancelled);
        return Cancelled, polls;
      }
    }
  }

  lemma BoundWithPauses(world: World, timeout: int, interval: int)
    requires interval > 0 || Passes(world, timeout)
    ensures interval > 0 ==> LookBound(world, timeout, interval) == MaxPolls(timeout, interval)
  {
  }

  lemma VerdictIsUnique(world: World, timeout: int, o: WaitOutcome, o': WaitOutcome)
    requires IsVerdict(world, timeout, o) && IsVerdict(world, timeout, o')
    ensures o == o'
  {
    var n: nat :| EndsAs(world(n), timeout, o) && AllWaitOn(world, timeout, n);
    var n': nat :| EndsAs(world(n'), timeout, o') && AllWaitOn(world, timeout, n');
    assert n < n' ==> WaitsOn(world(n), timeout);
    assert n' < n ==> WaitsOn(world(n'), timeout);
  }

  lemma FirstEndDecides(world: World, timeout: int, n: nat, outcome: WaitOutcome)
    requires AllWaitOn(world, timeout, n) && EndsAs(world(n), timeout, outcome)
    ensures forall o :: o == outcome <==> IsVerdict(world, timeout, o)
  {
    hide AllWaitOn, EndsAs;
    assert IsVerdict(world, timeout, outcome);
    hide IsVerdict;
    forall o | IsVerdict(world, timeout, o) ensures o == outcome {
      VerdictIsUnique(world, timeout, o, outcome);
    }
  }

  // ---------------------------------------------------------------------
  // WaitForAllVMsReady
  // ---------------------------------------------------------------------

  /** A goroutine; after a panic the deferred function records it under the same lock. */
  datatype Goroutine = NotStarted | Polling(turn: nat) | Decided(outcome: WaitOutcome) | Locked(outcome: WaitOutcome)
                     | Recorded | Exited

  datatype Waits = Waits(names: seq<string>, worlds: nat -> World, timeout: int, interval: int)

  ghost predicate ValidWaits(w: Waits) {
    w.interval > 0 && forall i: nat :: Ticks(w.worlds(i), w.interval)
  }

  datatype WaitState = WaitState(goroutines: seq<Goroutine>, results: map<string, WaitOutcome>, holder: Option<nat>)

  datatype WaitStep = Start(i: nat) | Look(i: nat) | Lock(i: nat) | Record(i: nat) | Unlock(i: nat)

  predicate CanTake(w: Waits, st: WaitState, step: WaitStep) {
    && step.i < |st.goroutines| == |w.names|
    && var g := st.goroutines[step.i];
       match step
       case Start(i) => g.NotStarted? && forall j: nat | j < i :: !st.goroutines[j].NotStarted?
       case Look(_) => g.Polling?
       case Lock(_) => g.Decided? && st.holder.None?
       case Record(_) => g.Locked?
       case Unlock(_) => g.Recorded?
  }

  function Take(w: Waits, st: WaitState, step: WaitStep): WaitState
    requires CanTake(w, st, step)
  {
    var i := step.i;
    match step
    case Start(_) => st.(goroutines := st.goroutines[i := Polling(0)])
    case Look(_) =>
      var turn := st.goroutines[i].turn;
      var verdict := Verdict(w.worlds(i)(turn), w.timeout);
      st.(goroutines := st.goroutines[i := if verdict.Some? then Decided(verdict.value) else Polling(turn + 1)])
    case Lock(_) => st.(goroutines := st.goroutines[i := Locked(st.goroutines[i].outcome)], holder := Some(i))
    case Record(_) =>
      st.(goroutines := st.goroutines[i := Recorded], results := st.results[w.names[i] := st.goroutines[i].outcome])
    case Unlock(_) => st.(goroutines := st.goroutines[i := Exited], holder := None)
  }

  function AllNotStarted(n: nat): seq<Goroutine> { seq(n, _ => NotStarted) }

  function Begin(w: Waits): WaitState {
    WaitState(AllNotStarted(|w.names|), map[], None)
  }

  ghost predicate Leads(w: Waits, st: WaitState, steps: seq<WaitStep>, st': WaitState)
    decreases |steps|
  {
    if steps == [] then st == st' else CanTake(w, st, steps[0]) && Leads(w, Take(w, st, steps[0]), steps[1..], st')
  }

  predicate Finished(st: WaitState) {
    forall g <- st.goroutines :: g.Exited?
  }

  // ---------------------------------------------------------------------
  // The invariant
  // ---------------------------------------------------------------------

  predicate InSection(g: Goroutine) { g.Locked? || g.Recorded? }

  predicate Over(g: Goroutine) { g.Recorded? || g.Exited? }

  /** The lock is held by exactly the goroutine that is between Lock and Unlock. */
  predicate Exclusive(st: WaitState) {
    && (st.holder.Some? ==> st.holder.value < |st.goroutines|)
    && forall i: nat | i < |st.goroutines| :: InSection(st.goroutines[i]) <==> st.holder == Some(i)
  }

  ghost predicate OwnVerdict(w: Waits, i: nat, o: WaitOutcome) { IsVerdict(w.worlds(i), w.timeout, o) }

  /** A goroutine has seen no verdict so far, or carries its own. */
  ghost predicate Honest(w: Waits, i: nat, g: Goroutine) {
    match g
    case Polling(n) => AllWaitOn(w.worlds(i), w.timeout, n)
    case Decided(o) => OwnVerdict(w, i, o)
    case Locked(o) => OwnVerdict(w, i, o)
    case _ => true
  }

  ghost predicate AllHonest(w: Waits, st: WaitState) {
    forall i: nat | i < |st.goroutines| :: Honest(w, i, st.goroutines[i])
  }

  /** A goroutine has recorded this entry. */
  ghost predicate WrittenBy(w: Waits, st: WaitState, i: nat, name: string, o: WaitOutcome) {
    i < |st.goroutines| == |w.names| && w.names[i] == name && Over(st.goroutines[i]) && OwnVerdict(w, i, o)
  }

  /** There is an entry for every goroutine that is over, and each entry is some goroutine's own verdict. */
  ghost predicate ResultsTell(w: Waits, st: WaitState)
    requires |st.goroutines| == |w.names|
  {
    && (forall i: nat | i < |w.names| && Over(st.goroutines[i]) :: w.names[i] in st.results)
    && (forall name <- st.results :: exists i: nat :: WrittenBy(w, st, i, name, st.results[name]))
  }

  ghost predicate WaitInv(w: Waits, st: WaitState) {
    |st.goroutines| == |w.names| && Exclusive(st) && AllHonest(w, st) && ResultsTell(w, st)
  }

  lemma TakeKeepsHonest(w: Waits, st: WaitState, step: WaitStep)
    requires CanTake(w, st, step) && AllHonest(w, st)
    ensures AllHonest(w, Take(w, st, step))
  {
    var i, st' := step.i, Take(w, st, step);
    assert Honest(w, i, st.goroutines[i]);
    if step.Look? {
      VerdictMeans(w.worlds(i)(st.goroutines[i].turn), w.timeout);
    }
    assert Honest(w, i, st'.goroutines[i]);
    hide Honest;
  }

  /** What a step does to the goroutines that are over and to the results. */
  lemma TakeRecords(w: Waits, st: WaitState, step: WaitStep)
    requires CanTake(w, st, step)
    ensures var st' := Take(w, st, step);
            && |st'.goroutines| == |st.goroutines|
            && (forall j: nat | j < |w.names| :: Over(st'.goroutines[j])
                  <==> Over(st.goroutines[j]) || (step.Record? && j == step.i))
            && st'.results == if step.Record? then st.results[w.names[step.i] := st.goroutines[step.i].outcome]
                              else st.results
  {
    hide Verdict;
  }

  lemma TakeKeepsResults(w: Waits, st: WaitState, step: WaitStep)
    requires CanTake(w, st, step) && AllHonest(w, st) && ResultsTell(w, st)
    ensures |Take(w, st, step).goroutines| == |w.names| && ResultsTell(w, Take(w, st, step))
  {
    var i, st' := step.i, Take(w, st, step);
    TakeRecords(w, st, step);
    hide IsVerdict, OwnVerdict, Take, Over;
    assert step.Record? ==> Honest(w, i, st.goroutines[i]) && OwnVerdict(w, i, st.goroutines[i].outcome);
    forall name <- st'.results ensures exists j: nat :: WrittenBy(w, st', j, name, st'.results[name]) {
      if step.Record? && name == w.names[i] {
        assert WrittenBy(w, st', i, name, st'.results[name]);
      } else {
        var j: nat :| WrittenBy(w, st, j, name, st.results[name]);
        assert WrittenBy(w, st', j, name, st'.results[name]);
      }
    }
  }

  lemma TakeKeepsExclusive(w: Waits, st: WaitState, step: WaitStep)
    requires CanTake(w, st, step) && Exclusive(st)
    ensures Exclusive(Take(w, st, step))
  {
    hide Verdict;
    assert InSection(st.goroutines[step.i]) <==> st.holder == Some(step.i);
  }

  lemma TakeKeeps(w: Waits, st: WaitState, step: WaitStep)
    requires WaitInv(w, st) && CanTake(w, st, step)
    ensures WaitInv(w, Take(w, st, step))
  {
    TakeKeepsHonest(w, st, step);
    TakeKeepsResults(w, st, step);
    TakeKeepsExclusive(w, st, step);
    hide AllHonest, ResultsTell, Exclusive;
  }

  lemma {:induction false} StepsKeep(w: Waits, st: WaitState, steps: seq<WaitStep>, st': WaitState)
    requires WaitInv(w, st) && Leads(w, st, steps, st')
    ensures WaitInv(w, st')
    decreases |steps|
  {
    if steps != [] {
      TakeKeeps(w, st, steps[0]);
      StepsKeep(w, Take(w, st, steps[0]), steps[1..], st');
    }
  }

  predicate DistinctNames(w: Waits) {
    forall i, j | 0 <= i < j < |w.names| :: w.names[i] != w.names[j]
  }

  ghost predicate SomeVerdict(w: Waits, name: string, o: WaitOutcome) {
    exists i: nat :: i < |w.names| && w.names[i] == name && OwnVerdict(w, i, o)
  }

  lemma ResultsAreComplete(w: Waits, st: WaitState)
    requires |st.goroutines| == |w.names| && ResultsTell(w, st) && Finished(st)
    ensures forall name :: name in st.results <==> name in w.names
  {
    forall name | name in w.names ensures name in st.results {
      var i :| 0 <= i < |w.names| && w.names[i] == name;
      assert st.goroutines[i] in st.goroutines;
    }
  }

  lemma ResultsAreVerdicts(w: Waits, st: WaitState)
    requires |st.goroutines| == |w.names| && ResultsTell(w, st)
    ensures forall name <- st.results :: SomeVerdict(w, name, st.results[name])
    ensures DistinctNames(w) ==>
              forall i: nat | i < |w.names| && w.names[i] in st.results :: OwnVerdict(w, i, st.results[w.names[i]])
  {
    hide OwnVerdict;
    forall name <- st.results ensures SomeVerdict(w, name, st.results[name]) {
      var i: nat :| WrittenBy(w, st, i, name, st.results[name]);
    }
    if DistinctNames(w) {
      forall i: nat | i < |w.names| && w.names[i] in st.results ensures OwnVerdict(w, i, st.results[w.names[i]]) {
        var j: nat :| WrittenBy(w, st, j, w.names[i], st.results[w.names[i]]);
        assert j == i;
      }
    }
  }

  /**
   Once all goroutines have exited there is exactly one result per name, panics
   included, and for distinct names it is the outcome of that VM's own wait.
   */
  lemma EveryWaitIsReported(w: Waits, steps: seq<WaitStep>, st: WaitState)
    requires Leads(w, Begin(w), steps, st) && Finished(st)
    ensures forall name :: name in st.results <==> name in w.names
    ensures forall name <- st.results :: SomeVerdict(w, name, st.results[name])
    ensures DistinctNames(w) ==>
              forall i: nat | i < |w.names| :: w.names[i] in st.results
                && forall o :: OwnVerdict(w, i, o) <==> o == st.results[w.names[i]]
  {
    assert WaitInv(w, Begin(w));
    StepsKeep(w, Begin(w), steps, st);
    ResultsAreComplete(w, st);
    ResultsAreVerdicts(w, st);
    hide *;
    if DistinctNames(w) {
      forall i: nat | i < |w.names| ensures w.names[i] in st.results
      {
        assert w.names[i] in w.names;
      }
      forall i: nat, o | i < |w.names| ensures OwnVerdict(w, i, o) <==> o == st.results[w.names[i]] {
        if OwnVerdict(w, i, o) {
          OwnVerdictIsUnique(w, i, o, st.results[w.names[i]]);
        }
      }
    }
  }

  // ---------------------------------------------------------------------
  // Every interleaving comes to an end
  // ---------------------------------------------------------------------

  /** Steps that a goroutine still has before it. */
  function StepsLeft(w: Waits, g: Goroutine): nat
    requires w.interval > 0
  {
    var most := MaxPolls(w.timeout, w.interval);
    match g
    case NotStarted => most + 5
    case Polling(n) => if n <= most then most - n + 4 else 4
    case Decided(_) => 3
    case Locked(_) => 2
    case Recorded => 1
    case Exited => 0
  }

  function AllStepsLeft(w: Waits, gs: seq<Goroutine>): nat
    requires w.interval > 0
  {
    if gs == [] then 0 else StepsLeft(w, gs[0]) + AllStepsLeft(w, gs[1..])
  }

  lemma {:induction false} LeftAfter(w: Waits, gs: seq<Goroutine>, i: nat, g: Goroutine)
    requires w.interval > 0 && i < |gs|
    ensures AllStepsLeft(w, gs[i := g]) == AllStepsLeft(w, gs) - StepsLeft(w, gs[i]) + StepsLeft(w, g)
  {
    if i == 0 {
      assert gs[i := g][1..] == gs[1..];
    } else {
      assert gs[i := g][1..] == gs[1..][i - 1 := g];
      LeftAfter(w, gs[1..], i - 1, g);
    }
  }

  lemma TakeBringsOn(w: Waits, st: WaitState, step: WaitStep)
    requires ValidWaits(w) && CanTake(w, st, step)
    ensures AllStepsLeft(w, Take(w, st, step).goroutines) < AllStepsLeft(w, st.goroutines)
  {
    var i := step.i;
    var g, g' := st.goroutines[i], Take(w, st, step).goroutines[i];
    LeftAfter(w, st.goroutines, i, g');
    if step.Look? && g'.Polling? {
      LooksAreEarly(w.worlds(i), w.timeout, w.interval, g.turn);
    }
  }

  lemma {:induction false} StepsAreBounded(w: Waits, st: WaitState, steps: seq<WaitStep>, st': WaitState)
    requires ValidWaits(w) && Leads(w, st, steps, st')
    ensures |steps| + AllStepsLeft(w, st'.goroutines) <= AllStepsLeft(w, st.goroutines)
    decreases |steps|
  {
    if steps != [] {
      TakeBringsOn(w, st, steps[0]);
      StepsAreBounded(w, Take(w, st, steps[0]), steps[1..], st');
    }
  }

  lemma {:induction false} LeftAtBegin(w: Waits, n: nat)
    requires w.interval > 0
    ensures AllStepsLeft(w, AllNotStarted(n)) == n * (MaxPolls(w.timeout, w.interval) + 5)
  {
    if n > 0 {
      assert AllNotStarted(n)[1..] == AllNotStarted(n - 1);
      LeftAtBegin(w, n - 1);
    }
  }

  /** At most floor(timeout / interval) + 6 steps per VM, whatever the interleaving. */
  lemma EveryWaitEnds(w: Waits, steps: seq<WaitStep>, st: WaitState)
    requires ValidWaits(w) && Leads(w, Begin(w), steps, st)
    ensures |steps| <= |w.names| * (if w.timeout < 0 then 5 else w.timeout / w.interval + 6)
  {
    StepsAreBounded(w, Begin(w), steps, st);
    LeftAtBegin(w, |w.names|);
  }

  lemma FirstActive(gs: seq<Goroutine>) returns (i: nat)
    requires exists g <- gs :: !g.Exited?
    ensures i < |gs| && !gs[i].Exited? && forall j: nat | j < i :: gs[j].Exited?
  {
    i := 0;
    while gs[i].Exited?
      invariant i < |gs| && forall j: nat | j < i :: gs[j].Exited?
      invariant exists k: nat :: i <= k < |gs| && !gs[k].Exited?
      decreases |gs| - i
    {
      i := i + 1;
    }
  }

  lemma SomeStep(w: Waits, st: WaitState) returns (step: WaitStep)
    requires |st.goroutines| == |w.names| && Exclusive(st) && !Finished(st)
    ensures CanTake(w, st, step)
  {
    if st.holder.Some? {
      var i := st.holder.value;
      assert InSection(st.goroutines[i]);
      return if st.goroutines[i].Locked? then Record(i) else Unlock(i);
    }
    var i := FirstActive(st.goroutines);
    assert !InSection(st.goroutines[i]);
    match st.goroutines[i] {
      case NotStarted => step := Start(i);
      case Polling(_) => step := Look(i);
      case Decided(_) => step := Lock(i);
    }
  }

  /** Until all goroutines have exited, one of them can go on: nobody waits for the lock for ever. */
  lemma NeverDeadlocked(w: Waits, steps: seq<WaitStep>, st: WaitState) returns (step: WaitStep)
    requires Leads(w, Begin(w), steps, st) && !Finished(st)
    ensures CanTake(w, st, step)
  {
    assert WaitInv(w, Begin(w));
    StepsKeep(w, Begin(w), steps, st);
    hide Leads, AllHonest, ResultsTell, Exclusive, Finished, CanTake;
    step := SomeStep(w, st);
  }

  /** From every state that keeps the invariant all goroutines can be brought to their end. */
  lemma FinishWait(w: Waits, st: WaitState) returns (steps: seq<WaitStep>, end: WaitState)
    requires ValidWaits(w) && WaitInv(w, st)
    ensures Leads(w, st, steps, end) && Finished(end)
    decreases AllStepsLeft(w, st.goroutines)
  {
    if Finished(st) {
      return [], st;
    }
    var step := SomeStep(w, st);
    TakeKeeps(w, st, step);
    TakeBringsOn(w, st, step);
    hide WaitInv, Finished, AllStepsLeft, Take, CanTake, ValidWaits;
    var rest;
    rest, end := FinishWait(w, Take(w, st, step));
    steps := [step] + rest;
    assert steps[1..] == rest;
  }

  // ---------------------------------------------------------------------
  // What the results say
  // ---------------------------------------------------------------------

  predicate AllReady(results: map<string, WaitOutcome>) {
    forall name <- results :: results[name].Ready?
  }

  /** Some goroutine has seen the VM running, and before its deadline. */
  ghost predicate SeenRunning(w: Waits, vmName: string) {
    exists i: nat, n: nat :: i < |w.names| && w.names[i] == vmName
      && w.worlds(i)(n).seen == Phase(true) && w.worlds(i)(n).at <= w.timeout
  }

  lemma ReadyWasSeen(w: Waits, vmName: string, o: WaitOutcome)
    requires o.Ready?
    requires SomeVerdict(w, vmName, o)
    ensures SeenRunning(w, vmName)
  {
    var i: nat :| i < |w.names| && w.names[i] == vmName && OwnVerdict(w, i, o);
    var n: nat :| EndsAs(w.worlds(i)(n), w.timeout, o) && AllWaitOn(w.worlds(i), w.timeout, n);
    assert w.worlds(i)(n).seen == Phase(true) && w.worlds(i)(n).at <= w.timeout;
  }

  /** When all results are Ready, every VM has been seen running, whatever the interleaving. */
  lemma AllReadyWereSeen(w: Waits, steps: seq<WaitStep>, st: WaitState)
    requires Leads(w, Begin(w), steps, st) && Finished(st) && AllReady(st.results)
    ensures forall name <- w.names :: SeenRunning(w, name)
  {
    EveryWaitIsReported(w, steps, st);
    hide Leads, Finished, SomeVerdict, SeenRunning, OwnVerdict;
    forall name <- w.names ensures SeenRunning(w, name) {
      ReadyWasSeen(w, name, st.results[name]);
    }
  }

  predicate SeesRunning(t: Turn, timeout: int) {
    !t.cancelled && t.at <= timeout && t.seen == Phase(true)
  }

  /** The first turn of this wait that does not wait on sees the VM running, in time. */
  ghost predicate ComesUp(w: Waits, i: nat) {
    exists n: nat :: AllWaitOn(w.worlds(i), w.timeout, n) && SeesRunning(w.worlds(i)(n), w.timeout)
  }

  ghost predicate AllComeUp(w: Waits) {
    forall i: nat | i < |w.names| :: ComesUp(w, i)
  }

  lemma UpMeansReady(w: Waits, i: nat)
    ensures ComesUp(w, i) <==> OwnVerdict(w, i, Ready)
  {
    hide AllWaitOn;
    assert forall n: nat :: SeesRunning(w.worlds(i)(n), w.timeout) <==> EndsAs(w.worlds(i)(n), w.timeout, Ready);
  }

  /** When every VM comes up all results are Ready; for distinct names only then. */
  lemma ComingUpIsReady(w: Waits, steps: seq<WaitStep>, st: WaitState)
    requires Leads(w, Begin(w), steps, st) && Finished(st)
    ensures AllComeUp(w) ==> AllReady(st.results)
    ensures DistinctNames(w) && AllReady(st.results) ==> AllComeUp(w)
  {
    EveryWaitIsReported(w, steps, st);
    hide Leads, Finished, IsVerdict, OwnVerdict, DistinctNames, ComesUp;
    if AllComeUp(w) {
      forall name <- st.results ensures st.results[name].Ready? {
        var i: nat :| i < |w.names| && w.names[i] == name && OwnVerdict(w, i, st.results[name]);
        UpMeansReady(w, i);
        OwnVerdictIsUnique(w, i, Ready, st.results[name]);
      }
    }
    if DistinctNames(w) && AllReady(st.results) {
      forall i: nat | i < |w.names| ensures ComesUp(w, i) {
        assert OwnVerdict(w, i, st.results[w.names[i]]);
        UpMeansReady(w, i);
      }
    }
  }

  lemma OwnVerdictIsUnique(w: Waits, i: nat, o: WaitOutcome, o': WaitOutcome)
    requires OwnVerdict(w, i, o) && OwnVerdict(w, i, o')
    ensures o == o'
  {
    VerdictIsUnique(w.worlds(i), w.timeout, o, o');
  }
}
