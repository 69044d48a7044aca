/**
 Retries with exponential backoff: retryOnTransient, CreateVM and DeleteVM of
 internal/vm/vm.go, against a server that may apply a write and still report
 a transient error.
 */
module Retry {
  import opened Cluster

  const DEFAULT_MAX_RETRIES: nat := 5

  /** The write that is retried, and the reply that also counts as done. */
  datatype Write = CreateVM(vm: Object) | DeleteVM

  function Serve(w: Write, s: Store, key: Key, a: Attempt): Result {
    match w
    case CreateVM(vm) => ServeCreate(s, key, vm, a.fault)
    case DeleteVM => ServeRacedDelete(s, key, false, a.vanished, a.fault)
  }

  /** AlreadyExists on a create and NotFound on a delete are turned into success. */
  predicate Settles(w: Write, reply: Reply) {
    reply.Ok? || reply.error == if w.CreateVM? then AlreadyExists else NotFound
  }

  predicate IsTransient(e: ApiError) {
    e.Server? && e.error in {TooManyRequests, ServerTimeout, ServiceUnavailable, InternalError}
  }

  /** The intended effect of the write on the store. */
  function Effect(w: Write, s: Store, key: Key): Store {
    match w
    case CreateVM(vm) => if key in s then s else s[key := vm]
    case DeleteVM => s - {key}
  }

  datatype RetryOutcome = Succeeded | Cancelled | GaveUp(error: ApiError) | Exhausted(last: ApiError)

  /**
   What an attempt meets: a context found cancelled before it, another client
   deleting the VM, the fault of its own call, an interrupted backoff after it.
   */
  datatype Attempt = Attempt(cancelled: bool, vanished: bool, fault: Fault, interrupted: bool)

  datatype Retried = Retried(store: Store, outcome: RetryOutcome, replies: seq<Reply>, slept: nat)

  function Pow2(n: nat): nat { if n == 0 then 1 else 2 * Pow2(n - 1) }

  /** The pause after attempt `n`. */
  function Backoff(base: nat, n: nat): nat { base * Pow2(n) }

  lemma BackoffDoubles(base: nat, n: nat)
    ensures Backoff(base, n + 1) == Backoff(base, n) + Backoff(base, n)
  {
    assert base * (2 * Pow2(n)) == base * Pow2(n) + base * Pow2(n);
  }

  /** retryOnTransient from attempt `n` on; `slept` counts a backoff in full even when it is interrupted. */
  function Attempts(w: Write, s: Store, key: Key, script: nat -> Attempt, n: nat, maxRetries: nat, base: nat): Retried
    requires n <= maxRetries
    decreases maxRetries - n
  {
    var a := script(n);
    if a.cancelled then Retried(s, Cancelled, [], 0)
    else
      var r := Serve(w, s, key, a);
      if Settles(w, r.reply) then Retried(r.store, Succeeded, [r.reply], 0)
      else if !IsTransient(r.reply.error) then Retried(r.store, GaveUp(r.reply.error), [r.reply], 0)
      else if n == maxRetries then Retried(r.store, Exhausted(r.reply.error), [r.reply], 0)
      else if a.interrupted then Retried(r.store, Cancelled, [r.reply], Backoff(base, n))
      else Shifted([r.reply], Backoff(base, n), Attempts(w, r.store, key, script, n + 1, maxRetries, base))
  }

  function Shifted(replies: seq<Reply>, slept: nat, r: Retried): Retried {
    r.(replies := replies + r.replies, slept := slept + r.slept)
  }

  lemma AttemptsUnfold(w: Write, s: Store, key: Key, script: nat -> Attempt, n: nat, maxRetries: nat, base: nat)
    requires n <= maxRetries
    ensures var a := script(n);
            var r := Serve(w, s, key, a);
            Attempts(w, s, key, script, n, maxRetries, base) ==
            if a.cancelled then Retried(s, Cancelled, [], 0)
            else if Settles(w, r.reply) then Retried(r.store, Succeeded, [r.reply], 0)
            else if !IsTransient(r.reply.error) then Retried(r.store, GaveUp(r.reply.error), [r.reply], 0)
            else if n == maxRetries then Retried(r.store, Exhausted(r.reply.error), [r.reply], 0)
            else if a.interrupted then Retried(r.store, Cancelled, [r.reply], Backoff(base, n))
            else Shifted([r.reply], Backoff(base, n), Attempts(w, r.store, key, script, n + 1, maxRetries, base))
  {
  }

  predicate Retryable(w: Write, reply: Reply) {
    !Settles(w, reply) && IsTransient(reply.error)
  }

  /**
   However many attempts took effect on the server, the store is as before or as
   after one write, and success means the latter.
   */
  lemma {:induction false} AttemptsWriteOnce(w: Write, s: Store, key: Key, script: nat -> Attempt, n: nat,
                                             maxRetries: nat, base: nat)
    requires n <= maxRetries
    ensures var r := Attempts(w, s, key, script, n, maxRetries, base);
            && (r.store == s || r.store == Effect(w, s, key))
            && (r.outcome.Succeeded? ==> r.store == Effect(w, s, key))
    decreases maxRetries - n
  {
    var a := script(n);
    if !a.cancelled {
      var r := Serve(w, s, key, a);
      ServeIsEffectOrNothing(w, s, key, a);
      if Retryable(w, r.reply) && n < maxRetries && !a.interrupted {
        AttemptsWriteOnce(w, r.store, key, script, n + 1, maxRetries, base);
      }
    }
  }

  lemma ServeIsEffectOrNothing(w: Write, s: Store, key: Key, a: Attempt)
    ensures var r := Serve(w, s, key, a);
            && (r.store == s || r.store == Effect(w, s, key))
            && (Settles(w, r.reply) ==> r.store == Effect(w, s, key))
    ensures Effect(w, Effect(w, s, key), key) == Effect(w, s, key)
  {
    if w.DeleteVM? && key !in s {
      assert s - {key} == s;
    }
    assert s - {key} - {key} == s - {key};
  }

  /** The calls stop at the first reply that is not a transient error, and at maxRetries + 1. */
  lemma {:induction false} AttemptsStopInTime(w: Write, s: Store, key: Key, script: nat -> Attempt, n: nat,
                                              maxRetries: nat, base: nat)
    requires n <= maxRetries
    ensures var r := Attempts(w, s, key, script, n, maxRetries, base);
            && |r.replies| <= maxRetries + 1 - n
            && (forall i :: 0 <= i < |r.replies| - 1 ==> Retryable(w, r.replies[i]))
            && (r.outcome.Succeeded? <==> |r.replies| > 0 && Settles(w, r.replies[|r.replies| - 1]))
            && (r.outcome.Exhausted? ==> |r.replies| == maxRetries + 1 - n)
            && (r.outcome.GaveUp? ==> |r.replies| > 0 && !Settles(w, r.replies[|r.replies| - 1])
                                        && !IsTransient(r.replies[|r.replies| - 1].error))
    decreases maxRetries - n
  {
    AttemptsUnfold(w, s, key, script, n, maxRetries, base);
    var r := Serve(w, s, key, script(n));
    hide Attempts, Backoff, Serve, Settles, IsTransient;
    if n < maxRetries {
      AttemptsStopInTime(w, r.store, key, script, n + 1, maxRetries, base);
    }
  }

  /** The errors worth a retry. */
  predicate Transient(reply: Reply) {
    reply.Failed? && reply.error in {Server(TooManyRequests), Server(ServerTimeout), Server(ServiceUnavailable),
                                     Server(InternalError)}
  }

  /** Reply `i` of a retried write, against what its attempt met. */
  predicate Fits(w: Write, reply: Reply, a: Attempt, last: bool) {
    && !a.cancelled
    && (!a.fault.Delivered? ==> reply == Failed(Server(a.fault.error)))
    && (!last ==> Transient(reply) && !a.interrupted)
  }

  /** Every call fits what its attempt met, and all but the last are followed by another. */
  predicate CallsFit(w: Write, r: Retried, script: nat -> Attempt, n: nat) {
    forall i | 0 <= i < |r.replies| :: Fits(w, r.replies[i], script(n + i), i == |r.replies| - 1)
  }

  /** The outcome is what comes after the last call, if there was one. */
  predicate EndFits(w: Write, r: Retried, script: nat -> Attempt, n: nat, maxRetries: nat) {
    var m := |r.replies|;
    match r.outcome
    case Cancelled =>
      || (n + m <= maxRetries && script(n + m).cancelled
          && (m > 0 ==> Transient(r.replies[m - 1]) && !script(n + m - 1).interrupted))
      || (0 < m <= maxRetries - n && Transient(r.replies[m - 1]) && script(n + m - 1).interrupted)
    case Succeeded => m > 0 && Settles(w, r.replies[m - 1])
    case GaveUp(e) => m > 0 && r.replies[m - 1] == Failed(e) && !Transient(Failed(e)) && !Settles(w, Failed(e))
    case Exhausted(e) => 0 < m == maxRetries + 1 - n && r.replies[m - 1] == Failed(e) && Transient(Failed(e))
  }

  /** The number of pauses: one after each call that is followed by another or by a cancellation. */
  function Pauses(r: Retried): int {
    if r.outcome.Cancelled? then |r.replies| else |r.replies| - 1
  }

  lemma NoMoreCalls(w: Write, r: Retried, script: nat -> Attempt, n: nat)
    requires |r.replies| <= 1 && (r.replies != [] ==> Fits(w, r.replies[0], script(n), true))
    ensures CallsFit(w, r, script, n)
  {
    hide Fits;
    assert n + 0 == n;
  }

  lemma OneMoreCall(w: Write, reply: Reply, slept: nat, r: Retried, script: nat -> Attempt, n: nat, maxRetries: nat)
    requires n < maxRetries && CallsFit(w, r, script, n + 1) && EndFits(w, r, script, n + 1, maxRetries)
    requires Fits(w, reply, script(n), false) && Fits(w, reply, script(n), true)
    ensures var r' := Shifted([reply], slept, r);
            CallsFit(w, r', script, n) && EndFits(w, r', script, n, maxRetries) && Pauses(r') == Pauses(r) + 1
  {
    var r' := Shifted([reply], slept, r);
    assert Transient(reply) && !script(n).interrupted;
    hide Fits, Settles, Transient;
    forall i | 0 <= i < |r'.replies| ensures Fits(w, r'.replies[i], script(n + i), i == |r'.replies| - 1) {
      if i > 0 {
        assert r'.replies[i] == r.replies[i - 1] && script(n + i) == script(n + 1 + (i - 1));
      }
    }
    if |r.replies| > 0 {
      assert r'.replies[|r'.replies| - 1] == r.replies[|r.replies| - 1];
    }
  }

  /**
   Call by call: none is made once the context is found cancelled, and a call is
   followed by another exactly after a transient error, an undisturbed pause and
   attempts left.
   */
  lemma {:induction false} AttemptsFollowScript(w: Write, s: Store, key: Key, script: nat -> Attempt, n: nat,
                                                maxRetries: nat, base: nat)
    requires n <= maxRetries
    ensures var r := Attempts(w, s, key, script, n, maxRetries, base);
            CallsFit(w, r, script, n) && EndFits(w, r, script, n, maxRetries) && Pauses(r) >= 0
    decreases maxRetries - n
  {
    AttemptsUnfold(w, s, key, script, n, maxRetries, base);
    var r := Serve(w, s, key, script(n));
    ReplyFits(w, s, key, script(n));
    hide Attempts, Serve, Settles, IsTransient, Fits, Backoff, Transient, Pow2;
    if script(n).cancelled || !Transient(r.reply) || n == maxRetries || script(n).interrupted {
      NoMoreCalls(w, Attempts(w, s, key, script, n, maxRetries, base), script, n);
      hide CallsFit, Shifted;
    } else {
      AttemptsFollowScript(w, r.store, key, script, n + 1, maxRetries, base);
      var rest := Attempts(w, r.store, key, script, n + 1, maxRetries, base);
      hide CallsFit, EndFits;
      OneMoreCall(w, r.reply, Backoff(base, n), rest, script, n, maxRetries);
    }
  }

  /** The pauses double from base * 2^n on, without exception. */
  lemma {:induction false} AttemptsSleepExactly(w: Write, s: Store, key: Key, script: nat -> Attempt, n: nat,
                                                maxRetries: nat, base: nat)
    requires n <= maxRetries
    ensures var r := Attempts(w, s, key, script, n, maxRetries, base);
            Pauses(r) >= 0 && r.slept == base * Pow2(n + Pauses(r)) - base * Pow2(n)
    decreases maxRetries - n
  {
    AttemptsUnfold(w, s, key, script, n, maxRetries, base);
    assert Backoff(base, n) == base * Pow2(n);
    BackoffDoubles(base, n);
    hide Attempts, Serve, Settles, IsTransient;
    if n < maxRetries {
      AttemptsSleepExactly(w, Serve(w, s, key, script(n)).store, key, script, n + 1, maxRetries, base);
    }
  }

  lemma ReplyFits(w: Write, s: Store, key: Key, a: Attempt)
    ensures var reply := Serve(w, s, key, a).reply;
            && (!a.cancelled ==> Fits(w, reply, a, true))
            && (!Settles(w, reply) ==> reply.Failed?)
            && (reply.Failed? ==> (IsTransient(reply.error) <==> Transient(reply)))
            && (!a.cancelled && !a.interrupted && Transient(reply) ==> Fits(w, reply, a, false))
            && (Transient(reply) ==> !Settles(w, reply))
  {
  }

  /** From attempt `n` on the backoffs add up to at most base * (2^maxRetries - 2^n). */
  lemma {:induction false} AttemptsSleepBounded(w: Write, s: Store, key: Key, script: nat -> Attempt, n: nat,
                                                maxRetries: nat, base: nat)
    requires n <= maxRetries
    ensures Attempts(w, s, key, script, n, maxRetries, base).slept + Backoff(base, n) <= Backoff(base, maxRetries)
    decreases maxRetries - n
  {
    AttemptsUnfold(w, s, key, script, n, maxRetries, base);
    BackoffsGrow(n, maxRetries, base);
    hide Attempts, Backoff, Serve, Settles, IsTransient;
    if n < maxRetries {
      BackoffDoubles(base, n);
      BackoffsGrow(n + 1, maxRetries, base);
      AttemptsSleepBounded(w, Serve(w, s, key, script(n)).store, key, script, n + 1, maxRetries, base);
    }
  }

  lemma {:induction false} BackoffsGrow(m: nat, n: nat, base: nat)
    requires m <= n
    ensures Backoff(base, m) <= Backoff(base, n)
    decreases n
  {
    hide Backoff;
    if m < n {
      BackoffsGrow(m, n - 1, base);
      BackoffDoubles(base, n - 1);
    }
  }

  /** An undisturbed attempt within the limit ends the loop with success when only transient errors came before it. */
  lemma {:induction false} AttemptsReachSuccess(w: Write, s: Store, key: Key, script: nat -> Attempt, n: nat, good: nat,
                                                maxRetries: nat, base: nat)
    requires n <= good <= maxRetries
    requires script(good).fault == Delivered
    requires forall i | n <= i <= good :: !script(i).cancelled && !script(i).interrupted
    requires forall i | n <= i < good ::
               !script(i).fault.Delivered?
               && script(i).fault.error in {TooManyRequests, ServerTimeout, ServiceUnavailable, InternalError}
    ensures Attempts(w, s, key, script, n, maxRetries, base).outcome == Succeeded
    decreases good - n
  {
    if n < good {
      var r := Serve(w, s, key, script(n));
      AttemptsReachSuccess(w, r.store, key, script, n + 1, good, maxRetries, base);
    }
  }

  /** One VM write with retries; `script` is what the attempts meet. */
  method RetryOnTransient(api: ApiServer, w: Write, key: Key, script: nat -> Attempt, maxRetries: nat, base: nat)
    returns (outcome: RetryOutcome, ghost replies: seq<Reply>, slept: nat)
    modifies api
    ensures Retried(api.objects, outcome, replies, slept) == Attempts(w, old(api.objects), key, script, 0, maxRetries, base)
  {
    hide Backoff, IsTransient, Serve, Attempts;
    ghost var whole := Attempts(w, api.objects, key, script, 0, maxRetries, base);
    replies, slept := [], 0;
    var attempt := 0;
    while true
      invariant attempt <= maxRetries
      invariant whole == Shifted(replies, slept, Attempts(w, api.objects, key, script, attempt, maxRetries, base))
      decreases maxRetries - attempt
    {
      AttemptsUnfold(w, api.objects, key, script, attempt, maxRetries, base);
      if script(attempt).cancelled {
        return Cancelled, replies, slept;
      }
      var reply := CallOnce(api, w, key, script(attempt));
      replies := replies + [reply];
      if Settles(w, reply) {
        return Succeeded, replies, slept;
      }
      if !IsTransient(reply.error) {
        return GaveUp(reply.error), replies, slept;
      }
      if attempt == maxRetries {
        return Exhausted(reply.error), replies, slept;
      }
      slept := slept + Backoff(base, attempt);
      if script(attempt).interrupted {
        return Cancelled, replies, slept;
      }
      attempt := attempt + 1;
    }
  }

  method CallOnce(api: ApiServer, w: Write, key: Key, a: Attempt) returns (reply: Reply)
    modifies api
    ensures Result(api.objects, reply) == Serve(w, old(api.objects), key, a)
  {
    if w.CreateVM? {
      reply := api.Create(key, w.vm, a.fault);
    } else {
      reply := api.Delete(key, false, a.vanished, a.fault);
    }
  }

  /** vm.CreateVM: five retries, and a VM that already exists is left as it is. */
  method Create(api: ApiServer, key: Key, vm: Object, script: nat -> Attempt, base: nat)
    returns (outcome: RetryOutcome, ghost replies: seq<Reply>, slept: nat)
    modifies api
    ensures api.objects == old(api.objects) || (key !in old(api.objects) && api.objects == old(api.objects)[key := vm])
    ensures outcome.Succeeded? ==> key in api.objects
    ensures |replies| <= 6 && slept <= 31 * base
    ensures forall i :: 0 <= i < |replies| - 1 ==> Retryable(CreateVM(vm), replies[i])
  {
    CreateFacts(api.objects, key, vm, script, base);
    hide Attempts;
    outcome, replies, slept := RetryOnTransient(api, CreateVM(vm), key, script, DEFAULT_MAX_RETRIES, base);
  }

  lemma CreateFacts(s: Store, key: Key, vm: Object, script: nat -> Attempt, base: nat)
    ensures var r := Attempts(CreateVM(vm), s, key, script, 0, DEFAULT_MAX_RETRIES, base);
            && (r.store == s || (key !in s && r.store == s[key := vm]))
            && (r.outcome.Succeeded? ==> key in r.store)
            && |r.replies| <= DEFAULT_MAX_RETRIES + 1 && r.slept <= 31 * base
            && (forall i :: 0 <= i < |r.replies| - 1 ==> Retryable(CreateVM(vm), r.replies[i]))
  {
    var w := CreateVM(vm);
    AttemptsWriteOnce(w, s, key, script, 0, DEFAULT_MAX_RETRIES, base);
    AttemptsStopInTime(w, s, key, script, 0, DEFAULT_MAX_RETRIES, base);
    AttemptsSleepBounded(w, s, key, script, 0, DEFAULT_MAX_RETRIES, base);
    FirstAndLastBackoff(base);
    hide Attempts, Backoff;
  }

  lemma FirstAndLastBackoff(base: nat)
    ensures Backoff(base, 0) == base && Backoff(base, DEFAULT_MAX_RETRIES) == 32 * base
  {
    assert Pow2(3) == 8 && Pow2(DEFAULT_MAX_RETRIES) == 32;
  }
}
