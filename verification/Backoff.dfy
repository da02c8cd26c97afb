/**
 Requeue delays of classified API errors: the per-key failure counter, one reconcile pass around it, and
 what the delays are over whole runs of passes. Durations are whole seconds.
 */
module Backoff {
  import opened Options
  import opened Powers

  const THROTTLED_BACKOFF_BASE := 180
  const QUOTA_BACKOFF_BASE := 300
  const DELETE_THROTTLED_BACKOFF_BASE := 90
  const PERMISSION_BACKOFF := 1800
  const BACKOFF_MAX := 1800
  const DEFAULT_REQUEUE := 30

  /** The three classifications of an error are independent predicates on it. */
  datatype ApiError = ApiError(throttled: bool, quota: bool, denied: bool)

  /** How the failing branch turns its error into a result. */
  datatype Site =
    | Raw            // return the error itself
    | Tuned          // resultAfterError
    | TunedDelete    // resultAfterErrorForDelete
    | RequeueOnly    // requeueAfterForError with a nil error

  datatype Attempt = Finished(requeue: nat) | Failed(error: ApiError, site: Site)

  /** What the reconciler returns: an error, or the time to requeue after (zero: not at all). */
  datatype Result = Error | Requeue(after: nat)

  function Min(a: nat, b: nat): nat { if a < b then a else b }

  /** The delay of the `k`-th failure in a row: exponential, then capped; a first failure is never capped. */
  function DelayOf(base: nat, k: nat): nat
    requires k > 0
  {
    if k == 1 then base else Min(base * Pow2(k - 1), BACKOFF_MAX)
  }

  lemma DelayIsCappedIff(base: nat, k: nat)
    requires k > 0
    ensures DelayOf(base, k) == Min(base * Pow2(k - 1), BACKOFF_MAX) <==> base <= BACKOFF_MAX || k > 1
  {
  }

  /** Doubling past the cap stays past it. */
  lemma {:induction false} Pow2Monotone(base: nat, i: nat, j: nat)
    requires i <= j
    ensures base * Pow2(i) <= base * Pow2(j)
    decreases j
  {
    if i < j {
      Pow2Monotone(base, i, j - 1);
      assert base * Pow2(j) == 2 * (base * Pow2(j - 1));
    }
  }

  // ---------------------------------------------------------------- specification of one pass

  type Key = (string, string)   // namespace and name

  function FailuresIn(state: map<Key, nat>, key: Key): nat {
    if key in state then state[key] else 0
  }

  /** The base the failing branch doubles from, if it takes the exponential path. */
  function BaseOf(a: Attempt): Option<nat> {
    if a.Finished? || a.site == Raw then None
    else if a.error.throttled then
      Some(if a.site == TunedDelete then DELETE_THROTTLED_BACKOFF_BASE else THROTTLED_BACKOFF_BASE)
    else if a.error.quota then Some(QUOTA_BACKOFF_BASE)
    else None
  }

  /** Neither an exponential delay nor a returned error: the pass resets the counter. */
  predicate Resets(a: Attempt, closeFails: bool) {
    BaseOf(a) == None && ResultOf(a, 0, closeFails) != Error
  }

  function ResultOf(a: Attempt, failures: nat, closeFails: bool): Result {
    if closeFails then Error
    else if a.Finished? then Requeue(a.requeue)
    else if BaseOf(a).Some? then Requeue(DelayOf(BaseOf(a).value, failures + 1))
    else if a.site != Raw && a.error.denied then Requeue(PERMISSION_BACKOFF)
    else if a.site == RequeueOnly then Requeue(DEFAULT_REQUEUE)
    else Error
  }

  function CounterAfter(a: Attempt, failures: nat, closeFails: bool): nat {
    if BaseOf(a).Some? then failures + 1 else if Resets(a, closeFails) then 0 else failures
  }

  /** A spec change was coalesced into this pass: come back soon, unless the delay was tuned. */
  function Hurried(a: Attempt, r: Result, behind: bool): Result {
    if behind && r.Requeue? && BaseOf(a) == None && r.after != PERMISSION_BACKOFF then Requeue(DEFAULT_REQUEUE) else r
  }

  /** The answer to a failure the reconciler classifies, a spec change pending or not: doubling from its own base up to 30
      minutes, 30 minutes for a permission error, and otherwise an error, or the usual 30 seconds where errors are kept
      back. */
  function AfterFailure(e: ApiError, site: Site, failures: nat): Result
    requires site != Raw
  {
    if e.throttled then Requeue(Min((if site == TunedDelete then 90 else 180) * Pow2(failures), 1800))
    else if e.quota then Requeue(Min(300 * Pow2(failures), 1800))
    else if e.denied then Requeue(1800)
    else if site == RequeueOnly then Requeue(30)
    else Error
  }

  // ---------------------------------------------------------------- the code

  class BackoffTracker {
    var state: map<Key, nat>

    constructor ()
      ensures state == map[]
    {
      state := map[];
    }

    function Failures(key: Key): nat
      reads this
    {
      FailuresIn(state, key)
    }

    /**
     Counts one more failure and returns its delay. `peak` is the largest value the loop computed: with
     a base within the cap the doubling stays within twice the cap, so it cannot overflow.
     */
    method Delay(key: Key, base: nat) returns (delay: nat, ghost peak: nat)
      modifies this
      ensures state == old(state)[key := old(Failures(key)) + 1]
      ensures delay == DelayOf(base, old(Failures(key)) + 1)
      ensures base <= BACKOFF_MAX ==> delay <= BACKOFF_MAX && peak <= 2 * BACKOFF_MAX
    {
      var failures := (if key in state then state[key] else 0) + 1;
      state := state[key := failures];
      delay, peak := base, base;
      for i := 1 to failures
        invariant delay == base * Pow2(i - 1)
        invariant i > 1 ==> delay < BACKOFF_MAX
        invariant base <= BACKOFF_MAX ==> peak <= 2 * BACKOFF_MAX
      {
        delay := delay * 2;
        peak := if delay > peak then delay else peak;
        assert delay == base * Pow2(i);
        if delay >= BACKOFF_MAX {
          Pow2Monotone(base, i, failures - 1);
          return BACKOFF_MAX, peak;
        }
      }
    }

    method Reset(key: Key)
      modifies this
      ensures state == old(state) - {key}
    {
      state := state - {key};
    }

    method RequeueAfterForError(key: Key, e: ApiError) returns (after: nat)
      modifies this
      ensures e.throttled ==> after == Min(180 * Pow2(old(Failures(key))), 1800)
      ensures !e.throttled && e.quota ==> after == Min(300 * Pow2(old(Failures(key))), 1800)
      ensures !e.throttled && !e.quota ==> after == (if e.denied then 1800 else 30) && state == old(state)
      ensures e.throttled || e.quota ==> state == old(state)[key := old(Failures(key)) + 1]
      ensures ResultOf(Failed(e, RequeueOnly), old(Failures(key)), false) == Requeue(after)
      ensures state == if BaseOf(Failed(e, RequeueOnly)).Some? then old(state)[key := old(Failures(key)) + 1] else old(state)
    {
      ghost var peak;
      if e.throttled {
        after, peak := Delay(key, THROTTLED_BACKOFF_BASE);
      } else if e.quota {
        after, peak := Delay(key, QUOTA_BACKOFF_BASE);
      } else if e.denied {
        after := PERMISSION_BACKOFF;
      } else {
        after := DEFAULT_REQUEUE;
      }
    }

    method ResultAfterError(key: Key, e: ApiError) returns (r: Result)
      modifies this
      ensures e.throttled ==> r == Requeue(Min(180 * Pow2(old(Failures(key))), 1800))
      ensures !e.throttled && e.quota ==> r == Requeue(Min(300 * Pow2(old(Failures(key))), 1800))
      ensures !e.throttled && !e.quota ==> r == (if e.denied then Requeue(1800) else Error) && state == old(state)
      ensures r == ResultOf(Failed(e, Tuned), old(Failures(key)), false)
      ensures state == if BaseOf(Failed(e, Tuned)).Some? then old(state)[key := old(Failures(key)) + 1] else old(state)
    {
      if e.throttled || e.quota || e.denied {
        var after := RequeueAfterForError(key, e);
        return Requeue(after);
      }
      return Error;
    }

    method ResultAfterErrorForDelete(key: Key, e: ApiError) returns (r: Result)
      modifies this
      ensures e.throttled ==> r == Requeue(Min(90 * Pow2(old(Failures(key))), 1800))
      ensures !e.throttled && e.quota ==> r == Requeue(Min(300 * Pow2(old(Failures(key))), 1800))
      ensures !e.throttled && !e.quota ==> r == (if e.denied then Requeue(1800) else Error) && state == old(state)
      ensures r == ResultOf(Failed(e, TunedDelete), old(Failures(key)), false)
      ensures state == if BaseOf(Failed(e, TunedDelete)).Some? then old(state)[key := old(Failures(key)) + 1] else old(state)
    {
      if e.throttled {
        var after;
        ghost var peak;
        after, peak := Delay(key, DELETE_THROTTLED_BACKOFF_BASE);
        return Requeue(after);
      }
      r := ResultAfterError(key, e);
    }

    /** A reconcile pass: the attempt, the observed-generation check, the object patch, the deferred reset. */
    method Reconcile(key: Key, a: Attempt, behind: bool, closeFails: bool) returns (r: Result)
      modifies this
      ensures closeFails || (a.Failed? && a.site == Raw) ==> r == Error
      ensures !closeFails && a.Finished? ==> r == Requeue(if behind && a.requeue != 1800 then 30 else a.requeue)
      ensures !closeFails && a.Failed? && a.site != Raw ==> r == AfterFailure(a.error, a.site, old(Failures(key)))
      ensures Failures(key) == if a.Failed? && a.site != Raw && (a.error.throttled || a.error.quota) then old(Failures(key)) + 1
                               else if r == Error then old(Failures(key)) else 0
      ensures r == Hurried(a, ResultOf(a, old(Failures(key)), closeFails), behind)
      ensures Failures(key) == CounterAfter(a, old(Failures(key)), closeFails)
      ensures forall other :: other != key ==> FailuresIn(state, other) == FailuresIn(old(state), other)
    {
      var before := Failures(key);
      match a {
        case Finished(after) => r := Requeue(after);
        case Failed(_, Raw) => r := Error;
        case Failed(e, Tuned) => r := ResultAfterError(key, e);
        case Failed(e, TunedDelete) => r := ResultAfterErrorForDelete(key, e);
        case Failed(e, RequeueOnly) =>
          var after := RequeueAfterForError(key, e);
          r := Requeue(after);
      }
      if r.Requeue? {
        var classified := Failures(key) != before || r.after == PERMISSION_BACKOFF;
        if !classified && behind { r := Requeue(DEFAULT_REQUEUE); }
      }
      if closeFails && r.Requeue? { r := Error; }
      if r != Error && Failures(key) == before { Reset(key); }
    }
  }

  // ---------------------------------------------------------------- runs

  /** One pass of a run: which object, what happened, whether the spec moved on, whether the patch failed. */
  datatype Pass = Pass(key: Key, attempt: Attempt, behind: bool, closeFails: bool)

  function Counters(run: seq<Pass>): map<Key, nat> {
    if run == [] then map[]
    else
      var before := Counters(run[..|run| - 1]);
      var p := run[|run| - 1];
      before[p.key := CounterAfter(p.attempt, FailuresIn(before, p.key), p.closeFails)]
  }

  /** The throttle and quota passes of `key` in a stretch of a run. */
  function Backoffs(run: seq<Pass>, key: Key): nat {
    if run == [] then 0
    else (if run[0].key == key && BaseOf(run[0].attempt).Some? then 1 else 0) + Backoffs(run[1..], key)
  }

  predicate NoReset(run: seq<Pass>, key: Key) {
    forall p :: p in run && p.key == key ==> !Resets(p.attempt, p.closeFails)
  }

  predicate EndsClean(run: seq<Pass>, key: Key) {
    run == [] || (run[|run| - 1].key == key && Resets(run[|run| - 1].attempt, run[|run| - 1].closeFails))
  }

  /** `after` is what follows the key's last clean pass in `run`, or all of it when there was none. */
  predicate SinceClean(run: seq<Pass>, key: Key, after: seq<Pass>) {
    && |after| <= |run| && run[|run| - |after|..] == after
    && NoReset(after, key) && EndsClean(run[..|run| - |after|], key)
  }

  lemma {:induction false} BackoffsAppend(run: seq<Pass>, p: Pass, key: Key)
    ensures Backoffs(run + [p], key) == Backoffs(run, key) + Backoffs([p], key)
  {
    if run == [] {
      assert run + [p] == [p];
    } else {
      BackoffsAppend(run[1..], p, key);
      assert (run + [p])[1..] == run[1..] + [p];
    }
  }

  /** The counter is the number of throttle and quota passes of that key since its last clean pass. */
  lemma {:induction false} CounterCountsSinceClean(run: seq<Pass>, key: Key, after: seq<Pass>)
    requires SinceClean(run, key, after)
    ensures FailuresIn(Counters(run), key) == Backoffs(after, key)
  {
    hide Resets, CounterAfter, BaseOf;
    if after == [] {
      assert run[..|run|] == run;
      if run != [] { CleanPassClears(Counters(run[..|run| - 1]), run[|run| - 1]); }
    } else {
      var rest, p := after[..|after| - 1], run[|run| - 1];
      assert after == rest + [p] && p in after;
      assert run[..|run| - 1][..|run| - |after|] == run[..|run| - |after|];
      CounterCountsSinceClean(run[..|run| - 1], key, rest);
      BackoffsAppend(rest, p, key);
      OnePassCounts(Counters(run[..|run| - 1]), p, key);
    }
  }

  lemma CleanPassClears(before: map<Key, nat>, p: Pass)
    requires Resets(p.attempt, p.closeFails)
    ensures CounterAfter(p.attempt, FailuresIn(before, p.key), p.closeFails) == 0
  {
  }

  lemma OnePassCounts(before: map<Key, nat>, p: Pass, key: Key)
    requires p.key == key ==> !Resets(p.attempt, p.closeFails)
    ensures FailuresIn(before[p.key := CounterAfter(p.attempt, FailuresIn(before, p.key), p.closeFails)], key)
            == FailuresIn(before, key) + Backoffs([p], key)
  {
  }

  /**
   Over any run of passes on any keys: the next throttle or quota pass of `key`, whether or not a spec
   change is pending, waits exactly min(base * 2^(k-1), 30 minutes), with its own base, when it is the
   k-th such pass since the key's last clean pass.
   */
  lemma KthBackoffDelay(run: seq<Pass>, p: Pass, after: seq<Pass>)
    requires SinceClean(run, p.key, after)
    requires BaseOf(p.attempt).Some? && !p.closeFails
    ensures var k := Backoffs(after, p.key) + 1;
            var failures := FailuresIn(Counters(run), p.key);
            Hurried(p.attempt, ResultOf(p.attempt, failures, p.closeFails), p.behind)
              == Requeue(Min(BaseOf(p.attempt).value * Pow2(k - 1), BACKOFF_MAX))
  {
    CounterCountsSinceClean(run, p.key, after);
    DelayIsCappedIff(BaseOf(p.attempt).value, Backoffs(after, p.key) + 1);
  }

  /** Every run splits at its last clean pass, so the previous lemma speaks about every run. */
  lemma {:induction false} EveryRunHasASinceClean(run: seq<Pass>, key: Key) returns (after: seq<Pass>)
    ensures SinceClean(run, key, after)
  {
    hide Resets;
    if EndsClean(run, key) {
      after := [];
      assert run[..|run|] == run && run[|run|..] == [];
    } else {
      var init, p := run[..|run| - 1], run[|run| - 1];
      var rest := EveryRunHasASinceClean(init, key);
      after := rest + [p];
      assert run[..|run| - |after|] == init[..|init| - |rest|];
      assert run[|run| - |after|..] == init[|init| - |rest|..] + [p];
    }
  }

  /**
   A pass between two failures lets the next one start from its base again exactly when nothing was counted
   or the pass ends without an error: it finished, only requeues, or met a permission error, which parks the
   object for 30 minutes and clears the counter. A failed object patch never clears it.
   */
  lemma BackoffRestartsIff(run: seq<Pass>, between: Pass, p: Pass)
    requires between.key == p.key && BaseOf(between.attempt) == None
    requires BaseOf(p.attempt).Some? && !p.closeFails
    ensures var failures := FailuresIn(Counters(run + [between]), p.key);
            Hurried(p.attempt, ResultOf(p.attempt, failures, false), p.behind) == Requeue(BaseOf(p.attempt).value)
            <==> || FailuresIn(Counters(run), p.key) == 0
                 || (!between.closeFails
                     && (|| between.attempt.Finished? || between.attempt.site == RequeueOnly
                         || (between.attempt.site != Raw && between.attempt.error.denied)))
  {
  }
}
