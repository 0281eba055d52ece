/** `WithRetry` (pkg/consumer/consumer.go:159-186) over arbitrary handlers, so that a retried
    handler can itself be retried. */
module Retry {
  import opened Optional
  import opened Errors
  import opened Backoff

  /** What the run has done so far: the result of every call of the innermost handler, the
      waits that elapsed (by policy and retry number), and the number of `select` statements executed. */
  datatype World = World(log: seq<Error>, waits: seq<Wait>, selects: nat)

  /** One elapsed `time.After(policy.Delay(attempt))`. */
  datatype Wait = Wait(policy: RetryPolicy, attempt: nat)

  type Handler = World -> (Error, World)

  /** The environment: the k-th call of the innermost handler returns `outcome(k)`, and the k-th
      select takes its `ctx.Done()` branch when `cancelled(k)`. */
  datatype Env = Env(outcome: nat -> Error, cancelled: nat -> bool, ctxErr: Error)

  ghost predicate NeverCancelled(env: Env) { forall k: nat :: !env.cancelled(k) }

  function Innermost(env: Env): Handler {
    (w: World) => (env.outcome(|w.log|), w.(log := w.log + [env.outcome(|w.log|)]))
  }

  function PolicyOrDefault(policy: Option<RetryPolicy>): (p: RetryPolicy)
    ensures policy == Some(p) || (policy.None? && p == RetryPolicy(3, 100_000_000, 30_000_000_000, 2.0))
  {
    if policy.None? then DEFAULT_POLICY else policy.value
  }

  /** The rest of the run from `attempt` on. */
  function RetryFrom(env: Env, h: Handler, p: RetryPolicy, w: World, attempt: nat, lastErr: Error): (Error, World)
    decreases p.maxRetries + 1 - attempt
  {
    if attempt > p.maxRetries then (lastErr, w)
    else if attempt > 0 && env.cancelled(w.selects) then (env.ctxErr, w.(selects := w.selects + 1))
    else
      var (e, w2) := h(AfterWait(p, w, attempt));
      if e.Nil? then (Nil, w2)
      else if !IsRetryableError(e) && !ShouldRetry(p, attempt + 1) then (e, w2)
      else RetryFrom(env, h, p, w2, attempt + 1, e)
  }

  function AfterWait(p: RetryPolicy, w: World, attempt: nat): World {
    if attempt == 0 then w
    else w.(selects := w.selects + 1, waits := w.waits + [Wait(p, attempt - 1)])
  }

  function Retried(env: Env, h: Handler, p: RetryPolicy): Handler {
    (w: World) => RetryFrom(env, h, p, w, 0, Nil)
  }

  /** The handler `WithRetry(h, policy)` returns, as its loop. */
  method WithRetry(env: Env, h: Handler, policy: Option<RetryPolicy>, w0: World) returns (err: Error, w: World)
    ensures (err, w) == Retried(env, h, PolicyOrDefault(policy))(w0)
  {
    var p := PolicyOrDefault(policy);
    var lastErr := Nil;
    var attempt := 0;
    w := w0;
    while attempt <= p.maxRetries
      invariant attempt >= 0
      invariant RetryFrom(env, h, p, w, attempt, lastErr) == RetryFrom(env, h, p, w0, 0, Nil)
      decreases p.maxRetries + 1 - attempt
    {
      if attempt > 0 {
        var done := env.cancelled(w.selects);
        w := w.(selects := w.selects + 1);
        if done {
          return env.ctxErr, w;
        }
        w := w.(waits := w.waits + [Wait(p, attempt - 1)]);
      }
      var result := h(w);
      w := result.1;
      if result.0.Nil? {
        return Nil, w;
      }
      lastErr := result.0;
      if !IsRetryableError(result.0) && !ShouldRetry(p, attempt + 1) {
        return result.0, w;
      }
      attempt := attempt + 1;
    }
    err := lastErr;
  }

  // --------------------------------------------------- one level, exact count

  /** Attempt `a`, whose handler result is `e`, is the last one. */
  predicate IsLast(p: RetryPolicy, a: nat, e: Error) {
    e.Nil? || (!IsRetryableError(e) && a + 1 >= p.maxRetries) || a == p.maxRetries
  }

  predicate LastAt(env: Env, p: RetryPolicy, start: nat, first: nat, i: nat) {
    IsLast(p, first + i, env.outcome(start + i))
  }

  /** `calls` attempts, starting at log position `start`, are what the specification asks for:
      the last one stops the run and none before it does. */
  ghost predicate StopsAfter(env: Env, p: RetryPolicy, start: nat, first: nat, calls: nat) {
    && calls >= 1
    && first + calls <= p.maxRetries + 1
    && LastAt(env, p, start, first, calls - 1)
    && forall i :: 0 <= i < calls - 1 ==> !LastAt(env, p, start, first, i)
  }

  /** The results of `n` calls starting at log position `start`. */
  function Results(env: Env, start: nat, n: nat): (r: seq<Error>)
    ensures |r| == n && forall i :: 0 <= i < n ==> r[i] == env.outcome(start + i)
    decreases n
  {
    if n == 0 then [] else [env.outcome(start)] + Results(env, start + 1, n - 1)
  }

  /** The waits for the retries `from` .. `from + n - 1`. */
  function Delays(p: RetryPolicy, from: nat, n: nat): (r: seq<Wait>)
    ensures |r| == n && forall i :: 0 <= i < n ==> r[i] == Wait(p, from + i)
    decreases n
  {
    if n == 0 then [] else [Wait(p, from)] + Delays(p, from + 1, n - 1)
  }

  /** The waits of attempts first .. first + calls - 1; there is none before attempt 0. */
  function Waits(p: RetryPolicy, first: nat, calls: nat): seq<Wait>
    requires calls >= 1
  {
    if first == 0 then Delays(p, 0, calls - 1) else Delays(p, first - 1, calls)
  }

  /** One attempt without cancellation: it is the last, or the run goes on. */
  lemma AttemptStep(env: Env, p: RetryPolicy, w: World, attempt: nat, lastErr: Error) returns (w2: World)
    requires NeverCancelled(env) && attempt <= p.maxRetries
    ensures w2.log == w.log + [env.outcome(|w.log|)]
    ensures w2.waits == if attempt == 0 then w.waits else w.waits + [Wait(p, attempt - 1)]
    ensures var e := env.outcome(|w.log|);
            RetryFrom(env, Innermost(env), p, w, attempt, lastErr)
            == if IsLast(p, attempt, e) then (e, w2) else RetryFrom(env, Innermost(env), p, w2, attempt + 1, e)
  {
    w2 := Innermost(env)(AfterWait(p, w, attempt)).1;
    var e := env.outcome(|w.log|);
    if attempt == p.maxRetries {
      assert RetryFrom(env, Innermost(env), p, w2, attempt + 1, e) == (e, w2);
    }
  }

  /** What `calls` attempts from `attempt` on amount to. */
  ghost predicate RunIs(env: Env, p: RetryPolicy, w: World, attempt: nat, calls: nat, r: (Error, World)) {
    && calls >= 1 && StopsAfter(env, p, |w.log|, attempt, calls)
    && r.0 == env.outcome(|w.log| + calls - 1)
    && r.1.log == w.log + Results(env, |w.log|, calls)
    && r.1.waits == w.waits + Waits(p, attempt, calls)
  }

  lemma {:induction false} RetryFromExact(env: Env, p: RetryPolicy, w: World, attempt: nat, lastErr: Error)
    returns (calls: nat)
    requires NeverCancelled(env) && attempt <= p.maxRetries
    ensures RunIs(env, p, w, attempt, calls, RetryFrom(env, Innermost(env), p, w, attempt, lastErr))
    decreases p.maxRetries - attempt
  {
    var e := env.outcome(|w.log|);
    var w2 := AttemptStep(env, p, w, attempt, lastErr);
    hide RetryFrom, RunIs, Innermost;
    if IsLast(p, attempt, e) {
      calls := 1;
      OneCall(env, p, w, attempt, w2);
    } else {
      var more := RetryFromExact(env, p, w2, attempt + 1, e);
      calls := more + 1;
      OneMoreCall(env, p, w, attempt, w2, more, RetryFrom(env, Innermost(env), p, w2, attempt + 1, e));
    }
  }

  lemma OneCall(env: Env, p: RetryPolicy, w: World, attempt: nat, w2: World)
    requires attempt <= p.maxRetries && IsLast(p, attempt, env.outcome(|w.log|))
    requires w2.log == w.log + [env.outcome(|w.log|)]
    requires w2.waits == if attempt == 0 then w.waits else w.waits + [Wait(p, attempt - 1)]
    ensures RunIs(env, p, w, attempt, 1, (env.outcome(|w.log|), w2))
  {
    assert LastAt(env, p, |w.log|, attempt, 0);
  }

  lemma OneMoreCall(env: Env, p: RetryPolicy, w: World, attempt: nat, w2: World, more: nat, r: (Error, World))
    requires attempt <= p.maxRetries && !IsLast(p, attempt, env.outcome(|w.log|))
    requires w2.log == w.log + [env.outcome(|w.log|)]
    requires w2.waits == if attempt == 0 then w.waits else w.waits + [Wait(p, attempt - 1)]
    requires RunIs(env, p, w2, attempt + 1, more, r)
    ensures RunIs(env, p, w, attempt, more + 1, r)
  {
    assert !LastAt(env, p, |w.log|, attempt, 0);
    hide LastAt, IsLast, StopsAfter, Results, Waits;
    StopsAfterShift(env, p, |w.log|, attempt, more);
    ResultsShift(env, p, |w.log|, attempt, more);
    assert |w2.log| + more - 1 == |w.log| + more;
  }

  lemma StopsAfterShift(env: Env, p: RetryPolicy, start: nat, first: nat, more: nat)
    requires !LastAt(env, p, start, first, 0) && StopsAfter(env, p, start + 1, first + 1, more)
    ensures StopsAfter(env, p, start, first, more + 1)
  {
    hide IsLast;
    forall i | 0 <= i < more ensures !LastAt(env, p, start, first, i) {
      if i > 0 {
        assert !LastAt(env, p, start + 1, first + 1, i - 1);
      }
    }
    assert LastAt(env, p, start + 1, first + 1, more - 1);
  }

  lemma ResultsShift(env: Env, p: RetryPolicy, start: nat, first: nat, more: nat)
    requires more >= 1
    ensures Results(env, start, more + 1) == [env.outcome(start)] + Results(env, start + 1, more)
    ensures Waits(p, first, more + 1) == (if first == 0 then [] else [Wait(p, first - 1)]) + Waits(p, first + 1, more)
  {
  }

  /** The exact behaviour of one retry level: the first attempt that succeeds, is permanent with no
      retry left, or is attempt maxRetries, ends the run and supplies its result. */
  lemma RetryExact(env: Env, p: RetryPolicy, w: World) returns (calls: nat)
    requires NeverCancelled(env) && p.maxRetries >= 0
    ensures StopsAfter(env, p, |w.log|, 0, calls)
    ensures var (e, w') := Retried(env, Innermost(env), p)(w);
            && e == env.outcome(|w.log| + calls - 1)
            && w'.log == w.log + Results(env, |w.log|, calls)
            && w'.waits == w.waits + Delays(p, 0, calls - 1)
  {
    calls := RetryFromExact(env, p, w, 0, Nil);
  }

  /** `StopsAfter` determines the count, so `RetryExact` leaves no freedom. */
  lemma StopsAfterUnique(env: Env, p: RetryPolicy, start: nat, first: nat, c1: nat, c2: nat)
    requires StopsAfter(env, p, start, first, c1) && StopsAfter(env, p, start, first, c2)
    ensures c1 == c2
  {
  }

  // --------------------------------------- any handler, any depth of nesting

  /** The innermost handler was called at least once, and the result is the last one it gave - or the
      context's error, when the context was cancelled at some point. */
  ghost predicate Relays(env: Env, w: World, r: (Error, World)) {
    && w.log <= r.1.log && |w.log| < |r.1.log|
    && (r.0 == r.1.log[|r.1.log| - 1] || (r.0 == env.ctxErr && !NeverCancelled(env)))
  }

  ghost predicate RelaysWithin(env: Env, h: Handler, most: nat) {
    forall w: World :: Relays(env, w, h(w)) && |h(w).1.log| <= |w.log| + most
  }

  lemma {:induction false} RetryFromRelays(env: Env, h: Handler, p: RetryPolicy, w: World, attempt: nat,
                                            lastErr: Error, most: nat)
    requires RelaysWithin(env, h, most) && attempt <= p.maxRetries
    requires attempt > 0 ==> w.log != [] && Reported(env, w, lastErr)
    ensures var r := RetryFrom(env, h, p, w, attempt, lastErr);
            && w.log <= r.1.log && r.1.log != [] && Reported(env, r.1, r.0)
            && (attempt == 0 ==> |w.log| < |r.1.log|)
            && |r.1.log| <= |w.log| + (p.maxRetries + 1 - attempt) * most
    decreases p.maxRetries - attempt
  {
    var left := p.maxRetries - attempt;
    assert (left + 1) * most == left * most + most;
    assert left * most >= 0;
    if attempt == 0 || !env.cancelled(w.selects) {
      var w1 := AfterWait(p, w, attempt);
      var (e, w2) := h(w1);
      assert Relays(env, w1, h(w1)) && |w2.log| <= |w.log| + most;
      if attempt < p.maxRetries {
        RetryFromRelays(env, h, p, w2, attempt + 1, e, most);
      } else {
        assert RetryFrom(env, h, p, w2, attempt + 1, e) == (e, w2);
      }
    }
  }

  /** `e` is what a handler relays after the calls of `w`. */
  ghost predicate Reported(env: Env, w: World, e: Error)
    requires w.log != []
  {
    e == w.log[|w.log| - 1] || (e == env.ctxErr && !NeverCancelled(env))
  }

  /** One level of retrying, cancelled or not. */
  lemma RetriedRelays(env: Env, h: Handler, p: RetryPolicy, most: nat)
    requires RelaysWithin(env, h, most) && p.maxRetries >= 0
    ensures RelaysWithin(env, Retried(env, h, p), (p.maxRetries + 1) * most)
  {
    forall w: World
      ensures Relays(env, w, Retried(env, h, p)(w))
      ensures |Retried(env, h, p)(w).1.log| <= |w.log| + (p.maxRetries + 1) * most
    {
      RetryFromRelays(env, h, p, w, 0, Nil, most);
    }
  }

  /** WithRetry(... WithRetry(h, ps[last]) ..., ps[0]). */
  function Nest(env: Env, ps: seq<RetryPolicy>): Handler {
    if ps == [] then Innermost(env) else Retried(env, Nest(env, ps[1..]), ps[0])
  }

  ghost predicate LimitsNonNegative(ps: seq<RetryPolicy>) {
    forall i :: 0 <= i < |ps| ==> ps[i].maxRetries >= 0
  }

  function CallLimit(ps: seq<RetryPolicy>): nat
    requires forall i :: 0 <= i < |ps| ==> ps[i].maxRetries >= 0
  {
    if ps == [] then 1 else (ps[0].maxRetries + 1) * CallLimit(ps[1..])
  }

  /** Nested retries multiply: at most the product of the (limit + 1), whatever the outcomes and
      whenever the context is cancelled; the nest returns what the innermost handler's final call
      returned, or the context's error if there was a cancellation. */
  lemma {:induction false} NestedRetriesMultiply(env: Env, ps: seq<RetryPolicy>)
    requires LimitsNonNegative(ps)
    ensures RelaysWithin(env, Nest(env, ps), CallLimit(ps))
  {
    if ps == [] {
      assert forall w: World :: Relays(env, w, Innermost(env)(w));
    } else {
      NestedRetriesMultiply(env, ps[1..]);
      RetriedRelays(env, Nest(env, ps[1..]), ps[0], CallLimit(ps[1..]));
    }
  }

  /** So a nest that reports success had a successful final call, cancelled or not; and without
      cancellation it reports success exactly then. */
  lemma NestedNilMeansSuccess(env: Env, ps: seq<RetryPolicy>, w: World)
    requires LimitsNonNegative(ps) && !env.ctxErr.Nil?
    ensures var r := Nest(env, ps)(w);
            && r.1.log != []
            && (r.0.Nil? ==> r.1.log[|r.1.log| - 1].Nil?)
            && (NeverCancelled(env) ==> (r.0.Nil? <==> r.1.log[|r.1.log| - 1].Nil?))
  {
    NestedRetriesMultiply(env, ps);
    assert Relays(env, w, Nest(env, ps)(w));
  }

  /** Calls made when no call ever succeeds and all errors are classified alike. */
  function ExactCalls(p: RetryPolicy, retryable: bool): nat
    requires p.maxRetries >= 0
  {
    if retryable then p.maxRetries + 1 else if p.maxRetries == 0 then 1 else p.maxRetries
  }

  ghost predicate FailsAlike(h: Handler, calls: nat, retryable: bool) {
    forall w: World ::
      && |h(w).1.log| == |w.log| + calls
      && !h(w).0.Nil? && IsRetryableError(h(w).0) == retryable
  }

  lemma {:induction false} RetryFromFailsAlike(env: Env, h: Handler, p: RetryPolicy, w: World, attempt: nat,
                                                lastErr: Error, calls: nat, retryable: bool)
    requires NeverCancelled(env) && FailsAlike(h, calls, retryable)
    requires p.maxRetries >= 0 && attempt < ExactCalls(p, retryable)
    ensures var r := RetryFrom(env, h, p, w, attempt, lastErr);
            && |r.1.log| == |w.log| + (ExactCalls(p, retryable) - attempt) * calls
            && !r.0.Nil? && IsRetryableError(r.0) == retryable
    decreases p.maxRetries - attempt
  {
    var w1 := AfterWait(p, w, attempt);
    var (e, w2) := h(w1);
    assert |h(w1).1.log| == |w1.log| + calls;
    var left := ExactCalls(p, retryable) - attempt - 1;
    assert (left + 1) * calls == left * calls + calls;
    if attempt + 1 < ExactCalls(p, retryable) {
      RetryFromFailsAlike(env, h, p, w2, attempt + 1, e, calls, retryable);
    } else if retryable {
      assert RetryFrom(env, h, p, w2, attempt + 1, e) == (e, w2);
    }
  }

  function ExactProduct(ps: seq<RetryPolicy>, retryable: bool): nat
    requires forall i :: 0 <= i < |ps| ==> ps[i].maxRetries >= 0
  {
    if ps == [] then 1 else ExactCalls(ps[0], retryable) * ExactProduct(ps[1..], retryable)
  }

  /** The bound is reached: when every call fails with a retryable error the nest makes exactly
      the product of (limit + 1) calls, and with permanent errors the product of max(1, limit). */
  lemma {:induction false} NestedRetriesExact(env: Env, ps: seq<RetryPolicy>, retryable: bool)
    requires NeverCancelled(env) && LimitsNonNegative(ps)
    requires forall k: nat :: !env.outcome(k).Nil? && IsRetryableError(env.outcome(k)) == retryable
    ensures FailsAlike(Nest(env, ps), ExactProduct(ps, retryable), retryable)
    ensures retryable ==> ExactProduct(ps, retryable) == CallLimit(ps)
  {
    if ps != [] {
      NestedRetriesExact(env, ps[1..], retryable);
      var inner, n := Nest(env, ps[1..]), ExactProduct(ps[1..], retryable);
      forall w: World
        ensures var r := Nest(env, ps)(w);
                && |r.1.log| == |w.log| + ExactProduct(ps, retryable)
                && !r.0.Nil? && IsRetryableError(r.0) == retryable
      {
        RetryFromFailsAlike(env, inner, ps[0], w, 0, Nil, n, retryable);
      }
    }
  }

  // ------------------------------------------------- limits and cancellation

  /** The wrapped handler runs at all exactly when the limit is not negative; with a negative
      limit the message is reported as handled without any call. */
  lemma HandlerRunsIffLimitNonNegative(env: Env, h: Handler, p: RetryPolicy, most: nat, w: World)
    requires RelaysWithin(env, h, most)
    ensures p.maxRetries < 0 ==> Retried(env, h, p)(w) == (Nil, w)
    ensures |Retried(env, h, p)(w).1.log| > |w.log| <==> p.maxRetries >= 0
  {
    if p.maxRetries >= 0 {
      var r := h(w);
      assert Relays(env, w, h(w));
      LogNeverShrinks(env, h, p, r.1, 1, r.0, most);
    }
  }

  lemma {:induction false} LogNeverShrinks(env: Env, h: Handler, p: RetryPolicy, w: World, attempt: nat,
                                            lastErr: Error, most: nat)
    requires RelaysWithin(env, h, most)
    ensures |RetryFrom(env, h, p, w, attempt, lastErr).1.log| >= |w.log|
    decreases p.maxRetries + 1 - attempt
  {
    if attempt <= p.maxRetries && !(attempt > 0 && env.cancelled(w.selects)) {
      var w1 := AfterWait(p, w, attempt);
      var (e, w2) := h(w1);
      assert Relays(env, w1, h(w1));
      LogNeverShrinks(env, h, p, w2, attempt + 1, e, most);
    }
  }

  function Uncancelled(env: Env): Env { env.(cancelled := (k: nat) => false) }

  /** Cancellation does not reach the innermost handler. */
  lemma {:induction false} SameInnermost(env: Env, p: RetryPolicy, w: World, attempt: nat, lastErr: Error)
    ensures RetryFrom(Uncancelled(env), Innermost(env), p, w, attempt, lastErr)
            == RetryFrom(Uncancelled(env), Innermost(Uncancelled(env)), p, w, attempt, lastErr)
    decreases p.maxRetries + 1 - attempt
  {
    if attempt <= p.maxRetries {
      var (e, w2) := Innermost(env)(AfterWait(p, w, attempt));
      SameInnermost(env, p, w2, attempt + 1, e);
    }
  }

  lemma {:induction false} CancelledFrom(env: Env, p: RetryPolicy, w: World, attempt: nat, lastErr: Error)
    ensures var (e, w1) := RetryFrom(env, Innermost(env), p, w, attempt, lastErr);
            var (e0, w0) := RetryFrom(Uncancelled(env), Innermost(env), p, w, attempt, lastErr);
            && w.log <= w1.log && w1.log <= w0.log && w.waits <= w1.waits && w1.waits <= w0.waits
            && ((e, w1) != (e0, w0) ==>
                  && e == env.ctxErr && |w1.log| < |w0.log|
                  && w1.selects > 0 && env.cancelled(w1.selects - 1))
    decreases p.maxRetries + 1 - attempt
  {
    var h, quiet := Innermost(env), Uncancelled(env);
    if attempt <= p.maxRetries {
      var w1 := AfterWait(p, w, attempt);
      var (e, w2) := h(w1);
      assert !quiet.cancelled(w.selects);
      LogGrowsFrom(quiet, env, p, w2, attempt + 1, e);
      if !(attempt > 0 && env.cancelled(w.selects)) {
        CancelledFrom(env, p, w2, attempt + 1, e);
      }
    }
  }

  lemma {:induction false} LogGrowsFrom(quiet: Env, env: Env, p: RetryPolicy, w: World, attempt: nat, lastErr: Error)
    requires quiet == Uncancelled(env)
    ensures var w0 := RetryFrom(quiet, Innermost(env), p, w, attempt, lastErr).1;
            w.log <= w0.log && w.waits <= w0.waits
    decreases p.maxRetries + 1 - attempt
  {
    if attempt <= p.maxRetries {
      assert !quiet.cancelled(w.selects);
      var (e, w2) := Innermost(env)(AfterWait(p, w, attempt));
      LogGrowsFrom(quiet, env, p, w2, attempt + 1, e);
    }
  }

  /** Cancellation only cuts a run short: the cancelled run is a prefix of the uncancelled one, and
      if it differs it returns the context's error from a wait. */
  lemma CancellationYieldsPrefix(env: Env, p: RetryPolicy, w: World)
    ensures var (e, w1) := Retried(env, Innermost(env), p)(w);
            var (e0, w0) := Retried(Uncancelled(env), Innermost(env), p)(w);
            && w1.log <= w0.log && w1.waits <= w0.waits
            && ((e, w1) != (e0, w0) ==>
                  && e == env.ctxErr && |w1.log| < |w0.log|
                  && w1.selects > 0 && env.cancelled(w1.selects - 1))
  {
    CancelledFrom(env, p, w, 0, Nil);
  }

  // ------------------------------------------------- exactly where it is cut

  /** None of the n selects from number `s` on takes its cancelled branch. */
  ghost predicate Uncut(env: Env, s: nat, n: nat) { forall k :: s <= k < s + n ==> !env.cancelled(k) }

  /** Select number s + j is the first one from s on that does. */
  ghost predicate FirstCut(env: Env, s: nat, j: nat) { env.cancelled(s + j) && Uncut(env, s, j) }

  lemma {:induction false} CallsExist(env: Env, p: RetryPolicy, start: nat, first: nat) returns (calls: nat)
    requires first <= p.maxRetries
    ensures StopsAfter(env, p, start, first, calls)
    decreases p.maxRetries - first
  {
    if LastAt(env, p, start, first, 0) {
      calls := 1;
    } else {
      calls := CallsExist(env, p, start + 1, first + 1);
      StopsAfterShift(env, p, start, first, calls);
      calls := calls + 1;
    }
  }

  lemma StopsAfterRest(env: Env, p: RetryPolicy, start: nat, first: nat, calls: nat)
    requires StopsAfter(env, p, start, first, calls) && !LastAt(env, p, start, first, 0)
    ensures calls > 1 && StopsAfter(env, p, start + 1, first + 1, calls - 1)
  {
    hide IsLast;
    assert LastAt(env, p, start, first, calls - 1);
    var start', first' := start + 1, first + 1;
    forall i | 0 <= i < calls - 2 ensures !LastAt(env, p, start', first', i) {
      assert !LastAt(env, p, start, first, i + 1);
    }
  }

  /** One attempt whose select, if it has one, is not cancelled. */
  lemma AttemptGoesOn(env: Env, p: RetryPolicy, w: World, attempt: nat, lastErr: Error) returns (w2: World)
    requires attempt <= p.maxRetries && (attempt > 0 ==> !env.cancelled(w.selects))
    ensures w2.log == w.log + [env.outcome(|w.log|)]
    ensures w2.waits == if attempt == 0 then w.waits else w.waits + [Wait(p, attempt - 1)]
    ensures w2.selects == if attempt == 0 then w.selects else w.selects + 1
    ensures var e := env.outcome(|w.log|);
            RetryFrom(env, Innermost(env), p, w, attempt, lastErr)
            == if IsLast(p, attempt, e) then (e, w2) else RetryFrom(env, Innermost(env), p, w2, attempt + 1, e)
  {
    w2 := Innermost(env)(AfterWait(p, w, attempt)).1;
    var e := env.outcome(|w.log|);
    if attempt == p.maxRetries {
      assert RetryFrom(env, Innermost(env), p, w2, attempt + 1, e) == (e, w2);
    }
  }

  /** The run added n calls and the n waits from number `from` on, and gave this result. */
  ghost predicate Got(env: Env, p: RetryPolicy, w: World, from: nat, n: nat,
                      e: Error, selects: nat, r: (Error, World)) {
    && r.0 == e
    && r.1.log == w.log + Results(env, |w.log|, n)
    && r.1.waits == w.waits + Delays(p, from, n)
    && r.1.selects == selects
  }

  lemma GotMore(env: Env, p: RetryPolicy, w: World, w2: World, from: nat, n: nat,
                e: Error, selects: nat, r: (Error, World))
    requires w2.log == w.log + [env.outcome(|w.log|)] && w2.waits == w.waits + [Wait(p, from)]
    requires n > 0 && Got(env, p, w2, from + 1, n - 1, e, selects, r)
    ensures Got(env, p, w, from, n, e, selects, r)
  {
    OneMore(env, p, w.log, w.waits, from, n);
  }

  /** From a retry on, with no cancellation on the way. */
  lemma {:induction false} UncutFrom(env: Env, p: RetryPolicy, w: World, attempt: nat, lastErr: Error, calls: nat)
    requires attempt > 0 && StopsAfter(env, p, |w.log|, attempt, calls) && Uncut(env, w.selects, calls)
    ensures Got(env, p, w, attempt - 1, calls, env.outcome(|w.log| + calls - 1), w.selects + calls,
                RetryFrom(env, Innermost(env), p, w, attempt, lastErr))
    decreases calls
  {
    assert !env.cancelled(w.selects);
    var w2 := AttemptGoesOn(env, p, w, attempt, lastErr);
    var e := env.outcome(|w.log|);
    if LastAt(env, p, |w.log|, attempt, 0) {
      StopsAtOnce(env, p, |w.log|, attempt, calls);
    } else {
      StopsAfterRest(env, p, |w.log|, attempt, calls);
      UncutRest(env, w.selects, calls);
      hide RetryFrom, StopsAfter, IsLast, Innermost, Got;
      UncutFrom(env, p, w2, attempt + 1, e, calls - 1);
      assert |w2.log| + (calls - 1) - 1 == |w.log| + calls - 1 && w2.selects + (calls - 1) == w.selects + calls;
      GotMore(env, p, w, w2, attempt - 1, calls, env.outcome(|w.log| + calls - 1), w.selects + calls,
              RetryFrom(env, Innermost(env), p, w, attempt, lastErr));
    }
  }

  /** From a retry on, when its j-th select is the first one cancelled. */
  lemma {:induction false} CutFrom(env: Env, p: RetryPolicy, w: World, attempt: nat, lastErr: Error,
                                    calls: nat, j: nat)
    requires attempt > 0 && StopsAfter(env, p, |w.log|, attempt, calls) && j < calls && FirstCut(env, w.selects, j)
    ensures Got(env, p, w, attempt - 1, j, env.ctxErr, w.selects + j + 1,
                RetryFrom(env, Innermost(env), p, w, attempt, lastErr))
    decreases j
  {
    hide RetryFrom, StopsAfter, IsLast, LastAt, Innermost, Uncut, FirstCut, Got;
    if j == 0 {
      CutNow(env, p, w, attempt, lastErr, calls);
    } else {
      FirstCutRest(env, w.selects, j);
      NotLastBefore(env, p, |w.log|, attempt, calls);
      var w2 := AttemptGoesOn(env, p, w, attempt, lastErr);
      CutFrom(env, p, w2, attempt + 1, env.outcome(|w.log|), calls - 1, j - 1);
      assert w2.selects + (j - 1) + 1 == w.selects + j + 1;
      GotMore(env, p, w, w2, attempt - 1, j, env.ctxErr, w.selects + j + 1,
              RetryFrom(env, Innermost(env), p, w, attempt, lastErr));
    }
  }

  lemma CutNow(env: Env, p: RetryPolicy, w: World, attempt: nat, lastErr: Error, calls: nat)
    requires attempt > 0 && StopsAfter(env, p, |w.log|, attempt, calls) && FirstCut(env, w.selects, 0)
    ensures Got(env, p, w, attempt - 1, 0, env.ctxErr, w.selects + 0 + 1,
                RetryFrom(env, Innermost(env), p, w, attempt, lastErr))
  {
  }

  lemma NotLastBefore(env: Env, p: RetryPolicy, start: nat, first: nat, calls: nat)
    requires StopsAfter(env, p, start, first, calls) && calls > 1
    ensures first <= p.maxRetries && !IsLast(p, first, env.outcome(start))
    ensures StopsAfter(env, p, start + 1, first + 1, calls - 1)
  {
    assert !LastAt(env, p, start, first, 0);
    StopsAfterRest(env, p, start, first, calls);
  }

  lemma FirstCutRest(env: Env, s: nat, j: nat)
    requires FirstCut(env, s, j) && j > 0
    ensures !env.cancelled(s) && FirstCut(env, s + 1, j - 1)
  {
  }

  lemma StopsAtOnce(env: Env, p: RetryPolicy, start: nat, first: nat, calls: nat)
    requires StopsAfter(env, p, start, first, calls) && LastAt(env, p, start, first, 0)
    ensures calls == 1
  {
  }

  lemma UncutRest(env: Env, s: nat, n: nat)
    requires Uncut(env, s, n) && n > 0
    ensures Uncut(env, s + 1, n - 1)
  {
  }

  lemma OneMore(env: Env, p: RetryPolicy, log: seq<Error>, waits: seq<Wait>, from: nat, n: nat)
    requires n > 0
    ensures log + [env.outcome(|log|)] + Results(env, |log| + 1, n - 1) == log + Results(env, |log|, n)
    ensures waits + [Wait(p, from)] + Delays(p, from + 1, n - 1) == waits + Delays(p, from, n)
  {
  }

  /** The exact effect of cancellation on one retry level. `calls` is the number of calls the handler's
      results alone ask for; select number w.selects + j comes before call j + 2. If the context is
      cancelled at one of the calls - 1 selects, the run ends at the first such one with the context's
      error, after j + 1 calls and j waits; otherwise it runs to its end as if it could not be cancelled. */
  lemma RetryCutExact(env: Env, p: RetryPolicy, w: World) returns (calls: nat)
    requires p.maxRetries >= 0
    ensures StopsAfter(env, p, |w.log|, 0, calls)
    ensures (forall k :: w.selects <= k < w.selects + calls - 1 ==> !env.cancelled(k)) ==>
              var (e, w') := Retried(env, Innermost(env), p)(w);
              && e == env.outcome(|w.log| + calls - 1)
              && w'.log == w.log + Results(env, |w.log|, calls)
              && w'.waits == w.waits + Delays(p, 0, calls - 1)
              && w'.selects == w.selects + calls - 1
    ensures forall k ::
              && w.selects <= k < w.selects + calls - 1
              && env.cancelled(k) && (forall i :: w.selects <= i < k ==> !env.cancelled(i)) ==>
                var (e, w') := Retried(env, Innermost(env), p)(w);
                && e == env.ctxErr
                && w'.log == w.log + Results(env, |w.log|, k - w.selects + 1)
                && w'.waits == w.waits + Delays(p, 0, k - w.selects)
                && w'.selects == k + 1
  {
    hide RetryFrom, StopsAfter, IsLast, LastAt, Innermost, Results, Delays;
    calls := CallsExist(env, p, |w.log|, 0);
    if Uncut(env, w.selects, calls - 1) {
      UncutRun(env, p, w, calls);
    }
    forall k |
      && w.selects <= k < w.selects + calls - 1
      && env.cancelled(k) && (forall i :: w.selects <= i < k ==> !env.cancelled(i))
      ensures var (e, w') := Retried(env, Innermost(env), p)(w);
              && e == env.ctxErr
              && w'.log == w.log + Results(env, |w.log|, k - w.selects + 1)
              && w'.waits == w.waits + Delays(p, 0, k - w.selects)
              && w'.selects == k + 1
    {
      CutRun(env, p, w, calls, k - w.selects);
    }
  }

  lemma UncutRun(env: Env, p: RetryPolicy, w: World, calls: nat)
    requires StopsAfter(env, p, |w.log|, 0, calls) && Uncut(env, w.selects, calls - 1)
    ensures var (e, w') := Retried(env, Innermost(env), p)(w);
            && e == env.outcome(|w.log| + calls - 1)
            && w'.log == w.log + Results(env, |w.log|, calls)
            && w'.waits == w.waits + Delays(p, 0, calls - 1)
            && w'.selects == w.selects + calls - 1
  {
    var w2 := AttemptGoesOn(env, p, w, 0, Nil);
    if LastAt(env, p, |w.log|, 0, 0) {
      StopsAtOnce(env, p, |w.log|, 0, calls);
    } else {
      StopsAfterRest(env, p, |w.log|, 0, calls);
      hide RetryFrom, StopsAfter, IsLast, Innermost;
      UncutFrom(env, p, w2, 1, env.outcome(|w.log|), calls - 1);
      OneMore(env, p, w.log, w.waits, 0, calls);
    }
  }

  lemma CutRun(env: Env, p: RetryPolicy, w: World, calls: nat, j: nat)
    requires StopsAfter(env, p, |w.log|, 0, calls) && j < calls - 1 && FirstCut(env, w.selects, j)
    ensures var (e, w') := Retried(env, Innermost(env), p)(w);
            && e == env.ctxErr
            && w'.log == w.log + Results(env, |w.log|, j + 1)
            && w'.waits == w.waits + Delays(p, 0, j)
            && w'.selects == w.selects + j + 1
  {
    var w2 := AttemptGoesOn(env, p, w, 0, Nil);
    assert !LastAt(env, p, |w.log|, 0, 0);
    StopsAfterRest(env, p, |w.log|, 0, calls);
    hide RetryFrom, StopsAfter, IsLast, Innermost;
    CutFrom(env, p, w2, 1, env.outcome(|w.log|), calls - 1, j);
    OneMore(env, p, w.log, w.waits, 0, j + 1);
  }

  /** A context cancelled from the start ends the run after its first call, whatever the policy. */
  lemma CancelledContextStopsRetrying(env: Env, p: RetryPolicy)
    requires forall k: nat :: env.cancelled(k)
    requires p.maxRetries >= 1 && !env.outcome(0).Nil? && IsRetryableError(env.outcome(0))
    ensures Retried(env, Innermost(env), p)(World([], [], 0)) == (env.ctxErr, World([env.outcome(0)], [], 1))
  {
    var w0 := World([], [], 0);
    var calls := RetryCutExact(env, p, w0);
    assert !LastAt(env, p, 0, 0, 0);
    assert calls > 1 && env.cancelled(0);
    hide RetryFrom;
    var (e, w) := Retried(env, Innermost(env), p)(w0);
    assert Results(env, 0, 1) == [env.outcome(0)];
    assert w.log == [env.outcome(0)] && w.waits == [] && w.selects == 1;
  }

  // ------------------------------------------------------- time spent waiting

  function Duration(ws: seq<Wait>): int {
    if ws == [] then 0 else Delay(ws[0].policy, ws[0].attempt) + Duration(ws[1..])
  }

  lemma {:induction false} SumOfDelays(p: RetryPolicy, from: nat, n: nat)
    ensures TotalWait(p, from + n) == TotalWait(p, from) + Duration(Delays(p, from, n))
    decreases n
  {
    if n > 0 {
      assert Delays(p, from, n)[1..] == Delays(p, from + 1, n - 1);
      SumOfDelays(p, from + 1, n - 1);
      hide Delay;
    }
  }

  lemma CountMonotone(a: nat, b: nat, c: nat)
    requires a <= b
    ensures a * c <= b * c
  {
  }

  /** Every call but the first of a run comes after exactly one wait, cancelled or not. */
  lemma {:induction false} OneWaitPerRetry(env: Env, p: RetryPolicy, w: World, attempt: nat, lastErr: Error)
    ensures var w1 := RetryFrom(env, Innermost(env), p, w, attempt, lastErr).1;
            |w1.waits| - |w.waits|
            == |w1.log| - |w.log| - (if attempt == 0 && p.maxRetries >= 0 then 1 else 0)
    decreases p.maxRetries + 1 - attempt
  {
    if attempt <= p.maxRetries && (attempt == 0 || !env.cancelled(w.selects)) {
      var (e, w2) := Innermost(env)(AfterWait(p, w, attempt));
      OneWaitPerRetry(env, p, w2, attempt + 1, e);
    }
  }

  /** A whole run from a fresh world, cancelled or not, waits at most maxRetries * backoffMax. */
  lemma RunWaitBounded(env: Env, p: RetryPolicy)
    requires p.maxRetries >= 0
    requires 0 <= p.backoffBase <= p.backoffMax
    ensures var w := Retried(env, Innermost(env), p)(World([], [], 0)).1;
            && |w.waits| == |w.log| - 1
            && Duration(w.waits) == TotalWait(p, |w.waits|)
            && Duration(w.waits) <= p.maxRetries * p.backoffMax
  {
    var w0 := World([], [], 0);
    var quiet := Uncancelled(env);
    var calls := RetryExact(quiet, p, w0);
    SameInnermost(env, p, w0, 0, Nil);
    CancellationYieldsPrefix(env, p, w0);
    OneWaitPerRetry(env, p, w0, 0, Nil);
    var w := Retried(env, Innermost(env), p)(w0).1;
    var k := |w.waits|;
    assert w.waits == Delays(p, 0, calls - 1)[..k] == Delays(p, 0, k);
    SumOfDelays(p, 0, k);
    TotalWaitAtMostCapTimesCount(p, k);
    CountMonotone(k, p.maxRetries, p.backoffMax);
  }
}
