/** Bounded retries with a capped, growing wait between attempts. */
module Retry {
  import opened Prelude
  import opened RetryKinds

  /** Durations are whole time units, the multiplier an exact real. */
  datatype Policy = Policy(maxAttempts: int, initialBackoff: int, maxBackoff: int, multiplier: real)

  datatype PolicyProblem = TooFewAttempts | BackoffNotPositive | CapBelowInitial | WaitsShrink

  function Validate(p: Policy): Option<PolicyProblem> {
    if p.maxAttempts < 1 then Some(TooFewAttempts)
    else if p.initialBackoff <= 0 then Some(BackoffNotPositive)
    else if p.maxBackoff < p.initialBackoff then Some(CapBelowInitial)
    else if p.multiplier < 1.0 then Some(WaitsShrink)
    else None
  }

  function Power(base: real, n: nat): real {
    if n == 0 then 1.0 else Power(base, n - 1) * base
  }

  /** The wait after an attempt, counting from 1. */
  function Backoff(p: Policy, attempt: int): int {
    var n: nat := if attempt < 1 then 0 else attempt - 1;
    Capped(Delay(p.initialBackoff, p.multiplier, n), p.maxBackoff)
  }

  function Delay(initial: int, multiplier: real, n: nat): real {
    initial as real * Power(multiplier, n)
  }

  function Capped(delay: real, cap: int): int {
    if delay > cap as real then cap else Truncate(delay)
  }

  function Truncate(r: real): int {
    if r >= 0.0 then r.Floor else -(-r).Floor
  }

  /** A context that is live until some time and cancelled from then on. The clock
      says when each moment of a run came; when the context is cancelled in the very
      instant a timer fires, either may be seen first. */
  datatype Context<E> = Context(cause: E, cancelledAt: Option<int>, clock: nat -> int, timerFirst: nat -> bool) {
    function Err(moment: nat): Option<E> {
      if cancelledAt.Some? && cancelledAt.value <= clock(moment) then Some(cause) else None
    }

    /** How a wait of length d ends that begins when attempt a was looked at. */
    function WaitErr(a: nat, d: int): Option<E> {
      var due := clock(CheckMoment(a)) + d;
      if d <= 0 then Err(CheckMoment(a))
      else if cancelledAt.None? || cancelledAt.value > due then None
      else if cancelledAt.value == due && timerFirst(a) then None
      else Some(cause)
    }
  }

  // The moments of attempt a: it runs, and the runner looks at its error.

  function RunMoment(a: nat): nat { 2 * a }

  function CheckMoment(a: nat): nat { 2 * a + 1 }

  datatype Attempt<E> = Attempt(number: nat, delay: int, kind: Kind, err: E)

  datatype Outcome<E> = Outcome(attempts: nat, kind: Kind, err: Option<E>)

  /** An operation with its effects: how one attempt changes what it works on, and
      the error it returns. */
  type Operation<!S, !E> = (S, nat) -> (S, Option<E>)

  /** The run from one attempt onwards: how it ends, what it leaves, and the
      retries announced before each wait. */
  function Runs<S, E>(p: Policy, classify: E -> Kind, ctx: Context<E>, op: Operation<S, E>, s: S, a: nat)
    : (Outcome<E>, S, seq<Attempt<E>>)
    decreases p.maxAttempts - a
  {
    var (t, err) := op(s, a);
    if err.None? then (Outcome(a, Unknown, None), t, [])
    else
      var kind := classify(err.value);
      if ctx.Err(CheckMoment(a)).Some? then (Outcome(a, kind, ctx.Err(CheckMoment(a))), t, [])
      else if !kind.ShouldRetry() || a >= p.maxAttempts then (Outcome(a, kind, err), t, [])
      else
        var retry := Attempt(a, Backoff(p, a), kind, err.value);
        if ctx.WaitErr(a, Backoff(p, a)).Some? then (Outcome(a, kind, ctx.WaitErr(a, Backoff(p, a))), t, [retry])
        else
          var (r, u, retries) := Runs(p, classify, ctx, op, t, a + 1);
          (r, u, [retry] + retries)
  }

  class Runner<!E> {
    const policy: Policy
    const classify: E -> Kind

    ghost predicate Valid() {
      Validate(policy).None?
    }

    constructor (policy: Policy, classify: E -> Kind)
      requires Validate(policy).None?
      ensures Valid() && this.policy == policy && this.classify == classify
    {
      this.policy, this.classify := policy, classify;
    }

    method Do<S>(ctx: Context<E>, op: Operation<S, E>, start: S)
      returns (r: Outcome<E>, s: S, retries: seq<Attempt<E>>)
      requires Valid()
      ensures (r, s, retries) == Runs(policy, classify, ctx, op, start, 1)
    {
      s, retries := start, [];
      var attempt := 1;
      ghost var all := Runs(policy, classify, ctx, op, start, 1);
      assert [] + all.2 == all.2;
      while true
        invariant 1 <= attempt <= policy.maxAttempts
        invariant
          var (r', s', more) := Runs(policy, classify, ctx, op, s, attempt);
          Runs(policy, classify, ctx, op, start, 1) == (r', s', retries + more)
        decreases policy.maxAttempts - attempt
      {
        ghost var before := retries;
        var (t, err) := op(s, attempt);
        ghost var from := s;
        s := t;
        if err.None? {
          assert retries + [] == retries;
          return Outcome(attempt, Unknown, None), s, retries;
        }
        var kind := classify(err.value);
        if ctx.Err(CheckMoment(attempt)).Some? {
          assert retries + [] == retries;
          return Outcome(attempt, kind, ctx.Err(CheckMoment(attempt))), s, retries;
        }
        if !kind.ShouldRetry() || attempt >= policy.maxAttempts {
          assert retries + [] == retries;
          return Outcome(attempt, kind, err), s, retries;
        }
        var delay := Backoff(policy, attempt);
        retries := retries + [Attempt(attempt, delay, kind, err.value)];
        var stopped, _ := Wait(ctx, attempt, delay);
        if stopped.Some? {
          return Outcome(attempt, kind, stopped), s, retries;
        }
        ghost var rest := Runs(policy, classify, ctx, op, s, attempt + 1).2;
        assert before + ([Attempt(attempt, delay, kind, err.value)] + rest) == retries + rest;
        attempt := attempt + 1;
      }
    }

    /** Without an error the whole delay was waited and the context was live up to
        then; with one, it is the context's, and the wait ended as soon as the context
        did, before or with the delay. */
    method Wait(ctx: Context<E>, attempt: nat, d: int) returns (r: Option<E>, now: int)
      ensures
        var began, due := ctx.clock(CheckMoment(attempt)), ctx.clock(CheckMoment(attempt)) + if d > 0 then d else 0;
        && began <= now <= due
        && (r.None? ==> now == due && (ctx.cancelledAt.Some? ==> now <= ctx.cancelledAt.value))
        && (r.Some? ==>
              && r.value == ctx.cause && ctx.cancelledAt.Some? && ctx.cancelledAt.value <= now
              && (now > began ==> now == ctx.cancelledAt.value))
      ensures r == ctx.WaitErr(attempt, d)
    {
      now := ctx.clock(CheckMoment(attempt));
      if d <= 0 {
        return ctx.Err(CheckMoment(attempt)), now;
      }
      var due := now + d;
      var cancelled := ctx.cancelledAt;
      if cancelled.Some? && (cancelled.value < due || (cancelled.value == due && !ctx.timerFirst(attempt))) {
        return Some(ctx.cause), if cancelled.value > now then cancelled.value else now;
      }
      return None, due;
    }
  }

  // ------------------------------------------------------------------ backoff

  lemma {:induction false} PowerGrows(base: real, n: nat)
    requires base >= 1.0
    ensures 1.0 <= Power(base, n) <= Power(base, n + 1)
  {
    if n > 0 {
      PowerGrows(base, n - 1);
    }
  }

  lemma {:induction false} PowerMonotone(base: real, n: nat, m: nat)
    requires base >= 1.0 && n <= m
    ensures 1.0 <= Power(base, n) <= Power(base, m)
  {
    if n < m {
      PowerMonotone(base, n, m - 1);
      PowerGrows(base, m - 1);
    } else {
      PowerGrows(base, n);
    }
  }

  lemma CappedShape(d: real, e: real, low: int, cap: int)
    requires 0 < low <= cap && low as real <= d <= e
    ensures low <= Capped(d, cap) <= Capped(e, cap) <= cap
  {
  }

  /** Delays grow with the attempt and start at the initial wait. */
  lemma DelaysGrow(initial: int, base: real, n: nat, m: nat)
    requires base >= 1.0 && n <= m && initial > 0
    ensures initial as real == Delay(initial, base, 0)
    ensures initial as real <= Delay(initial, base, n) <= Delay(initial, base, m)
  {
    PowerMonotone(base, n, m);
    var x, a, b := initial as real, Power(base, n), Power(base, m);
    assert x * a - x * 1.0 == x * (a - 1.0) && x * b - x * a == x * (b - a);
  }

  /** Every wait lies between the initial wait and the cap, the first is the
      initial wait, no wait is shorter than the one before, and one that reached
      the cap stays there. */
  lemma BackoffShape(p: Policy, a: int, b: int)
    requires Validate(p).None? && a <= b
    ensures p.initialBackoff <= Backoff(p, a) <= Backoff(p, b) <= p.maxBackoff
    ensures Backoff(p, 1) == p.initialBackoff
    ensures Backoff(p, a) == p.maxBackoff ==> Backoff(p, b) == p.maxBackoff
  {
    var n: nat := if a < 1 then 0 else a - 1;
    var m: nat := if b < 1 then 0 else b - 1;
    DelaysGrow(p.initialBackoff, p.multiplier, n, m);
    var d, e, first := Delay(p.initialBackoff, p.multiplier, n), Delay(p.initialBackoff, p.multiplier, m),
      Delay(p.initialBackoff, p.multiplier, 0);
    CappedShape(d, e, p.initialBackoff, p.maxBackoff);
    assert Backoff(p, a) == Capped(d, p.maxBackoff) && Backoff(p, b) == Capped(e, p.maxBackoff);
    assert Backoff(p, 1) == Capped(first, p.maxBackoff);
  }

  /** Below the cap a wait is the exact geometric delay, rounded down. */
  lemma BackoffBelowCap(p: Policy, a: int)
    requires Validate(p).None? && a >= 1 && Backoff(p, a) < p.maxBackoff
    ensures
      var delay := Delay(p.initialBackoff, p.multiplier, a - 1);
      Backoff(p, a) as real <= delay < Backoff(p, a) as real + 1.0
  {
    DelaysGrow(p.initialBackoff, p.multiplier, a - 1, a - 1);
  }

  /** The waits are the geometric sequence from the initial wait, rounded down and
      capped. */
  lemma BackoffGeometric(p: Policy, d: nat -> real, a: nat)
    requires Validate(p).None? && a >= 1
    requires d(1) == p.initialBackoff as real && forall b: nat :: b >= 1 ==> d(b + 1) == d(b) * p.multiplier
    ensures Backoff(p, a) == if d(a) > p.maxBackoff as real then p.maxBackoff else d(a).Floor
  {
    DelayIsSequence(p, d, a);
    DelaysGrow(p.initialBackoff, p.multiplier, a - 1, a - 1);
  }

  lemma {:induction false} DelayIsSequence(p: Policy, d: nat -> real, a: nat)
    requires a >= 1
    requires d(1) == p.initialBackoff as real && forall b: nat :: b >= 1 ==> d(b + 1) == d(b) * p.multiplier
    ensures Delay(p.initialBackoff, p.multiplier, a - 1) == d(a)
  {
    if a > 1 {
      DelayIsSequence(p, d, a - 1);
      assert d(a - 1 + 1) == d(a - 1) * p.multiplier;
      TimesThree(p.initialBackoff as real, Power(p.multiplier, a - 2), p.multiplier);
    }
  }

  lemma TimesThree(x: real, y: real, z: real)
    ensures x * y * z == x * (y * z)
  {
  }

  /** The policies that are accepted. */
  lemma ValidPolicies(p: Policy)
    ensures
      Validate(p).None?
      <==> p.maxAttempts >= 1 && 0 < p.initialBackoff <= p.maxBackoff && p.multiplier >= 1.0
    ensures Validate(p) == Some(TooFewAttempts) <==> p.maxAttempts <= 0
    ensures Validate(p) == Some(BackoffNotPositive) <==> p.maxAttempts > 0 && p.initialBackoff <= 0
    ensures
      Validate(p) == Some(CapBelowInitial)
      <==> p.maxAttempts > 0 && p.initialBackoff > 0 && p.initialBackoff > p.maxBackoff
  {
  }

  // ---------------------------------------------------------------------- runs

  /** What n attempts from attempt a leave behind. */
  function After<S, E>(op: Operation<S, E>, s: S, a: nat, n: nat): S
    decreases n
  {
    if n == 0 then s else After(op, op(s, a).0, a + 1, n - 1)
  }

  /** The error of attempt b in a run whose attempt a starts from s. */
  function ErrorOf<S, E>(op: Operation<S, E>, s: S, a: nat, b: nat): Option<E>
    requires a <= b
  {
    op(After(op, s, a, b - a), b).1
  }

  /** Attempt b, of a run whose attempt a starts from s, failed in a way that may pass,
      with attempts to spare and the context live when it was looked at. */
  predicate Waits<S, E>(
    p: Policy, classify: E -> Kind, ctx: Context<E>, op: Operation<S, E>, s: S, a: nat, b: nat)
    requires a <= b
  {
    var err := ErrorOf(op, s, a, b);
    err.Some? && ctx.Err(CheckMoment(b)).None? && classify(err.value) != NonRetryable && b < p.maxAttempts
  }

  /** ... and the wait after it went by. */
  predicate Again<S, E>(
    p: Policy, classify: E -> Kind, ctx: Context<E>, op: Operation<S, E>, s: S, a: nat, b: nat)
    requires a <= b
  {
    Waits(p, classify, ctx, op, s, a, b) && ctx.WaitErr(b, Backoff(p, b)).None?
  }

  /** What a run returns that ends with attempt b: the context's error if it was seen to
      be cancelled, or else the attempt's own. */
  function Ending<S, E>(
    p: Policy, classify: E -> Kind, ctx: Context<E>, op: Operation<S, E>, s: S, a: nat, b: nat): Outcome<E>
    requires a <= b
  {
    match ErrorOf(op, s, a, b)
    case None => Outcome(b, Unknown, None)
    case Some(e) =>
      Outcome(b, classify(e),
        if ctx.Err(CheckMoment(b)).Some? then ctx.Err(CheckMoment(b))
        else if Waits(p, classify, ctx, op, s, a, b) then ctx.WaitErr(b, Backoff(p, b))
        else Some(e))
  }

  /** A run ends with the first attempt after which it does not go on, with that
      attempt's effects and ending; the retries announced are one per wait begun, in
      order, each with its backoff. */
  lemma {:induction false} RunMeaning<S, E>(
    p: Policy, classify: E -> Kind, ctx: Context<E>, op: Operation<S, E>, s: S, a: nat)
    requires 1 <= a <= p.maxAttempts
    ensures
      var (r, t, retries) := Runs(p, classify, ctx, op, s, a);
      && a <= r.attempts <= p.maxAttempts
      && t == After(op, s, a, r.attempts - a + 1)
      && (forall b :: a <= b < r.attempts ==> Again(p, classify, ctx, op, s, a, b))
      && !Again(p, classify, ctx, op, s, a, r.attempts)
      && r == Ending(p, classify, ctx, op, s, a, r.attempts)
      && |retries| == r.attempts - a + (if Waits(p, classify, ctx, op, s, a, r.attempts) then 1 else 0)
      && (forall i :: 0 <= i < |retries| ==>
            && ErrorOf(op, s, a, a + i).Some?
            && retries[i]
               == Attempt(a + i, Backoff(p, a + i), classify(ErrorOf(op, s, a, a + i).value), ErrorOf(op, s, a, a + i).value))
    decreases p.maxAttempts - a
  {
    var (t, err) := op(s, a);
    assert After(op, s, a, 0) == s && After(op, s, a, 1) == After(op, t, a + 1, 0) == t;
    assert ErrorOf(op, s, a, a) == err;
    if Again(p, classify, ctx, op, s, a, a) {
      RunMeaning(p, classify, ctx, op, t, a + 1);
      var (r, u, rest) := Runs(p, classify, ctx, op, t, a + 1);
      var retry := Attempt(a, Backoff(p, a), classify(err.value), err.value);
      assert Runs(p, classify, ctx, op, s, a) == (r, u, [retry] + rest);
      forall b | a < b <= p.maxAttempts
        ensures ErrorOf(op, s, a, b) == ErrorOf(op, t, a + 1, b)
        ensures Waits(p, classify, ctx, op, s, a, b) == Waits(p, classify, ctx, op, t, a + 1, b)
        ensures Again(p, classify, ctx, op, s, a, b) == Again(p, classify, ctx, op, t, a + 1, b)
        ensures Ending(p, classify, ctx, op, s, a, b) == Ending(p, classify, ctx, op, t, a + 1, b)
      {
      }
      assert forall i :: 0 < i < |[retry] + rest| ==> ([retry] + rest)[i] == rest[i - 1];
    }
  }

  /** A run has b attempts exactly when it goes on after each before b and not after b. */
  lemma RunLength<S, E>(
    p: Policy, classify: E -> Kind, ctx: Context<E>, op: Operation<S, E>, s: S, b: nat)
    requires 1 <= b <= p.maxAttempts
    ensures
      Runs(p, classify, ctx, op, s, 1).0.attempts == b
      <==>
      && (forall c :: 1 <= c < b ==> Again(p, classify, ctx, op, s, 1, c))
      && !Again(p, classify, ctx, op, s, 1, b)
  {
    RunMeaning(p, classify, ctx, op, s, 1);
    var n := Runs(p, classify, ctx, op, s, 1).0.attempts;
    assert n < b ==> !Again(p, classify, ctx, op, s, 1, n);
  }

  /** A run that ends on an error of its own that is unknown or retryable used every
      attempt. */
  lemma UsesEveryAttempt<S, E>(p: Policy, classify: E -> Kind, ctx: Context<E>, op: Operation<S, E>, s: S)
    requires p.maxAttempts >= 1
    ensures
      var r := Runs(p, classify, ctx, op, s, 1).0;
      r.err.Some? && (r.kind == Unknown || r.kind == Retryable)
      && ctx.Err(CheckMoment(r.attempts)).None? && ctx.WaitErr(r.attempts, Backoff(p, r.attempts)).None? ==>
      r.attempts == p.maxAttempts
  {
    RunMeaning(p, classify, ctx, op, s, 1);
  }

  /** The moments of a run come one after the other. */
  lemma MomentsInOrder(a: nat)
    ensures RunMoment(a) < CheckMoment(a) < RunMoment(a + 1)
  {
  }

  lemma {:induction false} AfterLast<S, E>(op: Operation<S, E>, s: S, a: nat, n: nat)
    ensures After(op, s, a, n + 1) == op(After(op, s, a, n), a + n).0
    decreases n
  {
    if n > 0 {
      AfterLast(op, op(s, a).0, a + 1, n - 1);
    }
  }

  /** A run ends as its last attempt does. */
  lemma EndsWithLast<S, E>(
    p: Policy, classify: E -> Kind, ctx: Context<E>, op: Operation<S, E>, s: S, r: Outcome<E>, t: S)
    requires p.maxAttempts >= 1
    requires Runs(p, classify, ctx, op, s, 1).0 == r && Runs(p, classify, ctx, op, s, 1).1 == t
    ensures r.attempts >= 1
    ensures op(After(op, s, 1, r.attempts - 1), r.attempts).0 == t
    ensures r.err.None? <==> op(After(op, s, 1, r.attempts - 1), r.attempts).1.None?
  {
    RunMeaning(p, classify, ctx, op, s, 1);
    AfterLast(op, s, 1, r.attempts - 1);
  }

  /** What every attempt keeps, a run keeps; what a successful attempt makes true is
      true after a successful run. */
  lemma {:induction false} RunPreserves<S(!new), E>(
    p: Policy, classify: E -> Kind, ctx: Context<E>, op: Operation<S, E>, s: S, a: nat, kept: (S, S) -> bool, good: S -> bool)
    requires forall x, b: nat :: kept(x, op(x, b).0) && (op(x, b).1.None? ==> good(op(x, b).0))
    requires forall x, y, z :: kept(x, y) && kept(y, z) ==> kept(x, z)
    ensures
      var (r, t, _) := Runs(p, classify, ctx, op, s, a);
      kept(s, t) && (r.err.None? ==> good(t))
    decreases p.maxAttempts - a
  {
    var (t, err) := op(s, a);
    if && err.Some? && ctx.Err(CheckMoment(a)).None? && classify(err.value).ShouldRetry() && a < p.maxAttempts
       && ctx.WaitErr(a, Backoff(p, a)).None? {
      RunPreserves(p, classify, ctx, op, t, a + 1, kept, good);
    }
  }

  function TotalWait<E>(retries: seq<Attempt<E>>): int {
    if retries == [] then 0 else retries[0].delay + TotalWait(retries[1..])
  }

  lemma {:induction false} WaitBound<E>(retries: seq<Attempt<E>>, low: int, cap: int)
    requires forall i :: 0 <= i < |retries| ==> low <= retries[i].delay <= cap
    ensures |retries| * low <= TotalWait(retries) <= |retries| * cap
  {
    if retries != [] {
      WaitBound(retries[1..], low, cap);
    }
  }

  /** However long a run lasts, it waits at most one cap per retry allowed. */
  lemma RunWaits<S, E>(p: Policy, classify: E -> Kind, ctx: Context<E>, op: Operation<S, E>, s: S)
    requires Validate(p).None?
    ensures
      var (r, _, retries) := Runs(p, classify, ctx, op, s, 1);
      && |retries| * p.initialBackoff <= TotalWait(retries) <= |retries| * p.maxBackoff
      && TotalWait(retries) <= (p.maxAttempts - 1) * p.maxBackoff
  {
    var retries := Runs(p, classify, ctx, op, s, 1).2;
    assert |retries| <= p.maxAttempts - 1 && forall i :: 0 <= i < |retries| ==> retries[i].delay == Backoff(p, i + 1) by {
      RunMeaning(p, classify, ctx, op, s, 1);
    }
    forall i | 0 <= i < |retries|
      ensures p.initialBackoff <= retries[i].delay <= p.maxBackoff
    {
      BackoffShape(p, i + 1, i + 1);
    }
    WaitBound(retries, p.initialBackoff, p.maxBackoff);
    MultiplyBoth(|retries|, p.maxAttempts - 1, p.maxBackoff);
  }

  lemma MultiplyBoth(a: nat, b: nat, c: nat)
    requires a <= b
    ensures a * c <= b * c
  {
  }
}
