/** The failed-login counter of one account and the lock it sets. Times are microseconds. */
module Lockout {
  import opened Values

  /** Settings: failures that set a lock, and how long it lasts. */
  datatype Policy = Policy(limit: nat, lockout: nat) {
    ghost predicate Valid() { limit >= 1 && lockout >= 1 }
  }

  datatype Lock = Lock(failures: nat, until: Option<int>)

  const OPEN := Lock(0, None)

  predicate IsLocked(l: Lock, now: int) {
    l.until.Some? && l.until.value > now
  }

  function RegisterFailure(p: Policy, l: Lock, now: int): Lock {
    if l.failures + 1 >= p.limit then Lock(0, Some(now + p.lockout)) else Lock(l.failures + 1, None)
  }

  /** A login whose password and account state were good or not, or a change of password. */
  datatype Event =
    | Attempt(now: int, good: bool)
    | Reset(now: int)

  function Step(p: Policy, l: Lock, e: Event): Lock {
    match e
    case Attempt(now, good) =>
      if IsLocked(l, now) then l else if good then OPEN else RegisterFailure(p, l, now)
    case Reset(now) => OPEN
  }

  function Run(p: Policy, l: Lock, es: seq<Event>): Lock
    decreases |es|
  {
    if es == [] then l else Run(p, Step(p, l, es[0]), es[1..])
  }

  /** A password that was checked and refused, or checked and accepted. */
  predicate Fails(l: Lock, e: Event) { e.Attempt? && !IsLocked(l, e.now) && !e.good }

  predicate Succeeds(l: Lock, e: Event) { e.Attempt? && !IsLocked(l, e.now) && e.good }

  function Failures(p: Policy, l: Lock, es: seq<Event>): nat
    decreases |es|
  {
    if es == [] then 0 else (if Fails(l, es[0]) then 1 else 0) + Failures(p, Step(p, l, es[0]), es[1..])
  }

  function Successes(p: Policy, l: Lock, es: seq<Event>): nat
    decreases |es|
  {
    if es == [] then 0 else (if Succeeds(l, es[0]) then 1 else 0) + Successes(p, Step(p, l, es[0]), es[1..])
  }

  function Resets(es: seq<Event>): nat {
    if es == [] then 0 else (if es[0].Reset? then 1 else 0) + Resets(es[1..])
  }

  ghost predicate Within(es: seq<Event>, from: int, to: int) {
    && (forall i :: 0 <= i < |es| ==> from <= es[i].now <= to)
    && (forall i, j :: 0 <= i < j < |es| ==> es[i].now <= es[j].now)
  }

  /** The counter is below the limit, and a lock still running began at most one lockout
      ago with the counter at zero. */
  ghost predicate Sound(p: Policy, l: Lock, now: int) {
    && l.failures < p.limit
    && (IsLocked(l, now) ==> l.failures == 0 && l.until.value <= now + p.lockout)
  }

  lemma StepKeepsSound(p: Policy, l: Lock, t: int, e: Event)
    requires p.Valid() && Sound(p, l, t) && t <= e.now
    ensures Sound(p, Step(p, l, e), e.now)
  {}

  /** In every state of every run the counter stays below the limit. */
  lemma {:induction false} RunKeepsSound(p: Policy, l: Lock, es: seq<Event>, from: int, to: int)
    requires p.Valid() && Sound(p, l, from) && Within(es, from, to) && from <= to
    ensures Sound(p, Run(p, l, es), to)
    decreases |es|
  {
    if es != [] {
      StepKeepsSound(p, l, from, es[0]);
      RunKeepsSound(p, Step(p, l, es[0]), es[1..], es[0].now, to);
    }
  }

  /** How many whole lockouts fit into a length of time. */
  function Rounds(d: nat, lockout: nat): nat
    requires lockout >= 1
  {
    if d < lockout then 0 else 1 + Rounds(d - lockout, lockout)
  }

  lemma {:induction false} RoundsMonotone(a: nat, b: nat, lockout: nat)
    requires lockout >= 1 && a <= b
    ensures Rounds(a, lockout) <= Rounds(b, lockout)
  {
    if a >= lockout {
      RoundsMonotone(a - lockout, b - lockout, lockout);
    }
  }

  lemma {:induction false} RoundsAreQuotient(d: nat, lockout: nat)
    requires lockout >= 1
    ensures Rounds(d, lockout) == d / lockout
  {
    if d >= lockout {
      RoundsAreQuotient(d - lockout, lockout);
      QuotientIsUnique(d, (d - lockout) / lockout + 1, (d - lockout) % lockout, lockout);
    } else {
      QuotientIsUnique(d, 0, d, lockout);
    }
  }

  lemma QuotientIsUnique(a: nat, q: nat, r: nat, d: nat)
    requires d >= 1 && r < d && a == d * q + r
    ensures a / d == q
  {
    var q' := a / d;
    assert a == d * q' + a % d;
    if q < q' {
      MulMonotone(q + 1, q', d);
    } else if q' < q {
      MulMonotone(q' + 1, q, d);
    }
  }

  lemma MulMonotone(a: int, b: int, m: nat)
    requires a <= b
    ensures m * a <= m * b
    ensures m * (a + 1) == m * a + m
  {}

  /** Failures that can still be registered up to `to`: what is left of the current batch
      and one batch per lockout that can pass. */
  function Budget(p: Policy, l: Lock, now: int, to: int): int
    requires p.lockout >= 1
  {
    var start := if IsLocked(l, now) then l.until.value else now;
    if start > to then 0 else p.limit - l.failures + p.limit * Rounds(to - start, p.lockout)
  }

  lemma BudgetShrinks(p: Policy, a: int, b: int, to: int)
    requires p.lockout >= 1 && a <= b <= to
    ensures p.limit * Rounds(to - b, p.lockout) <= p.limit * Rounds(to - a, p.lockout)
  {
    RoundsMonotone(to - b, to - a, p.lockout);
    MulMonotone(Rounds(to - b, p.lockout), Rounds(to - a, p.lockout), p.limit);
  }

  lemma LateRound(p: Policy, now: int, to: int)
    requires p.lockout >= 1 && now + p.lockout <= to
    ensures p.limit * Rounds(to - now, p.lockout) == p.limit + p.limit * Rounds(to - now - p.lockout, p.lockout)
  {}

  /** The budget only shrinks as time passes, and a failure uses one unit of it. */
  lemma BudgetStep(p: Policy, l: Lock, t: int, e: Event, to: int)
    requires p.Valid() && Sound(p, l, t) && t <= e.now <= to
    requires e.Attempt? && !e.good
    ensures (if Fails(l, e) then 1 else 0) + Budget(p, Step(p, l, e), e.now, to) <= Budget(p, l, t, to)
  {
    var now := e.now;
    if Fails(l, e) {
      var start := if IsLocked(l, t) then l.until.value else t;
      BudgetShrinks(p, start, now, to);
      if now + p.lockout <= to {
        LateRound(p, now, to);
      }
    }
  }

  /** Opening the lock gives back at most one batch, and less than one when it was open. */
  lemma BudgetReopened(p: Policy, l: Lock, t: int, now: int, to: int)
    requires p.Valid() && Sound(p, l, t) && t <= now <= to
    ensures Budget(p, OPEN, now, to) <= Budget(p, l, t, to) + p.limit
    ensures !IsLocked(l, now) ==> Budget(p, OPEN, now, to) <= Budget(p, l, t, to) + (p.limit - 1)
  {
    var start := if IsLocked(l, t) then l.until.value else t;
    if IsLocked(l, now) {
      if now + p.lockout <= to {
        LateRound(p, now, to);
        BudgetShrinks(p, start, now + p.lockout, to);
      } else {
        assert Rounds(to - now, p.lockout) == 0;
      }
    } else {
      BudgetShrinks(p, start, now, to);
    }
  }

  lemma {:induction false} FailuresWithinBudget(p: Policy, l: Lock, es: seq<Event>, t: int, to: int)
    requires p.Valid() && Sound(p, l, t) && Within(es, t, to) && t <= to
    ensures Failures(p, l, es) <= Budget(p, l, t, to) + p.limit * Resets(es) + (p.limit - 1) * Successes(p, l, es)
    decreases |es|
  {
    if es == [] {
      assert p.limit * Resets(es) == 0 && (p.limit - 1) * Successes(p, l, es) == 0;
    } else {
      var e := es[0];
      var l' := Step(p, l, e);
      StepKeepsSound(p, l, t, e);
      FailuresWithinBudget(p, l', es[1..], e.now, to);
      if e.Attempt? && !e.good {
        BudgetStep(p, l, t, e, to);
      } else {
        BudgetReopened(p, l, t, e.now, to);
        if e.Reset? {
          MulMonotone(Resets(es[1..]), Resets(es), p.limit);
        } else if Succeeds(l, e) {
          MulMonotone(Successes(p, l', es[1..]), Successes(p, l, es), p.limit - 1);
        } else {
          LockedBudget(p, l, t, e.now, to);
        }
      }
    }
  }

  lemma LockedBudget(p: Policy, l: Lock, t: int, now: int, to: int)
    requires p.lockout >= 1 && IsLocked(l, now) && t <= now
    ensures Budget(p, l, now, to) == Budget(p, l, t, to)
  {}

  /** One batch per lockout begun in the window, and what password changes and successes
      give back. */
  function FailureBound(p: Policy, l: Lock, es: seq<Event>, length: nat): int
    requires p.lockout >= 1
  {
    p.limit * (length / p.lockout + 1) + p.limit * Resets(es) + (p.limit - 1) * Successes(p, l, es)
  }

  /** In any window of a run with a clock that does not go back, the failed checks are
      bounded so; without successes and password changes by limit times (window / lockout + 1). */
  lemma FailuresInWindow(p: Policy, l: Lock, es: seq<Event>, from: int, length: nat)
    requires p.Valid() && Sound(p, l, from) && Within(es, from, from + length)
    ensures Failures(p, l, es) <= FailureBound(p, l, es, length)
    ensures Resets(es) == 0 && Successes(p, l, es) == 0 ==>
              Failures(p, l, es) <= p.limit * (length / p.lockout + 1)
  {
    var to := from + length;
    FailuresWithinBudget(p, l, es, from, to);
    BudgetInWindow(p, l, from, length);
    if Resets(es) == 0 && Successes(p, l, es) == 0 {
      assert p.limit * Resets(es) == 0 && (p.limit - 1) * Successes(p, l, es) == 0;
    }
  }

  lemma BudgetInWindow(p: Policy, l: Lock, from: int, length: nat)
    requires p.lockout >= 1
    ensures Budget(p, l, from, from + length) <= p.limit * (length / p.lockout + 1)
  {
    RoundsAreQuotient(length, p.lockout);
    MulMonotone(length / p.lockout, length / p.lockout, p.limit);
    MulMonotone(0, length / p.lockout, p.limit);
    var start := if IsLocked(l, from) then l.until.value else from;
    if start <= from + length {
      BudgetShrinks(p, from, start, from + length);
    }
  }

  // ----- The bound is reached -----

  /** `n` failed attempts at one instant. */
  function Burst(now: int, n: nat): seq<Event> {
    if n == 0 then [] else [Attempt(now, false)] + Burst(now, n - 1)
  }

  /** A full burst as soon as each lock ends. */
  function Siege(p: Policy, now: int, rounds: nat): seq<Event>
    decreases rounds
  {
    if rounds == 0 then Burst(now, p.limit)
    else Burst(now, p.limit) + Siege(p, now + p.lockout, rounds - 1)
  }

  lemma {:induction false} BurstFails(p: Policy, l: Lock, now: int, n: nat, rest: seq<Event>)
    requires p.Valid() && !IsLocked(l, now) && l.failures + n == p.limit && 1 <= n
    ensures Failures(p, l, Burst(now, n) + rest) == n + Failures(p, Lock(0, Some(now + p.lockout)), rest)
    decreases n
  {
    var es := Burst(now, n) + rest;
    assert es[1..] == Burst(now, n - 1) + rest;
    if n == 1 {
      assert es[1..] == rest;
    } else {
      BurstFails(p, Step(p, l, es[0]), now, n - 1, rest);
    }
  }

  lemma {:induction false} BurstTimes(now: int, n: nat)
    ensures |Burst(now, n)| == n && forall i :: 0 <= i < n ==> Burst(now, n)[i] == Attempt(now, false)
  {
    if n > 0 {
      BurstTimes(now, n - 1);
    }
  }

  lemma {:induction false} SiegeTimes(p: Policy, now: int, rounds: nat)
    ensures Within(Siege(p, now, rounds), now, now + p.lockout * rounds)
    decreases rounds
  {
    BurstTimes(now, p.limit);
    if rounds > 0 {
      SiegeTimes(p, now + p.lockout, rounds - 1);
      MulMonotone(rounds - 1, rounds - 1, p.lockout);
      MulMonotone(0, rounds - 1, p.lockout);
    }
  }

  lemma {:induction false} SiegeFails(p: Policy, l: Lock, now: int, rounds: nat)
    requires p.Valid() && l.failures == 0 && !IsLocked(l, now)
    ensures Failures(p, l, Siege(p, now, rounds)) == p.limit * (rounds + 1)
    decreases rounds
  {
    if rounds == 0 {
      assert Siege(p, now, 0) == Burst(now, p.limit) + [];
      BurstFails(p, l, now, p.limit, []);
    } else {
      SiegeFails(p, Lock(0, Some(now + p.lockout)), now + p.lockout, rounds - 1);
      BurstFails(p, l, now, p.limit, Siege(p, now + p.lockout, rounds - 1));
      MulMonotone(rounds, rounds, p.limit);
    }
  }

  /** No smaller bound holds: for every number of lockouts some run of that length has
      exactly that many failed checks. */
  lemma BoundIsReached(p: Policy, now: int, rounds: nat)
    requires p.Valid()
    ensures exists es :: Within(es, now, now + p.lockout * rounds) && Failures(p, OPEN, es) == p.limit * (rounds + 1)
  {
    SiegeTimes(p, now, rounds);
    SiegeFails(p, OPEN, now, rounds);
  }

  // ----- What the caller is told -----

  const SECOND := 1000000

  /** The whole seconds a caller is asked to wait: rounded up, and at least one. */
  function RetryAfter(until: int, now: int): int {
    var whole := (until - now + SECOND - 1) / SECOND;
    if whole > 1 then whole else 1
  }

  /** Waiting as told is enough, and one second less is not. */
  lemma RetryAfterIsExact(l: Lock, now: int)
    requires IsLocked(l, now)
    ensures !IsLocked(l, now + RetryAfter(l.until.value, now) * 1000000)
    ensures IsLocked(l, now + (RetryAfter(l.until.value, now) - 1) * 1000000)
  {}
}
