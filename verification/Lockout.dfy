/**
  PIN login with lockout (backend/app/services/auth_service.py).

  Every look at the clock is its own reading: `first[i]` and `second[i]` are those at
  which the two loops look at PIN i, `locks[i]` the one from which a lock is counted.
 */
module Lockout {
  import opened Wrappers

  datatype Pin = Pin(hash: string, active: bool, failedAttempts: int, lockedUntil: Option<int>, lastLogin: Option<int>)

  datatype Policy = Policy(threshold: int, lockout: int)

  predicate Locked(p: Pin, now: int) { p.lockedUntil.Some? && p.lockedUntil.value > now }

  /** An attempt with its clock readings. */
  datatype Attempt = Attempt(entered: string, first: seq<int>, second: seq<int>, locks: seq<int>, at: int)
  {
    predicate For(n: nat) { |first| == |second| == |locks| == n }
  }

  type Verifier = (string, string) -> bool

  predicate Accepts(p: Pin, a: Attempt, i: nat, verify: Verifier)
    requires i < |a.first|
  {
    p.active && !Locked(p, a.first[i]) && verify(a.entered, p.hash)
  }

  predicate LogsIn(pins: seq<Pin>, a: Attempt, verify: Verifier, i: nat)
    requires a.For(|pins|) && i < |pins|
  {
    Accepts(pins[i], a, i, verify) && forall j :: 0 <= j < i ==> !Accepts(pins[j], a, j, verify)
  }

  predicate Fails(pins: seq<Pin>, a: Attempt, verify: Verifier)
    requires a.For(|pins|)
  {
    forall i :: 0 <= i < |pins| ==> !Accepts(pins[i], a, i, verify)
  }

  function LoggedIn(p: Pin, at: int): Pin { p.(failedAttempts := 0, lockedUntil := None, lastLogin := Some(at)) }

  /** A login forgets earlier failures and any lock, and notes the time. */
  predicate Cleared(before: Pin, p: Pin, at: int) {
    p.failedAttempts == 0 && p.lockedUntil.None? && p.lastLogin == Some(at)
    && p.hash == before.hash && p.active == before.active
  }

  /** One failure more, or, at the threshold, a lock for the lockout time and a fresh count. */
  predicate CountedOnce(before: Pin, p: Pin, lock: int, policy: Policy) {
    && (before.failedAttempts + 1 < policy.threshold ==>
          p.failedAttempts == before.failedAttempts + 1 && p.lockedUntil == before.lockedUntil)
    && (before.failedAttempts + 1 >= policy.threshold ==>
          p.failedAttempts == 0 && p.lockedUntil == Some(lock + policy.lockout))
    && p.hash == before.hash && p.active == before.active && p.lastLogin == before.lastLogin
  }

  predicate Counts(p: Pin, now: int) { p.active && !Locked(p, now) }

  /** A failed attempt counts against every active PIN that is not locked. */
  function Penalized(p: Pin, second: int, lock: int, policy: Policy): Pin {
    if !Counts(p, second) then p
    else if p.failedAttempts + 1 >= policy.threshold then
      p.(failedAttempts := 0, lockedUntil := Some(lock + policy.lockout))
    else p.(failedAttempts := p.failedAttempts + 1)
  }

  ghost predicate Attempted(before: seq<Pin>, after: seq<Pin>, a: Attempt, verify: Verifier, policy: Policy)
    requires a.For(|before|)
  {
    && |after| == |before|
    && forall i :: 0 <= i < |before| ==>
      after[i] ==
        if Fails(before, a, verify) then Penalized(before[i], a.second[i], a.locks[i], policy)
        else if LogsIn(before, a, verify, i) then LoggedIn(before[i], a.at)
        else before[i]
  }

  class PinTable {
    const policy: Policy
    const verify: Verifier
    var pins: seq<Pin>

    constructor (pins: seq<Pin>, policy: Policy, verify: Verifier)
      ensures this.pins == pins && this.policy == policy && this.verify == verify
    {
      this.pins, this.policy, this.verify := pins, policy, verify;
    }

    /** The PIN that matches, if any; a failure is counted against the others only when none does. */
    method AttemptLogin(a: Attempt) returns (matched: Option<nat>)
      requires a.For(|pins|)
      modifies this
      ensures Attempted(old(pins), pins, a, verify, policy)
      ensures matched.None? <==> Fails(old(pins), a, verify)
      ensures matched.Some? ==> matched.value < |old(pins)| && LogsIn(old(pins), a, verify, matched.value)
      ensures matched.Some? ==>
        && Cleared(old(pins)[matched.value], pins[matched.value], a.at)
        && forall i :: 0 <= i < |pins| && i != matched.value ==> pins[i] == old(pins)[i]
      ensures matched.Some? ==>
        var p := old(pins)[matched.value];
        && p.active && verify(a.entered, p.hash)
        && (p.lockedUntil.Some? ==> p.lockedUntil.value <= a.first[matched.value])
      ensures matched.None? ==> forall i :: 0 <= i < |pins| ==>
        var p := old(pins)[i];
        if p.active && (p.lockedUntil.Some? ==> p.lockedUntil.value <= a.second[i]) then
          CountedOnce(old(pins)[i], pins[i], a.locks[i], policy)
        else
          pins[i] == old(pins)[i]
    {
      for i := 0 to |pins|
        invariant pins == old(pins)
        invariant forall j :: 0 <= j < i ==> !Accepts(pins[j], a, j, verify)
      {
        var p := pins[i];
        if p.active && !Locked(p, a.first[i]) && verify(a.entered, p.hash) {
          pins := pins[i := pins[i].(failedAttempts := 0)];
          pins := pins[i := pins[i].(lockedUntil := None)];
          pins := pins[i := pins[i].(lastLogin := Some(a.at))];
          return Some(i);
        }
      }
      for i := 0 to |pins|
        invariant |pins| == |old(pins)|
        invariant forall j :: 0 <= j < i ==> pins[j] == Penalized(old(pins)[j], a.second[j], a.locks[j], policy)
        invariant forall j :: i <= j < |pins| ==> pins[j] == old(pins)[j]
      {
        if pins[i].active && !Locked(pins[i], a.second[i]) {
          pins := pins[i := pins[i].(failedAttempts := pins[i].failedAttempts + 1)];
          if pins[i].failedAttempts >= policy.threshold {
            pins := pins[i := pins[i].(lockedUntil := Some(a.locks[i] + policy.lockout))];
            pins := pins[i := pins[i].(failedAttempts := 0)];
          }
        }
      }
      matched := None;
    }
  }

  // ---- Runs -------------------------------------------------------------------

  /** The states a run passes through: states[k + 1] is the outcome of attempt k on states[k]. */
  ghost predicate IsRun(states: seq<seq<Pin>>, attempts: seq<Attempt>, verify: Verifier, policy: Policy) {
    && |states| == |attempts| + 1
    && forall k :: 0 <= k < |attempts| ==>
      attempts[k].For(|states[k]|) && Attempted(states[k], states[k + 1], attempts[k], verify, policy)
  }

  /** A counter below the threshold stays below it, and a PIN locked when it is looked at does not log in. */
  lemma AttemptKeepsBounds(before: seq<Pin>, after: seq<Pin>, a: Attempt, verify: Verifier, policy: Policy, i: nat)
    requires a.For(|before|) && Attempted(before, after, a, verify, policy) && i < |before|
    requires policy.threshold >= 1 && 0 <= before[i].failedAttempts < policy.threshold
    ensures 0 <= after[i].failedAttempts < policy.threshold
    ensures Locked(before[i], a.first[i]) ==> !LogsIn(before, a, verify, i)
    ensures Locked(before[i], a.first[i]) && a.first[i] <= a.second[i] < before[i].lockedUntil.value
        ==> after[i] == before[i]
  {
  }

  lemma {:induction false} CountersStayBelow(states: seq<seq<Pin>>, attempts: seq<Attempt>, verify: Verifier,
                                             policy: Policy, i: nat, k: nat)
    requires IsRun(states, attempts, verify, policy) && k < |states|
    requires policy.threshold >= 1 && i < |states[0]| && 0 <= states[0][i].failedAttempts < policy.threshold
    ensures |states[k]| == |states[0]| && 0 <= states[k][i].failedAttempts < policy.threshold
  {
    if k > 0 {
      CountersStayBelow(states, attempts, verify, policy, i, k - 1);
      AttemptKeepsBounds(states[k - 1], states[k], attempts[k - 1], verify, policy, i);
    }
  }

  /** Attempt k is counted against PIN i. */
  predicate CountsAt(states: seq<seq<Pin>>, attempts: seq<Attempt>, verify: Verifier, i: nat, k: nat)
    requires k < |attempts| && k < |states| && attempts[k].For(|states[k]|) && i < |states[k]|
  {
    Fails(states[k], attempts[k], verify) && Counts(states[k][i], attempts[k].second[i])
  }

  predicate RightShape(states: seq<seq<Pin>>, attempts: seq<Attempt>, i: nat) {
    |states| == |attempts| + 1 && forall k :: 0 <= k < |attempts| ==> attempts[k].For(|states[k]|) && i < |states[k]|
  }

  /** How many of the first k attempts are counted against PIN i. */
  function Failures(states: seq<seq<Pin>>, attempts: seq<Attempt>, verify: Verifier, i: nat, k: nat): nat
    requires RightShape(states, attempts, i) && k <= |attempts|
  {
    if k == 0 then 0
    else Failures(states, attempts, verify, i, k - 1) + if CountsAt(states, attempts, verify, i, k - 1) then 1 else 0
  }

  /** The clock as PIN i sees it does not run backwards. */
  predicate Monotone(attempts: seq<Attempt>, i: nat, start: int) {
    && (forall k :: 0 <= k < |attempts| ==>
          i < |attempts[k].second| && i < |attempts[k].locks| && start <= attempts[k].second[i] <= attempts[k].locks[i])
    && (forall k, l :: 0 <= k < l < |attempts| ==>
          i < |attempts[k].locks| && i < |attempts[l].second| && attempts[k].second[i] <= attempts[l].second[i])
  }

  /**
    After n failures, the last at `last`: n = q * threshold + the counter, and q lockouts have
    been waited out or begun.
   */
  ghost predicate Paced(p: Pin, n: nat, q: nat, last: int, start: int, policy: Policy) {
    && n == q * policy.threshold + p.failedAttempts && 0 <= p.failedAttempts < policy.threshold
    && (p.failedAttempts > 0 ==> last >= start + q * policy.lockout)
    && (p.failedAttempts == 0 && q > 0 ==>
          p.lockedUntil.Some? && p.lockedUntil.value >= start + q * policy.lockout
              && last >= start + (q - 1) * policy.lockout)
  }

  lemma PenaltyIsPaced(p: Pin, n: nat, q: nat, last: int, start: int, policy: Policy, second: int, lock: int)
    returns (q': nat)
    requires policy.threshold >= 1 && policy.lockout >= 1
    requires Paced(p, n, q, last, start, policy) && Counts(p, second)
    requires start <= second <= lock && last <= second
    ensures Paced(Penalized(p, second, lock, policy), n + 1, q', second, start, policy)
  {
    assert second >= start + q * policy.lockout;
    if p.failedAttempts + 1 >= policy.threshold {
      assert (q + 1) * policy.threshold == q * policy.threshold + policy.threshold;
      assert (q + 1) * policy.lockout == q * policy.lockout + policy.lockout;
      q' := q + 1;
    } else {
      q' := q;
    }
  }

  lemma PacedIsBounded(p: Pin, n: nat, q: nat, last: int, start: int, elapsed: nat, policy: Policy)
    requires policy.threshold >= 1 && policy.lockout >= 1
    requires Paced(p, n, q, last, start, policy) && (n > 0 ==> last <= start + elapsed)
    ensures n <= policy.threshold * (elapsed / policy.lockout + 1)
  {
    var waited := elapsed / policy.lockout;
    if p.failedAttempts > 0 {
      Divides(elapsed, q, policy.lockout);
      Times(q, waited, policy.threshold);
    } else if q > 0 {
      Times(1, q, policy.threshold);
      Divides(elapsed, q - 1, policy.lockout);
      Times(q - 1, waited, policy.threshold);
      Distributes(q - 1, policy.threshold);
    } else {
      Times(0, waited, policy.threshold);
    }
    Distributes(waited, policy.threshold);
  }

  lemma Distributes(a: int, b: int)
    ensures (a + 1) * b == a * b + b && b * (a + 1) == a * b + b
  {
  }

  lemma Divides(a: nat, k: nat, b: int)
    requires b >= 1 && k * b <= a
    ensures k <= a / b
  {
    var w := a / b;
    assert a < (w + 1) * b;
    if w < k { Times(w + 1, k, b); }
  }

  lemma Times(a: int, b: int, c: int)
    requires a <= b && c >= 0
    ensures a * c <= b * c
  {
    assert (b - a) * c >= 0;
  }

  /** Without a login on PIN i, its failures after k attempts are paced by the lockouts. */
  lemma {:induction false} RunIsPaced(states: seq<seq<Pin>>, attempts: seq<Attempt>, verify: Verifier, policy: Policy,
                                     i: nat, start: int, k: nat)
    returns (q: nat, last: int)
    requires policy.threshold >= 1 && policy.lockout >= 1
    requires IsRun(states, attempts, verify, policy) && RightShape(states, attempts, i) && k <= |attempts|
    requires |states[0]| > i && states[0][i].failedAttempts == 0
    requires forall l :: 0 <= l < |attempts| ==> !LogsIn(states[l], attempts[l], verify, i)
    requires Monotone(attempts, i, start)
    ensures |states[k]| > i
    ensures Paced(states[k][i], Failures(states, attempts, verify, i, k), q, last, start, policy)
    ensures Failures(states, attempts, verify, i, k) == 0 ==> last == start
    ensures last == start || exists l :: 0 <= l < k && last == attempts[l].second[i]
  {
    if k == 0 {
      return 0, start;
    }
    q, last := RunIsPaced(states, attempts, verify, policy, i, start, k - 1);
    var a := attempts[k - 1];
    var p, n := states[k - 1][i], Failures(states, attempts, verify, i, k - 1);
    if CountsAt(states, attempts, verify, i, k - 1) {
      assert last <= a.second[i];
      q := PenaltyIsPaced(p, n, q, last, start, policy, a.second[i], a.locks[i]);
      last := a.second[i];
    } else {
      assert states[k][i] == p;
    }
  }

  /**
    By time `elapsed` after the start, at most threshold failures per started lockout period
    are counted against a PIN.
   */
  lemma FailureRateIsBounded(states: seq<seq<Pin>>, attempts: seq<Attempt>, verify: Verifier, policy: Policy,
                               i: nat, start: int, elapsed: nat)
    requires policy.threshold >= 1 && policy.lockout >= 1
    requires IsRun(states, attempts, verify, policy) && RightShape(states, attempts, i)
    requires |states[0]| > i && states[0][i].failedAttempts == 0
    requires forall l :: 0 <= l < |attempts| ==> !LogsIn(states[l], attempts[l], verify, i)
    requires Monotone(attempts, i, start)
    requires forall l :: 0 <= l < |attempts| ==> i < |attempts[l].second| && attempts[l].second[i] <= start + elapsed
    ensures Failures(states, attempts, verify, i, |attempts|) <= policy.threshold * (elapsed / policy.lockout + 1)
  {
    var q, last := RunIsPaced(states, attempts, verify, policy, i, start, |attempts|);
    PacedIsBounded(states[|attempts|][i], Failures(states, attempts, verify, i, |attempts|), q, last, start, elapsed,
        policy);
  }
}
