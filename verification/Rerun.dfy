/**
 Guarded re-runs: repeat a failed verification while the failures keep changing.
 */
module Rerun {
  import opened Wrappers

  /** A JavaScript field: absent, null, or some other value. */
  datatype Field = Undefined | Null | Of(value: nat)

  /** What JavaScript makes of `completed`: the value true, another truthy value, or a falsy one. */
  datatype Completed = True | Truthy | Falsy

  datatype Attempt = Attempt(
    adapter: Field, operation: Field, source: Field, condition: Field, stderr: Field, value: Field, completed: Completed)

  datatype Fingerprint = Fingerprint(
    adapter: Field, operation: Field, source: Field, condition: Field, stderr: Field, value: Field, completed: bool)

  function OrNull(f: Field): Field { if f.Undefined? then Null else f }

  /** What attemptFingerprint hashes; the hash is taken to be injective. */
  function FingerprintOf(a: Attempt): Fingerprint {
    Fingerprint(OrNull(a.adapter), OrNull(a.operation), OrNull(a.source), OrNull(a.condition), OrNull(a.stderr), OrNull(a.value),
                a.completed != Falsy)
  }

  datatype Risk = Low | High | Unknown

  datatype Reason = AlreadyCompleted | MaxAttempts | SideEffectRisk | RepeatedFailure | UnchangedSourceAndCondition

  datatype Decision = Run | Again | Stop(reason: Reason) | OutOfRange

  /** `maxAttempts` is None when the caller's value is no integer. */
  datatype Limits = Limits(maxAttempts: Option<int>, risk: Risk, allowRisky: bool)

  function Last(attempts: seq<Attempt>): Attempt
    requires attempts != []
  {
    attempts[|attempts| - 1]
  }

  predicate SeenBefore(attempts: seq<Attempt>)
    requires attempts != []
  {
    exists i | 0 <= i < |attempts| - 1 :: FingerprintOf(attempts[i]) == FingerprintOf(Last(attempts))
  }

  /** The second attempt had another source or ended in another condition. */
  predicate Differ(a: Attempt, b: Attempt) {
    a.source != b.source || a.condition != b.condition
  }

  function Decide(attempts: seq<Attempt>, limits: Limits): Decision {
    if attempts == [] then Run
    else if limits.maxAttempts.None? || !(1 <= limits.maxAttempts.value <= 3) then OutOfRange
    else if Last(attempts).completed == True then Stop(AlreadyCompleted)
    else if |attempts| >= limits.maxAttempts.value then Stop(MaxAttempts)
    else if limits.risk != Low && !limits.allowRisky then Stop(SideEffectRisk)
    else if SeenBefore(attempts) then Stop(RepeatedFailure)
    else if |attempts| > 1 && !Differ(attempts[|attempts| - 2], Last(attempts)) then Stop(UnchangedSourceAndCondition)
    else Again
  }

  /** Every attempt but the first was asked for: the attempts before it called for another one. */
  ghost predicate AskedFor(attempts: seq<Attempt>, limits: Limits) {
    forall n | 0 < n < |attempts| :: Decide(attempts[..n], limits) == Again
  }

  datatype Outcome =
    | Finished(completed: bool, reason: Reason, attempts: seq<Attempt>)
    | RangeError(attempts: seq<Attempt>)
    | Threw(attempts: seq<Attempt>)

  /** Repairs and evaluations are the caller's; they may throw, and answer anything. */
  method RunGuardedVerification(initial: Option<Attempt>, limits: Limits) returns (r: Outcome)
    ensures AskedFor(r.attempts, limits) && (initial.Some? ==> r.attempts != [] && r.attempts[0] == initial.value)
    ensures r.Finished? ==> Decide(r.attempts, limits) == Stop(r.reason) && (r.completed <==> r.reason == AlreadyCompleted)
    ensures r.RangeError? ==> Decide(r.attempts, limits) == OutOfRange
    ensures r.Threw? ==> Decide(r.attempts, limits) == Run || Decide(r.attempts, limits) == Again
  {
    var attempts := if initial.Some? then [initial.value] else [];
    while true
      invariant AskedFor(attempts, limits) && (initial.Some? ==> attempts != [] && attempts[0] == initial.value)
      invariant |attempts| <= 3
      decreases 4 - |attempts|
    {
      var decision := Decide(attempts, limits);
      if decision.Stop? { return Finished(decision.reason == AlreadyCompleted, decision.reason, attempts); }
      if decision.OutOfRange? { return RangeError(attempts); }
      var throws: bool := *;
      if throws { return Threw(attempts); }
      var result: Attempt := *;
      var longer := attempts + [result];
      forall n | 0 < n < |longer| ensures Decide(longer[..n], limits) == Again {
        if n < |attempts| { assert longer[..n] == attempts[..n]; } else { assert longer[..n] == attempts; }
      }
      attempts := longer;
    }
    assert false;
  }

  /** Limits the caller may set. */
  predicate InRange(limits: Limits) {
    limits.maxAttempts.Some? && 1 <= limits.maxAttempts.value <= 3
  }

  /** What a decision to go on says about the attempts so far. */
  lemma {:induction false} AgainMeans(attempts: seq<Attempt>, limits: Limits)
    requires Decide(attempts, limits) == Again
    ensures InRange(limits) && 0 < |attempts| < limits.maxAttempts.value && Last(attempts).completed != True
    ensures limits.risk == Low || limits.allowRisky
    ensures forall i | 0 <= i < |attempts| - 1 :: FingerprintOf(attempts[i]) != FingerprintOf(Last(attempts))
    ensures |attempts| > 1 ==> Differ(attempts[|attempts| - 2], Last(attempts))
  {}

  /**
   Attempts that were all asked for: at most as many as allowed, only the last one complete, all
   but the last with different fingerprints, and without approval of the risk only one.
   */
  lemma {:induction false} AskedForIsBounded(attempts: seq<Attempt>, limits: Limits)
    requires AskedFor(attempts, limits)
    ensures |attempts| > 1 ==> InRange(limits) && |attempts| <= limits.maxAttempts.value && (limits.risk == Low || limits.allowRisky)
    ensures forall i | 0 <= i < |attempts| - 1 :: attempts[i].completed != True
    ensures forall i, j | 0 <= i < j < |attempts| - 1 :: FingerprintOf(attempts[i]) != FingerprintOf(attempts[j])
    ensures forall i | 0 < i < |attempts| - 1 :: Differ(attempts[i - 1], attempts[i])
  {
    forall j | 0 <= j < |attempts| - 1
      ensures attempts[j].completed != True && forall i | 0 <= i < j :: FingerprintOf(attempts[i]) != FingerprintOf(attempts[j])
      ensures j > 0 ==> Differ(attempts[j - 1], attempts[j])
    {
      var front := attempts[..j + 1];
      AgainMeans(front, limits);
      assert forall i | 0 <= i < j :: attempts[i] == front[i];
    }
    if |attempts| > 1 { AgainMeans(attempts[..|attempts| - 1], limits); }
  }

  /** Limits out of range are only noticed once there is an attempt: the first evaluation has already run. */
  lemma {:induction false} RangeIsCheckedLate(attempts: seq<Attempt>, limits: Limits)
    requires AskedFor(attempts, limits)
    ensures !InRange(limits) <==> Decide([], limits) == Run && forall a :: Decide([a], limits) == OutOfRange
    ensures !InRange(limits) ==> |attempts| <= 1
  {
    if InRange(limits) {
      var a := Attempt(Null, Null, Null, Null, Null, Null, True);
      assert Decide([a], limits) == Stop(AlreadyCompleted);
    }
    if |attempts| > 1 { AgainMeans(attempts[..|attempts| - 1], limits); }
  }
}
