/** Reconnection delays: exponential growth, a cap, a plateau and jitter.
    Models libs/server-sent-events/src/backoff.cpp and libs/server-sent-events/src/backoff_detail.cpp. */
module Backoffs {
  import opened Wrappers

  function Pow2(n: nat): (r: nat)
    ensures r >= 1
  {
    if n == 0 then 1 else 2 * Pow2(n - 1)
  }

  function Min(a: nat, b: nat): nat { if a < b then a else b }

  /** The ceiling of the base-two logarithm: the least exponent whose power reaches q. */
  function CeilLog2(q: nat): (e: nat)
    requires q >= 1
    ensures q <= Pow2(e)
    ensures e > 0 ==> Pow2(e - 1) < q
  {
    if q == 1 then 0 else 1 + CeilLog2((q + 1) / 2)
  }

  /** The exponent cap. The quotient is an integer quotient, as both counts are integers. */
  function MaxExponent(initial: nat, max: nat): nat
    requires 1 <= max && initial <= max
  {
    CeilLog2(max / (if initial < 1 then 1 else initial))
  }

  function CalculateBackoff(initial: nat, attempt: nat, maxExponent: nat): nat
    requires attempt >= 1
  {
    initial * Pow2(Min(attempt - 1, maxExponent))
  }

  /** The delay before jitter. */
  function Base(initial: nat, max: nat, attempt: nat): nat
    requires 1 <= max && initial <= max && attempt >= 1
  {
    Min(CalculateBackoff(initial, attempt, MaxExponent(initial, max)), max)
  }

  /** The delay with a share `jitter` of it taken off, truncated to whole milliseconds. */
  function Jitter(base: nat, jitter: real): (r: nat)
    requires jitter <= 1.0
  {
    assert base as real - jitter * base as real == (1.0 - jitter) * base as real;
    NonNegativeProduct(1.0 - jitter, base as real);
    (base as real - jitter * base as real).Floor
  }

  lemma NonNegativeProduct(x: real, y: real)
    requires x >= 0.0 && y >= 0.0
    ensures x * y >= 0.0
  {
  }

  datatype State = State(attempt: nat, activeSince: Option<int>)

  datatype Op = Fail(now: int) | Succeed(now: int)

  /** A failure resets the attempts only after the connection was up for longer than the reset interval. */
  function Apply(s: State, op: Op, resetInterval: int): State {
    match op
    case Fail(now) =>
      State(if s.activeSince.Some? && now - s.activeSince.value > resetInterval then 1 else s.attempt + 1, None)
    case Succeed(now) => s.(activeSince := Some(now))
  }

  function Run(s: State, ops: seq<Op>, resetInterval: int): State {
    if ops == [] then s else Apply(Run(s, ops[..|ops| - 1], resetInterval), ops[|ops| - 1], resetInterval)
  }

  class Backoff {
    const initial: nat
    const max: nat
    const maxExponent: nat
    const resetInterval: int
    var attempt: nat
    var activeSince: Option<int>

    ghost predicate Valid()
      reads this
    {
      1 <= max && initial <= max && maxExponent == MaxExponent(initial, max) && attempt >= 1
    }

    ghost function View(): State
      reads this
    {
      State(attempt, activeSince)
    }

    constructor (initial: nat, max: nat, resetInterval: int)
      requires 1 <= max && initial <= max
      ensures Valid() && View() == State(1, None)
      ensures this.initial == initial && this.max == max && this.resetInterval == resetInterval
    {
      this.initial, this.max, this.resetInterval := initial, max, resetInterval;
      maxExponent := CeilLog2(max / (if initial < 1 then 1 else initial));
      attempt, activeSince := 1, None;
    }

    method ReportFailure(now: int)
      requires Valid()
      modifies this
      ensures Valid() && View() == Apply(old(View()), Fail(now), resetInterval)
    {
      if activeSince.Some? {
        var activeDuration := now - activeSince.value;
        if activeDuration > resetInterval { attempt := 1; } else { attempt := attempt + 1; }
      } else {
        attempt := attempt + 1;
      }
      activeSince := None;
    }

    method ReportSuccess(now: int)
      requires Valid()
      modifies this
      ensures Valid() && View() == Apply(old(View()), Succeed(now), resetInterval)
    {
      activeSince := Some(now);
    }

    method Delay(random: real) returns (delay: nat)
      requires Valid() && random <= 1.0
      ensures delay == Jitter(Base(initial, max, attempt), random)
    {
      var backoff := CalculateBackoff(initial, attempt, maxExponent);
      delay := Jitter(Min(backoff, max), random);
    }
  }

  // ----- The exponent cap

  lemma MulMonotone(a: nat, b: nat, c: nat)
    requires b <= c
    ensures a * b <= a * c
  {
  }

  lemma ProductBounds(initial: nat, max: nat, q: nat, power: nat, half: nat)
    requires initial >= 1 && initial * q <= max < initial * q + initial
    requires q <= power && (power == q == 1 || (power == 2 * half && half < q))
    ensures max - initial < initial * power < 2 * max
  {
    MulMonotone(initial, q, power);
    if power != 1 {
      MulMonotone(initial, half + 1, q);
      assert initial * (half + 1) == initial * half + initial;
      assert initial * power == initial * half + initial * half by { Doubled(initial, half); }
    }
  }

  lemma Doubled(a: nat, b: nat)
    ensures a * (2 * b) == a * b + a * b
  {
  }

  /** The capped product never reaches twice the maximum, nor falls short of it by the initial delay. */
  lemma CappedProduct(initial: nat, max: nat)
    requires 1 <= initial <= max
    ensures max - initial < initial * Pow2(MaxExponent(initial, max)) < 2 * max
  {
    hide *;
    Quotient(initial, max);
    ExponentBounds(initial, max);
    var e := MaxExponent(initial, max);
    ProductBounds(initial, max, max / initial, Pow2(e), if e > 0 then Pow2(e - 1) else 0);
  }

  lemma Quotient(initial: nat, max: nat)
    requires 1 <= initial <= max
    ensures max == initial * (max / initial) + max % initial && max % initial < initial
  {
  }

  lemma ExponentBounds(initial: nat, max: nat)
    requires 1 <= initial <= max
    ensures
      var q, e := max / initial, MaxExponent(initial, max);
      q <= Pow2(e) && if e == 0 then q == Pow2(e) == 1 else Pow2(e) == 2 * Pow2(e - 1) && Pow2(e - 1) < q
  {
    assert max / initial >= 1;
    assert MaxExponent(initial, max) == CeilLog2(max / initial);
  }

  lemma {:induction false} Pow2Monotone(a: nat, b: nat)
    requires a <= b
    ensures Pow2(a) <= Pow2(b)
  {
    if a < b { Pow2Monotone(a, b - 1); }
  }

  /** More attempts never shorten the delay before jitter, which never exceeds the maximum. */
  lemma BaseIsMonotone(initial: nat, max: nat, a: nat, b: nat)
    requires 1 <= max && initial <= max && 1 <= a <= b
    ensures Base(initial, max, a) <= Base(initial, max, b) <= max
  {
    var e := MaxExponent(initial, max);
    Pow2Monotone(Min(a - 1, e), Min(b - 1, e));
    MulMonotone(initial, Pow2(Min(a - 1, e)), Pow2(Min(b - 1, e)));
  }

  /** Once the attempts pass the cap the delay stays at one value, above half the maximum. */
  lemma Plateau(initial: nat, max: nat, attempt: nat)
    requires 1 <= initial <= max
    requires attempt > MaxExponent(initial, max)
    ensures Base(initial, max, attempt) == Min(initial * Pow2(MaxExponent(initial, max)), max)
    ensures 2 * Base(initial, max, attempt) > max
  {
    CappedProduct(initial, max);
    var e := MaxExponent(initial, max);
    var q := max / initial;
    if e == 0 {
      assert q == 1;
      assert max < 2 * initial;
    } else {
      Pow2Monotone(1, e);
      MulMonotone(initial, 2, Pow2(e));
    }
  }

  /** The delay reaches the configured maximum unless the integer quotient is a power of two and inexact. */
  lemma PlateauIsMaximum(initial: nat, max: nat, attempt: nat)
    requires 1 <= initial <= max
    requires attempt > MaxExponent(initial, max)
    ensures Base(initial, max, attempt) == max
       <==> !(max / initial == Pow2(MaxExponent(initial, max)) && max % initial != 0)
  {
    hide *;
    Plateau(initial, max, attempt);
    Quotient(initial, max);
    ExponentBounds(initial, max);
    CapMeetsMaximum(initial, max, max / initial, max % initial, Pow2(MaxExponent(initial, max)));
  }

  lemma CapMeetsMaximum(initial: nat, max: nat, q: nat, rest: nat, power: nat)
    requires max == initial * q + rest && rest < initial && q <= power
    ensures Min(initial * power, max) == max <==> !(q == power && rest != 0)
  {
    if q < power {
      MulMonotone(initial, q + 1, power);
      assert initial * (q + 1) == initial * q + initial;
    }
  }

  /** With a three millisecond maximum and a two millisecond start the delay never leaves two. */
  lemma PlateauBelowMaximum(attempt: nat)
    requires attempt >= 1
    ensures Base(2, 3, attempt) == 2
  {
    assert MaxExponent(2, 3) == 0;
  }

  // ----- Jitter and whole runs

  lemma ProductMonotone(x: real, y: real, z: real)
    requires x <= y && z >= 0.0
    ensures x * z <= y * z
  {
  }

  lemma JitterBounds(base: nat, jitter: real, ratio: real)
    requires 0.0 <= jitter <= ratio <= 1.0
    ensures ((1.0 - ratio) * base as real).Floor <= Jitter(base, jitter) <= base
  {
    var b := base as real;
    ProductMonotone(1.0 - ratio, 1.0 - jitter, b);
    assert (1.0 - jitter) * b == b - jitter * b;
    NonNegativeProduct(jitter, b);
  }

  lemma {:induction false} RunAttempts(ops: seq<Op>, resetInterval: int)
    ensures 1 <= Run(State(1, None), ops, resetInterval).attempt <= |ops| + 1
  {
    if ops != [] { RunAttempts(ops[..|ops| - 1], resetInterval); }
  }

  /** After any run of failures and successes, the delay is within the jitter share of a base that is at
      least the smaller of the initial delay and the maximum, and at most the maximum. */
  lemma DelayAfterAnyRun(initial: nat, max: nat, ops: seq<Op>, resetInterval: int, random: real, ratio: real)
    requires 1 <= max && initial <= max
    requires 0.0 <= random <= ratio <= 1.0
    ensures
      var attempt := Run(State(1, None), ops, resetInterval).attempt;
      && attempt >= 1
      && var base := Base(initial, max, attempt);
      && initial <= base <= max
      && ((1.0 - ratio) * base as real).Floor <= Jitter(base, random) <= base
  {
    hide Base, Jitter, Run;
    RunAttempts(ops, resetInterval);
    var attempt := Run(State(1, None), ops, resetInterval).attempt;
    FirstBase(initial, max);
    BaseIsMonotone(initial, max, 1, attempt);
    JitterBounds(Base(initial, max, attempt), random, ratio);
  }

  lemma FirstBase(initial: nat, max: nat)
    requires 1 <= max && initial <= max
    ensures Base(initial, max, 1) == initial
  {
    assert Pow2(0) == 1;
  }

  /** The delay is the base less its share, truncated. */
  lemma JitterIs(base: nat, jitter: real)
    requires jitter <= 1.0
    ensures Jitter(base, jitter) as real <= (1.0 - jitter) * base as real < Jitter(base, jitter) as real + 1.0
  {
    assert base as real - jitter * base as real == (1.0 - jitter) * base as real;
  }

  /** The delay before jitter starts at the initial delay and doubles with every attempt up to the cap. */
  lemma BaseDoubles(initial: nat, max: nat, attempt: nat)
    requires 1 <= initial <= max && 1 <= attempt <= MaxExponent(initial, max)
    ensures Base(initial, max, 1) == initial
    ensures Base(initial, max, attempt + 1) == Min(2 * Base(initial, max, attempt), max)
  {
    FirstBase(initial, max);
    assert Pow2(attempt) == 2 * Pow2(attempt - 1);
    hide Pow2, MaxExponent;
    DoubledProduct(initial, Pow2(attempt - 1));
  }

  lemma DoubledProduct(a: nat, b: nat)
    ensures a * (2 * b) == 2 * (a * b)
  {
  }

  /** A failure resets the attempts: it follows a success directly, by more than the reset interval. */
  ghost predicate Resets(ops: seq<Op>, i: nat, resetInterval: int) {
    0 < i < |ops| && ops[i].Fail? && ops[i - 1].Succeed? && ops[i].now - ops[i - 1].now > resetInterval
  }

  function Failures(ops: seq<Op>): nat {
    if ops == [] then 0 else Failures(ops[..|ops| - 1]) + if ops[|ops| - 1].Fail? then 1 else 0
  }

  lemma {:induction false} ActiveSince(ops: seq<Op>, resetInterval: int)
    ensures Run(State(1, None), ops, resetInterval).activeSince
         == if ops != [] && ops[|ops| - 1].Succeed? then Some(ops[|ops| - 1].now) else None
  {
  }

  /** After any run the attempt is one more than the failures since the last one that reset it, or since the start. */
  lemma {:induction false} AttemptsCountFailures(ops: seq<Op>, resetInterval: int, since: nat)
    requires since <= |ops| && (since > 0 ==> Resets(ops, since - 1, resetInterval))
    requires forall i :: since <= i < |ops| ==> !Resets(ops, i, resetInterval)
    ensures Run(State(1, None), ops, resetInterval).attempt == 1 + Failures(ops[since..])
    decreases ops
  {
    if ops != [] {
      var init, last := ops[..|ops| - 1], ops[|ops| - 1];
      ActiveSince(init, resetInterval);
      if since == |ops| {
        assert ops[since..] == [];
      } else {
        forall i | since <= i < |init| ensures !Resets(init, i, resetInterval) {
          assert !Resets(ops, i, resetInterval);
        }
        AttemptsCountFailures(init, resetInterval, since);
        assert ops[since..][..|ops[since..]| - 1] == init[since..];
        assert !Resets(ops, |init|, resetInterval);
      }
    }
  }
}
