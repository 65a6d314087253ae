/** Percentage rollouts: hashing a context into [0, 1] and picking a variation by cumulative weight.
    Models libs/server-sdk/src/evaluation/bucketing.cpp with exact arithmetic. The hash is an arbitrary
    function; K is the type of flag keys. */
module Bucketing {
  import opened Wrappers
  import opened AttributeReferences
  import Values

  type Value = Values.Value

  const BUCKET_SCALE: real := 100000.0
  const HASH_SCALE: nat := 0x0FFFFFFFFFFFFFFF

  datatype WeightedVariation = WeightedVariation(variation: int, weight: int, untracked: bool)

  datatype RolloutKind = Unrecognized | Experiment | Plain

  datatype Rollout = Rollout(variations: seq<WeightedVariation>, kind: RolloutKind, seed: Option<int>,
                             bucketBy: Reference, contextKind: string)

  datatype VariationOrRollout = FixedVariation(index: Option<int>) | ByRollout(rollout: Rollout)

  datatype Prefix<K> = Seed(seed: int) | KeyAndSalt(key: K, salt: string)

  datatype BucketError = MissingSalt | RolloutMissingVariations | InvalidAttributeReference(name: string)

  datatype BucketResult = BucketResult(variationIndex: int, inExperiment: bool)

  /** The first fifteen hexadecimal digits of a digest. */
  type Digits = n: nat | n <= HASH_SCALE

  /** What bucketing asks of a context, and the hash of a prefix and an id. */
  datatype Subject<!K> = Subject(get: (string, Reference) -> Value, kinds: set<string>, hash: (Prefix<K>, string) -> Digits)

  function Decimal(n: nat): string {
    var digit := ['0' + (n % 10) as char];
    if n < 10 then digit else Decimal(n / 10) + digit
  }

  /** The id that is hashed: strings as they are, whole numbers in decimal, nothing else. */
  function BucketValue(value: Value): Option<string> {
    match value
    case String(s) => Some(s)
    case Number(n) =>
      if n.Floor as real == n then Some(if n.Floor < 0 then "-" + Decimal(-n.Floor) else Decimal(n.Floor)) else None
    case _ => None
  }

  /** A bucket in [0, 1]. */
  function ContextHash<K>(subject: Subject<K>, value: Value, prefix: Prefix<K>): (r: Option<real>)
    ensures r.Some? ==> 0.0 <= r.value <= 1.0
  {
    match BucketValue(value)
    case Some(id) => Some(subject.hash(prefix, id) as real / HASH_SCALE as real)
    case None => None
  }

  /** The bucket of a context, and whether the rollout's kind is part of the context. Experiments always
      bucket by key. A value that cannot be hashed goes to bucket zero. */
  function Bucket<K>(subject: Subject<K>, byAttr: Reference, prefix: Prefix<K>, isExperiment: bool, kind: string)
    : (r: Result<(real, bool), BucketError>)
    ensures r.Success? ==> 0.0 <= r.value.0 <= 1.0
    ensures r.Failure? <==> !isExperiment && !byAttr.valid
  {
    var ref := if isExperiment then Reference(true, "key", ["key"]) else byAttr;
    if !ref.valid then Failure(InvalidAttributeReference(ref.redactionName))
    else
      var value := subject.get(kind, ref);
      if value.Number? || value.String? then
        match ContextHash(subject, value, prefix)
        case Some(bucket) => Success((bucket, true))
        case None => Success((0.0, true))
      else Success((0.0, kind in subject.kinds))
  }

  /** The share of the first n positions. */
  function Cumulative(variations: seq<WeightedVariation>, n: nat): real
    requires n <= |variations|
  {
    if n == 0 then 0.0 else Cumulative(variations, n - 1) + variations[n - 1].weight as real / BUCKET_SCALE
  }

  /** The first position whose cumulative share exceeds the bucket, or the last position. */
  ghost predicate Picks(variations: seq<WeightedVariation>, bucket: real, i: nat) {
    && i < |variations|
    && (forall n :: 1 <= n <= i ==> Cumulative(variations, n) <= bucket)
    && (i == |variations| - 1 || bucket < Cumulative(variations, i + 1))
  }

  function PositionFrom(variations: seq<WeightedVariation>, bucket: real, n: nat): (i: nat)
    requires n <= |variations| && variations != []
    requires forall m :: 1 <= m <= n ==> Cumulative(variations, m) <= bucket
    ensures Picks(variations, bucket, i)
    decreases |variations| - n
  {
    if n == |variations| then n - 1
    else if bucket < Cumulative(variations, n + 1) then n
    else PositionFrom(variations, bucket, n + 1)
  }

  /** The variation a rollout gives a bucket. */
  function RolloutResult(rollout: Rollout, bucket: real, present: bool): BucketResult
    requires rollout.variations != []
  {
    var chosen := rollout.variations[PositionFrom(rollout.variations, bucket, 0)];
    BucketResult(chosen.variation, rollout.kind == Experiment && present && !chosen.untracked)
  }

  function VariationFor<K>(subject: Subject<K>, vr: VariationOrRollout, flagKey: K, salt: Option<string>)
    : Result<BucketResult, BucketError>
  {
    if salt == None then Failure(MissingSalt)
    else
      match vr
      case FixedVariation(None) => Failure(RolloutMissingVariations)
      case FixedVariation(Some(index)) => Success(BucketResult(index, false))
      case ByRollout(rollout) =>
        if rollout.variations == [] then Failure(RolloutMissingVariations)
        else
          var prefix := if rollout.seed.Some? then Seed(rollout.seed.value) else KeyAndSalt(flagKey, salt.value);
          match Bucket(subject, rollout.bucketBy, prefix, rollout.kind == Experiment, rollout.contextKind)
          case Failure(e) => Failure(e)
          case Success((bucket, present)) => Success(RolloutResult(rollout, bucket, present))
  }

  method Variation<K>(subject: Subject<K>, vr: VariationOrRollout, flagKey: K, salt: Option<string>)
    returns (r: Result<BucketResult, BucketError>)
    ensures r == VariationFor(subject, vr, flagKey, salt)
  {
    if salt == None { return Failure(MissingSalt); }
    match vr {
      case FixedVariation(index) =>
        if index == None { return Failure(RolloutMissingVariations); }
        return Success(BucketResult(index.value, false));
      case ByRollout(rollout) =>
        if rollout.variations == [] { return Failure(RolloutMissingVariations); }
        var isExperiment := rollout.kind == Experiment;
        var prefix := if rollout.seed.Some? then Seed(rollout.seed.value) else KeyAndSalt(flagKey, salt.value);
        var bucketing := Bucket(subject, rollout.bucketBy, prefix, isExperiment, rollout.contextKind);
        if bucketing.Failure? { return Failure(bucketing.error); }
        var (bucket, present) := bucketing.value;
        var sum := 0.0;
        for i := 0 to |rollout.variations|
          invariant sum == Cumulative(rollout.variations, i)
          invariant forall n :: 1 <= n <= i ==> Cumulative(rollout.variations, n) <= bucket
          invariant PositionFrom(rollout.variations, bucket, 0) == PositionFrom(rollout.variations, bucket, i)
        {
          var variation := rollout.variations[i];
          sum := sum + variation.weight as real / BUCKET_SCALE;
          if bucket < sum {
            return Success(BucketResult(variation.variation, isExperiment && present && !variation.untracked));
          }
        }
        var last := rollout.variations[|rollout.variations| - 1];
        return Success(BucketResult(last.variation, isExperiment && present && !last.untracked));
    }
  }

  // ----- Cumulative intervals

  ghost predicate NonNegative(variations: seq<WeightedVariation>) {
    forall i :: 0 <= i < |variations| ==> variations[i].weight >= 0
  }

  lemma {:induction false} CumulativeMonotone(variations: seq<WeightedVariation>, i: nat, j: nat)
    requires NonNegative(variations) && i <= j <= |variations|
    ensures Cumulative(variations, i) <= Cumulative(variations, j)
  {
    if i < j {
      CumulativeMonotone(variations, i, j - 1);
      assert variations[j - 1].weight as real / BUCKET_SCALE >= 0.0;
    }
  }

  /** With non-negative weights the picked position is the one whose half-open cumulative interval holds
      the bucket; the last position also takes everything above. */
  lemma PicksByInterval(variations: seq<WeightedVariation>, bucket: real, i: nat)
    requires NonNegative(variations) && i < |variations| && bucket >= 0.0
    ensures Picks(variations, bucket, i) <==>
              Cumulative(variations, i) <= bucket
              && (i == |variations| - 1 || bucket < Cumulative(variations, i + 1))
  {
    if Cumulative(variations, i) <= bucket {
      forall n | 1 <= n <= i ensures Cumulative(variations, n) <= bucket {
        CumulativeMonotone(variations, n, i);
      }
    }
  }

  /** No two positions are picked, whatever the weights. */
  lemma PicksOne(variations: seq<WeightedVariation>, bucket: real, i: nat, j: nat)
    requires Picks(variations, bucket, i) && Picks(variations, bucket, j)
    ensures i == j
  {
  }

  /** Raising cumulative weights never moves a bucket to a later position. */
  lemma RaisingSharesNeverMovesLater(before: seq<WeightedVariation>, after: seq<WeightedVariation>, bucket: real, i: nat, j: nat)
    requires |before| == |after|
    requires forall n :: 0 <= n <= |before| ==> Cumulative(before, n) <= Cumulative(after, n)
    requires Picks(before, bucket, i) && Picks(after, bucket, j)
    ensures j <= i
  {
    assert i + 1 <= |before| ==> Cumulative(before, i + 1) <= Cumulative(after, i + 1);
  }

  // ----- Rollouts in whole numbers

  function WeightSum(variations: seq<WeightedVariation>, n: nat): int
    requires n <= |variations|
  {
    if n == 0 then 0 else WeightSum(variations, n - 1) + variations[n - 1].weight
  }

  /** Weights are in thousandths of a percent. */
  lemma {:induction false} SharesAreWeights(variations: seq<WeightedVariation>, n: nat)
    requires n <= |variations|
    ensures Cumulative(variations, n) * 100000.0 == WeightSum(variations, n) as real
  {
    if n > 0 { SharesAreWeights(variations, n - 1); }
  }

  /** The hash h, out of 2^60 - 1, falls in the i-th share of the weights; the last share takes the rest. */
  ghost predicate FallsIn(variations: seq<WeightedVariation>, h: nat, i: nat) {
    && i < |variations| && WeightSum(variations, i) * 0x0FFFFFFFFFFFFFFF <= h * 100000
    && (i == |variations| - 1 || h * 100000 < WeightSum(variations, i + 1) * 0x0FFFFFFFFFFFFFFF)
  }

  lemma FallsInIsPicked(variations: seq<WeightedVariation>, h: nat, i: nat)
    requires NonNegative(variations) && FallsIn(variations, h, i)
    ensures Picks(variations, h as real / HASH_SCALE as real, i)
  {
    SharesAreWeights(variations, i);
    if i + 1 < |variations| { SharesAreWeights(variations, i + 1); }
    hide Cumulative, WeightSum, Picks, NonNegative;
    var bucket := h as real / HASH_SCALE as real;
    assert Cumulative(variations, i) <= bucket;
    PicksByInterval(variations, bucket, i);
  }

  /** The attribute a rollout goes by: experiments always go by the key. */
  function RolloutReference(rollout: Rollout): Reference {
    if rollout.kind == Experiment then FromReference("key") else rollout.bucketBy
  }

  lemma KeyReference()
    ensures FromReference("key") == Reference(true, "key", ["key"])
  {
    ParsePlainReference("key");
  }

  lemma PickedPosition(rollout: Rollout, bucket: real, present: bool, i: nat)
    requires Picks(rollout.variations, bucket, i)
    ensures RolloutResult(rollout, bucket, present)
         == BucketResult(rollout.variations[i].variation,
                         rollout.kind == Experiment && present && !rollout.variations[i].untracked)
  {
    PicksOne(rollout.variations, bucket, i, PositionFrom(rollout.variations, bucket, 0));
  }

  /** A context whose attribute can be hashed gets the variation in whose share its hash falls. The hash is that of
      the seed and the attribute, or without a seed of the flag's key, its salt and the attribute. It is in the
      experiment exactly when the rollout is one and the variation is tracked. */
  lemma RolloutByHash<K>(subject: Subject<K>, rollout: Rollout, flagKey: K, salt: string, id: string, i: nat)
    requires NonNegative(rollout.variations) && (rollout.kind == Experiment || rollout.bucketBy.valid)
    requires BucketValue(subject.get(rollout.contextKind, RolloutReference(rollout))) == Some(id)
    requires FallsIn(rollout.variations,
                     subject.hash(if rollout.seed.Some? then Seed(rollout.seed.value) else KeyAndSalt(flagKey, salt), id), i)
    ensures VariationFor(subject, ByRollout(rollout), flagKey, Some(salt))
         == Success(BucketResult(rollout.variations[i].variation,
                                 rollout.kind == Experiment && !rollout.variations[i].untracked))
  {
    KeyReference();
    var prefix := if rollout.seed.Some? then Seed(rollout.seed.value) else KeyAndSalt(flagKey, salt);
    var h := subject.hash(prefix, id);
    FallsInIsPicked(rollout.variations, h, i);
    PickedPosition(rollout, h as real / HASH_SCALE as real, true, i);
    hide RolloutResult, NonNegative, Picks, FallsIn;
  }

  /** A context whose attribute cannot be hashed goes where hash zero would; a value that is no string or number
      counts for an experiment only when the context has the rollout's kind. */
  lemma RolloutWithoutHash<K>(subject: Subject<K>, rollout: Rollout, flagKey: K, salt: string, i: nat)
    requires NonNegative(rollout.variations) && (rollout.kind == Experiment || rollout.bucketBy.valid)
    requires BucketValue(subject.get(rollout.contextKind, RolloutReference(rollout))) == None
    requires FallsIn(rollout.variations, 0, i)
    ensures VariationFor(subject, ByRollout(rollout), flagKey, Some(salt))
         == Success(BucketResult(rollout.variations[i].variation,
                                 && rollout.kind == Experiment && !rollout.variations[i].untracked
                                 && (subject.get(rollout.contextKind, RolloutReference(rollout)).Number?
                                     || rollout.contextKind in subject.kinds)))
  {
    KeyReference();
    FallsInIsPicked(rollout.variations, 0, i);
    PickedPosition(rollout, 0.0, true, i);
    PickedPosition(rollout, 0.0, false, i);
    hide RolloutResult, NonNegative, Picks, FallsIn;
  }

  /** The only failures: no salt, nothing to choose from, or an invalid attribute outside experiments. */
  lemma WhenRolloutsFail<K>(subject: Subject<K>, vr: VariationOrRollout, flagKey: K, salt: Option<string>)
    ensures VariationFor(subject, vr, flagKey, salt).Failure? <==>
      || salt.None? || vr == FixedVariation(None)
      || (vr.ByRollout? && (vr.rollout.variations == [] || (vr.rollout.kind != Experiment && !vr.rollout.bucketBy.valid)))
    ensures salt.Some? && vr.FixedVariation? && vr.index.Some? ==>
      VariationFor(subject, vr, flagKey, salt) == Success(BucketResult(vr.index.value, false))
  {
  }

  /** The number a decimal numeral stands for. */
  function NumeralValue(s: string): int {
    if s == "" then 0 else 10 * NumeralValue(s[..|s| - 1]) + (s[|s| - 1] as int - '0' as int)
  }

  lemma {:induction false} DecimalReadsBack(n: nat)
    ensures NumeralValue(Decimal(n)) == n
    ensures Decimal(n) != "" && forall i :: 0 <= i < |Decimal(n)| ==> '0' <= Decimal(n)[i] <= '9'
  {
    if n >= 10 {
      DecimalReadsBack(n / 10);
      assert Decimal(n)[..|Decimal(n)| - 1] == Decimal(n / 10);
    } else {
      assert Decimal(n)[..0] == "";
    }
  }

  /** Strings are hashed as they are, whole numbers by their decimal numeral, and nothing else is. */
  lemma HashedIds(s: string, z: int, value: Value)
    ensures BucketValue(Values.String(s)) == Some(s)
    ensures
      var id := BucketValue(Values.Number(z as real));
      id.Some? && if z >= 0 then NumeralValue(id.value) == z else id.value[0] == '-' && NumeralValue(id.value[1..]) == -z
    ensures BucketValue(value).Some? <==> value.String? || (value.Number? && value.n == value.n.Floor as real)
  {
    hide Decimal, NumeralValue;
    assert (z as real).Floor == z;
    DecimalReadsBack(if z >= 0 then z else -z);
    if z < 0 { assert ("-" + Decimal(-z))[1..] == Decimal(-z); }
  }
}
