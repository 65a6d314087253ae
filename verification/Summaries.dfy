/** Summary counters of feature events.
    Models libs/internal/src/events/summarizer.cpp; counts are unbounded here. K is the type of strings. */
module Summaries {
  import opened Wrappers
  import opened Values

  datatype Feature<K> = Feature(key: K, version: Option<nat>, variation: Option<nat>, value: Value, default_: Value, kinds: set<K>)

  datatype VariationKey = VariationKey(version: Option<nat>, variation: Option<nat>)

  datatype Counter = Counter(count: nat, value: Value)

  datatype FlagSummary<K> = FlagSummary(default_: Value, kinds: set<K>, counters: map<VariationKey, Counter>)

  type Summary<K> = map<K, FlagSummary<K>>

  function CounterOf<K>(f: Feature<K>): VariationKey { VariationKey(f.version, f.variation) }

  function UpdatedFlag<K>(old_: FlagSummary<K>, f: Feature<K>): FlagSummary<K> {
    var k := CounterOf(f);
    var counter := if k in old_.counters then old_.counters[k] else Counter(0, f.value);
    FlagSummary(old_.default_, old_.kinds + f.kinds, old_.counters[k := counter.(count := counter.count + 1)])
  }

  function Updated<K>(s: Summary<K>, f: Feature<K>): Summary<K> {
    s[f.key := UpdatedFlag(if f.key in s then s[f.key] else FlagSummary(f.default_, {}, map[]), f)]
  }

  function SummaryOf<K>(features: seq<Feature<K>>): Summary<K> {
    if features == [] then map[] else Updated(SummaryOf(features[..|features| - 1]), features[|features| - 1])
  }

  class Summarizer<K(==)> {
    var features: Summary<K>

    constructor ()
      ensures features == map[]
    {
      features := map[];
    }

    predicate Empty()
      reads this
    {
      features == map[]
    }

    method Update(event: Feature<K>)
      modifies this
      ensures features == Updated(old(features), event)
    {
      if event.key !in features {
        features := features[event.key := FlagSummary(event.default_, {}, map[])];
      }
      var state := features[event.key];
      state := state.(kinds := state.kinds + event.kinds);
      var key := VariationKey(event.version, event.variation);
      if key !in state.counters {
        state := state.(counters := state.counters[key := Counter(0, event.value)]);
      }
      state := state.(counters := state.counters[key := state.counters[key].(count := state.counters[key].count + 1)]);
      features := features[event.key := state];
      assert state.counters == Updated(old(features), event)[event.key].counters;
      assert features == Updated(old(features), event);
    }
  }

  // ----- The counters count

  /** How many of the events are for the flag and counter. */
  function Occurrences<K(==)>(features: seq<Feature<K>>, key: K, counter: VariationKey): nat {
    if features == [] then 0
    else
      var last := features[|features| - 1];
      Occurrences(features[..|features| - 1], key, counter) + if last.key == key && CounterOf(last) == counter then 1 else 0
  }

  function Counted<K>(s: Summary<K>, key: K, counter: VariationKey): nat {
    if key in s && counter in s[key].counters then s[key].counters[counter].count else 0
  }

  /** Each counter of a summary is the number of events for it, and exists exactly when there is one. */
  lemma {:induction false} CountsEvents<K>(features: seq<Feature<K>>, key: K, counter: VariationKey)
    ensures Counted(SummaryOf(features), key, counter) == Occurrences(features, key, counter)
    ensures key in SummaryOf(features) && counter in SummaryOf(features)[key].counters <==> Occurrences(features, key, counter) > 0
  {
    if features != [] { CountsEvents(features[..|features| - 1], key, counter); }
  }

  /** A summary is empty exactly when there was no event. */
  lemma EmptySummary<K>(features: seq<Feature<K>>)
    ensures SummaryOf(features) == map[] <==> features == []
  {
    if features != [] { assert features[|features| - 1].key in SummaryOf(features); }
  }

  // ----- What else a summary holds

  /** The default a summary reports for a flag is that of the first event for it. */
  lemma {:induction false} FirstDefaultIsKept<K>(features: seq<Feature<K>>, i: nat)
    requires i < |features| && forall n :: 0 <= n < i ==> features[n].key != features[i].key
    ensures features[i].key in SummaryOf(features) && SummaryOf(features)[features[i].key].default_ == features[i].default_
    decreases features
  {
    var init, last := features[..|features| - 1], features[|features| - 1];
    if i < |init| {
      FirstDefaultIsKept(init, i);
    } else {
      UnknownFlag(init, last.key);
    }
  }

  lemma {:induction false} UnknownFlag<K>(features: seq<Feature<K>>, key: K)
    requires forall n :: 0 <= n < |features| ==> features[n].key != key
    ensures key !in SummaryOf(features)
    decreases features
  {
    if features != [] { UnknownFlag(features[..|features| - 1], key); }
  }

  /** The value a counter reports is that of the first event counted by it. */
  lemma {:induction false} FirstValueIsKept<K>(features: seq<Feature<K>>, i: nat)
    requires i < |features|
    requires forall n :: 0 <= n < i ==> features[n].key != features[i].key || CounterOf(features[n]) != CounterOf(features[i])
    ensures
      var key, counter := features[i].key, CounterOf(features[i]);
      && key in SummaryOf(features) && counter in SummaryOf(features)[key].counters
      && SummaryOf(features)[key].counters[counter].value == features[i].value
    decreases features
  {
    var init, last := features[..|features| - 1], features[|features| - 1];
    if i < |init| {
      FirstValueIsKept(init, i);
    } else {
      UnknownCounter(init, last.key, CounterOf(last));
    }
  }

  lemma {:induction false} UnknownCounter<K>(features: seq<Feature<K>>, key: K, counter: VariationKey)
    requires forall n :: 0 <= n < |features| ==> features[n].key != key || CounterOf(features[n]) != counter
    ensures key in SummaryOf(features) ==> counter !in SummaryOf(features)[key].counters
    decreases features
  {
    if features != [] { UnknownCounter(features[..|features| - 1], key, counter); }
  }

  /** The kinds a summary reports for a flag are those of the contexts it was evaluated for. */
  lemma {:induction false} KindsAreCollected<K>(features: seq<Feature<K>>, key: K, kind: K)
    ensures key in SummaryOf(features) && kind in SummaryOf(features)[key].kinds <==>
            exists n :: 0 <= n < |features| && features[n].key == key && kind in features[n].kinds
    decreases features
  {
    if features != [] {
      var init, last := features[..|features| - 1], features[|features| - 1];
      KindsAreCollected(init, key, kind);
      assert forall n :: 0 <= n < |init| ==> init[n] == features[n];
    }
  }
}
