/** The client's flag store, its versioned updater and the change events it sends.
    Models libs/client-sdk/src/flag_manager/flag_store.cpp and flag_updater.cpp.
    Flag keys have an arbitrary type K; they are strings in the source. Calls are atomic steps. */
module FlagUpdaters {
  import opened Wrappers
  import opened Values

  /** An evaluation result; only its value matters for change events. */
  datatype Evaluation<R> = Evaluation(value: Value, rest: R)

  datatype Descriptor<R> = Descriptor(version: nat, item: Option<Evaluation<R>>) {
    function GetValue(): Value { if item.Some? then item.value.value else Null }
  }

  type Flags<K, R> = map<K, Descriptor<R>>

  datatype Change<K> = Change(name: K, newValue: Value, oldValue: Value, deleted: bool)

  /** A flag's current value: null when it is absent or deleted. */
  function Current<K, R>(store: Flags<K, R>, k: K): Value {
    if k in store then store[k].GetValue() else Null
  }

  datatype Op<K, R> = Init(data: Flags<K, R>) | Upsert(key: K, descriptor: Descriptor<R>)

  predicate Ignored<K, R>(store: Flags<K, R>, key: K, descriptor: Descriptor<R>) {
    key in store && store[key].version >= descriptor.version
  }

  function Step<K, R>(store: Flags<K, R>, op: Op<K, R>): Flags<K, R> {
    match op
    case Init(data) => data
    case Upsert(key, descriptor) =>
      if Ignored(store, key, descriptor) then store else store[key := descriptor]
  }

  /** The change `Init` reports for one flag, when it reports any. */
  function InitChange<K, R(==)>(old_: Flags<K, R>, data: Flags<K, R>, k: K): Option<Change<K>> {
    if k in data then
      if k !in old_ then Some(Change(k, data[k].GetValue(), Null, false))
      else if data[k].item.None? then Some(Change(k, Null, old_[k].GetValue(), true))
      else if data[k].GetValue() != old_[k].GetValue() then
        Some(Change(k, data[k].GetValue(), old_[k].GetValue(), false))
      else None
    else if k in old_ then Some(Change(k, Null, old_[k].GetValue(), true))
    else None
  }

  /** The change `Upsert` reports, when it reports any. */
  function UpsertChange<K, R>(store: Flags<K, R>, key: K, descriptor: Descriptor<R>): Option<Change<K>> {
    if Ignored(store, key, descriptor) then None
    else if descriptor.item.Some? then Some(Change(key, descriptor.GetValue(), Current(store, key), false))
    else if key in store && store[key].item.Some? then Some(Change(key, Null, store[key].GetValue(), true))
    else None
  }

  /** The change sent to a listener of flag k. An `Init` of an empty store reports nothing. */
  function Sent<K(==), R(==)>(store: Flags<K, R>, op: Op<K, R>, k: K): Option<Change<K>> {
    match op
    case Init(data) => if store == map[] then None else InitChange(store, data, k)
    case Upsert(key, descriptor) => if key == k then UpsertChange(store, key, descriptor) else None
  }

  function Named<K(==)>(changes: seq<Change<K>>, k: K): seq<Change<K>> {
    if changes == [] then []
    else Named(changes[..|changes| - 1], k)
         + (if changes[|changes| - 1].name == k then [changes[|changes| - 1]] else [])
  }

  /** The changes whose flag has a listener. */
  function Heard<K(==)>(changes: seq<Change<K>>, listeners: set<K>): seq<Change<K>> {
    if changes == [] then []
    else Heard(changes[..|changes| - 1], listeners)
         + (if changes[|changes| - 1].name in listeners then [changes[|changes| - 1]] else [])
  }

  lemma {:induction false} HeardNamed<K>(changes: seq<Change<K>>, listeners: set<K>, k: K)
    ensures Named(Heard(changes, listeners), k) == if k in listeners then Named(changes, k) else []
  {
    if changes != [] {
      var init, last := changes[..|changes| - 1], changes[|changes| - 1];
      HeardNamed(init, listeners, k);
      if last.name in listeners { NamedSnoc(Heard(init, listeners), last, k); }
      else { assert Heard(init, listeners) + [] == Heard(init, listeners); }
    }
  }

  lemma NothingHeard<K>(listeners: set<K>)
    ensures Heard([], listeners) == []
  {
  }

  lemma HeardNext<K>(changes: seq<Change<K>>, i: nat, listeners: set<K>)
    requires i < |changes|
    ensures Heard(changes[..i + 1], listeners)
         == Heard(changes[..i], listeners) + if changes[i].name in listeners then [changes[i]] else []
  {
    assert changes[..i + 1][..i] == changes[..i];
  }

  lemma NamedSnoc<K>(changes: seq<Change<K>>, change: Change<K>, k: K)
    ensures Named(changes + [change], k) == Named(changes, k) + if change.name == k then [change] else []
  {
    assert (changes + [change])[..|changes|] == changes;
  }

  /** `changes` holds, for each flag seen, the change an `Init` reports for it, and nothing else. */
  ghost predicate ListsChanges<K(!new), R>(changes: seq<Change<K>>, store: Flags<K, R>, data: Flags<K, R>, seen: set<K>) {
    && (forall k :: k in seen ==> Named(changes, k) == AsSeq(InitChange(store, data, k)))
    && (forall k :: k !in seen ==> Named(changes, k) == [])
  }

  lemma ListsOneMore<K(!new), R>(changes: seq<Change<K>>, store: Flags<K, R>, data: Flags<K, R>, seen: set<K>, k: K)
    requires ListsChanges(changes, store, data, seen) && k !in seen
    ensures ListsChanges(changes + AsSeq(InitChange(store, data, k)), store, data, seen + {k})
  {
    ChangeIsNamed(store, data, k);
    hide InitChange, Named;
    var change := InitChange(store, data, k);
    if change.Some? {
      forall n ensures Named(changes + [change.value], n) == Named(changes, n) + if k == n then [change.value] else [] {
        NamedSnoc(changes, change.value, n);
      }
      assert [] + [change.value] == [change.value];
    } else {
      assert changes + [] == changes;
    }
  }

  lemma ChangeIsNamed<K, R>(store: Flags<K, R>, data: Flags<K, R>, k: K)
    ensures InitChange(store, data, k).Some? ==> InitChange(store, data, k).value.name == k
  {
  }

  function AsSeq<T>(o: Option<T>): seq<T> { if o.Some? then [o.value] else [] }

  class FlagUpdater<K(==, !new), R(==)> {
    var store: Flags<K, R>
    /** For each flag name, how many listeners its signal has. */
    var signals: map<K, nat>
    /** What listeners have been called with. */
    var sent: seq<Change<K>>

    constructor ()
      ensures store == map[] && signals == map[] && sent == []
    {
      store, signals, sent := map[], map[], [];
    }

    predicate Listening(k: K)
      reads this
    {
      k in signals && signals[k] > 0
    }

    predicate HasListeners()
      reads this
    {
      signals != map[]
    }

    method OnFlagChange(key: K)
      modifies this`signals
      ensures signals == old(signals)[key := if key in old(signals) then old(signals)[key] + 1 else 1]
    {
      signals := signals[key := if key in signals then signals[key] + 1 else 1];
    }

    method Disconnect(key: K)
      requires Listening(key)
      modifies this`signals
      ensures signals == old(signals)[key := old(signals)[key] - 1]
    {
      signals := signals[key := signals[key] - 1];
    }

    /** Calls the listeners of the named flag; a signal without any is forgotten. */
    method DispatchEvent(change: Change<K>)
      modifies this`signals, this`sent
      ensures sent == old(sent) + if old(Listening(change.name)) then [change] else []
      ensures signals == if change.name in old(signals) && old(signals)[change.name] == 0
                         then old(signals) - {change.name} else old(signals)
    {
      if change.name in signals {
        if signals[change.name] == 0 {
          signals := signals - {change.name};
        } else {
          sent := sent + [change];
        }
      }
    }

    method UpsertFlag(key: K, descriptor: Descriptor<R>)
      modifies this
      ensures store == Step(old(store), Upsert(key, descriptor))
      ensures sent == old(sent) + if old(Listening(key)) then AsSeq(UpsertChange(old(store), key, descriptor)) else []
      ensures forall k :: old(Listening(k)) ==> Listening(k)
    {
      if key in store && store[key].version >= descriptor.version { return; }
      var existed, existing := key in store, Current(store, key);
      var hadItem := key in store && store[key].item.Some?;
      store := store[key := descriptor];
      if HasListeners() {
        if existed && descriptor.item.Some? {
          DispatchEvent(Change(key, descriptor.GetValue(), existing, false));
        } else if descriptor.item.Some? {
          DispatchEvent(Change(key, descriptor.item.value.value, Null, false));
        } else if existed && hadItem {
          DispatchEvent(Change(key, Null, existing, true));
        }
      }
    }

    /** The flags that have a listener. */
    ghost function Listeners(): set<K>
      reads this
    {
      set k | k in signals && signals[k] > 0
    }

    method InitFlags(data: Flags<K, R>)
      modifies this
      ensures store == data
      ensures Listeners() == old(Listeners())
      ensures old(sent) <= sent
      ensures forall k :: Named(sent[|old(sent)|..], k)
                == if k in old(Listeners()) then AsSeq(Sent(old(store), Init(data), k)) else []
    {
      hide Named, InitChange, Heard;
      NothingHeard(Listeners());
      var changes: seq<Change<K>> := [];
      if store != map[] && HasListeners() {
        changes := CollectChanges(data);
      }
      ghost var listeners := Listeners();
      store := data;
      ghost var heard: seq<Change<K>> := [];
      assert changes[..0] == [];
      for i := 0 to |changes|
        invariant store == data && Listeners() == listeners
        invariant sent == old(sent) + Heard(changes[..i], listeners)
      {
        HeardNext(changes, i, listeners);
        DispatchEvent(changes[i]);
      }
      assert changes[..|changes|] == changes;
      assert sent[|old(sent)|..] == Heard(changes, listeners);
      forall k ensures Named(Heard(changes, listeners), k) == if k in listeners then Named(changes, k) else [] {
        HeardNamed(changes, listeners, k);
      }
      NothingNamed(changes);
      NoChangeElsewhere(old(store), data);
    }

    method CollectChanges(data: Flags<K, R>) returns (changes: seq<Change<K>>)
      ensures ListsChanges(changes, store, data, data.Keys + store.Keys)
    {
      hide ListsChanges, Named;
      changes := [];
      NothingListed(store, data);
      ghost var seen: set<K> := {};
      var pending := data.Keys;
      while pending != {}
        invariant pending <= data.Keys && seen == data.Keys - pending
        invariant ListsChanges(changes, store, data, seen)
      {
        var k :| k in pending;
        ListsOneMore(changes, store, data, seen, k);
        pending, seen := pending - {k}, seen + {k};
        if k in store {
          if data[k].item.Some? {
            var newValue, oldValue := data[k].GetValue(), store[k].GetValue();
            if newValue != oldValue {
              changes := changes + [Change(k, newValue, oldValue, false)];
            } else {
              assert changes + [] == changes;
            }
          } else {
            changes := changes + [Change(k, Null, store[k].GetValue(), true)];
          }
        } else {
          changes := changes + [Change(k, data[k].GetValue(), Null, false)];
        }
      }
      assert seen == data.Keys;
      changes := CollectRemoved(data, changes);
    }

    /** Flags that the new data does not have were deleted. */
    method CollectRemoved(data: Flags<K, R>, found: seq<Change<K>>) returns (changes: seq<Change<K>>)
      requires ListsChanges(found, store, data, data.Keys)
      ensures ListsChanges(changes, store, data, data.Keys + store.Keys)
    {
      hide ListsChanges;
      changes := found;
      ghost var seen := data.Keys;
      var pending := store.Keys - data.Keys;
      while pending != {}
        invariant pending <= store.Keys - data.Keys && seen == data.Keys + store.Keys - pending
        invariant ListsChanges(changes, store, data, seen)
      {
        var k :| k in pending;
        ListsOneMore(changes, store, data, seen, k);
        pending, seen := pending - {k}, seen + {k};
        changes := changes + [Change(k, Null, store[k].GetValue(), true)];
      }
      assert seen == data.Keys + store.Keys;
    }
  }

  lemma NothingListed<K(!new), R>(store: Flags<K, R>, data: Flags<K, R>)
    ensures ListsChanges([], store, data, {})
  {
  }

  lemma NothingNamed<K(!new)>(changes: seq<Change<K>>)
    ensures changes == [] ==> forall k :: Named(changes, k) == []
  {
  }

  lemma NoChangeElsewhere<K(!new), R>(store: Flags<K, R>, data: Flags<K, R>)
    ensures forall k :: k !in data.Keys + store.Keys ==> InitChange(store, data, k) == None
  {
  }

  // ----- What a change says, and when there is none

  ghost predicate Gone<K, R>(store: Flags<K, R>, k: K) { k !in store || store[k].item.None? }

  /** A change names the flag, its value before the step and its value after it, and says that the flag was deleted
      exactly when it was in the store and is now absent or deleted. */
  lemma ChangeSays<K, R>(store: Flags<K, R>, op: Op<K, R>, k: K)
    requires Sent(store, op, k).Some?
    ensures
      var change := Sent(store, op, k).value;
      && change.name == k && change.oldValue == Current(store, k) && change.newValue == Current(Step(store, op), k)
      && (change.deleted <==> k in store && Gone(Step(store, op), k))
  {
  }

  /** An `Init` sends nothing for a flag exactly when the store was empty, or the flag is neither in the old data nor in the
      new, or it is in both with the same value and not deleted. */
  lemma InitSendsNothing<K, R>(store: Flags<K, R>, data: Flags<K, R>, k: K)
    ensures Sent(store, Init(data), k) == None <==>
      || store == map[] || (k !in store && k !in data)
      || (k in store && k in data && data[k].item.Some? && Current(store, k) == Current(data, k))
  {
  }

  /** An `Upsert` sends nothing for a flag exactly when it is for another flag, or not newer, or deletes what was absent or
      deleted. */
  lemma UpsertSendsNothing<K, R>(store: Flags<K, R>, key: K, descriptor: Descriptor<R>, k: K)
    ensures Sent(store, Upsert(key, descriptor), k) == None <==>
      || key != k || (k in store && store[k].version >= descriptor.version) || (descriptor.item.None? && Gone(store, k))
  {
  }

  // ----- A listener's mirror

  function Mirrored<K>(mirror: Value, change: Option<Change<K>>): Value {
    if change.Some? then change.value.newValue else mirror
  }

  /** One step keeps a mirror equal to the flag's value, except an `Init` of an empty store that gives
      the flag a value: nothing is sent for that. */
  lemma MirrorStep<K, R>(store: Flags<K, R>, op: Op<K, R>, k: K)
    ensures Mirrored(Current(store, k), Sent(store, op, k)) == Current(Step(store, op), k)
       <==> !(op.Init? && store == map[] && Current(op.data, k) != Null)
  {
  }

  function Run<K, R>(store: Flags<K, R>, ops: seq<Op<K, R>>): Flags<K, R> {
    if ops == [] then store else Step(Run(store, ops[..|ops| - 1]), ops[|ops| - 1])
  }

  function MirrorRun<K(==), R(==)>(store: Flags<K, R>, ops: seq<Op<K, R>>, k: K): Value {
    if ops == [] then Current(store, k)
    else
      var init, last := ops[..|ops| - 1], ops[|ops| - 1];
      Mirrored(MirrorRun(store, init, k), Sent(Run(store, init), last, k))
  }

  ghost predicate NoInitOfEmptyStore<K, R>(store: Flags<K, R>, ops: seq<Op<K, R>>) {
    forall i :: 0 <= i < |ops| && ops[i].Init? ==> Run(store, ops[..i]) != map[]
  }

  /** Over any run in which no `Init` starts from an empty store, a listener that applies its changes to
      a mirror holds the store's value for its flag. */
  lemma {:induction false} MirrorFollowsStore<K, R>(store: Flags<K, R>, ops: seq<Op<K, R>>, k: K)
    requires NoInitOfEmptyStore(store, ops)
    ensures MirrorRun(store, ops, k) == Current(Run(store, ops), k)
  {
    if ops != [] {
      var init, last := ops[..|ops| - 1], ops[|ops| - 1];
      forall i | 0 <= i < |init| && init[i].Init? ensures Run(store, init[..i]) != map[] {
        assert init[..i] == ops[..i] && init[i] == ops[i];
      }
      MirrorFollowsStore(store, init, k);
      hide Sent, Mirrored, Current, Step;
      MirrorStep(Run(store, init), last, k);
    }
  }

  // ----- Upserts converge

  datatype Update<K, R> = Update(key: K, descriptor: Descriptor<R>)

  function UpsertAll<K, R>(store: Flags<K, R>, updates: seq<Update<K, R>>): Flags<K, R> {
    if updates == [] then store
    else
      var last := updates[|updates| - 1];
      Step(UpsertAll(store, updates[..|updates| - 1]), Upsert(last.key, last.descriptor))
  }

  /** d is the descriptor of the highest version offered for k: by an update, or by the store itself. */
  ghost predicate Highest<K(!new), R(!new)>(store: Flags<K, R>, updates: seq<Update<K, R>>, k: K, d: Descriptor<R>) {
    && (forall u :: u in updates && u.key == k ==> u.descriptor.version <= d.version)
    && (if k in store && store[k].version == d.version then d == store[k]
        else (k in store ==> store[k].version < d.version) && Update(k, d) in updates)
  }

  ghost predicate Offered<K(!new), R(!new)>(store: Flags<K, R>, updates: seq<Update<K, R>>, k: K) {
    k in store || exists d :: Update(k, d) in updates
  }

  lemma {:induction false} UpsertAllHighest<K(!new), R(!new)>(store: Flags<K, R>, updates: seq<Update<K, R>>, k: K)
    ensures k in UpsertAll(store, updates) <==> Offered(store, updates, k)
    ensures k in UpsertAll(store, updates) ==> Highest(store, updates, k, UpsertAll(store, updates)[k])
  {
    if updates != [] {
      var init, last := updates[..|updates| - 1], updates[|updates| - 1];
      UpsertAllHighest(store, init, k);
      assert forall u :: u in updates <==> u in init || u == last;
      assert Update(last.key, last.descriptor) == last;
    }
  }

  /** Updates of one key with one version carry the same descriptor. */
  ghost predicate Coherent<K(!new), R(!new)>(updates: seq<Update<K, R>>) {
    forall u, v :: u in updates && v in updates && u.key == v.key && u.descriptor.version == v.descriptor.version ==> u == v
  }

  /** Any order and any repetition of the same coherent updates gives the same store, which holds the
      highest version of each key. */
  lemma UpsertsConverge<K(!new), R(!new)>(store: Flags<K, R>, a: seq<Update<K, R>>, b: seq<Update<K, R>>)
    requires Coherent(a)
    requires forall u :: u in a <==> u in b
    ensures UpsertAll(store, a) == UpsertAll(store, b)
    ensures forall k :: k in UpsertAll(store, a) ==> Highest(store, a, k, UpsertAll(store, a)[k])
  {
    var ra, rb := UpsertAll(store, a), UpsertAll(store, b);
    forall k
      ensures k in ra <==> k in rb
      ensures k in ra ==> Highest(store, a, k, ra[k]) && ra[k] == rb[k]
    {
      UpsertAllHighest(store, a, k);
      UpsertAllHighest(store, b, k);
      if k in ra { HighestIsUnique(store, a, b, k, ra[k], rb[k]); }
    }
  }

  lemma HighestIsUnique<K(!new), R(!new)>(store: Flags<K, R>, a: seq<Update<K, R>>, b: seq<Update<K, R>>,
                                          k: K, d: Descriptor<R>, e: Descriptor<R>)
    requires Coherent(a)
    requires forall u :: u in a <==> u in b
    requires Highest(store, a, k, d) && Highest(store, b, k, e)
    ensures d == e
  {
    assert Update(k, d) in b ==> d.version <= e.version;
    assert Update(k, e) in a ==> e.version <= d.version;
    assert Update(k, d).key == Update(k, e).key;
  }
}
