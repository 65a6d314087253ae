/** The persisted flags of the most recently used contexts.
    Models libs/client-sdk/src/flag_manager/flag_persistence.cpp. Parsing a serialized document is taken
    to give the document back, and the flag data of a context is opaque. */
module FlagPersistences {
  import opened Wrappers
  import opened Recency
  import opened ContextIndexes
  import opened Base64Url

  const INDEX_KEY: string := "ContextIndex"

  datatype Blob<F> = IndexBlob(json: Json) | FlagsBlob(flags: F)

  /** Everything stored under the environment's namespace. */
  type Persisted<F> = map<string, Blob<F>>

  function StoredIndex<F>(p: Persisted<F>): seq<Entry<string>> {
    if INDEX_KEY in p && p[INDEX_KEY].IndexBlob? then FromJson(p[INDEX_KEY].json) else []
  }

  /** The flags of a context stored at a time; both Init and Upsert of the source end in one. */
  datatype Use<F> = Use(id: string, timestamp: nat, flags: F)

  function Store<F>(p: Persisted<F>, use: Use<F>, limit: nat): Persisted<F> {
    var noticed := Noticed(StoredIndex(p), use.id, use.timestamp);
    (p - Elements(Pruned(noticed, limit)))
      [INDEX_KEY := IndexBlob(ToJson(Kept(noticed, limit)))]
      [use.id := FlagsBlob(use.flags)]
  }

  function Run<F>(history: seq<Use<F>>, limit: nat): Persisted<F> {
    if history == [] then map[] else Store(Run(history[..|history| - 1], limit), history[|history| - 1], limit)
  }

  class FlagPersistence<F> {
    const maxCachedContexts: nat
    var persisted: Persisted<F>

    constructor (maxCachedContexts: nat)
      ensures persisted == map[] && this.maxCachedContexts == maxCachedContexts
    {
      this.maxCachedContexts := maxCachedContexts;
      persisted := map[];
    }

    method GetIndex() returns (index: ContextIndex<string>)
      ensures fresh(index) && index.index == StoredIndex(persisted)
    {
      var entries := [];
      if INDEX_KEY in persisted && persisted[INDEX_KEY].IndexBlob? {
        entries := ReadIndex(persisted[INDEX_KEY].json);
      }
      index := new ContextIndex(entries);
    }

    method StoreCache(contextId: string, timestamp: nat, flags: F)
      modifies this
      ensures persisted == Store(old(persisted), Use(contextId, timestamp, flags), maxCachedContexts)
    {
      ghost var before := persisted;
      var index := GetIndex();
      index.Notice(contextId, timestamp);
      var pruned := index.Prune(maxCachedContexts);
      for i := 0 to |pruned|
        modifies this
        invariant persisted == before - Elements(pruned[..i])
      {
        ElementsSnoc(pruned[..i], pruned[i]);
        assert pruned[..i + 1] == pruned[..i] + [pruned[i]];
        persisted := persisted - {pruned[i]};
      }
      assert pruned[..|pruned|] == pruned;
      var json := WriteIndex(index.index);
      persisted := persisted[INDEX_KEY := IndexBlob(json)];
      persisted := persisted[contextId := FlagsBlob(flags)];
    }
  }

  // ----- Every run

  function UseIds<F>(history: seq<Use<F>>): seq<string> {
    if history == [] then [] else UseIds(history[..|history| - 1]) + [history[|history| - 1].id]
  }

  ghost predicate Increasing<F>(history: seq<Use<F>>) {
    forall i, j :: 0 <= i < j < |history| ==> history[i].timestamp < history[j].timestamp
  }

  ghost predicate NoIndexKey<F>(history: seq<Use<F>>) {
    forall i :: 0 <= i < |history| ==> history[i].id != INDEX_KEY
  }

  /** The flags last stored for an id. */
  function LastFlags<F>(history: seq<Use<F>>, id: string): Option<F> {
    if history == [] then None
    else if history[|history| - 1].id == id then Some(history[|history| - 1].flags)
    else LastFlags(history[..|history| - 1], id)
  }

  /** The indexed entries, latest first. */
  function Order<F>(history: seq<Use<F>>, limit: nat): seq<Entry<string>> {
    if history == [] then []
    else
      var last := history[|history| - 1];
      Take(UsedNow(Order(history[..|history| - 1], limit), last.id, last.timestamp), limit)
  }

  /** The persisted map after a run: the index holds `order`, whose ids are the most recent ones, and
      there is exactly one entry for each of them, with the flags last stored. */
  ghost predicate Consistent<F>(p: Persisted<F>, history: seq<Use<F>>, limit: nat) {
    var order := Order(history, limit);
    && IndexConsistent(p, history, limit)
    && p.Keys == Elements(Ids(order)) + (if history == [] then {} else {INDEX_KEY})
    && (forall id :: id in Elements(Ids(order)) ==> id != INDEX_KEY && HoldsLastFlags(p, history, id))
  }

  ghost predicate IndexConsistent<F>(p: Persisted<F>, history: seq<Use<F>>, limit: nat) {
    var order := Order(history, limit);
    && Represents(StoredIndex(p), order)
    && Ids(order) == Take(Recent(UseIds(history)), limit)
    && (history != [] ==> AllAtMost(order, history[|history| - 1].timestamp))
  }

  ghost predicate HoldsLastFlags<F>(p: Persisted<F>, history: seq<Use<F>>, id: string) {
    id in p && LastFlags(history, id).Some? && p[id] == FlagsBlob(LastFlags(history, id).value)
  }

  lemma StoredIndexAfter<F>(p: Persisted<F>, use: Use<F>, limit: nat)
    requires use.id != INDEX_KEY
    ensures StoredIndex(Store(p, use, limit)) == Kept(Noticed(StoredIndex(p), use.id, use.timestamp), limit)
  {
    IndexRoundTrip(Kept(Noticed(StoredIndex(p), use.id, use.timestamp), limit));
  }

  lemma AtMostIsBefore(s: seq<Entry<string>>, a: nat, b: nat)
    requires AllAtMost(s, a) && a < b
    ensures AllBefore(s, b)
  {
  }

  lemma SubsetAtMost(s: seq<Entry<string>>, t: seq<Entry<string>>, a: nat)
    requires AllAtMost(t, a) && multiset(s) <= multiset(t)
    ensures AllAtMost(s, a)
  {
  }

  lemma HistorySnoc<F>(init: seq<Use<F>>, use: Use<F>, limit: nat)
    ensures Order(init + [use], limit) == Take(UsedNow(Order(init, limit), use.id, use.timestamp), limit)
    ensures UseIds(init + [use]) == UseIds(init) + [use.id]
    ensures forall id :: LastFlags(init + [use], id) == if id == use.id then Some(use.flags) else LastFlags(init, id)
  {
    assert (init + [use])[..|init|] == init;
  }

  lemma OrderIsBefore<F>(p: Persisted<F>, history: seq<Use<F>>, timestamp: nat, limit: nat)
    requires IndexConsistent(p, history, limit)
    requires history != [] ==> history[|history| - 1].timestamp < timestamp
    ensures AllBefore(Order(history, limit), timestamp)
  {
    if history != [] { AtMostIsBefore(Order(history, limit), history[|history| - 1].timestamp, timestamp); }
  }

  lemma IndexStep<F>(p: Persisted<F>, init: seq<Use<F>>, use: Use<F>, limit: nat)
    requires limit >= 1 && use.id != INDEX_KEY
    requires IndexConsistent(p, init, limit)
    requires init != [] ==> init[|init| - 1].timestamp < use.timestamp
    ensures IndexConsistent(Store(p, use, limit), init + [use], limit)
    ensures
      var used := [use.id] + Remove(Ids(Order(init, limit)), use.id);
      && Ids(Order(init + [use], limit)) == Take(used, limit)
      && Elements(Pruned(Noticed(StoredIndex(p), use.id, use.timestamp), limit))
         == Elements(used) - Elements(Take(used, limit))
  {
    hide Order, UseIds, StoredIndex, Store, Noticed, UsedNow, Ids, Represents, AllAtMost, AllBefore, Kept, Pruned,
         Take, Remove, Recent, Elements;
    var order, index := Order(init, limit), StoredIndex(p);
    HistorySnoc(init, use, limit);
    OrderIsBefore(p, init, use.timestamp, limit);
    var now := UsedNow(order, use.id, use.timestamp);
    NoticedRepresents(index, order, use.id, use.timestamp);
    PruneRepresents(Noticed(index, use.id, use.timestamp), now, limit);
    SubsetAtMost(Take(now, limit), now, use.timestamp);
    NoticeKeepsMostRecent(UseIds(init), use.id, limit);
    StoredIndexAfter(p, use, limit);
  }

  /** The entries of the map after a store, as sets: T of the ids E, and the index. */
  lemma KeysAfter<F>(p: Persisted<F>, use: Use<F>, limit: nat, ids: seq<string>)
    requires limit >= 1 && use.id != INDEX_KEY && INDEX_KEY !in Elements(ids)
    requires p.Keys - {INDEX_KEY} == Elements(ids)
    requires
      var used := [use.id] + Remove(ids, use.id);
      Elements(Pruned(Noticed(StoredIndex(p), use.id, use.timestamp), limit)) == Elements(used) - Elements(Take(used, limit))
    ensures
      var kept := Elements(Take([use.id] + Remove(ids, use.id), limit));
      && Store(p, use, limit).Keys == kept + {INDEX_KEY}
      && use.id in kept && INDEX_KEY !in kept
      && forall id :: id in kept && id != use.id ==> id in Elements(ids) && id in p && Store(p, use, limit)[id] == p[id]
  {
    hide Noticed, Pruned, Kept, ToJson, StoredIndex;
    var used := [use.id] + Remove(ids, use.id);
    assert used[1..] == Remove(ids, use.id);
    RemoveElements(ids, use.id);
    assert Elements(used) == {use.id} + Elements(ids);
    TakeTake(used, limit, limit);
    assert Take(used, limit)[0] == use.id;
  }

  lemma ConsistentStep<F>(p: Persisted<F>, init: seq<Use<F>>, use: Use<F>, limit: nat)
    requires limit >= 1 && use.id != INDEX_KEY
    requires Consistent(p, init, limit)
    requires init != [] ==> init[|init| - 1].timestamp < use.timestamp
    ensures Consistent(Store(p, use, limit), init + [use], limit)
  {
    hide Order, Ids, IndexConsistent, Store, Take, Remove, Elements, Pruned, Noticed, StoredIndex, LastFlags;
    var ids := Ids(Order(init, limit));
    IndexStep(p, init, use, limit);
    KeysAfter(p, use, limit, ids);
    HistorySnoc(init, use, limit);
    StoresFlags(p, use, limit);
  }

  lemma StoresFlags<F>(p: Persisted<F>, use: Use<F>, limit: nat)
    ensures use.id in Store(p, use, limit) && Store(p, use, limit)[use.id] == FlagsBlob(use.flags)
  {
  }

  lemma {:induction false} RunConsistent<F>(history: seq<Use<F>>, limit: nat)
    requires limit >= 1 && Increasing(history) && NoIndexKey(history)
    ensures Consistent(Run(history, limit), history, limit)
  {
    if history != [] {
      var init, use := history[..|history| - 1], history[|history| - 1];
      assert history == init + [use];
      hide Consistent, Store;
      RunConsistent(init, limit);
      ConsistentStep(Run(init, limit), init, use, limit);
    }
  }

  /** After every run the stored entries are exactly those of the most recently used contexts up to the
      limit, the index lists exactly these, and each entry holds the flags last stored for it. */
  lemma StoresMostRecentContexts<F>(history: seq<Use<F>>, limit: nat, id: string)
    requires limit >= 1 && Increasing(history) && NoIndexKey(history) && id != INDEX_KEY
    ensures id in Run(history, limit) <==> AmongMostRecent(UseIds(history), id, limit)
    ensures id in Elements(Ids(StoredIndex(Run(history, limit)))) <==> AmongMostRecent(UseIds(history), id, limit)
    ensures id in Run(history, limit) ==> HoldsLastFlags(Run(history, limit), history, id)
  {
    hide Run, Order, Take, Recent, UseIds, AmongMostRecent, Ids, Elements, HoldsLastFlags, StoredIndex, StrictlySorted, Distinct;
    RunConsistent(history, limit);
    MostRecent(UseIds(history), id, limit);
    SameIds(StoredIndex(Run(history, limit)), Order(history, limit), id);
  }

  lemma {:induction false} IdInEntries(s: seq<Entry<string>>, id: string)
    ensures id in Elements(Ids(s)) <==> exists e :: e in multiset(s) && e.id == id
  {
    if s != [] {
      IdInEntries(s[1..], id);
      Split(s);
      assert Ids(s)[1..] == Ids(s[1..]);
    }
  }

  lemma SameIds(s: seq<Entry<string>>, t: seq<Entry<string>>, id: string)
    requires multiset(s) == multiset(t)
    ensures id in Elements(Ids(s)) <==> id in Elements(Ids(t))
  {
    IdInEntries(s, id);
    IdInEntries(t, id);
  }

  /** A context id is the encoding of a 32-byte digest, so it is never the key of the index. */
  lemma ContextIdIsNotIndexKey(digest: seq<Byte>)
    requires |digest| == 32
    ensures Rfc4648(digest) != INDEX_KEY
  {
    EncodingLength(digest);
  }
}
