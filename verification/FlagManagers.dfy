/** Flag updates that are applied and then persisted. Models FlagPersistence::Init and Upsert of
    libs/client-sdk/src/flag_manager/flag_persistence.cpp over the updater they forward to. A context is known
    by its id, and the clock is a parameter. */
module FlagManagers {
  import opened Wrappers
  import opened Recency
  import U = FlagUpdaters
  import P = FlagPersistences

  type Flags<K, R> = U.Flags<K, R>

  datatype Update<K, R> = Update(id: string, timestamp: nat, op: U.Op<K, R>)

  /** The flag store after a run of updates. */
  function StoreAfter<K, R>(updates: seq<Update<K, R>>): Flags<K, R> {
    if updates == [] then map[] else U.Step(StoreAfter(updates[..|updates| - 1]), updates[|updates| - 1].op)
  }

  /** What a run of updates persists: after each, the whole store for the context it was for. */
  function History<K, R>(updates: seq<Update<K, R>>): (history: seq<P.Use<Flags<K, R>>>)
    ensures |history| == |updates|
    ensures forall i :: 0 <= i < |updates| ==> history[i].id == updates[i].id && history[i].timestamp == updates[i].timestamp
  {
    if updates == [] then []
    else
      var last := updates[|updates| - 1];
      History(updates[..|updates| - 1]) + [P.Use(last.id, last.timestamp, StoreAfter(updates))]
  }

  function Persisted<K, R>(updates: seq<Update<K, R>>, limit: nat): P.Persisted<Flags<K, R>> {
    P.Run(History(updates), limit)
  }

  lemma OneMoreUpdate<K, R>(updates: seq<Update<K, R>>, u: Update<K, R>, limit: nat)
    ensures StoreAfter(updates + [u]) == U.Step(StoreAfter(updates), u.op)
    ensures Persisted(updates + [u], limit)
         == P.Store(Persisted(updates, limit), P.Use(u.id, u.timestamp, StoreAfter(updates + [u])), limit)
  {
    hide P.Store;
    assert (updates + [u])[..|updates|] == updates;
    var use := P.Use(u.id, u.timestamp, StoreAfter(updates + [u]));
    assert History(updates + [u]) == History(updates) + [use];
    assert (History(updates) + [use])[..|updates|] == History(updates);
  }

  class FlagManager<K(==, !new), R(==)> {
    const updater: U.FlagUpdater<K, R>
    const persistence: P.FlagPersistence<Flags<K, R>>
    ghost var updates: seq<Update<K, R>>

    ghost predicate Valid()
      reads this, updater, persistence
    {
      && updater.store == StoreAfter(updates)
      && persistence.persisted == Persisted(updates, persistence.maxCachedContexts)
    }

    constructor (maxCachedContexts: nat)
      ensures Valid() && updates == [] && persistence.maxCachedContexts == maxCachedContexts
      ensures fresh(updater) && fresh(persistence)
    {
      updater := new U.FlagUpdater();
      persistence := new P.FlagPersistence(maxCachedContexts);
      updates := [];
    }

    method Init(contextId: string, data: Flags<K, R>, now: nat)
      requires Valid()
      modifies this, updater, persistence
      ensures Valid() && updates == old(updates) + [Update(contextId, now, U.Init(data))]
    {
      hide StoreAfter, Persisted, P.Store;
      OneMoreUpdate(updates, Update(contextId, now, U.Init(data)), persistence.maxCachedContexts);
      updater.InitFlags(data);
      persistence.StoreCache(contextId, now, updater.store);
      updates := updates + [Update(contextId, now, U.Init(data))];
    }

    method Upsert(contextId: string, key: K, descriptor: U.Descriptor<R>, now: nat)
      requires Valid()
      modifies this, updater, persistence
      ensures Valid() && updates == old(updates) + [Update(contextId, now, U.Upsert(key, descriptor))]
    {
      hide StoreAfter, Persisted, P.Store;
      OneMoreUpdate(updates, Update(contextId, now, U.Upsert(key, descriptor)), persistence.maxCachedContexts);
      updater.UpsertFlag(key, descriptor);
      persistence.StoreCache(contextId, now, updater.store);
      updates := updates + [Update(contextId, now, U.Upsert(key, descriptor))];
    }
  }

  ghost predicate LastFor<K, R>(updates: seq<Update<K, R>>, id: string, i: nat) {
    i < |updates| && updates[i].id == id && forall n :: i < n < |updates| ==> updates[n].id != id
  }

  lemma {:induction false} LastStored<K, R>(updates: seq<Update<K, R>>, id: string, i: nat)
    requires LastFor(updates, id, i)
    ensures P.LastFlags(History(updates), id) == Some(StoreAfter(updates[..i + 1]))
  {
    var init := updates[..|updates| - 1];
    assert History(updates)[..|init|] == History(init);
    if i == |init| {
      assert updates[..i + 1] == updates;
    } else {
      assert forall n :: 0 <= n < |init| ==> init[n] == updates[n];
      LastStored(init, id, i);
      assert init[..i + 1] == updates[..i + 1];
    }
  }

  ghost predicate Increasing<K, R>(updates: seq<Update<K, R>>) {
    forall i, n :: 0 <= i < n < |updates| ==> updates[i].timestamp < updates[n].timestamp
  }

  ghost predicate NoIndexKey<K, R>(updates: seq<Update<K, R>>) {
    forall i :: 0 <= i < |updates| ==> updates[i].id != P.INDEX_KEY
  }

  /** After every run, a context that is among the most recently used has an entry, which is the flag store as
      it was right after the last update for that context; any other context has none. */
  lemma HoldsStoreOfLastUpdate<K, R>(updates: seq<Update<K, R>>, limit: nat, id: string, i: nat)
    requires limit >= 1 && Increasing(updates) && NoIndexKey(updates) && id != P.INDEX_KEY && LastFor(updates, id, i)
    ensures id in Persisted(updates, limit) <==> AmongMostRecent(P.UseIds(History(updates)), id, limit)
    ensures id in Persisted(updates, limit) ==> Persisted(updates, limit)[id] == P.FlagsBlob(StoreAfter(updates[..i + 1]))
  {
    LastStored(updates, id, i);
    P.StoresMostRecentContexts(History(updates), limit, id);
  }
}
