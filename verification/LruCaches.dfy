/** The least-recently-used cache of context keys.
    Models libs/internal/src/events/lru_cache.cpp; the values are strings there. */
module LruCaches {
  import opened Recency

  /** The list after noticing v: v in front, at most `capacity` entries. */
  function Noticed<T(==)>(list: seq<T>, v: T, capacity: nat): seq<T> {
    Take([v] + Remove(list, v), capacity)
  }

  /** The list after a whole run of notices. */
  function AfterRun<T(==)>(history: seq<T>, capacity: nat): seq<T> {
    if history == [] then []
    else Noticed(AfterRun(history[..|history| - 1], capacity), history[|history| - 1], capacity)
  }

  lemma NoticedHit<T>(list: seq<T>, v: T, capacity: nat)
    requires Distinct(list) && v in Elements(list) && |list| <= capacity
    ensures
      var r := [v] + Remove(list, v);
      r == Noticed(list, v, capacity) && |r| == |list| && Distinct(r) && Elements(r) == Elements(list)
  {
    var rest := Remove(list, v);
    RemoveElements(list, v);
    RemoveDistinct(list, v);
    assert ([v] + rest)[1..] == rest;
    DistinctSize(list);
    DistinctSize([v] + rest);
    TakeLength([v] + rest, capacity);
  }

  lemma NoticedMiss<T>(list: seq<T>, v: T, capacity: nat)
    requires v !in Elements(list) && 1 <= capacity
    ensures Noticed(list, v, capacity) == [v] + if |list| < capacity then list else list[..capacity - 1]
  {
    RemoveElements(list, v);
    TakeLength([v] + list, capacity);
  }

  lemma PushFront<T>(list: seq<T>, v: T)
    requires Distinct(list) && v !in Elements(list)
    ensures Distinct([v] + list) && Elements([v] + list) == Elements(list) + {v}
  {
    assert ([v] + list)[1..] == list;
  }

  class LruCache<T(==)> {
    const capacity: nat
    /** The keys of the map; each of its values refers to the list entry of the same name. */
    var keys: set<T>
    var list: seq<T>

    ghost predicate Valid()
      reads this
    {
      capacity >= 1 && Distinct(list) && keys == Elements(list) && |list| <= capacity
    }

    constructor (capacity: nat)
      requires capacity >= 1
      ensures Valid() && this.capacity == capacity && list == []
    {
      this.capacity := capacity;
      keys, list := {}, [];
    }

    method Notice(value: T) returns (hit: bool)
      requires Valid()
      modifies this
      ensures Valid()
      ensures hit <==> value in Elements(old(list))
      ensures list == Noticed(old(list), value, capacity)
    {
      hide Distinct, Elements, Remove, Noticed;
      if value in keys {
        NoticedHit(list, value, capacity);
        list := [value] + Remove(list, value);
        return true;
      }
      NoticedMiss(list, value, capacity);
      DistinctSize(list);
      while |keys| >= capacity
        invariant |list| <= |old(list)| && list == old(list)[..|list|] && Distinct(list) && keys == Elements(list) && |keys| == |list|
        invariant |list| >= if |old(list)| < capacity then |old(list)| else capacity - 1
        invariant value !in keys
      {
        DropLast(list);
        keys := keys - {list[|list| - 1]};
        list := list[..|list| - 1];
        DistinctSize(list);
      }
      PushFront(list, value);
      list := [value] + list;
      keys := keys + {value};
      return false;
    }

    method Clear()
      requires Valid()
      modifies this
      ensures Valid() && list == []
    {
      keys, list := {}, [];
    }
  }

  lemma {:induction false} DropLast<T>(s: seq<T>)
    requires s != [] && Distinct(s)
    ensures
      var init := s[..|s| - 1];
      Distinct(init) && Elements(init) == Elements(s) - {s[|s| - 1]} && s[|s| - 1] in Elements(s)
  {
    if |s| > 1 {
      DropLast(s[1..]);
      assert s[..|s| - 1][1..] == s[1..][..|s| - 2];
    }
  }

  /** The list always holds the most recently noticed distinct values of the whole run. */
  lemma {:induction false} HoldsMostRecent<T>(history: seq<T>, capacity: nat)
    requires capacity >= 1
    ensures AfterRun(history, capacity) == Take(Recent(history), capacity)
  {
    if history != [] {
      var init, v := history[..|history| - 1], history[|history| - 1];
      HoldsMostRecent(init, capacity);
      NoticeKeepsMostRecent(init, v, capacity);
      assert init + [v] == history;
    }
  }

  /** A notice hits exactly when fewer than `capacity` distinct values were noticed since the last time. */
  lemma HitsExactlyMostRecent<T>(history: seq<T>, v: T, capacity: nat)
    requires capacity >= 1
    ensures v in Elements(AfterRun(history, capacity)) <==> AmongMostRecent(history, v, capacity)
  {
    HoldsMostRecent(history, capacity);
    MostRecent(history, v, capacity);
  }

  /** On the same run a larger cache hits whenever a smaller one does. */
  lemma LargerCacheHitsMore<T>(history: seq<T>, v: T, smaller: nat, larger: nat)
    requires 1 <= smaller <= larger
    ensures v in Elements(AfterRun(history, smaller)) ==> v in Elements(AfterRun(history, larger))
  {
    HitsExactlyMostRecent(history, v, smaller);
    HitsExactlyMostRecent(history, v, larger);
  }
}
