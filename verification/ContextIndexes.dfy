/** The index of contexts whose flags are stored, with the time each was last used.
    Models libs/client-sdk/src/flag_manager/context_index.cpp. Timestamps are whole milliseconds. */
module ContextIndexes {
  import opened Wrappers
  import opened Recency
  import JsonValues

  type Json = JsonValues.Json

  datatype Entry<I> = Entry(id: I, timestamp: nat)

  function Ids<I>(s: seq<Entry<I>>): seq<I> {
    if s == [] then [] else [s[0].id] + Ids(s[1..])
  }

  // ----- Notice

  function Noticed<I(==)>(index: seq<Entry<I>>, id: I, timestamp: nat): seq<Entry<I>> {
    if index == [] then [Entry(id, timestamp)]
    else if index[0].id == id then [Entry(id, timestamp)] + index[1..]
    else [index[0]] + Noticed(index[1..], id, timestamp)
  }

  function Without<I(==)>(s: seq<Entry<I>>, id: I): seq<Entry<I>> {
    if s == [] then [] else if s[0].id == id then Without(s[1..], id) else [s[0]] + Without(s[1..], id)
  }

  // ----- Sorting, latest first

  function Insert<I>(e: Entry<I>, s: seq<Entry<I>>): (r: seq<Entry<I>>)
    ensures |r| == |s| + 1
  {
    if s == [] || e.timestamp > s[0].timestamp then [e] + s else [s[0]] + Insert(e, s[1..])
  }

  /** A sort by the comparator of the source. */
  function Sort<I>(s: seq<Entry<I>>): (r: seq<Entry<I>>)
    ensures |r| == |s|
  {
    if s == [] then [] else Insert(s[0], Sort(s[1..]))
  }

  ghost predicate AllAtMost<I(!new)>(s: seq<Entry<I>>, timestamp: nat) {
    forall e :: e in multiset(s) ==> e.timestamp <= timestamp
  }

  ghost predicate AllBefore<I(!new)>(s: seq<Entry<I>>, timestamp: nat) {
    forall e :: e in multiset(s) ==> e.timestamp < timestamp
  }

  ghost predicate Sorted<I(!new)>(s: seq<Entry<I>>) {
    s == [] || (AllAtMost(s[1..], s[0].timestamp) && Sorted(s[1..]))
  }

  ghost predicate StrictlySorted<I(!new)>(s: seq<Entry<I>>) {
    s == [] || (AllBefore(s[1..], s[0].timestamp) && StrictlySorted(s[1..]))
  }

  lemma Split<I>(s: seq<Entry<I>>)
    requires s != []
    ensures multiset(s) == multiset{s[0]} + multiset(s[1..])
  {
    assert s == [s[0]] + s[1..];
  }

  lemma {:induction false} InsertSorts<I(!new)>(e: Entry<I>, s: seq<Entry<I>>)
    requires Sorted(s)
    ensures Sorted(Insert(e, s)) && multiset(Insert(e, s)) == multiset(s) + multiset{e}
  {
    if s != [] {
      Split(s);
      if e.timestamp > s[0].timestamp {
        assert ([e] + s)[1..] == s;
      } else {
        InsertSorts(e, s[1..]);
        var rest := Insert(e, s[1..]);
        assert ([s[0]] + rest)[1..] == rest;
      }
    }
  }

  lemma {:induction false} SortSorts<I(!new)>(s: seq<Entry<I>>)
    ensures Sorted(Sort(s)) && multiset(Sort(s)) == multiset(s)
  {
    if s != [] {
      SortSorts(s[1..]);
      InsertSorts(s[0], Sort(s[1..]));
      Split(s);
    }
  }

  /** With distinct timestamps there is only one sorted order. */
  lemma {:induction false} SortedIsUnique<I(!new)>(t: seq<Entry<I>>, s: seq<Entry<I>>)
    requires Sorted(t) && StrictlySorted(s) && multiset(t) == multiset(s)
    ensures t == s
  {
    if s == [] {
      assert |multiset(t)| == |t|;
    } else {
      assert |multiset(t)| == |multiset(s)|;
      Split(s);
      Split(t);
      assert s[0] in multiset(t) && t[0] in multiset(s);
      assert t[0] == s[0];
      assert multiset(t[1..]) == multiset(t) - multiset{t[0]} == multiset(s[1..]);
      SortedIsUnique(t[1..], s[1..]);
    }
  }

  // ----- The index represents an order of use

  /** `index` holds the entries of `order`, which lists them latest first. */
  ghost predicate Represents<I(!new)>(index: seq<Entry<I>>, order: seq<Entry<I>>) {
    && multiset(index) == multiset(order)
    && Distinct(Ids(index)) && Distinct(Ids(order))
    && StrictlySorted(order)
  }

  lemma {:induction false} WithoutCount<I(!new)>(s: seq<Entry<I>>, id: I)
    ensures forall e :: multiset(Without(s, id))[e] == if e.id == id then 0 else multiset(s)[e]
  {
    if s != [] {
      Split(s);
      WithoutCount(s[1..], id);
      if s[0].id != id { assert multiset([s[0]] + Without(s[1..], id)) == multiset{s[0]} + multiset(Without(s[1..], id)); }
    }
  }

  lemma {:induction false} IdsWithout<I(!new)>(s: seq<Entry<I>>, id: I)
    ensures Ids(Without(s, id)) == Remove(Ids(s), id)
    ensures id !in Elements(Ids(s)) ==> Without(s, id) == s
  {
    if s != [] {
      IdsWithout(s[1..], id);
      assert ([s[0].id] + Ids(s[1..]))[1..] == Ids(s[1..]);
    }
  }

  lemma {:induction false} WithoutSorted<I(!new)>(s: seq<Entry<I>>, id: I)
    requires StrictlySorted(s)
    ensures StrictlySorted(Without(s, id))
  {
    if s != [] {
      WithoutSorted(s[1..], id);
      WithoutCount(s[1..], id);
    }
  }

  lemma {:induction false} NoticedCount<I(!new)>(index: seq<Entry<I>>, id: I, timestamp: nat)
    requires Distinct(Ids(index))
    ensures multiset(Noticed(index, id, timestamp)) == multiset(Without(index, id)) + multiset{Entry(id, timestamp)}
  {
    if index != [] {
      var rest := index[1..];
      assert Ids(index)[1..] == Ids(rest);
      if index[0].id == id {
        IdsWithout(rest, id);
        assert multiset([Entry(id, timestamp)] + rest) == multiset{Entry(id, timestamp)} + multiset(rest);
      } else {
        NoticedCount(rest, id, timestamp);
      }
    }
  }

  lemma {:induction false} NoticedIds<I(!new)>(index: seq<Entry<I>>, id: I, timestamp: nat)
    ensures Ids(Noticed(index, id, timestamp)) == if id in Elements(Ids(index)) then Ids(index) else Ids(index) + [id]
  {
    if index != [] {
      var rest := index[1..];
      assert Ids(index)[1..] == Ids(rest);
      if index[0].id == id {
        assert ([Entry(id, timestamp)] + rest)[1..] == rest;
      } else {
        NoticedIds(rest, id, timestamp);
        var tail := Noticed(rest, id, timestamp);
        assert ([index[0]] + tail)[1..] == tail;
      }
    }
  }

  /** The order of use after noticing an id later than every entry. */
  function UsedNow<I(==)>(order: seq<Entry<I>>, id: I, timestamp: nat): seq<Entry<I>> {
    [Entry(id, timestamp)] + Without(order, id)
  }

  lemma NoticedSameEntries<I(!new)>(index: seq<Entry<I>>, order: seq<Entry<I>>, id: I, timestamp: nat)
    requires multiset(index) == multiset(order) && Distinct(Ids(index))
    ensures multiset(Noticed(index, id, timestamp)) == multiset(UsedNow(order, id, timestamp))
  {
    WithoutCount(index, id);
    WithoutCount(order, id);
    assert multiset(Without(index, id)) == multiset(Without(order, id));
    NoticedCount(index, id, timestamp);
  }

  lemma NoticedDistinct<I(!new)>(index: seq<Entry<I>>, id: I, timestamp: nat)
    requires Distinct(Ids(index))
    ensures Distinct(Ids(Noticed(index, id, timestamp)))
  {
    NoticedIds(index, id, timestamp);
    if id !in Elements(Ids(index)) { DistinctSnoc(Ids(index), id); }
  }

  lemma UsedNowIds<I(!new)>(order: seq<Entry<I>>, id: I, timestamp: nat)
    requires Distinct(Ids(order))
    ensures Ids(UsedNow(order, id, timestamp)) == [id] + Remove(Ids(order), id)
    ensures Distinct([id] + Remove(Ids(order), id))
  {
    var rest := Remove(Ids(order), id);
    assert UsedNow(order, id, timestamp)[1..] == Without(order, id);
    IdsWithout(order, id);
    RemoveDistinct(Ids(order), id);
    RemoveElements(Ids(order), id);
    assert ([id] + rest)[1..] == rest;
  }

  lemma UsedNowSorted<I(!new)>(order: seq<Entry<I>>, id: I, timestamp: nat)
    requires StrictlySorted(order) && AllBefore(order, timestamp)
    ensures StrictlySorted(UsedNow(order, id, timestamp))
    ensures AllAtMost(UsedNow(order, id, timestamp), timestamp)
  {
    var now := UsedNow(order, id, timestamp);
    assert now[1..] == Without(order, id);
    Split(now);
    WithoutCount(order, id);
    WithoutSorted(order, id);
  }

  lemma NoticedRepresents<I(!new)>(index: seq<Entry<I>>, order: seq<Entry<I>>, id: I, timestamp: nat)
    requires Represents(index, order) && AllBefore(order, timestamp)
    ensures Represents(Noticed(index, id, timestamp), UsedNow(order, id, timestamp))
    ensures Ids(UsedNow(order, id, timestamp)) == [id] + Remove(Ids(order), id)
    ensures AllAtMost(UsedNow(order, id, timestamp), timestamp)
  {
    hide Noticed, UsedNow, Ids, Distinct, StrictlySorted, AllBefore, AllAtMost;
    NoticedSameEntries(index, order, id, timestamp);
    NoticedDistinct(index, id, timestamp);
    UsedNowIds(order, id, timestamp);
    UsedNowSorted(order, id, timestamp);
  }

  // ----- Prune

  function Kept<I>(index: seq<Entry<I>>, limit: nat): seq<Entry<I>> {
    if |index| <= limit then index else Take(Sort(index), limit)
  }

  function Pruned<I>(index: seq<Entry<I>>, limit: nat): seq<I> {
    if |index| <= limit then [] else Ids(Drop(Sort(index), limit))
  }

  lemma {:induction false} TakeSubset<I>(s: seq<Entry<I>>, n: nat)
    ensures multiset(Take(s, n)) <= multiset(s)
  {
    if s != [] && n > 0 {
      Split(s);
      TakeSubset(s[1..], n - 1);
      assert multiset(Take(s, n)) == multiset{s[0]} + multiset(Take(s[1..], n - 1));
    }
  }

  lemma SubsetBefore<I(!new)>(s: seq<Entry<I>>, t: seq<Entry<I>>, timestamp: nat)
    requires AllBefore(t, timestamp) && multiset(s) <= multiset(t)
    ensures AllBefore(s, timestamp)
  {
  }

  lemma {:induction false} TakeSorted<I(!new)>(s: seq<Entry<I>>, n: nat)
    requires StrictlySorted(s)
    ensures StrictlySorted(Take(s, n))
  {
    hide AllBefore;
    if s != [] && n > 0 {
      var rest := Take(s[1..], n - 1);
      assert Take(s, n) == [s[0]] + rest && AllBefore(s[1..], s[0].timestamp);
      TakeSorted(s[1..], n - 1);
      hide StrictlySorted, Take;
      TakeSubset(s[1..], n - 1);
      SubsetBefore(rest, s[1..], s[0].timestamp);
      SortedCons(s[0], rest);
    }
  }

  lemma SortedCons<I(!new)>(e: Entry<I>, rest: seq<Entry<I>>)
    requires AllBefore(rest, e.timestamp) && StrictlySorted(rest)
    ensures StrictlySorted([e] + rest)
  {
    hide AllBefore;
    assert ([e] + rest)[1..] == rest;
  }

  lemma {:induction false} IdsTake<I>(s: seq<Entry<I>>, n: nat)
    ensures Ids(Take(s, n)) == Take(Ids(s), n) && Ids(Drop(s, n)) == Drop(Ids(s), n)
  {
    if s != [] && n > 0 {
      IdsTake(s[1..], n - 1);
      assert Take(s, n)[1..] == Take(s[1..], n - 1);
      assert Ids(s)[1..] == Ids(s[1..]);
    }
  }

  lemma {:induction false} IdsLength<I>(s: seq<Entry<I>>)
    ensures |Ids(s)| == |s|
  {
    if s != [] { IdsLength(s[1..]); }
  }

  lemma SortIs<I(!new)>(index: seq<Entry<I>>, order: seq<Entry<I>>)
    requires Represents(index, order)
    ensures Sort(index) == order && |index| == |order|
  {
    SortSorts(index);
    SortedIsUnique(Sort(index), order);
  }

  /** Pruning keeps the first `limit` of the order of use, and names the ids it drops. */
  lemma PruneRepresents<I(!new)>(index: seq<Entry<I>>, order: seq<Entry<I>>, limit: nat)
    requires Represents(index, order)
    ensures Represents(Kept(index, limit), Take(order, limit))
    ensures Ids(Take(order, limit)) == Take(Ids(order), limit)
    ensures Elements(Pruned(index, limit)) == Elements(Ids(order)) - Elements(Take(Ids(order), limit))
    ensures multiset(Take(order, limit)) <= multiset(order)
  {
    hide Take, Ids, Distinct, StrictlySorted, Drop, Sort;
    SortIs(index, order);
    TakeLength(order, limit);
    IdsTake(order, limit);
    IdsLength(order);
    TakeLength(Ids(order), limit);
    TakeAndDrop(Ids(order), limit);
    TakeSorted(order, limit);
    TakeSubset(order, limit);
    TakeDistinct(Ids(order), limit);
    ElementsEmpty<I>();
  }

  lemma ElementsEmpty<I>()
    ensures Elements<I>([]) == {}
  {
  }

  lemma {:induction false} NoticedAt<I>(index: seq<Entry<I>>, id: I, timestamp: nat, found: nat)
    requires found <= |index| && (found < |index| ==> index[found].id == id)
    requires forall k :: 0 <= k < found ==> index[k].id != id
    ensures Noticed(index, id, timestamp)
         == if found < |index| then index[found := Entry(id, timestamp)] else index + [Entry(id, timestamp)]
  {
    if found > 0 { NoticedAt(index[1..], id, timestamp, found - 1); }
  }

  class ContextIndex<I(==)> {
    var index: seq<Entry<I>>

    constructor (index: seq<Entry<I>>)
      ensures this.index == index
    {
      this.index := index;
    }

    /** Stamps the entry with the given id, or adds one at the end. */
    method Notice(id: I, timestamp: nat)
      modifies this
      ensures index == Noticed(old(index), id, timestamp)
    {
      var found := 0;
      while found < |index| && index[found].id != id
        invariant 0 <= found <= |index|
        invariant forall k :: 0 <= k < found ==> index[k].id != id
      {
        found := found + 1;
      }
      NoticedAt(index, id, timestamp, found);
      if found < |index| {
        index := index[found := Entry(id, timestamp)];
      } else {
        index := index + [Entry(id, timestamp)];
      }
    }

    method Prune(limit: nat) returns (removed: seq<I>)
      modifies this
      ensures index == Kept(old(index), limit)
      ensures removed == Pruned(old(index), limit)
    {
      if |index| <= limit { return []; }
      index := Sort(index);
      TakeLength(index, limit);
      DropLength(index, limit);
      removed := Ids(index[limit..]);
      index := index[..limit];
    }
  }

  // ----- JSON form

  function EntryJson(e: Entry<string>): Json {
    JsonValues.Object(map["id" := JsonValues.String(e.id), "timestamp" := JsonValues.Number(e.timestamp as real)])
  }

  function EntryOf(j: Json): Option<Entry<string>> {
    if j.Object? && "id" in j.members && j.members["id"].String?
       && "timestamp" in j.members && j.members["timestamp"].Number? && j.members["timestamp"].n >= 0.0
    then Some(Entry(j.members["id"].s, j.members["timestamp"].n.Floor))
    else None
  }

  function EntriesOf(items: seq<Json>): seq<Entry<string>> {
    if items == [] then []
    else EntriesOf(items[..|items| - 1])
         + match EntryOf(items[|items| - 1]) case Some(e) => [e] case None => []
  }

  function ToJson(index: seq<Entry<string>>): Json {
    JsonValues.Object(map["index" := JsonValues.Array(
      seq(|index|, i requires 0 <= i < |index| => EntryJson(index[i])))])
  }

  function FromJson(j: Json): seq<Entry<string>> {
    if j.Object? && "index" in j.members && j.members["index"].Array? then EntriesOf(j.members["index"].items) else []
  }

  method WriteIndex(index: seq<Entry<string>>) returns (j: Json)
    ensures j == ToJson(index)
  {
    var arr: seq<Json> := [];
    for i := 0 to |index|
      invariant |arr| == i && forall k :: 0 <= k < i ==> arr[k] == EntryJson(index[k])
    {
      arr := arr + [EntryJson(index[i])];
    }
    j := JsonValues.Object(map["index" := JsonValues.Array(arr)]);
    assert arr == ToJson(index).members["index"].items;
  }

  method ReadIndex(j: Json) returns (index: seq<Entry<string>>)
    ensures index == FromJson(j)
  {
    index := [];
    if j.Object? && "index" in j.members && j.members["index"].Array? {
      var items := j.members["index"].items;
      for i := 0 to |items|
        invariant index == EntriesOf(items[..i])
      {
        assert items[..i + 1][..i] == items[..i];
        match EntryOf(items[i]) {
          case Some(e) => index := index + [e];
          case None =>
        }
      }
      assert items[..|items|] == items;
    }
  }

  lemma {:induction false} EntriesRoundTrip(index: seq<Entry<string>>, items: seq<Json>)
    requires |items| == |index| && forall i :: 0 <= i < |index| ==> items[i] == EntryJson(index[i])
    ensures EntriesOf(items) == index
  {
    if index != [] {
      EntriesRoundTrip(index[..|index| - 1], items[..|items| - 1]);
      var e := index[|index| - 1];
      assert (e.timestamp as real).Floor == e.timestamp;
      assert index == index[..|index| - 1] + [e];
    }
  }

  /** Reading a written index gives the index back. */
  lemma IndexRoundTrip(index: seq<Entry<string>>)
    ensures FromJson(ToJson(index)) == index
  {
    EntriesRoundTrip(index, ToJson(index).members["index"].items);
  }

  /** A document is read entry by entry, in order. */
  lemma {:induction false} EntriesAppend(a: seq<Json>, b: seq<Json>)
    ensures EntriesOf(a + b) == EntriesOf(a) + EntriesOf(b)
    decreases b
  {
    hide EntryOf;
    if b == [] {
      assert a + b == a;
    } else {
      var init, last := b[..|b| - 1], b[|b| - 1];
      assert (a + b)[..|a + b| - 1] == a + init;
      EntriesAppend(a, init);
    }
  }

  ghost predicate HasIdAndTime(j: Json) {
    j.Object? && "id" in j.members && j.members["id"].String? && "timestamp" in j.members && j.members["timestamp"].Number?
  }

  /** An object with a text id and a numeric timestamp is an entry, whatever else it holds; nothing else is. */
  lemma OneEntry(j: Json, timestamp: nat)
    ensures HasIdAndTime(j) && j.members["timestamp"].n == timestamp as real ==> EntriesOf([j]) == [Entry(j.members["id"].s, timestamp)]
    ensures !HasIdAndTime(j) ==> EntriesOf([j]) == []
  {
    assert [j][..0] == [];
    assert (timestamp as real).Floor == timestamp;
    if HasIdAndTime(j) { assert [] + [Entry(j.members["id"].s, timestamp)] == [Entry(j.members["id"].s, timestamp)]; }
  }
}
