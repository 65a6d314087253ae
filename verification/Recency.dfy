/** Recency orders: which values of a history were used most recently. */
module Recency {

  function Remove<T(==)>(s: seq<T>, v: T): seq<T> {
    if s == [] then [] else if s[0] == v then Remove(s[1..], v) else [s[0]] + Remove(s[1..], v)
  }

  function Take<T>(s: seq<T>, n: nat): seq<T> {
    if s == [] || n == 0 then [] else [s[0]] + Take(s[1..], n - 1)
  }

  function Elements<T>(s: seq<T>): set<T> {
    if s == [] then {} else {s[0]} + Elements(s[1..])
  }

  predicate Distinct<T(==)>(s: seq<T>) {
    s == [] || (s[0] !in Elements(s[1..]) && Distinct(s[1..]))
  }

  /** The distinct values of a history, the most recently used first. */
  function Recent<T(==)>(history: seq<T>): seq<T> {
    if history == [] then []
    else
      var v := history[|history| - 1];
      [v] + Remove(Recent(history[..|history| - 1]), v)
  }

  /** The distinct values used after the last use of v. */
  function UsedAfter<T(==)>(history: seq<T>, v: T): set<T> {
    if history == [] || history[|history| - 1] == v then {}
    else {history[|history| - 1]} + UsedAfter(history[..|history| - 1], v)
  }

  /** v was used, and fewer than n distinct values were used since. */
  predicate AmongMostRecent<T(==)>(history: seq<T>, v: T, n: nat) {
    v in history && |UsedAfter(history, v)| < n
  }

  lemma {:induction false} ElementsAre<T>(s: seq<T>, v: T)
    ensures v in Elements(s) <==> v in s
  {
    if s != [] { ElementsAre(s[1..], v); }
  }

  lemma {:induction false} ElementsSnoc<T>(s: seq<T>, v: T)
    ensures Elements(s + [v]) == Elements(s) + {v}
  {
    if s != [] {
      assert (s + [v])[1..] == s[1..] + [v];
      ElementsSnoc(s[1..], v);
    }
  }

  lemma {:induction false} RemoveElements<T>(s: seq<T>, v: T)
    ensures Elements(Remove(s, v)) == Elements(s) - {v}
    ensures v !in Elements(s) ==> Remove(s, v) == s
  {
    if s != [] { RemoveElements(s[1..], v); }
  }

  lemma {:induction false} RemoveDistinct<T>(s: seq<T>, v: T)
    requires Distinct(s)
    ensures Distinct(Remove(s, v))
  {
    if s != [] {
      RemoveDistinct(s[1..], v);
      RemoveElements(s[1..], v);
    }
  }

  lemma {:induction false} DistinctSize<T>(s: seq<T>)
    requires Distinct(s)
    ensures |Elements(s)| == |s|
  {
    if s != [] { DistinctSize(s[1..]); }
  }

  lemma {:induction false} RecentDistinct<T>(history: seq<T>)
    ensures Distinct(Recent(history))
    ensures Elements(Recent(history)) == Elements(history)
  {
    if history != [] {
      var v, init := history[|history| - 1], history[..|history| - 1];
      RecentDistinct(init);
      RemoveDistinct(Recent(init), v);
      RemoveElements(Recent(init), v);
      assert history == init + [v];
      ElementsSnoc(init, v);
    }
  }

  /** The elements before v. */
  function Before<T(==)>(s: seq<T>, v: T): set<T> {
    if s == [] || s[0] == v then {} else {s[0]} + Before(s[1..], v)
  }

  lemma {:induction false} BeforeRemove<T>(s: seq<T>, w: T, v: T)
    requires w != v
    ensures Before(Remove(s, w), v) == Before(s, v) - {w}
  {
    if s != [] { BeforeRemove(s[1..], w, v); }
  }

  lemma {:induction false} BeforeRecent<T>(history: seq<T>, v: T)
    ensures Before(Recent(history), v) == UsedAfter(history, v)
  {
    if history != [] {
      var w, init := history[|history| - 1], history[..|history| - 1];
      if w != v {
        BeforeRecent(init, v);
        BeforeRemove(Recent(init), w, v);
      }
    }
  }

  lemma {:induction false} InTake<T>(s: seq<T>, v: T, n: nat)
    requires Distinct(s)
    ensures Before(s, v) <= Elements(s)
    ensures v in Elements(Take(s, n)) <==> v in Elements(s) && |Before(s, v)| < n
  {
    if s != [] {
      InTake(s[1..], v, if n == 0 then 0 else n - 1);
    }
  }

  /** Being within the first n of the recency order is being among the n most recently used. */
  lemma MostRecent<T>(history: seq<T>, v: T, n: nat)
    ensures v in Elements(Take(Recent(history), n)) <==> AmongMostRecent(history, v, n)
  {
    RecentDistinct(history);
    InTake(Recent(history), v, n);
    BeforeRecent(history, v);
    ElementsAre(history, v);
  }

  lemma {:induction false} TakeTake<T>(s: seq<T>, n: nat, m: nat)
    requires n <= m
    ensures Take(Take(s, m), n) == Take(s, n)
    ensures Elements(Take(s, n)) <= Elements(s)
  {
    if s != [] && n > 0 { TakeTake(s[1..], n - 1, m - 1); }
  }

  /** Only the first n + 1 entries matter for the first n after removing one value. */
  lemma {:induction false} TakeRemove<T>(s: seq<T>, v: T, n: nat)
    requires Distinct(s)
    ensures Take(Remove(s, v), n) == Take(Remove(Take(s, n + 1), v), n)
  {
    if s != [] && n > 0 {
      if s[0] == v {
        RemoveElements(s[1..], v);
        TakeTake(s[1..], n, n);
        RemoveElements(Take(s[1..], n), v);
      } else {
        TakeRemove(s[1..], v, n - 1);
      }
    }
  }

  /** Using v moves it to the front; keeping only n entries at each step keeps the n most recent. */
  lemma NoticeKeepsMostRecent<T>(history: seq<T>, v: T, n: nat)
    requires n >= 1
    ensures Take(Recent(history + [v]), n) == Take([v] + Remove(Take(Recent(history), n), v), n)
  {
    assert (history + [v])[..|history|] == history;
    RecentDistinct(history);
    TakeRemove(Recent(history), v, n - 1);
    var kept := Remove(Take(Recent(history), n), v);
    assert ([v] + kept)[1..] == kept;
    assert ([v] + Remove(Recent(history), v))[1..] == Remove(Recent(history), v);
  }

  lemma {:induction false} TakeLength<T>(s: seq<T>, n: nat)
    ensures Take(s, n) == if |s| <= n then s else s[..n]
  {
    if s != [] && n > 0 { TakeLength(s[1..], n - 1); }
  }

  lemma {:induction false} TakeDistinct<T>(s: seq<T>, n: nat)
    requires Distinct(s)
    ensures Distinct(Take(s, n))
  {
    if s != [] && n > 0 {
      TakeDistinct(s[1..], n - 1);
      TakeTake(s[1..], n - 1, n - 1);
    }
  }

  function Drop<T>(s: seq<T>, n: nat): seq<T> {
    if s == [] || n == 0 then s else Drop(s[1..], n - 1)
  }

  lemma {:induction false} DropLength<T>(s: seq<T>, n: nat)
    ensures Drop(s, n) == if |s| <= n then [] else s[n..]
  {
    if s != [] && n > 0 { DropLength(s[1..], n - 1); }
  }

  /** The first n and the rest share nothing and leave nothing out. */
  lemma {:induction false} TakeAndDrop<T>(s: seq<T>, n: nat)
    requires Distinct(s)
    ensures Elements(s) == Elements(Take(s, n)) + Elements(Drop(s, n))
    ensures Elements(Take(s, n)) !! Elements(Drop(s, n))
  {
    if s != [] && n > 0 { TakeAndDrop(s[1..], n - 1); }
  }

  lemma {:induction false} DistinctSnoc<T>(s: seq<T>, v: T)
    requires Distinct(s) && v !in Elements(s)
    ensures Distinct(s + [v])
  {
    if s != [] {
      assert (s + [v])[1..] == s[1..] + [v];
      ElementsSnoc(s[1..], v);
      DistinctSnoc(s[1..], v);
    }
  }
}
