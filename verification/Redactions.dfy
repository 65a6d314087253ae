/** Redaction of private attributes by an explicit stack, and the recursive redactor it refines.
    Models Redact, Emplace, AppendContainer, AppendSimpleType and the traversal of
    libs/internal/src/context_filter.cpp. K is the type of attribute names and N that of redaction names;
    both are strings in the source. A reference to a JSON container is its address in the document. */
module Redactions {
  import opened Wrappers
  import opened AttributeReferences
  import opened Recency
  import V = Values
  import J = JsonValues

  type Value<K> = V.ValueOf<K>
  type Json<K> = J.JsonOf<K>

  // ----- Which paths are private

  datatype PrivateRef<K, N> = PrivateRef(valid: bool, path: seq<K>, name: N)

  /** A set of references, which compare by path: each is held under its path. */
  ghost predicate Keyed<K, N>(refs: map<seq<K>, PrivateRef<K, N>>) { forall p :: p in refs ==> refs[p].path == p }

  datatype Rules<!K(==), N> = Rules(redactAll: bool, pathName: seq<K> -> N,
                                globals: map<seq<K>, PrivateRef<K, N>>, locals: map<seq<K>, PrivateRef<K, N>>) {
    ghost predicate Valid() { Keyed(globals) && Keyed(locals) }
  }

  function Match<K(==), N>(refs: map<seq<K>, PrivateRef<K, N>>, path: seq<K>): Option<N> {
    if path in refs && refs[path].valid then Some(refs[path].name) else None
  }

  /** The name under which a path is redacted, when it is. */
  function Redacted<K(==), N>(rules: Rules<K, N>, path: seq<K>): Option<N> {
    if rules.redactAll then Some(rules.pathName(path))
    else
      var global := Match(rules.globals, path);
      if global.Some? then global else Match(rules.locals, path)
  }

  method FindMatch<K(==), N>(refs: map<seq<K>, PrivateRef<K, N>>, path: seq<K>) returns (found: Option<N>)
    requires Keyed(refs)
    ensures found == Match(refs, path)
  {
    var left := refs.Keys;
    while left != {}
      invariant left <= refs.Keys && (path in refs && path !in left ==> !refs[path].valid)
      decreases left
    {
      var p :| p in left;
      if refs[p].valid && refs[p].path == path { return Some(refs[p].name); }
      left := left - {p};
    }
    return None;
  }

  /** Records the redaction of a path, when it is private. */
  method Redact<K(==), N>(rules: Rules<K, N>, redactions: seq<N>, path: seq<K>) returns (redacted: bool, all: seq<N>)
    requires rules.Valid()
    ensures redacted <==> Redacted(rules, path).Some?
    ensures all == if redacted then redactions + [Redacted(rules, path).value] else redactions
  {
    if rules.redactAll { return true, redactions + [rules.pathName(path)]; }
    var global := FindMatch(rules.globals, path);
    if global.Some? { return true, redactions + [global.value]; }
    var local := FindMatch(rules.locals, path);
    if local.Some? { return true, redactions + [local.value]; }
    return false, redactions;
  }

  // ----- The recursive redactor

  /** What a value becomes: private members go, and inside an array paths start again. */
  function Redaction<K(==), N>(rules: Rules<K, N>, path: seq<K>, v: Value<K>): Json<K>
    decreases v
  {
    match v
    case Null => J.Null
    case Bool(b) => J.Bool(b)
    case Number(n) => J.Number(n)
    case String(s) => J.String(CString(s))
    case Array(items) => J.Array(RedactionItems(rules, items))
    case Object(members) =>
      J.Object(map k | k in members && Redacted(rules, path + [k]).None? :: Redaction(rules, path + [k], members[k]))
  }

  function RedactionItems<K(==), N>(rules: Rules<K, N>, items: seq<Value<K>>): seq<Json<K>>
    decreases items
  {
    if items == [] then [] else [Redaction(rules, [], items[0])] + RedactionItems(rules, items[1..])
  }

  /** What a traversal meets in a value: None for each node it keeps, a name for each it redacts. */
  ghost function Visits<K, N>(rules: Rules<K, N>, path: seq<K>, v: Value<K>): multiset<Option<N>>
    decreases v, 1, 0
  {
    multiset{None} + match v
                     case Array(items) => ItemsVisits(rules, items)
                     case Object(members) => MembersVisits(rules, path, v, members.Keys)
                     case _ => multiset{}
  }

  ghost function ItemsVisits<K, N>(rules: Rules<K, N>, items: seq<Value<K>>): multiset<Option<N>>
    decreases items, 0, 0
  {
    if items == [] then multiset{} else Visits(rules, [], items[0]) + ItemsVisits(rules, items[1..])
  }

  ghost function MemberVisits<K, N>(rules: Rules<K, N>, path: seq<K>, v: Value<K>, k: K): multiset<Option<N>>
    requires v.Object? && k in v.members
    decreases v, 0, 0
  {
    if Redacted(rules, path + [k]).Some? then multiset{Redacted(rules, path + [k])}
    else Visits(rules, path + [k], v.members[k])
  }

  ghost function MembersVisits<K, N>(rules: Rules<K, N>, path: seq<K>, v: Value<K>, keys: set<K>): multiset<Option<N>>
    requires v.Object? && keys <= v.members.Keys
    decreases v, 0, |keys| + 1
  {
    if keys == {} then multiset{}
    else
      var k :| k in keys;
      MemberVisits(rules, path, v, k) + MembersVisits(rules, path, v, keys - {k})
  }

  /** The order in which members are taken does not matter. */
  lemma {:induction false} TakeMember<K, N>(rules: Rules<K, N>, path: seq<K>, v: Value<K>, keys: set<K>, k: K)
    requires v.Object? && keys <= v.members.Keys && k in keys
    ensures MembersVisits(rules, path, v, keys) == MemberVisits(rules, path, v, k) + MembersVisits(rules, path, v, keys - {k})
    decreases |keys|
  {
    var first :| first in keys && MembersVisits(rules, path, v, keys)
      == MemberVisits(rules, path, v, first) + MembersVisits(rules, path, v, keys - {first});
    if first != k {
      hide MemberVisits;
      TakeMember(rules, path, v, keys - {first}, k);
      TakeMember(rules, path, v, keys - {k}, first);
      assert keys - {first} - {k} == keys - {k} - {first};
    }
  }

  // ----- Documents by address

  datatype Hop<K> = Key(name: K) | At(index: nat)

  type Address<K> = seq<Hop<K>>

  function Lookup<K>(j: Json<K>, a: Address<K>): Option<Json<K>>
    decreases a
  {
    if a == [] then Some(j)
    else
      match a[0]
      case Key(k) => if j.Object? && k in j.members then Lookup(j.members[k], a[1..]) else None
      case At(i) => if j.Array? && i < |j.items| then Lookup(j.items[i], a[1..]) else None
  }

  function Replace<K>(j: Json<K>, a: Address<K>, v: Json<K>): Json<K>
    requires Lookup(j, a).Some?
    decreases a
  {
    if a == [] then v
    else
      match a[0]
      case Key(k) => J.Object(j.members[k := Replace(j.members[k], a[1..], v)])
      case At(i) => J.Array(j.items[i := Replace(j.items[i], a[1..], v)])
  }

  lemma {:induction false} LookupReplaced<K>(j: Json<K>, a: Address<K>, v: Json<K>, b: Address<K>)
    requires Lookup(j, a).Some?
    ensures Lookup(Replace(j, a, v), a + b) == Lookup(v, b)
    decreases a
  {
    if a == [] {
      assert a + b == b;
    } else {
      assert (a + b)[1..] == a[1..] + b;
      match a[0] {
        case Key(k) => LookupReplaced(j.members[k], a[1..], v, b);
        case At(i) => LookupReplaced(j.items[i], a[1..], v, b);
      }
    }
  }

  lemma LookupReplacedHere<K>(j: Json<K>, a: Address<K>, v: Json<K>)
    requires Lookup(j, a).Some?
    ensures Lookup(Replace(j, a, v), a) == Some(v)
  {
    LookupReplaced(j, a, v, []);
    assert a + [] == a;
  }

  lemma MapTwice<K, T>(m: map<K, T>, k: K, x: T, y: T)
    ensures m[k := x][k := y] == m[k := y]
  {
  }

  lemma SeqTwice<T>(s: seq<T>, i: nat, x: T, y: T)
    requires i < |s|
    ensures s[i := x][i := y] == s[i := y]
  {
  }

  /** Replacing inside what was just put somewhere is putting the replacement there. */
  lemma {:induction false} ReplaceInside<K>(j: Json<K>, a: Address<K>, v: Json<K>, b: Address<K>, w: Json<K>)
    requires Lookup(j, a).Some? && Lookup(v, b).Some?
    ensures Lookup(Replace(j, a, v), a + b).Some?
    ensures Replace(Replace(j, a, v), a + b, w) == Replace(j, a, Replace(v, b, w))
    decreases a
  {
    LookupReplaced(j, a, v, b);
    if a == [] {
      assert a + b == b;
    } else {
      ReplaceInsideStep(j, a, v, b, w);
    }
  }

  lemma {:induction false} ReplaceInsideStep<K>(j: Json<K>, a: Address<K>, v: Json<K>, b: Address<K>, w: Json<K>)
    requires a != [] && Lookup(j, a).Some? && Lookup(v, b).Some? && Lookup(Replace(j, a, v), a + b).Some?
    ensures Replace(Replace(j, a, v), a + b, w) == Replace(j, a, Replace(v, b, w))
    decreases a, 0
  {
    var tail := a[1..];
    assert (a + b)[1..] == tail + b && (a + b)[0] == a[0];
    match a[0] {
      case Key(k) =>
        ReplaceInside(j.members[k], tail, v, b, w);
        MapTwice(j.members, k, Replace(j.members[k], tail, v), Replace(j.members[k], tail, Replace(v, b, w)));
      case At(i) =>
        ReplaceInside(j.items[i], tail, v, b, w);
        SeqTwice(j.items, i, Replace(j.items[i], tail, v), Replace(j.items[i], tail, Replace(v, b, w)));
    }
  }

  lemma ReplaceTwice<K>(j: Json<K>, a: Address<K>, v: Json<K>, w: Json<K>)
    requires Lookup(j, a).Some?
    ensures Lookup(Replace(j, a, v), a).Some?
    ensures Replace(Replace(j, a, v), a, w) == Replace(j, a, w)
  {
    ReplaceInside(j, a, v, [], w);
    assert a + [] == a;
  }

  // ----- The stack

  datatype StackItem<K> = StackItem(value: Value<K>, path: seq<K>, parent: Address<K>)

  /** A container takes an item: an array always, an object when it has no member of the item's name. */
  predicate FitsIn<K(==)>(container: Json<K>, path: seq<K>) {
    container.Array? || (container.Object? && path != [] && path[|path| - 1] !in container.members)
  }

  predicate Fits<K(==)>(j: Json<K>, item: StackItem<K>) {
    Lookup(j, item.parent).Some? && FitsIn(Lookup(j, item.parent).value, item.path)
  }

  function With<K>(container: Json<K>, path: seq<K>, child: Json<K>): Json<K>
    requires FitsIn(container, path)
  {
    if container.Array? then J.Array(container.items + [child])
    else J.Object(container.members[path[|path| - 1] := child])
  }

  function AppendAt<K>(j: Json<K>, item: StackItem<K>, child: Json<K>): Json<K>
    requires Fits(j, item)
  {
    Replace(j, item.parent, With(Lookup(j, item.parent).value, item.path, child))
  }

  /** The address of the element that appending an item makes. */
  function NestedAt<K>(j: Json<K>, item: StackItem<K>): Address<K>
    requires Fits(j, item)
  {
    item.parent + [NewHop(Lookup(j, item.parent).value, item.path)]
  }

  function NewHop<K>(container: Json<K>, path: seq<K>): Hop<K>
    requires FitsIn(container, path)
  {
    if container.Array? then At(|container.items|) else Key(path[|path| - 1])
  }

  lemma WithThenFill<K>(container: Json<K>, path: seq<K>, empty: Json<K>, full: Json<K>)
    requires FitsIn(container, path)
    ensures Lookup(With(container, path, empty), [NewHop(container, path)]) == Some(empty)
    ensures Replace(With(container, path, empty), [NewHop(container, path)], full) == With(container, path, full)
  {
    assert [NewHop(container, path)][1..] == [];
  }

  /** Filling an appended empty container is appending the full one. */
  lemma AppendThenFill<K>(j: Json<K>, item: StackItem<K>, empty: Json<K>, full: Json<K>)
    requires Fits(j, item)
    ensures Lookup(AppendAt(j, item, empty), NestedAt(j, item)) == Some(empty)
    ensures Replace(AppendAt(j, item, empty), NestedAt(j, item), full) == AppendAt(j, item, full)
  {
    hide Lookup, Replace, With, NewHop;
    var container := Lookup(j, item.parent).value;
    var grown, hop := With(container, item.path, empty), NewHop(container, item.path);
    WithThenFill(container, item.path, empty, full);
    LookupReplaced(j, item.parent, grown, [hop]);
    ReplaceInside(j, item.parent, grown, [hop], full);
  }

  predicate IsRedacted<K(==), N>(rules: Rules<K, N>, item: StackItem<K>) {
    item.path != [] && Redacted(rules, item.path).Some?
  }

  function Result<K(==), N>(rules: Rules<K, N>, item: StackItem<K>): Json<K> { Redaction(rules, item.path, item.value) }

  /** Each item, taken from the top, fits where it goes once those above it are in place. */
  ghost predicate Ready<K, N>(rules: Rules<K, N>, j: Json<K>, stack: seq<StackItem<K>>)
    decreases |stack|
  {
    stack == [] ||
    var init, top := stack[..|stack| - 1], stack[|stack| - 1];
    if IsRedacted(rules, top) then Ready(rules, j, init)
    else Fits(j, top) && Ready(rules, AppendAt(j, top, Result(rules, top)), init)
  }

  /** The document once every item is in place, each redacted by the recursive redactor. */
  ghost function Complete<K, N>(rules: Rules<K, N>, j: Json<K>, stack: seq<StackItem<K>>): Json<K>
    requires Ready(rules, j, stack)
    decreases |stack|
  {
    if stack == [] then j
    else
      var init, top := stack[..|stack| - 1], stack[|stack| - 1];
      if IsRedacted(rules, top) then Complete(rules, j, init)
      else Complete(rules, AppendAt(j, top, Result(rules, top)), init)
  }

  ghost function ItemVisits<K, N>(rules: Rules<K, N>, item: StackItem<K>): multiset<Option<N>> {
    if IsRedacted(rules, item) then multiset{Redacted(rules, item.path)} else Visits(rules, item.path, item.value)
  }

  ghost function PendingVisits<K, N>(rules: Rules<K, N>, stack: seq<StackItem<K>>): multiset<Option<N>> {
    if stack == [] then multiset{}
    else PendingVisits(rules, stack[..|stack| - 1]) + ItemVisits(rules, stack[|stack| - 1])
  }

  // ----- The children of an object

  function MemberItem<K>(v: Value<K>, path: seq<K>, a: Address<K>, k: K): StackItem<K>
    requires v.Object? && k in v.members
  {
    StackItem(v.members[k], path + [k], a)
  }

  ghost predicate KeysOf<K>(v: Value<K>, keys: seq<K>) { v.Object? && Distinct(keys) && Elements(keys) <= v.members.Keys }

  ghost function MemberItems<K>(v: Value<K>, path: seq<K>, a: Address<K>, keys: seq<K>): seq<StackItem<K>>
    requires KeysOf(v, keys)
  {
    if keys == [] then [] else MemberItems(v, path, a, keys[1..]) + [MemberItem(v, path, a, keys[0])]
  }

  /** The members once the children named by `keys` are in place. */
  ghost function Filled<K, N>(rules: Rules<K, N>, v: Value<K>, path: seq<K>, members: map<K, Json<K>>, keys: seq<K>): map<K, Json<K>>
    requires KeysOf(v, keys)
    decreases keys
  {
    if keys == [] then members
    else Filled(rules, v, path, MemberDone(rules, v, path, members, keys[0]), keys[1..])
  }

  ghost function MemberDone<K, N>(rules: Rules<K, N>, v: Value<K>, path: seq<K>, members: map<K, Json<K>>, k: K): map<K, Json<K>>
    requires v.Object? && k in v.members
  {
    if Redacted(rules, path + [k]).Some? then members else members[k := Redaction(rules, path + [k], v.members[k])]
  }

  lemma {:induction false} FilledMembers<K, N>(rules: Rules<K, N>, v: Value<K>, path: seq<K>, members: map<K, Json<K>>, keys: seq<K>)
    requires KeysOf(v, keys) && members.Keys !! Elements(keys)
    ensures Filled(rules, v, path, members, keys)
         == members + map k | k in Elements(keys) && Redacted(rules, path + [k]).None? :: Redaction(rules, path + [k], v.members[k])
    decreases keys
  {
    if keys != [] {
      hide Redacted, Redaction;
      FilledMembers(rules, v, path, MemberDone(rules, v, path, members, keys[0]), keys[1..]);
    }
  }

  lemma FilledWhole<K, N>(rules: Rules<K, N>, v: Value<K>, path: seq<K>, keys: seq<K>)
    requires KeysOf(v, keys) && Elements(keys) == v.members.Keys
    ensures J.Object(Filled(rules, v, path, map[], keys)) == Redaction(rules, path, v)
  {
    hide Redacted;
    FilledMembers(rules, v, path, map[], keys);
  }

  lemma ReadyTop<K, N>(rules: Rules<K, N>, j: Json<K>, base: seq<StackItem<K>>, item: StackItem<K>)
    ensures Ready(rules, j, base + [item]) <==>
              if IsRedacted(rules, item) then Ready(rules, j, base)
              else Fits(j, item) && Ready(rules, AppendAt(j, item, Result(rules, item)), base)
    ensures Ready(rules, j, base + [item]) ==>
              Complete(rules, j, base + [item]) ==
                if IsRedacted(rules, item) then Complete(rules, j, base)
                else Complete(rules, AppendAt(j, item, Result(rules, item)), base)
    ensures PendingVisits(rules, base + [item]) == PendingVisits(rules, base) + ItemVisits(rules, item)
  {
    assert (base + [item])[..|base|] == base;
  }

  /** Placing the children of an object in any order fills the object. */
  lemma {:induction false} PlaceMembers<K, N>(rules: Rules<K, N>, j: Json<K>, base: seq<StackItem<K>>,
                                              v: Value<K>, path: seq<K>, a: Address<K>, keys: seq<K>, members: map<K, Json<K>>)
    requires KeysOf(v, keys) && members.Keys !! Elements(keys)
    requires Lookup(j, a) == Some(J.Object(members))
    requires Ready(rules, Replace(j, a, J.Object(Filled(rules, v, path, members, keys))), base)
    ensures Ready(rules, j, base + MemberItems(v, path, a, keys))
    ensures Complete(rules, j, base + MemberItems(v, path, a, keys))
         == Complete(rules, Replace(j, a, J.Object(Filled(rules, v, path, members, keys))), base)
    decreases keys
  {
    if keys == [] {
      assert base + [] == base;
      ReplaceSame(j, a);
    } else {
      var rest, top := MemberItems(v, path, a, keys[1..]), MemberItem(v, path, a, keys[0]);
      assert base + MemberItems(v, path, a, keys) == base + rest + [top];
      var done := MemberDone(rules, v, path, members, keys[0]);
      PlaceMember(rules, j, v, path, a, keys[0], members);
      var j' := Replace(j, a, J.Object(done));
      ReplaceTwice(j, a, J.Object(done), J.Object(Filled(rules, v, path, members, keys)));
      LookupReplacedHere(j, a, J.Object(done));
      hide Ready, Complete, Redacted, Redaction, Lookup, Replace, AppendAt, Fits, MemberItem;
      PlaceMembers(rules, j', base, v, path, a, keys[1..], done);
      ReadyTop(rules, j, base + rest, top);
    }
  }

  lemma PlaceMember<K, N>(rules: Rules<K, N>, j: Json<K>, v: Value<K>, path: seq<K>, a: Address<K>, k: K, members: map<K, Json<K>>)
    requires v.Object? && k in v.members && k !in members && Lookup(j, a) == Some(J.Object(members))
    ensures
      var item, done := MemberItem(v, path, a, k), J.Object(MemberDone(rules, v, path, members, k));
      if IsRedacted(rules, item) then Replace(j, a, done) == j
      else Fits(j, item) && AppendAt(j, item, Result(rules, item)) == Replace(j, a, done)
  {
    hide Redacted, Redaction, Lookup, Replace;
    ReplaceSame(j, a);
  }

  lemma {:induction false} ReplaceSame<K>(j: Json<K>, a: Address<K>)
    requires Lookup(j, a).Some?
    ensures Replace(j, a, Lookup(j, a).value) == j
    decreases a
  {
    if a != [] {
      match a[0] {
        case Key(k) => ReplaceSame(j.members[k], a[1..]);
        case At(i) => ReplaceSame(j.items[i], a[1..]);
      }
    }
  }

  lemma {:induction false} MembersPending<K, N>(rules: Rules<K, N>, base: seq<StackItem<K>>,
                                                v: Value<K>, path: seq<K>, a: Address<K>, keys: seq<K>)
    requires KeysOf(v, keys)
    ensures PendingVisits(rules, base + MemberItems(v, path, a, keys))
         == PendingVisits(rules, base) + MembersVisits(rules, path, v, Elements(keys))
    decreases keys
  {
    if keys == [] {
      assert base + [] == base;
    } else {
      var rest, top := MemberItems(v, path, a, keys[1..]), MemberItem(v, path, a, keys[0]);
      assert base + MemberItems(v, path, a, keys) == base + rest + [top];
      assert ItemVisits(rules, top) == MemberVisits(rules, path, v, keys[0]);
      assert Elements(keys) - {keys[0]} == Elements(keys[1..]);
      hide ItemVisits, MemberVisits, MemberItem, MembersVisits;
      MembersPending(rules, base, v, path, a, keys[1..]);
      ReadyTop(rules, J.Null, base + rest, top);
      TakeMember(rules, path, v, Elements(keys), keys[0]);
    }
  }

  // ----- The children of an array

  function ArrayItems<K>(items: seq<Value<K>>, a: Address<K>): seq<StackItem<K>> {
    if items == [] then [] else ArrayItems(items[1..], a) + [StackItem(items[0], [], a)]
  }

  /** Placing array elements, pushed last to first, fills the array in order. */
  lemma {:induction false} PlaceItems<K, N>(rules: Rules<K, N>, j: Json<K>, base: seq<StackItem<K>>,
                                            items: seq<Value<K>>, a: Address<K>, done: seq<Json<K>>)
    requires Lookup(j, a) == Some(J.Array(done))
    requires Ready(rules, Replace(j, a, J.Array(done + RedactionItems(rules, items))), base)
    ensures Ready(rules, j, base + ArrayItems(items, a))
    ensures Complete(rules, j, base + ArrayItems(items, a))
         == Complete(rules, Replace(j, a, J.Array(done + RedactionItems(rules, items))), base)
    decreases items
  {
    if items == [] {
      assert base + [] == base && done + [] == done;
      ReplaceSame(j, a);
    } else {
      var rest, top := ArrayItems(items[1..], a), StackItem(items[0], [], a);
      assert base + ArrayItems(items, a) == base + rest + [top];
      var first := Redaction(rules, [], items[0]);
      assert done + RedactionItems(rules, items) == done + [first] + RedactionItems(rules, items[1..]);
      var j' := Replace(j, a, J.Array(done + [first]));
      assert Fits(j, top) && AppendAt(j, top, Result(rules, top)) == j';
      ReplaceTwice(j, a, J.Array(done + [first]), J.Array(done + RedactionItems(rules, items)));
      LookupReplacedHere(j, a, J.Array(done + [first]));
      hide Ready, Complete, Redacted, Redaction, RedactionItems, Lookup, Replace, AppendAt, Fits;
      PlaceItems(rules, j', base, items[1..], a, done + [first]);
      ReadyTop(rules, j, base + rest, top);
    }
  }

  lemma {:induction false} ItemsPending<K, N>(rules: Rules<K, N>, base: seq<StackItem<K>>, items: seq<Value<K>>, a: Address<K>)
    ensures PendingVisits(rules, base + ArrayItems(items, a)) == PendingVisits(rules, base) + ItemsVisits(rules, items)
    decreases items
  {
    if items == [] {
      assert base + [] == base;
    } else {
      var rest, top := ArrayItems(items[1..], a), StackItem(items[0], [], a);
      assert base + ArrayItems(items, a) == base + rest + [top];
      ItemsPending(rules, base, items[1..], a);
      ReadyTop(rules, J.Null, base + rest, top);
    }
  }

  // ----- One turn of the loop

  lemma ObjectResult<K, N>(rules: Rules<K, N>, item: StackItem<K>, keys: seq<K>)
    requires KeysOf(item.value, keys) && Elements(keys) == item.value.members.Keys
    ensures Result(rules, item) == J.Object(Filled(rules, item.value, item.path, map[], keys))
    ensures !IsRedacted(rules, item) ==>
              ItemVisits(rules, item) == multiset{None} + MembersVisits(rules, item.path, item.value, Elements(keys))
  {
    FilledWhole(rules, item.value, item.path, keys);
  }

  /** An object taken from the stack becomes an empty object whose members are pending. */
  lemma StepObject<K, N>(rules: Rules<K, N>, j: Json<K>, base: seq<StackItem<K>>, top: StackItem<K>, keys: seq<K>)
    requires Ready(rules, j, base + [top]) && !IsRedacted(rules, top)
    requires KeysOf(top.value, keys) && Elements(keys) == top.value.members.Keys
    ensures Fits(j, top)
    ensures
      var j', kids := AppendAt(j, top, J.Object(map[])), MemberItems(top.value, top.path, NestedAt(j, top), keys);
      && Ready(rules, j', base + kids) && Complete(rules, j', base + kids) == Complete(rules, j, base + [top])
      && PendingVisits(rules, base + [top]) == multiset{None} + PendingVisits(rules, base + kids)
  {
    ReadyTop(rules, j, base, top);
    var full := J.Object(Filled(rules, top.value, top.path, map[], keys));
    ObjectResult(rules, top, keys);
    AppendThenFill(j, top, J.Object(map[]), full);
    hide Ready, Complete, PendingVisits, ItemVisits, IsRedacted, Result, Fits, AppendAt, NestedAt, Lookup, Replace, MemberItems, Filled;
    PlaceMembers(rules, AppendAt(j, top, J.Object(map[])), base, top.value, top.path, NestedAt(j, top), keys, map[]);
    MembersPending(rules, base, top.value, top.path, NestedAt(j, top), keys);
  }

  lemma ArrayResult<K, N>(rules: Rules<K, N>, item: StackItem<K>)
    requires item.value.Array?
    ensures Result(rules, item) == J.Array([] + RedactionItems(rules, item.value.items))
    ensures !IsRedacted(rules, item) ==> ItemVisits(rules, item) == multiset{None} + ItemsVisits(rules, item.value.items)
  {
    assert [] + RedactionItems(rules, item.value.items) == RedactionItems(rules, item.value.items);
  }

  /** An array taken from the stack becomes an empty array whose elements are pending. */
  lemma StepArray<K, N>(rules: Rules<K, N>, j: Json<K>, base: seq<StackItem<K>>, top: StackItem<K>)
    requires Ready(rules, j, base + [top]) && !IsRedacted(rules, top) && top.value.Array?
    ensures Fits(j, top)
    ensures
      var j', kids := AppendAt(j, top, J.Array([])), ArrayItems(top.value.items, NestedAt(j, top));
      && Ready(rules, j', base + kids) && Complete(rules, j', base + kids) == Complete(rules, j, base + [top])
      && PendingVisits(rules, base + [top]) == multiset{None} + PendingVisits(rules, base + kids)
  {
    ReadyTop(rules, j, base, top);
    ArrayResult(rules, top);
    AppendThenFill(j, top, J.Array([]), Result(rules, top));
    hide Ready, Complete, PendingVisits, ItemVisits, IsRedacted, Result, Fits, AppendAt, NestedAt, Lookup, Replace, ArrayItems;
    PlaceItems(rules, AppendAt(j, top, J.Array([])), base, top.value.items, NestedAt(j, top), []);
    ItemsPending(rules, base, top.value.items, NestedAt(j, top));
  }

  /** What AppendSimpleType makes of a value that holds no others. */
  function Simple<K>(v: Value<K>): Json<K>
    requires !v.Array? && !v.Object?
  {
    match v
    case Null => J.Null
    case Bool(b) => J.Bool(b)
    case Number(n) => J.Number(n)
    case String(s) => J.String(CString(s))
  }

  lemma StepSimple<K, N>(rules: Rules<K, N>, j: Json<K>, base: seq<StackItem<K>>, top: StackItem<K>)
    requires Ready(rules, j, base + [top]) && !IsRedacted(rules, top) && !top.value.Array? && !top.value.Object?
    ensures Fits(j, top)
    ensures
      var j' := AppendAt(j, top, Simple(top.value));
      && Ready(rules, j', base) && Complete(rules, j', base) == Complete(rules, j, base + [top])
      && PendingVisits(rules, base + [top]) == multiset{None} + PendingVisits(rules, base)
  {
    ReadyTop(rules, j, base, top);
    assert Result(rules, top) == Simple(top.value);
    assert ItemVisits(rules, top) == multiset{None};
  }

  // ----- References held by the stack

  /** Growing a container moves what it holds: no pending item may refer to anything inside it. */
  ghost predicate NoneInside<K>(pending: seq<StackItem<K>>, a: Address<K>) {
    forall i :: 0 <= i < |pending| ==> !(a < pending[i].parent)
  }

  /** The containers of the stack, from the bottom up, are each inside the one before. */
  ghost predicate Chain<K>(stack: seq<StackItem<K>>) {
    forall i, k :: 0 <= i <= k < |stack| ==> stack[i].parent <= stack[k].parent
  }

  ghost predicate AllAt<K>(items: seq<StackItem<K>>, a: Address<K>) {
    forall i :: 0 <= i < |items| ==> items[i].parent == a
  }

  lemma ChainTop<K>(base: seq<StackItem<K>>, top: StackItem<K>)
    requires Chain(base + [top])
    ensures Chain(base) && NoneInside(base, top.parent)
  {
    forall i, k | 0 <= i <= k < |base| ensures base[i].parent <= base[k].parent {
      assert (base + [top])[i] == base[i] && (base + [top])[k] == base[k];
    }
    forall i | 0 <= i < |base| ensures base[i].parent <= top.parent {
      assert (base + [top])[i] == base[i] && (base + [top])[|base|] == top;
    }
  }

  lemma ChainGrows<K>(base: seq<StackItem<K>>, top: StackItem<K>, kids: seq<StackItem<K>>, a: Address<K>)
    requires Chain(base + [top]) && top.parent <= a && AllAt(kids, a)
    ensures Chain(base + kids)
  {
    ChainTop(base, top);
    forall i | 0 <= i < |base| ensures base[i].parent <= a {
      assert (base + [top])[i] == base[i] && (base + [top])[|base|] == top;
    }
  }

  lemma {:induction false} MembersAllAt<K>(v: Value<K>, path: seq<K>, a: Address<K>, keys: seq<K>)
    requires KeysOf(v, keys)
    ensures AllAt(MemberItems(v, path, a, keys), a)
    decreases keys
  {
    if keys != [] { MembersAllAt(v, path, a, keys[1..]); }
  }

  lemma {:induction false} ItemsAllAt<K>(items: seq<Value<K>>, a: Address<K>)
    ensures AllAt(ArrayItems(items, a), a)
    decreases items
  {
    if items != [] { ItemsAllAt(items[1..], a); }
  }

  // ----- The traversal

  method Emplace<K(==)>(j: Json<K>, item: StackItem<K>, addition: Json<K>, ghost pending: seq<StackItem<K>>) returns (j': Json<K>)
    requires Fits(j, item) && NoneInside(pending, item.parent)
    ensures j' == AppendAt(j, item, addition)
  {
    var container := Lookup(j, item.parent).value;
    if container.Object? {
      j' := Replace(j, item.parent, J.Object(container.members[item.path[|item.path| - 1] := addition]));
    } else {
      j' := Replace(j, item.parent, J.Array(container.items + [addition]));
    }
  }

  method AppendContainer<K(==)>(j: Json<K>, item: StackItem<K>, empty: Json<K>, ghost pending: seq<StackItem<K>>)
    returns (j': Json<K>, nested: Address<K>)
    requires Fits(j, item) && NoneInside(pending, item.parent)
    ensures j' == AppendAt(j, item, empty) && nested == NestedAt(j, item)
    ensures Lookup(j', nested) == Some(empty)
  {
    AppendThenFill(j, item, empty, empty);
    var container := Lookup(j, item.parent).value;
    j' := Emplace(j, item, empty, pending);
    nested := item.parent + [if container.Object? then Key(item.path[|item.path| - 1]) else At(|container.items|)];
  }

  method PushMembers<K(==)>(stack: seq<StackItem<K>>, v: Value<K>, path: seq<K>, a: Address<K>)
    returns (pushed: seq<StackItem<K>>, ghost keys: seq<K>)
    requires v.Object?
    ensures KeysOf(v, keys) && Elements(keys) == v.members.Keys
    ensures pushed == stack + MemberItems(v, path, a, keys)
  {
    var left := v.members.Keys;
    pushed, keys := stack, [];
    while left != {}
      invariant KeysOf(v, keys) && Elements(keys) + left == v.members.Keys && Elements(keys) !! left
      invariant pushed == stack + MemberItems(v, path, a, keys)
      decreases left
    {
      var k :| k in left;
      assert ([k] + keys)[1..] == keys;
      pushed := pushed + [StackItem(v.members[k], path + [k], a)];
      keys := [k] + keys;
      left := left - {k};
    }
  }

  method PushItems<K>(stack: seq<StackItem<K>>, items: seq<Value<K>>, a: Address<K>) returns (pushed: seq<StackItem<K>>)
    ensures pushed == stack + ArrayItems(items, a)
  {
    pushed := stack;
    for i := |items| downto 0
      invariant pushed == stack + ArrayItems(items[i..], a)
    {
      assert items[i..][1..] == items[i + 1..];
      pushed := pushed + [StackItem(items[i], [], a)];
    }
    assert items[0..] == items;
  }

  /** The recorded names are the redactions met, each as often as it was met. */
  ghost predicate Recorded<N(!new)>(redactions: seq<N>, visited: multiset<Option<N>>) {
    forall n :: multiset(redactions)[n] == visited[Some(n)]
  }

  lemma RecordName<N(!new)>(redactions: seq<N>, visited: multiset<Option<N>>, name: N)
    requires Recorded(redactions, visited)
    ensures Recorded(redactions + [name], visited + multiset{Some(name)})
  {
    assert multiset(redactions + [name]) == multiset(redactions) + multiset{name};
  }

  /** One turn: takes the top item, redacts it, or appends it and pushes what it holds. */
  method Turn<K(==), N(!new)>(rules: Rules<K, N>, j: Json<K>, base: seq<StackItem<K>>, top: StackItem<K>,
                              redactions: seq<N>, ghost visited: multiset<Option<N>>)
    returns (j': Json<K>, stack: seq<StackItem<K>>, all: seq<N>, ghost visited': multiset<Option<N>>)
    requires rules.Valid() && Ready(rules, j, base + [top]) && Chain(base + [top]) && Recorded(redactions, visited)
    ensures Ready(rules, j', stack) && Complete(rules, j', stack) == Complete(rules, j, base + [top])
    ensures Chain(stack) && Recorded(all, visited')
    ensures visited' + PendingVisits(rules, stack) == visited + PendingVisits(rules, base + [top])
    ensures |PendingVisits(rules, stack)| < |PendingVisits(rules, base + [top])|
  {
    hide Ready, Complete, PendingVisits, AppendAt, NestedAt, Fits, Chain, NoneInside, Recorded, MemberItems, ArrayItems, Redacted;
    hide Visits, Simple, Lookup, Replace, AllAt, Redaction, KeysOf;
    ReadyTop(rules, j, base, top);
    ChainTop(base, top);
    j', stack, all, visited' := j, base, redactions, visited;
    if top.path != [] {
      var redacted;
      redacted, all := Redact(rules, redactions, top.path);
      if redacted {
        visited' := visited + multiset{Redacted(rules, top.path)};
        RecordName(redactions, visited, Redacted(rules, top.path).value);
        return;
      }
    }
    visited' := visited + multiset{None};
    RecordKept(redactions, visited);
    if top.value.Object? {
      ghost var keys; var nested;
      NestedDeeper(rules, j, base, top);
      j', nested := AppendContainer(j, top, J.Object(map[]), base);
      stack, keys := PushMembers(base, top.value, top.path, nested);
      StepObject(rules, j, base, top, keys);
      MembersAllAt(top.value, top.path, nested, keys);
      ChainGrows(base, top, MemberItems(top.value, top.path, nested, keys), nested);
    } else if top.value.Array? {
      var nested;
      NestedDeeper(rules, j, base, top);
      j', nested := AppendContainer(j, top, J.Array([]), base);
      stack := PushItems(base, top.value.items, nested);
      StepArray(rules, j, base, top);
      ItemsAllAt(top.value.items, nested);
      ChainGrows(base, top, ArrayItems(top.value.items, nested), nested);
    } else {
      StepSimple(rules, j, base, top);
      j' := Emplace(j, top, Simple(top.value), base);
    }
  }

  lemma RecordKept<N(!new)>(redactions: seq<N>, visited: multiset<Option<N>>)
    requires Recorded(redactions, visited)
    ensures Recorded(redactions, visited + multiset{None})
  {
  }

  lemma NestedDeeper<K, N>(rules: Rules<K, N>, j: Json<K>, base: seq<StackItem<K>>, top: StackItem<K>)
    requires Ready(rules, j, base + [top]) && !IsRedacted(rules, top)
    ensures Fits(j, top) && top.parent <= NestedAt(j, top)
  {
    ReadyTop(rules, j, base, top);
  }

  /** Runs until the stack is empty. */
  method Drain<K(==), N(!new)>(rules: Rules<K, N>, filtered: Json<K>, start: seq<StackItem<K>>, redactions: seq<N>,
                               ghost visited: multiset<Option<N>>)
    returns (result: Json<K>, all: seq<N>)
    requires rules.Valid() && Ready(rules, filtered, start) && Chain(start) && Recorded(redactions, visited)
    ensures result == Complete(rules, filtered, start)
    ensures Recorded(all, visited + PendingVisits(rules, start))
  {
    hide *;
    var stack := start;
    result, all := filtered, redactions;
    ghost var met := visited;
    while stack != []
      invariant Ready(rules, result, stack) && Chain(stack) && Recorded(all, met)
      invariant Complete(rules, result, stack) == Complete(rules, filtered, start)
      invariant met + PendingVisits(rules, stack) == visited + PendingVisits(rules, start)
      decreases |PendingVisits(rules, stack)|
    {
      var base, item := stack[..|stack| - 1], stack[|stack| - 1];
      assert stack == base + [item];
      result, stack, all, met := Turn(rules, result, base, item, all, met);
    }
    Ends(rules, result);
    assert met + multiset{} == met;
  }

  method Traverse<K(==), N(!new)>(rules: Rules<K, N>, filtered: Json<K>, attributes: Value<K>, redactions: seq<N>,
                                  ghost visited: multiset<Option<N>>)
    returns (result: Json<K>, all: seq<N>)
    requires filtered.Object? && attributes.Object? && filtered.members.Keys !! attributes.members.Keys
    requires rules.Valid() && Recorded(redactions, visited)
    ensures result == J.Object(filtered.members + Redaction(rules, [], attributes).members)
    ensures Recorded(all, visited + MembersVisits(rules, [], attributes, attributes.members.Keys))
  {
    hide Ready, Complete, PendingVisits, Chain, Recorded, MemberItems, KeysOf, MembersVisits, Redacted;
    var stack;
    ghost var keys;
    stack, keys := PushMembers([], attributes, [], []);
    Starts(rules, filtered, attributes, keys);
    result, all := Drain(rules, filtered, stack, redactions, visited);
  }

  lemma Starts<K, N>(rules: Rules<K, N>, filtered: Json<K>, attributes: Value<K>, keys: seq<K>)
    requires filtered.Object? && attributes.Object? && filtered.members.Keys !! attributes.members.Keys
    requires KeysOf(attributes, keys) && Elements(keys) == attributes.members.Keys
    ensures
      var stack := [] + MemberItems(attributes, [], [], keys);
      && Ready(rules, filtered, stack) && Chain(stack)
      && Complete(rules, filtered, stack) == J.Object(filtered.members + Redaction(rules, [], attributes).members)
      && PendingVisits(rules, stack) == MembersVisits(rules, [], attributes, attributes.members.Keys)
  {
    FilledMembers(rules, attributes, [], filtered.members, keys);
    var full := Filled(rules, attributes, [], filtered.members, keys);
    assert full == filtered.members + Redaction(rules, [], attributes).members;
    assert Replace(filtered, [], J.Object(full)) == J.Object(full);
    Ends(rules, J.Object(full));
    hide Ready, Complete, PendingVisits, Redaction, Redacted, Filled, MemberItems, AllAt, KeysOf, MembersVisits;
    PlaceMembers(rules, filtered, [], attributes, [], [], keys, filtered.members);
    MembersPending(rules, [], attributes, [], [], keys);
    MembersAllAt(attributes, [], [], keys);
    AllAtChain(MemberItems(attributes, [], [], keys), []);
  }

  lemma AllAtChain<K>(items: seq<StackItem<K>>, a: Address<K>)
    requires AllAt(items, a)
    ensures Chain([] + items)
  {
    assert [] + items == items;
  }

  lemma Ends<K, N>(rules: Rules<K, N>, j: Json<K>)
    ensures Ready(rules, j, []) && Complete(rules, j, []) == j
    ensures PendingVisits<K, N>(rules, []) == multiset{}
  {
  }

  // ----- What survives

  ghost predicate Private<K, N>(rules: Rules<K, N>, path: seq<K>) {
    rules.redactAll || HasMatch(rules.globals, path) || HasMatch(rules.locals, path)
  }

  ghost predicate HasMatch<K, N>(refs: map<seq<K>, PrivateRef<K, N>>, path: seq<K>) {
    exists p :: p in refs && refs[p].valid && refs[p].path == path
  }

  /** Some part of the way along p, beyond `path`, is redacted. */
  ghost predicate HiddenAlong<K, N>(rules: Rules<K, N>, path: seq<K>, p: seq<K>)
    decreases p
  {
    p != [] && (Redacted(rules, path + [p[0]]).Some? || HiddenAlong(rules, path + [p[0]], p[1..]))
  }

  lemma RedactedIffPrivate<K, N>(rules: Rules<K, N>, path: seq<K>)
    requires rules.Valid()
    ensures Redacted(rules, path).Some? <==> Private(rules, path)
  {
  }

  lemma {:induction false} RedactionAlong<K, N>(rules: Rules<K, N>, path: seq<K>, v: Value<K>, p: seq<K>)
    ensures J.Find(Redaction(rules, path, v), p)
         == if V.Find(v, p).None? || HiddenAlong(rules, path, p) then None
            else Some(Redaction(rules, path + p, V.Find(v, p).value))
    decreases p
  {
    if p == [] {
      assert path + p == path;
    } else if v.Object? && p[0] in v.members {
      hide Redacted;
      assert path + [p[0]] + p[1..] == path + p;
      RedactionAlong(rules, path + [p[0]], v.members[p[0]], p[1..]);
    }
  }

  lemma {:induction false} HiddenByPrefix<K, N>(rules: Rules<K, N>, path: seq<K>, p: seq<K>)
    requires rules.Valid()
    ensures HiddenAlong(rules, path, p) <==> exists n :: |path| < n <= |path + p| && Private(rules, (path + p)[..n])
    decreases p
  {
    hide Redacted, Private;
    if p != [] {
      var longer := path + [p[0]];
      assert longer + p[1..] == path + p && (path + p)[..|path| + 1] == longer;
      HiddenByPrefix(rules, longer, p[1..]);
      RedactedIffPrivate(rules, longer);
    }
  }

  ghost predicate HiddenPath<K, N>(rules: Rules<K, N>, p: seq<K>) {
    exists n :: 0 < n <= |p| && Private(rules, p[..n])
  }

  /** An attribute resolves in the output exactly when it resolves in the context and neither it nor
      anything on the way to it is private; what it then holds is its own redaction. */
  lemma AttributeSurvives<K, N>(rules: Rules<K, N>, v: Value<K>, p: seq<K>)
    requires rules.Valid()
    ensures J.Find(Redaction(rules, [], v), p).Some? <==> V.Find(v, p).Some? && !HiddenPath(rules, p)
    ensures J.Find(Redaction(rules, [], v), p).Some? ==>
              J.Find(Redaction(rules, [], v), p).value == Redaction(rules, p, V.Find(v, p).value)
  {
    hide Private, Redacted, Redaction;
    RedactionAlong(rules, [], v, p);
    HiddenByPrefix(rules, [], p);
    assert [] + p == p;
  }

  /** No private attribute resolves in the output. */
  lemma NothingPrivateSurvives<K, N>(rules: Rules<K, N>, v: Value<K>, path: seq<K>)
    requires rules.Valid() && path != [] && Private(rules, path)
    ensures J.Find(Redaction(rules, [], v), path).None?
  {
    assert path[..|path|] == path;
    AttributeSurvives(rules, v, path);
  }

  /** A member of an object in an array is matched by its path from the array element. */
  lemma ArrayElementsStartAgain<K, N>(rules: Rules<K, N>, path: seq<K>, items: seq<Value<K>>, i: nat, p: seq<K>)
    requires rules.Valid() && i < |items|
    ensures
      var result := Redaction(rules, path, V.Array(items));
      && result.Array? && |result.items| == |items|
      && (J.Find(result.items[i], p).Some? <==> V.Find(items[i], p).Some? && !HiddenPath(rules, p))
  {
    hide Redacted, HiddenPath;
    ItemRedaction(rules, items, i);
    AttributeSurvives(rules, items[i], p);
  }

  lemma {:induction false} ItemRedaction<K, N>(rules: Rules<K, N>, items: seq<Value<K>>, i: nat)
    requires i < |items|
    ensures |RedactionItems(rules, items)| == |items| && RedactionItems(rules, items)[i] == Redaction(rules, [], items[i])
    decreases items
  {
    hide Redaction;
    if i > 0 { ItemRedaction(rules, items[1..], i - 1); }
    else if |items| > 1 { ItemRedaction(rules, items[1..], 0); }
  }

  // ----- What is recorded

  /** The attribute at an address of v is redacted under the name n, nothing on the way to it being redacted. */
  ghost predicate RedactsAt<K, N>(rules: Rules<K, N>, path: seq<K>, v: Value<K>, a: Address<K>, n: N)
    decreases a
  {
    a != [] &&
    match a[0]
    case Key(k) =>
      && v.Object? && k in v.members
      && var here := Redacted(rules, path + [k]);
      if here.Some? then |a| == 1 && here.value == n else RedactsAt(rules, path + [k], v.members[k], a[1..], n)
    case At(i) => v.Array? && i < |v.items| && RedactsAt(rules, [], v.items[i], a[1..], n)
  }

  lemma {:induction false} RedactedIsVisited<K, N>(rules: Rules<K, N>, path: seq<K>, v: Value<K>, a: Address<K>, n: N)
    requires RedactsAt(rules, path, v, a, n)
    ensures Some(n) in Visits(rules, path, v)
    decreases a
  {
    hide Redacted;
    match a[0] {
      case Key(k) =>
        TakeMember(rules, path, v, v.members.Keys, k);
        if Redacted(rules, path + [k]).None? { RedactedIsVisited(rules, path + [k], v.members[k], a[1..], n); }
      case At(i) =>
        RedactedIsVisited(rules, [], v.items[i], a[1..], n);
        ItemVisited(rules, v.items, i, n);
    }
  }

  lemma {:induction false} ItemVisited<K, N>(rules: Rules<K, N>, items: seq<Value<K>>, i: nat, n: N)
    requires i < |items| && Some(n) in Visits(rules, [], items[i])
    ensures Some(n) in ItemsVisits(rules, items)
    decreases items
  {
    hide Visits;
    if i > 0 { ItemVisited(rules, items[1..], i - 1, n); }
  }

  lemma {:induction false} VisitedIsRedacted<K, N>(rules: Rules<K, N>, path: seq<K>, v: Value<K>, n: N) returns (a: Address<K>)
    requires Some(n) in Visits(rules, path, v)
    ensures RedactsAt(rules, path, v, a, n)
    decreases v, 1, 0
  {
    if v.Object? {
      a := MemberRedacted(rules, path, v, v.members.Keys, n);
    } else {
      var i, inner := ItemRedacted(rules, v.items, n);
      a := [At(i)] + inner;
    }
  }

  lemma {:induction false} MemberRedacted<K, N>(rules: Rules<K, N>, path: seq<K>, v: Value<K>, keys: set<K>, n: N) returns (a: Address<K>)
    requires v.Object? && keys <= v.members.Keys && Some(n) in MembersVisits(rules, path, v, keys)
    ensures RedactsAt(rules, path, v, a, n)
    decreases v, 0, |keys| + 1
  {
    var k :| k in keys;
    TakeMember(rules, path, v, keys, k);
    if Some(n) in MemberVisits(rules, path, v, k) {
      a := [Key(k)];
      if Redacted(rules, path + [k]).None? {
        var inner := VisitedIsRedacted(rules, path + [k], v.members[k], n);
        a := a + inner;
        assert a[1..] == inner;
      }
    } else {
      a := MemberRedacted(rules, path, v, keys - {k}, n);
    }
  }

  lemma {:induction false} ItemRedacted<K, N>(rules: Rules<K, N>, items: seq<Value<K>>, n: N) returns (i: nat, a: Address<K>)
    requires Some(n) in ItemsVisits(rules, items)
    ensures i < |items| && RedactsAt(rules, [], items[i], a, n)
    decreases items, 0, 0
  {
    if Some(n) in Visits(rules, [], items[0]) {
      i := 0;
      a := VisitedIsRedacted(rules, [], items[0], n);
    } else {
      i, a := ItemRedacted(rules, items[1..], n);
      i := i + 1;
    }
  }
}
