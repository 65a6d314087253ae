/** What the recursive redactor leaves at every address, told without the redactor: which addresses are there,
    and what they hold. */
module RedactedDocuments {
  import opened Wrappers
  import opened AttributeReferences
  import opened Redactions
  import opened ValueJson
  import V = Values
  import J = JsonValues

  type Value<K> = V.ValueOf<K>
  type Json<K> = J.JsonOf<K>

  /** The value at an address of a value. */
  function Inside<K>(v: Value<K>, a: Address<K>): Option<Value<K>>
    decreases a
  {
    if a == [] then Some(v)
    else
      match a[0]
      case Key(k) => if v.Object? && k in v.members then Inside(v.members[k], a[1..]) else None
      case At(i) => if v.Array? && i < |v.items| then Inside(v.items[i], a[1..]) else None
  }

  /** Some member on the way to an address is private, by its path since the innermost array. */
  ghost predicate HiddenOn<K, N>(rules: Rules<K, N>, path: seq<K>, a: Address<K>)
    decreases a
  {
    a != [] &&
    match a[0]
    case Key(k) => Private(rules, path + [k]) || HiddenOn(rules, path + [k], a[1..])
    case At(_) => HiddenOn(rules, [], a[1..])
  }

  function Uncut<K>(k: K): K { k }

  /** The same null, truth value, number, or string up to its first NUL; or an array as long, or some object. */
  ghost predicate Alike<K>(v: Value<K>, j: Json<K>) {
    match v
    case String(s) => Reads(Uncut, j, V.String(CString(s)))
    case Array(items) => j.Array? && |j.items| == |items|
    case Object(_) => j.Object?
    case _ => Reads(Uncut, j, v)
  }

  lemma AlikeHere<K, N>(rules: Rules<K, N>, path: seq<K>, v: Value<K>)
    ensures Alike(v, Redaction(rules, path, v))
  {
    hide Redacted;
    if v.Array? && v.items != [] { ItemRedaction(rules, v.items, 0); }
  }

  /** An address is in the redacted document exactly when it is in the value and nothing on the way is private,
      and what it holds is alike. */
  lemma {:induction false} LeftAt<K, N>(rules: Rules<K, N>, path: seq<K>, v: Value<K>, a: Address<K>)
    requires rules.Valid()
    ensures Lookup(Redaction(rules, path, v), a).Some? <==> Inside(v, a).Some? && !HiddenOn(rules, path, a)
    ensures Lookup(Redaction(rules, path, v), a).Some? ==> Alike(Inside(v, a).value, Lookup(Redaction(rules, path, v), a).value)
    decreases a
  {
    if a == [] {
      AlikeHere(rules, path, v);
    } else {
      match a[0] {
        case Key(k) => LeftAtMember(rules, path, v, a, k);
        case At(i) => LeftAtItem(rules, path, v, a, i);
      }
    }
  }

  lemma {:induction false} LeftAtMember<K, N>(rules: Rules<K, N>, path: seq<K>, v: Value<K>, a: Address<K>, k: K)
    requires rules.Valid() && a != [] && a[0] == Key(k)
    ensures Lookup(Redaction(rules, path, v), a).Some? <==> Inside(v, a).Some? && !HiddenOn(rules, path, a)
    ensures Lookup(Redaction(rules, path, v), a).Some? ==> Alike(Inside(v, a).value, Lookup(Redaction(rules, path, v), a).value)
    decreases a, 0
  {
    if v.Object? && k in v.members {
      RedactedIffPrivate(rules, path + [k]);
      hide Redacted, Private, Alike;
      LeftAt(rules, path + [k], v.members[k], a[1..]);
    }
  }

  lemma {:induction false} LeftAtItem<K, N>(rules: Rules<K, N>, path: seq<K>, v: Value<K>, a: Address<K>, i: nat)
    requires rules.Valid() && a != [] && a[0] == At(i)
    ensures Lookup(Redaction(rules, path, v), a).Some? <==> Inside(v, a).Some? && !HiddenOn(rules, path, a)
    ensures Lookup(Redaction(rules, path, v), a).Some? ==> Alike(Inside(v, a).value, Lookup(Redaction(rules, path, v), a).value)
    decreases a, 0
  {
    hide Redacted, Private, Alike;
    if v.Array? {
      if v.items != [] { ItemRedaction(rules, v.items, if i < |v.items| then i else 0); }
      if i < |v.items| { LeftAt(rules, [], v.items[i], a[1..]); }
    }
  }

  // ----- Values with nothing private in them

  ghost predicate NothingHidden<K(!new), N>(rules: Rules<K, N>, path: seq<K>, v: Value<K>) {
    forall a :: Inside(v, a).Some? ==> !HiddenOn(rules, path, a)
  }

  ghost predicate StringsNulFree<K>(v: Value<K>)
    decreases v
  {
    match v
    case String(s) => NulFree(s)
    case Array(items) => forall i :: 0 <= i < |items| ==> StringsNulFree(items[i])
    case Object(members) => forall k :: k in members ==> StringsNulFree(members[k])
    case _ => true
  }

  lemma NothingHiddenInMember<K(!new), N>(rules: Rules<K, N>, path: seq<K>, v: Value<K>, k: K)
    requires NothingHidden(rules, path, v) && v.Object? && k in v.members
    ensures !Private(rules, path + [k]) && NothingHidden(rules, path + [k], v.members[k])
  {
    hide Private;
    assert [Key(k)][1..] == [];
    assert Inside(v, [Key(k)]).Some?;
    forall a | Inside(v.members[k], a).Some? ensures !HiddenOn(rules, path + [k], a) {
      assert ([Key(k)] + a)[1..] == a;
      assert Inside(v, [Key(k)] + a).Some?;
    }
  }

  lemma NothingHiddenInItem<K(!new), N>(rules: Rules<K, N>, path: seq<K>, v: Value<K>, i: nat)
    requires NothingHidden(rules, path, v) && v.Array? && i < |v.items|
    ensures NothingHidden(rules, [], v.items[i])
  {
    hide Private;
    forall a | Inside(v.items[i], a).Some? ensures !HiddenOn(rules, [], a) {
      assert ([At(i)] + a)[1..] == a;
      assert Inside(v, [At(i)] + a).Some?;
    }
  }

  /** A value with nothing private in it and no NUL in its strings reads back as it was. */
  lemma {:induction false} UnredactedReadsBack<K(!new), N>(rules: Rules<K, N>, path: seq<K>, v: Value<K>)
    requires rules.Valid() && NothingHidden(rules, path, v) && StringsNulFree(v)
    ensures Reads(Uncut, Redaction(rules, path, v), v)
    decreases v
  {
    match v {
      case Array(items) =>
        forall i | 0 <= i < |items|
          ensures |RedactionItems(rules, items)| == |items| && Reads(Uncut, RedactionItems(rules, items)[i], items[i])
        {
          ItemRedaction(rules, items, i);
          NothingHiddenInItem(rules, path, v, i);
          UnredactedReadsBack(rules, [], items[i]);
        }
      case Object(members) =>
        var result := Redaction(rules, path, v);
        forall k | k in members
          ensures k in result.members && Uncut(k) == k && Reads(Uncut, result.members[k], members[k])
        {
          NothingHiddenInMember(rules, path, v, k);
          RedactedIffPrivate(rules, path + [k]);
          UnredactedReadsBack(rules, path + [k], members[k]);
        }
      case _ =>
    }
  }

  // ----- Names

  /** The recorded name: the printed path when everything is private, else that of the global reference to the path,
      else that of the context's own. */
  lemma RecordedName<K, N>(rules: Rules<K, N>, path: seq<K>)
    requires rules.Valid() && Private(rules, path)
    ensures Redacted(rules, path).Some?
    ensures rules.redactAll ==> Redacted(rules, path).value == rules.pathName(path)
    ensures !rules.redactAll && path in rules.globals && rules.globals[path].valid ==>
              Redacted(rules, path).value == rules.globals[path].name
    ensures !rules.redactAll && !HasMatch(rules.globals, path) ==>
              path in rules.locals && rules.locals[path].valid && Redacted(rules, path).value == rules.locals[path].name
  {
  }
}
