/** Values to and from JSON. Models libs/common/src/serialization/json_value.cpp.
    Member names pass through C strings both ways, which cut them at the first NUL, so two names of an object
    can become one; `cut` is that step. The order in which members are visited decides which of the two is kept;
    it is not modelled, so writing and reading are relations. */
module ValueJson {
  import opened AttributeReferences
  import V = Values
  import J = JsonValues

  type Value<K> = V.ValueOf<K>
  type Json<K> = J.JsonOf<K>

  ghost predicate Writes<K>(cut: K -> K, v: Value<K>, j: Json<K>)
    decreases v
  {
    match v
    case Null => j.Null?
    case Bool(b) => j == J.Bool(b)
    case Number(n) => j == J.Number(n)
    case String(s) => j == J.String(s)
    case Array(items) =>
      j.Array? && |j.items| == |items| && forall i :: 0 <= i < |items| ==> Writes(cut, items[i], j.items[i])
    case Object(members) =>
      && j.Object? && (forall k :: k in members ==> cut(k) in j.members)
      && forall t :: t in j.members ==> exists k :: k in members && cut(k) == t && Writes(cut, members[k], j.members[t])
  }

  ghost predicate Reads<K>(cut: K -> K, j: Json<K>, v: Value<K>)
    decreases j
  {
    match j
    case Null => v.Null?
    case Bool(b) => v == V.Bool(b)
    case Number(n) => v == V.Number(n)
    case String(s) => v == V.String(s)
    case Array(items) =>
      v.Array? && |v.items| == |items| && forall i :: 0 <= i < |items| ==> Reads(cut, items[i], v.items[i])
    case Object(members) =>
      && v.Object? && (forall k :: k in members ==> cut(k) in v.members)
      && forall t :: t in v.members ==> exists k :: k in members && cut(k) == t && Reads(cut, members[k], v.members[t])
  }

  method WriteValue(v: V.Value) returns (j: J.Json)
    ensures Writes(CString, v, j)
    decreases v
  {
    match v {
      case Null => j := J.Null;
      case Bool(b) => j := J.Bool(b);
      case Number(n) => j := J.Number(n);
      case String(s) => j := J.String(s);
      case Array(items) =>
        var written := [];
        for i := 0 to |items|
          invariant |written| == i && forall n :: 0 <= n < i ==> Writes(CString, items[n], written[n])
        {
          var next := WriteValue(items[i]);
          written := written + [next];
        }
        j := J.Array(written);
      case Object(members) =>
        var written: map<string, J.Json>, left := map[], members.Keys;
        while left != {}
          invariant left <= members.Keys && forall k :: k in members && k !in left ==> CString(k) in written
          invariant forall t :: t in written ==>
            exists k :: k in members && CString(k) == t && Writes(CString, members[k], written[t])
          decreases left
        {
          var k :| k in left;
          var next := WriteValue(members[k]);
          written := written[CString(k) := next];
          left := left - {k};
        }
        j := J.Object(written);
    }
  }

  method ReadValue(j: J.Json) returns (v: V.Value)
    ensures Reads(CString, j, v)
    decreases j
  {
    match j {
      case Null => v := V.Null;
      case Bool(b) => v := V.Bool(b);
      case Number(n) => v := V.Number(n);
      case String(s) => v := V.String(s);
      case Array(items) =>
        var read := [];
        for i := 0 to |items|
          invariant |read| == i && forall n :: 0 <= n < i ==> Reads(CString, items[n], read[n])
        {
          var next := ReadValue(items[i]);
          read := read + [next];
        }
        v := V.Array(read);
      case Object(members) =>
        var read: map<string, V.Value>, left := map[], members.Keys;
        while left != {}
          invariant left <= members.Keys && forall k :: k in members && k !in left ==> CString(k) in read
          invariant forall t :: t in read ==>
            exists k :: k in members && CString(k) == t && Reads(CString, members[k], read[t])
          decreases left
        {
          var k :| k in left;
          var next := ReadValue(members[k]);
          if CString(k) !in read { read := read[CString(k) := next]; }
          left := left - {k};
        }
        v := V.Object(read);
    }
  }

  /** No member name, at any depth, is cut. */
  ghost predicate UncutNames<K>(cut: K -> K, v: Value<K>)
    decreases v
  {
    match v
    case Array(items) => forall i :: 0 <= i < |items| ==> UncutNames(cut, items[i])
    case Object(members) => forall k :: k in members ==> cut(k) == k && UncutNames(cut, members[k])
    case _ => true
  }

  ghost predicate CutsOnce<K(!new)>(cut: K -> K) {
    forall k :: cut(cut(k)) == cut(k)
  }

  /** Whatever is read has only names that are not cut again. */
  lemma {:induction false} ReadNamesAreUncut<K(!new)>(cut: K -> K, j: Json<K>, v: Value<K>)
    requires CutsOnce(cut) && Reads(cut, j, v)
    ensures UncutNames(cut, v)
    decreases j
  {
    match j {
      case Array(items) =>
        forall i | 0 <= i < |items| ensures UncutNames(cut, v.items[i]) {
          ReadNamesAreUncut(cut, items[i], v.items[i]);
        }
      case Object(members) =>
        forall t | t in v.members ensures cut(t) == t && UncutNames(cut, v.members[t]) {
          var k :| k in members && cut(k) == t && Reads(cut, members[k], v.members[t]);
          ReadNamesAreUncut(cut, members[k], v.members[t]);
        }
      case _ =>
    }
  }

  lemma {:induction false} UncutRoundTrip<K>(cut: K -> K, v: Value<K>, j: Json<K>, w: Value<K>)
    requires UncutNames(cut, v) && Writes(cut, v, j) && Reads(cut, j, w)
    ensures w == v
    decreases v
  {
    match v {
      case Array(items) =>
        forall i | 0 <= i < |items| ensures w.items[i] == items[i] {
          UncutRoundTrip(cut, items[i], j.items[i], w.items[i]);
        }
        assert w.items == items;
      case Object(members) =>
        forall t | t in w.members ensures t in members && w.members[t] == members[t] {
          UncutMember(cut, members, j.members, w.members, t);
          UncutRoundTrip(cut, members[t], j.members[t], w.members[t]);
        }
        forall t | t in members ensures t in w.members {
          assert cut(t) == t;
        }
        assert w.members == members;
      case _ =>
    }
  }

  lemma UncutMember<K>(cut: K -> K, members: map<K, Value<K>>, written: map<K, Json<K>>, read: map<K, Value<K>>, t: K)
    requires UncutNames(cut, V.Object(members)) && Writes(cut, V.Object(members), J.Object(written))
    requires Reads(cut, J.Object(written), V.Object(read)) && t in read
    ensures t in members && t in written && Writes(cut, members[t], written[t]) && Reads(cut, written[t], read[t])
  {
    var m :| m in written && cut(m) == t && Reads(cut, written[m], read[t]);
    var k :| k in members && cut(k) == m && Writes(cut, members[k], written[m]);
  }

  /** Writing a value and reading it back gives the value exactly when none of its names is cut. */
  lemma {:induction false} RoundTrip<K(!new)>(cut: K -> K, v: Value<K>, j: Json<K>, w: Value<K>)
    requires CutsOnce(cut) && Writes(cut, v, j) && Reads(cut, j, w)
    ensures w == v <==> UncutNames(cut, v)
  {
    ReadNamesAreUncut(cut, j, w);
    if UncutNames(cut, v) { UncutRoundTrip(cut, v, j, w); }
  }

  /** A name survives a C string exactly when it is NUL-free. */
  lemma NulFreeIsUncut(s: string)
    ensures CString(s) == s <==> NulFree(s)
    ensures CutsOnce(CString)
  {
  }
}
