/** Writing a context and parsing what was written. */
module ContextRoundTrips {
  import opened Wrappers
  import opened AttributeReferences
  import opened Contexts
  import opened ValueJson
  import opened ContextJson
  import V = Values
  import J = JsonValues

  type Value = V.Value
  type Json = J.Json

  // ----- References

  ghost predicate NulFreePath(path: seq<string>) { forall i :: 0 <= i < |path| ==> NulFree(path[i]) }

  lemma ParsedPathIsNulFree(str: string)
    ensures NulFreePath(FromReference(str).components)
  {
    if Components(str).Some? {
      if str[0] == '/' { ParseThenPrint(str); } else { ParsePlainReference(str); }
    }
  }

  /** A reference is read back from its redaction name exactly when its components are NUL-free. */
  lemma ReferenceReadBack(ref: Reference)
    requires Made(ref)
    ensures FromReference(ref.redactionName).components == ref.components <==> NulFreePath(ref.components)
  {
    ParsedPathIsNulFree(ref.redactionName);
    if ref != FromReference(ref.redactionName) {
      LiteralRedactionName(ref.components[0]);
    }
  }

  lemma {:induction false} InsertedPath(refs: RefSet, items: seq<Json>, c: seq<string>)
    requires AllStrings(items)
    ensures c in InsertAll(refs, items) <==>
      c in refs || exists i :: 0 <= i < |items| && FromReference(items[i].s).components == c
    decreases items
  {
    hide FromReference;
    if items != [] {
      InsertedPath(Insert(refs, FromReference(items[0].s)), items[1..], c);
      if exists i :: 0 <= i < |items| && FromReference(items[i].s).components == c {
        var i :| 0 <= i < |items| && FromReference(items[i].s).components == c;
        if i > 0 { assert items[1..][i - 1] == items[i]; }
      }
    }
  }

  lemma {:induction false} InsertedMade(refs: RefSet, items: seq<Json>)
    requires AllStrings(items) && RefSetMade(refs)
    ensures RefSetMade(InsertAll(refs, items))
    decreases items
  {
    if items != [] {
      hide RefSetMade, Insert, Made, FromReference;
      FactoriesMake(items[0].s);
      InsertMade(refs, FromReference(items[0].s));
      InsertedMade(Insert(refs, FromReference(items[0].s)), items[1..]);
    }
  }

  ghost predicate NulFreeRefs(refs: RefSet) { forall c :: c in refs ==> NulFreePath(c) }

  /** Reading written references gives the same set exactly when their components are NUL-free. */
  lemma RefsReadBack(refs: RefSet, items: seq<Json>)
    requires RefSetMade(refs) && AllStrings(items) && WritesRefs(refs, items)
    ensures InsertAll(map[], items).Keys == refs.Keys <==> NulFreeRefs(refs)
  {
    hide Made, FromReference, NulFreePath, InsertAll;
    var read := InsertAll(map[], items);
    forall c | c in read.Keys ensures NulFreePath(c) {
      InsertedPath(map[], items, c);
      var i :| 0 <= i < |items| && FromReference(items[i].s).components == c;
      ParsedPathIsNulFree(items[i].s);
    }
    if NulFreeRefs(refs) {
      forall c ensures c in read.Keys <==> c in refs.Keys { RefReadBack(refs, items, c); }
      assert read.Keys == refs.Keys;
    }
  }

  lemma RefReadBack(refs: RefSet, items: seq<Json>, c: seq<string>)
    requires RefSetMade(refs) && AllStrings(items) && WritesRefs(refs, items) && NulFreeRefs(refs)
    ensures c in InsertAll(map[], items) <==> c in refs
  {
    hide Made, FromReference, NulFreePath;
    InsertedPath(map[], items, c);
    if c in refs {
      ReferenceReadBack(refs[c]);
      var i :| 0 <= i < |items| && items[i] == J.String(refs[c].redactionName);
    }
    if c in InsertAll(map[], items) {
      var i :| 0 <= i < |items| && FromReference(items[i].s).components == c;
      var d :| d in refs && items[i] == J.String(refs[d].redactionName);
      ReferenceReadBack(refs[d]);
    }
  }

  // ----- Custom attributes

  ghost predicate UncutValues(custom: map<string, Value>) {
    forall k :: k in custom ==> UncutNames(CString, custom[k])
  }

  /** Reading written attributes gives all that are not null exactly when no name inside them is cut. */
  lemma CustomReadBack(custom: map<string, Value>, members: Members, values: map<string, Value>)
    requires (forall k :: k in custom ==> !Reserved(k)) && WritesCustom(custom, members) && ReadsMembers(members, values)
    ensures values.Keys == NonNull(custom).Keys
    ensures values == NonNull(custom) <==> UncutValues(custom)
  {
    hide Reserved, Writes, Reads, UncutNames;
    NotNull(custom, members);
    forall k | k in values ensures k in custom && (values[k] == custom[k] <==> UncutNames(CString, custom[k])) {
      NulFreeIsUncut(k);
      RoundTrip(CString, custom[k], members[k], values[k]);
    }
    forall k | k in custom && custom[k].Null? ensures UncutNames(CString, custom[k]) { NullIsUncut(custom[k]); }
  }

  lemma NotNull(custom: map<string, Value>, members: Members)
    requires WritesCustom(custom, members)
    ensures forall k :: k in NonNull(custom) ==> k in members && !members[k].Null?
  {
  }

  lemma NullIsUncut(v: Value)
    requires v.Null?
    ensures UncutNames(CString, v)
  {
  }

  // ----- Attributes of one kind

  lemma MetaReadBack(refs: RefSet, meta: Json)
    requires WritesMeta(refs, meta)
    ensures meta.Object? && MetaError(meta).None? && WritesRefs(refs, RefItems(Some(meta)))
  {
    assert "secondary" != "privateAttributes";
  }

  lemma FieldsReadBack(a: Attributes, kind: Option<string>, members: Members)
    requires WritesAttributes(a, kind, members)
    ensures FieldError(members).None? && "key" in members && members["key"] == J.String(a.key)
    ensures Present(members, "_meta").Some? ==> MetaError(members["_meta"]).None?
    ensures WritesRefs(a.privates, RefItems(Present(members, "_meta")))
    ensures Present(members, "name") == if a.name != "" then Some(J.String(a.name)) else None
    ensures Present(members, "anonymous") == if a.anonymous then Some(J.Bool(true)) else None
  {
    hide WritesCustom, WritesMeta, WritesRefs, MetaError, RefItems;
    if a.privates != map[] { MetaReadBack(a.privates, members["_meta"]); }
    NoRefsWritten();
  }

  lemma NoRefsWritten()
    ensures WritesRefs(map[], RefItems(None))
  {
  }

  /** Everything survived: only attributes that are null are gone. */
  ghost predicate SameAttributes(a: Attributes, b: Attributes) {
    && b.key == a.key && b.name == a.name && b.anonymous == a.anonymous
    && b.custom == NonNull(a.custom) && b.privates.Keys == a.privates.Keys
  }

  ghost predicate NulFreeAttributes(a: Attributes) { UncutValues(a.custom) && NulFreeRefs(a.privates) }

  lemma AttributesReadBack(a: Attributes, kind: Option<string>, members: Members, values: map<string, Value>)
    requires AttributesMade(a) && WritesAttributes(a, kind, members) && ReadsMembers(members, values)
    ensures KindError(J.Object(members)).None?
    ensures AttributesMade(ParsedKind(J.Object(members), values)) && ParsedKind(J.Object(members), values).key == a.key
    ensures SameAttributes(a, ParsedKind(J.Object(members), values)) <==> NulFreeAttributes(a)
  {
    hide WritesCustom, WritesRefs, ReadsMembers, FieldError, RefItems, RefSetMade, UncutValues, NulFreeRefs, InsertAll, NonNull;
    FieldsReadBack(a, kind, members);
    var items := RefItems(Present(members, "_meta"));
    RefsReadBack(a.privates, items);
    NothingInserted();
    InsertedMade(map[], items);
    CustomReadBack(a.custom, members, values);
    ReadNotReserved(members, values);
    assert map[] + values == values;
  }

  lemma NothingInserted()
    ensures RefSetMade(map[])
  {
  }

  lemma ReadNotReserved(members: Members, values: map<string, Value>)
    requires ReadsMembers(members, values)
    ensures forall k :: k in values ==> !Reserved(k)
  {
    hide Reads;
  }

  // ----- Lookup

  /** Attributes that survived answer every reference as before. */
  lemma SameAnswers(a: Attributes, b: Attributes, ref: Reference)
    requires SameAttributes(a, b) && Made(ref)
    ensures Get(b, ref) == Get(a, ref)
  {
    if ref.valid {
      ValidHasPath(ref);
      FindNonNull(a.custom, ref.components);
    }
  }

  lemma FindNonNull(custom: map<string, Value>, path: seq<string>)
    requires path != []
    ensures V.Find(V.Object(NonNull(custom)), path).UnwrapOr(V.Null) == V.Find(V.Object(custom), path).UnwrapOr(V.Null)
  {
  }

  lemma ValidHasPath(ref: Reference)
    requires Made(ref) && ref.valid
    ensures ref.components != []
  {
    if ref == FromReference(ref.redactionName) {
      var str := ref.redactionName;
      if str[0] == '/' { ParseThenPrint(str); } else { ParsePlainReference(str); }
    }
  }

  // ----- Whole contexts

  lemma SingleRead(j: Json, readings: map<string, map<string, Value>>, r: Result<Context, JsonError>, kind: string)
    requires KindOf(j) == Success(kind) && kind != "multi" && KindError(j).None? && ReadsWith(j, readings, r)
    ensures kind in readings && ReadsMembers(j.members, readings[kind])
    ensures r == Success(Built(map[kind := ParsedKind(j, readings[kind])]))
  {
    hide ReadsMembers, ParsedKind, ReadsMulti, KindError, KindOf, Built;
  }

  lemma BuiltOne(kind: string, a: Attributes)
    requires ValidKind(kind) && a.key != "" && AttributesMade(a)
    ensures Built(map[kind := a]) == Context.Context(map[kind := a]) && ContextMade(Built(map[kind := a]))
  {
    hide ValidKind, AttributesMade;
    assert kind in map[kind := a];
  }

  lemma SingleWritten(kinds: map<string, Attributes>, j: Json, kind: string)
    requires kinds.Keys == {kind} && WritesContext(Context.Context(kinds), j)
    ensures KindOf(j) == Success(kind) && WritesAttributes(kinds[kind], Some(kind), j.members)
  {
    assert |kinds.Keys| == 1;
    hide WritesMeta, WritesCustom;
  }

  lemma OneKindReadBack(kinds: map<string, Attributes>, j: Json, readings: map<string, map<string, Value>>,
                        r: Result<Context, JsonError>, kind: string)
    requires ContextMade(Context.Context(kinds)) && kinds.Keys == {kind}
    requires WritesContext(Context.Context(kinds), j) && ReadsWith(j, readings, r)
    ensures r.Success? && ContextMade(r.value) && r.value.kinds.Keys == kinds.Keys
    ensures SameAttributes(kinds[kind], r.value.kinds[kind]) <==> NulFreeAttributes(kinds[kind])
  {
    hide *;
    MadeKind(kinds, kind);
    SingleWritten(kinds, j, kind);
    KindIsObject(j);
    EachKindReadBack(kinds[kind], Some(kind), j, map[]);
    SingleRead(j, readings, r, kind);
    EachKindReadBack(kinds[kind], Some(kind), j, readings[kind]);
    BuiltOne(kind, ParsedKind(j, readings[kind]));
  }

  lemma KindIsObject(j: Json)
    ensures KindOf(j).Success? ==> j.Object?
  {
  }

  lemma EachKindReadBack(a: Attributes, kind: Option<string>, j: Json, values: map<string, Value>)
    requires AttributesMade(a) && j.Object? && WritesAttributes(a, kind, j.members)
    ensures KindError(j).None?
    ensures ReadsMembers(j.members, values) ==>
      && AttributesMade(ParsedKind(j, values)) && ParsedKind(j, values).key == a.key
      && (SameAttributes(a, ParsedKind(j, values)) <==> NulFreeAttributes(a))
  {
    hide AttributesMade, ReadsMembers, ParsedKind, SameAttributes, NulFreeAttributes, FieldError, WritesAttributes;
    FieldsReadBack(a, kind, j.members);
    if ReadsMembers(j.members, values) { AttributesReadBack(a, kind, j.members, values); }
  }

  lemma MultiWritten(kinds: map<string, Attributes>, j: Json)
    requires ContextMade(Context.Context(kinds)) && |kinds| != 1 && WritesContext(Context.Context(kinds), j)
    ensures KindOf(j) == Success("multi") && j.Object? && (j.members - {"kind"}).Keys == kinds.Keys
    ensures forall k :: k in kinds ==> WritesKind(kinds[k], (j.members - {"kind"})[k])
  {
    hide ContextMade, WritesKind;
    forall k | k in kinds ensures k != "kind" { MadeKind(kinds, k); }
  }

  lemma MultiReadable(kinds: map<string, Attributes>, written: Members)
    requires ContextMade(Context.Context(kinds)) && written.Keys == kinds.Keys
    requires forall k :: k in kinds ==> WritesKind(kinds[k], written[k])
    ensures AllReadable(written)
  {
    hide ContextMade, WritesAttributes, KindError;
    forall k | k in written ensures KindError(written[k]).None? {
      MadeKind(kinds, k);
      EachKindReadBack(kinds[k], None, written[k], map[]);
    }
  }

  lemma MultiRead(j: Json, readings: map<string, map<string, Value>>, r: Result<Context, JsonError>)
    requires KindOf(j) == Success("multi") && j.Object? && ReadsWith(j, readings, r) && AllReadable(j.members - {"kind"})
    ensures var written := j.members - {"kind"};
      ReadsKinds(written, readings) && written.Keys <= readings.Keys && r == Success(Built(ParsedKinds(written, readings)))
  {
    hide AllReadable, KindError, ReadsMembers, Built, ParsedKinds, KindOf;
  }

  lemma MultiKindsReadBack(kinds: map<string, Attributes>, written: Members, readings: map<string, map<string, Value>>)
    requires ContextMade(Context.Context(kinds)) && written.Keys == kinds.Keys && written.Keys <= readings.Keys
    requires forall k :: k in kinds ==> WritesKind(kinds[k], written[k])
    requires AllReadable(written) && ReadsKinds(written, readings)
    ensures var read := ParsedKinds(written, readings);
      && read.Keys == kinds.Keys && ContextMade(Context.Context(read))
      && forall k :: k in kinds ==> (SameAttributes(kinds[k], read[k]) <==> NulFreeAttributes(kinds[k]))
  {
    hide ContextMade, WritesAttributes, KindError, SameAttributes, NulFreeAttributes, ReadsMembers, ParsedKind;
    forall k | k in kinds
      ensures var b := ParsedKind(written[k], readings[k]);
        && ValidKind(k) && b.key != "" && AttributesMade(b) && (SameAttributes(kinds[k], b) <==> NulFreeAttributes(kinds[k]))
    {
      MadeKind(kinds, k);
      EachKindReadBack(kinds[k], None, written[k], readings[k]);
    }
    var read := ParsedKinds(written, readings);
    NotEmpty(kinds, read);
    AllMade(read);
  }

  lemma NotEmpty(kinds: map<string, Attributes>, read: map<string, Attributes>)
    requires ContextMade(Context.Context(kinds)) && read.Keys == kinds.Keys
    ensures read != map[]
  {
    hide AttributesMade, ValidKind;
    var k :| k in kinds;
    assert k in read;
  }

  lemma AllMade(kinds: map<string, Attributes>)
    requires kinds != map[] && forall k :: k in kinds ==> ValidKind(k) && kinds[k].key != "" && AttributesMade(kinds[k])
    ensures ContextMade(Context.Context(kinds))
  {
    hide ValidKind, AttributesMade;
  }

  lemma MultiReadBack(kinds: map<string, Attributes>, j: Json, readings: map<string, map<string, Value>>, r: Result<Context, JsonError>)
    requires ContextMade(Context.Context(kinds)) && |kinds| != 1
    requires WritesContext(Context.Context(kinds), j) && ReadsWith(j, readings, r)
    ensures r.Success? && ContextMade(r.value) && r.value.kinds.Keys == kinds.Keys
    ensures forall k :: k in kinds ==> (SameAttributes(kinds[k], r.value.kinds[k]) <==> NulFreeAttributes(kinds[k]))
  {
    hide *;
    MultiWritten(kinds, j);
    var written := j.members - {"kind"};
    MultiReadable(kinds, written);
    MultiRead(j, readings, r);
    MultiKindsReadBack(kinds, written, readings);
    MadeIsBuilt(ParsedKinds(written, readings));
  }

  lemma MadeIsBuilt(kinds: map<string, Attributes>)
    requires ContextMade(Context.Context(kinds))
    ensures Built(kinds) == Context.Context(kinds)
  {
    hide ValidKind, AttributesMade;
  }

  /** A context written and parsed is a valid context of the same kinds. What each kind holds survives, except
      for attributes that are null, exactly when no C string cuts the text in it short. */
  lemma ContextRoundTrip(c: Context, j: Json, r: Result<Context, JsonError>)
    requires ContextMade(c) && WritesContext(c, j) && ReadsContext(j, r)
    ensures r.Success? && ContextMade(r.value) && r.value.kinds.Keys == c.kinds.Keys
    ensures forall k :: k in c.kinds ==> (SameAttributes(c.kinds[k], r.value.kinds[k]) <==> NulFreeAttributes(c.kinds[k]))
  {
    hide ContextMade, WritesContext, ReadsWith, SameAttributes, NulFreeAttributes;
    IsContext(c);
    var readings :| ReadsWith(j, readings, r);
    if |c.kinds| == 1 {
      var kind :| kind in c.kinds;
      OneKind(c.kinds, kind);
      OneKindReadBack(c.kinds, j, readings, r, kind);
    } else {
      MultiReadBack(c.kinds, j, readings, r);
    }
  }

  /** Lookup in a context; a kind it does not have gives null. */
  function ContextGet(c: Context, kind: string, ref: Reference): Value {
    if c.Context? && kind in c.kinds then Get(c.kinds[kind], ref) else V.Null
  }

  /** A context of NUL-free text answers every reference of every kind as it did before. */
  lemma RoundTripAnswers(c: Context, j: Json, r: Result<Context, JsonError>, kind: string, ref: Reference)
    requires ContextMade(c) && WritesContext(c, j) && ReadsContext(j, r)
    requires Made(ref) && (kind in c.kinds ==> NulFreeAttributes(c.kinds[kind]))
    ensures r.Success? && ContextGet(r.value, kind, ref) == ContextGet(c, kind, ref)
  {
    hide ContextMade, WritesContext, ReadsContext, Made, SameAttributes, NulFreeAttributes, Get;
    ContextRoundTrip(c, j, r);
    IsContext(c);
    IsContext(r.value);
    if kind in c.kinds { SameAnswers(c.kinds[kind], r.value.kinds[kind], ref); }
  }
}
