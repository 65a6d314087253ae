/** Contexts to and from JSON. Models libs/internal/src/serialization/json_attributes.cpp and json_context.cpp.
    Member order is not modelled: where it matters (values cut to one name, and which of several errors is
    reported) the contracts say what holds for every order. */
module ContextJson {
  import opened Wrappers
  import opened AttributeReferences
  import opened Contexts
  import opened ValueJson
  import V = Values
  import J = JsonValues

  type Value = V.Value
  type Json = J.Json
  type Members = map<string, Json>

  // ----- Writing

  /** The custom attributes that are written. */
  function NonNull(custom: map<string, Value>): map<string, Value> {
    map k | k in custom && !custom[k].Null? :: custom[k]
  }

  ghost predicate WritesRefs(refs: RefSet, items: seq<Json>) {
    && |items| == |refs|
    && (forall c :: c in refs ==> J.String(refs[c].redactionName) in items)
    && forall i :: 0 <= i < |items| ==> exists c :: c in refs && items[i] == J.String(refs[c].redactionName)
  }

  ghost predicate WritesMeta(refs: RefSet, j: Json) {
    && j.Object? && j.members.Keys == {"privateAttributes"}
    && j.members["privateAttributes"].Array? && WritesRefs(refs, j.members["privateAttributes"].items)
  }

  /** The member of a given name among those written, when there is one. */
  ghost predicate WritesField(members: Members, name: string, value: Option<Json>) {
    if value.Some? then name in members && members[name] == value.value else name !in members
  }

  ghost predicate WritesCustom(custom: map<string, Value>, members: Members) {
    && (forall k :: !Reserved(k) ==> (k in members <==> k in NonNull(custom)))
    && forall k :: k in NonNull(custom) ==> k in members && Writes(CString, custom[k], members[k])
  }

  ghost predicate WritesAttributes(a: Attributes, kind: Option<string>, members: Members) {
    && WritesField(members, "key", Some(J.String(a.key)))
    && WritesField(members, "kind", if kind.Some? then Some(J.String(kind.value)) else None)
    && WritesField(members, "name", if a.name != "" then Some(J.String(a.name)) else None)
    && WritesField(members, "anonymous", if a.anonymous then Some(J.Bool(true)) else None)
    && (if a.privates != map[] then "_meta" in members && WritesMeta(a.privates, members["_meta"])
        else WritesField(members, "_meta", None))
    && WritesCustom(a.custom, members)
  }

  method WriteRefs(refs: RefSet) returns (items: seq<Json>)
    ensures WritesRefs(refs, items)
  {
    items := [];
    var left := refs.Keys;
    while left != {}
      invariant left <= refs.Keys && |items| + |left| == |refs|
      invariant forall c :: c in refs && c !in left ==> J.String(refs[c].redactionName) in items
      invariant forall i :: 0 <= i < |items| ==> exists c :: c in refs && items[i] == J.String(refs[c].redactionName)
      decreases left
    {
      var c :| c in left;
      items := items + [J.String(refs[c].redactionName)];
      left := left - {c};
    }
  }

  ghost predicate SameReserved(start: Members, members: Members) {
    forall k :: Reserved(k) ==> (k in members <==> k in start) && (k in start ==> members[k] == start[k])
  }

  lemma SameFields(start: Members, members: Members, name: string, value: Option<Json>)
    requires SameReserved(start, members) && Reserved(name)
    ensures WritesField(members, name, value) <==> WritesField(start, name, value)
  {
  }

  method WriteCustom(custom: map<string, Value>, start: Members) returns (members: Members)
    requires forall k :: k in custom ==> !Reserved(k)
    requires forall k :: k in start ==> Reserved(k)
    ensures WritesCustom(custom, members)
    ensures SameReserved(start, members)
  {
    hide Reserved, Writes;
    members := start;
    var left := custom.Keys;
    while left != {}
      invariant left <= custom.Keys
      invariant SameReserved(start, members)
      invariant forall k :: k in members && !Reserved(k) ==> k in custom && k !in left && !custom[k].Null?
      invariant forall k :: k in custom && k !in left && !custom[k].Null? ==> k in members && Writes(CString, custom[k], members[k])
      decreases left
    {
      var k :| k in left;
      if !custom[k].Null? {
        var written := WriteValue(custom[k]);
        members := members[k := written];
      }
      left := left - {k};
    }
  }

  method WriteMeta(refs: RefSet) returns (meta: Json)
    ensures WritesMeta(refs, meta)
  {
    var items := WriteRefs(refs);
    meta := J.Object(map["privateAttributes" := J.Array(items)]);
  }

  method WriteBuiltIns(a: Attributes) returns (members: Members)
    ensures WritesField(members, "key", Some(J.String(a.key)))
    ensures WritesField(members, "name", if a.name != "" then Some(J.String(a.name)) else None)
    ensures WritesField(members, "anonymous", if a.anonymous then Some(J.Bool(true)) else None)
    ensures WritesField(members, "kind", None) && WritesField(members, "_meta", None)
    ensures forall k :: k in members ==> Reserved(k)
  {
    members := map["key" := J.String(a.key)];
    if a.name != "" { members := members["name" := J.String(a.name)]; }
    if a.anonymous { members := members["anonymous" := J.Bool(true)]; }
  }

  method WriteAttributes(a: Attributes) returns (members: Members)
    requires AttributesMade(a)
    ensures WritesAttributes(a, None, members)
  {
    hide WritesCustom, WritesMeta, RefSetMade, SameReserved, WritesField;
    var builtIns := WriteBuiltIns(a);
    members := WriteCustom(a.custom, builtIns);
    SameFields(builtIns, members, "key", Some(J.String(a.key)));
    SameFields(builtIns, members, "name", if a.name != "" then Some(J.String(a.name)) else None);
    SameFields(builtIns, members, "anonymous", if a.anonymous then Some(J.Bool(true)) else None);
    SameFields(builtIns, members, "kind", None);
    SameFields(builtIns, members, "_meta", None);
    if a.privates != map[] {
      var meta := WriteMeta(a.privates);
      WithMeta(a, members, meta);
      members := members["_meta" := meta];
    }
  }

  lemma WithMeta(a: Attributes, members: Members, meta: Json)
    requires AttributesMade(a) && WritesAttributes(a.(privates := map[]), None, members)
    requires a.privates != map[] && WritesMeta(a.privates, meta)
    ensures WritesAttributes(a, None, members["_meta" := meta])
  {
    hide WritesCustom, WritesMeta, RefSetMade;
    CustomIgnoresReserved(a.custom, members, "_meta", meta);
  }

  lemma CustomIgnoresReserved(custom: map<string, Value>, members: Members, name: string, value: Json)
    requires WritesCustom(custom, members) && Reserved(name) && forall k :: k in custom ==> !Reserved(k)
    ensures WritesCustom(custom, members[name := value])
  {
    hide Reserved, Writes;
  }

  /** A context of one kind is written as its attributes and its kind, one of several kinds as an object of them. */
  ghost predicate WritesContext(c: Context, j: Json) {
    match c
    case Invalid => j.Null?
    case Context(kinds) =>
      if |kinds| == 1 then j.Object? && forall kind :: kind in kinds ==> WritesAttributes(kinds[kind], Some(kind), j.members)
      else
        && j.Object? && j.members.Keys == kinds.Keys + {"kind"} && j.members["kind"] == J.String("multi")
        && forall kind :: kind in kinds ==> kind in j.members && WritesKind(kinds[kind], j.members[kind])
  }

  ghost predicate WritesKind(a: Attributes, j: Json) { j.Object? && WritesAttributes(a, None, j.members) }

  lemma WithKind(a: Attributes, members: Members, kind: string)
    requires AttributesMade(a) && WritesAttributes(a, None, members)
    ensures WritesAttributes(a, Some(kind), members["kind" := J.String(kind)])
  {
    hide WritesCustom, WritesMeta;
    CustomIgnoresReserved(a.custom, members, "kind", J.String(kind));
  }

  method WriteContext(c: Context) returns (j: Json)
    requires c.Context? ==> ContextMade(c)
    ensures WritesContext(c, j)
  {
    hide WritesAttributes, AttributesMade;
    match c {
      case Invalid => j := J.Null;
      case Context(kinds) =>
        if |kinds| == 1 {
          var kind :| kind in kinds;
          OneKind(kinds, kind);
          var members := WriteAttributes(kinds[kind]);
          WithKind(kinds[kind], members, kind);
          j := J.Object(members["kind" := J.String(kind)]);
        } else {
          j := WriteKinds(kinds);
        }
    }
  }

  method WriteKinds(kinds: map<string, Attributes>) returns (j: Json)
    requires ContextMade(Context.Context(kinds))
    ensures j.Object? && j.members.Keys == kinds.Keys + {"kind"} && j.members["kind"] == J.String("multi")
    ensures forall kind :: kind in kinds ==> kind in j.members && WritesKind(kinds[kind], j.members[kind])
  {
    hide AttributesMade, WritesKind, WritesAttributes, ContextMade, Buildable;
    var members: Members := map["kind" := J.String("multi")];
    var left := kinds.Keys;
    while left != {}
      invariant left <= kinds.Keys
      invariant members.Keys == kinds.Keys - left + {"kind"} && members["kind"] == J.String("multi")
      invariant forall kind :: kind in kinds && kind !in left ==> WritesKind(kinds[kind], members[kind])
      decreases left
    {
      var kind :| kind in left;
      MadeKind(kinds, kind);
      var written := WriteAttributes(kinds[kind]);
      KindWritten(kinds[kind], written);
      members := members[kind := J.Object(written)];
      left := left - {kind};
    }
    j := J.Object(members);
  }

  lemma KindWritten(a: Attributes, members: Members)
    requires WritesAttributes(a, None, members)
    ensures WritesKind(a, J.Object(members))
  {
  }

  // ----- Reading

  datatype JsonError =
    | ContextMustBeObject | MissingKindField | InvalidKindField | MissingKeyField | InvalidKeyField
    | InvalidNameField | InvalidAnonymousField | InvalidMetaField | InvalidSecondaryField
    | InvalidPrivateAttributesField | InvalidAttributeReference

  /** A member that is there and not null. */
  function Present(members: Members, name: string): Option<Json> {
    if name in members && !members[name].Null? then Some(members[name]) else None
  }

  predicate AllStrings(items: seq<Json>) { forall i :: 0 <= i < |items| ==> items[i].String? }

  /** The first problem met in the metadata. */
  function MetaError(meta: Json): Option<JsonError> {
    if !meta.Object? then Some(InvalidMetaField)
    else
      var secondary, refs := Present(meta.members, "secondary"), Present(meta.members, "privateAttributes");
      if secondary.Some? && !secondary.value.String? then Some(InvalidSecondaryField)
      else if refs.None? then None
      else if !refs.value.Array? then Some(InvalidPrivateAttributesField)
      else if !AllStrings(refs.value.items) then Some(InvalidAttributeReference)
      else None
  }

  /** The first problem met in the attributes of one kind. */
  function FieldError(members: Members): Option<JsonError> {
    var name, anonymous, meta := Present(members, "name"), Present(members, "anonymous"), Present(members, "_meta");
    if "key" !in members then Some(MissingKeyField)
    else if !members["key"].String? then Some(InvalidKeyField)
    else if name.Some? && !name.value.String? then Some(InvalidNameField)
    else if anonymous.Some? && !anonymous.value.Bool? then Some(InvalidAnonymousField)
    else if meta.Some? then MetaError(meta.value)
    else None
  }

  function InsertAll(refs: RefSet, items: seq<Json>): RefSet
    requires AllStrings(items)
    decreases items
  {
    if items == [] then refs else InsertAll(Insert(refs, FromReference(items[0].s)), items[1..])
  }

  function RefItems(meta: Option<Json>): (items: seq<Json>)
    requires meta.Some? ==> MetaError(meta.value).None?
    ensures AllStrings(items)
  {
    if meta.None? || Present(meta.value.members, "privateAttributes").None? then []
    else Present(meta.value.members, "privateAttributes").value.items
  }

  /** The members that become custom attributes, each as some reading of it. */
  ghost predicate ReadsMembers(members: Members, values: map<string, Value>) {
    && (forall k :: k in values <==> k in members && !Reserved(k) && !members[k].Null?)
    && forall k :: k in values ==> Reads(CString, members[k], values[k])
  }

  function Parsed(d: Attributes, members: Members, values: map<string, Value>): Attributes
    requires FieldError(members).None?
  {
    var name, anonymous := Present(members, "name"), Present(members, "anonymous");
    Attributes(d.key, if name.Some? then name.value.s else d.name, if anonymous.Some? then anonymous.value.b else d.anonymous,
               d.custom + values, InsertAll(d.privates, RefItems(Present(members, "_meta"))))
  }

  method ReadRefs(attrs: AttributesBuilder, items: seq<Json>) returns (err: Option<JsonError>)
    requires attrs.Valid()
    modifies attrs
    ensures attrs.Valid()
    ensures err == if AllStrings(items) then None else Some(InvalidAttributeReference)
    ensures err.None? ==> attrs.Draft() == old(attrs.Draft()).(privates := InsertAll(old(attrs.privates), items))
  {
    hide AttributesMade, Insert, FromReference, FromLiteral, Made;
    for i := 0 to |items|
      invariant attrs.Valid() && forall n :: 0 <= n < i ==> items[n].String?
      invariant attrs.Draft() == old(attrs.Draft()).(privates := attrs.privates)
      invariant AllStrings(items) ==> InsertAll(attrs.privates, items[i..]) == InsertAll(old(attrs.privates), items)
    {
      if !items[i].String? { return Some(InvalidAttributeReference); }
      assert items[i..][1..] == items[i + 1..];
      var ref := MakeReference(items[i].s, false);
      FactoriesMake(items[i].s);
      attrs.AddPrivateAttribute(ref);
    }
    return None;
  }

  method ReadMeta(attrs: AttributesBuilder, meta: Json) returns (err: Option<JsonError>)
    requires attrs.Valid()
    modifies attrs
    ensures attrs.Valid()
    ensures err == MetaError(meta)
    ensures err.None? ==> attrs.Draft() == old(attrs.Draft()).(privates := InsertAll(old(attrs.privates), RefItems(Some(meta))))
  {
    hide AttributesMade, InsertAll, AllStrings;
    if !meta.Object? { return Some(InvalidMetaField); }
    var secondary := Present(meta.members, "secondary");
    if secondary.Some? && !secondary.value.String? { return Some(InvalidSecondaryField); }
    var refs := Present(meta.members, "privateAttributes");
    if refs.Some? {
      if !refs.value.Array? { return Some(InvalidPrivateAttributesField); }
      err := ReadRefs(attrs, refs.value.items);
      return;
    }
    InsertNone(attrs.privates);
    return None;
  }

  lemma InsertNone(refs: RefSet)
    ensures InsertAll(refs, []) == refs
  {
  }

  method ReadCustom(attrs: AttributesBuilder, members: Members) returns (ghost values: map<string, Value>)
    requires attrs.Valid()
    modifies attrs
    ensures attrs.Valid()
    ensures ReadsMembers(members, values)
    ensures attrs.Draft() == old(attrs.Draft()).(custom := old(attrs.values) + values)
  {
    hide AttributesMade, Reserved, Reads, Insert, AfterSet, Protected, Typed;
    var left := members.Keys;
    values := map[];
    while left != {}
      invariant attrs.Valid() && left <= members.Keys
      invariant forall k :: k in values <==> k in members && k !in left && !Reserved(k) && !members[k].Null?
      invariant forall k :: k in values ==> Reads(CString, members[k], values[k])
      invariant attrs.Draft() == old(attrs.Draft()).(custom := old(attrs.values) + values)
      decreases left
    {
      var k :| k in left;
      left := left - {k};
      if k == "key" || k == "name" || k == "anonymous" || k == "_meta" || members[k].Null? {
        BuiltInIsReserved(k);
        continue;
      }
      var value := ReadValue(members[k]);
      SetCustom(attrs.Draft(), k, value);
      attrs.Set(k, value, false);
      if !Reserved(k) { values := values[k := value]; }
    }
  }

  lemma BuiltInIsReserved(k: string)
    ensures k == "key" || k == "name" || k == "anonymous" || k == "_meta" ==> Reserved(k)
  {
  }

  lemma SetCustom(a: Attributes, k: string, value: Value)
    requires k != "name" && k != "anonymous"
    ensures AfterSet(a, k, value, false) == if Reserved(k) then a else a.(custom := a.custom[k := value])
  {
  }

  method ParseInto(attrs: AttributesBuilder, members: Members) returns (err: Option<JsonError>, ghost values: map<string, Value>)
    requires attrs.Valid() && "key" in members && members["key"].String?
    modifies attrs
    ensures attrs.Valid()
    ensures err == FieldError(members)
    ensures err.None? ==> ReadsMembers(members, values) && attrs.Draft() == Parsed(old(attrs.Draft()), members, values)
  {
    hide AttributesMade, InsertAll, ReadsMembers, MetaError, RefItems;
    values := map[];
    var name := Present(members, "name");
    if name.Some? {
      if !name.value.String? { return Some(InvalidNameField), values; }
      attrs.SetName(name.value.s);
    }
    var anonymous := Present(members, "anonymous");
    if anonymous.Some? {
      if !anonymous.value.Bool? { return Some(InvalidAnonymousField), values; }
      attrs.SetAnonymous(anonymous.value.b);
    }
    var meta := Present(members, "_meta");
    if meta.Some? {
      err := ReadMeta(attrs, meta.value);
      if err.Some? { return; }
    } else {
      NoRefs(attrs.privates);
    }
    values := ReadCustom(attrs, members);
    err := None;
  }

  lemma NoRefs(refs: RefSet)
    ensures InsertAll(refs, RefItems(None)) == refs
  {
  }

  lemma KeyProblem(members: Members)
    ensures "key" !in members ==> FieldError(members) == Some(MissingKeyField)
    ensures "key" in members && !members["key"].String? ==> FieldError(members) == Some(InvalidKeyField)
    ensures FieldError(members).None? ==> "key" in members && members["key"].String?
  {
  }

  method ParseSingle(builder: ContextBuilder, members: Members, kind: string)
    returns (err: Option<JsonError>, ghost values: map<string, Value>)
    requires builder.Valid()
    modifies builder, builder.builders.Values
    ensures builder.Valid() && fresh(builder.builders.Values - old(builder.builders.Values))
    ensures err == FieldError(members)
    ensures err.None? ==>
      && ReadsMembers(members, values)
      && builder.Drafts() == old(builder.Drafts())[kind :=
           Parsed(Started(old(builder.Drafts()), kind, members["key"].s), members, values)]
  {
    hide *;
    KeyProblem(members);
    values := map[];
    if "key" !in members { return Some(MissingKeyField), values; }
    if !members["key"].String? { return Some(InvalidKeyField), values; }
    var attrs := builder.Kind(kind, members["key"].s);
    label Made:
    err, values := ParseInto(attrs, members);
    builder.OneChanged@Made(kind);
  }

  // ----- Whole contexts

  function KindError(j: Json): Option<JsonError> {
    if !j.Object? then Some(ContextMustBeObject) else FieldError(j.members)
  }

  function ParsedKind(j: Json, values: map<string, Value>): Attributes
    requires KindError(j).None?
  {
    Parsed(Fresh(j.members["key"].s), j.members, values)
  }

  predicate AllReadable(kinds: Members) { forall k :: k in kinds ==> KindError(kinds[k]).None? }

  ghost predicate ReadsKinds(kinds: Members, readings: map<string, map<string, Value>>)
    requires AllReadable(kinds)
  {
    forall k :: k in kinds ==> k in readings && ReadsMembers(kinds[k].members, readings[k])
  }

  ghost function ParsedKinds(kinds: Members, readings: map<string, map<string, Value>>): map<string, Attributes>
    requires AllReadable(kinds) && kinds.Keys <= readings.Keys
  {
    map k | k in kinds :: ParsedKind(kinds[k], readings[k])
  }

  method ParseMulti(kinds: Members) returns (r: Result<Context, JsonError>, ghost readings: map<string, map<string, Value>>)
    ensures ReadsMulti(kinds, readings, r)
  {
    hide *;
    var builder := new ContextBuilder();
    readings := map[];
    NoneParsed(builder);
    var left, done: Members := kinds.Keys, map[];
    while left != {}
      invariant fresh(builder) && fresh(builder.builders.Values) && builder.Valid()
      invariant left <= kinds.Keys && done.Keys == kinds.Keys - left && forall k :: k in done ==> done[k] == kinds[k]
      invariant AllReadable(done) && readings.Keys == done.Keys && ReadsKinds(done, readings)
      invariant builder.Drafts() == ParsedKinds(done, readings)
      decreases left
    {
      var k :| k in left;
      left := left - {k};
      KindProblem(kinds, k, readings);
      if !kinds[k].Object? { return Failure(ContextMustBeObject), readings; }
      var err; ghost var values;
      err, values := ParseSingle(builder, kinds[k].members, k);
      if err.Some? { return Failure(err.value), readings; }
      OneMoreParsed(done, readings, k, kinds[k], values);
      done, readings := done[k := kinds[k]], readings[k := values];
    }
    assert done == kinds;
    var c := builder.Build();
    r := Success(c);
    AllParsed(kinds, readings);
  }

  lemma AllParsed(kinds: Members, readings: map<string, map<string, Value>>)
    requires AllReadable(kinds) && readings.Keys == kinds.Keys && ReadsKinds(kinds, readings)
    ensures ReadsMulti(kinds, readings, Success(Built(ParsedKinds(kinds, readings))))
  {
    hide AllReadable, ReadsKinds, ParsedKinds, Built;
  }

  lemma NoneParsed(builder: ContextBuilder)
    requires builder.builders == map[]
    ensures AllReadable(map[]) && ReadsKinds(map[], map[]) && builder.Drafts() == ParsedKinds(map[], map[])
  {
  }

  lemma KindProblem(kinds: Members, k: string, readings: map<string, map<string, Value>>)
    requires k in kinds
    ensures KindError(kinds[k]) == if kinds[k].Object? then FieldError(kinds[k].members) else Some(ContextMustBeObject)
    ensures KindError(kinds[k]).Some? ==> ReadsMulti(kinds, readings, Failure(KindError(kinds[k]).value))
  {
    hide FieldError, ReadsKinds, ParsedKinds;
  }

  lemma OneMoreReadable(done: Members, readings: map<string, map<string, Value>>, k: string, j: Json, values: map<string, Value>)
    requires AllReadable(done) && readings.Keys == done.Keys && ReadsKinds(done, readings) && k !in done
    requires KindError(j).None? && ReadsMembers(j.members, values)
    ensures AllReadable(done[k := j]) && ReadsKinds(done[k := j], readings[k := values])
  {
    hide FieldError, ReadsMembers;
  }

  lemma OneMoreKind(done: Members, readings: map<string, map<string, Value>>, k: string, j: Json, values: map<string, Value>)
    requires AllReadable(done) && readings.Keys == done.Keys && AllReadable(done[k := j]) && KindError(j).None?
    ensures ParsedKinds(done[k := j], readings[k := values]) == ParsedKinds(done, readings)[k := ParsedKind(j, values)]
  {
    hide KindError, ParsedKind;
  }

  lemma OneMoreParsed(done: Members, readings: map<string, map<string, Value>>, k: string, j: Json, values: map<string, Value>)
    requires AllReadable(done) && readings.Keys == done.Keys && ReadsKinds(done, readings) && k !in done
    requires KindError(j).None? && ReadsMembers(j.members, values)
    ensures AllReadable(done[k := j]) && ReadsKinds(done[k := j], readings[k := values])
    ensures "key" in j.members && j.members["key"].String?
    ensures ParsedKinds(done[k := j], readings[k := values])
         == ParsedKinds(done, readings)[k := Parsed(Started(ParsedKinds(done, readings), k, j.members["key"].s), j.members, values)]
  {
    KeyProblem(j.members);
    hide FieldError, Parsed, ReadsMembers, Fresh, ReadsKinds;
    OneMoreReadable(done, readings, k, j, values);
    OneMoreKind(done, readings, k, j, values);
    hide AllReadable;
  }

  function KindOf(j: Json): Result<string, JsonError> {
    if !j.Object? then Failure(ContextMustBeObject)
    else if "kind" !in j.members then Failure(MissingKindField)
    else if !j.members["kind"].String? then Failure(InvalidKindField)
    else Success(j.members["kind"].s)
  }

  ghost predicate ReadsMulti(kinds: Members, readings: map<string, map<string, Value>>, r: Result<Context, JsonError>) {
    if AllReadable(kinds) then ReadsKinds(kinds, readings) && r == Success(Built(ParsedKinds(kinds, readings)))
    else r.Failure? && exists k :: k in kinds && KindError(kinds[k]) == Some(r.error)
  }

  /** What parsing a document gives, when `readings` are the values read for each kind. */
  ghost predicate ReadsWith(j: Json, readings: map<string, map<string, Value>>, r: Result<Context, JsonError>) {
    match KindOf(j)
    case Failure(error) => r == Failure(error)
    case Success(kind) =>
      if kind == "multi" then ReadsMulti(j.members - {"kind"}, readings, r)
      else if KindError(j).Some? then r == Failure(KindError(j).value)
      else
        && kind in readings && ReadsMembers(j.members, readings[kind])
        && r == Success(Built(map[kind := ParsedKind(j, readings[kind])]))
  }

  /** What parsing a document gives, for some reading of its values. */
  ghost predicate ReadsContext(j: Json, r: Result<Context, JsonError>) {
    exists readings :: ReadsWith(j, readings, r)
  }

  method ParseContext(j: Json) returns (r: Result<Context, JsonError>)
    ensures ReadsContext(j, r)
  {
    hide AllReadable, ReadsKinds, Built, ParsedKinds, ReadsMembers, Parsed, FieldError, AttributesMade, ReadsMulti;
    ghost var readings: map<string, map<string, Value>> := map[];
    if !j.Object? {
      r := Failure(ContextMustBeObject);
    } else if "kind" !in j.members {
      r := Failure(MissingKindField);
    } else if !j.members["kind"].String? {
      r := Failure(InvalidKindField);
    } else if j.members["kind"].s == "multi" {
      r, readings := ParseMulti(j.members - {"kind"});
    } else {
      r, readings := ParseOne(j.members, j.members["kind"].s);
    }
    assert ReadsWith(j, readings, r);
  }

  method ParseOne(members: Members, kind: string)
    returns (r: Result<Context, JsonError>, ghost readings: map<string, map<string, Value>>)
    ensures FieldError(members).Some? ==> r == Failure(FieldError(members).value)
    ensures FieldError(members).None? ==>
      && kind in readings && ReadsMembers(members, readings[kind])
      && r == Success(Built(map[kind := ParsedKind(J.Object(members), readings[kind])]))
  {
    hide *;
    readings := map[];
    var builder := new ContextBuilder();
    NoDrafts(builder);
    var err; ghost var values;
    err, values := ParseSingle(builder, members, kind);
    if err.Some? { return Failure(err.value), readings; }
    readings := map[kind := values];
    OneParsed(members, kind, values);
    var c := builder.Build();
    r := Success(c);
  }

  lemma NoDrafts(builder: ContextBuilder)
    requires builder.builders == map[]
    ensures builder.Drafts() == map[]
  {
  }

  lemma OneParsed(members: Members, kind: string, values: map<string, Value>)
    requires FieldError(members).None?
    ensures "key" in members && members["key"].String? && KindError(J.Object(members)).None?
    ensures map[][kind := Parsed(Started(map[], kind, members["key"].s), members, values)]
         == map[kind := ParsedKind(J.Object(members), values)]
  {
    KeyProblem(members);
    hide FieldError, Parsed;
  }
}
