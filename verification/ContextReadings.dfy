/** What a parsed context answers, told from the document alone, for documents of any origin. */
module ContextReadings {
  import opened Wrappers
  import opened AttributeReferences
  import opened Contexts
  import opened ValueJson
  import opened ContextJson
  import opened ContextRoundTrips
  import V = Values
  import J = JsonValues

  type Value = V.Value
  type Json = J.Json

  // ----- Which documents parse

  /** The fields of one kind are of the right types; all but the key may be absent or null. */
  ghost predicate WellFormed(members: Members) {
    && "key" in members && members["key"].String?
    && ("name" in members ==> members["name"].Null? || members["name"].String?)
    && ("anonymous" in members ==> members["anonymous"].Null? || members["anonymous"].Bool?)
    && ("_meta" in members ==> members["_meta"].Null? || WellFormedMeta(members["_meta"]))
  }

  ghost predicate WellFormedMeta(meta: Json) {
    && meta.Object?
    && ("secondary" in meta.members ==> meta.members["secondary"].Null? || meta.members["secondary"].String?)
    && ("privateAttributes" in meta.members ==>
          var refs := meta.members["privateAttributes"];
          refs.Null? || (refs.Array? && forall i :: 0 <= i < |refs.items| ==> refs.items[i].String?))
  }

  lemma FieldsParse(members: Members)
    ensures FieldError(members).None? <==> WellFormed(members)
  {
  }

  /** An error names a field that is at fault, all fields looked at before it being fine. */
  lemma ErrorsBlame(members: Members)
    ensures FieldError(members) == Some(MissingKeyField) <==> "key" !in members
    ensures FieldError(members) == Some(InvalidKeyField) <==> "key" in members && !members["key"].String?
    ensures FieldError(members) == Some(InvalidNameField) ==> "name" in members && !members["name"].Null? && !members["name"].String?
    ensures FieldError(members) == Some(InvalidAnonymousField) ==>
              "anonymous" in members && !members["anonymous"].Null? && !members["anonymous"].Bool?
    ensures FieldError(members) == Some(InvalidMetaField) ==>
              "_meta" in members && !members["_meta"].Null? && !members["_meta"].Object?
    ensures FieldError(members).Some? && FieldError(members).value in {InvalidSecondaryField, InvalidPrivateAttributesField, InvalidAttributeReference} ==>
              "_meta" in members && members["_meta"].Object? && !WellFormedMeta(members["_meta"])
  {
  }

  ghost predicate WellFormedKind(j: Json) { j.Object? && WellFormed(j.members) }

  /** A document parses: it is an object with a kind, and its one kind, or each of its kinds, is well formed. */
  ghost predicate WellFormedDocument(j: Json) {
    && j.Object? && "kind" in j.members && j.members["kind"].String?
    && if j.members["kind"].s == "multi" then forall k :: k in j.members && k != "kind" ==> WellFormedKind(j.members[k])
       else WellFormed(j.members)
  }

  lemma KindParses(j: Json)
    ensures KindError(j).None? <==> WellFormedKind(j)
  {
    hide FieldError, WellFormed;
    if j.Object? { FieldsParse(j.members); }
  }

  lemma KindErrorIs(j: Json)
    requires j.Object?
    ensures KindError(j) == FieldError(j.members)
  {
    hide FieldError;
  }

  lemma DocumentParses(j: Json, r: Result<Context, JsonError>)
    requires ReadsContext(j, r)
    ensures r.Success? <==> WellFormedDocument(j)
  {
    hide WellFormed, FieldError, ReadsMembers, ReadsKinds, ParsedKinds, Built, ParsedKind, KindError, AllReadable, WellFormedKind;
    var readings :| ReadsWith(j, readings, r);
    if j.Object? {
      FieldsParse(j.members);
      KindErrorIs(j);
    }
    if KindOf(j) == Success("multi") { KindsParse(j.members); }
  }

  lemma KindsParse(members: Members)
    ensures AllReadable(members - {"kind"}) <==> forall k :: k in members && k != "kind" ==> WellFormedKind(members[k])
  {
    hide KindError, WellFormedKind;
    var kinds := members - {"kind"};
    forall k | k in kinds ensures KindError(kinds[k]).None? <==> WellFormedKind(members[k]) { KindParses(kinds[k]); }
    if AllReadable(kinds) {
      forall k | k in members && k != "kind" ensures WellFormedKind(members[k]) { assert k in kinds; }
    }
  }

  // ----- What a kind answers

  /** The document lists a private attribute. */
  ghost predicate ListsPrivate(members: Members, s: string) {
    && "_meta" in members && members["_meta"].Object? && "privateAttributes" in members["_meta"].members
    && members["_meta"].members["privateAttributes"].Array?
    && J.String(s) in members["_meta"].members["privateAttributes"].items
  }

  ghost predicate IsPrivate(a: Attributes, p: seq<string>) { p in a.privates }

  /** The attributes answer what the document says: its key, its name or an empty one, its anonymity or false, a reading
      of every other member that is there and not null, null for the rest; and the private paths are those that the
      listed references parse to. */
  ghost predicate Answers(a: Attributes, members: Members) {
    && "key" in members && members["key"].String? && Get(a, FromLiteral("key")) == V.String(members["key"].s)
    && Get(a, FromLiteral("name")) == V.String(if "name" in members && members["name"].String? then members["name"].s else "")
    && Get(a, FromLiteral("anonymous")) == V.Bool("anonymous" in members && members["anonymous"] == J.Bool(true))
    && (forall m :: m != "" && !Reserved(m) ==> AnswersMember(a, members, m))
    && forall p :: IsPrivate(a, p) <==> exists s :: ListsPrivate(members, s) && FromReference(s).components == p
  }

  ghost predicate AnswersMember(a: Attributes, members: Members, m: string) {
    var answer := Get(a, FromLiteral(m));
    if m in members && !members[m].Null? then Reads(CString, members[m], answer) else answer == V.Null
  }

  lemma ParsedFields(members: Members, values: map<string, Value>)
    requires FieldError(members).None?
    ensures "key" in members && members["key"].String?
    ensures
      var a := Parsed(Fresh(members["key"].s), members, values);
      && a.key == members["key"].s && a.custom == values
      && a.name == (if "name" in members && members["name"].String? then members["name"].s else "")
      && (a.anonymous <==> "anonymous" in members && members["anonymous"] == J.Bool(true))
      && a.privates == InsertAll(map[], RefItems(Present(members, "_meta")))
  {
    hide InsertAll, RefItems;
    assert map[] + values == values;
  }

  lemma ListedItems(members: Members, s: string)
    requires FieldError(members).None?
    ensures J.String(s) in RefItems(Present(members, "_meta")) <==> ListsPrivate(members, s)
  {
  }

  lemma PrivatesAreListed(members: Members, p: seq<string>)
    requires FieldError(members).None?
    ensures p in InsertAll(map[], RefItems(Present(members, "_meta"))) <==>
            exists s :: ListsPrivate(members, s) && FromReference(s).components == p
  {
    var items := RefItems(Present(members, "_meta"));
    hide FieldError, FromReference, InsertAll, RefItems, ListsPrivate;
    InsertedPath(map[], items, p);
    if exists i :: 0 <= i < |items| && FromReference(items[i].s).components == p {
      var i :| 0 <= i < |items| && FromReference(items[i].s).components == p;
      assert items[i] == J.String(items[i].s);
      ListedItems(members, items[i].s);
    }
    if exists s :: ListsPrivate(members, s) && FromReference(s).components == p {
      var s :| ListsPrivate(members, s) && FromReference(s).components == p;
      ListedItems(members, s);
      var i :| 0 <= i < |items| && items[i] == J.String(s);
    }
  }

  lemma CustomAnswers(a: Attributes, members: Members, m: string)
    requires ReadsMembers(members, a.custom) && m != "" && !Reserved(m)
    ensures AnswersMember(a, members, m)
  {
    hide Reads;
    assert [m][1..] == [] && [m][0] == m;
    assert ["kind"][0] == "kind" && ["key"][0] == "key" && ["name"][0] == "name" && ["anonymous"][0] == "anonymous";
    assert Get(a, FromLiteral(m)) == V.Find(V.Object(a.custom), [m]).UnwrapOr(V.Null);
    if m in a.custom { assert V.Find(a.custom[m], [m][1..]) == Some(a.custom[m]); }
  }

  lemma BuiltInAnswers(a: Attributes)
    ensures Get(a, FromLiteral("key")) == V.String(a.key)
    ensures Get(a, FromLiteral("name")) == V.String(a.name)
    ensures Get(a, FromLiteral("anonymous")) == V.Bool(a.anonymous)
  {
    assert ["key"][0] != ["kind"][0] || "key" != "kind";
    assert ["name"][0] == "name" && ["anonymous"][0] == "anonymous" && ["kind"][0] == "kind" && ["key"][0] == "key";
  }

  lemma KindAnswers(members: Members, values: map<string, Value>)
    requires FieldError(members).None? && ReadsMembers(members, values)
    ensures "key" in members && members["key"].String?
    ensures Answers(Parsed(Fresh(members["key"].s), members, values), members)
  {
    ParsedFields(members, values);
    var a := Parsed(Fresh(members["key"].s), members, values);
    hide FieldError, ReadsMembers, Parsed, Get, Reserved, AnswersMember, InsertAll, RefItems, ListsPrivate, FromReference, FromLiteral;
    BuiltInAnswers(a);
    forall m | m != "" && !Reserved(m) ensures AnswersMember(a, members, m) { CustomAnswers(a, members, m); }
    forall p ensures IsPrivate(a, p) <==> exists s :: ListsPrivate(members, s) && FromReference(s).components == p {
      PrivatesAreListed(members, p);
    }
  }

  // ----- Whole documents

  ghost predicate AnswersKind(a: Attributes, j: Json) { j.Object? && Answers(a, j.members) }

  lemma ParsedKindAnswers(j: Json, values: map<string, Value>)
    requires KindError(j).None? && ReadsMembers(j.members, values)
    ensures AnswersKind(ParsedKind(j, values), j)
  {
    hide FieldError, ReadsMembers, Parsed, Answers, Fresh;
    KindAnswers(j.members, values);
  }

  /** A valid context parsed from a document of one kind has that kind and answers what the document says. */
  lemma SingleDocumentAnswers(j: Json, r: Result<Context, JsonError>, kind: string)
    requires ReadsContext(j, r) && r.Success? && r.value.Context?
    requires j.Object? && "kind" in j.members && j.members["kind"] == J.String(kind) && kind != "multi"
    ensures r.value.kinds.Keys == {kind} && Answers(r.value.kinds[kind], j.members)
    ensures forall ref :: ContextGet(r.value, kind, ref) == Get(r.value.kinds[kind], ref)
  {
    hide FieldError, ReadsMembers, ParsedKind, Answers, ReadsMulti, KindError, Buildable;
    var readings :| ReadsWith(j, readings, r);
    ParsedKindAnswers(j, readings[kind]);
  }

  /** One parsed from a document of several kinds has exactly those, and each answers what its member says. */
  lemma MultiDocumentAnswers(j: Json, r: Result<Context, JsonError>)
    requires ReadsContext(j, r) && r.Success? && r.value.Context?
    requires j.Object? && "kind" in j.members && j.members["kind"] == J.String("multi")
    ensures r.value.kinds.Keys == j.members.Keys - {"kind"}
    ensures forall k :: k in r.value.kinds ==> AnswersKind(r.value.kinds[k], j.members[k])
  {
    hide FieldError, ReadsMembers, ParsedKind, AnswersKind, KindError, Buildable;
    var readings :| ReadsWith(j, readings, r);
    var kinds := j.members - {"kind"};
    forall k | k in kinds ensures AnswersKind(ParsedKind(kinds[k], readings[k]), kinds[k]) {
      ParsedKindAnswers(kinds[k], readings[k]);
    }
  }

  /** A document that parses gives a valid context exactly when it names a kind, and every kind is valid and has a key
      that is not empty. */
  lemma SingleDocumentIsValid(j: Json, r: Result<Context, JsonError>, kind: string)
    requires ReadsContext(j, r) && r.Success?
    requires j.Object? && "kind" in j.members && j.members["kind"] == J.String(kind) && kind != "multi"
    ensures "key" in j.members && j.members["key"].String?
    ensures r.value.Context? <==> ValidKind(kind) && j.members["key"].s != ""
  {
    hide FieldError, ReadsMembers, ParsedKind, ReadsMulti, ValidKind, KindError;
    var readings :| ReadsWith(j, readings, r);
    ParsedKindKey(j, readings[kind]);
    var a := ParsedKind(j, readings[kind]);
    assert kind in map[kind := a];
  }

  lemma ParsedKindKey(j: Json, values: map<string, Value>)
    requires KindError(j).None?
    ensures "key" in j.members && j.members["key"].String? && ParsedKind(j, values).key == j.members["key"].s
  {
    KeyProblem(j.members);
    hide FieldError;
  }

  ghost predicate HasKey(j: Json) { j.Object? && "key" in j.members && j.members["key"].String? && j.members["key"].s != "" }

  lemma MultiDocumentIsValid(j: Json, r: Result<Context, JsonError>)
    requires ReadsContext(j, r) && r.Success?
    requires j.Object? && "kind" in j.members && j.members["kind"] == J.String("multi")
    ensures r.value.Context? <==>
      && (exists k :: k in j.members && k != "kind")
      && (forall k :: k in j.members && k != "kind" ==> ValidKind(k) && HasKey(j.members[k]))
  {
    hide FieldError, ReadsMembers, ParsedKind, ValidKind, KindError, HasKey;
    var readings :| ReadsWith(j, readings, r);
    var kinds := j.members - {"kind"};
    var parsed := ParsedKinds(kinds, readings);
    forall k | k in kinds ensures parsed[k].key != "" <==> HasKey(kinds[k]) { ParsedKindHasKey(kinds[k], readings[k]); }
    assert parsed != map[] <==> exists k :: k in j.members && k != "kind" by { NotEmptyIff(j.members, parsed); }
    if r.value.Context? {
      forall k | k in j.members && k != "kind" ensures ValidKind(k) && HasKey(j.members[k]) { assert k in parsed; }
    }
  }

  lemma NotEmptyIff(members: Members, parsed: map<string, Attributes>)
    requires parsed.Keys == members.Keys - {"kind"}
    ensures parsed != map[] <==> exists k :: k in members && k != "kind"
  {
    if parsed != map[] {
      var k :| k in parsed;
      assert k in members && k != "kind";
    }
    if k :| k in members && k != "kind" { assert k in parsed; }
  }

  lemma ParsedKindHasKey(j: Json, values: map<string, Value>)
    requires KindError(j).None?
    ensures ParsedKind(j, values).key != "" <==> HasKey(j)
  {
    ParsedKindKey(j, values);
    hide KindError, ParsedKind;
  }
}
