/** The JSON a context is sent as in events, private attributes removed. Models FilterSingleContext,
    FilterMultiContext and Filter of libs/internal/src/context_filter.cpp. */
module ContextFilters {
  import opened Wrappers
  import opened AttributeReferences
  import opened Contexts
  import opened Redactions
  import opened RedactedDocuments
  import V = Values
  import J = JsonValues

  type Json = J.Json

  datatype Filter = Filter(allPrivate: bool, globals: Contexts.RefSet)

  function PrivateRefs(refs: Contexts.RefSet): map<seq<string>, PrivateRef<string, string>> {
    map c | c in refs :: PrivateRef(refs[c].valid, refs[c].components, refs[c].redactionName)
  }

  function RulesFor(f: Filter, a: Attributes, redactAnonymous: bool): (rules: Rules<string, string>)
    requires RefSetMade(f.globals) && RefSetMade(a.privates)
    ensures rules.Valid()
  {
    Rules(f.allPrivate || (redactAnonymous && a.anonymous), PathReference, PrivateRefs(f.globals), PrivateRefs(a.privates))
  }

  // ----- One kind

  /** The members that are never redacted. */
  function BuiltIns(a: Attributes, kind: Option<string>): map<string, Json> {
    var key := map["key" := J.String(a.key)];
    var kinded := if kind.Some? then key["kind" := J.String(kind.value)] else key;
    if a.anonymous then kinded["anonymous" := J.Bool(true)] else kinded
  }

  predicate NameShown(rules: Rules<string, string>, a: Attributes) { a.name != "" && Redacted(rules, ["name"]).None? }

  /** Everything but the metadata. */
  function Shown(rules: Rules<string, string>, a: Attributes, kind: Option<string>): map<string, Json> {
    var named := if NameShown(rules, a) then BuiltIns(a, kind)["name" := J.String(a.name)] else BuiltIns(a, kind);
    named + Redaction(rules, [], V.Object(a.custom)).members
  }

  ghost function NameVisits(rules: Rules<string, string>, a: Attributes): multiset<Option<string>> {
    if a.name != "" && Redacted(rules, ["name"]).Some? then multiset{Redacted(rules, ["name"])} else multiset{}
  }

  /** Every redaction met in the attributes. */
  ghost function AllVisits(rules: Rules<string, string>, a: Attributes): multiset<Option<string>> {
    NameVisits(rules, a) + MembersVisits(rules, [], V.Object(a.custom), a.custom.Keys)
  }

  function Strings(names: seq<string>): seq<Json> {
    if names == [] then [] else Strings(names[..|names| - 1]) + [J.String(names[|names| - 1])]
  }

  function Meta(names: seq<string>): Json {
    J.Object(map["redactedAttributes" := J.Array(Strings(names))])
  }

  ghost predicate Filters(rules: Rules<string, string>, a: Attributes, kind: Option<string>, names: seq<string>, j: Json) {
    && Recorded(names, AllVisits(rules, a))
    && j == J.Object(if names == [] then Shown(rules, a, kind) else Shown(rules, a, kind)["_meta" := Meta(names)])
  }

  method FilterBuiltIns(rules: Rules<string, string>, kind: string, includeKind: bool, a: Attributes)
    returns (members: map<string, Json>, redactions: seq<string>)
    requires rules.Valid()
    ensures members == if NameShown(rules, a) then BuiltIns(a, if includeKind then Some(kind) else None)["name" := J.String(a.name)]
                       else BuiltIns(a, if includeKind then Some(kind) else None)
    ensures Recorded(redactions, NameVisits(rules, a))
  {
    hide Redacted;
    members := map["key" := J.String(a.key)];
    if includeKind { members := members["kind" := J.String(kind)]; }
    if a.anonymous { members := members["anonymous" := J.Bool(true)]; }
    redactions := [];
    if a.name != "" {
      var redacted;
      redacted, redactions := Redact(rules, redactions, ["name"]);
      if !redacted { members := members["name" := J.String(a.name)]; }
    }
  }

  method RedactionMeta(redactions: seq<string>) returns (meta: Json)
    ensures meta == Meta(redactions)
  {
    var items := [];
    for i := 0 to |redactions|
      invariant items == Strings(redactions[..i])
    {
      assert redactions[..i + 1][..i] == redactions[..i];
      items := items + [J.String(redactions[i])];
    }
    assert redactions[..|redactions|] == redactions;
    meta := J.Object(map["redactedAttributes" := J.Array(items)]);
  }

  lemma NoneTwice(a: Attributes, kind: Option<string>)
    requires AttributesMade(a)
    ensures BuiltIns(a, kind)["name" := J.String(a.name)].Keys !! a.custom.Keys && BuiltIns(a, kind).Keys !! a.custom.Keys
  {
  }

  /** The output for one kind, the redacted names being listed in some order. */
  ghost predicate FiltersKind(f: Filter, a: Attributes, redactAnonymous: bool, kind: Option<string>, j: Json) {
    && RefSetMade(f.globals) && RefSetMade(a.privates)
    && exists names :: Filters(RulesFor(f, a, redactAnonymous), a, kind, names, j)
  }

  method FilterSingleContext(f: Filter, kind: string, includeKind: bool, a: Attributes, redactAnonymous: bool)
    returns (j: Json)
    requires RefSetMade(f.globals) && AttributesMade(a)
    ensures FiltersKind(f, a, redactAnonymous, if includeKind then Some(kind) else None, j)
  {
    hide Recorded, BuiltIns, RefSetMade, Redacted, MembersVisits, NameShown, NameVisits, Meta, Reserved, Strings;
    var rules := RulesFor(f, a, redactAnonymous);
    var members, redactions := FilterBuiltIns(rules, kind, includeKind, a);
    NoneTwice(a, if includeKind then Some(kind) else None);
    j, redactions := Traverse(rules, J.Object(members), V.Object(a.custom), redactions, NameVisits(rules, a));
    if redactions != [] {
      var meta := RedactionMeta(redactions);
      j := J.Object(j.members["_meta" := meta]);
    }
    assert Filters(rules, a, if includeKind then Some(kind) else None, redactions, j);
  }

  // ----- What the output shows

  /** Paths shown whatever is private. */
  predicate AlwaysShown(a: Attributes, kind: Option<string>, anyRedacted: bool, p: seq<string>) {
    || p == ["key"] || (p == ["kind"] && kind.Some?) || (p == ["anonymous"] && a.anonymous)
    || (anyRedacted && (p == ["_meta"] || p == ["_meta", "redactedAttributes"]))
  }

  ghost predicate AnyRedacted(rules: Rules<string, string>, a: Attributes) {
    exists n :: Some(n) in AllVisits(rules, a)
  }

  /** Names are recorded exactly when something was redacted. */
  lemma RecordedSome(rules: Rules<string, string>, a: Attributes, kind: Option<string>, names: seq<string>, j: Json)
    requires Filters(rules, a, kind, names, j)
    ensures AnyRedacted(rules, a) <==> names != []
  {
    hide AllVisits, Shown;
    if names != [] { assert names[0] in multiset(names); }
  }

  /** Custom attributes are shown as the redactor leaves them. */
  lemma CustomShown(rules: Rules<string, string>, a: Attributes, kind: Option<string>, names: seq<string>, j: Json, p: seq<string>)
    requires AttributesMade(a) && Filters(rules, a, kind, names, j) && p != [] && !Reserved(p[0])
    ensures J.Find(j, p) == J.Find(Redaction(rules, [], V.Object(a.custom)), p)
  {
    hide Redacted, Recorded, AllVisits, RefSetMade, Meta;
    NotBuiltIn(a, kind, p[0]);
    RedactionKeys(rules, a, p[0]);
    hide Redaction, BuiltIns, NameShown;
  }

  lemma NotBuiltIn(a: Attributes, kind: Option<string>, k: string)
    requires !Reserved(k)
    ensures k !in BuiltIns(a, kind)
  {
  }

  lemma RedactionKeys(rules: Rules<string, string>, a: Attributes, k: string)
    ensures Redaction(rules, [], V.Object(a.custom)).Object?
    ensures k in Redaction(rules, [], V.Object(a.custom)).members ==> k in a.custom
  {
  }

  /** A custom attribute is in the output exactly when it is in the context and nothing along its path is private. */
  lemma CustomSurvives(f: Filter, a: Attributes, redactAnonymous: bool, kind: Option<string>, j: Json, p: seq<string>)
    requires AttributesMade(a) && FiltersKind(f, a, redactAnonymous, kind, j) && p != [] && !Reserved(p[0])
    ensures J.Find(j, p).Some? <==> V.Find(V.Object(a.custom), p).Some? && !HiddenPath(RulesFor(f, a, redactAnonymous), p)
  {
    hide AttributesMade, RefSetMade, Filters, Reserved, Redaction, HiddenPath, RulesFor;
    var names :| Filters(RulesFor(f, a, redactAnonymous), a, kind, names, j);
    CustomShown(RulesFor(f, a, redactAnonymous), a, kind, names, j, p);
    AttributeSurvives(RulesFor(f, a, redactAnonymous), V.Object(a.custom), p);
  }

  lemma ScalarShown(rules: Rules<string, string>, a: Attributes, kind: Option<string>, names: seq<string>, j: Json, p: seq<string>)
    requires AttributesMade(a) && Filters(rules, a, kind, names, j) && p != [] && Reserved(p[0]) && p[0] != "_meta"
    ensures J.Find(j, p).Some? <==> |p| == 1 && p[0] in Shown(rules, a, kind)
  {
    hide Redacted, Recorded, AllVisits, RefSetMade, Meta;
    RedactionKeys(rules, a, p[0]);
    hide Redaction;
    if p[0] in Shown(rules, a, kind) {
      ReservedIsScalar(rules, a, kind, p[0]);
      NothingInside(j.members[p[0]], p[1..]);
    }
  }

  lemma ReservedIsScalar(rules: Rules<string, string>, a: Attributes, kind: Option<string>, k: string)
    requires AttributesMade(a) && Reserved(k) && k in Shown(rules, a, kind)
    ensures !Shown(rules, a, kind)[k].Object?
  {
    hide Redacted, RefSetMade;
    RedactionKeys(rules, a, k);
    hide Redaction;
  }

  lemma NothingInside(j: Json, p: seq<string>)
    requires !j.Object?
    ensures J.Find(j, p).Some? <==> p == []
  {
  }

  lemma ReservedShown(rules: Rules<string, string>, a: Attributes, kind: Option<string>, names: seq<string>, j: Json, p: seq<string>)
    requires AttributesMade(a) && Filters(rules, a, kind, names, j) && p != [] && Reserved(p[0]) && p[0] != "_meta"
    requires p == ["name"] ==> Redacted(rules, p).Some?
    ensures J.Find(j, p).Some? <==> AlwaysShown(a, kind, names != [], p)
  {
    hide Redacted, Recorded, AllVisits, RefSetMade, Meta;
    ScalarShown(rules, a, kind, names, j, p);
    if |p| == 1 {
      assert p == [p[0]];
      RedactionKeys(rules, a, p[0]);
      hide Redaction, Filters, J.Find;
    }
  }

  lemma MetaShown(rules: Rules<string, string>, a: Attributes, kind: Option<string>, names: seq<string>, j: Json, p: seq<string>)
    requires AttributesMade(a) && Filters(rules, a, kind, names, j) && p != [] && p[0] == "_meta"
    ensures J.Find(j, p).Some? <==> AlwaysShown(a, kind, names != [], p)
  {
    hide Redacted, Recorded, AllVisits, RefSetMade, Strings;
    if names == [] {
      NoMeta(rules, a, kind);
    } else {
      MetaPaths(names, p[1..]);
      hide Shown, Meta;
      assert p == ["_meta"] + p[1..];
    }
  }

  lemma NoMeta(rules: Rules<string, string>, a: Attributes, kind: Option<string>)
    requires AttributesMade(a)
    ensures "_meta" !in Shown(rules, a, kind)
  {
    hide Redacted, RefSetMade;
    RedactionKeys(rules, a, "_meta");
    hide Redaction;
  }

  lemma MetaPaths(names: seq<string>, p: seq<string>)
    ensures J.Find(Meta(names), p).Some? <==> p == [] || p == ["redactedAttributes"]
  {
    if p != [] && p[0] == "redactedAttributes" {
      NothingInside(J.Array(Strings(names)), p[1..]);
    }
  }

  /** A private path leads to something in the output exactly when it is one of the few that are always shown. */
  lemma PrivateShownOnlyIfBuiltIn(f: Filter, a: Attributes, redactAnonymous: bool, kind: Option<string>, j: Json, p: seq<string>)
    requires AttributesMade(a) && FiltersKind(f, a, redactAnonymous, kind, j)
    requires p != [] && Private(RulesFor(f, a, redactAnonymous), p)
    ensures J.Find(j, p).Some? <==> AlwaysShown(a, kind, AnyRedacted(RulesFor(f, a, redactAnonymous), a), p)
  {
    hide AttributesMade, RefSetMade, Filters, Reserved, Redaction, RulesFor, AlwaysShown, AnyRedacted, Private, Redacted;
    var rules := RulesFor(f, a, redactAnonymous);
    var names :| Filters(rules, a, kind, names, j);
    RecordedSome(rules, a, kind, names, j);
    PrivateShown(rules, a, kind, names, j, p);
  }

  lemma PrivateShown(rules: Rules<string, string>, a: Attributes, kind: Option<string>, names: seq<string>, j: Json, p: seq<string>)
    requires rules.Valid() && AttributesMade(a) && Filters(rules, a, kind, names, j) && p != [] && Private(rules, p)
    ensures J.Find(j, p).Some? <==> AlwaysShown(a, kind, names != [], p)
  {
    hide *;
    if !Reserved(p[0]) {
      CustomShown(rules, a, kind, names, j, p);
      NothingPrivateSurvives(rules, V.Object(a.custom), p);
      AlwaysShownIsReserved(a, kind, names != [], p);
    } else if p[0] == "_meta" {
      MetaShown(rules, a, kind, names, j, p);
    } else {
      RedactedIffPrivate(rules, p);
      ReservedShown(rules, a, kind, names, j, p);
    }
  }

  lemma AlwaysShownIsReserved(a: Attributes, kind: Option<string>, anyRedacted: bool, p: seq<string>)
    requires p != [] && !Reserved(p[0])
    ensures !AlwaysShown(a, kind, anyRedacted, p)
  {
  }

  // ----- What the output holds

  /** A path is private: everything is, by configuration or because the context is anonymous, or some valid global or
      own reference has that path. */
  ghost predicate PrivatePath(f: Filter, a: Attributes, redactAnonymous: bool, p: seq<string>) {
    || f.allPrivate || (redactAnonymous && a.anonymous)
    || (exists c :: c in f.globals && f.globals[c].Matches(p)) || (exists c :: c in a.privates && a.privates[c].Matches(p))
  }

  lemma PrivateIs(f: Filter, a: Attributes, redactAnonymous: bool, p: seq<string>)
    requires RefSetMade(f.globals) && RefSetMade(a.privates)
    ensures Private(RulesFor(f, a, redactAnonymous), p) <==> PrivatePath(f, a, redactAnonymous, p)
  {
    hide Made;
    HasMatchIs(f.globals, p);
    HasMatchIs(a.privates, p);
  }

  lemma HasMatchIs(refs: Contexts.RefSet, p: seq<string>)
    requires RefSetMade(refs)
    ensures HasMatch(PrivateRefs(refs), p) <==> exists c :: c in refs && refs[c].Matches(p)
  {
    hide Made;
    if exists c :: c in refs && refs[c].Matches(p) {
      var c :| c in refs && refs[c].Matches(p);
      assert c in PrivateRefs(refs) && PrivateRefs(refs)[c].path == p;
    }
    if HasMatch(PrivateRefs(refs), p) {
      var c :| c in PrivateRefs(refs) && PrivateRefs(refs)[c].valid && PrivateRefs(refs)[c].path == p;
      assert refs[c].Matches(p);
    }
  }

  /** At every address below a custom attribute, the output has something exactly when the context has and nothing on the
      way is private, and it is the same leaf, an array as long, or an object. */
  lemma CustomLeftAt(f: Filter, a: Attributes, redactAnonymous: bool, kind: Option<string>, j: Json, at: Address<string>)
    requires AttributesMade(a) && FiltersKind(f, a, redactAnonymous, kind, j)
    requires at != [] && at[0].Key? && !Reserved(at[0].name)
    ensures Lookup(j, at).Some? <==>
              Inside(V.Object(a.custom), at).Some? && !HiddenOn(RulesFor(f, a, redactAnonymous), [], at)
    ensures Lookup(j, at).Some? ==> Alike(Inside(V.Object(a.custom), at).value, Lookup(j, at).value)
  {
    hide AttributesMade, RefSetMade, Filters, Reserved, Redaction, RulesFor, HiddenOn, Alike, Inside;
    var rules := RulesFor(f, a, redactAnonymous);
    var names :| Filters(rules, a, kind, names, j);
    CustomAt(rules, a, kind, names, j, at);
    LeftAt(rules, [], V.Object(a.custom), at);
  }

  lemma CustomAt(rules: Rules<string, string>, a: Attributes, kind: Option<string>, names: seq<string>, j: Json, at: Address<string>)
    requires AttributesMade(a) && Filters(rules, a, kind, names, j) && at != [] && at[0].Key? && !Reserved(at[0].name)
    ensures Lookup(j, at) == Lookup(Redaction(rules, [], V.Object(a.custom)), at)
  {
    hide Redacted, Recorded, AllVisits, RefSetMade, Meta;
    NotBuiltIn(a, kind, at[0].name);
    RedactionKeys(rules, a, at[0].name);
    hide Redaction, BuiltIns, NameShown;
  }

  /** The built-in members hold the context's own key, kind, anonymity and name; the name only when it is not private. */
  lemma BuiltInsShown(f: Filter, a: Attributes, redactAnonymous: bool, kind: Option<string>, j: Json)
    requires AttributesMade(a) && FiltersKind(f, a, redactAnonymous, kind, j)
    ensures j.Object?
    ensures "key" in j.members && j.members["key"] == J.String(a.key)
    ensures if kind.Some? then "kind" in j.members && j.members["kind"] == J.String(kind.value) else "kind" !in j.members
    ensures if a.anonymous then "anonymous" in j.members && j.members["anonymous"] == J.Bool(true) else "anonymous" !in j.members
    ensures if a.name != "" && !PrivatePath(f, a, redactAnonymous, ["name"])
            then "name" in j.members && j.members["name"] == J.String(a.name) else "name" !in j.members
  {
    var rules := RulesFor(f, a, redactAnonymous);
    var names :| Filters(rules, a, kind, names, j);
    PrivateIs(f, a, redactAnonymous, ["name"]);
    RedactedIffPrivate(rules, ["name"]);
    hide RulesFor, RefSetMade, PrivatePath, Private, Redacted;
    BuiltInsAre(rules, a, kind, names, j);
  }

  lemma BuiltInsAre(rules: Rules<string, string>, a: Attributes, kind: Option<string>, names: seq<string>, j: Json)
    requires AttributesMade(a) && Filters(rules, a, kind, names, j)
    ensures "key" in j.members && j.members["key"] == J.String(a.key)
    ensures if kind.Some? then "kind" in j.members && j.members["kind"] == J.String(kind.value) else "kind" !in j.members
    ensures if a.anonymous then "anonymous" in j.members && j.members["anonymous"] == J.Bool(true) else "anonymous" !in j.members
    ensures if NameShown(rules, a) then "name" in j.members && j.members["name"] == J.String(a.name) else "name" !in j.members
  {
    hide Redacted, Recorded, AllVisits, RefSetMade, Meta, NameShown;
    RedactionKeys(rules, a, "key");
    RedactionKeys(rules, a, "kind");
    RedactionKeys(rules, a, "anonymous");
    RedactionKeys(rules, a, "name");
    hide Redaction;
  }

  lemma {:induction false} StringsAre(names: seq<string>, n: string)
    ensures multiset(Strings(names))[J.String(n)] == multiset(names)[n]
    ensures forall i :: 0 <= i < |Strings(names)| ==> Strings(names)[i].String?
  {
    if names != [] {
      var init, last := names[..|names| - 1], names[|names| - 1];
      StringsAre(init, n);
      assert names == init + [last];
    }
  }

  /** When something was redacted, the metadata lists each redaction name exactly as often as it was met, and nothing
      else. */
  lemma MetaLists(f: Filter, a: Attributes, redactAnonymous: bool, kind: Option<string>, j: Json, n: string)
    requires AttributesMade(a) && FiltersKind(f, a, redactAnonymous, kind, j)
    requires AnyRedacted(RulesFor(f, a, redactAnonymous), a)
    ensures
      var listed := J.Find(j, ["_meta", "redactedAttributes"]);
      && listed.Some? && listed.value.Array?
      && (forall i :: 0 <= i < |listed.value.items| ==> listed.value.items[i].String?)
      && multiset(listed.value.items)[J.String(n)] == AllVisits(RulesFor(f, a, redactAnonymous), a)[Some(n)]
  {
    hide RulesFor, RefSetMade, AllVisits, Shown, AttributesMade, AnyRedacted, Strings;
    var rules := RulesFor(f, a, redactAnonymous);
    var names :| Filters(rules, a, kind, names, j);
    RecordedSome(rules, a, kind, names, j);
    StringsAre(names, n);
    MetaIs(j.members, names);
  }

  lemma MetaIs(members: map<string, Json>, names: seq<string>)
    requires "_meta" in members && members["_meta"] == Meta(names)
    ensures J.Find(J.Object(members), ["_meta", "redactedAttributes"]) == Some(J.Array(Strings(names)))
  {
    hide Strings;
    assert ["_meta", "redactedAttributes"][1..] == ["redactedAttributes"];
    assert ["redactedAttributes"][1..] == [];
  }

  // ----- Whole contexts

  /** A context of one kind is its attributes with the kind; one of several kinds is an object of them. */
  ghost predicate FiltersContext(f: Filter, c: Context, redactAnonymous: bool, j: Json)
    requires c.Context?
  {
    if |c.kinds| == 1 then forall k :: k in c.kinds ==> FiltersKind(f, c.kinds[k], redactAnonymous, Some(k), j)
    else
      && j.Object? && j.members.Keys == c.kinds.Keys + {"kind"} && j.members["kind"] == J.String("multi")
      && forall k :: k in c.kinds ==> FiltersKind(f, c.kinds[k], redactAnonymous, None, j.members[k])
  }

  method FilterContext(f: Filter, c: Context, redactAnonymous: bool) returns (j: Json)
    requires RefSetMade(f.globals) && ContextMade(c)
    ensures FiltersContext(f, c, redactAnonymous, j)
  {
    hide AttributesMade, FiltersKind, ValidKind;
    if |c.kinds| == 1 {
      var kind :| kind in c.kinds;
      OneKind(c.kinds, kind);
      j := FilterSingleContext(f, kind, true, c.kinds[kind], redactAnonymous);
    } else {
      j := FilterMultiContext(f, c.kinds, redactAnonymous);
    }
  }

  method FilterMultiContext(f: Filter, kinds: map<string, Attributes>, redactAnonymous: bool) returns (j: Json)
    requires RefSetMade(f.globals) && ContextMade(Context.Context(kinds))
    ensures j.Object? && j.members.Keys == kinds.Keys + {"kind"} && j.members["kind"] == J.String("multi")
    ensures forall k :: k in kinds ==> FiltersKind(f, kinds[k], redactAnonymous, None, j.members[k])
  {
    hide AttributesMade, FiltersKind, RefSetMade, ContextMade, ValidKind;
    var members: map<string, Json> := map["kind" := J.String("multi")];
    var left := kinds.Keys;
    while left != {}
      invariant left <= kinds.Keys
      invariant members.Keys == kinds.Keys - left + {"kind"} && members["kind"] == J.String("multi")
      invariant forall k :: k in kinds && k !in left ==> FiltersKind(f, kinds[k], redactAnonymous, None, members[k])
      decreases left
    {
      var kind :| kind in left;
      MadeKind(kinds, kind);
      var filtered := FilterSingleContext(f, kind, false, kinds[kind], redactAnonymous);
      members := members[kind := filtered];
      left := left - {kind};
    }
    j := J.Object(members);
  }
}
