/** Contexts, their attributes and the builders that make them. Models libs/common/src/attributes_builder.cpp,
    context_builder.cpp and context.cpp, and attribute lookup in libs/common/include/launchdarkly/attributes.hpp.
    The text of build errors is not modelled. */
module Contexts {
  import opened Wrappers
  import opened AttributeReferences
  import V = Values

  type Value = V.Value

  // ----- Sets of references

  /** An ordered set of references, which compare by components alone: each with its components. */
  type RefSet = map<seq<string>, Reference>

  /** Inserting keeps the reference already there. */
  function Insert(refs: RefSet, ref: Reference): RefSet {
    if ref.components in refs then refs else refs[ref.components := ref]
  }

  /** The reference is one the factories make. */
  predicate Made(ref: Reference) {
    ref == FromReference(ref.redactionName) || (|ref.components| == 1 && ref == FromLiteral(ref.components[0]))
  }

  predicate RefSetMade(refs: RefSet) {
    forall c :: c in refs ==> refs[c].components == c && Made(refs[c])
  }

  lemma FactoriesMake(str: string)
    ensures Made(FromLiteral(str)) && Made(FromReference(str))
  {
  }

  lemma InsertMade(refs: RefSet, ref: Reference)
    requires RefSetMade(refs) && Made(ref)
    ensures RefSetMade(Insert(refs, ref))
  {
    hide Made;
  }

  // ----- Attributes

  predicate Protected(name: string) { name == "key" || name == "kind" || name == "_meta" }

  predicate Typed(name: string) { name == "anonymous" || name == "name" }

  predicate Reserved(name: string) { Protected(name) || Typed(name) }

  datatype Attributes =
    Attributes(key: string, name: string, anonymous: bool, custom: map<string, Value>, privates: RefSet)

  predicate AttributesMade(a: Attributes) {
    (forall k :: k in a.custom ==> !Reserved(k)) && RefSetMade(a.privates)
  }

  function Fresh(key: string): Attributes { Attributes(key, "", false, map[], map[]) }

  /** A set attribute: protected names are ignored, and so are typed names given a value of another type. */
  function AfterSet(a: Attributes, name: string, value: Value, private: bool): Attributes {
    var outcome :=
      if Protected(name) then None
      else if name == "anonymous" then if value.Bool? then Some(a.(anonymous := value.b)) else None
      else if name == "name" then if value.String? then Some(a.(name := value.s)) else None
      else Some(a.(custom := a.custom[name := value]));
    if outcome.None? then a
    else if private then outcome.value.(privates := Insert(a.privates, FromReference(name)))
    else outcome.value
  }

  lemma AfterSetMade(a: Attributes, name: string, value: Value, private: bool)
    requires AttributesMade(a)
    ensures AttributesMade(AfterSet(a, name, value, private))
  {
    hide RefSetMade, Insert, Made, FromReference;
    FactoriesMake(name);
    InsertMade(a.privates, FromReference(name));
  }

  // ----- Lookup

  function Get(a: Attributes, ref: Reference): Value {
    if !ref.valid || ref.components == ["kind"] then V.Null
    else if ref.components == ["key"] then V.String(a.key)
    else if ref.components == ["name"] then V.String(a.name)
    else if ref.components == ["anonymous"] then V.Bool(a.anonymous)
    else V.Find(V.Object(a.custom), ref.components).UnwrapOr(V.Null)
  }

  /** Walks down the custom attributes; a component below something that is no object leaves the walk where it is. */
  method FindValue(root: Value, path: seq<string>) returns (value: Value)
    ensures value == V.Find(root, path).UnwrapOr(V.Null)
  {
    var node, found := root, true;
    for i := 0 to |path|
      invariant found ==> V.Find(root, path) == V.Find(node, path[i..])
      invariant !found ==> V.Find(root, path).None?
    {
      assert path[i..][1..] == path[i + 1..];
      if node.Object? {
        if path[i] in node.members {
          if found { assert V.Find(node, path[i..]) == V.Find(node.members[path[i]], path[i + 1..]); }
          node := node.members[path[i]];
        } else {
          found := false;
          break;
        }
      } else {
        found := false;
      }
    }
    value := if found then node else V.Null;
  }

  /** A value can be set: the name is not protected, and a typed name gets a value of its type. */
  predicate Settable(name: string, value: Value) {
    !Protected(name) && (name == "anonymous" ==> value.Bool?) && (name == "name" ==> value.String?)
  }

  /** What was set is found under its name, and every other attribute is as it was. */
  lemma SetThenGet(a: Attributes, name: string, value: Value, private: bool, ref: Reference)
    requires AttributesMade(a) && ref.valid && ref.components != []
    ensures Get(AfterSet(a, name, value, private), ref) ==
            if Settable(name, value) && ref.components[0] == name then V.Find(value, ref.components[1..]).UnwrapOr(V.Null)
            else Get(a, ref)
  {
    hide Insert, FromReference, RefSetMade;
    var path := ref.components;
    if |path| == 1 { assert path == [path[0]] && path[1..] == []; }
  }

  /** Setting an attribute as private adds what its name refers to, when it may be set; nothing ever stops being private. */
  lemma SetMarksPrivate(a: Attributes, name: string, value: Value, private: bool)
    ensures AfterSet(a, name, value, private).privates.Keys
         == a.privates.Keys + if private && Settable(name, value) then {FromReference(name).components} else {}
  {
    hide FromReference;
  }

  /** A name given to SetPrivate is read as a reference: it marks the attribute of that name exactly when it is
      a plain, NUL-free name. */
  lemma PrivateByName(name: string)
    ensures FromReference(name).Matches([name]) <==> name != "" && name[0] != '/' && NulFree(name)
  {
    if name != "" && name[0] == '/' {
      if Components(name) == Some([name]) {
        ParseThenPrint(name);
        PathIsLonger(name);
      }
    } else if name != "" && name[0] != NUL {
      ParsePlainReference(name);
    }
  }

  lemma {:induction false} EscapeLength(s: string)
    ensures |Escape(s)| >= |s|
  {
    if s != "" { EscapeLength(s[1..]); }
  }

  lemma PathIsLonger(s: string)
    ensures NulFree(s) ==> |PathReference([s])| > |s|
  {
    EscapeLength(s);
    PrintedTailSnoc([], s);
    assert [] + [s] == [s];
  }

  /** A private attribute set by a slash name hides another attribute instead. */
  lemma SetPrivateSlashName()
    ensures
      var refs := AfterSet(Fresh("user"), "/a", V.Null, true).privates;
      ["/a"] !in refs && ["a"] in refs
  {
    ValidSlash();
    PrivateByName("/a");
  }

  lemma ValidSlash()
    ensures Components("/a") == Some(["a"])
  {
    PrintedTailSnoc([], "a");
    assert [] + ["a"] == ["a"];
    assert PathReference(["a"]) == "/a";
    PrintThenParse(["a"]);
  }

  // ----- Builders

  class AttributesBuilder {
    var key: string
    var name: string
    var anonymous: bool
    var values: map<string, Value>
    var privates: RefSet

    /** The attributes that would be built now. */
    function Draft(): Attributes
      reads this
    {
      Attributes(key, name, anonymous, values, privates)
    }

    predicate Valid()
      reads this
    {
      AttributesMade(Draft())
    }

    constructor (key: string)
      ensures Valid() && Draft() == Fresh(key)
    {
      this.key, name, anonymous, values, privates := key, "", false, map[], map[];
    }

    method SetKey(key: string)
      requires Valid()
      modifies this
      ensures Valid() && Draft() == old(Draft()).(key := key)
    {
      this.key := key;
    }

    method SetName(name: string)
      requires Valid()
      modifies this
      ensures Valid() && Draft() == old(Draft()).(name := name)
    {
      this.name := name;
    }

    method SetAnonymous(anonymous: bool)
      requires Valid()
      modifies this
      ensures Valid() && Draft() == old(Draft()).(anonymous := anonymous)
    {
      this.anonymous := anonymous;
    }

    method Set(name: string, value: Value, private: bool)
      requires Valid()
      modifies this
      ensures Valid() && Draft() == AfterSet(old(Draft()), name, value, private)
    {
      hide AttributesMade, Insert, FromReference, FromLiteral;
      AfterSetMade(Draft(), name, value, private);
      if Protected(name) { return; }
      if name == "anonymous" {
        if !value.Bool? { return; }
        anonymous := value.b;
      } else if name == "name" {
        if !value.String? { return; }
        this.name := value.s;
      } else {
        values := values[name := value];
      }
      if private {
        var ref := MakeReference(name, false);
        privates := Insert(privates, ref);
      }
    }

    method AddPrivateAttribute(ref: Reference)
      requires Valid() && Made(ref)
      modifies this
      ensures Valid() && Draft() == old(Draft()).(privates := Insert(old(privates), ref))
    {
      InsertMade(privates, ref);
      privates := Insert(privates, ref);
    }
  }

  // ----- Contexts

  datatype Context = Invalid | Context(kinds: map<string, Attributes>)

  predicate KindChar(c: char) {
    c == '.' || c == '-' || c == '_' || '0' <= c <= '9' || 'A' <= c <= 'Z' || 'a' <= c <= 'z'
  }

  predicate ValidKind(kind: string) {
    kind != "" && kind != "multi" && kind != "kind" && forall i :: 0 <= i < |kind| ==> KindChar(kind[i])
  }

  const UPPER_CASE: string := "ABCDEFGHIJKLMNOPQRSTUVWXYZ"
  const LOWER_CASE: string := "abcdefghijklmnopqrstuvwxyz"
  const DIGITS_AND_MARKS: string := "0123456789.-_"

  lemma UpperCaseAt(i: nat)
    requires i < 26
    ensures UPPER_CASE[i] as int == 'A' as int + i
  {
  }

  lemma LowerCaseAt(i: nat)
    requires i < 26
    ensures LOWER_CASE[i] as int == 'a' as int + i
  {
  }

  lemma MarkAt(i: nat)
    requires i < 13
    ensures DIGITS_AND_MARKS[i] as int == if i < 10 then '0' as int + i else if i == 10 then '.' as int else if i == 11 then '-' as int else '_' as int
  {
  }

  /** The characters of kinds are the letters, the digits, dot, hyphen and underscore. */
  lemma KindAlphabet(c: char)
    ensures KindChar(c) <==> c in UPPER_CASE || c in LOWER_CASE || c in DIGITS_AND_MARKS
  {
    if 'A' <= c <= 'Z' { UpperCaseAt(c as int - 'A' as int); }
    else if 'a' <= c <= 'z' { LowerCaseAt(c as int - 'a' as int); }
    else if KindChar(c) {
      MarkAt(if c == '.' then 10 else if c == '-' then 11 else if c == '_' then 12 else c as int - '0' as int);
    } else {
      NotInAlphabet(c);
    }
  }

  lemma NotInAlphabet(c: char)
    requires !KindChar(c)
    ensures c !in UPPER_CASE && c !in LOWER_CASE && c !in DIGITS_AND_MARKS
  {
    forall i | 0 <= i < 26 ensures UPPER_CASE[i] != c && LOWER_CASE[i] != c {
      UpperCaseAt(i);
      LowerCaseAt(i);
    }
    forall i | 0 <= i < 13 ensures DIGITS_AND_MARKS[i] != c { MarkAt(i); }
  }

  predicate Buildable(drafts: map<string, Attributes>) {
    drafts != map[] && forall k :: k in drafts ==> ValidKind(k) && drafts[k].key != ""
  }

  function Built(drafts: map<string, Attributes>): Context {
    if Buildable(drafts) then Context(drafts) else Invalid
  }

  /** What builders make: at least one kind, only valid kinds, keys that are not empty, and no reserved names
      among the custom attributes. */
  predicate ContextMade(c: Context) {
    c.Context? && Buildable(c.kinds) && forall k :: k in c.kinds ==> AttributesMade(c.kinds[k])
  }

  lemma IsContext(c: Context)
    requires ContextMade(c)
    ensures c.Context? && c.kinds != map[]
  {
    hide ValidKind, AttributesMade;
  }

  lemma MadeKind(kinds: map<string, Attributes>, kind: string)
    requires ContextMade(Context.Context(kinds)) && kind in kinds
    ensures AttributesMade(kinds[kind]) && ValidKind(kind) && kind != "kind" && kind != "multi" && kinds[kind].key != ""
  {
    hide AttributesMade;
  }

  lemma OneKind(kinds: map<string, Attributes>, kind: string)
    requires |kinds| == 1 && kind in kinds
    ensures kinds.Keys == {kind}
  {
    assert |kinds.Keys - {kind}| == 0;
  }

  /** The attributes of a kind once it is asked for with a key. */
  function Started(drafts: map<string, Attributes>, kind: string, key: string): Attributes {
    if kind in drafts then drafts[kind].(key := key) else Fresh(key)
  }

  /** Asking for a kind sets its key. A kind asked for before keeps everything else; a new one has no name, is not anonymous
      and holds nothing. */
  lemma StartedKeepsTheRest(drafts: map<string, Attributes>, kind: string, key: string)
    ensures
      var a := Started(drafts, kind, key);
      && a.key == key
      && if kind in drafts then
           a.name == drafts[kind].name && a.anonymous == drafts[kind].anonymous
           && a.custom == drafts[kind].custom && a.privates == drafts[kind].privates
         else a.name == "" && !a.anonymous && a.custom == map[] && a.privates == map[]
  {
  }

  class ContextBuilder {
    var builders: map<string, AttributesBuilder>

    ghost predicate Valid()
      reads this, builders.Values
    {
      && (forall k :: k in builders ==> builders[k].Valid())
      && (forall k, l :: k in builders && l in builders && k != l ==> builders[k] != builders[l])
    }

    ghost function Drafts(): map<string, Attributes>
      reads this, builders.Values
    {
      map k | k in builders :: builders[k].Draft()
    }

    /** Changing the builder of one kind changes the draft of that kind only. */
    twostate lemma OneChanged(kind: string)
      requires old(Valid()) && kind in builders && builders == old(builders) && builders[kind].Valid()
      requires forall k :: k in builders && k != kind ==> unchanged(builders[k])
      ensures Valid() && Drafts() == old(Drafts())[kind := builders[kind].Draft()]
    {
      hide AttributesMade;
    }

    constructor ()
      ensures Valid() && builders == map[]
    {
      builders := map[];
    }

    /** The builder of a kind, made now or found with its key replaced. */
    method Kind(kind: string, key: string) returns (b: AttributesBuilder)
      requires Valid()
      modifies this, builders.Values
      ensures Valid() && kind in builders && b == builders[kind]
      ensures if kind in old(builders) then builders == old(builders) else fresh(b) && builders == old(builders)[kind := b]
      ensures b.Valid() && forall k :: k in builders && k != kind ==> builders[k] != b
      ensures b.Draft() == Started(old(Drafts()), kind, key)
      ensures Drafts() == old(Drafts())[kind := Started(old(Drafts()), kind, key)]
    {
      hide AttributesMade, Fresh;
      if kind in builders {
        b := builders[kind];
        b.SetKey(key);
      } else {
        b := AddKind(kind, key);
      }
    }

    method AddKind(kind: string, key: string) returns (b: AttributesBuilder)
      requires Valid() && kind !in builders
      modifies this
      ensures Valid() && fresh(b) && b.Draft() == Fresh(key) && builders == old(builders)[kind := b]
      ensures Drafts() == old(Drafts())[kind := Fresh(key)]
    {
      hide AttributesMade, Fresh;
      b := new AttributesBuilder(key);
      builders := builders[kind := b];
    }

    method Build() returns (c: Context)
      requires Valid()
      ensures c == Built(Drafts())
      ensures c.Context? ==> ContextMade(c)
    {
      hide AttributesMade, ValidKind;
      var valid, left := builders != map[], builders.Keys;
      while left != {}
        invariant left <= builders.Keys
        invariant valid <==> builders != map[] && forall k :: k in builders && k !in left ==> ValidKind(k) && builders[k].key != ""
        decreases left
      {
        var k :| k in left;
        if !ValidKind(k) || builders[k].key == "" { valid := false; }
        left := left - {k};
      }
      var kinds := map k | k in builders :: builders[k].Draft();
      assert kinds.Keys == builders.Keys && (kinds == map[] <==> builders == map[]);
      if !valid {
        assert !Buildable(kinds);
        return Invalid;
      }
      return Context(kinds);
    }
  }
}
