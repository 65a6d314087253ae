/** Attribute references: the reference parser, the two printers and how they undo each other.
    Models libs/common/src/attribute_reference.cpp. */
module AttributeReferences {
  import opened Wrappers

  const NUL: char := '\0'

  ghost predicate NulFree(s: string) { NUL !in s }

  datatype ParseState = Begin | Plain | TokenBegin | SearchingEnd | EscapeBegin | RefEnd

  datatype ParseEvent = Noop | Char | Tilde | ForwardSlash | TokenEnd | InputEnd | Error

  /** One transition of the reference state machine. */
  function ParseChar(state: ParseState, input: char): (ParseState, ParseEvent) {
    match state
    case Begin =>
      if input == '/' then (TokenBegin, Noop)
      else if input == NUL then (RefEnd, Error)
      else (Plain, Char)
    case Plain =>
      if input == NUL then (RefEnd, InputEnd) else (Plain, Char)
    case TokenBegin =>
      if input == NUL || input == '/' then (RefEnd, Error)
      else if input == '~' then (EscapeBegin, Noop)
      else (SearchingEnd, Char)
    case SearchingEnd =>
      if input == NUL then (RefEnd, InputEnd)
      else if input == '~' then (EscapeBegin, Noop)
      else if input == '/' then (TokenBegin, TokenEnd)
      else (SearchingEnd, Char)
    case EscapeBegin =>
      if input == '0' then (SearchingEnd, Tilde)
      else if input == '1' then (SearchingEnd, ForwardSlash)
      else (RefEnd, Error)
    case RefEnd => (RefEnd, Noop)
  }

  /** The token being read, after an event. */
  function NextToken(token: string, event: ParseEvent, input: char): string {
    match event
    case Char => token + [input]
    case Tilde => token + ['~']
    case ForwardSlash => token + ['/']
    case _ => token
  }

  /** What the parser makes of the unread suffix `rest`, given what it has read so far. */
  function ParseRest(rest: string, state: ParseState, token: string, components: seq<string>): Option<seq<string>>
    decreases |rest|
  {
    var input := if rest == "" then NUL else rest[0];
    var (next, event) := ParseChar(state, input);
    if event == InputEnd then Some(components + [token])
    else if event == Error || rest == "" then None
    else if event == TokenEnd then ParseRest(rest[1..], next, "", components + [token])
    else ParseRest(rest[1..], next, NextToken(token, event, input), components)
  }

  /** The components of a reference string, or None when the string is not a valid reference. */
  function Components(str: string): Option<seq<string>> {
    ParseRest(str, Begin, "", [])
  }

  /** The single-pass parser; the final round feeds a NUL to end the last token. */
  method ParseRef(str: string) returns (valid: bool, components: seq<string>)
    ensures valid <==> Components(str).Some?
    ensures valid ==> Components(str) == Some(components)
  {
    var state, token := Begin, "";
    components := [];
    var index := 0;
    while index <= |str|
      invariant 0 <= index <= |str| + 1
      invariant index <= |str| ==> Components(str) == ParseRest(str[index..], state, token, components)
      invariant index == |str| + 1 ==> Components(str) == None
    {
      var character := if index < |str| then str[index] else NUL;
      var (next, event) := ParseChar(state, character);
      state := next;
      index := index + 1;
      match event {
        case Noop =>
        case Char | ForwardSlash | Tilde => token := NextToken(token, event, character);
        case TokenEnd => components, token := components + [token], "";
        case InputEnd =>
          components := components + [token];
          return true, components;
        case Error => return false, components;
      }
    }
    return false, components;
  }

  /** A string as the C string functions see it: cut at the first NUL. */
  function CString(s: string): (r: string)
    ensures NulFree(r) && r <= s
    ensures NulFree(s) ==> r == s
  {
    if s == "" || s[0] == NUL then "" else [s[0]] + CString(s[1..])
  }

  /** Nothing is lost but the first NUL and what follows it. */
  lemma {:induction false} CutAtFirstNul(s: string)
    ensures CString(s) == s || s[|CString(s)|] == NUL
  {
    if s != "" && s[0] != NUL { CutAtFirstNul(s[1..]); }
  }

  function EscapeChar(c: char): string {
    if c == '~' then "~0" else if c == '/' then "~1" else [c]
  }

  function Escape(s: string): string {
    if s == "" then "" else EscapeChar(s[0]) + Escape(s[1..])
  }

  method EscapeLiteral(literal: string, prependSlash: bool) returns (escaped: string)
    ensures escaped == (if prependSlash then "/" else "") + Escape(literal)
  {
    escaped := if prependSlash then "/" else "";
    ghost var prefix := escaped;
    for i := 0 to |literal|
      invariant escaped + Escape(literal[i..]) == prefix + Escape(literal)
    {
      assert literal[i..] == [literal[i]] + literal[i + 1..];
      assert (escaped + EscapeChar(literal[i])) + Escape(literal[i + 1..]) == escaped + Escape(literal[i..]);
      escaped := escaped + EscapeChar(literal[i]);
    }
  }

  predicate NeedsEscape(component: string) { '/' in component || '~' in component }

  /** One component as printed: only a component with special characters goes through a C string. */
  function Printed(component: string): string {
    if NeedsEscape(component) then Escape(CString(component)) else component
  }

  function PrintedTail(path: seq<string>): string {
    if path == [] then "" else "/" + Printed(path[0]) + PrintedTail(path[1..])
  }

  function PathReference(path: seq<string>): string {
    if path == [] then "/" else PrintedTail(path)
  }

  lemma PathReferenceSnoc(path: seq<string>, last: string)
    ensures PathReference(path + [last]) == (if path == [] then "/" else PathReference(path) + "/") + Printed(last)
  {
    PrintedTailSnoc(path, last);
    assert "" + "/" == "/";
  }

  method PrintComponent(component: string) returns (part: string)
    ensures part == Printed(component)
  {
    hide Escape;
    if NeedsEscape(component) {
      part := EscapeLiteral(CString(component), false);
      assert "" + Escape(CString(component)) == Escape(CString(component));
    } else {
      part := component;
    }
  }

  method PathToStringReference(path: seq<string>) returns (name: string)
    ensures name == PathReference(path)
  {
    assert path[..0] == [] && PathReference([]) == "/";
    hide PathReference, Printed;
    name := "/";
    var first := true;
    for i := 0 to |path|
      invariant first <==> i == 0
      invariant name == PathReference(path[..i])
    {
      PathReferenceSnoc(path[..i], path[i]);
      assert path[..i + 1] == path[..i] + [path[i]];
      if first { first := false; } else { name := name + "/"; }
      var part := PrintComponent(path[i]);
      name := name + part;
    }
    assert path[..|path|] == path;
  }

  datatype Reference = Reference(valid: bool, redactionName: string, components: seq<string>) {
    predicate Matches(path: seq<string>) { valid && components == path }
  }

  function FromLiteral(str: string): Reference {
    if str == "" then Reference(false, "", [])
    else Reference(true, if str[0] == '/' then "/" + Escape(str) else str, [str])
  }

  function FromReference(str: string): Reference {
    match Components(str)
    case Some(components) => Reference(true, str, components)
    case None => Reference(false, str, [])
  }

  /** The constructor behind both factories. */
  method MakeReference(str: string, literal: bool) returns (ref: Reference)
    ensures ref == if literal then FromLiteral(str) else FromReference(str)
  {
    if str == "" { return Reference(false, "", []); }
    if literal {
      var name := str;
      if str[0] == '/' { name := EscapeLiteral(str, true); }
      return Reference(true, name, [str]);
    }
    var valid, components := ParseRef(str);
    return Reference(valid, str, if valid then components else []);
  }

  // ----- Print then parse

  ghost predicate ValidPath(path: seq<string>) {
    path != [] && forall i :: 0 <= i < |path| ==> path[i] != "" && NulFree(path[i])
  }

  lemma {:induction false} EscapeIdentity(s: string)
    requires !NeedsEscape(s)
    ensures Escape(s) == s
  {
    if s != "" { EscapeIdentity(s[1..]); }
  }

  lemma PrintedIsEscape(component: string)
    requires NulFree(component)
    ensures Printed(component) == Escape(component)
  {
    if !NeedsEscape(component) { EscapeIdentity(component); }
  }

  lemma ParseEscapedChar(c: char, tail: string, state: ParseState, token: string, components: seq<string>)
    requires state == SearchingEnd || state == TokenBegin
    requires c != NUL
    ensures ParseRest(EscapeChar(c) + tail, state, token, components)
         == ParseRest(tail, SearchingEnd, token + [c], components)
  {
    var piece := EscapeChar(c);
    if |piece| == 1 {
      assert (piece + tail)[1..] == tail;
    } else {
      assert (piece + tail)[1..] == [piece[1]] + tail;
      assert ([piece[1]] + tail)[1..] == tail;
    }
  }

  /** Reading an escaped component adds exactly that component to the current token. */
  lemma {:induction false} ParseEscaped(s: string, rest: string, state: ParseState, token: string, components: seq<string>)
    requires state == SearchingEnd || (state == TokenBegin && s != "")
    requires NulFree(s)
    ensures ParseRest(Escape(s) + rest, state, token, components)
         == ParseRest(rest, SearchingEnd, token + s, components)
  {
    if s == "" {
      assert Escape(s) + rest == rest && token + s == token;
    } else {
      assert Escape(s) + rest == EscapeChar(s[0]) + (Escape(s[1..]) + rest);
      ParseEscapedChar(s[0], Escape(s[1..]) + rest, state, token, components);
      ParseEscaped(s[1..], rest, SearchingEnd, token + [s[0]], components);
      assert token + [s[0]] + s[1..] == token + s;
    }
  }

  lemma AfterSlash(path: seq<string>)
    requires path != []
    ensures PrintedTail(path) != "" && PrintedTail(path)[1..] == Printed(path[0]) + PrintedTail(path[1..])
  {
    hide Printed;
    var printed, rest := Printed(path[0]), PrintedTail(path[1..]);
    assert "/" + printed + rest == "/" + (printed + rest);
  }

  lemma ParsePrintedComponent(path: seq<string>, components: seq<string>)
    requires ValidPath(path)
    ensures ParseRest(PrintedTail(path)[1..], TokenBegin, "", components)
         == ParseRest(PrintedTail(path[1..]), SearchingEnd, path[0], components)
  {
    hide ParseRest, Printed, Escape, PrintedTail;
    PrintedIsEscape(path[0]);
    AfterSlash(path);
    ParseEscaped(path[0], PrintedTail(path[1..]), TokenBegin, "", components);
    assert "" + path[0] == path[0];
  }

  lemma {:induction false} ParsePrintedTail(path: seq<string>, components: seq<string>)
    requires ValidPath(path)
    ensures ParseRest(PrintedTail(path)[1..], TokenBegin, "", components) == Some(components + path)
  {
    hide Printed;
    ParsePrintedComponent(path, components);
    assert components + path == components + [path[0]] + path[1..];
    if |path| == 1 {
      assert components + [path[0]] + path[1..] == components + [path[0]];
    } else {
      ParsePrintedTail(path[1..], components + [path[0]]);
    }
  }

  /** Parsing the printed form of any path gives the path back. */
  lemma PrintThenParse(path: seq<string>)
    requires ValidPath(path)
    ensures Components(PathReference(path)) == Some(path)
  {
    ParsePrintedTail(path, []);
    assert [] + path == path;
  }

  // ----- Parse then print

  lemma {:induction false} PrintedTailSnoc(path: seq<string>, last: string)
    ensures PrintedTail(path + [last]) == PrintedTail(path) + "/" + Printed(last)
  {
    if path == [] {
      assert path + [last] == [last];
    } else {
      assert (path + [last])[1..] == path[1..] + [last];
      PrintedTailSnoc(path[1..], last);
    }
  }

  lemma {:induction false} EscapeSnoc(s: string, c: char)
    ensures Escape(s + [c]) == Escape(s) + EscapeChar(c)
  {
    if s == "" {
      assert s + [c] == [c];
    } else {
      assert (s + [c])[1..] == s[1..] + [c];
      EscapeSnoc(s[1..], c);
    }
  }

  /** What the parser can hold while inside a slash reference. */
  ghost predicate MidParse(state: ParseState, token: string, components: seq<string>) {
    && (state == TokenBegin || state == SearchingEnd || state == EscapeBegin)
    && (state == TokenBegin ==> token == "")
    && (state == SearchingEnd ==> token != "")
    && NulFree(token)
    && (components == [] || ValidPath(components))
  }

  /** The part of the reference already read, as it prints. */
  ghost function ReadSoFar(state: ParseState, token: string, components: seq<string>): string {
    var read := PrintedTail(components) + "/" + Escape(token);
    if state == EscapeBegin then read + "~" else read
  }

  lemma ReadTokenEnd(token: string, components: seq<string>)
    requires NulFree(token)
    ensures PrintedTail(components + [token]) == ReadSoFar(SearchingEnd, token, components)
    ensures ReadSoFar(TokenBegin, "", components + [token]) == ReadSoFar(SearchingEnd, token, components) + "/"
  {
    PrintedIsEscape(token);
    PrintedTailSnoc(components, token);
    var read := ReadSoFar(SearchingEnd, token, components);
    assert read + "/" + "" == read + "/";
  }

  lemma ReadChar(token: string, components: seq<string>, c: char)
    ensures ReadSoFar(SearchingEnd, token + [c], components)
         == ReadSoFar(SearchingEnd, token, components) + EscapeChar(c)
  {
    EscapeSnoc(token, c);
    var printed := PrintedTail(components) + "/";
    assert printed + (Escape(token) + EscapeChar(c)) == printed + Escape(token) + EscapeChar(c);
  }

  lemma ReadOneMore(state: ParseState, token: string, components: seq<string>, input: char)
    requires MidParse(state, token, components)
    requires ParseChar(state, input).1 !in {InputEnd, Error, TokenEnd}
    ensures
      var (next, event) := ParseChar(state, input);
      && MidParse(next, NextToken(token, event, input), components)
      && ReadSoFar(next, NextToken(token, event, input), components) == ReadSoFar(state, token, components) + [input]
  {
    var (next, event) := ParseChar(state, input);
    if event != Noop {
      var c := NextToken(token, event, input)[|token|];
      ReadChar(token, components, c);
      var read := ReadSoFar(SearchingEnd, token, components);
      if event != Char { assert read + EscapeChar(c) == read + "~" + [input]; }
    }
  }

  lemma {:induction false} ParsedIsValid(rest: string, state: ParseState, token: string, components: seq<string>)
    requires MidParse(state, token, components)
    requires ParseRest(rest, state, token, components).Some?
    ensures ValidPath(ParseRest(rest, state, token, components).value)
    decreases |rest|
  {
    var input := if rest == "" then NUL else rest[0];
    var (next, event) := ParseChar(state, input);
    if event == TokenEnd {
      ParsedIsValid(rest[1..], next, "", components + [token]);
    } else if event != InputEnd {
      ReadOneMore(state, token, components, input);
      ParsedIsValid(rest[1..], next, NextToken(token, event, input), components);
    }
  }

  lemma {:induction false} ParseThenPrintRest(rest: string, state: ParseState, token: string, components: seq<string>)
    requires MidParse(state, token, components) && NulFree(rest)
    requires ParseRest(rest, state, token, components).Some?
    ensures PrintedTail(ParseRest(rest, state, token, components).value) == ReadSoFar(state, token, components) + rest
    decreases |rest|
  {
    hide PrintedTail, ReadSoFar, Escape;
    var read := ReadSoFar(state, token, components);
    if rest == "" {
      ReadTokenEnd(token, components);
      assert read + rest == read;
    } else {
      var (next, event) := ParseChar(state, rest[0]);
      assert read + [rest[0]] + rest[1..] == read + rest;
      if event == TokenEnd {
        ReadTokenEnd(token, components);
        ParseThenPrintRest(rest[1..], next, "", components + [token]);
      } else {
        ReadOneMore(state, token, components, rest[0]);
        ParseThenPrintRest(rest[1..], next, NextToken(token, event, rest[0]), components);
      }
    }
  }

  lemma {:induction false} PrintedNulFree(path: seq<string>)
    requires forall i :: 0 <= i < |path| ==> NulFree(path[i])
    ensures NulFree(PrintedTail(path))
  {
    if path != [] {
      EscapeNulFree(CString(path[0]));
      PrintedNulFree(path[1..]);
    }
  }

  lemma {:induction false} EscapeNulFree(s: string)
    requires NulFree(s)
    ensures NulFree(Escape(s))
  {
    if s != "" { EscapeNulFree(s[1..]); }
  }

  /** A slash reference that parses is the printed form of its components exactly when it is NUL-free. */
  lemma ParseThenPrint(str: string)
    requires str != "" && str[0] == '/' && Components(str).Some?
    ensures ValidPath(Components(str).value)
    ensures PathReference(Components(str).value) == str <==> NulFree(str)
  {
    ParsedIsValid(str[1..], TokenBegin, "", []);
    if NulFree(str) {
      ParseThenPrintRest(str[1..], TokenBegin, "", []);
      assert ReadSoFar(TokenBegin, "", []) == "/";
      assert "/" + str[1..] == str;
    } else {
      PrintedNulFree(Components(str).value);
    }
  }

  /** Slash references are valid exactly when some path prints to them. */
  lemma ValidSlashReference(str: string)
    requires str != "" && str[0] == '/' && NulFree(str)
    ensures Components(str).Some? <==> exists path :: ValidPath(path) && PathReference(path) == str
  {
    if Components(str).Some? {
      ParseThenPrint(str);
    }
    forall path | ValidPath(path) && PathReference(path) == str
      ensures Components(str).Some?
    {
      PrintThenParse(path);
    }
  }

  // ----- Redaction names of literals

  lemma {:induction false} ParsePlain(rest: string, token: string)
    ensures ParseRest(rest, Plain, token, []) == Some([token + CString(rest)])
    decreases |rest|
  {
    if rest != "" && rest[0] != NUL {
      ParsePlain(rest[1..], token + [rest[0]]);
      assert token + [rest[0]] + CString(rest[1..]) == token + CString(rest);
    } else {
      assert token + CString(rest) == token;
      assert [] + [token] == [token];
    }
  }

  lemma ParsePlainReference(str: string)
    requires str != "" && str[0] != '/' && str[0] != NUL
    ensures Components(str) == Some([CString(str)])
  {
    ParsePlain(str[1..], "" + [str[0]]);
    assert "" + [str[0]] == [str[0]];
  }

  /** The redaction name of a literal parses back to that literal exactly when it is NUL-free. */
  lemma LiteralRedactionName(literal: string)
    requires literal != ""
    ensures Components(FromLiteral(literal).redactionName) == Some([literal]) <==> NulFree(literal)
  {
    if literal[0] == '/' {
      SlashLiteralName(literal);
    } else if literal[0] != NUL {
      ParsePlainReference(literal);
    }
  }

  lemma SlashLiteralName(literal: string)
    requires literal != "" && literal[0] == '/'
    ensures Components("/" + Escape(literal)) == Some([literal]) <==> NulFree(literal)
  {
    var name := "/" + Escape(literal);
    if NulFree(literal) {
      PrintedIsEscape(literal);
      PrintedTailSnoc([], literal);
      assert [] + [literal] == [literal];
      assert "" + "/" + Escape(literal) == name;
      PrintThenParse([literal]);
    } else if Components(name).Some? {
      ParsedIsValid(name[1..], TokenBegin, "", []);
      assert NulFree(Components(name).value[0]);
    }
  }

  // ----- References

  /** The printed form of a path is a valid reference to it. */
  lemma PathIsReferredTo(path: seq<string>)
    requires ValidPath(path)
    ensures FromReference(PathReference(path)) == Reference(true, PathReference(path), path)
  {
    PrintThenParse(path);
  }

  /** Which strings are valid references: none that is empty; a plain name, to itself; a slash reference, when some path
      prints to it. Invalid ones have no components. */
  lemma ValidReferences(str: string)
    requires NulFree(str)
    ensures str == "" ==> !FromReference(str).valid
    ensures str != "" && str[0] != '/' ==> FromReference(str) == Reference(true, str, [str])
    ensures str != "" && str[0] == '/' ==> (FromReference(str).valid <==> exists path :: ValidPath(path) && PathReference(path) == str)
    ensures !FromReference(str).valid ==> FromReference(str).components == []
  {
    if str != "" {
      if str[0] == '/' { ValidSlashReference(str); } else { ParsePlainReference(str); }
    }
  }
}
