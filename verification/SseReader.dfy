/** The server-sent events reader: chunks to lines to events.
    Models the reader of libs/server-sent-events/src/parser.hpp and libs/server-sent-events/src/parser.cpp. */
module SseReader {
  import opened Wrappers
  import opened SseLines

  /** An event under construction, and an event as delivered to the receiver. */
  datatype Event = Event(eventType: string, data: string, id: Option<string>)

  function AppendData(e: Event, input: string): Event { e.(data := e.data + input + [LF]) }

  function TrimTrailingNewline(e: Event): Event {
    if e.data != "" && e.data[|e.data| - 1] == LF then e.(data := e.data[..|e.data| - 1]) else e
  }

  datatype Events = Events(open: Option<Event>, lastId: Option<string>, delivered: seq<Event>)

  function IndexOf(s: string, c: char): (i: nat)
    ensures i <= |s|
    ensures i < |s| ==> s[i] == c
    ensures c !in s[..i]
  {
    if s == "" || s[0] == c then 0 else 1 + IndexOf(s[1..], c)
  }

  /** Splits a non-empty line into field name and value; a leading colon makes a comment. */
  function ParseField(line: string): (string, string)
    requires line != ""
  {
    var colon := IndexOf(line, ':');
    if colon == 0 then ("comment", line[1..])
    else if colon == |line| then (line, "")
    else
      var value := line[colon + 1..];
      (line[..colon], if value != "" && value[0] == ' ' then value[1..] else value)
  }

  /** A field other than a comment, applied to the open event. */
  function ApplyField(s: Events, name: string, value: string): Events {
    var e := if s.open.Some? then s.open.value else Event("message", "", s.lastId);
    if name == "event" then s.(open := Some(e.(eventType := value)))
    else if name == "data" then s.(open := Some(AppendData(e, value)))
    else if name == "id" && '\0' !in value then s.(open := Some(e.(id := Some(value))), lastId := Some(value))
    else s.(open := Some(e))
  }

  function Dispatch(s: Events): Events
    requires s.open.Some?
  {
    s.(open := None, delivered := s.delivered + [TrimTrailingNewline(s.open.value)])
  }

  function ProcessLine(s: Events, line: string): Events {
    if line == "" then if s.open.Some? then Dispatch(s) else s
    else
      var (name, value) := ParseField(line);
      if name == "comment" then s.(delivered := s.delivered + [Event("comment", value, None)])
      else ApplyField(s, name, value)
  }

  function Process(s: Events, lines: seq<string>): Events
    decreases lines
  {
    if lines == [] then s else Process(ProcessLine(s, lines[0]), lines[1..])
  }

  datatype State = State(lines: Lines, events: Events)

  const INITIAL: State := State(START, Events(None, None, []))

  /** One `put`: split the chunk into lines, then drain the complete ones. */
  function Put(s: State, chunk: string): State {
    var fed := Feed(s.lines, chunk);
    State(fed.(complete := []), Process(s.events, fed.complete))
  }

  function PutAll(s: State, chunks: seq<string>): State
    decreases chunks
  {
    if chunks == [] then s else PutAll(Put(s, chunks[0]), chunks[1..])
  }

  function Concat(chunks: seq<string>): string {
    if chunks == [] then "" else chunks[0] + Concat(chunks[1..])
  }

  /** The parser object. `delivered` is what the receiver has been called with. */
  class Reader {
    var bufferedLine: Option<string>
    var completeLines: seq<string>
    var beginCR: bool
    var event: Option<Event>
    var lastEventId: Option<string>
    var delivered: seq<Event>

    constructor ()
      ensures View() == INITIAL
    {
      bufferedLine, completeLines, beginCR := None, [], false;
      event, lastEventId, delivered := None, None, [];
    }

    ghost function LineView(): Lines
      reads this
    {
      Lines(bufferedLine, completeLines, beginCR)
    }

    ghost function EventView(): Events
      reads this
    {
      Events(event, lastEventId, delivered)
    }

    ghost function View(): State
      reads this
    {
      State(LineView(), EventView())
    }

    method CompleteLine()
      modifies this`bufferedLine, this`completeLines
      ensures bufferedLine == None
      ensures completeLines == old(completeLines) + (if old(bufferedLine).Some? then [old(bufferedLine).value] else [])
    {
      if bufferedLine.Some? {
        completeLines := completeLines + [bufferedLine.value];
        bufferedLine := None;
      }
    }

    /** Moves text up to the first line terminator into the buffered line, which then exists. */
    method AppendUpTo(body: string) returns (n: nat)
      modifies this`bufferedLine
      ensures n <= |body| && BreakFree(body[..n]) && (n < |body| ==> IsBreak(body[n]))
      ensures bufferedLine == Some(old(LineView().Partial()) + body[..n])
    {
      n := 0;
      while n < |body| && !IsBreak(body[n])
        invariant n <= |body| && BreakFree(body[..n])
      {
        n := n + 1;
      }
      bufferedLine := Some((if bufferedLine.Some? then bufferedLine.value else "") + body[..n]);
    }

    method ParseStream(body: string)
      modifies this`bufferedLine, this`completeLines, this`beginCR
      ensures LineView() == Feed(old(LineView()), body)
    {
      hide Feed;
      ghost var start := LineView();
      FeedNothing(start, body);
      var i := 0;
      while i < |body|
        invariant 0 <= i <= |body|
        invariant LineView() == Feed(start, body[..i])
        decreases |body| - i
      {
        ghost var before := LineView();
        var n := AppendUpTo(body[i..]);
        FeedSpan(start, body, i, n);
        assert n == 0 ==> before.Partial() + body[i..][..n] == before.Partial();
        i := i + n;
        if i == |body| { break; }
        FeedNext(start, body, i);
        if body[i] == CR {
          CompleteLine();
          beginCR := true;
        } else if beginCR {
          beginCR := false;
        } else {
          CompleteLine();
        }
        i := i + 1;
      }
    }

    method ParseEvents()
      modifies this`completeLines, this`event, this`lastEventId, this`delivered
      ensures completeLines == []
      ensures EventView() == Process(old(EventView()), old(completeLines))
    {
      ghost var final := Process(EventView(), completeLines);
      while true
        invariant Process(EventView(), completeLines) == final
        decreases |completeLines|
      {
        var seenEmptyLine := false;
        ghost var pending := |completeLines|;
        while completeLines != []
          invariant !seenEmptyLine && |completeLines| <= pending
          invariant Process(EventView(), completeLines) == final
          decreases |completeLines|
        {
          var line := completeLines[0];
          ghost var now := EventView();
          completeLines := completeLines[1..];
          if line == "" {
            if event.Some? {
              seenEmptyLine := true;
              break;
            }
            continue;
          }
          var (name, value) := ParseField(line);
          if name == "comment" {
            delivered := delivered + [Event("comment", value, None)];
            continue;
          }
          if event.None? { event := Some(Event("message", "", lastEventId)); }
          if name == "event" {
            event := Some(event.value.(eventType := value));
          } else if name == "data" {
            event := Some(AppendData(event.value, value));
          } else if name == "id" {
            if '\0' in value {
              assert EventView() == ProcessLine(now, line);
              continue;
            }
            lastEventId := Some(value);
            event := Some(event.value.(id := lastEventId));
          }
          assert EventView() == ProcessLine(now, line);
        }
        if seenEmptyLine {
          delivered := delivered + [TrimTrailingNewline(event.value)];
          event := None;
          continue;
        }
        break;
      }
    }

    method PutChunk(data: string)
      requires completeLines == []
      modifies this
      ensures completeLines == []
      ensures View() == Put(old(View()), data)
    {
      ParseStream(data);
      ParseEvents();
    }
  }

  // ----- Chunking does not matter

  lemma {:induction false} ProcessAppend(s: Events, a: seq<string>, b: seq<string>)
    ensures Process(s, a + b) == Process(Process(s, a), b)
    decreases a
  {
    if a == [] {
      assert a + b == b;
    } else {
      assert (a + b)[1..] == a[1..] + b;
      ProcessAppend(ProcessLine(s, a[0]), a[1..], b);
    }
  }

  lemma PutAppend(s: State, a: string, b: string)
    requires s.lines.complete == []
    ensures Put(s, a + b) == Put(Put(s, a), b)
  {
    FeedAppend(s.lines, a, b);
    var mid := Feed(s.lines, a);
    FeedComplete(mid, b);
    ProcessAppend(s.events, mid.complete, Feed(mid.(complete := []), b).complete);
  }

  /** However a byte stream is cut into chunks, the reader ends in the same state with the same deliveries. */
  lemma {:induction false} ChunkingDoesNotMatter(s: State, chunks: seq<string>)
    requires s.lines.complete == []
    ensures PutAll(s, chunks) == Put(s, Concat(chunks))
    decreases chunks
  {
    if chunks != [] {
      ChunkingDoesNotMatter(Put(s, chunks[0]), chunks[1..]);
      PutAppend(s, chunks[0], Concat(chunks[1..]));
    }
  }

  // ----- How lines spell fields, comments and blank lines

  /** With or without the optional space after the colon, or without the colon when there is no value. */
  datatype Spelling = Spaced | Tight | Bare

  datatype Item = Field(name: string, value: string, spelling: Spelling) | Comment(text: string) | Blank

  function Spelled(item: Item): string {
    match item
    case Field(name, value, Spaced) => name + ": " + value
    case Field(name, value, Tight) => name + ":" + value
    case Field(name, _, Bare) => name
    case Comment(text) => ":" + text
    case Blank => ""
  }

  /** The space may be left out unless the value starts with one, and the colon only when there is no value. */
  predicate Spellable(item: Item) {
    item.Field? ==>
      && item.name != "" && ':' !in item.name && item.name != "comment"
      && (item.spelling == Tight ==> item.value == "" || item.value[0] != ' ')
      && (item.spelling == Bare ==> item.value == "")
  }

  function SpelledLines(items: seq<Item>): seq<string> {
    if items == [] then [] else [Spelled(items[0])] + SpelledLines(items[1..])
  }

  lemma {:induction false} IndexOfFirst(name: string, c: char, rest: string)
    requires c !in name
    ensures IndexOf(name + [c] + rest, c) == |name|
  {
    if name != "" {
      assert (name + [c] + rest)[1..] == name[1..] + [c] + rest;
      IndexOfFirst(name[1..], c, rest);
    }
  }

  lemma {:induction false} IndexOfNone(s: string, c: char)
    requires c !in s
    ensures IndexOf(s, c) == |s|
  {
    if s != "" { IndexOfNone(s[1..], c); }
  }

  /** A value is what follows the colon, less one space if it starts with one. */
  lemma FieldAfterColon(name: string, rest: string)
    requires name != "" && ':' !in name
    ensures ParseField(name + ":" + rest) == (name, if rest != "" && rest[0] == ' ' then rest[1..] else rest)
  {
    var line := name + ":" + rest;
    IndexOfFirst(name, ':', rest);
    assert line == name + [':'] + rest;
    assert line[..|name|] == name && line[|name| + 1..] == rest;
  }

  /** One space after the colon is not part of the value; without it the value is all that follows. */
  lemma FieldOf(name: string, value: string)
    requires name != "" && ':' !in name
    ensures ParseField(name + ": " + value) == (name, value)
    ensures value == "" || value[0] != ' ' ==> ParseField(name + ":" + value) == (name, value)
  {
    FieldAfterColon(name, " " + value);
    FieldAfterColon(name, value);
    assert name + ":" + (" " + value) == name + ": " + value;
    assert (" " + value)[1..] == value;
  }

  /** A line without a colon is a field without a value, and one that starts with a colon is a comment. */
  lemma BareFieldOrComment(line: string)
    ensures line != "" && ':' !in line ==> ParseField(line) == (line, "")
    ensures ParseField(":" + line) == ("comment", line)
  {
    if ':' !in line { IndexOfNone(line, ':'); }
    assert (":" + line)[1..] == line;
  }

  /** A field named comment is delivered as a comment too. */
  lemma CommentByName(s: Events, value: string)
    ensures ProcessLine(s, "comment: " + value) == s.(delivered := s.delivered + [Event("comment", value, None)])
  {
    FieldOf("comment", value);
    assert "comment" + ": " + value == "comment: " + value;
  }

  // ----- What the items of a stream do

  function Step(s: Events, item: Item): Events {
    match item
    case Field(name, value, _) => ApplyField(s, name, value)
    case Comment(text) => s.(delivered := s.delivered + [Event("comment", text, None)])
    case Blank => if s.open.Some? then Dispatch(s) else s
  }

  function Steps(s: Events, items: seq<Item>): Events
    decreases items
  {
    if items == [] then s else Steps(Step(s, items[0]), items[1..])
  }

  lemma LineDoes(s: Events, item: Item)
    requires Spellable(item)
    ensures ProcessLine(s, Spelled(item)) == Step(s, item)
  {
    hide ApplyField, ParseField;
    match item {
      case Field(name, value, spelling) =>
        FieldOf(name, value);
        BareFieldOrComment(name);
      case Comment(text) => BareFieldOrComment(text);
      case Blank =>
    }
  }

  /** However its fields are spelled, a stream does what its items do. */
  lemma {:induction false} LinesDo(s: Events, items: seq<Item>)
    requires forall i :: 0 <= i < |items| ==> Spellable(items[i])
    ensures Process(s, SpelledLines(items)) == Steps(s, items)
    decreases items
  {
    hide Spellable, ProcessLine, Step;
    if items != [] {
      LineDoes(s, items[0]);
      assert SpelledLines(items)[1..] == SpelledLines(items[1..]);
      LinesDo(Step(s, items[0]), items[1..]);
    }
  }

  lemma {:induction false} StepsAppend(s: Events, a: seq<Item>, b: seq<Item>)
    ensures Steps(s, a + b) == Steps(Steps(s, a), b)
    decreases a
  {
    hide Step;
    if a == [] {
      assert a + b == b;
    } else {
      assert (a + b)[1..] == a[1..] + b;
      StepsAppend(Step(s, a[0]), a[1..], b);
    }
  }

  // ----- What any block of fields delivers

  /** The value of the last field of a name; an id that holds a NUL does not count. */
  function LastValue(fields: seq<Item>, name: string): Option<string> {
    if fields == [] then None
    else
      var last := fields[|fields| - 1];
      if last.Field? && last.name == name && (name != "id" || '\0' !in last.value) then Some(last.value)
      else LastValue(fields[..|fields| - 1], name)
  }

  /** The values of the data fields, each followed by a line feed. */
  function DataText(fields: seq<Item>): string {
    if fields == [] then ""
    else
      var last, before := fields[|fields| - 1], DataText(fields[..|fields| - 1]);
      if last.Field? && last.name == "data" then before + last.value + [LF] else before
  }

  ghost predicate AllFields(items: seq<Item>) { forall i :: 0 <= i < |items| ==> items[i].Field? }

  lemma StepsSnoc(s: Events, items: seq<Item>, last: Item)
    ensures Steps(s, items + [last]) == Step(Steps(s, items), last)
  {
    StepsAppend(s, items, [last]);
    assert [last][1..] == [];
  }

  /** The event that a block of fields builds: the last type, or message; all data; the last id, or the one
      carried from before. Fields of any other name add nothing, but open an event all the same. */
  lemma {:induction false} BlockBuilds(s: Events, fields: seq<Item>)
    requires s.open == None && AllFields(fields) && fields != []
    ensures
      var id := LastValue(fields, "id");
      var carried := if id.Some? then id else s.lastId;
      Steps(s, fields) == Events(Some(Event(LastValue(fields, "event").UnwrapOr("message"), DataText(fields), carried)),
                                 carried, s.delivered)
    decreases fields
  {
    var init, last := fields[..|fields| - 1], fields[|fields| - 1];
    assert fields == init + [last];
    StepsSnoc(s, init, last);
    if init == [] {
      assert Steps(s, init) == s;
      BlockOfOne(s, last);
      assert fields[..0] == [];
    } else {
      BlockBuilds(s, init);
      hide Steps;
    }
  }

  lemma BlockOfOne(s: Events, f: Item)
    requires s.open == None && f.Field?
    ensures
      var id := if f.name == "id" && '\0' !in f.value then Some(f.value) else s.lastId;
      Step(s, f) == Events(Some(Event(if f.name == "event" then f.value else "message",
                                      if f.name == "data" then "" + f.value + [LF] else "", id)), id, s.delivered)
  {
  }

  /** A block of fields and a blank line deliver exactly one event, whose data lines are joined by line feeds.
      A blank line without fields before it delivers nothing. */
  lemma BlockDelivers(s: Events, fields: seq<Item>)
    requires s.open == None && AllFields(fields)
    ensures fields == [] ==> Steps(s, fields + [Blank]) == s
    ensures fields != [] ==>
      var id := LastValue(fields, "id");
      var carried := if id.Some? then id else s.lastId;
      var data := DataText(fields);
      Steps(s, fields + [Blank]) == Events(None, carried,
        s.delivered + [Event(LastValue(fields, "event").UnwrapOr("message"), if data == "" then "" else data[..|data| - 1], carried)])
  {
    StepsSnoc(s, fields, Blank);
    if fields == [] {
      assert Steps(s, fields) == s;
    } else {
      BlockBuilds(s, fields);
      DataEndsLine(fields);
      hide Steps, LastValue, DataText;
    }
  }

  lemma {:induction false} DataEndsLine(fields: seq<Item>)
    ensures DataText(fields) != "" ==> DataText(fields)[|DataText(fields)| - 1] == LF
  {
    if fields != [] { DataEndsLine(fields[..|fields| - 1]); }
  }

  // ----- Comments

  /** The items without comments, and without regard to spelling. */
  function Plain(items: seq<Item>): seq<Item> {
    if items == [] then []
    else
      var rest := Plain(items[1..]);
      match items[0]
      case Comment(_) => rest
      case Field(name, value, _) => [Field(name, value, Spaced)] + rest
      case Blank => [Blank] + rest
  }

  /** Comments in the places where they stand among the events; `open` says whether a field came since the last
      blank line, so that the next one ends an event. */
  function Interleaved(open: bool, items: seq<Item>, events: seq<Event>): seq<Event>
    decreases items
  {
    if items == [] then []
    else
      match items[0]
      case Comment(text) => [Event("comment", text, None)] + Interleaved(open, items[1..], events)
      case Field(_, _, _) => Interleaved(true, items[1..], events)
      case Blank =>
        if open && events != [] then [events[0]] + Interleaved(false, items[1..], events[1..])
        else Interleaved(false, items[1..], events)
  }

  lemma StepDelivers(s: Events, item: Item)
    ensures Step(s, item) ==
            var t := Step(s.(delivered := []), item); t.(delivered := s.delivered + t.delivered)
  {
    var none: seq<Event> := [];
    assert s.delivered + [] == s.delivered;
  }

  /** What was delivered before does not matter. */
  lemma {:induction false} StepsDeliver(s: Events, items: seq<Item>)
    ensures Steps(s, items) ==
            var t := Steps(s.(delivered := []), items); t.(delivered := s.delivered + t.delivered)
    decreases items
  {
    hide Step;
    if items == [] {
      assert s.delivered + [] == s.delivered;
    } else {
      var next := Step(s.(delivered := []), items[0]);
      StepDelivers(s, items[0]);
      StepsDeliver(Step(s, items[0]), items[1..]);
      StepsDeliver(next, items[1..]);
      var later := Steps(next.(delivered := []), items[1..]).delivered;
      assert s.delivered + next.delivered + later == s.delivered + (next.delivered + later);
    }
  }

  lemma StepOpens(s: Events, item: Item)
    ensures Step(s, item).open.Some? <==> item.Field? || (item.Comment? && s.open.Some?)
    ensures item.Field? ==> Step(s, item).delivered == s.delivered && Step(s, item) == Step(s, Field(item.name, item.value, Spaced))
    ensures item.Blank? && s.open.None? ==> Step(s, item) == s
    ensures item.Blank? && s.open.Some? ==> |Step(s, item).delivered| == |s.delivered| + 1
    ensures item.Comment? ==> Step(s, item) == s.(delivered := s.delivered + [Event("comment", item.text, None)])
  {
  }

  /** Comments are delivered where they stand and change nothing else. */
  lemma {:induction false} CommentsInPlace(s: Events, items: seq<Item>)
    requires s.delivered == []
    ensures
      var plain := Steps(s, Plain(items));
      Steps(s, items) == plain.(delivered := Interleaved(s.open.Some?, items, plain.delivered))
    decreases items
  {
    if items != [] {
      hide Step;
      var item, rest := items[0], items[1..];
      var next := Step(s, item);
      StepOpens(s, item);
      StepsDeliver(next, rest);
      CommentsInPlace(next.(delivered := []), rest);
      if !item.Comment? {
        var first := if item.Field? then Field(item.name, item.value, Spaced) else Blank;
        assert Plain(items)[1..] == Plain(rest) && Plain(items)[0] == first;
        assert Steps(s, Plain(items)) == Steps(next, Plain(rest));
        StepsDeliver(next, Plain(rest));
        assert next.delivered == [] || next.delivered == [next.delivered[0]];
      }
    }
  }

  // ----- Events written out are read back

  /** `current` followed by data, split at the line feeds of data. */
  function Pieces(current: string, data: string): seq<string>
    decreases data
  {
    if data == "" then [current]
    else if data[0] == LF then [current] + Pieces("", data[1..])
    else Pieces(current + [data[0]], data[1..])
  }

  function DataFields(pieces: seq<string>): seq<Item> {
    if pieces == [] then [] else [Field("data", pieces[0], Spaced)] + DataFields(pieces[1..])
  }

  /** The id is written when it is not the one carried forward. */
  function IdFields(carried: Option<string>, id: Option<string>): seq<Item> {
    if id == carried || id == None then [] else [Field("id", id.value, Spaced)]
  }

  /** The items of one event, ended by a blank line. */
  function EventItems(carried: Option<string>, e: Event): seq<Item> {
    [Field("event", e.eventType, Spaced)] + IdFields(carried, e.id) + DataFields(Pieces("", e.data)) + [Blank]
  }

  function StreamItems(carried: Option<string>, events: seq<Event>): seq<Item>
    decreases events
  {
    if events == [] then [] else EventItems(carried, events[0]) + StreamItems(events[0].id, events[1..])
  }

  ghost predicate Writable(carried: Option<string>, e: Event) {
    && BreakFree(e.eventType)
    && CR !in e.data
    && (e.id == None ==> carried == None)
    && (e.id.Some? ==> BreakFree(e.id.value) && '\0' !in e.id.value)
  }

  ghost predicate AllWritable(carried: Option<string>, events: seq<Event>)
    decreases events
  {
    events != [] ==> Writable(carried, events[0]) && AllWritable(events[0].id, events[1..])
  }

  function CarriedAfter(carried: Option<string>, events: seq<Event>): Option<string> {
    if events == [] then carried else events[|events| - 1].id
  }

  /** The data the reader accumulates from data fields, each followed by a line feed. */
  function Accumulated(data: string, pieces: seq<string>): string
    decreases pieces
  {
    if pieces == [] then data else Accumulated(data + pieces[0] + [LF], pieces[1..])
  }

  lemma {:induction false} AccumulatedPieces(prefix: string, current: string, data: string)
    ensures Accumulated(prefix, Pieces(current, data)) == prefix + current + data + [LF]
    decreases data
  {
    if data == "" {
      assert prefix + current + "" == prefix + current;
      assert [current][1..] == [];
    } else if data[0] == LF {
      var rest := Pieces("", data[1..]);
      assert ([current] + rest)[1..] == rest;
      AccumulatedPieces(prefix + current + [LF], "", data[1..]);
      assert prefix + current + [LF] + "" + data[1..] == prefix + current + data;
    } else {
      AccumulatedPieces(prefix, current + [data[0]], data[1..]);
      assert prefix + (current + [data[0]]) + data[1..] == prefix + current + data;
    }
  }

  lemma {:induction false} DataSteps(s: Events, pieces: seq<string>)
    requires s.open.Some?
    ensures Steps(s, DataFields(pieces))
         == s.(open := Some(s.open.value.(data := Accumulated(s.open.value.data, pieces))))
    decreases pieces
  {
    if pieces != [] {
      assert DataFields(pieces)[1..] == DataFields(pieces[1..]);
      DataSteps(s.(open := Some(AppendData(s.open.value, pieces[0]))), pieces[1..]);
    }
  }

  lemma HeaderSteps(s: Events, e: Event)
    requires s.open == None && Writable(s.lastId, e)
    ensures Steps(s, [Field("event", e.eventType, Spaced)] + IdFields(s.lastId, e.id))
         == s.(open := Some(Event(e.eventType, "", e.id)), lastId := e.id)
  {
    var first, ids := Field("event", e.eventType, Spaced), IdFields(s.lastId, e.id);
    assert ([first] + ids)[1..] == ids;
    var next := Step(s, first);
    if ids != [] {
      assert ids[1..] == [];
      assert Steps(next, ids) == Step(next, ids[0]);
    }
  }

  lemma EventSteps(s: Events, e: Event)
    requires s.open == None && Writable(s.lastId, e)
    ensures Steps(s, EventItems(s.lastId, e)) == Events(None, e.id, s.delivered + [e])
  {
    var header := [Field("event", e.eventType, Spaced)] + IdFields(s.lastId, e.id);
    var data := DataFields(Pieces("", e.data));
    HeaderSteps(s, e);
    var begun := Steps(s, header);
    DataSteps(begun, Pieces("", e.data));
    AccumulatedPieces("", "", e.data);
    StepsAppend(s, header, data);
    StepsSnoc(s, header + data, Blank);
    assert "" + "" + e.data == e.data;
    assert (e.data + [LF])[..|e.data|] == e.data;
    hide Steps, Pieces, DataFields, Accumulated;
  }

  lemma {:induction false} StreamSteps(s: Events, events: seq<Event>)
    requires s.open == None && AllWritable(s.lastId, events)
    ensures Steps(s, StreamItems(s.lastId, events)) == Events(None, CarriedAfter(s.lastId, events), s.delivered + events)
    decreases events
  {
    hide EventItems, Writable, Step;
    if events == [] {
      assert s.delivered + events == s.delivered;
    } else {
      var first, rest := EventItems(s.lastId, events[0]), StreamItems(events[0].id, events[1..]);
      var next := Events(None, events[0].id, s.delivered + [events[0]]);
      EventSteps(s, events[0]);
      StepsAppend(s, first, rest);
      assert s.delivered + [events[0]] + events[1..] == s.delivered + events;
      StreamSteps(next, events[1..]);
    }
  }

  // ----- Lines on the wire

  ghost predicate BreakFreeItem(item: Item) {
    match item
    case Field(name, value, _) => BreakFree(name) && BreakFree(value)
    case Comment(text) => BreakFree(text)
    case Blank => true
  }

  lemma SpelledBreakFree(item: Item)
    requires BreakFreeItem(item)
    ensures BreakFree(Spelled(item))
  {
  }

  lemma {:induction false} LinesBreakFree(items: seq<Item>)
    requires forall i :: 0 <= i < |items| ==> BreakFreeItem(items[i])
    ensures |SpelledLines(items)| == |items| && forall i :: 0 <= i < |items| ==> BreakFree(SpelledLines(items)[i])
    decreases items
  {
    hide BreakFreeItem, Spelled;
    if items != [] {
      SpelledBreakFree(items[0]);
      LinesBreakFree(items[1..]);
    }
  }

  lemma {:induction false} PiecesBreakFree(current: string, data: string)
    requires BreakFree(current) && CR !in data
    ensures forall i :: 0 <= i < |Pieces(current, data)| ==> BreakFree(Pieces(current, data)[i])
    decreases data
  {
    if data != "" {
      if data[0] == LF { PiecesBreakFree("", data[1..]); } else { PiecesBreakFree(current + [data[0]], data[1..]); }
    }
  }

  lemma {:induction false} DataBreakFree(pieces: seq<string>)
    requires forall i :: 0 <= i < |pieces| ==> BreakFree(pieces[i])
    ensures forall i :: 0 <= i < |DataFields(pieces)| ==> Spellable(DataFields(pieces)[i]) && BreakFreeItem(DataFields(pieces)[i])
    decreases pieces
  {
    if pieces != [] { DataBreakFree(pieces[1..]); }
  }

  /** The items of writable events can all be put on the wire. */
  lemma {:induction false} StreamIsSpellable(carried: Option<string>, events: seq<Event>)
    requires AllWritable(carried, events)
    ensures forall i :: 0 <= i < |StreamItems(carried, events)| ==>
              Spellable(StreamItems(carried, events)[i]) && BreakFreeItem(StreamItems(carried, events)[i])
    decreases events
  {
    if events != [] {
      PiecesBreakFree("", events[0].data);
      DataBreakFree(Pieces("", events[0].data));
      StreamIsSpellable(events[0].id, events[1..]);
      hide Pieces, DataFields, StreamItems;
    }
  }

  /** Items are on the wire: what they spell, with any mix of LF and CRLF line ends, cut into any chunks. */
  ghost predicate OnTheWire(items: seq<Item>, wire: seq<WireLine>, chunks: seq<string>) {
    && (forall i :: 0 <= i < |items| ==> Spellable(items[i]) && BreakFreeItem(items[i]))
    && Texts(wire) == SpelledLines(items) && Concat(chunks) == Written(wire)
  }

  /** However a stream is spelled, ended and cut, it does what its items do. */
  lemma WireDoes(items: seq<Item>, wire: seq<WireLine>, chunks: seq<string>)
    requires OnTheWire(items, wire, chunks)
    ensures PutAll(INITIAL, chunks).events == Steps(INITIAL.events, items)
    ensures Fresh(PutAll(INITIAL, chunks).lines)
  {
    hide Spellable, BreakFreeItem, Steps, Process;
    ChunkingDoesNotMatter(INITIAL, chunks);
    LinesBreakFree(items);
    forall i | 0 <= i < |wire| ensures BreakFree(wire[i].text) {
      assert wire[i].text == Texts(wire)[i];
    }
    FeedWritten(START, wire);
    assert [] + Texts(wire) == Texts(wire);
    LinesDo(INITIAL.events, items);
  }

  /** Print then parse: any writable events, each field spelled with or without the space after the colon, with
      comments anywhere between the lines, any mix of line ends and any chunks, are delivered back unchanged and
      in order, each comment in its place. */
  lemma WriteThenRead(events: seq<Event>, items: seq<Item>, wire: seq<WireLine>, chunks: seq<string>)
    requires AllWritable(None, events) && Plain(items) == StreamItems(None, events) && OnTheWire(items, wire, chunks)
    ensures PutAll(INITIAL, chunks).events == Events(None, CarriedAfter(None, events), Interleaved(false, items, events))
    ensures Fresh(PutAll(INITIAL, chunks).lines)
  {
    hide OnTheWire, StreamItems, AllWritable, Plain, Interleaved, Steps;
    WireDoes(items, wire, chunks);
    CommentsInPlace(INITIAL.events, items);
    StreamSteps(INITIAL.events, events);
    assert [] + events == events;
  }

  /** Without comments, the deliveries are the events. */
  lemma NoComments(events: seq<Event>, items: seq<Item>)
    requires AllWritable(None, events) && Plain(items) == StreamItems(None, events)
    requires forall i :: 0 <= i < |items| ==> !items[i].Comment?
    ensures Interleaved(false, items, events) == events
  {
    hide StreamItems, AllWritable, Plain, Interleaved, Steps;
    CommentsInPlace(INITIAL.events, items);
    SpellingDoesNotMatter(INITIAL.events, items);
    StreamSteps(INITIAL.events, events);
    assert [] + events == events;
  }

  lemma {:induction false} SpellingDoesNotMatter(s: Events, items: seq<Item>)
    requires forall i :: 0 <= i < |items| ==> !items[i].Comment?
    ensures Steps(s, Plain(items)) == Steps(s, items)
    decreases items
  {
    if items != [] {
      assert Plain(items)[1..] == Plain(items[1..]);
      StepOpens(s, items[0]);
      hide Step;
      SpellingDoesNotMatter(Step(s, items[0]), items[1..]);
    }
  }
}
