/** Line splitting in the server-sent events reader: bytes to lines, fed in arbitrary chunks.
    Models append_up_to, complete_line and parse_stream of libs/server-sent-events/src/parser.hpp. */
module SseLines {
  import opened Wrappers

  const CR: char := '\r'
  const LF: char := '\n'

  predicate IsBreak(c: char) { c == CR || c == LF }

  ghost predicate BreakFree(s: string) { forall i :: 0 <= i < |s| ==> !IsBreak(s[i]) }

  datatype Lines = Lines(buffered: Option<string>, complete: seq<string>, beginCR: bool) {
    function Partial(): string {
      match buffered
      case Some(text) => text
      case None => ""
    }
  }

  const START: Lines := Lines(None, [], false)

  /** The effect of one byte. Ordinary text leaves `beginCR` alone. */
  function Byte(s: Lines, c: char): Lines {
    if c == CR then Lines(None, s.complete + [s.Partial()], true)
    else if c == LF then
      if s.beginCR then Lines(Some(s.Partial()), s.complete, false)
      else Lines(None, s.complete + [s.Partial()], false)
    else Lines(Some(s.Partial() + [c]), s.complete, s.beginCR)
  }

  function Feed(s: Lines, body: string): Lines {
    if body == "" then s else Byte(Feed(s, body[..|body| - 1]), body[|body| - 1])
  }

  lemma {:induction false} FeedAppend(s: Lines, a: string, b: string)
    ensures Feed(s, a + b) == Feed(Feed(s, a), b)
  {
    if b == "" {
      assert a + b == a;
    } else {
      assert (a + b)[..|a + b| - 1] == a + b[..|b| - 1];
      FeedAppend(s, a, b[..|b| - 1]);
    }
  }

  lemma {:induction false} FeedText(s: Lines, text: string)
    requires text != "" && BreakFree(text)
    ensures Feed(s, text) == Lines(Some(s.Partial() + text), s.complete, s.beginCR)
  {
    var init, last := text[..|text| - 1], text[|text| - 1];
    if init != "" {
      FeedText(s, init);
      assert s.Partial() + init + [last] == s.Partial() + text;
    } else {
      assert text == [last];
    }
  }

  /** Reading on over n bytes of text: the buffered line grows, and exists if anything was read. */
  lemma FeedSpan(s: Lines, body: string, i: nat, n: nat)
    requires i + n <= |body| && BreakFree(body[i..][..n])
    ensures
      var before := Feed(s, body[..i]);
      Feed(s, body[..i + n]) == if n == 0 then before else before.(buffered := Some(before.Partial() + body[i..][..n]))
  {
    var text := body[i..][..n];
    assert body[..i + n] == body[..i] + text;
    FeedAppend(s, body[..i], text);
    if n > 0 { FeedText(Feed(s, body[..i]), text); }
  }

  lemma FeedNothing(s: Lines, body: string)
    ensures Feed(s, body[..0]) == s
    ensures body[..|body|] == body
  {
  }

  lemma FeedNext(s: Lines, body: string, i: nat)
    requires i < |body|
    ensures Feed(s, body[..i + 1]) == Byte(Feed(s, body[..i]), body[i])
  {
    assert body[..i + 1][..i] == body[..i];
  }

  /** Lines already complete do not influence what is read next. */
  lemma {:induction false} FeedComplete(s: Lines, body: string)
    ensures Feed(s, body)
         == var r := Feed(s.(complete := []), body); r.(complete := s.complete + r.complete)
  {
    if body == "" {
      assert s.complete + [] == s.complete;
    } else {
      FeedComplete(s, body[..|body| - 1]);
    }
  }

  // ----- Line splitting as section 9.2.5 of the WHATWG HTML Living Standard has it

  /** A CR ends a line, and so does an LF that does not directly follow a CR. */
  function StandardSplit(s: string): (seq<string>, string) {
    if s == "" then ([], "") else
    var n := |s| - 1;
    var (lines, partial) := StandardSplit(s[..n]);
    if s[n] == CR || (s[n] == LF && !(n > 0 && s[n - 1] == CR)) then (lines + [partial], "")
    else if s[n] == LF then (lines, partial)
    else (lines, partial + [s[n]])
  }

  /** Whether the nearest earlier line terminator of s is a CR. */
  predicate LastBreakIsCR(s: string) {
    s != "" && (s[|s| - 1] == CR || (s[|s| - 1] != LF && LastBreakIsCR(s[..|s| - 1])))
  }

  /** An LF whose nearest earlier terminator is a CR that it does not directly follow. */
  predicate Detached(s: string, i: int)
    requires 0 <= i < |s|
  {
    s[i] == LF && LastBreakIsCR(s[..i]) && s[i - 1] != CR
  }

  function DetachedCount(s: string): nat {
    if s == "" then 0
    else DetachedCount(s[..|s| - 1]) + (if Detached(s, |s| - 1) then 1 else 0)
  }

  lemma {:induction false} SplitCount(s: string)
    ensures Feed(START, s).beginCR == LastBreakIsCR(s)
    ensures |Feed(START, s).complete| + DetachedCount(s) == |StandardSplit(s).0|
    ensures DetachedCount(s) == 0 ==> StandardSplit(s) == (Feed(START, s).complete, Feed(START, s).Partial())
  {
    if s != "" {
      SplitCount(s[..|s| - 1]);
      if s[|s| - 1] == LF && |s| > 1 && s[|s| - 2] == CR {
        assert s[..|s| - 1][|s| - 2] == CR;
      }
    }
  }

  lemma {:induction false} DetachedCountZero(s: string)
    ensures DetachedCount(s) == 0 <==> forall i :: 0 <= i < |s| ==> !Detached(s, i)
  {
    if s != "" {
      var init := s[..|s| - 1];
      DetachedCountZero(init);
      assert forall i :: 0 <= i < |init| ==> init[..i] == s[..i];
      forall i | 0 <= i < |init|
        ensures Detached(init, i) == Detached(s, i)
      {
      }
    }
  }

  /** The reader splits a stream as the standard does exactly when the stream has no detached LF. */
  lemma SplitsAsStandard(s: string)
    ensures StandardSplit(s) == (Feed(START, s).complete, Feed(START, s).Partial())
       <==> forall i :: 0 <= i < |s| ==> !Detached(s, i)
  {
    SplitCount(s);
    DetachedCountZero(s);
  }

  // ----- The splitting of every stream

  /** The stream without its detached line feeds. */
  function Erased(s: string): string {
    if s == "" then "" else Erased(s[..|s| - 1]) + if Detached(s, |s| - 1) then "" else [s[|s| - 1]]
  }

  /** What stands last once detached line feeds are gone: two of them never stand together. */
  lemma LastKept(s: string)
    requires s != ""
    ensures Erased(s) != ""
    ensures Detached(s, |s| - 1) ==> |s| >= 2 && Erased(s)[|Erased(s)| - 1] == s[|s| - 2] != CR
    ensures !Detached(s, |s| - 1) ==> Erased(s)[|Erased(s)| - 1] == s[|s| - 1]
  {
    var n := |s| - 1;
    if Detached(s, n) {
      var init := s[..n];
      assert init != "" && init[|init| - 1] == s[n - 1];
      assert !Detached(init, n - 1);
      assert Erased(s) == Erased(init) + "";
      assert Erased(init) + "" == Erased(init);
    }
  }

  lemma StandardStep(t: string, c: char)
    ensures
      var (lines, partial) := StandardSplit(t);
      StandardSplit(t + [c]) ==
        if c == CR || (c == LF && !(t != "" && t[|t| - 1] == CR)) then (lines + [partial], "")
        else if c == LF then (lines, partial)
        else (lines, partial + [c])
  {
    assert (t + [c])[..|t|] == t;
  }

  /** Every stream is split as the standard splits it without its detached line feeds. */
  lemma {:induction false} SplitsErased(s: string)
    ensures Feed(START, s).beginCR == LastBreakIsCR(s)
    ensures StandardSplit(Erased(s)) == (Feed(START, s).complete, Feed(START, s).Partial())
  {
    if s != "" {
      var init, c := s[..|s| - 1], s[|s| - 1];
      SplitsErased(init);
      if Detached(s, |s| - 1) {
        assert Erased(init) + "" == Erased(init);
      } else {
        StandardStep(Erased(init), c);
        if init != "" { LastKept(init); }
        hide StandardSplit, Erased;
      }
    }
  }

  /** A stream on which the reader joins two lines of the standard. */
  lemma DetachedLineFeedIsSwallowed()
    ensures StandardSplit("a\rb\nc\n").0 == ["a", "b", "c"]
    ensures Feed(START, "a\rb\nc\n").complete == ["a", "bc"]
  {
    var s := "a\rb\nc\n";
    assert s[..5] == "a\rb\nc" && s[..5][..4] == "a\rb\n" && "a\rb\n"[..3] == "a\rb";
    assert "a\rb"[..2] == "a\r" && "a\r"[..1] == "a" && "a"[..0] == "";
    assert "" + "a" == "a" && "" + "b" == "b" && "" + "c" == "c" && "b" + "c" == "bc";
    assert [] + ["a"] == ["a"] && ["a"] + ["b"] == ["a", "b"] && ["a", "b"] + ["c"] == ["a", "b", "c"];
  }

  // ----- Reading back what was written line by line

  datatype WireLine = WireLine(text: string, crlf: bool) {
    function Ending(): string { if crlf then [CR, LF] else [LF] }
  }

  function Written(lines: seq<WireLine>): string {
    if lines == [] then ""
    else Written(lines[..|lines| - 1]) + (lines[|lines| - 1].text + lines[|lines| - 1].Ending())
  }

  function Texts(lines: seq<WireLine>): seq<string> {
    seq(|lines|, i requires 0 <= i < |lines| => lines[i].text)
  }

  lemma TextsSnoc(lines: seq<WireLine>)
    requires lines != []
    ensures Texts(lines) == Texts(lines[..|lines| - 1]) + [lines[|lines| - 1].text]
  {
  }

  /** At the start of a line, with nothing pending. */
  ghost predicate Fresh(s: Lines) { s.Partial() == "" && !s.beginCR }

  lemma FeedEnding(s: Lines, line: WireLine)
    requires !s.beginCR
    ensures Fresh(Feed(s, line.Ending()))
    ensures Feed(s, line.Ending()).complete == s.complete + [s.Partial()]
  {
    if line.crlf {
      var s1 := Byte(s, CR);
      assert [CR, LF][..1] == [CR] && [CR][..0] == "";
      assert Feed(s, [CR]) == s1;
      assert Feed(s, [CR, LF]) == Byte(s1, LF);
    } else {
      assert [LF][..0] == "";
    }
  }

  lemma FeedLine(s: Lines, line: WireLine)
    requires Fresh(s) && BreakFree(line.text)
    ensures Fresh(Feed(s, line.text + line.Ending()))
    ensures Feed(s, line.text + line.Ending()).complete == s.complete + [line.text]
  {
    var s1 := Feed(s, line.text);
    if line.text != "" {
      FeedText(s, line.text);
      assert "" + line.text == line.text;
    }
    FeedAppend(s, line.text, line.Ending());
    FeedEnding(s1, line);
  }

  /** Lines written with any mix of LF and CRLF endings are read back one for one. */
  lemma {:induction false} FeedWritten(s: Lines, lines: seq<WireLine>)
    requires Fresh(s)
    requires forall i :: 0 <= i < |lines| ==> BreakFree(lines[i].text)
    ensures Fresh(Feed(s, Written(lines)))
    ensures Feed(s, Written(lines)).complete == s.complete + Texts(lines)
  {
    if lines == [] {
      assert s.complete + Texts(lines) == s.complete;
    } else {
      hide Feed, Fresh, Texts;
      var n := |lines| - 1;
      FeedWritten(s, lines[..n]);
      FeedLine(Feed(s, Written(lines[..n])), lines[n]);
      FeedAppend(s, Written(lines[..n]), lines[n].text + lines[n].Ending());
      TextsSnoc(lines);
      assert s.complete + Texts(lines[..n]) + [lines[n].text] == s.complete + (Texts(lines[..n]) + [lines[n].text]);
    }
  }
}
