/** Live container logs: the Go line writer that frames log text as server-sent
    events, and the TypeScript reader that takes the frames apart again.
    Text is a sequence of characters on both sides. */
module LogStream {
  import opened Text

  const ENDED := "stream ended"
  const CLOSE_LINE := "event: close"
  const END_LINE := "data: " + ENDED
  const CLOSING := CLOSE_LINE + "\n" + END_LINE + "\n\n"
  const WINDOW := 1000

  // ---- Lines ----

  /** The completed lines of a text, without their newline. */
  function Complete(s: string): seq<string> {
    var ps := Split(s, '\n'); ps[..|ps| - 1]
  }

  /** What follows the last newline. */
  function Partial(s: string): string {
    var ps := Split(s, '\n'); ps[|ps| - 1]
  }

  lemma FirstLine(a: string, b: string)
    requires '\n' !in a
    ensures Complete(a + "\n" + b) == [a] + Complete(b)
    ensures Partial(a + "\n" + b) == Partial(b)
  {
    SplitPlain(a, '\n');
    SplitConcat(a, b, '\n');
  }

  lemma NoLine(a: string)
    requires '\n' !in a
    ensures Complete(a) == [] && Partial(a) == a
  {
    SplitPlain(a, '\n');
  }

  /** `strings.IndexByte(s, '\n')`, or the length when there is none. */
  function NewlineAt(s: string): (i: nat)
    ensures i <= |s| && '\n' !in s[..i]
    ensures i < |s| ==> s[i] == '\n'
  {
    if s == [] || s[0] == '\n' then 0 else 1 + NewlineAt(s[1..])
  }

  lemma AtNewline(s: string)
    requires NewlineAt(s) < |s|
    ensures s == s[..NewlineAt(s)] + "\n" + s[NewlineAt(s) + 1..]
  {
    CutAt(s, NewlineAt(s));
    assert [s[NewlineAt(s)]] == "\n";
  }

  /** Text that arrives later only touches the unfinished line. */
  lemma {:induction false} LinesExtend(s: string, p: string)
    ensures Complete(s + p) == Complete(s) + Complete(Partial(s) + p)
    ensures Partial(s + p) == Partial(Partial(s) + p)
    decreases |s|
  {
    var i := NewlineAt(s);
    if i == |s| {
      assert s[..i] == s;
      NoLine(s);
    } else {
      var a, b := s[..i], s[i + 1..];
      AtNewline(s);
      LinesExtend(b, p);
      FirstLine(a, b);
      FirstLine(a, b + p);
      assert a + "\n" + b + p == a + "\n" + (b + p);
    }
  }

  // ---- The writer ----

  function Frame(line: string): string {
    "data: " + TrimRightChar(line, '\r') + "\n\n"
  }

  function Frames(lines: seq<string>): string {
    if lines == [] then "" else Frame(lines[0]) + Frames(lines[1..])
  }

  lemma {:induction false} FramesAppend(a: seq<string>, b: seq<string>)
    ensures Frames(a + b) == Frames(a) + Frames(b)
  {
    if a == [] {
      assert a + b == b;
    } else {
      assert (a + b)[1..] == a[1..] + b;
      FramesAppend(a[1..], b);
    }
  }

  lemma FramesOne(line: string)
    ensures Frames([line]) == Frame(line)
  {
    assert Frames([line][1..]) == "";
  }

  /** One turn of the loop in `Write`. */
  lemma WriteStep(content: string, done: seq<string>)
    requires NewlineAt(content) < |content|
    ensures var idx := NewlineAt(content);
            && done + Complete(content) == (done + [content[..idx]]) + Complete(content[idx + 1..])
            && Partial(content) == Partial(content[idx + 1..])
            && Frames(done + [content[..idx]]) == Frames(done) + Frame(content[..idx])
  {
    var idx := NewlineAt(content);
    AtNewline(content);
    FirstLine(content[..idx], content[idx + 1..]);
    FramesAppend(done, [content[..idx]]);
    FramesOne(content[..idx]);
  }

  class SseLineWriter {
    var buf: string
    var wire: string

    constructor ()
      ensures buf == "" && wire == ""
    {
      buf, wire := "", "";
    }

    /** Every line completed by `p` goes out as one event; the rest stays buffered. */
    method Write(p: string) returns (n: nat)
      modifies this
      ensures n == |p|
      ensures wire == old(wire) + Frames(Complete(old(buf) + p))
      ensures buf == Partial(old(buf) + p)
    {
      ghost var all := buf + p;
      ghost var done: seq<string> := [];
      buf := buf + p;
      while true
        invariant Complete(all) == done + Complete(buf) && Partial(all) == Partial(buf)
        invariant wire == old(wire) + Frames(done)
        decreases |buf|
      {
        var content := buf;
        var idx := NewlineAt(content);
        if idx == |content| {
          assert content[..idx] == content;
          NoLine(content);
          assert done + [] == done;
          break;
        }
        WriteStep(content, done);
        Assoc(old(wire), Frames(done), Frame(content[..idx]));
        buf := content[idx + 1..];
        wire := wire + Frame(content[..idx]);
        done := done + [content[..idx]];
      }
      n := |p|;
    }
  }

  /** `StreamContainerLogs`: however the log text is cut into writes, the wire is
      one event per completed line, then the closing event. */
  method StreamContainerLogs(writes: seq<string>) returns (wire: string)
    ensures wire == Frames(Complete(Concat(writes))) + CLOSING
  {
    var w := new SseLineWriter();
    NoLine("");
    for i := 0 to |writes|
      invariant w.wire == Frames(Complete(Concat(writes[..i])))
      invariant w.buf == Partial(Concat(writes[..i]))
    {
      var text := Concat(writes[..i]);
      TakeSnoc(writes, i);
      ConcatSnoc(writes[..i], writes[i]);
      LinesExtend(text, writes[i]);
      FramesAppend(Complete(text), Complete(Partial(text) + writes[i]));
      var _ := w.Write(writes[i]);
    }
    TakeAll(writes);
    wire := w.wire + CLOSING;
  }

  // ---- The reader ----

  /** `buffer.split("\n\n")`. */
  function SplitBlank(s: string): (r: seq<string>)
    ensures |r| >= 1
  {
    if |s| < 2 then [s]
    else if s[0] == '\n' && s[1] == '\n' then [""] + SplitBlank(s[2..])
    else Glue(s[0], SplitBlank(s[1..]))
  }

  function Parts(s: string): seq<string> {
    var ps := SplitBlank(s); ps[..|ps| - 1]
  }

  function Rest(s: string): string {
    var ps := SplitBlank(s); ps[|ps| - 1]
  }

  /** Only the unfinished part matters to what arrives later. */
  lemma {:induction false} PartsExtend(s: string, p: string)
    ensures SplitBlank(s + p) == Parts(s) + SplitBlank(Rest(s) + p)
  {
    if |s| >= 2 {
      if s[0] == '\n' && s[1] == '\n' {
        PartsExtend(s[2..], p);
        assert (s + p)[2..] == s[2..] + p;
        PartsOfBlank(s);
      } else {
        PartsExtend(s[1..], p);
        assert (s + p)[1..] == s[1..] + p;
        PartsOfChar(s);
        if Parts(s) != [] {
          GlueAppend(s[0], Parts(s[1..]), SplitBlank(Rest(s[1..]) + p));
        }
      }
    }
  }

  lemma PartsOfBlank(s: string)
    requires |s| >= 2 && s[0] == '\n' && s[1] == '\n'
    ensures Parts(s) == [""] + Parts(s[2..]) && Rest(s) == Rest(s[2..])
  {
    var t := SplitBlank(s[2..]);
    assert ([""] + t)[..|t|] == [""] + t[..|t| - 1];
  }

  lemma PartsOfChar(s: string)
    requires |s| >= 2 && !(s[0] == '\n' && s[1] == '\n')
    ensures if |SplitBlank(s[1..])| == 1 then Parts(s) == [] && Rest(s) == s
            else Parts(s[1..]) != [] && Parts(s) == Glue(s[0], Parts(s[1..])) && Rest(s) == Rest(s[1..])
  {
    var t := SplitBlank(s[1..]);
    if |t| == 1 {
      SplitOne(s[1..]);
      assert [s[0]] + s[1..] == s;
    } else {
      assert Glue(s[0], t)[..|t| - 1] == Glue(s[0], t[..|t| - 1]);
    }
  }

  lemma {:induction false} SplitOne(s: string)
    requires |SplitBlank(s)| == 1
    ensures SplitBlank(s) == [s]
  {
    if |s| >= 2 {
      SplitOne(s[1..]);
      assert [s[0]] + s[1..] == s;
    }
  }

  /** A reader's state: undecoded text, the lines on screen, the connected flag. */
  datatype Client = Client(buffer: string, lines: seq<string>, connected: bool)

  function Last(n: nat, xs: seq<string>): seq<string> {
    if |xs| <= n then xs else xs[|xs| - n..]
  }

  /** The text a line of an event shows, if any. */
  function Shown(line: string): seq<string> {
    if StartsWith(line, "data: ") && line[6..] != ENDED then [line[6..]] else []
  }

  function ShowLine(c: Client, line: string): Client {
    if StartsWith(line, "data: ") then
      if line[6..] != ENDED then c.(lines := Last(WINDOW - 1, c.lines) + [line[6..]]) else c
    else if line == CLOSE_LINE then c.(connected := false)
    else c
  }

  function ShowLines(c: Client, ls: seq<string>): Client
    decreases |ls|
  {
    if ls == [] then c else ShowLines(ShowLine(c, ls[0]), ls[1..])
  }

  /** The lines of all the parts, in order. */
  function EventLines(parts: seq<string>): seq<string> {
    if parts == [] then [] else Split(parts[0], '\n') + EventLines(parts[1..])
  }

  /** One round of the read loop. */
  function Feed(c: Client, chunk: string): Client {
    var s := c.buffer + chunk;
    ShowLines(c, EventLines(Parts(s))).(buffer := Rest(s))
  }

  lemma {:induction false} ShowLinesAppend(c: Client, a: seq<string>, b: seq<string>)
    ensures ShowLines(c, a + b) == ShowLines(ShowLines(c, a), b)
    decreases |a|
  {
    if a == [] {
      assert a + b == b;
    } else {
      assert (a + b)[1..] == a[1..] + b;
      ShowLinesAppend(ShowLine(c, a[0]), a[1..], b);
    }
  }

  lemma ShowLinesSnoc(c: Client, ls: seq<string>, l: string)
    ensures ShowLines(c, ls + [l]) == ShowLine(ShowLines(c, ls), l)
  {
    ShowLinesAppend(c, ls, [l]);
    assert [l][1..] == [];
  }

  lemma EventLinesOne(part: string)
    ensures EventLines([part]) == Split(part, '\n')
  {
    assert [part][1..] == [];
    assert Split(part, '\n') + [] == Split(part, '\n');
  }

  lemma {:induction false} EventLinesAppend(a: seq<string>, b: seq<string>)
    ensures EventLines(a + b) == EventLines(a) + EventLines(b)
  {
    if a == [] {
      assert a + b == b;
    } else {
      assert (a + b)[1..] == a[1..] + b;
      EventLinesAppend(a[1..], b);
    }
  }

  lemma {:induction false} ShowLinesBuffer(c: Client, b: string, ls: seq<string>)
    ensures ShowLines(c.(buffer := b), ls) == ShowLines(c, ls).(buffer := b)
    decreases |ls|
  {
    if ls != [] {
      ShowLinesBuffer(ShowLine(c, ls[0]), b, ls[1..]);
    }
  }

  /** Cutting a read in two changes nothing, for any wire and any cut. */
  lemma FeedSplit(c: Client, x: string, y: string)
    ensures Feed(Feed(c, x), y) == Feed(c, x + y)
  {
    var s := c.buffer + x;
    var more := Rest(s) + y;
    PartsExtend(s, y);
    assert c.buffer + (x + y) == s + y;
    PartsLast(s, y);
    EventLinesAppend(Parts(s), Parts(more));
    ShowLinesAppend(c, EventLines(Parts(s)), EventLines(Parts(more)));
    ShowLinesBuffer(ShowLines(c, EventLines(Parts(s))), Rest(s), EventLines(Parts(more)));
  }

  lemma PartsLast(s: string, p: string)
    requires SplitBlank(s + p) == Parts(s) + SplitBlank(Rest(s) + p)
    ensures Parts(s + p) == Parts(s) + Parts(Rest(s) + p)
    ensures Rest(s + p) == Rest(Rest(s) + p)
  {
  }

  const START := Client("", [], true)

  /** `startStream`: the read loop over the chunks of the response body. */
  function Reads(chunks: seq<string>): Client {
    if chunks == [] then START
    else Feed(Reads(chunks[..|chunks| - 1]), chunks[|chunks| - 1])
  }

  lemma {:induction false} ReadsWhole(chunks: seq<string>)
    ensures Reads(chunks) == Feed(START, Concat(chunks))
  {
    if chunks == [] {
      assert EventLines(Parts("")) == [];
    } else {
      var init, last := chunks[..|chunks| - 1], chunks[|chunks| - 1];
      ReadsWhole(init);
      FeedSplit(START, Concat(init), last);
      ConcatSnoc(init, last);
      assert init + [last] == chunks;
    }
  }

  class StreamReader {
    var client: Client

    constructor ()
      ensures client == START
    {
      client := START;
    }

    /** The body of the read loop, event by event and line by line. */
    method Receive(chunk: string)
      modifies this
      ensures client == Feed(old(client), chunk)
    {
      var c := client;
      ghost var c0 := client;
      var buffer := c.buffer + chunk;
      var parts := SplitBlank(buffer);
      buffer := parts[|parts| - 1];
      parts := parts[..|parts| - 1];
      for i := 0 to |parts|
        invariant c == ShowLines(c0, EventLines(parts[..i]))
      {
        var ls := Split(parts[i], '\n');
        ghost var before := EventLines(parts[..i]);
        TakeSnoc(parts, i);
        EventLinesAppend(parts[..i], [parts[i]]);
        EventLinesOne(parts[i]);
        assert before + ls[..0] == before;
        for j := 0 to |ls|
          invariant c == ShowLines(c0, before + ls[..j])
        {
          var line := ls[j];
          TakeSnoc(ls, j);
          Assoc(before, ls[..j], [line]);
          ShowLinesSnoc(c0, before + ls[..j], line);
          if StartsWith(line, "data: ") {
            var text := line[6..];
            if text != ENDED {
              c := c.(lines := Last(WINDOW - 1, c.lines) + [text]);
            }
          } else if line == CLOSE_LINE {
            c := c.(connected := false);
          }
        }
        TakeAll(ls);
      }
      TakeAll(parts);
      client := c.(buffer := buffer);
    }
  }

  // ---- Both ends together ----

  /** What the user is meant to see: every completed line without its trailing
      carriage returns, except those that read like the end marker. */
  function Expected(lines: seq<string>): seq<string> {
    if lines == [] then []
    else
      var text := TrimRightChar(lines[0], '\r');
      (if text != ENDED then [text] else []) + Expected(lines[1..])
  }

  function AllShown(ls: seq<string>): seq<string> {
    if ls == [] then [] else Shown(ls[0]) + AllShown(ls[1..])
  }

  lemma {:induction false} AllShownAppend(a: seq<string>, b: seq<string>)
    ensures AllShown(a + b) == AllShown(a) + AllShown(b)
  {
    if a == [] {
      assert a + b == b;
    } else {
      assert (a + b)[1..] == a[1..] + b;
      AllShownAppend(a[1..], b);
    }
  }

  lemma AllShownOne(l: string)
    ensures AllShown([l]) == Shown(l)
  {
    assert [l][1..] == [];
    assert Shown(l) + [] == Shown(l);
  }

  lemma DataShown(text: string)
    ensures Shown("data: " + text) == if text != ENDED then [text] else []
  {
    assert ("data: " + text)[6..] == text;
  }

  lemma LastStep(xs: seq<string>, ys: seq<string>, t: string)
    requires xs == Last(WINDOW, ys)
    ensures Last(WINDOW - 1, xs) + [t] == Last(WINDOW, ys + [t])
  {
  }

  lemma ShowStep(c: Client, all: seq<string>, l: string)
    requires c.lines == Last(WINDOW, all)
    ensures ShowLine(c, l).lines == Last(WINDOW, all + Shown(l))
  {
    if Shown(l) == [] {
      assert all + Shown(l) == all;
    } else {
      LastStep(c.lines, all, l[6..]);
    }
  }

  /** The window keeps the last thousand of everything shown. */
  lemma {:induction false} WindowKeepsLast(c: Client, all: seq<string>, ls: seq<string>)
    requires c.lines == Last(WINDOW, all)
    ensures ShowLines(c, ls).lines == Last(WINDOW, all + AllShown(ls))
    decreases |ls|
  {
    if ls == [] {
      assert all + [] == all;
    } else {
      ShowStep(c, all, ls[0]);
      WindowKeepsLast(ShowLine(c, ls[0]), all + Shown(ls[0]), ls[1..]);
      Assoc(all, Shown(ls[0]), AllShown(ls[1..]));
    }
  }

  /** No blank line inside, and none could form at the end. */
  predicate OneEvent(a: string) {
    && a != "" && a[|a| - 1] != '\n'
    && forall i :: 0 <= i < |a| - 1 ==> !(a[i] == '\n' && a[i + 1] == '\n')
  }

  lemma {:induction false} EventSplits(a: string, b: string)
    requires OneEvent(a)
    ensures SplitBlank(a + "\n\n" + b) == [a] + SplitBlank(b)
  {
    var s := a + "\n\n" + b;
    if |a| == 1 {
      assert s[1..] == "\n\n" + b;
      assert s[1..][2..] == b;
      assert ([""] + SplitBlank(b))[1..] == SplitBlank(b);
      assert [a[0]] + "" == a;
    } else {
      assert s[1..] == a[1..] + "\n\n" + b;
      EventSplits(a[1..], b);
      assert [a[0]] + a[1..] == a;
    }
  }

  lemma DataEvent(line: string, rest: string)
    requires '\n' !in line
    ensures Parts(Frame(line) + rest) == ["data: " + TrimRightChar(line, '\r')] + Parts(rest)
    ensures Rest(Frame(line) + rest) == Rest(rest)
  {
    var a := "data: " + TrimRightChar(line, '\r');
    assert '\n' !in a;
    assert a[|a| - 1] in a;
    assert Frame(line) + rest == a + "\n\n" + rest;
    EventSplits(a, rest);
  }

  lemma FrameShows(line: string, tail: string)
    requires '\n' !in line
    ensures AllShown(EventLines(Parts(Frame(line) + tail))) ==
            Shown("data: " + TrimRightChar(line, '\r')) + AllShown(EventLines(Parts(tail)))
  {
    var data := "data: " + TrimRightChar(line, '\r');
    assert '\n' !in data;
    DataEvent(line, tail);
    SplitPlain(data, '\n');
    EventLinesAppend([data], Parts(tail));
    EventLinesOne(data);
    AllShownAppend([data], EventLines(Parts(tail)));
    AllShownOne(data);
  }

  /** Taken apart, the frames show exactly the expected lines. */
  lemma {:induction false} FramesShow(lines: seq<string>, rest: string)
    requires forall l :: l in lines ==> '\n' !in l
    ensures AllShown(EventLines(Parts(Frames(lines) + rest))) ==
            Expected(lines) + AllShown(EventLines(Parts(rest)))
    ensures Rest(Frames(lines) + rest) == Rest(rest)
  {
    var after := AllShown(EventLines(Parts(rest)));
    if lines == [] {
      assert "" + rest == rest;
      assert [] + after == after;
    } else {
      var text := TrimRightChar(lines[0], '\r');
      var tail := Frames(lines[1..]) + rest;
      Assoc(Frame(lines[0]), Frames(lines[1..]), rest);
      assert lines[0] in lines;
      DataEvent(lines[0], tail);
      FrameShows(lines[0], tail);
      DataShown(text);
      FramesShow(lines[1..], rest);
      Assoc(Shown("data: " + text), Expected(lines[1..]), after);
    }
  }

  lemma TwoLinesOneEvent(a: string, b: string)
    requires '\n' !in a && '\n' !in b && b != ""
    ensures OneEvent(a + "\n" + b)
  {
    var e := a + "\n" + b;
    forall i | 0 <= i < |e| - 1 ensures !(e[i] == '\n' && e[i + 1] == '\n') {
      if i < |a| {
        assert e[i] == a[i];
      } else {
        assert e[i + 1] == b[i - |a|];
      }
    }
    assert e[|e| - 1] == b[|b| - 1];
  }

  /** An event of two lines, as a part of its own. */
  lemma TwoLineEvent(a: string, b: string)
    requires '\n' !in a && '\n' !in b && b != ""
    ensures EventLines(Parts(a + "\n" + b + "\n\n")) == [a, b]
    ensures Rest(a + "\n" + b + "\n\n") == ""
  {
    var e := a + "\n" + b;
    assert a + "\n" + b + "\n\n" == e + "\n\n" + "";
    TwoLinesOneEvent(a, b);
    EventSplits(e, "");
    assert Parts(e + "\n\n" + "") == [e];
    SplitConcat(a, b, '\n');
    SplitPlain(a, '\n');
    SplitPlain(b, '\n');
    EventLinesOne(e);
  }

  lemma ClosingLines()
    ensures '\n' !in CLOSE_LINE && '\n' !in END_LINE && END_LINE != ""
    ensures Shown(CLOSE_LINE) == [] && Shown(END_LINE) == []
    ensures !StartsWith(CLOSE_LINE, "data: ")
  {
    assert END_LINE[6..] == ENDED;
    assert CLOSE_LINE[0] == 'e' && "data: "[0] == 'd';
  }

  /** The closing event shows nothing, leaves no text behind and disconnects. */
  lemma ClosingShows(c: Client)
    ensures EventLines(Parts(CLOSING)) == [CLOSE_LINE, END_LINE] && Rest(CLOSING) == ""
    ensures AllShown([CLOSE_LINE, END_LINE]) == []
    ensures !ShowLines(c, [CLOSE_LINE, END_LINE]).connected
  {
    var a, b := CLOSE_LINE, END_LINE;
    ClosingLines();
    TwoLineEvent(a, b);
    AllShownOne(a);
    AllShownOne(b);
    AllShownAppend([a], [b]);
    assert [a] + [b] == [a, b] && [] + [a] == [a];
    ShowLinesSnoc(c, [a], b);
    ShowLinesSnoc(c, [], a);
  }

  lemma CompleteHasNoNewline(s: string)
    ensures forall l :: l in Complete(s) ==> '\n' !in l
  {
    forall l | l in Complete(s) ensures '\n' !in l {
      assert l in Split(s, '\n');
    }
  }

  /** `text` is how some log line is meant to be shown. */
  ghost predicate OfSome(lines: seq<string>, text: string) {
    exists l :: l in lines && LessRun(l, '\r', text)
  }

  /** Whatever is expected is a log line less the carriage returns at its end. */
  lemma {:induction false} ExpectedFrom(lines: seq<string>, text: string)
    requires text in Expected(lines)
    ensures text != ENDED && OfSome(lines, text)
  {
    TrimIsLessRun(lines[0], '\r', TrimRightChar(lines[0], '\r'));
    if text in Expected(lines[1..]) {
      ExpectedFrom(lines[1..], text);
    } else {
      assert lines[0] in lines;
    }
  }

  /** End to end: however the log is cut into writes and the wire into reads, the
      reader ends with the last thousand expected lines, in order, disconnected. */
  lemma EndToEnd(writes: seq<string>, chunks: seq<string>)
    requires Concat(chunks) == Frames(Complete(Concat(writes))) + CLOSING
    ensures Reads(chunks).lines == Last(WINDOW, Expected(Complete(Concat(writes))))
    ensures forall t :: t in Reads(chunks).lines ==> t != ENDED && OfSome(Complete(Concat(writes)), t)
    ensures !Reads(chunks).connected && Reads(chunks).buffer == ""
  {
    WholeStream(writes, chunks);
    var all := Expected(Complete(Concat(writes)));
    forall t | t in Last(WINDOW, all) ensures t != ENDED && OfSome(Complete(Concat(writes)), t) {
      assert t in all;
      ExpectedFrom(Complete(Concat(writes)), t);
    }
  }

  /** The text of a log of whole lines. */
  function LogText(lines: seq<string>): string {
    if lines == [] then "" else lines[0] + "\n" + LogText(lines[1..])
  }

  lemma {:induction false} CompleteLog(lines: seq<string>, tail: string)
    requires (forall l :: l in lines ==> '\n' !in l) && '\n' !in tail
    ensures Complete(LogText(lines) + tail) == lines
  {
    if lines == [] {
      assert LogText(lines) + tail == tail;
      NoLine(tail);
    } else {
      assert lines[0] in lines;
      CompleteLog(lines[1..], tail);
      FirstLine(lines[0], LogText(lines[1..]) + tail);
      Assoc(lines[0] + "\n", LogText(lines[1..]), tail);
      assert [lines[0]] + lines[1..] == lines;
    }
  }

  /** `texts` less every `x`. */
  function Without(texts: seq<string>, x: string): (r: seq<string>)
    ensures x !in r && multiset(r) == multiset(texts)[x := 0]
    ensures x !in texts ==> r == texts
  {
    if texts == [] then []
    else
      var rest := Without(texts[1..], x);
      assert texts == [texts[0]] + texts[1..];
      if texts[0] == x then rest else [texts[0]] + rest
  }

  /** Each text is its line less the carriage returns at its end. */
  predicate Trimmed(lines: seq<string>, texts: seq<string>) {
    |texts| == |lines| && forall i :: 0 <= i < |lines| ==> LessRun(lines[i], '\r', texts[i])
  }

  lemma {:induction false} ExpectedIs(lines: seq<string>, texts: seq<string>)
    requires Trimmed(lines, texts)
    ensures Expected(lines) == Without(texts, ENDED)
  {
    if lines != [] {
      TrimIsLessRun(lines[0], '\r', texts[0]);
      TrimmedTail(lines, texts);
      ExpectedIs(lines[1..], texts[1..]);
      assert [] + Expected(lines[1..]) == Expected(lines[1..]);
    }
  }

  lemma TrimmedTail(lines: seq<string>, texts: seq<string>)
    requires Trimmed(lines, texts) && lines != []
    ensures Trimmed(lines[1..], texts[1..])
  {
  }

  /** Said of the log itself: a log of any lines, cut into writes and reads in any way,
      ends on screen as its last thousand lines, less the carriage returns at their ends
      and less those that then read "stream ended". */
  lemma ShowsLog(lines: seq<string>, tail: string, texts: seq<string>, writes: seq<string>, chunks: seq<string>)
    requires (forall l :: l in lines ==> '\n' !in l) && '\n' !in tail && Trimmed(lines, texts)
    requires Concat(writes) == LogText(lines) + tail
    requires Concat(chunks) == Frames(Complete(Concat(writes))) + CLOSING
    ensures var all, shown := Without(texts, "stream ended"), Reads(chunks).lines;
            && (|all| <= 1000 ==> shown == all)
            && (|all| > 1000 ==> |shown| == 1000 && all[|all| - 1000..] == shown)
  {
    CompleteLog(lines, tail);
    ExpectedIs(lines, texts);
    WholeStream(writes, chunks);
  }

  lemma WholeStream(writes: seq<string>, chunks: seq<string>)
    requires Concat(chunks) == Frames(Complete(Concat(writes))) + CLOSING
    ensures Reads(chunks).lines == Last(WINDOW, Expected(Complete(Concat(writes))))
    ensures !Reads(chunks).connected && Reads(chunks).buffer == ""
  {
    var lines := Complete(Concat(writes));
    var wire := Concat(chunks);
    ReadsWhole(chunks);
    CompleteHasNoNewline(Concat(writes));
    FramesShow(lines, CLOSING);
    ClosingShows(START);
    assert START.buffer + wire == wire;
    WindowKeepsLast(START, [], EventLines(Parts(wire)));
    assert Expected(lines) + [] == Expected(lines);
    assert [] + Expected(lines) == Expected(lines);
    Disconnects(lines);
  }

  lemma Disconnects(lines: seq<string>)
    requires forall l :: l in lines ==> '\n' !in l
    ensures !Feed(START, Frames(lines) + CLOSING).connected
  {
    var c := Feed(START, Frames(lines));
    FeedSplit(START, Frames(lines), CLOSING);
    FramesShow(lines, "");
    assert Frames(lines) + "" == Frames(lines) == START.buffer + Frames(lines);
    assert c.buffer + CLOSING == CLOSING;
    ClosingShows(c);
  }

  /** While the stream is running the reader shows the window over some prefix of
      the expected lines: nothing is reordered, invented or skipped. */
  lemma LiveView(writes: seq<string>, chunks: seq<string>, rest: string)
    requires Concat(chunks) + rest == Frames(Complete(Concat(writes))) + CLOSING
    ensures var all := Expected(Complete(Concat(writes)));
            exists k :: 0 <= k <= |all| && Reads(chunks).lines == Last(WINDOW, all[..k])
  {
    var lines := Complete(Concat(writes));
    var all := Expected(lines);
    var seen := Concat(chunks);
    ReadsWhole(chunks);
    CompleteHasNoNewline(Concat(writes));
    FramesShow(lines, CLOSING);
    ClosingShows(START);
    PartsExtend(seen, rest);
    PartsLast(seen, rest);
    var now, later := EventLines(Parts(seen)), EventLines(Parts(Rest(seen) + rest));
    EventLinesAppend(Parts(seen), Parts(Rest(seen) + rest));
    AllShownAppend(now, later);
    assert AllShown(now) + AllShown(later) == all + [];
    assert all + [] == all;
    assert all[..|AllShown(now)|] == AllShown(now);
    assert START.buffer + seen == seen;
    WindowKeepsLast(START, [], now);
    assert [] + AllShown(now) == AllShown(now);
  }
}
