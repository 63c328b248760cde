/** The file source of the server log stream: a poller whose counter advances by the
    lines it sends, not by the lines it reads. */
module LogPoller {
  import opened Text

  const META_START := "-- "
  const META_END := " --"

  /** A line of command output as it is sent, unless it is dropped. */
  function Clean(piece: string): Option<string> {
    var l := TrimRightChar(piece, '\r');
    if l == "" || (META_START <= l && HasSuffix(l, META_END)) then None else Some(l)
  }

  function Filter(pieces: seq<string>): (r: seq<string>)
    ensures |r| <= |pieces|
  {
    if pieces == [] then []
    else
      Filter(pieces[..|pieces| - 1]) +
      match Clean(pieces[|pieces| - 1])
      case None => []
      case Some(l) => [l]
  }

  /** The lines of some output that get sent; no output when no session could be opened. */
  function Lines(output: Option<string>): seq<string> {
    match output
    case None => []
    case Some(text) => Filter(Split(text, '\n'))
  }

  /** The texts that are not sent: blank ones and journal marks. */
  predicate ToDrop(text: string) {
    text == "" || ("-- " <= text && HasSuffix(text, " --"))
  }

  /** `text` is some piece less the carriage returns at its end. */
  ghost predicate OfSome(pieces: seq<string>, text: string) {
    exists p :: p in pieces && LessRun(p, '\r', text)
  }

  lemma CleanExact(piece: string, text: string)
    ensures Clean(piece) == Some(text) <==> LessRun(piece, '\r', text) && !ToDrop(text)
  {
    TrimIsLessRun(piece, '\r', text);
  }

  lemma {:induction false} FilterFrom(pieces: seq<string>, text: string)
    requires text in Filter(pieces)
    ensures exists p :: p in pieces && Clean(p) == Some(text)
  {
    var last := |pieces| - 1;
    if text in Filter(pieces[..last]) {
      FilterFrom(pieces[..last], text);
    } else {
      assert pieces[last] in pieces;
    }
  }

  lemma FilterExact(pieces: seq<string>)
    ensures forall l :: l in Filter(pieces) ==> !ToDrop(l) && OfSome(pieces, l)
    ensures forall p, l :: p in pieces && LessRun(p, '\r', l) && !ToDrop(l) ==> l in Filter(pieces)
  {
    forall l | l in Filter(pieces) ensures !ToDrop(l) && OfSome(pieces, l) {
      FilterFrom(pieces, l);
      var p :| p in pieces && Clean(p) == Some(l);
      CleanExact(p, l);
    }
    forall p, l | p in pieces && LessRun(p, '\r', l) && !ToDrop(l) ensures l in Filter(pieces) {
      CleanExact(p, l);
      var i :| 0 <= i < |pieces| && pieces[i] == p;
      FilterHas(pieces, i, l);
    }
  }

  /** Those to be sent, in order. */
  function Kept(texts: seq<string>): (r: seq<string>)
    ensures forall l :: l in r <==> l in texts && !ToDrop(l)
    ensures (forall l :: l in texts ==> !ToDrop(l)) ==> r == texts
  {
    if texts == [] then []
    else
      var init, last := Kept(texts[..|texts| - 1]), texts[|texts| - 1];
      assert texts == texts[..|texts| - 1] + [last];
      if ToDrop(last) then init else init + [last]
  }

  /** So what is sent of some pieces is their texts, in order, less those to drop. */
  lemma {:induction false} FilterIs(pieces: seq<string>, texts: seq<string>)
    requires |texts| == |pieces| && forall i :: 0 <= i < |pieces| ==> LessRun(pieces[i], '\r', texts[i])
    ensures Filter(pieces) == Kept(texts)
  {
    if pieces != [] {
      var last := |pieces| - 1;
      FilterIs(pieces[..last], texts[..last]);
      TrimIsLessRun(pieces[last], '\r', texts[last]);
    }
  }

  /** Lines as a file holds them. */
  function FileText(lines: seq<string>): string {
    if lines == [] then "" else lines[0] + "\n" + FileText(lines[1..])
  }

  /** What `awk 'NR>count'` has to print. */
  function Rest(file: seq<string>, count: nat): seq<string> {
    if count <= |file| then file[count..] else []
  }

  /** How a poll turns out: no session; or this many characters of awk's output. */
  datatype Reply = NoSession | Bytes(n: nat)

  function Output(rest: seq<string>, reply: Reply): Option<string> {
    match reply
    case NoSession => None
    case Bytes(n) => Some(if n < |FileText(rest)| then FileText(rest)[..n] else FileText(rest))
  }

  predicate IsFile(file: seq<string>) {
    forall l :: l in file ==> '\n' !in l
  }

  datatype Tail = Tail(count: nat, sent: seq<string>)

  /** One poll, of the file as it is by then. */
  datatype Poll = Poll(file: seq<string>, reply: Reply)

  function Polled(t: Tail, p: Poll): Tail {
    var lines := Lines(Output(Rest(p.file, t.count), p.reply));
    Tail(t.count + |lines|, t.sent + lines)
  }

  function After(t: Tail, polls: seq<Poll>): Tail {
    if polls == [] then t else Polled(After(t, polls[..|polls| - 1]), polls[|polls| - 1])
  }

  class Poller {
    var fileLineCount: nat
    var sent: seq<string>

    /** `wc` is what the initial `wc -l` gave, if it could be run. */
    constructor (wc: Option<nat>)
      ensures fileLineCount == (if wc.Some? then wc.value else 0) && sent == []
    {
      fileLineCount, sent := 0, [];
      if wc.Some? {
        fileLineCount := wc.value;
      }
    }

    /** The `run` helper, from the command's output on. */
    static method Run(output: Option<string>) returns (result: seq<string>)
      ensures result == Lines(output)
      ensures output.None? ==> result == []
      ensures forall l :: l in result ==> output.Some? && !ToDrop(l) && OfSome(Split(output.value, '\n'), l)
      ensures output.Some? ==>
                forall p, l :: p in Split(output.value, '\n') && LessRun(p, '\r', l) && !ToDrop(l) ==> l in result
    {
      result := [];
      if output.None? {
        return;
      }
      var pieces := Split(output.value, '\n');
      var i := 0;
      while i < |pieces|
        invariant 0 <= i <= |pieces|
        invariant result == Filter(pieces[..i])
      {
        TakeSnoc(pieces, i);
        FilterSnoc(pieces[..i], pieces[i]);
        var l := TrimRightChar(pieces[i], '\r');
        i := i + 1;
        if l == "" || (META_START <= l && HasSuffix(l, META_END)) {
          continue;
        }
        result := result + [l];
      }
      TakeAll(pieces);
      FilterExact(pieces);
    }

    /** One tick of the polling loop. */
    method Tick(p: Poll)
      modifies this
      ensures Tail(fileLineCount, sent) == Polled(Tail(old(fileLineCount), old(sent)), p)
    {
      var newLines := Run(Output(Rest(p.file, fileLineCount), p.reply));
      if |newLines| > 0 {
        fileLineCount := fileLineCount + |newLines|;
        sent := sent + newLines;
      } else {
        assert sent + newLines == sent;
      }
    }
  }

  lemma FilterSnoc(pieces: seq<string>, piece: string)
    ensures Filter(pieces + [piece]) == Filter(pieces) + match Clean(piece) case None => [] case Some(l) => [l]
  {
    assert (pieces + [piece])[..|pieces|] == pieces;
  }

  lemma {:induction false} FilterAppend(a: seq<string>, b: seq<string>)
    ensures Filter(a + b) == Filter(a) + Filter(b)
  {
    if b == [] {
      assert a + b == a && Filter(a) + [] == Filter(a);
    } else {
      var init, last := b[..|b| - 1], b[|b| - 1];
      assert a + b == (a + init) + [last] && b == init + [last];
      FilterAppend(a, init);
      FilterSnoc(a + init, last);
      FilterSnoc(init, last);
      Assoc(Filter(a), Filter(init), match Clean(last) case None => [] case Some(l) => [l]);
    }
  }

  lemma BlankDropped()
    ensures Filter([""]) == []
  {
    FilterSnoc([], "");
    assert [] + [""] == [""];
  }

  // ---- What a poll sends ----

  /** How many whole lines are among the first `n` characters. */
  function LinesIn(rest: seq<string>, n: nat): (k: nat)
    ensures k <= |rest|
  {
    if rest == [] || n <= |rest[0]| then 0 else 1 + LinesIn(rest[1..], n - |rest[0]| - 1)
  }

  /** What they hold of the next line. */
  function Part(rest: seq<string>, n: nat): (part: string)
    ensures LinesIn(rest, n) == |rest| ==> part == ""
    ensures LinesIn(rest, n) < |rest| ==> part <= rest[LinesIn(rest, n)]
  {
    if rest == [] then "" else if n <= |rest[0]| then rest[0][..n] else Part(rest[1..], n - |rest[0]| - 1)
  }

  /** The whole lines and the part of a line among them. */
  function CutPieces(rest: seq<string>, n: nat): seq<string> {
    rest[..LinesIn(rest, n)] + [Part(rest, n)]
  }

  /** The lines sent of the first `n` characters of the output. */
  function CutLines(rest: seq<string>, n: nat): seq<string> {
    Filter(Split(Output(rest, Bytes(n)).value, '\n'))
  }

  lemma FirstLineOf(line: string, more: string)
    requires '\n' !in line
    ensures Filter(Split(line + "\n" + more, '\n')) == Filter([line]) + Filter(Split(more, '\n'))
  {
    SplitConcat(line, more, '\n');
    SplitPlain(line, '\n');
    FilterAppend([line], Split(more, '\n'));
  }

  lemma OutputFirst(rest: seq<string>, n: nat)
    requires rest != [] && n > |rest[0]|
    ensures Output(rest, Bytes(n)).value == rest[0] + "\n" + Output(rest[1..], Bytes(n - |rest[0]| - 1)).value
  {
    var more := FileText(rest[1..]);
    assert FileText(rest) == rest[0] + "\n" + more;
    if n < |FileText(rest)| {
      assert (rest[0] + "\n" + more)[..n] == rest[0] + "\n" + more[..n - |rest[0]| - 1];
    }
  }

  lemma TakeFirst(rest: seq<string>, k: nat, part: string)
    requires rest != [] && k < |rest|
    ensures Filter(rest[..k + 1] + [part]) == Filter([rest[0]]) + Filter(rest[1..][..k] + [part])
  {
    FilterAppend([rest[0]], rest[1..][..k] + [part]);
    assert rest[..k + 1] + [part] == [rest[0]] + (rest[1..][..k] + [part]);
  }

  /** Splitting and filtering the output, wherever it is cut, gives the whole lines and
      the part of a line, filtered. */
  lemma {:induction false} LinesOfCut(rest: seq<string>, n: nat)
    requires IsFile(rest)
    ensures CutLines(rest, n) == Filter(CutPieces(rest, n))
    decreases |rest|
  {
    if rest == [] {
      CutInNone(rest, n);
    } else if n <= |rest[0]| {
      CutInFirst(rest, n);
    } else {
      FileTail(rest);
      LinesOfCut(rest[1..], n - |rest[0]| - 1);
      CutLater(rest, n, n - |rest[0]| - 1);
    }
  }

  lemma CutInNone(rest: seq<string>, n: nat)
    requires rest == []
    ensures CutLines(rest, n) == Filter(CutPieces(rest, n))
  {
    assert rest[..0] + [""] == [""];
  }

  lemma FileTail(rest: seq<string>)
    requires IsFile(rest) && rest != []
    ensures IsFile(rest[1..])
  {
  }

  lemma CutLater(rest: seq<string>, n: nat, m: nat)
    requires rest != [] && IsFile(rest) && n == |rest[0]| + 1 + m
    requires CutLines(rest[1..], m) == Filter(CutPieces(rest[1..], m))
    ensures CutLines(rest, n) == Filter(CutPieces(rest, n))
  {
    assert rest[0] in rest;
    OutputFirst(rest, n);
    FirstLineOf(rest[0], Output(rest[1..], Bytes(m)).value);
    TakeFirst(rest, LinesIn(rest[1..], m), Part(rest[1..], m));
  }

  lemma CutInFirst(rest: seq<string>, n: nat)
    requires rest != [] && IsFile(rest) && n <= |rest[0]|
    ensures CutLines(rest, n) == Filter(CutPieces(rest, n))
  {
    assert rest[0] in rest && Output(rest, Bytes(n)).value == rest[0][..n];
    SplitPlain(rest[0][..n], '\n');
    assert rest[..0] + [rest[0][..n]] == [rest[0][..n]];
  }

  /** How many whole lines a poll read, and what of the line after them. */
  function Got(rest: seq<string>, reply: Reply): (k: nat)
    ensures k <= |rest|
  {
    match reply
    case NoSession => 0
    case Bytes(n) => LinesIn(rest, n)
  }

  function CutPart(rest: seq<string>, reply: Reply): (part: string)
    ensures Got(rest, reply) == |rest| ==> part == ""
    ensures Got(rest, reply) < |rest| ==> part <= rest[Got(rest, reply)]
  {
    match reply
    case NoSession => ""
    case Bytes(n) => Part(rest, n)
  }

  /** Wherever its output is cut, a poll sends the whole lines it read, less the dropped
      ones, and then what is left of the line it was cut in, if it is left standing. */
  lemma PollSends(t: Tail, p: Poll)
    requires IsFile(p.file)
    ensures var rest := Rest(p.file, t.count);
            Lines(Output(rest, p.reply)) == Filter(rest[..Got(rest, p.reply)]) + Filter([CutPart(rest, p.reply)])
  {
    var rest := Rest(p.file, t.count);
    match p.reply {
      case NoSession =>
        BlankDropped();
        assert Filter(rest[..0]) == [];
      case Bytes(n) =>
        LinesOfCut(rest, n);
        FilterAppend(rest[..LinesIn(rest, n)], [Part(rest, n)]);
    }
  }

  predicate NoneDropped(lines: seq<string>) {
    forall i :: 0 <= i < |lines| ==> Clean(lines[i]).Some?
  }

  lemma {:induction false} FilterFull(lines: seq<string>)
    ensures |Filter(lines)| == |lines| <==> NoneDropped(lines)
  {
    if lines != [] {
      var last := |lines| - 1;
      FilterFull(lines[..last]);
      NoneDroppedLast(lines);
    }
  }

  lemma NoneDroppedLast(lines: seq<string>)
    requires lines != []
    ensures NoneDropped(lines) <==> NoneDropped(lines[..|lines| - 1]) && Clean(lines[|lines| - 1]).Some?
  {
  }

  lemma FilterOne(piece: string)
    ensures |Filter([piece])| == if Clean(piece).Some? then 1 else 0
  {
    assert [piece][..0] == [];
  }

  // ---- The counter ----

  /** A poll leaves the counter at the end of the lines it read or before, unless it was
      cut inside a line, something of that line was left standing and no line before it
      was dropped: then, and only then, the counter has passed the cut line too. */
  lemma PassesIff(t: Tail, p: Poll)
    requires IsFile(p.file)
    ensures var rest := Rest(p.file, t.count);
            var end := t.count + Got(rest, p.reply);
            && t.count <= Polled(t, p).count <= end + 1
            && (Polled(t, p).count > end <==>
                  NoneDropped(rest[..Got(rest, p.reply)]) && Clean(CutPart(rest, p.reply)).Some?)
  {
    var rest := Rest(p.file, t.count);
    PollSends(t, p);
    FilterFull(rest[..Got(rest, p.reply)]);
    FilterOne(CutPart(rest, p.reply));
  }

  lemma PollKeepsFew(t: Tail, p: Poll)
    requires IsFile(p.file) && t.count <= |p.file|
    ensures Polled(t, p).count <= |p.file|
    ensures |Polled(t, p).sent| - |t.sent| == Polled(t, p).count - t.count
  {
    PassesIff(t, p);
  }

  /** The file before a poll: what the poll before it saw, or `first`. */
  function Before(first: seq<string>, polls: seq<Poll>): seq<string> {
    if polls == [] then first else polls[|polls| - 1].file
  }

  /** The file only grows from poll to poll, starting from `first`. */
  predicate AppendOnly(first: seq<string>, polls: seq<Poll>)
    decreases |polls|
  {
    polls != [] ==>
      var (init, p) := (polls[..|polls| - 1], polls[|polls| - 1]);
      AppendOnly(first, init) && IsFile(p.file) && Before(first, init) <= p.file
  }

  /** Whatever becomes of each poll: the counter never passes the file's line count, and
      it has grown by exactly the number of lines sent. So the lines sent are never more
      than the lines appended. */
  lemma {:induction false} CountConserved(first: seq<string>, t: Tail, polls: seq<Poll>)
    requires AppendOnly(first, polls) && t.count <= |first|
    ensures var u := After(t, polls);
            && t.count <= u.count <= |Before(first, polls)|
            && |u.sent| - |t.sent| == u.count - t.count
            && |u.sent| - |t.sent| <= |Before(first, polls)| - t.count
    decreases |polls|
  {
    if polls != [] {
      var init, p := polls[..|polls| - 1], polls[|polls| - 1];
      CountConserved(first, t, init);
      PollKeepsFew(After(t, init), p);
    }
  }

  // ---- At least once ----

  /** All there was to read came through. */
  predicate Full(rest: seq<string>, reply: Reply) {
    reply.Bytes? && reply.n >= |FileText(rest)|
  }

  lemma {:induction false} FullGetsAll(rest: seq<string>, reply: Reply)
    requires Full(rest, reply)
    ensures Got(rest, reply) == |rest|
    decreases |rest|
  {
    if rest != [] {
      FullGetsAll(rest[1..], Bytes(reply.n - |rest[0]| - 1));
    }
  }

  /** Line `i` of the file is one of those the poll read whole. */
  predicate InWindow(start: nat, p: Poll, i: nat) {
    start <= i < start + Got(Rest(p.file, start), p.reply)
  }

  /** The line after those that the poll read whole. */
  function End(u: Tail, p: Poll): nat {
    u.count + Got(Rest(p.file, u.count), p.reply)
  }

  /** What the poll read of that line, as it is sent. */
  function Cut(u: Tail, p: Poll): Option<string> {
    Clean(CutPart(Rest(p.file, u.count), p.reply))
  }

  /** Line `i` came through: the poll read it whole, or as much of it as gets sent. */
  predicate Delivers(u: Tail, p: Poll, i: nat) {
    InWindow(u.count, p, i) || (i == End(u, p) && i < |p.file| && Cut(u, p) == Clean(p.file[i]))
  }

  predicate WasDelivered(t: Tail, polls: seq<Poll>, i: nat)
    decreases |polls|
  {
    polls != [] &&
    var (init, p) := (polls[..|polls| - 1], polls[|polls| - 1]);
    WasDelivered(t, init, i) || Delivers(After(t, init), p, i)
  }

  /** The poll was cut in a line and left the counter behind that line. */
  predicate PassesCut(u: Tail, p: Poll) {
    Polled(u, p).count > End(u, p)
  }

  /** And what it sent of that line is not what the line should have been sent as. */
  predicate CutsShort(u: Tail, p: Poll) {
    PassesCut(u, p) && End(u, p) < |p.file| && Clean(p.file[End(u, p)]).Some? && Cut(u, p) != Clean(p.file[End(u, p)])
  }

  /** No poll cut a line short, unless that line had come through before. */
  predicate NeverCutShort(t: Tail, polls: seq<Poll>)
    decreases |polls|
  {
    polls != [] ==>
      var (init, p) := (polls[..|polls| - 1], polls[|polls| - 1]);
      NeverCutShort(t, init) && (CutsShort(After(t, init), p) ==> WasDelivered(t, init, End(After(t, init), p)))
  }

  lemma EndBehind(u: Tail, p: Poll)
    ensures u.count <= End(u, p) && !InWindow(u.count, p, End(u, p))
  {
  }

  lemma CountedStep(u: Tail, p: Poll, i: nat)
    requires IsFile(p.file) && u.count <= |p.file| && u.count <= i < Polled(u, p).count
    requires i < |p.file| && Clean(p.file[i]).Some?
    ensures Delivers(u, p, i) || (CutsShort(u, p) && i == End(u, p))
  {
    PassesIff(u, p);
  }

  /** Every line the counter has passed has come through, unless it is one to drop. */
  lemma {:induction false} CountedIsDelivered(first: seq<string>, t: Tail, polls: seq<Poll>, i: nat)
    requires AppendOnly(first, polls) && t.count <= |first| && NeverCutShort(t, polls)
    requires t.count <= i < After(t, polls).count && i < |Before(first, polls)| && Clean(Before(first, polls)[i]).Some?
    ensures WasDelivered(t, polls, i)
    decreases |polls|
  {
    var init, p := polls[..|polls| - 1], polls[|polls| - 1];
    CountConserved(first, t, init);
    if i < After(t, init).count {
      CountedIsDelivered(first, t, init, i);
    } else {
      CountedStep(After(t, init), p, i);
    }
  }

  lemma NothingBehind(u: Tail, p: Poll, i: nat)
    requires i < u.count
    ensures !Delivers(u, p, i)
  {
    EndBehind(u, p);
  }

  /** What the counter has passed and never came through stays behind: later polls start
      after it. */
  lemma {:induction false} PassedStaysBehind(t: Tail, polls: seq<Poll>, later: seq<Poll>, i: nat)
    requires !WasDelivered(t, polls, i) && i < After(t, polls).count
    ensures !WasDelivered(t, polls + later, i) && i < After(t, polls + later).count
    decreases |later|
  {
    if later == [] {
      assert polls + later == polls;
    } else {
      var init := later[..|later| - 1];
      PassedStaysBehind(t, polls, init, i);
      assert (polls + later)[..|polls + later| - 1] == polls + init;
      NothingBehind(After(t, polls + init), later[|later| - 1], i);
    }
  }

  /** A line that was cut short and passed. */
  ghost predicate Missed(first: seq<string>, t: Tail, polls: seq<Poll>, i: nat) {
    && t.count <= i < After(t, polls).count && !WasDelivered(t, polls, i)
    && i < |Before(first, polls)| && Clean(Before(first, polls)[i]).Some?
  }

  lemma CutShortStep(u: Tail, p: Poll)
    requires CutsShort(u, p)
    ensures var i := End(u, p);
            u.count <= i < Polled(u, p).count && i < |p.file| && !Delivers(u, p, i) && Clean(p.file[i]).Some?
  {
    EndBehind(u, p);
  }

  lemma DeliveredLast(t: Tail, init: seq<Poll>, p: Poll, i: nat)
    ensures WasDelivered(t, init + [p], i) <==> WasDelivered(t, init, i) || Delivers(After(t, init), p, i)
    ensures After(t, init + [p]) == Polled(After(t, init), p)
  {
    assert (init + [p])[..|init|] == init;
  }

  lemma MissedHere(first: seq<string>, t: Tail, init: seq<Poll>, p: Poll, i: nat)
    requires var u := After(t, init); t.count <= u.count <= i < Polled(u, p).count && !Delivers(u, p, i)
    requires !WasDelivered(t, init, i) && i < |p.file| && Clean(p.file[i]).Some?
    ensures Missed(first, t, init + [p], i)
  {
    DeliveredLast(t, init, p, i);
  }

  lemma StillMissed(first: seq<string>, t: Tail, init: seq<Poll>, p: Poll, i: nat)
    requires AppendOnly(first, init + [p]) && Missed(first, t, init, i)
    ensures Missed(first, t, init + [p], i)
  {
    assert (init + [p])[..|init|] == init;
    DeliveredLast(t, init, p, i);
    NothingBehind(After(t, init), p, i);
  }

  lemma FirstCut(t: Tail, init: seq<Poll>, p: Poll)
    requires !NeverCutShort(t, init + [p]) && NeverCutShort(t, init)
    ensures CutsShort(After(t, init), p) && !WasDelivered(t, init, End(After(t, init), p))
  {
    assert (init + [p])[..|init|] == init;
  }

  lemma {:induction false} MissedLine(first: seq<string>, t: Tail, polls: seq<Poll>) returns (i: nat)
    requires AppendOnly(first, polls) && t.count <= |first| && !NeverCutShort(t, polls)
    ensures Missed(first, t, polls, i)
    decreases |polls|
  {
    var init, p := polls[..|polls| - 1], polls[|polls| - 1];
    assert polls == init + [p];
    if NeverCutShort(t, init) {
      CountConserved(first, t, init);
      FirstCut(t, init, p);
      i := End(After(t, init), p);
      CutShortStep(After(t, init), p);
      MissedHere(first, t, init, p, i);
    } else {
      i := MissedLine(first, t, init);
      StillMissed(first, t, init, p, i);
    }
  }

  /** Every line past the initial count has come through, unless it is one to drop. */
  ghost predicate AllDelivered(t: Tail, polls: seq<Poll>, file: seq<string>) {
    forall i: nat :: t.count <= i < |file| && Clean(file[i]).Some? ==> WasDelivered(t, polls, i)
  }

  /** Delivery at least once, exactly: by the end of a poll that comes through, every line
      past the initial count that is not to be dropped has come through as it is to be sent,
      if and only if no poll cut short a line that had not come through before. Polls may
      have failed or been cut anywhere else. */
  lemma AllDeliveredIff(first: seq<string>, t: Tail, polls: seq<Poll>)
    requires AppendOnly(first, polls) && t.count <= |first| && polls != []
    requires var p := polls[|polls| - 1]; Full(Rest(p.file, After(t, polls[..|polls| - 1]).count), p.reply)
    ensures AllDelivered(t, polls, Before(first, polls)) <==> NeverCutShort(t, polls)
  {
    var init, p := polls[..|polls| - 1], polls[|polls| - 1];
    var u := After(t, init);
    CountConserved(first, t, init);
    FullGetsAll(Rest(p.file, u.count), p.reply);
    if NeverCutShort(t, polls) {
      forall i: nat | t.count <= i < |p.file| && Clean(p.file[i]).Some? ensures WasDelivered(t, polls, i) {
        if i < u.count {
          CountGrowsOnce(u, p);
          CountedIsDelivered(first, t, polls, i);
        } else {
          assert InWindow(u.count, p, i);
        }
      }
    } else {
      var i := MissedLine(first, t, polls);
    }
  }

  lemma CountGrowsOnce(u: Tail, p: Poll)
    ensures u.count <= Polled(u, p).count
  {
  }

  lemma {:induction false} FilterHas(lines: seq<string>, i: nat, l: string)
    requires i < |lines| && Clean(lines[i]) == Some(l)
    ensures l in Filter(lines)
  {
    var last := |lines| - 1;
    assert lines == lines[..last] + [lines[last]];
    FilterSnoc(lines[..last], lines[last]);
    if i < last {
      FilterHas(lines[..last], i, l);
    }
  }

  lemma WindowIsSent(u: Tail, p: Poll, i: nat, l: string)
    requires IsFile(p.file) && InWindow(u.count, p, i)
    requires i < |p.file| && Clean(p.file[i]) == Some(l)
    ensures l in Polled(u, p).sent
  {
    PollSends(u, p);
    WindowHas(u, p, i, l, Rest(p.file, u.count));
  }

  lemma WindowHas(u: Tail, p: Poll, i: nat, l: string, rest: seq<string>)
    requires InWindow(u.count, p, i) && rest == Rest(p.file, u.count)
    requires i < |p.file| && Clean(p.file[i]) == Some(l)
    ensures l in Filter(rest[..Got(rest, p.reply)])
  {
    assert rest[..Got(rest, p.reply)][i - u.count] == p.file[i];
    FilterHas(rest[..Got(rest, p.reply)], i - u.count, l);
  }

  lemma CutIsSent(u: Tail, p: Poll, l: string)
    requires IsFile(p.file) && Cut(u, p) == Some(l)
    ensures l in Polled(u, p).sent
  {
    PollSends(u, p);
    FilterHas([CutPart(Rest(p.file, u.count), p.reply)], 0, l);
  }

  lemma {:induction false} DeliveredInFile(first: seq<string>, t: Tail, polls: seq<Poll>, i: nat)
    requires AppendOnly(first, polls) && WasDelivered(t, polls, i)
    ensures i < |Before(first, polls)|
    decreases |polls|
  {
    if WasDelivered(t, polls[..|polls| - 1], i) {
      DeliveredInFile(first, t, polls[..|polls| - 1], i);
    }
  }

  /** A line that came through is among the lines sent, unless it is one to drop. */
  lemma {:induction false} DeliveredIsSent(first: seq<string>, t: Tail, polls: seq<Poll>, i: nat, l: string)
    requires AppendOnly(first, polls) && WasDelivered(t, polls, i)
    requires i < |Before(first, polls)| && Clean(Before(first, polls)[i]) == Some(l)
    ensures l in After(t, polls).sent
    decreases |polls|
  {
    var init, p := polls[..|polls| - 1], polls[|polls| - 1];
    if WasDelivered(t, init, i) {
      DeliveredInFile(first, t, init, i);
      DeliveredIsSent(first, t, init, i, l);
    } else if InWindow(After(t, init).count, p, i) {
      WindowIsSent(After(t, init), p, i, l);
    } else {
      CutIsSent(After(t, init), p, l);
    }
  }

  /** So unless a line was cut short, every line appended since the start, as sent, has
      been sent by the end of a poll that comes through. */
  lemma AtLeastOnce(first: seq<string>, t: Tail, polls: seq<Poll>, i: nat)
    requires AppendOnly(first, polls) && t.count <= |first| && NeverCutShort(t, polls) && polls != []
    requires var p := polls[|polls| - 1]; Full(Rest(p.file, After(t, polls[..|polls| - 1]).count), p.reply)
    requires t.count <= i < |Before(first, polls)|
    ensures match Clean(Before(first, polls)[i])
            case None => true
            case Some(l) => l in After(t, polls).sent
  {
    AllDeliveredIff(first, t, polls);
    match Clean(Before(first, polls)[i])
    case None =>
    case Some(l) => DeliveredIsSent(first, t, polls, i, l);
  }

  /** Line `i` comes through in no later poll, whatever becomes of the file. */
  ghost predicate OutOfReach(v: Tail, i: nat) {
    forall later :: !WasDelivered(v, later, i)
  }

  /** A line that a poll was cut in is out of reach of every later poll exactly when
      something of it was left standing and no line before it in the same poll was
      dropped. Otherwise the next poll that comes through reads it whole. */
  lemma CutLineLostIff(u: Tail, p: Poll)
    requires IsFile(p.file) && u.count <= |p.file|
    requires Got(Rest(p.file, u.count), p.reply) < |Rest(p.file, u.count)|
    ensures var rest := Rest(p.file, u.count);
            var k := Got(rest, p.reply);
            OutOfReach(Polled(u, p), u.count + k) <==> NoneDropped(rest[..k]) && Clean(CutPart(rest, p.reply)).Some?
  {
    var rest := Rest(p.file, u.count);
    ReachOf(u, p, rest, Got(rest, p.reply), Polled(u, p));
  }

  lemma ReachOf(u: Tail, p: Poll, rest: seq<string>, k: nat, v: Tail)
    requires IsFile(p.file) && u.count <= |p.file|
    requires rest == Rest(p.file, u.count) && k == Got(rest, p.reply) < |rest| && v == Polled(u, p)
    ensures OutOfReach(v, u.count + k) <==> NoneDropped(rest[..k]) && Clean(CutPart(rest, p.reply)).Some?
  {
    ReachIff(v, p.file, u.count + k);
    CutPasses(u, p, v.count > u.count + k);
  }

  lemma CutPasses(u: Tail, p: Poll, passes: bool)
    requires IsFile(p.file) && passes == (Polled(u, p).count > End(u, p))
    ensures var rest := Rest(p.file, u.count);
            passes <==> NoneDropped(rest[..Got(rest, p.reply)]) && Clean(CutPart(rest, p.reply)).Some?
  {
    PassesIff(u, p);
  }

  lemma ReachIff(v: Tail, file: seq<string>, i: nat)
    requires IsFile(file) && i < |file|
    ensures OutOfReach(v, i) <==> i < v.count
  {
    if i < v.count {
      BehindIsOutOfReach(v, i);
    } else {
      AheadIsInReach(v, file, i);
    }
  }

  lemma BehindIsOutOfReach(v: Tail, i: nat)
    requires i < v.count
    ensures OutOfReach(v, i)
  {
    forall later ensures !WasDelivered(v, later, i) {
      PassedStaysBehind(v, [], later, i);
      assert [] + later == later;
    }
  }

  lemma AheadIsInReach(v: Tail, file: seq<string>, i: nat)
    requires IsFile(file) && v.count <= i < |file|
    ensures !OutOfReach(v, i)
  {
    var again := Poll(file, Bytes(|FileText(Rest(file, v.count))|));
    FullGetsAll(Rest(file, v.count), again.reply);
    assert [again][..0] == [];
    assert WasDelivered(v, [again], i);
  }

  // ---- No more than needed ----

  /** Nothing is left to send: every line past the counter is one to drop. */
  predicate Settled(t: Tail, file: seq<string>) {
    Filter(Rest(file, t.count)) == []
  }

  lemma FullPoll(t: Tail, p: Poll)
    requires IsFile(p.file) && t.count <= |p.file| && Full(Rest(p.file, t.count), p.reply)
    ensures Polled(t, p) == Tail(t.count + |Filter(Rest(p.file, t.count))|, t.sent + Filter(Rest(p.file, t.count)))
  {
    var rest := Rest(p.file, t.count);
    FullGetsAll(rest, p.reply);
    PollSends(t, p);
    TakeAll(rest);
    BlankDropped();
    assert Filter(rest) + [] == Filter(rest);
  }

  /** Polls that all come through, of a file that stays as it is. */
  predicate Quiet(t: Tail, file: seq<string>, polls: seq<Poll>)
    decreases |polls|
  {
    polls != [] ==>
      var (init, p) := (polls[..|polls| - 1], polls[|polls| - 1]);
      Quiet(t, file, init) && p.file == file && Full(Rest(file, After(t, init).count), p.reply)
  }

  lemma SettledSendsNothing(t: Tail, p: Poll)
    requires IsFile(p.file) && t.count <= |p.file| && Full(Rest(p.file, t.count), p.reply)
    ensures Settled(t, p.file) <==> Polled(t, p) == t
  {
    FullPoll(t, p);
    assert t.sent + [] == t.sent;
  }

  /** A poll that comes through, of a file that stays as it is, sends something or is
      the end of it. */
  lemma QuietStep(u: Tail, p: Poll)
    requires IsFile(p.file) && u.count <= |p.file| && Full(Rest(p.file, u.count), p.reply)
    ensures var v := Polled(u, p);
            && u.count <= v.count <= |p.file|
            && (if Settled(u, p.file) then v == u else v.count > u.count)
            && (v.count == |p.file| ==> Settled(v, p.file))
  {
    FullPoll(u, p);
    SettledSendsNothing(u, p);
    assert Rest(p.file, |p.file|) == [];
  }

  /** How far polling has got: settled, or a line further with each poll. */
  predicate Draining(u: Tail, file: seq<string>, from: nat, polls: nat) {
    u.count <= |file| && (Settled(u, file) || (u.count >= from + polls && u.count < |file|))
  }

  lemma DrainStep(u: Tail, p: Poll, from: nat, polls: nat)
    requires IsFile(p.file) && Draining(u, p.file, from, polls) && Full(Rest(p.file, u.count), p.reply)
    ensures Draining(Polled(u, p), p.file, from, polls + 1)
  {
    QuietStep(u, p);
  }

  lemma {:induction false} Drains(t: Tail, file: seq<string>, polls: seq<Poll>)
    requires IsFile(file) && t.count <= |file| && Quiet(t, file, polls)
    ensures Draining(After(t, polls), file, t.count, |polls|)
    decreases |polls|
  {
    if polls == [] {
      if t.count == |file| {
        assert Rest(file, t.count) == [];
      }
    } else {
      Drains(t, file, polls[..|polls| - 1]);
      DrainStep(After(t, polls[..|polls| - 1]), polls[|polls| - 1], t.count, |polls| - 1);
    }
  }

  /** On a file that stays as it is, polling stops sending after as many polls that come
      through as there were lines to read. */
  lemma Quiesces(t: Tail, file: seq<string>, polls: seq<Poll>)
    requires IsFile(file) && t.count <= |file| && Quiet(t, file, polls)
    requires |polls| >= |file| - t.count
    ensures Settled(After(t, polls), file)
  {
    Drains(t, file, polls);
  }

  /** A poll that comes through catches the counter up exactly when it dropped nothing;
      otherwise the last lines it sent will be sent again. */
  lemma CatchesUpIff(t: Tail, p: Poll)
    requires IsFile(p.file) && t.count <= |p.file| && Full(Rest(p.file, t.count), p.reply)
    ensures Polled(t, p).count == |p.file| <==> NoneDropped(p.file[t.count..])
  {
    FullPoll(t, p);
    FilterFull(Rest(p.file, t.count));
  }
}
