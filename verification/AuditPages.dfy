/** Keyset pagination of the audit log: the handler, the service and the loop of a
    client that follows `next_cursor`. */
module AuditPages {
  import opened Text
  import opened AuditQuery
  import R = AuditReader

  // ---- The table ----

  /** `a` comes before `b` in the listing: newest first, ids descending. */
  predicate Newer(a: Event, b: Event) {
    Before(b.createdAt, b.id, a.createdAt, a.id)
  }

  /** A table's rows in listing order, (created_at, id) descending; no two rows share a
      place and no id is blank. */
  ghost predicate Table(rows: seq<Event>) {
    && (forall i, j :: 0 <= i < j < |rows| ==> Newer(rows[i], rows[j]))
    && (forall e :: e in rows ==> e.id != "" && TrimSpace(e.id) == e.id)
  }

  /** The rows a filter selects, in listing order. */
  function Select(rows: seq<Event>, f: Filter): seq<Event> {
    if rows == [] then []
    else (if Matches(f, rows[0]) && PastCursor(f, rows[0]) then [rows[0]] else []) + Select(rows[1..], f)
  }

  function Limit(n: nat, rows: seq<Event>): seq<Event> {
    if |rows| <= n then rows else rows[..n]
  }

  function NoCursor(f: Filter): Filter {
    f.(beforeCreatedAt := None, beforeID := "")
  }

  /** `b` goes on where `a` ends, or they differ first at a character that is smaller in `a`. */
  predicate SmallerAt(a: string, b: string, k: nat) {
    && k <= |a| && k < |b| && a[..k] == b[..k]
    && (k == |a| || a[k] < b[k])
  }

  lemma {:induction false} LessExact(a: string, b: string)
    ensures Less(a, b) <==> exists k: nat :: SmallerAt(a, b, k)
  {
    if b != "" && (a == "" || a[0] < b[0]) {
      assert SmallerAt(a, b, 0);
    } else if a != "" && b != "" && a[0] == b[0] {
      LessExact(a[1..], b[1..]);
      if k: nat :| SmallerAt(a[1..], b[1..], k) {
        SmallerDeeper(a, b, k);
      }
      if k: nat :| SmallerAt(a, b, k) {
        assert k > 0 && a[1..][..k - 1] == a[..k][1..] && b[1..][..k - 1] == b[..k][1..];
        assert SmallerAt(a[1..], b[1..], k - 1);
      }
    } else {
      forall k: nat ensures !SmallerAt(a, b, k) {
        if k > 0 && k <= |a| && k < |b| {
          assert a[..k][0] == a[0] && b[..k][0] == b[0];
        }
      }
    }
  }

  lemma SmallerDeeper(a: string, b: string, k: nat)
    requires a != "" && b != "" && a[0] == b[0] && SmallerAt(a[1..], b[1..], k)
    ensures SmallerAt(a, b, k + 1)
  {
    assert a[..k + 1] == [a[0]] + a[1..][..k] && b[..k + 1] == [b[0]] + b[1..][..k];
  }

  lemma LessIrreflexive(a: string)
    ensures !Less(a, a)
  {
  }

  lemma {:induction false} LessTransitive(a: string, b: string, c: string)
    requires Less(a, b) && Less(b, c)
    ensures Less(a, c)
  {
    if a != "" && a[0] == b[0] == c[0] {
      LessTransitive(a[1..], b[1..], c[1..]);
    }
  }

  lemma LessAsymmetric(a: string, b: string)
    requires Less(a, b)
    ensures !Less(b, a)
  {
    if Less(b, a) {
      LessTransitive(a, b, a);
      LessIrreflexive(a);
    }
  }

  lemma {:induction false} LessTotal(a: string, b: string)
    ensures a == b || Less(a, b) || Less(b, a)
  {
    if a != "" && b != "" && a[0] == b[0] {
      LessTotal(a[1..], b[1..]);
      assert a == [a[0]] + a[1..] && b == [b[0]] + b[1..];
    }
  }

  lemma NewerAsymmetric(a: Event, b: Event)
    requires Newer(a, b)
    ensures !Newer(b, a)
  {
    if a.createdAt == b.createdAt {
      LessAsymmetric(b.id, a.id);
    }
  }

  lemma NewerIrreflexive(a: Event)
    ensures !Newer(a, a)
  {
    LessIrreflexive(a.id);
  }

  lemma NewerTransitive(a: Event, b: Event, c: Event)
    requires Newer(a, b) && Newer(b, c)
    ensures Newer(a, c)
  {
    if a.createdAt == b.createdAt == c.createdAt {
      LessTransitive(c.id, b.id, a.id);
    }
  }

  lemma NewerTotal(a: Event, b: Event)
    requires a.id != b.id
    ensures Newer(a, b) || Newer(b, a)
  {
    LessTotal(a.id, b.id);
  }

  // ---- The order of the listing ----

  /** The rows of the table as they are stored: in any order, each with its own id, which
      is a UUID and so not blank. */
  ghost predicate Store(rows: seq<Event>) {
    && (forall i, j :: 0 <= i < j < |rows| ==> rows[i].id != rows[j].id)
    && (forall e :: e in rows ==> e.id != "" && TrimSpace(e.id) == e.id)
  }

  function InsertRow(x: Event, rows: seq<Event>): seq<Event> {
    if rows == [] || Newer(x, rows[0]) then [x] + rows else [rows[0]] + InsertRow(x, rows[1..])
  }

  /** `ORDER BY created_at DESC, id DESC`. */
  function Ordered(rows: seq<Event>): seq<Event> {
    if rows == [] then [] else InsertRow(rows[0], Ordered(rows[1..]))
  }

  predicate Descending(rows: seq<Event>) {
    forall i, j :: 0 <= i < j < |rows| ==> Newer(rows[i], rows[j])
  }

  lemma {:induction false} InsertHas(x: Event, rows: seq<Event>)
    ensures multiset(InsertRow(x, rows)) == multiset(rows) + multiset{x}
  {
    if rows != [] && !Newer(x, rows[0]) {
      InsertHas(x, rows[1..]);
      assert rows == [rows[0]] + rows[1..];
    }
  }

  lemma Prepended(x: Event, rows: seq<Event>)
    requires Descending(rows) && (rows != [] ==> Newer(x, rows[0]))
    ensures Descending([x] + rows)
  {
    forall j | 0 <= j < |rows| ensures Newer(x, rows[j]) {
      if j > 0 {
        NewerTransitive(x, rows[0], rows[j]);
      }
    }
  }

  lemma {:induction false} InsertDescends(x: Event, rows: seq<Event>)
    requires Descending(rows) && forall e :: e in rows ==> e.id != x.id
    ensures Descending(InsertRow(x, rows))
  {
    if rows == [] || Newer(x, rows[0]) {
      Prepended(x, rows);
    } else {
      NewerTotal(x, rows[0]);
      InsertDescends(x, rows[1..]);
      Prepended(rows[0], InsertRow(x, rows[1..]));
    }
  }

  lemma {:induction false} OrderedHas(rows: seq<Event>)
    ensures multiset(Ordered(rows)) == multiset(rows)
    ensures forall e :: e in Ordered(rows) <==> e in rows
  {
    if rows != [] {
      OrderedHas(rows[1..]);
      InsertHas(rows[0], Ordered(rows[1..]));
      assert rows == [rows[0]] + rows[1..];
    }
    forall e ensures e in Ordered(rows) <==> e in rows {
      assert e in multiset(Ordered(rows)) <==> e in multiset(rows);
    }
  }

  lemma {:induction false} OrderedDescends(rows: seq<Event>)
    requires Store(rows)
    ensures Descending(Ordered(rows))
  {
    if rows != [] {
      OrderedDescends(rows[1..]);
      OrderedHas(rows[1..]);
      InsertDescends(rows[0], Ordered(rows[1..]));
    }
  }

  /** Ordering keeps the rows and puts them in the listing's order. */
  lemma OrderedIsTable(rows: seq<Event>)
    requires Store(rows)
    ensures Table(Ordered(rows)) && multiset(Ordered(rows)) == multiset(rows)
  {
    OrderedHas(rows);
    OrderedDescends(rows);
  }

  predicate Wants(f: Filter, e: Event) {
    Matches(f, e) && PastCursor(f, e)
  }

  lemma {:induction false} SelectFrom(rows: seq<Event>, f: Filter, e: Event)
    requires e in Select(rows, f)
    ensures e in rows
  {
    if e !in Select(rows[1..], f) {
      assert e == rows[0];
    } else {
      SelectFrom(rows[1..], f, e);
    }
  }

  lemma DescendingTail(rows: seq<Event>)
    requires Descending(rows) && rows != []
    ensures Descending(rows[1..]) && (|rows| > 1 ==> Newer(rows[0], rows[1]))
  {
  }

  /** What comes before all rows comes before the first selected one. */
  lemma {:induction false} SelectHead(x: Event, rows: seq<Event>, f: Filter)
    requires Descending(rows) && (rows != [] ==> Newer(x, rows[0]))
    ensures Select(rows, f) != [] ==> Newer(x, Select(rows, f)[0])
  {
    if rows != [] {
      HeadAndTail(rows);
      SelectCons(rows[0], rows[1..], f);
      if !Wants(f, rows[0]) {
        DescendingTail(rows);
        if |rows| > 1 {
          NewerTransitive(x, rows[0], rows[1]);
        }
        SelectHead(x, rows[1..], f);
      }
    }
  }

  lemma HeadAndTail<T>(s: seq<T>)
    requires s != []
    ensures s == [s[0]] + s[1..]
  {
  }

  lemma InsertFirst(x: Event, rows: seq<Event>)
    requires rows == [] || Newer(x, rows[0])
    ensures InsertRow(x, rows) == [x] + rows
  {
  }

  /** `x` goes in front of all rows. */
  lemma SelectInsertFront(x: Event, rows: seq<Event>, f: Filter)
    requires Descending(rows) && (rows == [] || Newer(x, rows[0]))
    ensures Select(InsertRow(x, rows), f) == if Wants(f, x) then InsertRow(x, Select(rows, f)) else Select(rows, f)
  {
    SelectHead(x, rows, f);
    InsertFirst(x, rows);
    SelectCons(x, rows, f);
    if Wants(f, x) {
      InsertFirst(x, Select(rows, f));
    }
  }

  /** `x` goes behind `first`. */
  lemma SelectInsertBehind(x: Event, first: Event, rows: seq<Event>, f: Filter)
    requires !Newer(x, first)
    requires Select(InsertRow(x, rows), f) == if Wants(f, x) then InsertRow(x, Select(rows, f)) else Select(rows, f)
    ensures var all := [first] + rows;
            Select(InsertRow(x, all), f) == if Wants(f, x) then InsertRow(x, Select(all, f)) else Select(all, f)
  {
    InsertCons(x, first, rows);
    SelectCons(first, InsertRow(x, rows), f);
    SelectCons(first, rows, f);
    InsertCons(x, first, Select(rows, f));
  }

  lemma {:induction false} SelectInsert(x: Event, rows: seq<Event>, f: Filter)
    requires Descending(rows)
    ensures Select(InsertRow(x, rows), f) == if Wants(f, x) then InsertRow(x, Select(rows, f)) else Select(rows, f)
  {
    if rows == [] || Newer(x, rows[0]) {
      SelectInsertFront(x, rows, f);
    } else {
      DescendingTail(rows);
      SelectInsert(x, rows[1..], f);
      HeadAndTail(rows);
      SelectInsertBehind(x, rows[0], rows[1..], f);
    }
  }

  lemma SelectCons(x: Event, rows: seq<Event>, f: Filter)
    ensures Select([x] + rows, f) == if Wants(f, x) then [x] + Select(rows, f) else Select(rows, f)
  {
    assert ([x] + rows)[1..] == rows;
    assert [] + Select(rows, f) == Select(rows, f);
  }

  lemma InsertCons(x: Event, first: Event, rows: seq<Event>)
    ensures InsertRow(x, [first] + rows) == if Newer(x, first) then [x] + ([first] + rows) else [first] + InsertRow(x, rows)
  {
    assert ([first] + rows)[1..] == rows;
  }

  /** Selecting and ordering can be done in either order. */
  lemma {:induction false} OrderedSelect(rows: seq<Event>, f: Filter)
    requires Store(rows)
    ensures Ordered(Select(rows, f)) == Select(Ordered(rows), f)
  {
    if rows != [] {
      OrderedSelect(rows[1..], f);
      OrderedDescends(rows[1..]);
      SelectInsert(rows[0], Ordered(rows[1..]), f);
      OrderedCons(rows[0], Select(rows[1..], f));
      assert [] + Select(rows[1..], f) == Select(rows[1..], f);
    }
  }

  lemma OrderedCons(x: Event, rows: seq<Event>)
    ensures Ordered([x] + rows) == InsertRow(x, Ordered(rows))
  {
    assert ([x] + rows)[1..] == rows;
  }

  lemma {:induction false} OrderedLength(rows: seq<Event>)
    ensures |Ordered(rows)| == |rows|
  {
    if rows != [] {
      OrderedLength(rows[1..]);
      InsertHas(rows[0], Ordered(rows[1..]));
      assert |multiset(InsertRow(rows[0], Ordered(rows[1..])))| == |InsertRow(rows[0], Ordered(rows[1..]))|;
    }
  }

  /** A row is past the cursor of `last` exactly when it is listed after it. */
  lemma CursorIsListing(f: Filter, last: Event, e: Event)
    requires TrimSpace(last.id) == last.id != ""
    ensures PastCursor(f.(beforeCreatedAt := Some(last.createdAt), beforeID := last.id), e) <==> Newer(last, e)
  {
  }

  // ---- The repository on the table ----

  lemma {:induction false} AnswerIsSelect(rows: seq<Event>, cs: seq<Cond>, args: seq<Value>, f: Filter)
    requires forall e :: AllHold(cs, args, e) <==> Matches(f, e) && PastCursor(f, e)
    ensures R.Answer(rows, cs, args) == Select(rows, f)
  {
    if rows != [] {
      AnswerIsSelect(rows[1..], cs, args, f);
    }
  }

  /** The keys of the query's text put one row before another exactly when it is newer. */
  lemma NewestFirst(a: Event, b: Event)
    ensures R.Comes(R.NEWEST_FIRST, a, b) <==> Newer(a, b)
  {
    var time, id := R.Key("created_at", R.Descending), R.Key("id", R.Descending);
    assert R.NEWEST_FIRST == [time] + [id];
    ComesBy(time, [id], a, b);
    ComesBy(id, [], a, b);
    assert [id] + [] == [id] && !R.Comes([], a, b);
  }

  lemma ComesBy(k: R.Key, keys: seq<R.Key>, a: Event, b: Event)
    ensures R.Comes([k] + keys, a, b) <==>
            || (if k.dir.Ascending? then R.Under(k.column, a, b) else R.Under(k.column, b, a))
            || (R.Level(k.column, a, b) && R.Comes(keys, a, b))
  {
    assert ([k] + keys)[1..] == keys;
  }

  lemma {:induction false} InsertIsInsert(x: Event, rows: seq<Event>)
    ensures R.InsertBy(R.NEWEST_FIRST, x, rows) == InsertRow(x, rows)
  {
    if rows != [] {
      NewestFirst(x, rows[0]);
      InsertIsInsert(x, rows[1..]);
    }
  }

  lemma {:induction false} SortIsOrdered(rows: seq<Event>)
    ensures R.SortBy(R.NEWEST_FIRST, rows) == Ordered(rows)
  {
    if rows != [] {
      SortIsOrdered(rows[1..]);
      InsertIsInsert(rows[0], Ordered(rows[1..]));
    }
  }

  /** The database answers the query's text: with the rows on which its conditions hold, in
      the order it asks for, up to its limit. */
  method ListStatusEvents(rows: seq<Event>, f: Filter) returns (events: seq<Event>)
    requires Store(rows)
    ensures events == Limit(Clamp(f.limit), Select(Ordered(rows), f))
  {
    var q, cs := BuildList(f);
    R.ExecuteReads(rows, cs, |q.args|, q.args);
    AnswerIsSelect(rows, cs, q.args, f);
    SortIsOrdered(Select(rows, f));
    OrderedSelect(rows, f);
    FirstIsLimit(q.args, Clamp(f.limit), Select(Ordered(rows), f));
    events := R.Execute(rows, q.text, q.args);
  }

  lemma FirstIsLimit(args: seq<Value>, limit: nat, rows: seq<Event>)
    requires args != [] && args[|args| - 1] == NumberValue(limit)
    ensures R.First(args, |args|, rows) == Limit(limit, rows)
  {
    assert limit == |rows| ==> rows[..limit] == rows;
  }

  method CountStatusEvents(rows: seq<Event>, f: Filter) returns (total: nat)
    requires Store(rows)
    ensures total == |Select(Ordered(rows), NoCursor(f))|
  {
    var q, cs := BuildCount(f);
    AnswerIsSelect(rows, cs, q.args, NoCursor(f));
    OrderedSelect(rows, NoCursor(f));
    OrderedLength(Select(rows, NoCursor(f)));
    R.ExecuteCountReads(rows, cs, q.args);
    total := R.ExecuteCount(rows, q.text, q.args);
  }

  // ---- Service and handler ----

  datatype ListResult = ListResult(items: seq<Event>, total: Option<nat>)

  /** `audit.Service.List`: the count drops the cursor. */
  method List(rows: seq<Event>, f: Filter, includeTotal: bool) returns (r: ListResult)
    requires Store(rows)
    ensures r.items == Limit(Clamp(f.limit), Select(Ordered(rows), f))
    ensures r.total == if includeTotal then Some(|Select(Ordered(rows), NoCursor(f))|) else None
  {
    var items := ListStatusEvents(rows, f);
    r := ListResult(items, None);
    if includeTotal {
      var total := CountStatusEvents(rows, f.(beforeCreatedAt := None, beforeID := ""));
      r := r.(total := Some(total));
    }
  }

  /** RFC 3339 formatting and parsing of instants, as far as the cursor needs them. */
  datatype TimeText = TimeText(format: int -> string, parse: string -> Option<int>)

  ghost predicate Lawful(c: TimeText) {
    forall t :: c.parse(c.format(t)) == Some(t) && PlainText(c.format(t))
  }

  predicate PlainText(s: string) {
    s != "" && ',' !in s && !IsSpace(s[0]) && !IsSpace(s[|s| - 1])
  }

  function Tally(t: int): string {
    if t >= 0 then seq(t + 1, i => '+') else seq(-t, i => '-')
  }

  function Untally(s: string): Option<int> {
    if s == "" then None else if s[0] == '+' then Some(|s| - 1) else Some(-|s|)
  }

  lemma TallyOne(t: int)
    ensures Untally(Tally(t)) == Some(t) && PlainText(Tally(t))
  {
    var s := Tally(t);
    assert forall i :: 0 <= i < |s| ==> s[i] == if t >= 0 then '+' else '-';
  }

  lemma TallyLawful()
    ensures Lawful(TimeText(Tally, Untally))
  {
    var c := TimeText(Tally, Untally);
    forall t: int ensures c.parse(c.format(t)) == Some(t) && PlainText(c.format(t)) {
      TallyOne(t);
    }
  }

  type Clock = c: TimeText | Lawful(c) ghost witness (TallyLawful(); TimeText(Tally, Untally))

  datatype Cursor = NoCursorGiven | At(createdAt: int, id: string) | BadCursor

  /** Place of the first comma, or the length. */
  function CommaAt(s: string): (i: nat)
    ensures i <= |s| && ',' !in s[..i] && (i < |s| ==> s[i] == ',')
  {
    if s == "" || s[0] == ',' then 0 else 1 + CommaAt(s[1..])
  }

  /** The `before` parameter: blank, or a time and an id around the first comma. */
  function ParseCursor(clock: Clock, raw: string): Cursor {
    var s := TrimSpace(raw);
    if s == "" then NoCursorGiven
    else
      var i := CommaAt(s);
      if i == |s| then BadCursor
      else
        match clock.parse(TrimSpace(s[..i]))
        case None => BadCursor
        case Some(t) => At(t, TrimSpace(s[i + 1..]))
  }

  function FormatCursor(clock: Clock, last: Event): string {
    clock.format(last.createdAt) + "," + last.id
  }

  lemma {:induction false} CommaAfter(a: string, b: string)
    requires ',' !in a
    ensures CommaAt(a + "," + b) == |a|
  {
    if a != "" {
      assert (a + "," + b)[1..] == a[1..] + "," + b;
      CommaAfter(a[1..], b);
    }
  }

  /** A cursor handed out is read back as the event it was made from. */
  lemma CursorRoundTrip(clock: Clock, last: Event)
    requires last.id != "" && TrimSpace(last.id) == last.id
    ensures ParseCursor(clock, FormatCursor(clock, last)) == At(last.createdAt, last.id)
  {
    var t := clock.format(last.createdAt);
    assert PlainText(t);
    var s := FormatCursor(clock, last);
    assert s[0] == t[0] && s[|s| - 1] == last.id[|last.id| - 1];
    CommaAfter(t, last.id);
    assert s[..|t|] == t && s[|t| + 1..] == last.id;
  }

  /** A request, with the numeric, boolean and `since` parameters already parsed. */
  datatype Request = Request(filter: Filter, before: string, includeTotal: bool)

  datatype Response =
    | BadRequest
    | Panic
    | Page(items: seq<Event>, nextCursor: string, total: Option<nat>)

  /** The filter a request stands for, once its cursor is read. */
  function Wanted(f: Filter, c: Cursor): Filter {
    match c
    case At(t, id) => f.(beforeCreatedAt := Some(t), beforeID := id)
    case _ => f.(beforeCreatedAt := None, beforeID := "")
  }

  /** The response to a list of items: a cursor only when the page is as long as the
      limit asked for, which need not be the one the repository used; asked for
      none, the handler looks for the last of no items. */
  function Respond(clock: Clock, items: seq<Event>, limit: int, total: Option<nat>): Response {
    if |items| != limit then Page(items, "", total)
    else if items == [] then Panic
    else Page(items, FormatCursor(clock, items[|items| - 1]), total)
  }

  /** The filter with its text parameters trimmed, as the handler passes it on. */
  function Trimmed(f: Filter): Filter {
    f.(resourceType := TrimSpace(f.resourceType), resourceID := TrimSpace(f.resourceID),
       fromStatus := TrimSpace(f.fromStatus), toStatus := TrimSpace(f.toStatus))
  }

  // ---- What a page is, said of the request and the rows alone ----

  /** A parameter is blank, or the value is the parameter without white space around it. */
  predicate Fits(want: string, got: string) {
    TrimSpace(want) == "" || got == TrimSpace(want)
  }

  /** What a request asks for, field by field. */
  predicate FitsRequest(f: Filter, e: Event) {
    && Fits(f.resourceType, e.resourceType) && Fits(f.resourceID, e.resourceID)
    && Fits(f.fromStatus, e.fromStatus) && Fits(f.toStatus, e.toStatus)
    && (f.since.Some? ==> e.createdAt >= f.since.value)
  }

  /** Listed past the cursor: older, or as old and with a smaller id. */
  predicate Past(c: Cursor, e: Event) {
    c.At? ==> e.createdAt < c.createdAt || (e.createdAt == c.createdAt && c.id != "" && Less(e.id, c.id))
  }

  function PageSize(limit: int): int {
    if 1 <= limit <= 500 then limit else 100
  }

  /** The newest fitting rows past the cursor, newest first, as many as fit on the page. */
  ghost predicate IsPage(rows: seq<Event>, f: Filter, c: Cursor, items: seq<Event>) {
    && Descending(items) && |items| <= PageSize(f.limit)
    && (forall e :: e in items ==> e in rows && FitsRequest(f, e) && Past(c, e))
    && (forall e :: e in rows && FitsRequest(f, e) && Past(c, e) ==>
          e in items || (|items| == PageSize(f.limit) && forall x :: x in items ==> Newer(x, e)))
  }

  /** How many rows fit. */
  ghost function Fitting(rows: seq<Event>, f: Filter): nat {
    |set e | e in rows && FitsRequest(f, e)|
  }

  lemma MatchesIsFits(f: Filter, e: Event)
    ensures Matches(Trimmed(f), e) <==> FitsRequest(f, e)
  {
  }

  lemma PastIsPast(clock: Clock, raw: string, f: Filter, e: Event)
    requires !ParseCursor(clock, raw).BadCursor?
    ensures PastCursor(Wanted(f, ParseCursor(clock, raw)), e) <==> Past(ParseCursor(clock, raw), e)
  {
  }

  lemma WantedMatches(f: Filter, c: Cursor, e: Event)
    ensures Matches(Wanted(f, c), e) <==> Matches(f, e)
  {
  }

  /** A row is selected exactly when the request asks for it. */
  lemma SelectedIff(clock: Clock, rows: seq<Event>, f: Filter, raw: string, e: Event)
    requires Store(rows) && !ParseCursor(clock, raw).BadCursor?
    ensures var c := ParseCursor(clock, raw);
            e in Select(Ordered(rows), Wanted(Trimmed(f), c)) <==> e in rows && FitsRequest(f, e) && Past(c, e)
  {
    var c := ParseCursor(clock, raw);
    OrderedIsTable(rows);
    OrderedHas(rows);
    SelectExact(Ordered(rows), Wanted(Trimmed(f), c));
    WantedMatches(Trimmed(f), c, e);
    MatchesIsFits(f, e);
    PastIsPast(clock, raw, Trimmed(f), e);
  }

  lemma LimitIsPage(all: seq<Event>, n: nat, e: Event)
    requires Descending(all)
    ensures Descending(Limit(n, all)) && |Limit(n, all)| <= n
    ensures e in Limit(n, all) ==> e in all
    ensures e in all ==> e in Limit(n, all) || (|Limit(n, all)| == n && forall x :: x in Limit(n, all) ==> Newer(x, e))
  {
    if |all| > n && e in all {
      var j :| 0 <= j < |all| && all[j] == e;
      if j < n {
        assert all[..n][j] == e;
      } else {
        forall x | x in all[..n] ensures Newer(x, e) {
          var i :| 0 <= i < n && all[..n][i] == x;
          assert all[i] == x;
        }
      }
    }
  }

  /** What the handler answers with is such a page. */
  lemma AnswerIsPage(clock: Clock, rows: seq<Event>, f: Filter, raw: string, items: seq<Event>)
    requires Store(rows) && !ParseCursor(clock, raw).BadCursor?
    requires items == Limit(Clamp(f.limit), Select(Ordered(rows), Wanted(Trimmed(f), ParseCursor(clock, raw))))
    ensures IsPage(rows, f, ParseCursor(clock, raw), items)
  {
    var c := ParseCursor(clock, raw);
    var all := Select(Ordered(rows), Wanted(Trimmed(f), c));
    OrderedIsTable(rows);
    SelectExact(Ordered(rows), Wanted(Trimmed(f), c));
    forall e
      ensures e in items ==> e in rows && FitsRequest(f, e) && Past(c, e)
      ensures e in rows && FitsRequest(f, e) && Past(c, e) ==>
                e in items || (|items| == PageSize(f.limit) && forall x :: x in items ==> Newer(x, e))
      ensures Descending(items) && |items| <= PageSize(f.limit)
    {
      SelectedIff(clock, rows, f, raw, e);
      LimitIsPage(all, Clamp(f.limit), e);
    }
  }

  lemma {:induction false} DistinctCount(rows: seq<Event>)
    requires Descending(rows)
    ensures |set e | e in rows| == |rows|
  {
    if rows != [] {
      DescendingTail(rows);
      DistinctCount(rows[1..]);
      forall e | e in rows[1..] ensures e != rows[0] {
        var j :| 0 <= j < |rows[1..]| && rows[1..][j] == e;
        assert Newer(rows[0], rows[j + 1]);
        NewerIrreflexive(e);
      }
      assert (set e | e in rows) == {rows[0]} + set e | e in rows[1..];
    }
  }

  /** The total is the number of rows that fit. */
  lemma TotalIsFitting(rows: seq<Event>, f: Filter)
    requires Store(rows)
    ensures |Select(Ordered(rows), NoCursor(Trimmed(f)))| == Fitting(rows, f)
  {
    var all := Select(Ordered(rows), NoCursor(Trimmed(f)));
    OrderedIsTable(rows);
    OrderedHas(rows);
    SelectExact(Ordered(rows), NoCursor(Trimmed(f)));
    DistinctCount(all);
    forall e ensures e in all <==> e in rows && FitsRequest(f, e) {
      MatchesIsFits(f, e);
    }
    assert (set e | e in all) == set e | e in rows && FitsRequest(f, e);
  }

  lemma ResultIsPage(clock: Clock, rows: seq<Event>, req: Request, f: Filter, result: ListResult)
    requires Store(rows) && !ParseCursor(clock, req.before).BadCursor?
    requires f == Wanted(Trimmed(req.filter), ParseCursor(clock, req.before))
    requires result.items == Limit(Clamp(f.limit), Select(Ordered(rows), f))
    requires result.total == if req.includeTotal then Some(|Select(Ordered(rows), NoCursor(f))|) else None
    ensures IsPage(rows, req.filter, ParseCursor(clock, req.before), result.items)
    ensures result.total == if req.includeTotal then Some(Fitting(rows, req.filter)) else None
  {
    WantedKeeps(Trimmed(req.filter), ParseCursor(clock, req.before));
    AnswerIsPage(clock, rows, req.filter, req.before, result.items);
    TotalIsFitting(rows, req.filter);
  }

  /** The handler. */
  method Handle(clock: Clock, rows: seq<Event>, req: Request) returns (r: Response)
    requires Store(rows)
    ensures var c := ParseCursor(clock, req.before);
            var f := Wanted(Trimmed(req.filter), c);
            r == if c.BadCursor? then BadRequest
                 else Respond(clock, Limit(Clamp(f.limit), Select(Ordered(rows), f)), f.limit,
                              if req.includeTotal then Some(|Select(Ordered(rows), NoCursor(f))|) else None)
    ensures r.BadRequest? <==> ParseCursor(clock, req.before).BadCursor?
    ensures r.Page? ==> IsPage(rows, req.filter, ParseCursor(clock, req.before), r.items)
    ensures r.Page? ==> r.total == if req.includeTotal then Some(Fitting(rows, req.filter)) else None
  {
    var beforeCreatedAt: Option<int> := None;
    var beforeID := "";
    var cursor := ParseCursor(clock, req.before);
    match cursor {
      case BadCursor => return BadRequest;
      case At(t, id) => beforeCreatedAt, beforeID := Some(t), id;
      case NoCursorGiven =>
    }
    var f := Filter(TrimSpace(req.filter.resourceType), TrimSpace(req.filter.resourceID),
                    TrimSpace(req.filter.fromStatus), TrimSpace(req.filter.toStatus),
                    req.filter.since, beforeCreatedAt, beforeID, req.filter.limit);
    assert f == Wanted(Trimmed(req.filter), cursor);
    var result := List(rows, f, req.includeTotal);
    var nextCursor := "";
    if |result.items| == f.limit {
      if result.items == [] {
        return Panic;
      }
      nextCursor := FormatCursor(clock, result.items[|result.items| - 1]);
    }
    r := Page(result.items, nextCursor, result.total);
    ResultIsPage(clock, rows, req, f, result);
  }

  // ---- Following the cursor ----

  lemma {:induction false} SelectAppend(a: seq<Event>, b: seq<Event>, f: Filter)
    ensures Select(a + b, f) == Select(a, f) + Select(b, f)
  {
    if a == [] {
      assert a + b == b;
    } else {
      assert (a + b)[1..] == a[1..] + b;
      SelectAppend(a[1..], b, f);
    }
  }

  /** A selection is exactly the rows wanted, each once and still in listing order. */
  lemma {:induction false} SelectExact(rows: seq<Event>, f: Filter)
    requires Table(rows)
    ensures forall e :: e in Select(rows, f) <==> e in rows && Matches(f, e) && PastCursor(f, e)
    ensures Table(Select(rows, f))
  {
    if rows != [] {
      var r, rest := rows[0], rows[1..];
      assert rows == [r] + rest;
      forall e | e in rest ensures Newer(r, e) {
        var j :| 0 <= j < |rest| && rest[j] == e;
        assert rows[j + 1] == e;
      }
      SelectExact(rest, f);
    }
  }

  /** Rows all listed after `last` are all past its cursor. */
  lemma {:induction false} SelectOlder(rows: seq<Event>, f: Filter, last: Event)
    requires f == NoCursor(f) && TrimSpace(last.id) == last.id != ""
    requires forall e :: e in rows ==> Newer(last, e)
    ensures Select(rows, f.(beforeCreatedAt := Some(last.createdAt), beforeID := last.id)) == Select(rows, f)
  {
    if rows != [] {
      CursorIsListing(f, last, rows[0]);
      SelectOlder(rows[1..], f, last);
    }
  }

  /** Rows listed before `last` are not. */
  lemma {:induction false} SelectNewer(rows: seq<Event>, f: Filter, last: Event)
    requires TrimSpace(last.id) == last.id != ""
    requires forall e :: e in rows ==> Newer(e, last)
    ensures Select(rows, f.(beforeCreatedAt := Some(last.createdAt), beforeID := last.id)) == []
  {
    if rows != [] {
      CursorIsListing(f, last, rows[0]);
      NewerAsymmetric(rows[0], last);
      SelectNewer(rows[1..], f, last);
    }
  }

  lemma TableTail(rows: seq<Event>)
    requires Table(rows) && rows != []
    ensures Table(rows[1..]) && forall e :: e in rows[1..] ==> Newer(rows[0], e)
  {
    forall e | e in rows[1..] ensures Newer(rows[0], e) {
      var j :| 0 <= j < |rows[1..]| && rows[1..][j] == e;
      assert rows[j + 1] == e;
    }
  }

  lemma SelectedRow(rows: seq<Event>, f: Filter, last: Event)
    requires Table(rows) && last in Select(rows, f)
    ensures last in rows && last.id != "" && TrimSpace(last.id) == last.id
  {
    SelectFrom(rows, f, last);
  }

  /** The filter past the cursor of `last`. */
  function After(f: Filter, last: Event): Filter {
    f.(beforeCreatedAt := Some(last.createdAt), beforeID := last.id)
  }

  lemma SelectAfterSkip(rows: seq<Event>, f: Filter, last: Event)
    requires Table(rows) && f == NoCursor(f) && rows != [] && last in rows[1..]
    ensures Select(rows, After(f, last)) == Select(rows[1..], After(f, last))
  {
    TableTail(rows);
    assert last in rows;
    CursorIsListing(f, last, rows[0]);
    NewerAsymmetric(rows[0], last);
  }

  lemma DropFirst<T>(x: T, rest: seq<T>, k: nat)
    requires 1 < k <= |rest| + 1
    ensures ([x] + rest)[k..] == rest[k - 1..] && ([x] + rest)[k - 1] == rest[k - 2]
  {
  }

  lemma SelectTail(rows: seq<Event>, f: Filter)
    requires f == NoCursor(f) && rows != []
    ensures Select(rows, f) == if Matches(f, rows[0]) then [rows[0]] + Select(rows[1..], f) else Select(rows[1..], f)
  {
    HeadAndTail(rows);
    SelectCons(rows[0], rows[1..], f);
  }

  lemma NotPastItself(f: Filter, e: Event)
    requires TrimSpace(e.id) == e.id != ""
    ensures !Wants(After(f, e), e)
  {
    CursorIsListing(f, e, e);
    NewerIrreflexive(e);
  }

  lemma SelectAfterFirst(rows: seq<Event>, f: Filter)
    requires Table(rows) && f == NoCursor(f) && rows != [] && Matches(f, rows[0])
    ensures Select(rows, After(f, rows[0])) == Select(rows, f)[1..]
  {
    var first, rest := rows[0], rows[1..];
    TableTail(rows);
    assert first in rows;
    HeadAndTail(rows);
    NotPastItself(f, first);
    SelectCons(first, rest, After(f, first));
    SelectOlder(rest, f, first);
    SelectTail(rows, f);
    TailBehind(first, Select(rest, f), Select(rows, f));
  }

  lemma TailBehind<T>(x: T, rest: seq<T>, all: seq<T>)
    requires all == [x] + rest
    ensures all[1..] == rest
  {
  }

  lemma SkipFirst(rows: seq<Event>, f: Filter, last: Event)
    requires Table(rows) && f == NoCursor(f) && rows != [] && last in Select(rows[1..], f)
    ensures Select(rows, After(f, last)) == Select(rows[1..], After(f, last))
  {
    TableTail(rows);
    SelectedRow(rows[1..], f, last);
    SelectAfterSkip(rows, f, last);
  }

  /** `last` is the `k`-th row selected, and `end` what follows it. */
  predicate EndsWith(selected: seq<Event>, k: nat, last: Event, end: seq<Event>) {
    1 <= k <= |selected| && last == selected[k - 1] && end == selected[k..]
  }

  lemma EndOfTail(rows: seq<Event>, f: Filter, k: nat, last: Event, end: seq<Event>)
    requires f == NoCursor(f) && rows != [] && EndsWith(Select(rows, f), k, last, end) && (k > 1 || !Matches(f, rows[0]))
    ensures EndsWith(Select(rows[1..], f), if Matches(f, rows[0]) then k - 1 else k, last, end)
  {
    SelectTail(rows, f);
    if Matches(f, rows[0]) {
      DropFirst(rows[0], Select(rows[1..], f), k);
    }
  }

  lemma {:induction false} SelectEnd(rows: seq<Event>, f: Filter, k: nat, last: Event, end: seq<Event>)
    requires Table(rows) && f == NoCursor(f) && EndsWith(Select(rows, f), k, last, end)
    ensures Select(rows, After(f, last)) == end
  {
    if k == 1 && Matches(f, rows[0]) {
      SelectAfterFirst(rows, f);
    } else {
      EndOfTail(rows, f, k, last, end);
      TableTail(rows);
      SelectEnd(rows[1..], f, if Matches(f, rows[0]) then k - 1 else k, last, end);
      SkipFirst(rows, f, last);
    }
  }

  /** The selection past the cursor of its `k`-th row is what follows that row. */
  lemma SelectAfter(rows: seq<Event>, f: Filter, k: nat)
    requires Table(rows) && f == NoCursor(f) && 1 <= k <= |Select(rows, f)|
    ensures Select(rows, After(f, Select(rows, f)[k - 1])) == Select(rows, f)[k..]
  {
    SelectEnd(rows, f, k, Select(rows, f)[k - 1], Select(rows, f)[k..]);
  }

  /** `after` is `before` with newer rows on top. */
  ghost predicate Grown(before: seq<Event>, after: seq<Event>) {
    |before| <= |after| && after[|after| - |before|..] == before
  }

  /** The rows that came on top are all newer. */
  lemma TopIsNewer(before: seq<Event>, top: seq<Event>, last: Event)
    requires Table(top + before) && last in before
    ensures forall e :: e in top ==> Newer(e, last)
  {
    var all := top + before;
    var j :| 0 <= j < |before| && before[j] == last;
    forall e | e in top ensures Newer(e, last) {
      var i :| 0 <= i < |top| && top[i] == e;
      assert all[i] == e && all[|top| + j] == last;
    }
  }

  lemma GrownOnTop(before: seq<Event>, after: seq<Event>)
    requires Grown(before, after)
    ensures after == after[..|after| - |before|] + before
  {
  }

  /** Newer rows do not disturb a walk that is under way. */
  lemma PageAfter(before: seq<Event>, after: seq<Event>, f: Filter, k: nat)
    requires Table(before) && Table(after) && Grown(before, after)
    requires f == NoCursor(f) && 1 <= k <= |Select(before, f)|
    ensures var last := Select(before, f)[k - 1];
            && last.id != "" && TrimSpace(last.id) == last.id
            && Select(after, After(f, last)) == Select(before, f)[k..]
  {
    var last := Select(before, f)[k - 1];
    var top := after[..|after| - |before|];
    SelectedRow(before, f, last);
    GrownOnTop(before, after);
    PastTop(before, top, f, last);
    SelectAfter(before, f, k);
  }

  lemma PastTop(before: seq<Event>, top: seq<Event>, f: Filter, last: Event)
    requires Table(top + before) && last in before && last.id != "" && TrimSpace(last.id) == last.id
    ensures Select(top + before, After(f, last)) == Select(before, After(f, last))
  {
    TopIsNewer(before, top, last);
    SelectAppend(top, before, After(f, last));
    SelectNewer(top, f, last);
    NothingFirst(Select(before, After(f, last)));
  }

  lemma NothingFirst<T>(s: seq<T>)
    ensures [] + s == s
  {
  }

  /** The listing at request `k`, and the one at the start of the walk. */
  ghost predicate GrownSince(start: seq<Event>, now: seq<Event>) {
    Store(start) && Store(now) && Grown(Ordered(start), Ordered(now))
  }

  /** The table at each request: as at the start, but for newer events. */
  ghost predicate History(tables: nat -> seq<Event>) {
    forall k {:trigger GrownSince(tables(0), tables(k))} :: GrownSince(tables(0), tables(k))
  }

  predicate Pageable(limit: int) {
    1 <= limit <= 500
  }

  predicate Short(pages: seq<seq<Event>>, limit: int) {
    forall i :: 0 <= i < |pages| ==> |pages[i]| <= Clamp(limit)
  }

  /** Under way: the first `got` rows have come in pages, and `before` points past them. */
  ghost predicate Walking(clock: Clock, all: seq<Event>, limit: int,
                          pages: seq<seq<Event>>, total: Option<nat>, before: string, got: nat) {
    && got <= |all| && Concat(pages) == all[..got]
    && Short(pages, limit)
    && if pages == [] then before == "" && got == 0 && total == None
       else Pageable(limit) && got > 0 && before == FormatCursor(clock, all[got - 1]) && total == Some(|all|)
  }

  /** Done: the pages together are exactly the listing, each row once, if and only if
      the limit asked for is one the repository uses or the listing fits in the page
      the repository falls back to; the total with the first page is its length. */
  ghost predicate Walked(all: seq<Event>, limit: int, pages: seq<seq<Event>>, total: Option<nat>) {
    && Concat(pages) <= all
    && (Concat(pages) == all <==> Pageable(limit) || |all| <= 100)
    && Short(pages, limit)
    && total == if pages == [] then None else Some(|all|)
  }

  /** A page is the last one, or the walk goes on past it. */
  ghost predicate Onward(clock: Clock, all: seq<Event>, limit: int,
                         pages: seq<seq<Event>>, total: Option<nat>, got: nat, r: Response)
    requires r.Page?
  {
    && got + |r.items| <= |all|
    && if r.nextCursor == "" then Walked(all, limit, pages + [r.items], total)
       else |r.items| > 0 && Walking(clock, all, limit, pages + [r.items], total, r.nextCursor, got + |r.items|)
  }

  /** The total is that of the first page. */
  function TotalAfter(pages: seq<seq<Event>>, total: Option<nat>, r: Response): Option<nat> {
    if pages == [] && r.Page? then r.total else total
  }

  lemma WalkStart(clock: Clock, all: seq<Event>, limit: int)
    ensures Walking(clock, all, limit, [], None, "", 0)
  {
  }

  /** One more page. */
  lemma WalkOn(clock: Clock, all: seq<Event>, limit: int,
               pages: seq<seq<Event>>, total: Option<nat>, before: string, got: nat, r: Response, now: nat)
    requires Walking(clock, all, limit, pages, total, before, got)
    requires r == Respond(clock, Limit(Clamp(limit), all[got..]), limit, Some(now))
    requires pages == [] ==> now == |all|
    ensures r.Panic? || r.Page?
    ensures r.Panic? ==> Walked(all, limit, pages, total)
    ensures r.Page? ==> Onward(clock, all, limit, pages, TotalAfter(pages, total, r), got, r)
  {
    PageFacts(clock, all, got, limit, r);
    if r.Page? {
      PageTaken(all, got, pages, r.items);
      ShortMore(pages, limit, r.items);
    } else {
      TakeAll(all);
    }
  }

  lemma ShortMore(pages: seq<seq<Event>>, limit: int, items: seq<Event>)
    requires Short(pages, limit) && |items| <= Clamp(limit)
    ensures Short(pages + [items], limit)
  {
  }

  /** The filtered listing. */
  function Listing(rows: seq<Event>, filter: Filter): seq<Event> {
    Select(Ordered(rows), NoCursor(Trimmed(filter)))
  }

  /** Rows collected from a table for a request: fitting rows, newest first; and all that
      fit if and only if the limit is in 1..500 or no more than 100 do. */
  ghost predicate Collected(rows: seq<Event>, f: Filter, got: seq<Event>) {
    && Descending(got)
    && (forall e :: e in got ==> e in rows && FitsRequest(f, e))
    && ((forall e :: e in rows && FitsRequest(f, e) ==> e in got) <==> 1 <= f.limit <= 500 || Fitting(rows, f) <= 100)
  }

  lemma ListingFits(rows: seq<Event>, f: Filter)
    requires Store(rows)
    ensures Descending(Listing(rows, f)) && |Listing(rows, f)| == Fitting(rows, f)
    ensures forall e :: e in Listing(rows, f) <==> e in rows && FitsRequest(f, e)
  {
    OrderedIsTable(rows);
    OrderedHas(rows);
    SelectExact(Ordered(rows), NoCursor(Trimmed(f)));
    TotalIsFitting(rows, f);
    forall e ensures e in Listing(rows, f) <==> e in rows && FitsRequest(f, e) {
      MatchesIsFits(f, e);
    }
  }

  lemma PrefixOf(all: seq<Event>, got: seq<Event>)
    requires Descending(all) && got <= all
    ensures Descending(got) && ((forall e :: e in all ==> e in got) <==> got == all)
    ensures forall e :: e in got ==> e in all
  {
    if |got| < |all| {
      var e := all[|got|];
      forall i | 0 <= i < |got| ensures got[i] != e {
        assert Newer(all[i], e);
        NewerIrreflexive(e);
      }
      assert e in all;
    } else {
      assert got == all;
    }
  }

  lemma WalkedCollects(rows: seq<Event>, f: Filter, pages: seq<seq<Event>>, total: Option<nat>)
    requires Store(rows) && Walked(Listing(rows, f), f.limit, pages, total)
    ensures Collected(rows, f, Concat(pages))
    ensures total.Some? ==> total.value == Fitting(rows, f)
  {
    ListingFits(rows, f);
    PrefixOf(Listing(rows, f), Concat(pages));
  }

  /** A client that follows `next_cursor` until it is blank, while newer events are
      being added: `tables(k)` is the table at request `k`. It always stops, and with
      the filtered listing of the table at the start. */
  method Walk(clock: Clock, tables: nat -> seq<Event>, filter: Filter)
    returns (pages: seq<seq<Event>>, total: Option<nat>)
    requires History(tables)
    ensures Walked(Listing(tables(0), filter), filter.limit, pages, total)
    ensures Collected(tables(0), filter, Concat(pages))
    ensures total.Some? ==> total.value == Fitting(tables(0), filter)
  {
    ghost var all := Listing(tables(0), filter);
    ghost var got := 0;
    pages, total := [], None;
    var before := "";
    WalkStart(clock, all, filter.limit);
    var done := false;
    while !done
      invariant if done then Walked(all, filter.limit, pages, total)
                else got <= |all| && Walking(clock, all, filter.limit, pages, total, before, got)
      decreases !done, |all| - got
    {
      done, pages, total, before, got := Turn(clock, tables, filter, all, pages, total, before, got);
    }
    HistoryAt(tables, 0);
    WalkedCollects(tables(0), filter, pages, total);
  }

  /** One turn of the loop. */
  method Turn(clock: Clock, tables: nat -> seq<Event>, filter: Filter, ghost all: seq<Event>,
              pages: seq<seq<Event>>, total: Option<nat>, before: string, ghost got: nat)
    returns (done: bool, pages': seq<seq<Event>>, total': Option<nat>, before': string, ghost got': nat)
    requires History(tables) && all == Listing(tables(0), filter)
    requires Walking(clock, all, filter.limit, pages, total, before, got)
    ensures if done then Walked(all, filter.limit, pages', total')
            else got < got' <= |all| && Walking(clock, all, filter.limit, pages', total', before', got')
  {
    var r, first := Fetch(clock, tables, filter, before, all, pages, total, got);
    if r.Panic? {
      return true, pages, total, before, got;
    }
    return r.nextCursor == "", pages + [r.items], first, r.nextCursor, got + |r.items|;
  }

  /** The next request of a walk: what comes of it, and of the walk. */
  method Fetch(clock: Clock, tables: nat -> seq<Event>, filter: Filter, before: string,
               ghost all: seq<Event>, pages: seq<seq<Event>>, total: Option<nat>, ghost got: nat)
    returns (r: Response, first: Option<nat>)
    requires History(tables) && all == Listing(tables(0), filter)
    requires Walking(clock, all, filter.limit, pages, total, before, got)
    ensures r.Panic? || r.Page?
    ensures r.Panic? ==> Walked(all, filter.limit, pages, total)
    ensures r.Page? && r.nextCursor == "" ==> Walked(all, filter.limit, pages + [r.items], first)
    ensures r.Page? && r.nextCursor != "" ==>
              && 0 < |r.items| <= |all| - got
              && Walking(clock, all, filter.limit, pages + [r.items], first, r.nextCursor, got + |r.items|)
  {
    var rows := tables(|pages|);
    HistoryAt(tables, |pages|);
    r := Ask(clock, rows, filter, before, tables(0), |pages|, got);
    WalkOn(clock, all, filter.limit, pages, total, before, got, r, |Listing(rows, filter)|);
    first := TotalAfter(pages, total, r);
  }

  lemma HistoryAt(tables: nat -> seq<Event>, k: nat)
    requires History(tables)
    ensures GrownSince(tables(0), tables(k))
  {
  }

  /** One request of a walk that has seen the first `got` rows of the listing at `start`. */
  method Ask(clock: Clock, rows: seq<Event>, filter: Filter, before: string,
             ghost start: seq<Event>, ghost k: nat, ghost got: nat) returns (r: Response)
    requires GrownSince(start, rows)
    requires got <= |Listing(start, filter)|
    requires if k == 0 then before == "" && got == 0 && rows == start
             else got > 0 && before == FormatCursor(clock, Listing(start, filter)[got - 1])
    ensures r == Respond(clock, Limit(Clamp(filter.limit), Listing(start, filter)[got..]),
                         filter.limit, Some(|Listing(rows, filter)|))
  {
    OrderedIsTable(start);
    OrderedIsTable(rows);
    NextPage(clock, Ordered(start), Ordered(rows), NoCursor(Trimmed(filter)), k, got, before);
    WantedKeeps(Trimmed(filter), ParseCursor(clock, before));
    r := Handle(clock, rows, Request(filter, before, true));
  }

  lemma WantedKeeps(f: Filter, c: Cursor)
    ensures var w := Wanted(f, c);
            w == Wanted(NoCursor(f), c) && w.limit == f.limit && NoCursor(w) == NoCursor(f)
  {
  }

  /** What a response says about the rows still to come. */
  lemma PageFacts(clock: Clock, all: seq<Event>, got: nat, limit: int, r: Response)
    requires got <= |all|
    requires exists total :: r == Respond(clock, Limit(Clamp(limit), all[got..]), limit, total)
    ensures r.Panic? <==> limit == 0 && got == |all|
    ensures r.Page? || r.Panic?
    ensures r.Page? ==>
              && |r.items| == (if |all| - got <= Clamp(limit) then |all| - got else Clamp(limit))
              && r.items == all[got..got + |r.items|]
              && (if |r.items| == limit then
                    |r.items| > 0 && r.nextCursor == FormatCursor(clock, all[got + |r.items| - 1]) && r.nextCursor != ""
                  else r.nextCursor == "")
  {
  }

  lemma PageTaken(all: seq<Event>, got: nat, pages: seq<seq<Event>>, items: seq<Event>)
    requires got + |items| <= |all| && items == all[got..got + |items|]
    requires Concat(pages) == all[..got]
    ensures Concat(pages + [items]) == all[..got + |items|]
  {
    ConcatSnoc(pages, items);
  }

  /** What the next request of a walk selects: the rows not yet seen. */
  lemma NextPage(clock: Clock, start: seq<Event>, now: seq<Event>, f: Filter, k: nat, got: nat, before: string)
    requires Table(start) && Table(now) && Grown(start, now)
    requires f == NoCursor(f) && got <= |Select(start, f)|
    requires if k == 0 then before == "" && got == 0 && now == start
             else got > 0 && before == FormatCursor(clock, Select(start, f)[got - 1])
    ensures !ParseCursor(clock, before).BadCursor?
    ensures Select(now, Wanted(f, ParseCursor(clock, before))) == Select(start, f)[got..]
  {
    if k > 0 {
      PageAfter(start, now, f, got);
      CursorRoundTrip(clock, Select(start, f)[got - 1]);
    }
  }
}
