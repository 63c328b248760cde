/** The SQL built for the audit log: `ListStatusEvents` and `CountStatusEvents`
    of the status event repository. */
module AuditQuery {
  import opened Text

  datatype Event = Event(
    id: string, resourceType: string, resourceID: string, fromStatus: string, toStatus: string,
    reason: string, taskID: string, createdAt: int)

  /** `StatusEventFilter`. */
  datatype Filter = Filter(
    resourceType: string, resourceID: string, fromStatus: string, toStatus: string,
    since: Option<int>, beforeCreatedAt: Option<int>, beforeID: string, limit: int)

  // ---- What a filter means ----

  /** Text order; for UUIDs in canonical form it is the order of the column. */
  predicate Less(a: string, b: string) {
    b != "" && (a == "" || a[0] < b[0] || (a[0] == b[0] && Less(a[1..], b[1..])))
  }

  /** (created_at, id) row order. */
  predicate Before(t: int, id: string, t': int, id': string) {
    t < t' || (t == t' && Less(id, id'))
  }

  predicate MatchesText(want: string, got: string) {
    want == "" || got == TrimSpace(want)
  }

  /** The filter proper: everything but the cursor. */
  predicate Matches(f: Filter, e: Event) {
    && MatchesText(f.resourceType, e.resourceType)
    && MatchesText(f.resourceID, e.resourceID)
    && MatchesText(f.fromStatus, e.fromStatus)
    && MatchesText(f.toStatus, e.toStatus)
    && (f.since.Some? ==> e.createdAt >= f.since.value)
  }

  /** The cursor: strictly older than a given event, or than a given time. */
  predicate PastCursor(f: Filter, e: Event) {
    f.beforeCreatedAt.Some? ==>
      if TrimSpace(f.beforeID) != "" then
        Before(e.createdAt, e.id, f.beforeCreatedAt.value, TrimSpace(f.beforeID))
      else e.createdAt < f.beforeCreatedAt.value
  }

  // ---- SQL: what the text says ----

  datatype Value = TextValue(s: string) | TimeValue(t: int) | NumberValue(n: int)

  datatype Column = ResourceType | ResourceID | FromStatus | ToStatus

  /** A WHERE condition, with the numbers of its placeholders. */
  datatype Cond =
    | Equal(col: Column, n: nat)
    | AtLeast(n: nat)
    | OlderThan(n: nat, m: nat)
    | OlderThanTime(n: nat)

  function ColumnName(c: Column): string {
    match c
    case ResourceType => "resource_type"
    case ResourceID => "resource_id"
    case FromStatus => "from_status"
    case ToStatus => "to_status"
  }

  function Field(c: Column, e: Event): string {
    match c
    case ResourceType => e.resourceType
    case ResourceID => e.resourceID
    case FromStatus => e.fromStatus
    case ToStatus => e.toStatus
  }

  predicate AllDigits(s: string) {
    forall i :: 0 <= i < |s| ==> '0' <= s[i] <= '9'
  }

  /** `%d`. */
  function Decimal(n: nat): (r: string)
    ensures r != "" && AllDigits(r)
  {
    var d := [(n % 10 + '0' as int) as char];
    if n < 10 then d else Decimal(n / 10) + d
  }

  function Placeholder(n: nat): string {
    "$" + Decimal(n)
  }

  function CondText(c: Cond): string {
    match c
    case Equal(col, n) => ColumnName(col) + " = " + Placeholder(n)
    case AtLeast(n) => "created_at >= " + Placeholder(n)
    case OlderThan(n, m) => "(created_at, id) < (" + Placeholder(n) + ", " + Placeholder(m) + ")"
    case OlderThanTime(n) => "created_at < " + Placeholder(n)
  }

  function CondTexts(cs: seq<Cond>): seq<string> {
    seq(|cs|, i requires 0 <= i < |cs| => CondText(cs[i]))
  }

  /** The argument bound to a placeholder. */
  function Bound(args: seq<Value>, n: nat): Option<Value> {
    if 1 <= n <= |args| then Some(args[n - 1]) else None
  }

  /** The truth of a condition on a row; false on a missing or ill-typed argument. */
  predicate Holds(c: Cond, args: seq<Value>, e: Event) {
    match c
    case Equal(col, n) => Bound(args, n) == Some(TextValue(Field(col, e)))
    case AtLeast(n) =>
      (match Bound(args, n) case Some(TimeValue(t)) => e.createdAt >= t case _ => false)
    case OlderThan(n, m) =>
      (match (Bound(args, n), Bound(args, m))
       case (Some(TimeValue(t)), Some(TextValue(id))) => Before(e.createdAt, e.id, t, id)
       case _ => false)
    case OlderThanTime(n) =>
      (match Bound(args, n) case Some(TimeValue(t)) => e.createdAt < t case _ => false)
  }

  predicate AllHold(cs: seq<Cond>, args: seq<Value>, e: Event) {
    forall c :: c in cs ==> Holds(c, args, e)
  }

  function CondNumbers(c: Cond): seq<nat> {
    match c
    case OlderThan(n, m) => [n, m]
    case _ => [c.n]
  }

  function Numbers(cs: seq<Cond>): seq<nat> {
    if cs == [] then [] else CondNumbers(cs[0]) + Numbers(cs[1..])
  }

  /** 1, 2, ..., n. */
  function UpTo(n: nat): seq<nat> {
    seq(n, i requires 0 <= i < n => i + 1)
  }

  /** A query: its text, what the text says, and the arguments sent along. */
  datatype Query = Query(text: string, args: seq<Value>)

  function WhereText(cs: seq<Cond>): string {
    if cs == [] then "" else " WHERE " + Join(CondTexts(cs), " AND ")
  }

  const RESOURCE_COLUMNS := "id, resource_type, resource_id, "
  const STATUS_COLUMNS := "from_status, to_status, "
  const EVENT_COLUMNS := "reason, task_id, created_at"
  const LIST_COLUMNS := RESOURCE_COLUMNS + STATUS_COLUMNS + EVENT_COLUMNS
  const LIST_HEAD := "SELECT " + LIST_COLUMNS + " FROM status_events"
  const LIST_ORDER := " ORDER BY created_at DESC, id DESC LIMIT "
  const COUNT_HEAD := "SELECT COUNT(*) FROM status_events"

  /** The text that lists the rows satisfying `cs`, newest first, at most the
      number bound to placeholder `limit`. */
  function ListText(cs: seq<Cond>, limit: nat): string {
    LIST_HEAD + WhereText(cs) + LIST_ORDER + Placeholder(limit)
  }

  function CountText(cs: seq<Cond>): string {
    COUNT_HEAD + WhereText(cs)
  }

  // ---- The builder ----

  /** Clause `k` of the filter, in the order the builder takes them. */
  predicate Clause(f: Filter, k: nat, e: Event) {
    match k
    case 0 => MatchesText(f.resourceType, e.resourceType)
    case 1 => MatchesText(f.resourceID, e.resourceID)
    case 2 => MatchesText(f.fromStatus, e.fromStatus)
    case 3 => MatchesText(f.toStatus, e.toStatus)
    case 4 => f.since.Some? ==> e.createdAt >= f.since.value
    case _ => PastCursor(f, e)
  }

  predicate FirstClauses(f: Filter, k: nat, e: Event) {
    forall i :: 0 <= i < k ==> Clause(f, i, e)
  }

  lemma FirstSnoc(f: Filter, k: nat, e: Event)
    ensures FirstClauses(f, k + 1, e) <==> FirstClauses(f, k, e) && Clause(f, k, e)
  {
  }

  /** After `k` clauses: the texts spell the conditions, the placeholders are the
      arguments in order, and the conditions mean the first `k` clauses. */
  ghost predicate Built(cs: seq<Cond>, texts: seq<string>, args: seq<Value>, f: Filter, k: nat) {
    && texts == CondTexts(cs)
    && Numbers(cs) == UpTo(|args|)
    && forall e :: AllHold(cs, args, e) <==> FirstClauses(f, k, e)
  }

  lemma {:induction false} NumbersAppend(cs: seq<Cond>, c: Cond)
    ensures Numbers(cs + [c]) == Numbers(cs) + CondNumbers(c)
  {
    if cs == [] {
      assert Numbers([c][1..]) == [];
    } else {
      assert (cs + [c])[1..] == cs[1..] + [c];
      NumbersAppend(cs[1..], c);
    }
  }

  lemma {:induction false} InNumbers(cs: seq<Cond>, c: Cond, n: nat)
    requires c in cs && n in CondNumbers(c)
    ensures n in Numbers(cs)
  {
    if c != cs[0] {
      InNumbers(cs[1..], c, n);
    }
  }

  /** Arguments added later do not disturb earlier conditions. */
  lemma HoldsMore(cs: seq<Cond>, c: Cond, args: seq<Value>, more: seq<Value>, e: Event)
    requires c in cs && Numbers(cs) == UpTo(|args|)
    ensures Holds(c, args + more, e) <==> Holds(c, args, e)
  {
    forall n | n in CondNumbers(c) ensures Bound(args + more, n) == Bound(args, n) {
      InNumbers(cs, c, n);
      var i :| 0 <= i < |args| && UpTo(|args|)[i] == n;
    }
    match c
    case OlderThan(n, m) =>
      assert n in CondNumbers(c) && m in CondNumbers(c);
    case _ =>
      assert c.n in CondNumbers(c);
  }

  lemma UpToMore(n: nat, m: nat)
    requires 1 <= m <= 2
    ensures UpTo(n + m) == UpTo(n) + if m == 1 then [n + 1] else [n + 1, n + 2]
  {
  }

  /** A clause that adds a condition. */
  lemma BuiltAdd(cs: seq<Cond>, texts: seq<string>, args: seq<Value>, f: Filter, k: nat,
                 c: Cond, more: seq<Value>)
    requires Built(cs, texts, args, f, k)
    requires 1 <= |more| <= 2
    requires CondNumbers(c) == if |more| == 1 then [|args| + 1] else [|args| + 1, |args| + 2]
    requires forall e :: Holds(c, args + more, e) <==> Clause(f, k, e)
    ensures Built(cs + [c], texts + [CondText(c)], args + more, f, k + 1)
  {
    NumbersAppend(cs, c);
    UpToMore(|args|, |more|);
    forall e ensures AllHold(cs + [c], args + more, e) <==> FirstClauses(f, k + 1, e) {
      MeaningAdd(cs, args, f, k, c, more, e);
    }
  }

  lemma MeaningAdd(cs: seq<Cond>, args: seq<Value>, f: Filter, k: nat, c: Cond, more: seq<Value>, e: Event)
    requires Numbers(cs) == UpTo(|args|)
    requires AllHold(cs, args, e) <==> FirstClauses(f, k, e)
    requires Holds(c, args + more, e) <==> Clause(f, k, e)
    ensures AllHold(cs + [c], args + more, e) <==> FirstClauses(f, k + 1, e)
  {
    AllHoldMore(cs, args, more, e);
    AllHoldSnoc(cs, c, args + more, e);
    FirstSnoc(f, k, e);
  }

  lemma AllHoldMore(cs: seq<Cond>, args: seq<Value>, more: seq<Value>, e: Event)
    requires Numbers(cs) == UpTo(|args|)
    ensures AllHold(cs, args + more, e) <==> AllHold(cs, args, e)
  {
    forall d | d in cs ensures Holds(d, args + more, e) <==> Holds(d, args, e) {
      HoldsMore(cs, d, args, more, e);
    }
  }

  lemma AllHoldSnoc(cs: seq<Cond>, c: Cond, args: seq<Value>, e: Event)
    ensures AllHold(cs + [c], args, e) <==> AllHold(cs, args, e) && Holds(c, args, e)
  {
    assert forall d :: d in cs + [c] <==> d in cs || d == c;
  }

  /** A clause the filter leaves out. */
  lemma BuiltSkip(cs: seq<Cond>, texts: seq<string>, args: seq<Value>, f: Filter, k: nat)
    requires Built(cs, texts, args, f, k)
    requires forall e :: Clause(f, k, e)
    ensures Built(cs, texts, args, f, k + 1)
  {
    forall e ensures FirstClauses(f, k + 1, e) <==> FirstClauses(f, k, e) {
      FirstSnoc(f, k, e);
    }
  }

  /** The five clauses both builders share. */
  method BaseConditions(f: Filter)
    returns (conditions: seq<string>, args: seq<Value>, cs: seq<Cond>)
    ensures Built(cs, conditions, args, f, 5)
  {
    conditions, args, cs := [], [], [];
    if f.resourceType != "" {
      conditions, args, cs := AddEqual(conditions, args, cs, f, 0, ResourceType, f.resourceType);
    }
    if f.resourceID != "" {
      conditions, args, cs := AddEqual(conditions, args, cs, f, 1, ResourceID, f.resourceID);
    }
    if f.fromStatus != "" {
      conditions, args, cs := AddEqual(conditions, args, cs, f, 2, FromStatus, f.fromStatus);
    }
    if f.toStatus != "" {
      conditions, args, cs := AddEqual(conditions, args, cs, f, 3, ToStatus, f.toStatus);
    }
    if f.since.Some? {
      BuiltAdd(cs, conditions, args, f, 4, AtLeast(|args| + 1), [TimeValue(f.since.value)]);
      cs := cs + [AtLeast(|args| + 1)];
      conditions := conditions + ["created_at >= " + Placeholder(|args| + 1)];
      args := args + [TimeValue(f.since.value)];
    }
  }

  /** `conditions = append(...); args = append(...)` for one text column. */
  method AddEqual(conditions: seq<string>, args: seq<Value>, cs: seq<Cond>,
                  ghost f: Filter, ghost k: nat, col: Column, want: string)
    returns (conditions': seq<string>, args': seq<Value>, cs': seq<Cond>)
    requires Built(cs, conditions, args, f, k)
    requires want != "" && forall e :: Clause(f, k, e) <==> MatchesText(want, Field(col, e))
    ensures Built(cs', conditions', args', f, k + 1)
  {
    var value := [TextValue(TrimSpace(want))];
    BuiltAdd(cs, conditions, args, f, k, Equal(col, |args| + 1), value);
    cs' := cs + [Equal(col, |args| + 1)];
    conditions' := conditions + [ColumnName(col) + " = " + Placeholder(|args| + 1)];
    args' := args + value;
  }

  function Clamp(limit: int): (n: nat)
    ensures 1 <= n <= 500
  {
    if limit <= 0 || limit > 500 then 100 else limit
  }

  /** The query of `ListStatusEvents`: its text spells conditions that mean exactly
      the filter and the cursor, its placeholders are $1, $2, ... in argument order
      with LIMIT last, and LIMIT is bound to the clamped limit. */
  method BuildList(f: Filter) returns (q: Query, cs: seq<Cond>)
    ensures q.args != [] && q.text == ListText(cs, |q.args|)
    ensures Scan(q.text) == UpTo(|q.args|)
    ensures q.args[|q.args| - 1] == NumberValue(Clamp(f.limit))
    ensures forall e :: AllHold(cs, q.args, e) <==> Matches(f, e) && PastCursor(f, e)
  {
    var limit := f.limit;
    if limit <= 0 || limit > 500 {
      limit := 100;
    }
    var conditions, args;
    conditions, args, cs := BaseConditions(f);
    conditions, args, cs := AddCursor(conditions, args, cs, f);
    var query := LIST_HEAD + (if |conditions| > 0 then " WHERE " + Join(conditions, " AND ") else "");
    query := query + LIST_ORDER + Placeholder(|args| + 1);
    BuiltMeaning(cs, conditions, args, f, [NumberValue(limit)]);
    UpToMore(|args|, 1);
    ListPlaceholders(cs, |args| + 1);
    q := Query(query, args + [NumberValue(limit)]);
  }

  /** The cursor condition, when there is a cursor. */
  method AddCursor(conditions: seq<string>, args: seq<Value>, cs: seq<Cond>, f: Filter)
    returns (conditions': seq<string>, args': seq<Value>, cs': seq<Cond>)
    requires Built(cs, conditions, args, f, 5)
    ensures Built(cs', conditions', args', f, 6)
  {
    conditions', args', cs' := conditions, args, cs;
    if f.beforeCreatedAt.None? {
      BuiltSkip(cs, conditions, args, f, 5);
      return;
    }
    var t, n := f.beforeCreatedAt.value, |args|;
    var c: Cond, more: seq<Value>;
    if TrimSpace(f.beforeID) != "" {
      c, more := OlderThan(n + 1, n + 2), [TimeValue(t), TextValue(TrimSpace(f.beforeID))];
      CursorCond(args, t, TrimSpace(f.beforeID));
    } else {
      c, more := OlderThanTime(n + 1), [TimeValue(t)];
    }
    BuiltAdd(cs, conditions, args, f, 5, c, more);
    conditions', args', cs' := conditions + [CondText(c)], args + more, cs + [c];
  }

  lemma CursorCond(args: seq<Value>, t: int, id: string)
    ensures var more := [TimeValue(t), TextValue(id)];
            forall e :: Holds(OlderThan(|args| + 1, |args| + 2), args + more, e) <==> Before(e.createdAt, e.id, t, id)
  {
    var more := [TimeValue(t), TextValue(id)];
    assert Bound(args + more, |args| + 1) == Some(TimeValue(t));
    assert Bound(args + more, |args| + 2) == Some(TextValue(id));
  }

  lemma BuiltMeaning(cs: seq<Cond>, texts: seq<string>, args: seq<Value>, f: Filter, more: seq<Value>)
    requires Built(cs, texts, args, f, 6)
    ensures forall e :: AllHold(cs, args + more, e) <==> Matches(f, e) && PastCursor(f, e)
  {
    forall e ensures AllHold(cs, args + more, e) <==> Matches(f, e) && PastCursor(f, e) {
      AllHoldMore(cs, args, more, e);
      SixClauses(f, e);
    }
  }

  lemma SixClauses(f: Filter, e: Event)
    ensures FirstClauses(f, 5, e) <==> Matches(f, e)
    ensures FirstClauses(f, 6, e) <==> Matches(f, e) && PastCursor(f, e)
  {
    FirstSnoc(f, 0, e);
    FirstSnoc(f, 1, e);
    FirstSnoc(f, 2, e);
    FirstSnoc(f, 3, e);
    FirstSnoc(f, 4, e);
    FirstSnoc(f, 5, e);
  }

  /** The query of `CountStatusEvents`: the same filter, without the cursor. */
  method BuildCount(f: Filter) returns (q: Query, cs: seq<Cond>)
    ensures q.text == CountText(cs) && Scan(q.text) == UpTo(|q.args|)
    ensures forall e :: AllHold(cs, q.args, e) <==> Matches(f, e)
  {
    var conditions, args;
    conditions, args, cs := BaseConditions(f);
    var query := COUNT_HEAD + (if |conditions| > 0 then " WHERE " + Join(conditions, " AND ") else "");
    forall e ensures AllHold(cs, args, e) <==> Matches(f, e) {
      SixClauses(f, e);
    }
    CountPlaceholders(cs);
    q := Query(query, args);
  }

  // ---- Placeholders as the database finds them in the text ----

  function DigitsValue(ds: string): nat
    requires AllDigits(ds)
  {
    if ds == "" then 0
    else DigitsValue(ds[..|ds| - 1]) * 10 + (ds[|ds| - 1] as int - '0' as int)
  }

  /** The longest run of digits at the front. */
  function Digits(s: string): (r: string)
    ensures r <= s && AllDigits(r)
  {
    if s != "" && '0' <= s[0] <= '9' then [s[0]] + Digits(s[1..]) else ""
  }

  /** Every "$n" in a text, in order. */
  function Scan(s: string): seq<nat>
    decreases |s|
  {
    if s == "" then []
    else if s[0] == '$' then [DigitsValue(Digits(s[1..]))] + Scan(s[1..][|Digits(s[1..])|..])
    else Scan(s[1..])
  }

  predicate NotDigitFirst(s: string) {
    s == "" || !('0' <= s[0] <= '9')
  }

  lemma {:induction false} DecimalValue(n: nat)
    ensures DigitsValue(Decimal(n)) == n
  {
    if n >= 10 {
      DecimalValue(n / 10);
      assert Decimal(n)[..|Decimal(n)| - 1] == Decimal(n / 10);
    }
  }

  lemma {:induction false} DigitsStop(ds: string, rest: string)
    requires AllDigits(ds) && NotDigitFirst(rest)
    ensures Digits(ds + rest) == ds
  {
    if ds == "" {
      assert ds + rest == rest;
    } else {
      assert (ds + rest)[1..] == ds[1..] + rest;
      DigitsStop(ds[1..], rest);
      assert [ds[0]] + ds[1..] == ds;
    }
  }

  lemma ScanPlaceholder(n: nat, rest: string)
    requires NotDigitFirst(rest)
    ensures Scan(Placeholder(n) + rest) == [n] + Scan(rest)
  {
    var s := Placeholder(n) + rest;
    assert s[1..] == Decimal(n) + rest;
    DigitsStop(Decimal(n), rest);
    DecimalValue(n);
    assert s[1..][|Decimal(n)|..] == rest;
  }

  lemma {:induction false} ScanPlain(plain: string, rest: string)
    requires '$' !in plain
    ensures Scan(plain + rest) == Scan(rest)
  {
    if plain == "" {
      assert plain + rest == rest;
    } else {
      assert (plain + rest)[1..] == plain[1..] + rest;
      ScanPlain(plain[1..], rest);
    }
  }

  lemma ScanOne(p: string, n: nat, rest: string)
    requires '$' !in p && NotDigitFirst(rest)
    ensures Scan(p + Placeholder(n) + rest) == [n] + Scan(rest)
  {
    assert p + Placeholder(n) + rest == p + (Placeholder(n) + rest);
    ScanPlain(p, Placeholder(n) + rest);
    ScanPlaceholder(n, rest);
  }

  lemma ScanTwo(p: string, n: nat, q: string, m: nat, r: string, rest: string)
    requires '$' !in p && '$' !in q && '$' !in r
    requires q != "" && NotDigitFirst(q) && r != "" && NotDigitFirst(r)
    ensures Scan(p + Placeholder(n) + q + Placeholder(m) + r + rest) == [n, m] + Scan(rest)
  {
    var tail := q + Placeholder(m) + (r + rest);
    assert p + Placeholder(n) + q + Placeholder(m) + r + rest == p + Placeholder(n) + tail;
    ScanOne(p, n, tail);
    ScanOne(q, m, r + rest);
    ScanPlain(r, rest);
    assert [n] + ([m] + Scan(rest)) == [n, m] + Scan(rest);
  }

  lemma ScanCond(c: Cond, rest: string)
    requires NotDigitFirst(rest)
    ensures Scan(CondText(c) + rest) == CondNumbers(c) + Scan(rest)
  {
    match c
    case Equal(col, n) => ScanOne(ColumnName(col) + " = ", n, rest);
    case AtLeast(n) => ScanOne("created_at >= ", n, rest);
    case OlderThan(n, m) => ScanTwo("(created_at, id) < (", n, ", ", m, ")", rest);
    case OlderThanTime(n) => ScanOne("created_at < ", n, rest);
  }

  lemma ScanJoin(c: Cond, and: string, tail: string)
    requires '$' !in and && and != "" && NotDigitFirst(and)
    ensures Scan(CondText(c) + and + tail) == CondNumbers(c) + Scan(tail)
  {
    assert CondText(c) + and + tail == CondText(c) + (and + tail);
    ScanCond(c, and + tail);
    ScanPlain(and, tail);
  }

  lemma {:induction false} ScanConds(cs: seq<Cond>, and: string, rest: string)
    requires cs != [] && NotDigitFirst(rest)
    requires '$' !in and && and != "" && NotDigitFirst(and)
    ensures Scan(Join(CondTexts(cs), and) + rest) == Numbers(cs) + Scan(rest)
  {
    var rests := CondTexts(cs[1..]);
    assert CondTexts(cs) == [CondText(cs[0])] + rests;
    if |cs| == 1 {
      ScanCond(cs[0], rest);
      assert Numbers(cs[1..]) == [];
      assert CondNumbers(cs[0]) + [] == CondNumbers(cs[0]);
    } else {
      JoinTail(CondText(cs[0]), rests, and, rest);
      ScanJoin(cs[0], and, Join(rests, and) + rest);
      ScanConds(cs[1..], and, rest);
      Assoc(CondNumbers(cs[0]), Numbers(cs[1..]), Scan(rest));
    }
  }

  lemma JoinTail(t: string, ts: seq<string>, and: string, rest: string)
    requires ts != []
    ensures Join([t] + ts, and) + rest == t + and + (Join(ts, and) + rest)
  {
    assert ([t] + ts)[1..] == ts;
    Assoc(t + and, Join(ts, and), rest);
  }

  lemma NoDollarColumns()
    ensures '$' !in LIST_COLUMNS
  {
    assert '$' !in RESOURCE_COLUMNS;
    assert '$' !in STATUS_COLUMNS;
    assert '$' !in EVENT_COLUMNS;
  }

  lemma NoDollars()
    ensures '$' !in LIST_ORDER && '$' !in COUNT_HEAD
  {
  }

  lemma ScanWhere(head: string, where: string, and: string, cs: seq<Cond>, rest: string)
    requires '$' !in head && '$' !in where && NotDigitFirst(rest)
    requires '$' !in and && and != "" && NotDigitFirst(and)
    ensures Scan(head + (if cs == [] then "" else where + Join(CondTexts(cs), and)) + rest) == Numbers(cs) + Scan(rest)
  {
    if cs == [] {
      assert head + "" + rest == head + rest;
      ScanPlain(head, rest);
      assert [] + Scan(rest) == Scan(rest);
    } else {
      var conds := Join(CondTexts(cs), and);
      assert head + (where + conds) + rest == head + (where + (conds + rest));
      ScanPlain(head, where + (conds + rest));
      ScanPlain(where, conds + rest);
      ScanConds(cs, and, rest);
    }
  }

  lemma ScanLast(order: string, limit: nat)
    requires '$' !in order
    ensures Scan(order + Placeholder(limit)) == [limit]
  {
    ScanOne(order, limit, "");
    assert order + Placeholder(limit) + "" == order + Placeholder(limit);
    assert [limit] + [] == [limit];
  }

  /** In the text itself the placeholders are those of the conditions, LIMIT last. */
  lemma ListPlaceholders(cs: seq<Cond>, limit: nat)
    ensures Scan(ListText(cs, limit)) == Numbers(cs) + [limit]
  {
    NoDollarColumns();
    NoDollars();
    ScanLast(LIST_ORDER, limit);
    Assoc(LIST_HEAD + WhereText(cs), LIST_ORDER, Placeholder(limit));
    FirstOf(LIST_ORDER, Placeholder(limit));
    ScanWhere(LIST_HEAD, " WHERE ", " AND ", cs, LIST_ORDER + Placeholder(limit));
  }

  lemma CountPlaceholders(cs: seq<Cond>)
    ensures Scan(CountText(cs)) == Numbers(cs)
  {
    NoDollars();
    ScanWhere(COUNT_HEAD, " WHERE ", " AND ", cs, "");
    assert CountText(cs) + "" == CountText(cs);
    assert Numbers(cs) + [] == Numbers(cs);
  }

  lemma FirstOf(a: string, b: string)
    requires a != ""
    ensures NotDigitFirst(a) ==> NotDigitFirst(a + b)
  {
  }
}
