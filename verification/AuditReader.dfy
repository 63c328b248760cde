/** Reading the audit log's queries back: the text alone gives the conditions it
    was built from. */
module AuditReader {
  import opened Text
  import opened AuditQuery

  const AND := " AND "
  const WHERE := " WHERE "
  const COMMA := ", $"
  const CLOSE := ")"

  const TYPE_IS := "resource_type = $"
  const ID_IS := "resource_id = $"
  const FROM_IS := "from_status = $"
  const TO_IS := "to_status = $"
  const AT_LEAST := "created_at >= $"
  const OLDER_THAN := "(created_at, id) < ($"
  const OLDER_THAN_TIME := "created_at < $"

  /** The kinds of conditions, by what stands before their first number. */
  datatype Kind = TypeIs | IdIs | FromIs | ToIs | Since | Older | OlderTime

  function Head(k: Kind): string {
    match k
    case TypeIs => TYPE_IS
    case IdIs => ID_IS
    case FromIs => FROM_IS
    case ToIs => TO_IS
    case Since => AT_LEAST
    case Older => OLDER_THAN
    case OlderTime => OLDER_THAN_TIME
  }

  // ---- The reader ----

  /** The kind of the condition that a text begins with. */
  function ReadKind(s: string): (k: Option<Kind>)
    ensures k.Some? ==> Head(k.value) <= s
  {
    if Head(TypeIs) <= s then Some(TypeIs)
    else if Head(IdIs) <= s then Some(IdIs)
    else if Head(FromIs) <= s then Some(FromIs)
    else if Head(ToIs) <= s then Some(ToIs)
    else if Head(Since) <= s then Some(Since)
    else if Head(Older) <= s then Some(Older)
    else if Head(OlderTime) <= s then Some(OlderTime)
    else None
  }

  function Number(s: string): nat {
    DigitsValue(Digits(s))
  }

  function AfterNumber(s: string): string {
    s[|Digits(s)|..]
  }

  /** The condition a text begins with, and what follows it. */
  datatype Reading = Unread | Read(c: Cond, rest: string)

  /** After the first number of a row comparison: the second one and the parenthesis. */
  function ReadPair(n: nat, s: string): Reading {
    if COMMA <= s && CLOSE <= AfterNumber(s[|COMMA|..]) then
      Read(OlderThan(n, Number(s[|COMMA|..])), AfterNumber(s[|COMMA|..])[|CLOSE|..])
    else Unread
  }

  function ReadRest(k: Kind, s: string): Reading {
    match k
    case TypeIs => Read(Equal(ResourceType, Number(s)), AfterNumber(s))
    case IdIs => Read(Equal(ResourceID, Number(s)), AfterNumber(s))
    case FromIs => Read(Equal(FromStatus, Number(s)), AfterNumber(s))
    case ToIs => Read(Equal(ToStatus, Number(s)), AfterNumber(s))
    case Since => Read(AtLeast(Number(s)), AfterNumber(s))
    case Older => ReadPair(Number(s), AfterNumber(s))
    case OlderTime => Read(OlderThanTime(Number(s)), AfterNumber(s))
  }

  function ReadCond(s: string): Reading {
    match ReadKind(s)
    case None => Unread
    case Some(k) => ReadRest(k, s[|Head(k)|..])
  }

  /** Conditions up to where no further one is added, and what follows them. */
  function ReadConds(s: string): Option<(seq<Cond>, string)>
    decreases |s|
  {
    match ReadCond(s)
    case Unread => None
    case Read(c, rest) =>
      if AND <= rest && |rest| <= |s| then
        match ReadConds(rest[|AND|..])
        case None => None
        case Some(more) => Some(([c] + more.0, more.1))
      else Some(([c], rest))
  }

  /** The conditions of a query that begins with `head`, and what follows them. */
  function ReadWhere(head: string, text: string): Option<(seq<Cond>, string)> {
    if !(head <= text) then None
    else
      var s := text[|head|..];
      if WHERE <= s then ReadConds(s[|WHERE|..]) else Some(([], s))
  }

  // ---- It reads back what was built ----

  function KindOf(c: Cond): Kind {
    match c
    case Equal(ResourceType, _) => TypeIs
    case Equal(ResourceID, _) => IdIs
    case Equal(FromStatus, _) => FromIs
    case Equal(ToStatus, _) => ToIs
    case AtLeast(_) => Since
    case OlderThan(_, _) => Older
    case OlderThanTime(_) => OlderTime
  }

  /** Three places at which any two heads differ. */
  function Signs(s: string): (char, char, char)
    requires |s| > 11
  {
    (s[0], s[9], s[11])
  }

  lemma ColumnSigns()
    ensures |TYPE_IS| > 11 && Signs(TYPE_IS).0 == 'r' && Signs(TYPE_IS).1 == 't'
    ensures |ID_IS| > 11 && Signs(ID_IS).0 == 'r' && Signs(ID_IS).1 == 'i'
    ensures |FROM_IS| > 11 && Signs(FROM_IS).0 == 'f'
    ensures |TO_IS| > 11 && Signs(TO_IS).0 == 't'
  {
  }

  lemma TimeSigns()
    ensures |AT_LEAST| > 11 && Signs(AT_LEAST).0 == 'c' && Signs(AT_LEAST).2 == '>'
    ensures |OLDER_THAN| > 11 && Signs(OLDER_THAN).0 == '('
    ensures |OLDER_THAN_TIME| > 11 && Signs(OLDER_THAN_TIME).0 == 'c' && Signs(OLDER_THAN_TIME).2 == '<'
  {
  }

  lemma HeadsApart(k: Kind, l: Kind)
    requires k != l
    ensures |Head(k)| > 11 && |Head(l)| > 11 && Signs(Head(k)) != Signs(Head(l))
  {
    ColumnSigns();
    TimeSigns();
  }

  lemma NotPrefix(a: string, b: string, rest: string)
    requires |a| > 11 && |b| > 11 && Signs(a) != Signs(b)
    ensures !(a <= b + rest)
  {
    assert Signs(b + rest) == Signs(b);
  }

  lemma ReadsKind(k: Kind, rest: string)
    ensures ReadKind(Head(k) + rest) == Some(k)
  {
    forall l | l != k ensures !(Head(l) <= Head(k) + rest) {
      HeadsApart(l, k);
      NotPrefix(Head(l), Head(k), rest);
    }
    var s := Head(k) + rest;
    assert Head(k) <= s;
    var l := ReadKind(s);
    assert l.Some?;
  }

  lemma ReadsNumber(n: nat, rest: string)
    requires NotDigitFirst(rest)
    ensures Number(Decimal(n) + rest) == n && AfterNumber(Decimal(n) + rest) == rest
  {
    DigitsStop(Decimal(n), rest);
    DecimalValue(n);
  }

  lemma ReadsPair(n: nat, m: nat, rest: string)
    ensures ReadPair(n, COMMA + (Decimal(m) + (CLOSE + rest))) == Read(OlderThan(n, m), rest)
  {
    var s := COMMA + (Decimal(m) + (CLOSE + rest));
    assert s[|COMMA|..] == Decimal(m) + (CLOSE + rest);
    ReadsNumber(m, CLOSE + rest);
    assert (CLOSE + rest)[|CLOSE|..] == rest;
  }

  /** What follows the head of a condition. */
  function Tail(c: Cond, rest: string): string {
    match c
    case OlderThan(n, m) => Decimal(n) + (COMMA + (Decimal(m) + (CLOSE + rest)))
    case _ => Decimal(c.n) + rest
  }

  lemma EqualHead(c: Cond)
    requires c.Equal?
    ensures Head(KindOf(c)) == ColumnName(c.col) + " = " + "$"
  {
    assert TYPE_IS == "resource_type" + " = " + "$";
    assert ID_IS == "resource_id" + " = " + "$";
    assert FROM_IS == "from_status" + " = " + "$";
    assert TO_IS == "to_status" + " = " + "$";
  }

  lemma OneNumber(text: string, head: string, n: nat, rest: string)
    ensures text + Placeholder(n) + rest == text + "$" + (Decimal(n) + rest)
  {
  }

  lemma CondHead(c: Cond, rest: string)
    requires !c.OlderThan?
    ensures CondText(c) + rest == Head(KindOf(c)) + Tail(c, rest)
  {
    match c
    case Equal(col, n) =>
      EqualHead(c);
      OneNumber(ColumnName(col) + " = ", "", n, rest);
    case AtLeast(n) =>
      assert AT_LEAST == "created_at >= " + "$";
      OneNumber("created_at >= ", "", n, rest);
    case OlderThanTime(n) =>
      assert OLDER_THAN_TIME == "created_at < " + "$";
      OneNumber("created_at < ", "", n, rest);
  }

  lemma Regroup(p: string, a: string, q: string, b: string, r: string, rest: string)
    ensures p + a + q + b + r + rest == p + (a + (q + (b + (r + rest))))
  {
    Assoc(p + a + q + b, r, rest);
    Assoc(p + a + q, b, r + rest);
    Assoc(p + a, q, b + (r + rest));
    Assoc(p, a, q + (b + (r + rest)));
  }

  lemma TwoNumbers(p: string, n: nat, q: string, m: nat, r: string, rest: string)
    ensures p + Placeholder(n) + q + Placeholder(m) + r + rest ==
            p + "$" + (Decimal(n) + (q + "$" + (Decimal(m) + (r + rest))))
  {
    Regroup(p, Placeholder(n), q, Placeholder(m), r, rest);
    var end := Decimal(m) + (r + rest);
    Assoc("$", Decimal(m), r + rest);
    Assoc(q, "$", end);
    Assoc("$", Decimal(n), q + ("$" + end));
    Assoc(p, "$", Decimal(n) + (q + "$" + end));
  }

  lemma PairHead(n: nat, m: nat, rest: string)
    ensures CondText(OlderThan(n, m)) + rest == Head(Older) + Tail(OlderThan(n, m), rest)
  {
    assert OLDER_THAN == "(created_at, id) < (" + "$";
    assert COMMA == ", " + "$";
    TwoNumbers("(created_at, id) < (", n, ", ", m, CLOSE, rest);
  }

  lemma ReadsCond(c: Cond, rest: string)
    requires NotDigitFirst(rest)
    ensures ReadCond(CondText(c) + rest) == Read(c, rest)
  {
    var s, head := CondText(c) + rest, Head(KindOf(c));
    if c.OlderThan? {
      PairHead(c.n, c.m, rest);
    } else {
      CondHead(c, rest);
    }
    ReadsKind(KindOf(c), Tail(c, rest));
    assert s[|head|..] == Tail(c, rest);
    ReadsTail(c, rest);
  }

  lemma ReadsTail(c: Cond, rest: string)
    requires NotDigitFirst(rest)
    ensures ReadRest(KindOf(c), Tail(c, rest)) == Read(c, rest)
  {
    if c.OlderThan? {
      var more := COMMA + (Decimal(c.m) + (CLOSE + rest));
      FirstOf(COMMA, Decimal(c.m) + (CLOSE + rest));
      ReadsNumber(c.n, more);
      ReadsPair(c.n, c.m, rest);
    } else {
      ReadsNumber(c.n, rest);
    }
  }

  lemma TextsCons(cs: seq<Cond>)
    requires cs != []
    ensures CondTexts(cs) == [CondText(cs[0])] + CondTexts(cs[1..]) && cs == [cs[0]] + cs[1..]
  {
  }

  /** The texts of `cs`, joined, are read back up to `rest`. */
  predicate ReadsAs(texts: seq<string>, cs: seq<Cond>, rest: string) {
    ReadConds(Join(texts, AND) + rest) == Some((cs, rest))
  }

  lemma {:induction false} ReadsConds(cs: seq<Cond>, rest: string)
    requires cs != [] && NotDigitFirst(rest) && !(AND <= rest)
    ensures ReadsAs(CondTexts(cs), cs, rest)
    decreases |cs|
  {
    if |cs| == 1 {
      ReadsOnly(cs, rest);
    } else {
      ReadsConds(cs[1..], rest);
      ReadsAll(cs, rest);
    }
  }

  lemma ReadsOnly(cs: seq<Cond>, rest: string)
    requires |cs| == 1 && NotDigitFirst(rest) && !(AND <= rest)
    ensures ReadsAs(CondTexts(cs), cs, rest)
  {
    assert CondTexts(cs) == [CondText(cs[0])];
    ReadsLast(cs[0], rest);
    assert cs == [cs[0]];
  }

  lemma ReadsAll(cs: seq<Cond>, rest: string)
    requires |cs| > 1 && ReadsAs(CondTexts(cs[1..]), cs[1..], rest)
    ensures ReadsAs(CondTexts(cs), cs, rest)
  {
    TextsCons(cs);
    ReadsFirst(cs[0], CondTexts(cs[1..]), cs[1..], rest, CondTexts(cs), cs);
  }

  lemma ReadsLast(c: Cond, rest: string)
    requires NotDigitFirst(rest) && !(AND <= rest)
    ensures ReadsAs([CondText(c)], [c], rest)
  {
    ReadsCond(c, rest);
  }

  lemma ReadsFirst(c: Cond, rests: seq<string>, cs: seq<Cond>, rest: string, texts: seq<string>, all: seq<Cond>)
    requires rests != [] && ReadsAs(rests, cs, rest)
    requires texts == [CondText(c)] + rests && all == [c] + cs
    ensures ReadsAs(texts, all, rest)
  {
    var tail := Join(rests, AND) + rest;
    JoinTail(CondText(c), rests, AND, rest);
    Assoc(CondText(c), AND, tail);
    FirstOf(AND, tail);
    ReadsCond(c, AND + tail);
    ReadsMore(CondText(c), c, tail, cs, rest);
  }

  lemma ReadsMore(text: string, c: Cond, tail: string, cs: seq<Cond>, rest: string)
    requires ReadCond(text + (AND + tail)) == Read(c, AND + tail)
    requires ReadConds(tail) == Some((cs, rest))
    ensures ReadConds(text + (AND + tail)) == Some(([c] + cs, rest))
  {
    assert (AND + tail)[|AND|..] == tail;
  }

  lemma ReadsWhere(head: string, cs: seq<Cond>, rest: string)
    requires NotDigitFirst(rest) && !(AND <= rest) && !(WHERE <= rest)
    ensures ReadWhere(head, head + WhereText(cs) + rest) == Some((cs, rest))
  {
    var s := WhereText(cs) + rest;
    Assoc(head, WhereText(cs), rest);
    assert (head + s)[|head|..] == s;
    if cs == [] {
      assert s == rest;
    } else {
      var conds := Join(CondTexts(cs), AND);
      Assoc(WHERE, conds, rest);
      assert (WHERE + (conds + rest))[|WHERE|..] == conds + rest;
      ReadsConds(cs, rest);
    }
  }

  lemma OrderStarts(more: string)
    ensures NotDigitFirst(LIST_ORDER + more) && !(AND <= LIST_ORDER + more) && !(WHERE <= LIST_ORDER + more)
  {
    var s := LIST_ORDER + more;
    assert s[1] == LIST_ORDER[1] == 'O' && s[0] == LIST_ORDER[0] == ' ';
    assert AND[1] == 'A' && WHERE[1] == 'W';
  }

  /** The list query's text alone gives its conditions and its LIMIT placeholder. */
  lemma ListReads(cs: seq<Cond>, limit: nat)
    ensures ReadWhere(LIST_HEAD, ListText(cs, limit)) == Some((cs, LIST_ORDER + Placeholder(limit)))
  {
    OrderStarts(Placeholder(limit));
    Assoc(LIST_HEAD + WhereText(cs), LIST_ORDER, Placeholder(limit));
    ReadsWhere(LIST_HEAD, cs, LIST_ORDER + Placeholder(limit));
  }

  /** And so does the count query's. */
  lemma CountReads(cs: seq<Cond>)
    ensures ReadWhere(COUNT_HEAD, CountText(cs)) == Some((cs, ""))
  {
    ReadsWhere(COUNT_HEAD, cs, "");
    assert CountText(cs) + "" == CountText(cs);
  }

  // ---- The order and the limit ----

  const ORDER_BY := " ORDER BY "
  const LIMIT := " LIMIT $"
  const DESC := " DESC"
  const ASC := " ASC"
  const NEXT_KEY := ", "

  datatype Direction = Ascending | Descending

  /** A column to order by, and which way. */
  datatype Key = Key(column: string, dir: Direction)

  /** A text up to its first space. */
  function Word(s: string): (w: string)
    ensures w <= s
  {
    if s == "" || s[0] == ' ' then "" else [s[0]] + Word(s[1..])
  }

  /** The key a text begins with, and what follows it. */
  function ReadKey(s: string): Option<(Key, string)> {
    var rest := s[|Word(s)|..];
    if DESC <= rest then Some((Key(Word(s), Descending), rest[|DESC|..]))
    else if ASC <= rest then Some((Key(Word(s), Ascending), rest[|ASC|..]))
    else None
  }

  function ReadKeys(s: string): Option<(seq<Key>, string)>
    decreases |s|
  {
    match ReadKey(s)
    case None => None
    case Some((k, rest)) =>
      if NEXT_KEY <= rest && |rest| <= |s| then
        match ReadKeys(rest[|NEXT_KEY|..])
        case None => None
        case Some(more) => Some(([k] + more.0, more.1))
      else Some(([k], rest))
  }

  /** What stands behind the conditions: the keys, and the placeholder of the limit. */
  function ReadOrder(s: string): Option<(seq<Key>, nat)> {
    if !(ORDER_BY <= s) then None
    else
      match ReadKeys(s[|ORDER_BY|..])
      case None => None
      case Some(keys) =>
        if LIMIT <= keys.1 && AfterNumber(keys.1[|LIMIT|..]) == "" then Some((keys.0, Number(keys.1[|LIMIT|..]))) else None
  }

  lemma {:induction false} WordStops(w: string, rest: string)
    requires ' ' !in w && rest != "" && rest[0] == ' '
    ensures Word(w + rest) == w
  {
    if w == "" {
      assert w + rest == rest;
    } else {
      assert (w + rest)[1..] == w[1..] + rest;
      WordStops(w[1..], rest);
      assert [w[0]] + w[1..] == w;
    }
  }

  lemma ReadsKey(w: string, rest: string)
    requires ' ' !in w
    ensures ReadKey(w + (DESC + rest)) == Some((Key(w, Descending), rest))
  {
    WordStops(w, DESC + rest);
    assert (w + (DESC + rest))[|w|..] == DESC + rest;
    assert (DESC + rest)[|DESC|..] == rest;
  }

  lemma ReadsLastKey(w: string, rest: string)
    requires ' ' !in w && !(NEXT_KEY <= rest)
    ensures ReadKeys(w + (DESC + rest)) == Some(([Key(w, Descending)], rest))
  {
    ReadsKey(w, rest);
  }

  lemma ReadsFirstKey(w: string, more: string, keys: seq<Key>, rest: string)
    requires ' ' !in w && ReadKeys(more) == Some((keys, rest))
    ensures ReadKeys(w + (DESC + (NEXT_KEY + more))) == Some(([Key(w, Descending)] + keys, rest))
  {
    ReadsKey(w, NEXT_KEY + more);
    assert (NEXT_KEY + more)[|NEXT_KEY|..] == more;
  }

  const NEWEST_FIRST := [Key("created_at", Descending), Key("id", Descending)]

  lemma OrderText(n: nat)
    ensures LIST_ORDER + Placeholder(n) ==
            ORDER_BY + ("created_at" + (DESC + (NEXT_KEY + ("id" + (DESC + (LIMIT + Decimal(n)))))))
  {
    assert LIST_ORDER + "$" == ORDER_BY + "created_at" + DESC + NEXT_KEY + "id" + DESC + LIMIT;
    Assoc(LIST_ORDER, "$", Decimal(n));
    Assoc(ORDER_BY + "created_at" + DESC + NEXT_KEY + "id" + DESC, LIMIT, Decimal(n));
    Regroup(ORDER_BY, "created_at", DESC, NEXT_KEY, "id", DESC + (LIMIT + Decimal(n)));
    Assoc(ORDER_BY + "created_at" + DESC + NEXT_KEY + "id", DESC, LIMIT + Decimal(n));
  }

  lemma ReadsTwoKeys(a: string, b: string, rest: string, keys: seq<Key>)
    requires ' ' !in a && ' ' !in b && !(NEXT_KEY <= rest)
    requires keys == [Key(a, Descending), Key(b, Descending)]
    ensures ReadKeys(a + (DESC + (NEXT_KEY + (b + (DESC + rest))))) == Some((keys, rest))
  {
    ReadsLastKey(b, rest);
    ReadsFirstKey(a, b + (DESC + rest), [Key(b, Descending)], rest);
    assert [Key(a, Descending)] + [Key(b, Descending)] == keys;
  }

  /** The list query asks for the newest rows first, ids descending, up to its limit. */
  lemma OrderReads(n: nat)
    ensures ReadOrder(LIST_ORDER + Placeholder(n)) == Some((NEWEST_FIRST, n))
  {
    var a, b, rest := "created_at", "id", LIMIT + Decimal(n);
    OrderText(n);
    LimitIsNoKey(Decimal(n));
    ReadsTwoKeys(a, b, rest, NEWEST_FIRST);
    ReadsLimit(a + (DESC + (NEXT_KEY + (b + (DESC + rest)))), NEWEST_FIRST, n);
  }

  lemma LimitIsNoKey(more: string)
    ensures !(NEXT_KEY <= LIMIT + more)
  {
    assert (LIMIT + more)[0] == ' ' && NEXT_KEY[0] == ',';
  }

  lemma ReadsLimit(text: string, keys: seq<Key>, n: nat)
    requires ReadKeys(text) == Some((keys, LIMIT + Decimal(n)))
    ensures ReadOrder(ORDER_BY + text) == Some((keys, n))
  {
    assert (ORDER_BY + text)[|ORDER_BY|..] == text;
    assert (LIMIT + Decimal(n))[|LIMIT|..] == Decimal(n) + "";
    ReadsNumber(n, "");
  }

  // ---- What the database answers ----

  /** Whether `a` comes before `b` in one column, ascending. */
  predicate Under(column: string, a: Event, b: Event) {
    if column == "created_at" then a.createdAt < b.createdAt else column == "id" && Less(a.id, b.id)
  }

  predicate Level(column: string, a: Event, b: Event) {
    if column == "created_at" then a.createdAt == b.createdAt else column == "id" && a.id == b.id
  }

  /** Whether the keys put `a` before `b`. */
  predicate Comes(keys: seq<Key>, a: Event, b: Event) {
    keys != [] &&
    var k := keys[0];
    || (if k.dir.Ascending? then Under(k.column, a, b) else Under(k.column, b, a))
    || (Level(k.column, a, b) && Comes(keys[1..], a, b))
  }

  function InsertBy(keys: seq<Key>, x: Event, rows: seq<Event>): seq<Event> {
    if rows == [] || Comes(keys, x, rows[0]) then [x] + rows else [rows[0]] + InsertBy(keys, x, rows[1..])
  }

  function SortBy(keys: seq<Key>, rows: seq<Event>): seq<Event> {
    if rows == [] then [] else InsertBy(keys, rows[0], SortBy(keys, rows[1..]))
  }

  /** The rows on which all the conditions hold. */
  function Answer(rows: seq<Event>, cs: seq<Cond>, args: seq<Value>): seq<Event> {
    if rows == [] then []
    else (if AllHold(cs, args, rows[0]) then [rows[0]] else []) + Answer(rows[1..], cs, args)
  }

  /** The first rows, as many as the argument bound to the limit says. */
  function First(args: seq<Value>, n: nat, rows: seq<Event>): seq<Event> {
    match Bound(args, n)
    case Some(NumberValue(limit)) => if 0 <= limit < |rows| then rows[..limit] else rows
    case _ => []
  }

  /** The answer to a query's text and arguments: nothing to a text that cannot be read. */
  function Execute(rows: seq<Event>, text: string, args: seq<Value>): seq<Event> {
    match ReadWhere(LIST_HEAD, text)
    case None => []
    case Some(where) =>
      match ReadOrder(where.1)
      case None => []
      case Some(order) => First(args, order.1, SortBy(order.0, Answer(rows, where.0, args)))
  }

  /** The number a count query answers with. */
  function ExecuteCount(rows: seq<Event>, text: string, args: seq<Value>): nat {
    match ReadWhere(COUNT_HEAD, text)
    case None => 0
    case Some(where) => if where.1 == "" then |Answer(rows, where.0, args)| else 0
  }

  lemma ExecuteReads(rows: seq<Event>, cs: seq<Cond>, n: nat, args: seq<Value>)
    ensures Execute(rows, ListText(cs, n), args) == First(args, n, SortBy(NEWEST_FIRST, Answer(rows, cs, args)))
  {
    ListReads(cs, n);
    OrderReads(n);
  }

  lemma ExecuteCountReads(rows: seq<Event>, cs: seq<Cond>, args: seq<Value>)
    ensures ExecuteCount(rows, CountText(cs), args) == |Answer(rows, cs, args)|
  {
    CountReads(cs);
  }
}
