/** String helpers shared by the other modules: the Go and JavaScript library
    calls the modelled code relies on, on `seq<char>`. */
module Text {

  datatype Option<+T> = None | Some(value: T)

  /** `strings.Split` for a one-character separator: always at least one piece. */
  function Split(s: string, sep: char): (r: seq<string>)
    ensures |r| >= 1
    ensures forall p :: p in r ==> sep !in p
  {
    if s == [] then [""]
    else
      var rest := Split(s[1..], sep);
      if s[0] == sep then [""] + rest else Glue(s[0], rest)
  }

  /** `c` put in front of the first piece. */
  function Glue(c: char, ps: seq<string>): seq<string>
    requires ps != []
  {
    [[c] + ps[0]] + ps[1..]
  }

  lemma GlueAppend(c: char, ps: seq<string>, qs: seq<string>)
    requires ps != []
    ensures Glue(c, ps + qs) == Glue(c, ps) + qs
  {
    assert (ps + qs)[1..] == ps[1..] + qs;
  }

  /** `strings.Join`. */
  function Join(ps: seq<string>, sep: string): string {
    if ps == [] then ""
    else if |ps| == 1 then ps[0]
    else ps[0] + sep + Join(ps[1..], sep)
  }

  /** All pieces one after the other. */
  function Concat<T>(xs: seq<seq<T>>): seq<T> {
    if xs == [] then [] else xs[0] + Concat(xs[1..])
  }

  predicate StartsWith(s: string, prefix: string) {
    prefix <= s
  }

  /** `strings.HasSuffix`. */
  predicate HasSuffix(s: string, suffix: string) {
    |suffix| <= |s| && s[|s| - |suffix|..] == suffix
  }

  /** `strings.TrimPrefix`. */
  function TrimPrefix(s: string, prefix: string): string {
    if StartsWith(s, prefix) then s[|prefix|..] else s
  }

  /** `strings.TrimRight(s, c)` for a one-character cutset. */
  function TrimRightChar(s: string, c: char): (r: string)
    ensures r <= s
    ensures forall x :: x in r ==> x in s
    ensures r == [] || r[|r| - 1] != c
    ensures forall i :: |r| <= i < |s| ==> s[i] == c
  {
    if s != [] && s[|s| - 1] == c then TrimRightChar(s[..|s| - 1], c) else s
  }

  /** `unicode.IsSpace`. */
  predicate IsSpace(c: char) {
    || c in {' ', '\t', '\n', '\r', 11 as char, 12 as char, 0x85 as char, 0xA0 as char}
    || c in {0x1680 as char, 0x2028 as char, 0x2029 as char, 0x202F as char, 0x205F as char, 0x3000 as char}
    || 0x2000 as char <= c <= 0x200A as char
  }

  /** `strings.TrimSpace`. */
  function TrimSpace(s: string): (r: string)
    ensures r == [] || (!IsSpace(r[0]) && !IsSpace(r[|r| - 1]))
    ensures (s == [] || (!IsSpace(s[0]) && !IsSpace(s[|s| - 1]))) ==> r == s
    ensures |r| <= |s|
  {
    if s == [] then []
    else if IsSpace(s[0]) then TrimSpace(s[1..])
    else if IsSpace(s[|s| - 1]) then TrimSpace(s[..|s| - 1])
    else s
  }

  predicate AllSpace(s: string) {
    forall c :: c in s ==> IsSpace(c)
  }

  lemma MoreSpace(c: char, s: string)
    requires IsSpace(c) && AllSpace(s)
    ensures AllSpace([c] + s) && AllSpace(s + [c])
  {
  }

  lemma TrimFirst(s: string)
    requires s != [] && IsSpace(s[0])
    ensures TrimSpace(s) == TrimSpace(s[1..]) && s == [s[0]] + s[1..]
  {
  }

  lemma TrimLast(s: string)
    requires s != [] && !IsSpace(s[0]) && IsSpace(s[|s| - 1])
    ensures TrimSpace(s) == TrimSpace(s[..|s| - 1]) && s == s[..|s| - 1] + [s[|s| - 1]]
  {
  }

  /** What trimming leaves is the text between the white space at its two ends. */
  lemma {:induction false} TrimSpaceExact(s: string) returns (a: string, b: string)
    ensures s == a + TrimSpace(s) + b && AllSpace(a) && AllSpace(b)
    decreases |s|
  {
    a, b := "", "";
    if s == [] {
    } else if IsSpace(s[0]) {
      TrimFirst(s);
      a, b := TrimSpaceExact(s[1..]);
      MoreSpace(s[0], a);
      a := [s[0]] + a;
    } else if IsSpace(s[|s| - 1]) {
      TrimLast(s);
      a, b := TrimSpaceExact(s[..|s| - 1]);
      MoreSpace(s[|s| - 1], b);
      b := b + [s[|s| - 1]];
    } else {
      assert "" + s + "" == s;
    }
  }

  /** `text` is `line` less the run of `c` at its end. */
  predicate LessRun(line: string, c: char, text: string) {
    && text <= line && (text == "" || text[|text| - 1] != c)
    && forall i :: |text| <= i < |line| ==> line[i] == c
  }

  lemma TrimIsLessRun(line: string, c: char, text: string)
    ensures text == TrimRightChar(line, c) <==> LessRun(line, c, text)
  {
    var r := TrimRightChar(line, c);
    assert r == "" || line[|r| - 1] == r[|r| - 1];
    if LessRun(line, c, text) {
      assert text == "" || line[|text| - 1] == text[|text| - 1];
      assert |text| == |r|;
    }
  }

  /** One step of a loop over `s`. */
  lemma TakeSnoc<T>(s: seq<T>, i: nat)
    requires i < |s|
    ensures s[..i + 1] == s[..i] + [s[i]]
  {
  }

  lemma Assoc<T>(a: seq<T>, b: seq<T>, c: seq<T>)
    ensures a + b + c == a + (b + c)
  {
  }

  lemma CutAt<T>(s: seq<T>, i: nat)
    requires i < |s|
    ensures s == s[..i] + [s[i]] + s[i + 1..]
  {
  }

  lemma TakeAll<T>(s: seq<T>)
    ensures s[..|s|] == s
  {
  }

  lemma {:induction false} SplitPlain(p: string, sep: char)
    requires sep !in p
    ensures Split(p, sep) == [p]
  {
    if p != [] {
      SplitPlain(p[1..], sep);
      assert [p[0]] + p[1..] == p;
    }
  }

  /** A separator splits the text in two independent halves. */
  lemma {:induction false} SplitConcat(a: string, b: string, sep: char)
    ensures Split(a + [sep] + b, sep) == Split(a, sep) + Split(b, sep)
  {
    var s := a + [sep] + b;
    if a == [] {
      assert s[1..] == b;
    } else {
      assert s[0] == a[0] && s[1..] == a[1..] + [sep] + b;
      SplitConcat(a[1..], b, sep);
      GlueAppend(a[0], Split(a[1..], sep), Split(b, sep));
    }
  }

  lemma {:induction false} SplitJoin(ps: seq<string>, sep: char)
    requires ps != []
    requires forall p :: p in ps ==> sep !in p
    ensures Split(Join(ps, [sep]), sep) == ps
  {
    SplitPlain(ps[0], sep);
    if |ps| > 1 {
      SplitConcat(ps[0], Join(ps[1..], [sep]), sep);
      SplitJoin(ps[1..], sep);
      assert [ps[0]] + ps[1..] == ps;
    }
  }

  lemma {:induction false} ConcatAppend<T>(xs: seq<seq<T>>, ys: seq<seq<T>>)
    ensures Concat(xs + ys) == Concat(xs) + Concat(ys)
  {
    if xs == [] {
      assert xs + ys == ys;
    } else {
      assert (xs + ys)[1..] == xs[1..] + ys;
      ConcatAppend(xs[1..], ys);
    }
  }

  lemma ConcatSnoc<T>(xs: seq<seq<T>>, y: seq<T>)
    ensures Concat(xs + [y]) == Concat(xs) + y
  {
    ConcatAppend(xs, [y]);
    assert Concat([y]) == y + Concat<T>([][..]);
  }
}
