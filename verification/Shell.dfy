/** Command lines sent over SSH: quoting in the file manager and in the deploy
    service, read back by the token rules of the POSIX shell. */
module Shell {
  import opened Text
  import opened Paths

  const NUL: char := 0 as char

  /** `strings.ReplaceAll(s, "'", "'\\''")`. */
  function ReplaceQuotes(s: string): string {
    if s == [] then ""
    else (if s[0] == '\'' then "'\\''" else [s[0]]) + ReplaceQuotes(s[1..])
  }

  /** `shellescape`. */
  function Escape(s: string): string {
    "'" + ReplaceQuotes(s) + "'"
  }

  // ---- POSIX.1-2017 Shell Command Language, sections 2.2.1, 2.2.2 and 2.3 ----

  /** Characters that stand for themselves outside quotes in an argument word. */
  predicate Ordinary(c: char) {
    'a' <= c <= 'z' || 'A' <= c <= 'Z' || '0' <= c <= '9' || c in {'-', '_', '.', '/', '=', ':', ',', '@', '+'}
  }

  function Begun(word: Option<string>): string {
    if word.Some? then word.value else ""
  }

  /** Prefix the word just delimited to the later words. */
  function Emit(word: Option<string>, rest: Option<seq<string>>): Option<seq<string>> {
    if word.None? then rest
    else if rest.None? then None
    else Some([word.value] + rest.value)
  }

  /** The words of a line read outside quotes, `word` being under way. A line that
      is not one simple command made of words (an operator, an expansion, a double
      quote, an open quote, a NUL) has no reading here. */
  function Unquoted(s: string, word: Option<string>): Option<seq<string>>
    decreases |s|
  {
    if s == [] then Emit(word, Some([]))
    else if s[0] == ' ' || s[0] == '\t' then Emit(word, Unquoted(s[1..], None))
    else if s[0] == '\'' then Quoted(s[1..], Begun(word))
    else if s[0] == '\\' then
      if |s| == 1 || s[1] == NUL then None
      else if s[1] == '\n' then Unquoted(s[2..], word)
      else Unquoted(s[2..], Some(Begun(word) + [s[1]]))
    else if Ordinary(s[0]) then Unquoted(s[1..], Some(Begun(word) + [s[0]]))
    else None
  }

  /** Inside single quotes every character but the closing quote is literal. */
  function Quoted(s: string, word: string): Option<seq<string>>
    decreases |s|
  {
    if s == [] || s[0] == NUL then None
    else if s[0] == '\'' then Unquoted(s[1..], Some(word))
    else Quoted(s[1..], word + [s[0]])
  }

  function Tokens(line: string): Option<seq<string>> {
    Unquoted(line, None)
  }

  // ---- Words as the program builds them ----

  /** A word: bare ordinary characters, then possibly a quoted part. */
  datatype Word = Word(bare: string, quoted: Option<string>) {
    predicate Valid() {
      (forall c :: c in bare ==> Ordinary(c)) && (quoted.Some? || bare != "")
    }

    function Text(): string {
      bare + if quoted.Some? then Escape(quoted.value) else ""
    }

    function Value(): string {
      bare + if quoted.Some? then quoted.value else ""
    }
  }

  function Bare(s: string): Word { Word(s, None) }

  function Arg(s: string): Word { Word("", Some(s)) }

  function Texts(ws: seq<Word>): seq<string> {
    seq(|ws|, i requires 0 <= i < |ws| => ws[i].Text())
  }

  function Values(ws: seq<Word>): seq<string> {
    seq(|ws|, i requires 0 <= i < |ws| => ws[i].Value())
  }

  predicate NulFree(ws: seq<Word>) {
    forall w :: w in ws ==> NUL !in w.Value()
  }

  lemma QuotedStep(c: char, tail: string, word: string)
    ensures Quoted((if c == '\'' then "'\\''" else [c]) + tail, word) ==
            if c == NUL then None else Quoted(tail, word + [c])
  {
    if c == '\'' {
      var t := "'\\''" + tail;
      assert t[1..] == "\\''" + tail;
      var u := t[1..];
      assert u[0] == '\\' && u[1] == '\'' && u[2..] == "'" + tail;
      assert u[2..][1..] == tail;
      assert Quoted(t, word) == Unquoted(u, Some(word));
      assert Unquoted(u, Some(word)) == Unquoted(u[2..], Some(word + ['\'']));
      assert Unquoted(u[2..], Some(word + ['\''])) == Quoted(tail, word + ['\'']);
    } else {
      assert ([c] + tail)[1..] == tail;
    }
  }

  lemma {:induction false} QuotedBody(s: string, word: string, rest: string)
    ensures Quoted(ReplaceQuotes(s) + "'" + rest, word) ==
            if NUL in s then None else Unquoted(rest, Some(word + s))
  {
    if s == [] {
      assert (ReplaceQuotes(s) + "'" + rest)[1..] == rest;
      assert word + s == word;
    } else {
      var c, tail := s[0], ReplaceQuotes(s[1..]) + "'" + rest;
      assert ReplaceQuotes(s) + "'" + rest == (if c == '\'' then "'\\''" else [c]) + tail;
      assert word + [c] + s[1..] == word + s;
      QuotedStep(c, tail, word);
      QuotedBody(s[1..], word + [c], rest);
    }
  }

  lemma {:induction false} BareBody(s: string, word: Option<string>, rest: string)
    requires forall c :: c in s ==> Ordinary(c)
    requires s != ""
    ensures Unquoted(s + rest, word) == Unquoted(rest, Some(Begun(word) + s))
  {
    var t := s + rest;
    assert Ordinary(t[0]) by { assert s[0] in s; }
    assert t[1..] == s[1..] + rest;
    var next := Some(Begun(word) + [s[0]]);
    if |s| > 1 {
      BareBody(s[1..], next, rest);
      assert Begun(word) + [s[0]] + s[1..] == Begun(word) + s;
    } else {
      assert s == [s[0]];
      assert s[1..] + rest == rest;
    }
  }

  lemma EscapeReads(q: string, word: Option<string>, rest: string)
    ensures Unquoted(Escape(q) + rest, word) ==
            if NUL in q then None else Unquoted(rest, Some(Begun(word) + q))
  {
    var body := ReplaceQuotes(q) + "'" + rest;
    assert Escape(q) + rest == "'" + body;
    assert ("'" + body)[1..] == body;
    QuotedBody(q, Begun(word), rest);
  }

  /** Reading a built word gives back its value, and fails only on a NUL. */
  lemma WordReads(w: Word, rest: string)
    requires w.Valid()
    ensures Unquoted(w.Text() + rest, None) ==
            if NUL in w.Value() then None else Unquoted(rest, Some(w.Value()))
  {
    assert NUL !in w.bare;
    var q := if w.quoted.Some? then Escape(w.quoted.value) + rest else rest;
    assert w.Text() + rest == w.bare + q;
    if w.quoted.Some? {
      EscapeReads(w.quoted.value, if w.bare == "" then None else Some(w.bare), rest);
    }
    if w.bare != "" {
      BareBody(w.bare, None, q);
      assert Begun(None) + w.bare == w.bare;
      assert w.quoted.None? ==> w.Value() == w.bare;
    } else {
      assert w.bare + q == q;
      assert w.Value() == w.quoted.value;
    }
  }

  lemma JoinHead(t: string, ts: seq<string>)
    ensures Join([t] + ts, " ") == if ts == [] then t else t + (" " + Join(ts, " "))
  {
    assert ([t] + ts)[1..] == ts;
  }

  lemma NulHead(w: Word, ws: seq<Word>)
    ensures NulFree([w] + ws) <==> NUL !in w.Value() && NulFree(ws)
    ensures Texts([w] + ws) == [w.Text()] + Texts(ws)
    ensures Values([w] + ws) == [w.Value()] + Values(ws)
  {
    assert forall x :: x in [w] + ws <==> x == w || x in ws;
  }

  /** A line of built words reads back as their values, for all words without a NUL;
      with a NUL anywhere it has no reading at all. */
  lemma {:induction false} LineReads(ws: seq<Word>)
    requires forall w :: w in ws ==> w.Valid()
    ensures Tokens(Join(Texts(ws), " ")) == if NulFree(ws) then Some(Values(ws)) else None
  {
    if ws == [] {
      assert Texts(ws) == [] && Values(ws) == [];
    } else {
      var w, rest := ws[0], ws[1..];
      assert w in ws && ws == [w] + rest;
      LineReads(rest);
      NulHead(w, rest);
      JoinHead(w.Text(), Texts(rest));
      if rest == [] {
        WordReads(w, "");
        assert w.Text() + "" == w.Text();
      } else {
        var more := " " + Join(Texts(rest), " ");
        assert more[1..] == Join(Texts(rest), " ");
        WordReads(w, more);
      }
    }
  }

  lemma TextsAppend(ws: seq<Word>, w: Word)
    ensures Texts(ws + [w]) == Texts(ws) + [w.Text()]
    ensures Values(ws + [w]) == Values(ws) + [w.Value()]
  {
  }

  // ---- Archive commands ----

  /** The arguments an archive command is meant to have for cleaned paths. */
  function ZipArgs(cleanDest: string, cleans: seq<string>): seq<string> {
    ["zip", "-r", cleanDest] + cleans
  }

  function Cleans(paths: seq<string>): (r: seq<string>)
    ensures |r| == |paths|
  {
    seq(|paths|, i requires 0 <= i < |paths| => Render(Components(paths[i])))
  }

  predicate NoNul(ss: seq<string>) {
    forall s :: s in ss ==> NUL !in s
  }

  /** The remote shell sees exactly the arguments `args` in `line`, whatever they
      hold short of a NUL. */
  predicate Runs(line: string, args: seq<string>) {
    Tokens(line) == if NoNul(args) then Some(args) else None
  }

  /** Arguments that start with a slash cannot be taken for options. */
  predicate AllRooted(args: seq<string>) {
    forall i :: 0 <= i < |args| ==> StartsWith(args[i], "/")
  }

  /** The command line of `compressSSH`, or no command when a path is forbidden. */
  method CompressCommand(srcPaths: seq<string>, destZip: string) returns (cmd: Option<string>)
    ensures cmd.Some? <==>
              SafePath(destZip).Ok? && forall k :: 0 <= k < |srcPaths| ==> SafePath(srcPaths[k]).Ok?
    ensures cmd.Some? ==> Runs(cmd.value, ZipArgs(Render(Components(destZip)), Cleans(srcPaths)))
    ensures AllRooted([Render(Components(destZip))] + Cleans(srcPaths))
  {
    var dest := SafePath(destZip);
    if dest.Forbidden? {
      return None;
    }
    var args := ["zip", "-r", Escape(dest.path)];
    ghost var words := [Bare("zip"), Bare("-r"), Arg(dest.path)];
    ZipWords(dest.path);
    assert Cleans(srcPaths[..0]) == [];
    for i := 0 to |srcPaths|
      invariant args == Texts(words)
      invariant forall w :: w in words ==> w.Valid()
      invariant Values(words) == ZipArgs(dest.path, Cleans(srcPaths[..i]))
      invariant forall k :: 0 <= k < i ==> SafePath(srcPaths[k]).Ok?
    {
      var clean := SafePath(srcPaths[i]);
      if clean.Forbidden? {
        return None;
      }
      ZipStep(words, dest.path, srcPaths, i);
      args := args + [Escape(clean.path)];
      words := words + [Arg(clean.path)];
    }
    SafePathExact(destZip);
    TakeAll(srcPaths);
    WordsRun(words);
    cmd := Some(Join(args, " "));
  }

  lemma WordsRun(words: seq<Word>)
    requires forall w :: w in words ==> w.Valid()
    ensures Runs(Join(Texts(words), " "), Values(words))
  {
    LineReads(words);
    NulFreeValues(words);
  }

  lemma ZipStep(words: seq<Word>, dest: string, paths: seq<string>, i: nat)
    requires i < |paths| && SafePath(paths[i]).Ok?
    requires Values(words) == ZipArgs(dest, Cleans(paths[..i]))
    ensures var arg := Arg(SafePath(paths[i]).path);
            && Texts(words + [arg]) == Texts(words) + [Escape(SafePath(paths[i]).path)]
            && Values(words + [arg]) == ZipArgs(dest, Cleans(paths[..i + 1]))
            && arg.Valid()
  {
    var clean := SafePath(paths[i]).path;
    SafePathExact(paths[i]);
    TextsAppend(words, Arg(clean));
    ArgText(clean);
    CleansSnoc(paths, i);
    Assoc(["zip", "-r", dest], Cleans(paths[..i]), [clean]);
  }

  lemma ArgText(s: string)
    ensures Arg(s).Text() == Escape(s) && Arg(s).Value() == s
  {
  }

  lemma ZipWords(dest: string)
    ensures var ws := [Bare("zip"), Bare("-r"), Arg(dest)];
            && Texts(ws) == ["zip", "-r", Escape(dest)]
            && Values(ws) == ["zip", "-r", dest]
            && forall w :: w in ws ==> w.Valid()
  {
    ArgText(dest);
    BareText("zip");
    BareText("-r");
  }

  lemma BareText(s: string)
    ensures Bare(s).Text() == s && Bare(s).Value() == s
  {
  }

  lemma CleansSnoc(paths: seq<string>, i: nat)
    requires i < |paths|
    ensures Cleans(paths[..i + 1]) == Cleans(paths[..i]) + [Render(Components(paths[i]))]
  {
  }

  lemma NulFreeValues(ws: seq<Word>)
    ensures NulFree(ws) <==> NoNul(Values(ws))
  {
    if NoNul(Values(ws)) {
      forall w | w in ws ensures NUL !in w.Value() {
        var i :| 0 <= i < |ws| && ws[i] == w;
        assert Values(ws)[i] == w.Value();
      }
    }
  }

  /** The command line of `extractSSH`. */
  method ExtractCommand(zipPath: string, destDir: string) returns (cmd: Option<string>)
    ensures cmd.None? <==> SafePath(zipPath).Forbidden? || SafePath(destDir).Forbidden?
    ensures cmd.Some? ==>
              var args := ["unzip", "-o", Render(Components(zipPath)), "-d", Render(Components(destDir))];
              Runs(cmd.value, args) && AllRooted([args[2], args[4]])
  {
    var zip, dest := SafePath(zipPath), SafePath(destDir);
    if zip.Forbidden? || dest.Forbidden? {
      return None;
    }
    SafePathExact(zipPath);
    SafePathExact(destDir);
    UnzipReads(zip.path, dest.path);
    cmd := Some("unzip -o " + Escape(zip.path) + " -d " + Escape(dest.path));
  }

  lemma UnzipReads(zip: string, dest: string)
    ensures var args := ["unzip", "-o", zip, "-d", dest];
            Runs("unzip -o " + Escape(zip) + " -d " + Escape(dest), args)
  {
    var ws := [Bare("unzip"), Bare("-o"), Arg(zip), Bare("-d"), Arg(dest)];
    var ts := ["unzip", "-o", Escape(zip), "-d", Escape(dest)];
    ArgText(zip);
    ArgText(dest);
    BareText("unzip");
    BareText("-o");
    BareText("-d");
    assert Texts(ws) == ts;
    assert Values(ws) == ["unzip", "-o", zip, "-d", dest];
    UnzipLine(Escape(zip), Escape(dest));
    WordsRun(ws);
  }

  lemma UnzipLine(zip: string, dest: string)
    ensures Join(["unzip", "-o", zip, "-d", dest], " ") == "unzip -o " + zip + " -d " + dest
  {
    JoinSnoc(["unzip"], "-o");
    JoinSnoc(["unzip", "-o"], zip);
    JoinSnoc(["unzip", "-o", zip], "-d");
    JoinSnoc(["unzip", "-o", zip, "-d"], dest);
    assert ["unzip", "-o", zip, "-d"] + [dest] == ["unzip", "-o", zip, "-d", dest];
    assert ["unzip", "-o", zip] + ["-d"] == ["unzip", "-o", zip, "-d"];
    assert ["unzip", "-o"] + [zip] == ["unzip", "-o", zip];
    assert ["unzip"] + ["-o"] == ["unzip", "-o"];
  }

  // ---- Environment flags of `docker run` ----

  datatype EnvVar = EnvVar(key: string, value: string)

  /** The key pattern the environment endpoint enforces. */
  predicate ValidEnvKey(key: string) {
    && 1 <= |key| <= 128
    && ('A' <= key[0] <= 'Z' || key[0] == '_')
    && forall c :: c in key ==> 'A' <= c <= 'Z' || '0' <= c <= '9' || c == '_'
  }

  /** "-e" and "KEY=value", alternating. */
  function EnvArgs(vars: seq<EnvVar>): seq<string> {
    if vars == [] then []
    else EnvArgs(vars[..|vars| - 1]) +
         ["-e", vars[|vars| - 1].key + "=" + vars[|vars| - 1].value]
  }

  /** Two words for each variable, in order. */
  lemma {:induction false} EnvArgsExact(vars: seq<EnvVar>, i: nat)
    requires i < |vars|
    ensures |EnvArgs(vars)| == 2 * |vars|
    ensures EnvArgs(vars)[2 * i] == "-e" && EnvArgs(vars)[2 * i + 1] == vars[i].key + "=" + vars[i].value
  {
    var last := |vars| - 1;
    if last > 0 {
      EnvArgsExact(vars[..last], if i < last then i else 0);
    }
  }

  /** `buildEnvFlags`: the text spliced after "docker run ... -p PORT:3000". Read on
      its own it is the intended flags for every value without a NUL. */
  method BuildEnvFlags(vars: seq<EnvVar>) returns (flags: string)
    ensures ValidKeys(vars) ==> Runs(flags, EnvArgs(vars))
    ensures vars != [] ==> StartsWith(flags, " ")
    ensures |EnvArgs(vars)| == 2 * |vars|
    ensures forall i :: 0 <= i < |vars| ==> IsFlag(EnvArgs(vars), i, vars[i])
  {
    flags := "";
    ghost var words: seq<Word> := [];
    for i := 0 to |vars|
      invariant flags == FlagsText(words) && |words| == 2 * i
      invariant ValidKeys(vars[..i]) ==> forall w :: w in words ==> w.Valid()
      invariant Values(words) == EnvArgs(vars[..i])
    {
      var v := vars[i];
      flags := flags + EnvFlag(v);
      EnvStep(words, v);
      EnvArgsSnoc(vars, i);
      words := words + EnvWords(v);
    }
    TakeAll(vars);
    if ValidKeys(vars) {
      FlagsRead(words);
    }
    forall i | 0 <= i < |vars| ensures IsFlag(EnvArgs(vars), i, vars[i]) {
      EnvArgsExact(vars, i);
    }
    if vars != [] {
      EnvArgsExact(vars, 0);
    }
  }

  /** The `i`-th flag sets `v`. */
  predicate IsFlag(args: seq<string>, i: nat, v: EnvVar) {
    2 * i + 1 < |args| && args[2 * i] == "-e" && args[2 * i + 1] == v.key + "=" + v.value
  }

  predicate ValidKeys(vars: seq<EnvVar>) {
    forall v :: v in vars ==> ValidEnvKey(v.key)
  }

  function EnvWords(v: EnvVar): seq<Word> {
    [Bare("-e"), Word(v.key + "=", Some(v.value))]
  }

  function FlagsText(words: seq<Word>): string {
    if words == [] then "" else " " + Join(Texts(words), " ")
  }

  lemma EnvArgsSnoc(vars: seq<EnvVar>, i: nat)
    requires i < |vars|
    ensures EnvArgs(vars[..i + 1]) == EnvArgs(vars[..i]) + ["-e", vars[i].key + "=" + vars[i].value]
    ensures ValidKeys(vars[..i + 1]) <==> ValidKeys(vars[..i]) && ValidEnvKey(vars[i].key)
  {
    assert vars[..i + 1][..i] == vars[..i];
    TakeSnoc(vars, i);
  }

  lemma FlagsRead(words: seq<Word>)
    requires forall w :: w in words ==> w.Valid()
    ensures Runs(FlagsText(words), Values(words))
  {
    LineReads(words);
    NulFreeValues(words);
    if words == [] {
      assert Texts(words) == [];
    } else {
      assert FlagsText(words)[1..] == Join(Texts(words), " ");
    }
  }

  /** One flag as `fmt.Sprintf` formats it. */
  function EnvFlag(v: EnvVar): string {
    " -e " + v.key + "='" + ReplaceQuotes(v.value) + "'"
  }

  lemma {:induction false} JoinSnoc(ts: seq<string>, t: string)
    requires ts != []
    ensures Join(ts + [t], " ") == Join(ts, " ") + " " + t
  {
    if |ts| > 1 {
      assert (ts + [t])[1..] == ts[1..] + [t];
      JoinSnoc(ts[1..], t);
    }
  }

  lemma EnvStep(words: seq<Word>, v: EnvVar)
    ensures FlagsText(words + EnvWords(v)) == FlagsText(words) + EnvFlag(v)
    ensures Values(words + EnvWords(v)) == Values(words) + ["-e", v.key + "=" + v.value]
    ensures ValidEnvKey(v.key) ==> forall w :: w in EnvWords(v) ==> w.Valid()
  {
    FlagText(v);
    TwoWords(words, EnvWords(v)[0], EnvWords(v)[1]);
  }

  lemma TwoWords(words: seq<Word>, a: Word, b: Word)
    ensures FlagsText(words + [a, b]) == FlagsText(words) + (" " + a.Text() + " " + b.Text())
    ensures Values(words + [a, b]) == Values(words) + [a.Value(), b.Value()]
  {
    var ts := Texts(words);
    assert words + [a] + [b] == words + [a, b];
    TextsAppend(words, a);
    TextsAppend(words + [a], b);
    JoinTwo(ts, a.Text(), b.Text());
  }

  lemma JoinTwo(ts: seq<string>, a: string, b: string)
    ensures " " + Join(ts + [a] + [b], " ") ==
            (if ts == [] then "" else " " + Join(ts, " ")) + (" " + a + " " + b)
  {
    JoinSnoc(ts + [a], b);
    if ts == [] {
      assert ts + [a] == [a];
    } else {
      JoinSnoc(ts, a);
    }
  }

  lemma FlagText(v: EnvVar)
    ensures var ws := EnvWords(v);
            && EnvFlag(v) == " " + ws[0].Text() + " " + ws[1].Text()
            && ws[0].Value() == "-e" && ws[1].Value() == v.key + "=" + v.value
            && (ValidEnvKey(v.key) ==> ws[0].Valid() && ws[1].Valid())
  {
    BareText("-e");
  }
}
