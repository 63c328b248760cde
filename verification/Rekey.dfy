/** Encrypted columns and their rotation to a new key, which may be cut off anywhere. */
module Rekey {
  import opened Calls
  import opened Text

  const ENCRYPTED_PREFIX := "enc:v1:"
  const KEY_SIZE := 32
  const NONCE_SIZE := 12

  // ---- Encryption ----

  /** AES-GCM and base64 by what they promise. `seal` and `open` take key, nonce, text. */
  datatype Primitives = Primitives(
    seal: (string, string, string) -> string,
    open: (string, string, string) -> Option<string>,
    encode: string -> string,
    decode: string -> Option<string>)

  /** What was sealed opens under the same key and nonce, and under no other key; and
      base64 text decodes to what was encoded. */
  ghost predicate Lawful(c: Primitives) {
    && (forall k, n, p :: |k| == KEY_SIZE ==> c.open(k, n, c.seal(k, n, p)) == Some(p))
    && (forall k, k', n, p :: |k| == |k'| == KEY_SIZE && k != k' ==> c.open(k', n, c.seal(k, n, p)) == None)
    && (forall b :: c.decode(c.encode(b)) == Some(b))
  }

  ghost function Toy(): (c: Primitives)
    ensures Lawful(c)
  {
    var c := Primitives((k: string, n: string, p: string) => k + p,
                        (k: string, n: string, t: string) => if k <= t then Some(t[|k|..]) else None,
                        (b: string) => b,
                        (t: string) => Some(t));
    c
  }

  type Crypto = c: Primitives | Lawful(c) ghost witness Toy()

  datatype Encryptor = Encryptor(key: string)

  /** Encryptors that `NewEncryptor` makes. */
  predicate Valid(e: Encryptor) { |e.key| == KEY_SIZE }

  function NewEncryptor(rawKey: string): (e: Option<Encryptor>)
    ensures e.Some? ==> Valid(e.value)
  {
    var key := TrimSpace(rawKey);
    if |key| != KEY_SIZE then None else Some(Encryptor(key))
  }

  predicate Prefixed(value: string) { StartsWith(value, ENCRYPTED_PREFIX) }

  function Sealed(c: Crypto, key: string, nonce: string, plain: string): string {
    ENCRYPTED_PREFIX + c.encode(nonce + c.seal(key, nonce, plain))
  }

  /** `nonce` is what the random source gives, if it gives any. */
  function Encrypt(c: Crypto, e: Encryptor, plain: string, nonce: Option<string>): Option<string> {
    if plain == "" then Some("")
    else if Prefixed(plain) then Some(plain)
    else
      match nonce
      case None => None
      case Some(n) => Some(Sealed(c, e.key, n, plain))
  }

  /** None for each of the errors. */
  function Decrypt(c: Crypto, e: Encryptor, value: string): Option<string> {
    if value == "" then Some("")
    else if !Prefixed(value) then Some(value)
    else
      match c.decode(TrimPrefix(value, ENCRYPTED_PREFIX))
      case None => None
      case Some(raw) =>
        if |raw| < NONCE_SIZE then None
        else c.open(e.key, raw[..NONCE_SIZE], raw[NONCE_SIZE..])
  }

  lemma SealedOpens(c: Crypto, key: string, nonce: string, plain: string, e: Encryptor)
    requires |key| == KEY_SIZE && |nonce| == NONCE_SIZE && Valid(e)
    ensures Prefixed(Sealed(c, key, nonce, plain))
    ensures Decrypt(c, e, Sealed(c, key, nonce, plain)) == if e.key == key then Some(plain) else None
  {
    var raw := nonce + c.seal(key, nonce, plain);
    assert raw[..NONCE_SIZE] == nonce && raw[NONCE_SIZE..] == c.seal(key, nonce, plain);
    var value := ENCRYPTED_PREFIX + c.encode(raw);
    assert value[|ENCRYPTED_PREFIX|..] == c.encode(raw);
    assert value[..|ENCRYPTED_PREFIX|] == ENCRYPTED_PREFIX;
  }

  /** Decrypting what was encrypted gives the text back, unless the text itself looks
      encrypted: then it was left as it was and is now taken for a ciphertext. */
  lemma RoundTrip(c: Crypto, e: Encryptor, plain: string, nonce: string)
    requires Valid(e) && |nonce| == NONCE_SIZE
    ensures var v := Encrypt(c, e, plain, Some(nonce));
            v.Some? && Decrypt(c, e, v.value) == if Prefixed(plain) then Decrypt(c, e, plain) else Some(plain)
  {
    if plain != "" && !Prefixed(plain) {
      SealedOpens(c, e.key, nonce, plain, e);
    }
  }

  // ---- One run over one column ----

  /** What happens at a row: the random source's answer and how the UPDATE turns out,
      or the process is killed before it. */
  datatype Fate = Goes(nonce: Option<string>, update: Write) | Killed

  datatype Failure = DecryptFailed(id: string) | EncryptFailed(id: string) | UpdateFailed(id: string) | WasKilled(id: string)

  /** The text a row is read as: by the old key, or else by the new one. */
  function Read(c: Crypto, oldEnc: Encryptor, newEnc: Encryptor, value: string): Option<string> {
    match Decrypt(c, oldEnc, value)
    case Some(plain) => Some(plain)
    case None => Decrypt(c, newEnc, value)
  }

  /** `v` is what a rewrite of `value` may store. */
  ghost predicate Rewritten(c: Crypto, oldEnc: Encryptor, newEnc: Encryptor, value: string, v: string) {
    exists plain, nonce ::
      && Read(c, oldEnc, newEnc, value) == Some(plain) && plain != ""
      && |nonce| == NONCE_SIZE && Encrypt(c, newEnc, plain, Some(nonce)) == Some(v)
  }

  type Rows = map<string, string>

  /** What any run may do to the column, wherever it ends: rewrite some of the prefixed
      rows and nothing else. */
  ghost predicate MayBecome(c: Crypto, oldEnc: Encryptor, newEnc: Encryptor, before: Rows, after: Rows) {
    && after.Keys == before.Keys
    && forall id :: id in before ==>
         after[id] == before[id] || (Prefixed(before[id]) && Rewritten(c, oldEnc, newEnc, before[id], after[id]))
  }

  /** What a run that completes has done: rewritten every prefixed row but those that
      hold the empty text. */
  ghost predicate Completed(c: Crypto, oldEnc: Encryptor, newEnc: Encryptor, before: Rows, after: Rows) {
    && MayBecome(c, oldEnc, newEnc, before, after)
    && forall id :: id in before && Prefixed(before[id]) ==>
         Rewritten(c, oldEnc, newEnc, before[id], after[id]) || Read(c, oldEnc, newEnc, before[id]) == Some("")
  }

  /** The query's result: the prefixed rows with their values, in any order. */
  ghost predicate Listing(rows: Rows, list: seq<(string, string)>) {
    && (forall r :: r in list ==> r.0 in rows && rows[r.0] == r.1 && Prefixed(r.1))
    && (forall id :: id in rows && Prefixed(rows[id]) ==> (id, rows[id]) in list)
  }

  /** What a row gets written with, if anything. */
  function RowWrite(c: Crypto, oldEnc: Encryptor, newEnc: Encryptor, value: string, fate: Fate): Option<string> {
    if fate.Killed? || fate.update == WriteFailed then None
    else
      match Read(c, oldEnc, newEnc, value)
      case None => None
      case Some(plain) => if plain == "" then None else Encrypt(c, newEnc, plain, fate.nonce)
  }

  /** The error the run ends with at a row, if it ends there. */
  function RowError(c: Crypto, oldEnc: Encryptor, newEnc: Encryptor, row: (string, string), fate: Fate): Option<Failure> {
    if fate.Killed? then Some(WasKilled(row.0))
    else
      match Read(c, oldEnc, newEnc, row.1)
      case None => Some(DecryptFailed(row.0))
      case Some(plain) =>
        if plain == "" then None
        else if Encrypt(c, newEnc, plain, fate.nonce).None? then Some(EncryptFailed(row.0))
        else if fate.update != Written then Some(UpdateFailed(row.0))
        else None
  }

  function Write1(rows: Rows, id: string, v: Option<string>): Rows {
    match v
    case None => rows
    case Some(value) => rows[id := value]
  }

  /** A run so far: the column, the number of rows updated, the error it ended with. */
  datatype Progress = Progress(rows: Rows, updated: nat, err: Option<Failure>)

  function ProcessRow(c: Crypto, oldEnc: Encryptor, newEnc: Encryptor, p: Progress, row: (string, string), fate: Fate): Progress {
    if p.err.Some? then p
    else
      var v := RowWrite(c, oldEnc, newEnc, row.1, fate);
      var e := RowError(c, oldEnc, newEnc, row, fate);
      Progress(Write1(p.rows, row.0, v), if v.Some? && e.None? then p.updated + 1 else p.updated, e)
  }

  function Process(c: Crypto, oldEnc: Encryptor, newEnc: Encryptor, rows: Rows, list: seq<(string, string)>, fates: seq<Fate>): Progress
    requires |list| == |fates|
    decreases |list|
  {
    if list == [] then Progress(rows, 0, None)
    else
      var last := |list| - 1;
      ProcessRow(c, oldEnc, newEnc, Process(c, oldEnc, newEnc, rows, list[..last], fates[..last]), list[last], fates[last])
  }

  lemma ProcessOne(c: Crypto, oldEnc: Encryptor, newEnc: Encryptor, rows: Rows,
                   list: seq<(string, string)>, fates: seq<Fate>, i: nat)
    requires i < |list| == |fates|
    ensures Process(c, oldEnc, newEnc, rows, list[..i + 1], fates[..i + 1]) ==
            ProcessRow(c, oldEnc, newEnc, Process(c, oldEnc, newEnc, rows, list[..i], fates[..i]), list[i], fates[i])
  {
    assert list[..i + 1][..i] == list[..i] && fates[..i + 1][..i] == fates[..i];
  }

  lemma {:induction false} ProcessStops(c: Crypto, oldEnc: Encryptor, newEnc: Encryptor, rows: Rows,
                                        list: seq<(string, string)>, fates: seq<Fate>, k: nat, n: nat)
    requires k <= n <= |list| == |fates|
    requires Process(c, oldEnc, newEnc, rows, list[..k], fates[..k]).err.Some?
    ensures Process(c, oldEnc, newEnc, rows, list[..n], fates[..n]) == Process(c, oldEnc, newEnc, rows, list[..k], fates[..k])
    decreases n
  {
    if k < n {
      ProcessStops(c, oldEnc, newEnc, rows, list, fates, k, n - 1);
      ProcessOne(c, oldEnc, newEnc, rows, list, fates, n - 1);
    }
  }

  /** How many of the rows hold a text, or cannot be read. */
  function TextRows(c: Crypto, oldEnc: Encryptor, newEnc: Encryptor, list: seq<(string, string)>): nat {
    if list == [] then 0
    else
      var last := |list| - 1;
      TextRows(c, oldEnc, newEnc, list[..last]) + if Read(c, oldEnc, newEnc, list[last].1) == Some("") then 0 else 1
  }

  lemma ProcessLast(c: Crypto, oldEnc: Encryptor, newEnc: Encryptor, rows: Rows, list: seq<(string, string)>, fates: seq<Fate>)
    requires |list| == |fates| && list != []
    ensures var last := |list| - 1;
            Process(c, oldEnc, newEnc, rows, list, fates) ==
            ProcessRow(c, oldEnc, newEnc, Process(c, oldEnc, newEnc, rows, list[..last], fates[..last]), list[last], fates[last])
  {
  }

  lemma RowCounts(c: Crypto, oldEnc: Encryptor, newEnc: Encryptor, p: Progress, row: (string, string), fate: Fate)
    requires p.err.None?
    ensures var q := ProcessRow(c, oldEnc, newEnc, p, row, fate);
            && (q.err.None? ==> q.updated == p.updated + if Read(c, oldEnc, newEnc, row.1) == Some("") then 0 else 1)
            && (q.err.Some? ==> q.updated == p.updated)
  {
  }

  /** The count is of the rows that hold a text: all of them after a run without an error,
      else those before the row at which it ended. */
  lemma {:induction false} UpdatedExact(c: Crypto, oldEnc: Encryptor, newEnc: Encryptor, rows: Rows,
                                        list: seq<(string, string)>, fates: seq<Fate>) returns (k: nat)
    requires |list| == |fates|
    ensures k <= |list|
    ensures var p := Process(c, oldEnc, newEnc, rows, list, fates);
            && p.updated == TextRows(c, oldEnc, newEnc, list[..k])
            && (p.err.None? <==> k == |list|)
            && (k < |list| ==> p.err == RowError(c, oldEnc, newEnc, list[k], fates[k]))
    decreases |list|
  {
    if list == [] {
      k := 0;
    } else {
      var last := |list| - 1;
      k := UpdatedExact(c, oldEnc, newEnc, rows, list[..last], fates[..last]);
      ProcessLast(c, oldEnc, newEnc, rows, list, fates);
      var p := Process(c, oldEnc, newEnc, rows, list[..last], fates[..last]);
      assert list[..last][..k] == list[..k];
      if k == last {
        RowCounts(c, oldEnc, newEnc, p, list[last], fates[last]);
        if RowError(c, oldEnc, newEnc, list[last], fates[last]).None? {
          k := k + 1;
          assert list[..k] == list;
        }
      }
    }
  }

  class Table {
    var rows: Rows

    constructor (initial: Rows)
      ensures rows == initial
    {
      rows := initial;
    }

    /** The loop's body for one row. */
    method RekeyRow(c: Crypto, oldEnc: Encryptor, newEnc: Encryptor, row: (string, string), fate: Fate)
      returns (err: Option<Failure>, wrote: bool)
      modifies this
      ensures rows == Write1(old(rows), row.0, RowWrite(c, oldEnc, newEnc, row.1, fate))
      ensures err == RowError(c, oldEnc, newEnc, row, fate)
      ensures wrote <==> RowWrite(c, oldEnc, newEnc, row.1, fate).Some? && err.None?
    {
      if fate.Killed? {
        return Some(WasKilled(row.0)), false;
      }
      var plain := Decrypt(c, oldEnc, row.1);
      if plain.None? {
        plain := Decrypt(c, newEnc, row.1);
        if plain.None? {
          return Some(DecryptFailed(row.0)), false;
        }
      }
      if plain.value == "" {
        return None, false;
      }
      var newCipher := Encrypt(c, newEnc, plain.value, fate.nonce);
      if newCipher.None? {
        return Some(EncryptFailed(row.0)), false;
      }
      if fate.update != WriteFailed {
        rows := rows[row.0 := newCipher.value];
      }
      if fate.update != Written {
        return Some(UpdateFailed(row.0)), false;
      }
      return None, true;
    }

    /** The loop over the rows. */
    method RekeyRows(c: Crypto, oldEnc: Encryptor, newEnc: Encryptor, list: seq<(string, string)>, fates: seq<Fate>)
      returns (updated: nat, err: Option<Failure>)
      requires |fates| == |list|
      modifies this
      ensures Progress(rows, updated, err) == Process(c, oldEnc, newEnc, old(rows), list, fates)
    {
      TakeAll(list);
      TakeAll(fates);
      ghost var before := rows;
      updated, err := 0, None;
      var i := 0;
      while i < |list|
        invariant 0 <= i <= |list| && err.None?
        invariant Progress(rows, updated, err) == Process(c, oldEnc, newEnc, before, list[..i], fates[..i])
      {
        ProcessOne(c, oldEnc, newEnc, before, list, fates, i);
        var wrote;
        err, wrote := RekeyRow(c, oldEnc, newEnc, list[i], fates[i]);
        updated := if wrote then updated + 1 else updated;
        i := i + 1;
        if err.Some? {
          ProcessStops(c, oldEnc, newEnc, before, list, fates, i, |list|);
          return;
        }
      }
    }

    /** `rekey`, with the rows in the order in which the query gives them. */
    method Rekey(c: Crypto, dryRun: bool, oldEnc: Encryptor, newEnc: Encryptor, list: seq<(string, string)>, fates: seq<Fate>)
      returns (updated: nat, err: Option<Failure>)
      requires Listing(rows, list) && |fates| == |list|
      modifies this
      ensures dryRun ==> rows == old(rows) && updated == |list| && err.None?
      ensures !dryRun ==> Progress(rows, updated, err) == Process(c, oldEnc, newEnc, old(rows), list, fates)
      ensures !dryRun && err.None? ==> updated == TextRows(c, oldEnc, newEnc, list)
      ensures !dryRun && err.Some? ==> exists k: nat :: k < |list| && updated == TextRows(c, oldEnc, newEnc, list[..k])
    {
      if dryRun {
        return |list|, None;
      }
      ghost var k := UpdatedExact(c, oldEnc, newEnc, rows, list, fates);
      TakeAll(list);
      updated, err := RekeyRows(c, oldEnc, newEnc, list, fates);
    }
  }

  // ---- What a run leaves behind ----

  /** The random source gives nonces of the right size, when it gives any. */
  predicate GoodNonces(fates: seq<Fate>) {
    forall f :: f in fates && f.Goes? && f.nonce.Some? ==> |f.nonce.value| == NONCE_SIZE
  }

  lemma RowRewritten(c: Crypto, oldEnc: Encryptor, newEnc: Encryptor, value: string, fate: Fate)
    requires GoodNonces([fate])
    ensures var v := RowWrite(c, oldEnc, newEnc, value, fate);
            v.Some? ==> Rewritten(c, oldEnc, newEnc, value, v.value)
  {
    var v := RowWrite(c, oldEnc, newEnc, value, fate);
    if v.Some? {
      var plain := Read(c, oldEnc, newEnc, value).value;
      assert fate in [fate];
      var nonce := if fate.nonce.Some? then fate.nonce.value else "            ";
      assert |nonce| == NONCE_SIZE && Encrypt(c, newEnc, plain, Some(nonce)) == v;
    }
  }

  lemma {:induction false} RunMay(c: Crypto, oldEnc: Encryptor, newEnc: Encryptor, rows: Rows,
                                  list: seq<(string, string)>, fates: seq<Fate>)
    requires |list| == |fates| && GoodNonces(fates)
    requires forall r :: r in list ==> r.0 in rows && rows[r.0] == r.1 && Prefixed(r.1)
    ensures MayBecome(c, oldEnc, newEnc, rows, Process(c, oldEnc, newEnc, rows, list, fates).rows)
    decreases |list|
  {
    if list != [] {
      var last := |list| - 1;
      assert list[last] in list && fates[last] in fates;
      RunMay(c, oldEnc, newEnc, rows, list[..last], fates[..last]);
      RowRewritten(c, oldEnc, newEnc, list[last].1, fates[last]);
    }
  }

  /** A row after a run without an error: rewritten, unless it held the empty text. */
  ghost predicate RowDone(c: Crypto, oldEnc: Encryptor, newEnc: Encryptor, after: Rows, row: (string, string)) {
    row.0 in after &&
    (Rewritten(c, oldEnc, newEnc, row.1, after[row.0]) || Read(c, oldEnc, newEnc, row.1) == Some(""))
  }

  lemma {:induction false} KeysStay(c: Crypto, oldEnc: Encryptor, newEnc: Encryptor, rows: Rows,
                                    list: seq<(string, string)>, fates: seq<Fate>)
    requires |list| == |fates| && forall r :: r in list ==> r.0 in rows
    ensures Process(c, oldEnc, newEnc, rows, list, fates).rows.Keys == rows.Keys
    decreases |list|
  {
    if list != [] {
      var last := |list| - 1;
      assert list[last] in list;
      KeysStay(c, oldEnc, newEnc, rows, list[..last], fates[..last]);
    }
  }

  lemma LastDone(c: Crypto, oldEnc: Encryptor, newEnc: Encryptor, now: Rows, row: (string, string), fate: Fate)
    requires GoodNonces([fate]) && row.0 in now && RowError(c, oldEnc, newEnc, row, fate).None?
    ensures RowDone(c, oldEnc, newEnc, Write1(now, row.0, RowWrite(c, oldEnc, newEnc, row.1, fate)), row)
  {
    RowRewritten(c, oldEnc, newEnc, row.1, fate);
  }

  lemma StillDone(c: Crypto, oldEnc: Encryptor, newEnc: Encryptor, now: Rows, last: (string, string), fate: Fate, row: (string, string))
    requires GoodNonces([fate]) && RowDone(c, oldEnc, newEnc, now, row) && (row.0 == last.0 ==> row.1 == last.1)
    ensures RowDone(c, oldEnc, newEnc, Write1(now, last.0, RowWrite(c, oldEnc, newEnc, last.1, fate)), row)
  {
    RowRewritten(c, oldEnc, newEnc, last.1, fate);
  }

  lemma AllStillDone(c: Crypto, oldEnc: Encryptor, newEnc: Encryptor, now: Rows, list: seq<(string, string)>, n: nat, fate: Fate, after: Rows)
    requires n < |list| && GoodNonces([fate])
    requires forall i, j :: 0 <= i < j < |list| && list[i].0 == list[j].0 ==> list[i].1 == list[j].1
    requires forall j :: 0 <= j < n ==> RowDone(c, oldEnc, newEnc, now, list[j])
    requires list[n].0 in now && RowError(c, oldEnc, newEnc, list[n], fate).None?
    requires after == Write1(now, list[n].0, RowWrite(c, oldEnc, newEnc, list[n].1, fate))
    ensures forall j :: 0 <= j <= n ==> RowDone(c, oldEnc, newEnc, after, list[j])
  {
    forall j | 0 <= j <= n ensures RowDone(c, oldEnc, newEnc, after, list[j]) {
      if j == n {
        LastDone(c, oldEnc, newEnc, now, list[n], fate);
      } else {
        StillDone(c, oldEnc, newEnc, now, list[n], fate, list[j]);
      }
    }
  }

  lemma {:induction false} RunDone(c: Crypto, oldEnc: Encryptor, newEnc: Encryptor, rows: Rows,
                                   list: seq<(string, string)>, fates: seq<Fate>, n: nat)
    requires n <= |list| == |fates| && GoodNonces(fates)
    requires forall r :: r in list ==> r.0 in rows && rows[r.0] == r.1
    requires Process(c, oldEnc, newEnc, rows, list[..n], fates[..n]).err.None?
    ensures forall j :: 0 <= j < n ==> RowDone(c, oldEnc, newEnc, Process(c, oldEnc, newEnc, rows, list[..n], fates[..n]).rows, list[j])
  {
    if n > 0 {
      var last := n - 1;
      assert list[..n][..last] == list[..last] && fates[..n][..last] == fates[..last];
      RunDone(c, oldEnc, newEnc, rows, list, fates, last);
      KeysStay(c, oldEnc, newEnc, rows, list[..last], fates[..last]);
      ProcessOne(c, oldEnc, newEnc, rows, list, fates, last);
      assert list[last] in list && fates[last] in fates;
      assert forall i :: 0 <= i < |list| ==> list[i] in list;
      var now := Process(c, oldEnc, newEnc, rows, list[..last], fates[..last]).rows;
      AllStillDone(c, oldEnc, newEnc, now, list, last, fates[last],
                   Process(c, oldEnc, newEnc, rows, list[..n], fates[..n]).rows);
    }
  }

  /** A run touches nothing but prefixed rows, whatever becomes of it; and a run without
      an error has rewritten all of those that hold a text. */
  lemma RunOutcome(c: Crypto, oldEnc: Encryptor, newEnc: Encryptor, rows: Rows, list: seq<(string, string)>, fates: seq<Fate>)
    requires Listing(rows, list) && |list| == |fates| && GoodNonces(fates)
    ensures var p := Process(c, oldEnc, newEnc, rows, list, fates);
            && MayBecome(c, oldEnc, newEnc, rows, p.rows)
            && (p.err.None? ==> Completed(c, oldEnc, newEnc, rows, p.rows))
  {
    var p := Process(c, oldEnc, newEnc, rows, list, fates);
    var after := p.rows;
    RunMay(c, oldEnc, newEnc, rows, list, fates);
    if p.err.None? {
      TakeAll(list);
      TakeAll(fates);
      RunDone(c, oldEnc, newEnc, rows, list, fates, |list|);
      forall id | id in rows && Prefixed(rows[id])
        ensures Rewritten(c, oldEnc, newEnc, rows[id], after[id]) || Read(c, oldEnc, newEnc, rows[id]) == Some("")
      {
        assert (id, rows[id]) in list;
        var j :| 0 <= j < |list| && list[j] == (id, rows[id]);
        assert RowDone(c, oldEnc, newEnc, after, list[j]);
      }
    }
  }

  // ---- Any number of runs ----

  /** `value` is a ciphertext of `plain` under one of the two keys, `plain` being a text
      that encryption does not pass over. */
  ghost predicate Holds(c: Crypto, oldEnc: Encryptor, newEnc: Encryptor, value: string, plain: string) {
    && plain != "" && !Prefixed(plain)
    && exists key, nonce :: (key == oldEnc.key || key == newEnc.key) && |nonce| == NONCE_SIZE && value == Sealed(c, key, nonce, plain)
  }

  /** Every prefixed row holds its text. */
  ghost predicate Intact(c: Crypto, oldEnc: Encryptor, newEnc: Encryptor, rows: Rows, texts: Rows) {
    forall id :: id in rows && Prefixed(rows[id]) ==>
      id in texts && Holds(c, oldEnc, newEnc, rows[id], texts[id])
  }

  lemma HoldsReads(c: Crypto, oldEnc: Encryptor, newEnc: Encryptor, value: string, plain: string)
    requires Valid(oldEnc) && Valid(newEnc) && Holds(c, oldEnc, newEnc, value, plain)
    ensures Prefixed(value) && Read(c, oldEnc, newEnc, value) == Some(plain)
    ensures Decrypt(c, oldEnc, value) == Some(plain) || Decrypt(c, newEnc, value) == Some(plain)
  {
    var key, nonce :| (key == oldEnc.key || key == newEnc.key) && |nonce| == NONCE_SIZE && value == Sealed(c, key, nonce, plain);
    SealedOpens(c, key, nonce, plain, oldEnc);
    SealedOpens(c, key, nonce, plain, newEnc);
  }

  lemma RewriteHolds(c: Crypto, oldEnc: Encryptor, newEnc: Encryptor, value: string, plain: string, v: string)
    requires Valid(oldEnc) && Valid(newEnc) && Holds(c, oldEnc, newEnc, value, plain)
    requires Rewritten(c, oldEnc, newEnc, value, v)
    ensures Holds(c, oldEnc, newEnc, v, plain) && Decrypt(c, newEnc, v) == Some(plain)
  {
    HoldsReads(c, oldEnc, newEnc, value, plain);
    var p, nonce :|
      && Read(c, oldEnc, newEnc, value) == Some(p) && p != ""
      && |nonce| == NONCE_SIZE && Encrypt(c, newEnc, p, Some(nonce)) == Some(v);
    assert v == Sealed(c, newEnc.key, nonce, plain);
    SealedOpens(c, newEnc.key, nonce, plain, newEnc);
  }

  /** Tables before and after each of several runs, each cut off or not. */
  ghost predicate Runs(c: Crypto, oldEnc: Encryptor, newEnc: Encryptor, tables: seq<Rows>) {
    tables != [] && forall i :: 0 < i < |tables| ==> RunAt(c, oldEnc, newEnc, tables, i)
  }

  ghost predicate RunAt(c: Crypto, oldEnc: Encryptor, newEnc: Encryptor, tables: seq<Rows>, i: int)
    requires 0 < i < |tables|
  {
    MayBecome(c, oldEnc, newEnc, tables[i - 1], tables[i])
  }

  lemma EarlierRuns(c: Crypto, oldEnc: Encryptor, newEnc: Encryptor, tables: seq<Rows>)
    requires Runs(c, oldEnc, newEnc, tables) && |tables| > 1
    ensures var init := tables[..|tables| - 1];
            Runs(c, oldEnc, newEnc, init) && MayBecome(c, oldEnc, newEnc, init[|init| - 1], tables[|tables| - 1])
  {
    var init := tables[..|tables| - 1];
    assert RunAt(c, oldEnc, newEnc, tables, |tables| - 1);
    forall i | 0 < i < |init| ensures RunAt(c, oldEnc, newEnc, init, i) {
      assert RunAt(c, oldEnc, newEnc, tables, i);
    }
  }

  lemma OneRunKeeps(c: Crypto, oldEnc: Encryptor, newEnc: Encryptor, before: Rows, after: Rows, texts: Rows)
    requires Valid(oldEnc) && Valid(newEnc)
    requires Intact(c, oldEnc, newEnc, before, texts) && MayBecome(c, oldEnc, newEnc, before, after)
    ensures Intact(c, oldEnc, newEnc, after, texts)
    ensures forall id :: id in before ==> (Prefixed(after[id]) <==> Prefixed(before[id]))
    ensures forall id :: id in before && !Prefixed(before[id]) ==> after[id] == before[id]
  {
    forall id | id in before && Prefixed(before[id])
      ensures Prefixed(after[id]) && id in texts && Holds(c, oldEnc, newEnc, after[id], texts[id])
    {
      HoldsReads(c, oldEnc, newEnc, before[id], texts[id]);
      if after[id] != before[id] {
        RewriteHolds(c, oldEnc, newEnc, before[id], texts[id], after[id]);
        HoldsReads(c, oldEnc, newEnc, after[id], texts[id]);
      }
    }
  }

  /** After any number of runs, each cut off at any row or not, every row that was
      encrypted still decrypts, under one of the two keys, to its original text; and
      the other rows are untouched. */
  lemma {:induction false} RotationKeeps(c: Crypto, oldEnc: Encryptor, newEnc: Encryptor, tables: seq<Rows>, texts: Rows, id: string)
    requires Valid(oldEnc) && Valid(newEnc)
    requires Runs(c, oldEnc, newEnc, tables) && Intact(c, oldEnc, newEnc, tables[0], texts)
    requires id in tables[0]
    ensures var now := tables[|tables| - 1];
            && id in now
            && Intact(c, oldEnc, newEnc, now, texts)
            && (Prefixed(now[id]) <==> Prefixed(tables[0][id]))
            && (!Prefixed(tables[0][id]) ==> now[id] == tables[0][id])
            && (Prefixed(tables[0][id]) ==>
                  id in texts &&
                  (Decrypt(c, oldEnc, now[id]) == Some(texts[id]) || Decrypt(c, newEnc, now[id]) == Some(texts[id])))
    decreases |tables|
  {
    if |tables| > 1 {
      var init := tables[..|tables| - 1];
      EarlierRuns(c, oldEnc, newEnc, tables);
      RotationKeeps(c, oldEnc, newEnc, init, texts, id);
      OneRunKeeps(c, oldEnc, newEnc, init[|init| - 1], tables[|tables| - 1], texts);
    }
    if Prefixed(tables[0][id]) {
      HoldsReads(c, oldEnc, newEnc, tables[|tables| - 1][id], texts[id]);
    }
  }

  /** Every prefixed row decrypts to its text under the new key. */
  ghost predicate OnNewKey(c: Crypto, newEnc: Encryptor, rows: Rows, texts: Rows) {
    forall id :: id in rows && Prefixed(rows[id]) ==> id in texts && Decrypt(c, newEnc, rows[id]) == Some(texts[id])
  }

  lemma CompletedOnNewKey(c: Crypto, oldEnc: Encryptor, newEnc: Encryptor, before: Rows, after: Rows, texts: Rows)
    requires Valid(oldEnc) && Valid(newEnc)
    requires Intact(c, oldEnc, newEnc, before, texts) && Completed(c, oldEnc, newEnc, before, after)
    ensures Intact(c, oldEnc, newEnc, after, texts) && OnNewKey(c, newEnc, after, texts)
  {
    OneRunKeeps(c, oldEnc, newEnc, before, after, texts);
    forall id | id in after && Prefixed(after[id])
      ensures id in texts && Decrypt(c, newEnc, after[id]) == Some(texts[id])
    {
      HoldsReads(c, oldEnc, newEnc, before[id], texts[id]);
      RewriteHolds(c, oldEnc, newEnc, before[id], texts[id], after[id]);
    }
  }

  lemma OneRunKeepsNewKey(c: Crypto, oldEnc: Encryptor, newEnc: Encryptor, before: Rows, after: Rows, texts: Rows)
    requires Valid(oldEnc) && Valid(newEnc)
    requires Intact(c, oldEnc, newEnc, before, texts) && OnNewKey(c, newEnc, before, texts)
    requires MayBecome(c, oldEnc, newEnc, before, after)
    ensures Intact(c, oldEnc, newEnc, after, texts) && OnNewKey(c, newEnc, after, texts)
  {
    OneRunKeeps(c, oldEnc, newEnc, before, after, texts);
    forall id | id in after && Prefixed(after[id])
      ensures id in texts && Decrypt(c, newEnc, after[id]) == Some(texts[id])
    {
      if after[id] != before[id] {
        RewriteHolds(c, oldEnc, newEnc, before[id], texts[id], after[id]);
      }
    }
  }

  /** Once a run has completed, every encrypted row decrypts to its original text under
      the new key, and stays so through any number of later runs, cut off anywhere. */
  lemma {:induction false} RotationCompletes(c: Crypto, oldEnc: Encryptor, newEnc: Encryptor, before: Rows, tables: seq<Rows>, texts: Rows)
    requires Valid(oldEnc) && Valid(newEnc) && Intact(c, oldEnc, newEnc, before, texts)
    requires Runs(c, oldEnc, newEnc, tables) && Completed(c, oldEnc, newEnc, before, tables[0])
    ensures Intact(c, oldEnc, newEnc, tables[|tables| - 1], texts) && OnNewKey(c, newEnc, tables[|tables| - 1], texts)
    decreases |tables|
  {
    if |tables| == 1 {
      CompletedOnNewKey(c, oldEnc, newEnc, before, tables[0], texts);
    } else {
      var init := tables[..|tables| - 1];
      EarlierRuns(c, oldEnc, newEnc, tables);
      RotationCompletes(c, oldEnc, newEnc, before, init, texts);
      OneRunKeepsNewKey(c, oldEnc, newEnc, init[|init| - 1], tables[|tables| - 1], texts);
    }
  }

  // ---- When a run completes ----

  /** No kill, and neither the random source nor the database fails. */
  predicate AllGoWell(fates: seq<Fate>) {
    forall f :: f in fates ==> f.Goes? && f.nonce.Some? && f.update == Written
  }

  /** The row reads under one of the two keys. */
  predicate Readable(c: Crypto, oldEnc: Encryptor, newEnc: Encryptor, value: string) {
    Read(c, oldEnc, newEnc, value).Some?
  }

  lemma {:induction false} ErrorFreeReads(c: Crypto, oldEnc: Encryptor, newEnc: Encryptor, rows: Rows,
                                          list: seq<(string, string)>, fates: seq<Fate>, r: (string, string))
    requires |list| == |fates| && Process(c, oldEnc, newEnc, rows, list, fates).err.None? && r in list
    ensures Readable(c, oldEnc, newEnc, r.1)
    decreases |list|
  {
    var last := |list| - 1;
    if r in list[..last] {
      ErrorFreeReads(c, oldEnc, newEnc, rows, list[..last], fates[..last], r);
    } else {
      assert r == list[last];
    }
  }

  lemma {:induction false} ReadableNeverFails(c: Crypto, oldEnc: Encryptor, newEnc: Encryptor, rows: Rows,
                                              list: seq<(string, string)>, fates: seq<Fate>)
    requires |list| == |fates| && AllGoWell(fates)
    requires forall r :: r in list ==> Readable(c, oldEnc, newEnc, r.1)
    ensures Process(c, oldEnc, newEnc, rows, list, fates).err.None?
    decreases |list|
  {
    if list != [] {
      var last := |list| - 1;
      assert list[last] in list && fates[last] in fates;
      ReadableNeverFails(c, oldEnc, newEnc, rows, list[..last], fates[..last]);
    }
  }

  ghost predicate AllReadable(c: Crypto, oldEnc: Encryptor, newEnc: Encryptor, rows: Rows) {
    forall id :: id in rows && Prefixed(rows[id]) ==> Readable(c, oldEnc, newEnc, rows[id])
  }

  /** A run that is not cut off ends without an error if and only if every prefixed row
      reads under one of the two keys; one that reads under neither stops every run,
      whatever else happens. */
  lemma CompletesIff(c: Crypto, oldEnc: Encryptor, newEnc: Encryptor, rows: Rows, list: seq<(string, string)>, fates: seq<Fate>)
    requires Listing(rows, list) && |list| == |fates|
    ensures Process(c, oldEnc, newEnc, rows, list, fates).err.None? ==> AllReadable(c, oldEnc, newEnc, rows)
    ensures AllGoWell(fates) ==>
              (Process(c, oldEnc, newEnc, rows, list, fates).err.None? <==> AllReadable(c, oldEnc, newEnc, rows))
  {
    if Process(c, oldEnc, newEnc, rows, list, fates).err.None? {
      forall id | id in rows && Prefixed(rows[id]) ensures Readable(c, oldEnc, newEnc, rows[id]) {
        ErrorFreeReads(c, oldEnc, newEnc, rows, list, fates, (id, rows[id]));
      }
    } else if AllGoWell(fates) && AllReadable(c, oldEnc, newEnc, rows) {
      ReadableNeverFails(c, oldEnc, newEnc, rows, list, fates);
    }
  }

  /** An intact table is one of those on which runs complete. */
  lemma IntactIsReadable(c: Crypto, oldEnc: Encryptor, newEnc: Encryptor, rows: Rows, texts: Rows)
    requires Valid(oldEnc) && Valid(newEnc) && Intact(c, oldEnc, newEnc, rows, texts)
    ensures AllReadable(c, oldEnc, newEnc, rows)
  {
    forall id | id in rows && Prefixed(rows[id]) ensures Readable(c, oldEnc, newEnc, rows[id]) {
      HoldsReads(c, oldEnc, newEnc, rows[id], texts[id]);
    }
  }

  lemma {:induction false} RunsStayIntact(c: Crypto, oldEnc: Encryptor, newEnc: Encryptor, tables: seq<Rows>, texts: Rows)
    requires Valid(oldEnc) && Valid(newEnc)
    requires Runs(c, oldEnc, newEnc, tables) && Intact(c, oldEnc, newEnc, tables[0], texts)
    ensures Intact(c, oldEnc, newEnc, tables[|tables| - 1], texts)
    decreases |tables|
  {
    if |tables| > 1 {
      var init := tables[..|tables| - 1];
      EarlierRuns(c, oldEnc, newEnc, tables);
      RunsStayIntact(c, oldEnc, newEnc, init, texts);
      OneRunKeeps(c, oldEnc, newEnc, init[|init| - 1], tables[|tables| - 1], texts);
    }
  }

  /** So a rotation that was cut off any number of times can be taken up again: the next
      run that nothing outside stops completes, with every encrypted row under the new key. */
  lemma RetryCompletes(c: Crypto, oldEnc: Encryptor, newEnc: Encryptor, tables: seq<Rows>, texts: Rows,
                       list: seq<(string, string)>, fates: seq<Fate>)
    requires Valid(oldEnc) && Valid(newEnc)
    requires Runs(c, oldEnc, newEnc, tables) && Intact(c, oldEnc, newEnc, tables[0], texts)
    requires Listing(tables[|tables| - 1], list) && |list| == |fates| && AllGoWell(fates) && GoodNonces(fates)
    ensures var p := Process(c, oldEnc, newEnc, tables[|tables| - 1], list, fates);
            p.err.None? && OnNewKey(c, newEnc, p.rows, texts)
  {
    var now := tables[|tables| - 1];
    RunsStayIntact(c, oldEnc, newEnc, tables, texts);
    IntactIsReadable(c, oldEnc, newEnc, now, texts);
    CompletesIff(c, oldEnc, newEnc, now, list, fates);
    RunOutcome(c, oldEnc, newEnc, now, list, fates);
    CompletedOnNewKey(c, oldEnc, newEnc, now, Process(c, oldEnc, newEnc, now, list, fates).rows, texts);
  }

  /** What reads under neither key is never rewritten: it stops every run from then on. */
  lemma {:induction false} UnreadableStays(c: Crypto, oldEnc: Encryptor, newEnc: Encryptor, tables: seq<Rows>, id: string)
    requires Runs(c, oldEnc, newEnc, tables)
    requires id in tables[0] && Prefixed(tables[0][id]) && !Readable(c, oldEnc, newEnc, tables[0][id])
    ensures var now := tables[|tables| - 1];
            id in now && now[id] == tables[0][id] && !AllReadable(c, oldEnc, newEnc, now)
    decreases |tables|
  {
    if |tables| > 1 {
      var init := tables[..|tables| - 1];
      EarlierRuns(c, oldEnc, newEnc, tables);
      UnreadableStays(c, oldEnc, newEnc, init, id);
    }
  }

  // ---- What the panel stores ----

  /** What encryption stores of a text holds it, when the text is neither empty nor
      looks encrypted; those two it stores as they are, in the clear. */
  lemma StoredInClearIff(c: Crypto, oldEnc: Encryptor, newEnc: Encryptor, e: Encryptor, plain: string, nonce: string)
    requires Valid(e) && (e == oldEnc || e == newEnc) && |nonce| == NONCE_SIZE
    ensures var v := Encrypt(c, e, plain, Some(nonce)).value;
            && (v == plain <==> plain == "" || Prefixed(plain))
            && (v != plain ==> Holds(c, oldEnc, newEnc, v, plain))
  {
    SealedOpens(c, e.key, nonce, plain, e);
  }

  /** A text that looks encrypted but reads under neither key, once stored, keeps every
      rotation from completing: no run over a column that holds it ends without an error. */
  lemma PrefixedTextBlocks(c: Crypto, oldEnc: Encryptor, newEnc: Encryptor, e: Encryptor, plain: string, nonce: Option<string>,
                           tables: seq<Rows>, id: string, list: seq<(string, string)>, fates: seq<Fate>)
    requires Prefixed(plain) && !Readable(c, oldEnc, newEnc, plain)
    requires Runs(c, oldEnc, newEnc, tables) && id in tables[0] && Encrypt(c, e, plain, nonce) == Some(tables[0][id])
    requires Listing(tables[|tables| - 1], list) && |list| == |fates|
    ensures Process(c, oldEnc, newEnc, tables[|tables| - 1], list, fates).err.Some?
  {
    UnreadableStays(c, oldEnc, newEnc, tables, id);
    CompletesIff(c, oldEnc, newEnc, tables[|tables| - 1], list, fates);
  }

  // ---- The tool ----

  datatype Refusal = Usage | SameKeys | BadOldKey | BadNewKey | Stopped(failure: Failure)

  /** `main`, from the parsed flags on: both columns, one after the other, the second
      only if the first came through. */
  method RotateAll(c: Crypto, oldKey: string, newKey: string, dryRun: bool, servers: Table, envVars: Table,
                   serverList: seq<(string, string)>, serverFates: seq<Fate>,
                   envList: seq<(string, string)>, envFates: seq<Fate>)
    returns (total: nat, refusal: Option<Refusal>)
    requires servers != envVars
    requires Listing(servers.rows, serverList) && |serverFates| == |serverList|
    requires Listing(envVars.rows, envList) && |envFates| == |envList|
    modifies servers, envVars
    ensures refusal.None? || refusal.value.Stopped? <==>
              oldKey != "" && newKey != "" && oldKey != newKey && |TrimSpace(oldKey)| == 32 && |TrimSpace(newKey)| == 32
    ensures var oldEnc, newEnc := NewEncryptor(oldKey), NewEncryptor(newKey);
            if oldKey == "" || newKey == "" || oldKey == newKey || oldEnc.None? || newEnc.None? then
              && refusal.Some? && !refusal.value.Stopped? && servers.rows == old(servers.rows) && envVars.rows == old(envVars.rows)
              && refusal.value == (if oldKey == "" || newKey == "" then Usage else if oldKey == newKey then SameKeys
                                   else if |TrimSpace(oldKey)| != 32 then BadOldKey else BadNewKey)
            else if dryRun then
              && refusal.None? && total == |serverList| + |envList|
              && servers.rows == old(servers.rows) && envVars.rows == old(envVars.rows)
            else
              var first := Process(c, oldEnc.value, newEnc.value, old(servers.rows), serverList, serverFates);
              var second := Process(c, oldEnc.value, newEnc.value, old(envVars.rows), envList, envFates);
              && servers.rows == first.rows
              && envVars.rows == (if first.err.None? then second.rows else old(envVars.rows))
              && (refusal.None? <==> first.err.None? && second.err.None?)
              && (refusal.None? ==> total == first.updated + second.updated)
  {
    total := 0;
    if oldKey == "" || newKey == "" {
      return 0, Some(Usage);
    }
    if oldKey == newKey {
      return 0, Some(SameKeys);
    }
    var oldEnc := NewEncryptor(oldKey);
    if oldEnc.None? {
      return 0, Some(BadOldKey);
    }
    var newEnc := NewEncryptor(newKey);
    if newEnc.None? {
      return 0, Some(BadNewKey);
    }
    var n, err := servers.Rekey(c, dryRun, oldEnc.value, newEnc.value, serverList, serverFates);
    if err.Some? {
      return 0, Some(Stopped(err.value));
    }
    total := total + n;
    n, err := envVars.Rekey(c, dryRun, oldEnc.value, newEnc.value, envList, envFates);
    if err.Some? {
      return total, Some(Stopped(err.value));
    }
    total := total + n;
    refusal := None;
  }
}
