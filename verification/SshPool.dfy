/** The SSH connection pool: `Get` and `Invalidate` calls interleaved step by step over
    the shared map, the entries' mutexes and the connections opened. */
module SshPool {
  import opened Text

  /** A connection ever opened, and whether `Close` has been called on it. */
  datatype Client = Client(server: string, open: bool)

  /** A pool entry, made for one server. Both client fields are set and cleared together.
      `holder` is the call that holds the mutex. */
  datatype Entry = Entry(server: string, client: Option<nat>, holder: Option<nat>)

  datatype Op = Get | Invalidate

  /** Where a call stands, with the entry it got from the map. */
  datatype Pc =
    | Start
    | HasEntry(e: nat)          // about to lock it
    | InLock(e: nat)
    | MustDial(e: nat)          // get only: the old connection is closed
    | Dialed(e: nat, c: nat)    // get only: a new one is in hand
    | Finished

  datatype Call = Call(op: Op, server: string, pc: Pc)

  datatype State = State(entries: map<string, nat>, heap: seq<Entry>, clients: seq<Client>, calls: seq<Call>)

  function Goto(s: State, t: nat, pc: Pc): State
    requires t < |s.calls|
  {
    s.(calls := s.calls[t := s.calls[t].(pc := pc)])
  }

  function SetHolder(s: State, e: nat, holder: Option<nat>): State
    requires e < |s.heap|
  {
    s.(heap := s.heap[e := s.heap[e].(holder := holder)])
  }

  /** `poolEntry.close`. */
  function CloseEntry(s: State, e: nat): State
    requires e < |s.heap|
  {
    match s.heap[e].client
    case None => s
    case Some(c) =>
      (if c < |s.clients| then s.(clients := s.clients[c := s.clients[c].(open := false)]) else s)
      .(heap := s.heap[e := s.heap[e].(client := None)])
  }

  /** The call's first step: `LoadOrStore`, or `LoadAndDelete`. */
  function StartStep(s: State, t: nat): State
    requires t < |s.calls|
  {
    var call := s.calls[t];
    if call.server in s.entries then
      var e := s.entries[call.server];
      Goto(if call.op == Get then s else s.(entries := s.entries - {call.server}), t, HasEntry(e))
    else if call.op == Get then
      var e := |s.heap|;
      Goto(s.(entries := s.entries[call.server := e], heap := s.heap + [Entry(call.server, None, None)]), t, HasEntry(e))
    else Goto(s, t, Finished)
  }

  /** Under the lock. `ok`: the connection is alive. */
  function LockedStep(s: State, t: nat, e: nat, ok: bool): State
    requires t < |s.calls| && e < |s.heap|
  {
    if s.calls[t].op == Invalidate then Goto(SetHolder(CloseEntry(s, e), e, None), t, Finished)
    else if s.heap[e].client.Some? && ok then Goto(SetHolder(s, e, None), t, Finished)
    else Goto(CloseEntry(s, e), t, MustDial(e))
  }

  /** `ok`: the SSH dial works. */
  function DialStep(s: State, t: nat, e: nat, ok: bool): State
    requires t < |s.calls| && e < |s.heap|
  {
    if ok then Goto(s.(clients := s.clients + [Client(s.calls[t].server, true)]), t, Dialed(e, |s.clients|))
    else Goto(SetHolder(s, e, None), t, Finished)
  }

  /** `ok`: the SFTP client can be made. */
  function KeepStep(s: State, t: nat, e: nat, c: nat, ok: bool): State
    requires t < |s.calls| && e < |s.heap| && c < |s.clients|
  {
    if ok then Goto(s.(heap := s.heap[e := s.heap[e].(client := Some(c), holder := None)]), t, Finished)
    else Goto(SetHolder(s.(clients := s.clients[c := s.clients[c].(open := false)]), e, None), t, Finished)
  }

  /** One step of call `t`; a call that waits for a mutex does not move. */
  function Next(s: State, t: nat, ok: bool): State {
    if t >= |s.calls| then s
    else
      match s.calls[t].pc
      case Start => StartStep(s, t)
      case HasEntry(e) => if e < |s.heap| && s.heap[e].holder.None? then Goto(SetHolder(s, e, Some(t)), t, InLock(e)) else s
      case InLock(e) => if e < |s.heap| then LockedStep(s, t, e, ok) else s
      case MustDial(e) => if e < |s.heap| then DialStep(s, t, e, ok) else s
      case Dialed(e, c) => if e < |s.heap| && c < |s.clients| then KeepStep(s, t, e, c, ok) else s
      case Finished => s
  }

  /** Which call moves, and how the outside answers it. */
  type Schedule = seq<(nat, bool)>

  function Exec(s: State, schedule: Schedule): State {
    if schedule == [] then s
    else Next(Exec(s, schedule[..|schedule| - 1]), schedule[|schedule| - 1].0, schedule[|schedule| - 1].1)
  }

  predicate Fresh(s: State) {
    s.entries == map[] && s.heap == [] && s.clients == [] && forall t :: 0 <= t < |s.calls| ==> s.calls[t].pc == Start
  }

  // ---- Ownership ----

  predicate InHand(call: Call, c: nat) {
    call.pc.Dialed? && call.pc.c == c
  }

  /** What holds of each call: its entry is of its server, and locked by it where it
      should be; with no client left once it has to dial; and a client in hand is open
      and of its server. */
  predicate CallOk(s: State, t: nat)
    requires t < |s.calls|
  {
    var call := s.calls[t];
    match call.pc
    case Start => true
    case HasEntry(e) => e < |s.heap| && s.heap[e].server == call.server
    case InLock(e) => e < |s.heap| && s.heap[e].server == call.server && s.heap[e].holder == Some(t)
    case MustDial(e) =>
      && e < |s.heap| && s.heap[e].server == call.server && s.heap[e].holder == Some(t)
      && s.heap[e].client == None && call.op == Get
    case Dialed(e, c) =>
      && e < |s.heap| && s.heap[e].server == call.server && s.heap[e].holder == Some(t)
      && s.heap[e].client == None && call.op == Get
      && c < |s.clients| && s.clients[c] == Client(call.server, true)
    case Finished => true
  }

  /** What holds of each entry: its client, if any, is open and of its server. */
  predicate EntryOk(s: State, e: nat)
    requires e < |s.heap|
  {
    s.heap[e].client.Some? ==>
      var c := s.heap[e].client.value;
      c < |s.clients| && s.clients[c] == Client(s.heap[e].server, true)
  }

  /** An owner of a client: an entry, or a call that has just dialed it. */
  datatype Owner = OfEntry(e: nat) | OfCall(t: nat)

  predicate Owns(s: State, o: Owner, c: nat) {
    match o
    case OfEntry(e) => e < |s.heap| && s.heap[e].client == Some(c)
    case OfCall(t) => t < |s.calls| && InHand(s.calls[t], c)
  }

  ghost predicate OneOwner(s: State) {
    forall o, o', c: nat :: Owns(s, o, c) && Owns(s, o', c) ==> o == o'
  }

  ghost predicate OpenIsOwned(s: State) {
    forall c: nat :: c < |s.clients| && s.clients[c].open ==> exists o :: Owns(s, o, c)
  }

  predicate MapOk(s: State) {
    forall x :: x in s.entries ==> s.entries[x] < |s.heap| && s.heap[s.entries[x]].server == x
  }

  ghost predicate Shape(s: State) {
    && MapOk(s)
    && (forall t :: 0 <= t < |s.calls| ==> CallOk(s, t))
    && (forall e :: 0 <= e < |s.heap| ==> EntryOk(s, e))
  }

  ghost predicate Inv(s: State) {
    Shape(s) && OneOwner(s) && OpenIsOwned(s)
  }

  // ---- Every step keeps it ----

  /** Owners and open clients as they were. */
  lemma SameOwners(s: State, u: State)
    requires OneOwner(s) && OpenIsOwned(s)
    requires forall o: Owner, c: nat :: Owns(u, o, c) <==> Owns(s, o, c)
    requires u.clients == s.clients
    ensures OneOwner(u) && OpenIsOwned(u)
  {
    forall c: nat | c < |u.clients| && u.clients[c].open ensures exists o :: Owns(u, o, c) {
      var o :| Owns(s, o, c);
      assert Owns(u, o, c);
    }
  }

  /** Client `c` closed and without its owner, the others as they were. */
  lemma OneDropped(s: State, u: State, c: nat)
    requires OneOwner(s) && OpenIsOwned(s)
    requires forall o: Owner, x: nat :: Owns(u, o, x) <==> Owns(s, o, x) && x != c
    requires c < |s.clients| && u.clients == s.clients[c := s.clients[c].(open := false)]
    ensures OneOwner(u) && OpenIsOwned(u)
  {
    forall x: nat | x < |u.clients| && u.clients[x].open ensures exists o :: Owns(u, o, x) {
      var o :| Owns(s, o, x);
      assert Owns(u, o, x);
    }
  }

  /** Client `c`, which had the one owner `from` or is new, now has the one owner `to`. */
  lemma OneMoved(s: State, u: State, c: nat, to: Owner)
    requires OneOwner(s) && OpenIsOwned(s)
    requires forall o: Owner, x: nat :: Owns(u, o, x) <==> if x == c then o == to else Owns(s, o, x)
    requires |s.clients| <= |u.clients| && forall x: nat :: x < |u.clients| && x != c ==> x < |s.clients| && u.clients[x] == s.clients[x]
    ensures OneOwner(u) && OpenIsOwned(u)
  {
    forall x: nat | x < |u.clients| && u.clients[x].open ensures exists o :: Owns(u, o, x) {
      if x == c {
        assert Owns(u, to, x);
      } else {
        var o :| Owns(s, o, x);
        assert Owns(u, o, x);
      }
    }
  }

  lemma StartShape(s: State, t: nat)
    requires Shape(s) && t < |s.calls| && s.calls[t].pc == Start
    ensures Shape(StartStep(s, t))
  {
    var u := StartStep(s, t);
    forall i | 0 <= i < |u.calls| ensures CallOk(u, i) {
      assert CallOk(s, i);
    }
    forall e | 0 <= e < |u.heap| ensures EntryOk(u, e) {
      if e < |s.heap| {
        assert EntryOk(s, e);
      }
    }
  }

  lemma StartInv(s: State, t: nat)
    requires Inv(s) && t < |s.calls| && s.calls[t].pc == Start
    ensures Inv(StartStep(s, t))
  {
    var u := StartStep(s, t);
    StartShape(s, t);
    forall o: Owner, c: nat ensures Owns(u, o, c) <==> Owns(s, o, c) {
    }
    SameOwners(s, u);
  }

  /** A change of entry `e`, which no other call has locked, by call `t`. */
  predicate Local(s: State, u: State, t: nat, e: nat)
    requires t < |s.calls| && e < |s.heap|
  {
    && u.entries == s.entries
    && |u.calls| == |s.calls| && u.calls == s.calls[t := u.calls[t]]
    && |u.heap| == |s.heap| && u.heap == s.heap[e := u.heap[e]]
    && u.heap[e].server == s.heap[e].server
  }

  lemma LocalShape(s: State, u: State, t: nat, e: nat)
    requires Shape(s) && t < |s.calls| && e < |s.heap| && Local(s, u, t, e)
    requires s.heap[e].holder == None || s.heap[e].holder == Some(t)
    requires CallOk(u, t) && EntryOk(u, e)
    requires forall c: nat :: c < |s.clients| ==>
               c < |u.clients| && (u.clients[c] == s.clients[c] || s.heap[e].client == Some(c) || InHand(s.calls[t], c))
    requires OneOwner(s)
    ensures Shape(u)
  {
    forall i | 0 <= i < |u.calls| ensures CallOk(u, i) {
      assert CallOk(s, i);
      if i != t && s.calls[i].pc.Dialed? {
        var c := s.calls[i].pc.c;
        assert Owns(s, OfCall(i), c);
        assert !Owns(s, OfEntry(e), c) && !Owns(s, OfCall(t), c);
      }
    }
    forall x | 0 <= x < |u.heap| ensures EntryOk(u, x) {
      assert EntryOk(s, x);
      if x != e && s.heap[x].client.Some? {
        var c := s.heap[x].client.value;
        assert Owns(s, OfEntry(x), c);
        assert !Owns(s, OfEntry(e), c) && !Owns(s, OfCall(t), c);
      }
    }
  }

  lemma LockInv(s: State, t: nat, e: nat)
    requires Inv(s) && t < |s.calls| && e < |s.heap| && s.calls[t].pc == HasEntry(e) && s.heap[e].holder.None?
    ensures Inv(Goto(SetHolder(s, e, Some(t)), t, InLock(e)))
  {
    var u := Goto(SetHolder(s, e, Some(t)), t, InLock(e));
    assert CallOk(s, t) && EntryOk(s, e);
    LocalShape(s, u, t, e);
    forall o: Owner, c: nat ensures Owns(u, o, c) <==> Owns(s, o, c) {
    }
    SameOwners(s, u);
  }

  lemma CloseDrops(s: State, u: State, t: nat, e: nat, c: nat)
    requires OneOwner(s) && t < |s.calls| && e < |s.heap| && Local(s, u, t, e)
    requires s.heap[e].client == Some(c) && u.heap[e].client == None
    requires !s.calls[t].pc.Dialed? && !u.calls[t].pc.Dialed?
    ensures forall o: Owner, x: nat :: Owns(u, o, x) <==> Owns(s, o, x) && x != c
  {
    assert Owns(s, OfEntry(e), c);
    forall o: Owner, x: nat ensures Owns(u, o, x) <==> Owns(s, o, x) && x != c {
      if o != OfEntry(e) {
        assert Owns(u, o, x) <==> Owns(s, o, x);
        assert Owns(s, o, x) ==> x != c;
      }
    }
  }

  lemma LockedInv(s: State, t: nat, e: nat, ok: bool)
    requires Inv(s) && t < |s.calls| && e < |s.heap| && s.calls[t].pc == InLock(e)
    ensures Inv(LockedStep(s, t, e, ok))
  {
    var u := LockedStep(s, t, e, ok);
    assert CallOk(s, t) && EntryOk(s, e);
    LocalShape(s, u, t, e);
    if s.heap[e].client.None? || (s.calls[t].op == Get && ok) {
      forall o: Owner, c: nat ensures Owns(u, o, c) <==> Owns(s, o, c) {
      }
      SameOwners(s, u);
    } else {
      var c := s.heap[e].client.value;
      CloseDrops(s, u, t, e, c);
      OneDropped(s, u, c);
    }
  }

  lemma DialInv(s: State, t: nat, e: nat, ok: bool)
    requires Inv(s) && t < |s.calls| && e < |s.heap| && s.calls[t].pc == MustDial(e)
    ensures Inv(DialStep(s, t, e, ok))
  {
    var u := DialStep(s, t, e, ok);
    assert CallOk(s, t) && EntryOk(s, e);
    LocalShape(s, u, t, e);
    if ok {
      var c := |s.clients|;
      forall o: Owner, x: nat ensures Owns(u, o, x) <==> if x == c then o == OfCall(t) else Owns(s, o, x) {
        if Owns(s, o, x) {
          OwnedIsClient(s, o, x);
        }
      }
      OneMoved(s, u, c, OfCall(t));
    } else {
      forall o: Owner, x: nat ensures Owns(u, o, x) <==> Owns(s, o, x) {
      }
      SameOwners(s, u);
    }
  }

  /** What is owned is open. */
  lemma OwnedIsClient(s: State, o: Owner, c: nat)
    requires Shape(s) && Owns(s, o, c)
    ensures c < |s.clients| && s.clients[c].open
  {
    match o
    case OfEntry(e) => assert EntryOk(s, e);
    case OfCall(t) => assert CallOk(s, t);
  }

  lemma KeepInv(s: State, t: nat, e: nat, c: nat, ok: bool)
    requires Inv(s) && t < |s.calls| && e < |s.heap| && c < |s.clients| && s.calls[t].pc == Dialed(e, c)
    ensures Inv(KeepStep(s, t, e, c, ok))
  {
    var u := KeepStep(s, t, e, c, ok);
    assert CallOk(s, t) && EntryOk(s, e);
    assert Owns(s, OfCall(t), c);
    LocalShape(s, u, t, e);
    if ok {
      forall o: Owner, x: nat ensures Owns(u, o, x) <==> if x == c then o == OfEntry(e) else Owns(s, o, x) {
        if o != OfCall(t) && o != OfEntry(e) {
          assert Owns(u, o, x) <==> Owns(s, o, x);
          assert Owns(s, o, x) ==> x != c;
        }
      }
      OneMoved(s, u, c, OfEntry(e));
    } else {
      forall o: Owner, x: nat ensures Owns(u, o, x) <==> Owns(s, o, x) && x != c {
        if o != OfCall(t) {
          assert Owns(u, o, x) <==> Owns(s, o, x);
          assert Owns(s, o, x) ==> x != c;
        }
      }
      OneDropped(s, u, c);
    }
  }

  lemma NextInv(s: State, t: nat, ok: bool)
    requires Inv(s)
    ensures Inv(Next(s, t, ok))
  {
    if t < |s.calls| {
      assert CallOk(s, t);
      match s.calls[t].pc
      case Start => StartInv(s, t);
      case HasEntry(e) => if s.heap[e].holder.None? { LockInv(s, t, e); }
      case InLock(e) => LockedInv(s, t, e, ok);
      case MustDial(e) => DialInv(s, t, e, ok);
      case Dialed(e, c) => KeepInv(s, t, e, c, ok);
      case Finished =>
    }
  }

  lemma {:induction false} ExecInv(s: State, schedule: Schedule)
    requires Fresh(s)
    ensures Inv(Exec(s, schedule))
  {
    if schedule != [] {
      var last := schedule[|schedule| - 1];
      ExecInv(s, schedule[..|schedule| - 1]);
      NextInv(Exec(s, schedule[..|schedule| - 1]), last.0, last.1);
    }
  }

  ghost predicate Owned(s: State, c: nat) {
    exists o :: Owns(s, o, c)
  }

  /** In every interleaving each client ever opened is either closed, and then nobody's,
      or open, and then owned by exactly one entry or by the one call that has just
      dialed it. */
  lemma ConnectionsConserved(s: State, schedule: Schedule, c: nat, o: Owner, o': Owner)
    requires Fresh(s) && c < |Exec(s, schedule).clients|
    ensures Exec(s, schedule).clients[c].open <==> Owned(Exec(s, schedule), c)
    ensures Owns(Exec(s, schedule), o, c) && Owns(Exec(s, schedule), o', c) ==> o == o'
  {
    ExecInv(s, schedule);
    var u := Exec(s, schedule);
    if Owned(u, c) {
      var owner :| Owns(u, owner, c);
      OwnedIsClient(u, owner, c);
    }
  }

  // ---- At most one per server ----

  /** The call has entry `e` in hand. */
  predicate AtEntry(call: Call, e: nat) {
    match call.pc
    case Start => false
    case HasEntry(x) => x == e
    case InLock(x) => x == e
    case MustDial(x) => x == e
    case Dialed(x, _) => x == e
    case Finished => false
  }

  predicate InLockAt(call: Call, e: nat) {
    AtEntry(call, e) && !call.pc.HasEntry?
  }

  predicate Mapped(s: State, x: string, e: nat) {
    x in s.entries && s.entries[x] == e
  }

  /** The entry is in the map, or a call that is about to close it has it in hand. */
  predicate Tended(s: State, x: string, e: nat) {
    Mapped(s, x, e) || exists v :: 0 <= v < |s.calls| && s.calls[v].op == Invalidate && AtEntry(s.calls[v], e)
  }

  predicate CallTended(s: State, x: string, t: nat)
    requires t < |s.calls|
  {
    var call := s.calls[t];
    call.op == Get && call.server == x ==>
      && (call.pc.HasEntry? ==> Mapped(s, x, call.pc.e))
      && (call.pc.InLock? || call.pc.MustDial? || call.pc.Dialed? ==> Tended(s, x, call.pc.e))
  }

  predicate EntryTended(s: State, x: string, e: nat)
    requires e < |s.heap|
  {
    s.heap[e].server == x && s.heap[e].client.Some? ==> Tended(s, x, e)
  }

  ghost predicate AllTended(s: State, x: string) {
    && (forall t :: 0 <= t < |s.calls| ==> CallTended(s, x, t))
    && (forall e :: 0 <= e < |s.heap| ==> EntryTended(s, x, e))
  }

  /** If call `t` is an `invalidate` of `x` about to take its entry from the map, no `get`
      that has fetched the entry is still waiting to lock it. */
  predicate Calm(s: State, x: string, t: nat) {
    t < |s.calls| && s.calls[t] == Call(Invalidate, x, Start) && x in s.entries ==>
      forall g :: 0 <= g < |s.calls| ==> s.calls[g] != Call(Get, x, HasEntry(s.entries[x]))
  }

  predicate AlwaysCalm(s: State, x: string, schedule: Schedule)
    decreases |schedule|
  {
    schedule != [] ==>
      var init := schedule[..|schedule| - 1];
      AlwaysCalm(s, x, init) && Calm(Exec(s, init), x, schedule[|schedule| - 1].0)
  }

  /** A step that takes nothing out of the map and leaves every closing call where it is. */
  ghost predicate KeepsTending(s: State, u: State, x: string) {
    && (x in s.entries ==> x in u.entries && u.entries[x] == s.entries[x])
    && |u.calls| == |s.calls|
    && forall v, e: nat :: 0 <= v < |s.calls| && s.calls[v].op == Invalidate && AtEntry(s.calls[v], e) ==>
         u.calls[v].op == Invalidate && AtEntry(u.calls[v], e)
  }

  lemma StillTended(s: State, u: State, x: string, e: nat)
    requires KeepsTending(s, u, x) && Tended(s, x, e)
    ensures Tended(u, x, e)
  {
    if !Mapped(s, x, e) {
      var v :| 0 <= v < |s.calls| && s.calls[v].op == Invalidate && AtEntry(s.calls[v], e);
      assert u.calls[v].op == Invalidate && AtEntry(u.calls[v], e);
    }
  }

  /** Such a step of call `t`, at an entry that is tended if it is of `x`. */
  lemma TendingStep(s: State, u: State, x: string, t: nat)
    requires AllTended(s, x) && t < |s.calls| && KeepsTending(s, u, x)
    requires u.calls == s.calls[t := u.calls[t]]
    requires CallTended(u, x, t)
    requires |s.heap| <= |u.heap|
    requires forall e :: 0 <= e < |s.heap| ==> u.heap[e].server == s.heap[e].server
    requires forall e :: 0 <= e < |s.heap| && u.heap[e].client.Some? && s.heap[e].server == x ==>
               s.heap[e].client.Some? || Tended(s, x, e)
    requires forall e :: |s.heap| <= e < |u.heap| ==> u.heap[e].client.None?
    ensures AllTended(u, x)
  {
    forall i | 0 <= i < |u.calls| ensures CallTended(u, x, i) {
      assert CallTended(s, x, i);
      var pc := s.calls[i].pc;
      if i != t && s.calls[i].op == Get && s.calls[i].server == x && (pc.InLock? || pc.MustDial? || pc.Dialed?) {
        StillTended(s, u, x, pc.e);
      }
    }
    forall e | 0 <= e < |u.heap| ensures EntryTended(u, x, e) {
      if e < |s.heap| && u.heap[e].server == x && u.heap[e].client.Some? {
        assert EntryTended(s, x, e);
        StillTended(s, u, x, e);
      }
    }
  }

  lemma GetKeepsTending(s: State, x: string, t: nat, ok: bool)
    requires t < |s.calls| && s.calls[t].op == Get
    ensures var u := Next(s, t, ok);
            |u.calls| == |s.calls| && u.calls == s.calls[t := u.calls[t]] && u.calls[t].op == Get && KeepsTending(s, u, x)
  {
    var u := Next(s, t, ok);
    assert u.calls == s.calls[t := u.calls[t]];
  }

  lemma GetStartTended(s: State, x: string, t: nat)
    requires Inv(s) && AllTended(s, x) && t < |s.calls| && s.calls[t].op == Get && s.calls[t].pc == Start
    ensures AllTended(StartStep(s, t), x)
  {
    GetKeepsTending(s, x, t, true);
    TendingStep(s, StartStep(s, t), x, t);
  }

  lemma GetTended(s: State, x: string, t: nat, ok: bool)
    requires Inv(s) && AllTended(s, x) && t < |s.calls| && s.calls[t].op == Get && s.calls[t].pc != Start
    ensures AllTended(Next(s, t, ok), x)
  {
    var u := Next(s, t, ok);
    assert CallOk(s, t) && CallTended(s, x, t);
    GetKeepsTending(s, x, t, ok);
    var pc := s.calls[t].pc;
    if s.calls[t].server == x && (pc.HasEntry? || pc.InLock? || pc.MustDial? || pc.Dialed?) {
      StillTended(s, u, x, pc.e);
    }
    TendingStep(s, u, x, t);
  }

  lemma TakeTended(s: State, x: string, t: nat)
    requires Inv(s) && AllTended(s, x) && Calm(s, x, t)
    requires t < |s.calls| && s.calls[t].op == Invalidate && s.calls[t].pc == Start
    ensures AllTended(StartStep(s, t), x)
  {
    var u := StartStep(s, t);
    assert u.calls == s.calls[t := u.calls[t]];
    if s.calls[t].server != x || x !in s.entries {
      assert KeepsTending(s, u, x);
      TendingStep(s, u, x, t);
    } else {
      var e0 := s.entries[x];
      assert AtEntry(u.calls[t], e0);
      forall e: nat | Tended(s, x, e) ensures Tended(u, x, e) {
        if e != e0 {
          var v :| 0 <= v < |s.calls| && s.calls[v].op == Invalidate && AtEntry(s.calls[v], e);
          assert u.calls[v] == s.calls[v];
        }
      }
      forall i | 0 <= i < |u.calls| ensures CallTended(u, x, i) {
        assert CallTended(s, x, i);
      }
      forall e | 0 <= e < |u.heap| ensures EntryTended(u, x, e) {
        assert EntryTended(s, x, e);
      }
    }
  }

  /** An `invalidate` that has its entry locked empties it: nobody else is at work there. */
  lemma CloseTended(s: State, x: string, t: nat, e: nat, ok: bool)
    requires Inv(s) && AllTended(s, x)
    requires t < |s.calls| && s.calls[t].op == Invalidate && s.calls[t].pc == InLock(e) && e < |s.heap|
    ensures AllTended(LockedStep(s, t, e, ok), x)
  {
    var u := LockedStep(s, t, e, ok);
    assert CallOk(s, t);
    assert u.calls == s.calls[t := u.calls[t]] && u.heap[e].client.None? && u.entries == s.entries;
    forall e': nat | e' != e && Tended(s, x, e') ensures Tended(u, x, e') {
      if !Mapped(s, x, e') {
        var v :| 0 <= v < |s.calls| && s.calls[v].op == Invalidate && AtEntry(s.calls[v], e');
        assert u.calls[v] == s.calls[v];
      }
    }
    forall i | 0 <= i < |u.calls| ensures CallTended(u, x, i) {
      assert CallTended(s, x, i) && CallOk(s, i);
    }
    forall e' | 0 <= e' < |u.heap| ensures EntryTended(u, x, e') {
      assert EntryTended(s, x, e');
    }
  }

  lemma NextTended(s: State, x: string, t: nat, ok: bool)
    requires Inv(s) && AllTended(s, x) && Calm(s, x, t)
    ensures AllTended(Next(s, t, ok), x)
  {
    if t < |s.calls| {
      assert CallOk(s, t);
      if s.calls[t].op == Get && s.calls[t].pc.Start? {
        GetStartTended(s, x, t);
      } else if s.calls[t].op == Get {
        GetTended(s, x, t, ok);
      } else if s.calls[t].pc.Start? {
        TakeTended(s, x, t);
      } else if s.calls[t].pc.InLock? {
        CloseTended(s, x, t, s.calls[t].pc.e, ok);
      } else if s.calls[t].pc.HasEntry? {
        var u := Next(s, t, ok);
        assert u.calls == s.calls[t := u.calls[t]];
        assert KeepsTending(s, u, x);
        TendingStep(s, u, x, t);
      }
    }
  }

  lemma {:induction false} AlwaysTended(s: State, x: string, schedule: Schedule)
    requires Fresh(s) && AlwaysCalm(s, x, schedule)
    ensures AllTended(Exec(s, schedule), x)
    decreases |schedule|
  {
    if schedule != [] {
      var init, last := schedule[..|schedule| - 1], schedule[|schedule| - 1];
      AlwaysTended(s, x, init);
      ExecInv(s, init);
      NextTended(Exec(s, init), x, last.0, last.1);
    }
  }

  /** The entry an owner stands at. */
  function At(s: State, o: Owner, c: nat): nat
    requires Owns(s, o, c)
  {
    match o
    case OfEntry(e) => e
    case OfCall(t) => s.calls[t].pc.e
  }

  /** Owners of two clients at the same entry are one owner of one client: a call dials
      only while it holds the mutex of an entry it has emptied. */
  lemma OneAtEntry(s: State, o: Owner, c: nat, o': Owner, c': nat)
    requires Inv(s) && Owns(s, o, c) && Owns(s, o', c') && At(s, o, c) == At(s, o', c')
    ensures c == c'
  {
    if o.OfCall? {
      assert CallOk(s, o.t);
    }
    if o'.OfCall? {
      assert CallOk(s, o'.t);
    }
  }

  lemma AtServer(s: State, o: Owner, c: nat)
    requires Inv(s) && Owns(s, o, c)
    ensures c < |s.clients| && At(s, o, c) < |s.heap| && s.heap[At(s, o, c)].server == s.clients[c].server
  {
    match o
    case OfEntry(e) => assert EntryOk(s, e);
    case OfCall(t) => assert CallOk(s, t);
  }

  predicate OpenFor(s: State, c: nat, x: string) {
    c < |s.clients| && s.clients[c] == Client(x, true)
  }

  /** No `invalidate` of `x` has an entry in hand. */
  predicate NoneClosing(s: State, x: string) {
    forall v :: 0 <= v < |s.calls| ==>
      !(s.calls[v].op == Invalidate && s.calls[v].server == x && (s.calls[v].pc.HasEntry? || s.calls[v].pc.InLock?))
  }

  lemma OpenIsMapped(s: State, x: string, o: Owner, c: nat)
    requires Inv(s) && AllTended(s, x) && NoneClosing(s, x) && OpenFor(s, c, x) && Owns(s, o, c)
    ensures Mapped(s, x, At(s, o, c))
  {
    AtServer(s, o, c);
    var e := At(s, o, c);
    match o {
      case OfEntry(_) => assert EntryTended(s, x, e);
      case OfCall(t) => assert CallOk(s, t) && CallTended(s, x, t);
    }
    NobodyCloses(s, x, e);
  }

  lemma NobodyCloses(s: State, x: string, e: nat)
    requires Shape(s) && NoneClosing(s, x) && e < |s.heap| && s.heap[e].server == x
    ensures Tended(s, x, e) ==> Mapped(s, x, e)
  {
    forall v | 0 <= v < |s.calls| ensures !(s.calls[v].op == Invalidate && AtEntry(s.calls[v], e)) {
      assert CallOk(s, v);
    }
  }

  /** A server has at most one open client whenever no `invalidate` of it is under way, in
      every interleaving in which none of them took from the map an entry that a `get`
      had fetched and not yet locked; whatever happens to other servers. */
  lemma OnePerServer(s: State, schedule: Schedule, x: string, c: nat, c': nat)
    requires Fresh(s) && AlwaysCalm(s, x, schedule) && NoneClosing(Exec(s, schedule), x)
    requires OpenFor(Exec(s, schedule), c, x) && OpenFor(Exec(s, schedule), c', x)
    ensures c == c'
  {
    ExecInv(s, schedule);
    AlwaysTended(s, x, schedule);
    var u := Exec(s, schedule);
    var o :| Owns(u, o, c);
    var o' :| Owns(u, o', c');
    OpenIsMapped(u, x, o, c);
    OpenIsMapped(u, x, o', c');
    OneAtEntry(u, o, c, o', c');
  }

  // ---- With Invalidate ----

  ghost predicate Reaches(s: State, u: State) {
    exists schedule :: Exec(s, schedule) == u
  }

  lemma Go(s: State, u: State, t: nat, ok: bool)
    requires Reaches(s, u)
    ensures Reaches(s, Next(u, t, ok))
  {
    var schedule :| Exec(s, schedule) == u;
    assert (schedule + [(t, ok)])[..|schedule|] == schedule;
    assert Exec(s, schedule + [(t, ok)]) == Next(u, t, ok);
  }

  /** A `get` at an empty, unlocked entry, and nobody in between: it opens a connection
      and keeps it there. */
  function Kept(u: State, t: nat, e: nat): State
    requires t < |u.calls| && e < |u.heap|
  {
    State(u.entries, u.heap[e := Entry(u.heap[e].server, Some(|u.clients|), None)],
          u.clients + [Client(u.calls[t].server, true)],
          u.calls[t := Call(Get, u.calls[t].server, Finished)])
  }

  lemma GetKeeps(s: State, u: State, t: nat, e: nat)
    requires Reaches(s, u) && t < |u.calls| && e < |u.heap|
    requires u.calls[t].op == Get && u.calls[t].pc == HasEntry(e) && u.heap[e].client == u.heap[e].holder == None
    ensures Reaches(s, Kept(u, t, e))
  {
    var u1 := Goto(SetHolder(u, e, Some(t)), t, InLock(e));
    assert Next(u, t, true) == u1;
    Go(s, u, t, true);
    var u2 := Goto(u1, t, MustDial(e));
    assert Next(u1, t, true) == u2;
    Go(s, u1, t, true);
    DialAndKeep(s, u, u2, t, e);
  }

  lemma DialAndKeep(s: State, u: State, u2: State, t: nat, e: nat)
    requires t < |u.calls| && e < |u.heap| && u.calls[t].op == Get && u.heap[e].client == None
    requires u2.entries == u.entries && u2.clients == u.clients
    requires u2.heap == u.heap[e := u.heap[e].(holder := Some(t))]
    requires u2.calls == u.calls[t := u.calls[t].(pc := MustDial(e))]
    requires Reaches(s, u2)
    ensures Reaches(s, Kept(u, t, e))
  {
    var u3 := Next(u2, t, true);
    Go(s, u2, t, true);
    Go(s, u3, t, true);
    assert u3.clients == u.clients + [Client(u.calls[t].server, true)];
    assert Next(u3, t, true).heap == Kept(u, t, e).heap;
    assert Next(u3, t, true).calls == Kept(u, t, e).calls;
    assert Next(u3, t, true).clients == Kept(u, t, e).clients;
  }

  /** An entry that is not in the map and that no call has in hand. */
  predicate Orphan(s: State, e: nat) {
    && e < |s.heap|
    && (forall x :: x in s.entries ==> s.entries[x] != e)
    && (forall t :: 0 <= t < |s.calls| ==> !AtEntry(s.calls[t], e))
  }

  lemma OrphanStart(s: State, t: nat, e: nat)
    requires Orphan(s, e) && t < |s.calls|
    ensures Orphan(StartStep(s, t), e) && StartStep(s, t).heap[e] == s.heap[e]
  {
  }

  lemma OrphanNext(s: State, t: nat, ok: bool, e: nat)
    requires Orphan(s, e)
    ensures Orphan(Next(s, t, ok), e) && Next(s, t, ok).heap[e] == s.heap[e]
  {
    if t < |s.calls| {
      if s.calls[t].pc == Start {
        OrphanStart(s, t, e);
      } else {
        var u := Next(s, t, ok);
        assert u.entries == s.entries && u.calls == s.calls[t := u.calls[t]] && !AtEntry(u.calls[t], e);
      }
    }
  }

  /** Nothing the pool does ever closes an orphan's connection again. */
  lemma {:induction false} OrphanStaysOpen(s: State, schedule: Schedule, e: nat, c: nat)
    requires Inv(s) && Orphan(s, e) && s.heap[e].client == Some(c)
    ensures var u := Exec(s, schedule);
            Inv(u) && Orphan(u, e) && u.heap[e].client == Some(c) && c < |u.clients| && u.clients[c].open
  {
    if schedule != [] {
      var init, last := schedule[..|schedule| - 1], schedule[|schedule| - 1];
      OrphanStaysOpen(s, init, e, c);
      NextInv(Exec(s, init), last.0, last.1);
      OrphanNext(Exec(s, init), last.0, last.1, e);
    }
    assert EntryOk(Exec(s, schedule), e);
  }

  // ---- A `get` left with an entry the map has lost ----

  /** An entry's mutex is held by a call that is at work there. */
  predicate HeldOk(s: State) {
    forall e :: 0 <= e < |s.heap| && s.heap[e].holder.Some? ==>
      s.heap[e].holder.value < |s.calls| && InLockAt(s.calls[s.heap[e].holder.value], e)
  }

  lemma StartHeld(s: State, t: nat)
    requires HeldOk(s) && t < |s.calls| && s.calls[t].pc == Start
    ensures HeldOk(StartStep(s, t))
  {
  }

  lemma MoveHeld(s: State, u: State, t: nat, e: nat)
    requires HeldOk(s) && t < |s.calls| && AtEntry(s.calls[t], e) && e < |s.heap| == |u.heap|
    requires |u.calls| == |s.calls| && u.calls == s.calls[t := u.calls[t]] && u.heap == s.heap[e := u.heap[e]]
    requires u.heap[e].holder == None || (u.heap[e].holder == Some(t) && InLockAt(u.calls[t], e))
    ensures HeldOk(u)
  {
  }

  lemma WorkHeld(s: State, t: nat, ok: bool, e: nat)
    requires t < |s.calls| && CallOk(s, t) && AtEntry(s.calls[t], e) && e < |s.heap|
    requires s.calls[t].pc.HasEntry? ==> s.heap[e].holder.None?
    ensures var u := Next(s, t, ok);
            && |u.heap| == |s.heap| && |u.calls| == |s.calls|
            && u.calls == s.calls[t := u.calls[t]] && u.heap == s.heap[e := u.heap[e]]
            && (u.heap[e].holder == None || (u.heap[e].holder == Some(t) && InLockAt(u.calls[t], e)))
  {
  }

  lemma NextHeld(s: State, t: nat, ok: bool)
    requires Inv(s) && HeldOk(s)
    ensures HeldOk(Next(s, t, ok))
  {
    if t < |s.calls| {
      assert CallOk(s, t);
      var pc := s.calls[t].pc;
      if pc == Start {
        StartHeld(s, t);
      } else if pc != Finished && (pc.HasEntry? ==> s.heap[pc.e].holder.None?) {
        WorkHeld(s, t, ok, pc.e);
        MoveHeld(s, Next(s, t, ok), t, pc.e);
      }
    }
  }

  lemma {:induction false} AlwaysHeld(s: State, schedule: Schedule)
    requires Fresh(s)
    ensures HeldOk(Exec(s, schedule)) && Inv(Exec(s, schedule))
  {
    ExecInv(s, schedule);
    if schedule != [] {
      var init, last := schedule[..|schedule| - 1], schedule[|schedule| - 1];
      AlwaysHeld(s, init);
      NextHeld(Exec(s, init), last.0, last.1);
    }
  }

  /** What holds at every point of every interleaving. */
  ghost predicate Fine(s: State) {
    Inv(s) && HeldOk(s)
  }

  lemma GoFine(s: State, u: State, t: nat, ok: bool)
    requires Reaches(s, u) && Fine(u)
    ensures Reaches(s, Next(u, t, ok)) && Fine(Next(u, t, ok))
  {
    Go(s, u, t, ok);
    NextInv(u, t, ok);
    NextHeld(u, t, ok);
  }

  /** `v` is `u` with call `t` over, and entry `e` free. */
  predicate Ended(u: State, v: State, t: nat, e: nat) {
    && t < |u.calls| && v.calls == u.calls[t := u.calls[t].(pc := Finished)]
    && v.entries == u.entries && |v.heap| == |u.heap|
    && e < |v.heap| && v.heap[e].holder == None
  }

  /** A call at work at `e` can be brought to its end. */
  lemma EndFromDial(s: State, u: State, t: nat, e: nat) returns (v: State)
    requires Reaches(s, u) && Fine(u) && t < |u.calls|
    requires u.calls[t].pc == MustDial(e) || (u.calls[t].pc.Dialed? && u.calls[t].pc.e == e)
    ensures Reaches(s, v) && Fine(v) && Ended(u, v, t, e)
  {
    assert CallOk(u, t);
    v := Next(u, t, false);
    GoFine(s, u, t, false);
  }

  lemma Overwrite(calls: seq<Call>, t: nat, a: Call, b: Call)
    requires t < |calls|
    ensures calls[t := a][t := b] == calls[t := b]
  {
  }

  lemma EndFromLock(s: State, u: State, t: nat, e: nat) returns (v: State)
    requires Reaches(s, u) && Fine(u) && t < |u.calls| && u.calls[t].pc == InLock(e)
    ensures Reaches(s, v) && Fine(v) && Ended(u, v, t, e)
  {
    assert CallOk(u, t);
    v := Next(u, t, true);
    GoFine(s, u, t, true);
    if v.calls[t].pc.MustDial? {
      Overwrite(u.calls, t, v.calls[t], u.calls[t].(pc := Finished));
      var w := EndFromDial(s, v, t, e);
      v := w;
    }
  }

  lemma EndFromWait(s: State, u: State, t: nat, e: nat) returns (v: State)
    requires Reaches(s, u) && Fine(u) && t < |u.calls| && u.calls[t].pc == HasEntry(e)
    requires e < |u.heap| && u.heap[e].holder == None
    ensures Reaches(s, v) && Fine(v) && Ended(u, v, t, e)
  {
    var w := Next(u, t, true);
    GoFine(s, u, t, true);
    Overwrite(u.calls, t, w.calls[t], u.calls[t].(pc := Finished));
    v := EndFromLock(s, w, t, e);
  }

  lemma EndAt(s: State, u: State, t: nat, e: nat) returns (v: State)
    requires Reaches(s, u) && Fine(u) && t < |u.calls| && AtEntry(u.calls[t], e) && e < |u.heap|
    requires u.heap[e].holder == None || InLockAt(u.calls[t], e)
    ensures Reaches(s, v) && Fine(v) && Ended(u, v, t, e)
  {
    assert CallOk(u, t);
    if u.calls[t].pc.HasEntry? {
      v := EndFromWait(s, u, t, e);
    } else if u.calls[t].pc.InLock? {
      v := EndFromLock(s, u, t, e);
    } else {
      v := EndFromDial(s, u, t, e);
    }
  }

  /** The calls at entry `e`, other than `g`. */
  function OthersAt(s: State, g: nat, e: nat): set<nat> {
    set t | 0 <= t < |s.calls| && t != g && AtEntry(s.calls[t], e)
  }

  /** Call `g` waits to lock an entry that is not in the map. */
  predicate Stranded(s: State, g: nat, e: nat) {
    && g < |s.calls| && s.calls[g].op == Get && s.calls[g].pc == HasEntry(e) && e < |s.heap|
    && forall x :: x in s.entries ==> s.entries[x] != e
  }

  /** All other calls at its entry can come to their ends before it. */
  lemma LeftAlone(s: State, u: State, g: nat, e: nat) returns (v: State)
    requires Reaches(s, u) && Fine(u) && Stranded(u, g, e)
    ensures Reaches(s, v) && Fine(v) && Stranded(v, g, e) && v.heap[e].holder == None && OthersAt(v, g, e) == {}
    decreases OthersAt(u, g, e)
  {
    HolderIsThere(u, g, e);
    if OthersAt(u, g, e) == {} {
      v := u;
    } else {
      var t: nat;
      if u.heap[e].holder.Some? {
        t := u.heap[e].holder.value;
      } else {
        t :| t in OthersAt(u, g, e);
      }
      var w := EndAt(s, u, t, e);
      FewerAt(u, w, t, g, e);
      v := LeftAlone(s, w, g, e);
    }
  }

  lemma HolderIsThere(u: State, g: nat, e: nat)
    requires HeldOk(u) && Stranded(u, g, e)
    ensures u.heap[e].holder.Some? ==>
              u.heap[e].holder.value in OthersAt(u, g, e) && InLockAt(u.calls[u.heap[e].holder.value], e)
  {
  }

  lemma FewerAt(u: State, w: State, t: nat, g: nat, e: nat)
    requires Ended(u, w, t, e) && t != g && AtEntry(u.calls[t], e) && Stranded(u, g, e)
    ensures Stranded(w, g, e) && OthersAt(w, g, e) < OthersAt(u, g, e)
  {
    assert t in OthersAt(u, g, e) && t !in OthersAt(w, g, e);
    forall i | i in OthersAt(w, g, e) ensures i in OthersAt(u, g, e) {
      assert i != t && w.calls[i] == u.calls[i];
    }
  }

  lemma GetFindsAlive(s: State, w: State, g: nat, e: nat) returns (v: State)
    requires Reaches(s, w) && Fine(w) && Stranded(w, g, e) && w.heap[e].holder == None && w.heap[e].client.Some?
    ensures Reaches(s, v) && v.calls == w.calls[g := w.calls[g].(pc := Finished)] && v.entries == w.entries
    ensures |v.heap| == |w.heap| && v.heap[e].client == w.heap[e].client && v.clients == w.clients
  {
    var x := Next(w, g, true);
    GoFine(s, w, g, true);
    Overwrite(w.calls, g, x.calls[g], w.calls[g].(pc := Finished));
    v := Next(x, g, true);
    GoFine(s, x, g, true);
  }

  /** An orphan with an open client: one the pool will never close. */
  predicate Leaked(v: State, e: nat) {
    && Orphan(v, e) && v.heap[e].client.Some?
    && v.heap[e].client.value < |v.clients| && v.clients[v.heap[e].client.value].open
  }

  lemma OrphanWhenLeft(w: State, v: State, g: nat, e: nat)
    requires Stranded(w, g, e) && OthersAt(w, g, e) == {} && v.entries == w.entries && |v.heap| == |w.heap|
    requires |v.calls| == |w.calls| && v.calls == w.calls[g := v.calls[g]] && v.calls[g].pc == Finished
    ensures Orphan(v, e)
  {
    forall t | 0 <= t < |v.calls| ensures !AtEntry(v.calls[t], e) {
      assert t !in OthersAt(w, g, e);
    }
  }

  /** Where a `get` waits to lock an entry that the map has lost, the run can go on until
      the entry has leaked. */
  lemma StrandedLeaks(s: State, u: State, g: nat, e: nat) returns (v: State)
    requires Reaches(s, u) && Fine(u) && Stranded(u, g, e)
    ensures Reaches(s, v) && Leaked(v, e)
  {
    var w := LeftAlone(s, u, g, e);
    if w.heap[e].client.None? {
      GetKeeps(s, w, g, e);
      v := Kept(w, g, e);
    } else {
      assert EntryOk(w, e);
      v := GetFindsAlive(s, w, g, e);
    }
    OrphanWhenLeft(w, v, g, e);
  }

  /** So the condition of `OnePerServer` is needed: at any point of any interleaving, an
      `invalidate` that takes from the map an entry that a `get` has fetched and not yet
      locked lets the run go on to a leak. */
  lemma UncalmStepLeaks(s: State, schedule: Schedule, x: string, t: nat, ok: bool) returns (e: nat, v: State)
    requires Fresh(s) && !Calm(Exec(s, schedule), x, t)
    ensures Reaches(Next(Exec(s, schedule), t, ok), v) && Leaked(v, e)
  {
    AlwaysHeld(s, schedule);
    var u := Exec(s, schedule);
    e := u.entries[x];
    var g :| 0 <= g < |u.calls| && u.calls[g] == Call(Get, x, HasEntry(e));
    NextInv(u, t, ok);
    NextHeld(u, t, ok);
    var w := Next(u, t, ok);
    assert Exec(w, []) == w;
    assert MapOk(u);
    v := StrandedLeaks(w, w, g, e);
  }

  /** A `get` that has fetched its entry when an `invalidate` removes it goes on to open
      a connection there, beside the one a later `get` opens: two for one server, the
      first out of the pool's reach for good. */
  lemma InvalidateLeaks(s: State, x: string) returns (u: State)
    requires s == State(map[], [], [], [Call(Get, x, Start), Call(Invalidate, x, Start), Call(Get, x, Start)])
    ensures Reaches(s, u) && |u.clients| == 2 && u.clients[0] == u.clients[1] == Client(x, true)
    ensures Orphan(u, 0) && u.heap[0].client == Some(1)
  {
    FirstFetched(s, x);
    var s1 := State(map[x := 0], [Entry(x, None, None)], [], [Call(Get, x, HasEntry(0)), s.calls[1], s.calls[2]]);
    Removed(s, s1, x);
    SecondFetched(s, x);
    var s3 := State(map[x := 1], [Entry(x, None, None), Entry(x, None, None)], [],
                    [Call(Get, x, HasEntry(0)), Call(Invalidate, x, Finished), Call(Get, x, HasEntry(1))]);
    GetKeeps(s, s3, 2, 1);
    var s4 := Kept(s3, 2, 1);
    GetKeeps(s, s4, 0, 0);
    u := Kept(s4, 0, 0);
  }

  lemma FirstFetched(s: State, x: string)
    requires s == State(map[], [], [], [Call(Get, x, Start), Call(Invalidate, x, Start), Call(Get, x, Start)])
    ensures Reaches(s, State(map[x := 0], [Entry(x, None, None)], [], [Call(Get, x, HasEntry(0)), s.calls[1], s.calls[2]]))
  {
    assert Exec(s, []) == s;
    Go(s, s, 0, true);
    assert Next(s, 0, true) ==
           State(map[x := 0], [Entry(x, None, None)], [], [Call(Get, x, HasEntry(0)), s.calls[1], s.calls[2]]);
  }

  lemma SecondFetched(s: State, x: string)
    requires |s.calls| == 3 && s.calls[2] == Call(Get, x, Start)
    requires Reaches(s, State(map[], [Entry(x, None, None)], [],
                              [Call(Get, x, HasEntry(0)), Call(Invalidate, x, Finished), s.calls[2]]))
    ensures Reaches(s, State(map[x := 1], [Entry(x, None, None), Entry(x, None, None)], [],
                             [Call(Get, x, HasEntry(0)), Call(Invalidate, x, Finished), Call(Get, x, HasEntry(1))]))
  {
    var s2 := State(map[], [Entry(x, None, None)], [], [Call(Get, x, HasEntry(0)), Call(Invalidate, x, Finished), s.calls[2]]);
    Go(s, s2, 2, true);
    assert Next(s2, 2, true) ==
           State(map[x := 1], [Entry(x, None, None), Entry(x, None, None)], [],
                 [Call(Get, x, HasEntry(0)), Call(Invalidate, x, Finished), Call(Get, x, HasEntry(1))]);
  }

  lemma Removed(s: State, s1: State, x: string)
    requires |s.calls| == 3 && Reaches(s, s1)
    requires s1 == State(map[x := 0], [Entry(x, None, None)], [], [Call(Get, x, HasEntry(0)), Call(Invalidate, x, Start), s.calls[2]])
    ensures Reaches(s, State(map[], [Entry(x, None, None)], [], [Call(Get, x, HasEntry(0)), Call(Invalidate, x, Finished), s.calls[2]]))
  {
    Go(s, s1, 1, true);
    var u1 := State(map[], s1.heap, [], [s1.calls[0], Call(Invalidate, x, HasEntry(0)), s1.calls[2]]);
    assert Next(s1, 1, true) == u1;
    Go(s, u1, 1, true);
    var u2 := State(map[], [Entry(x, None, Some(1))], [], [s1.calls[0], Call(Invalidate, x, InLock(0)), s1.calls[2]]);
    assert Next(u1, 1, true) == u2;
    Go(s, u2, 1, true);
    assert Next(u2, 1, true) == State(map[], s1.heap, [], [s1.calls[0], Call(Invalidate, x, Finished), s1.calls[2]]);
  }

  // ---- A call left alone ----

  /** Call `t` taking one step after another. */
  function Drive(s: State, t: nat, oks: seq<bool>): State
    decreases |oks|
  {
    if oks == [] then s else Drive(Next(s, t, oks[0]), t, oks[1..])
  }

  lemma DriveFirst(s: State, t: nat, ok: bool, oks: seq<bool>)
    ensures Drive(s, t, [ok] + oks) == Drive(Next(s, t, ok), t, oks)
  {
    assert ([ok] + oks)[1..] == oks;
  }

  lemma {:induction false} DriveFinished(s: State, t: nat, oks: seq<bool>)
    requires t < |s.calls| && s.calls[t].pc == Finished
    ensures Drive(s, t, oks) == s
    decreases |oks|
  {
    if oks != [] {
      DriveFinished(Next(s, t, oks[0]), t, oks[1..]);
    }
  }

  /** `b` with its entry `e`, its clients and where call `t` stands put in. */
  function With(b: State, t: nat, e: nat, entry: Entry, clients: seq<Client>, pc: Pc): State
    requires t < |b.calls| && e < |b.heap|
  {
    State(b.entries, b.heap[e := entry], clients, b.calls[t := b.calls[t].(pc := pc)])
  }

  /** The clients after `prev` has been closed. */
  function Closed(clients: seq<Client>, prev: Option<nat>): seq<Client> {
    if prev.Some? && prev.value < |clients| then clients[prev.value := clients[prev.value].(open := false)] else clients
  }

  lemma TakesLock(b: State, t: nat, e: nat, x: string, prev: Option<nat>, clients: seq<Client>, ok: bool)
    requires t < |b.calls| && e < |b.heap|
    ensures Next(With(b, t, e, Entry(x, prev, None), clients, HasEntry(e)), t, ok) ==
            With(b, t, e, Entry(x, prev, Some(t)), clients, InLock(e))
  {
  }

  lemma FindsAlive(b: State, t: nat, e: nat, x: string, c: nat, clients: seq<Client>)
    requires t < |b.calls| && e < |b.heap| && b.calls[t].op == Get
    ensures Next(With(b, t, e, Entry(x, Some(c), Some(t)), clients, InLock(e)), t, true) ==
            With(b, t, e, Entry(x, Some(c), None), clients, Finished)
  {
  }

  lemma ClosesOld(b: State, t: nat, e: nat, x: string, prev: Option<nat>, clients: seq<Client>, alive: bool)
    requires t < |b.calls| && e < |b.heap| && b.calls[t].op == Get && !(prev.Some? && alive)
    ensures Next(With(b, t, e, Entry(x, prev, Some(t)), clients, InLock(e)), t, alive) ==
            With(b, t, e, Entry(x, None, Some(t)), Closed(clients, prev), MustDial(e))
  {
  }

  lemma Dials(b: State, t: nat, e: nat, x: string, clients: seq<Client>, ok: bool)
    requires t < |b.calls| && e < |b.heap| && b.calls[t].server == x
    ensures Next(With(b, t, e, Entry(x, None, Some(t)), clients, MustDial(e)), t, ok) ==
            if ok then With(b, t, e, Entry(x, None, Some(t)), clients + [Client(x, true)], Dialed(e, |clients|))
            else With(b, t, e, Entry(x, None, None), clients, Finished)
  {
  }

  lemma Keeps(b: State, t: nat, e: nat, x: string, clients: seq<Client>, ok: bool)
    requires t < |b.calls| && e < |b.heap|
    ensures Next(With(b, t, e, Entry(x, None, Some(t)), clients + [Client(x, true)], Dialed(e, |clients|)), t, ok) ==
            if ok then With(b, t, e, Entry(x, Some(|clients|), None), clients + [Client(x, true)], Finished)
            else With(b, t, e, Entry(x, None, None), clients + [Client(x, false)], Finished)
  {
    var c := |clients|;
    assert (clients + [Client(x, true)])[c := Client(x, false)] == clients + [Client(x, false)];
  }

  lemma DialAlone(b: State, t: nat, e: nat, x: string, clients: seq<Client>, dials: bool, sftp: bool)
    requires t < |b.calls| && e < |b.heap| && b.calls[t].server == x
    ensures Drive(With(b, t, e, Entry(x, None, Some(t)), clients, MustDial(e)), t, [dials] + [sftp]) ==
            if !dials then With(b, t, e, Entry(x, None, None), clients, Finished)
            else if !sftp then With(b, t, e, Entry(x, None, None), clients + [Client(x, false)], Finished)
            else With(b, t, e, Entry(x, Some(|clients|), None), clients + [Client(x, true)], Finished)
  {
    var s := With(b, t, e, Entry(x, None, Some(t)), clients, MustDial(e));
    DriveFirst(s, t, dials, [sftp]);
    Dials(b, t, e, x, clients, dials);
    if dials {
      var u := With(b, t, e, Entry(x, None, Some(t)), clients + [Client(x, true)], Dialed(e, |clients|));
      assert [sftp] + [] == [sftp];
      DriveFirst(u, t, sftp, []);
      Keeps(b, t, e, x, clients, sftp);
    } else {
      DriveFinished(With(b, t, e, Entry(x, None, None), clients, Finished), t, [sftp]);
    }
  }

  /** What a `get` with an entry in hand makes of it when nobody comes between: a connection
      that is alive is reused, with none opened or closed; else the old one is closed, and
      the entry keeps the new one exactly when both the dial and SFTP work. */
  function Gotten(b: State, t: nat, e: nat, x: string, prev: Option<nat>, alive: bool, dials: bool, sftp: bool): State
    requires t < |b.calls| && e < |b.heap|
  {
    var closed := Closed(b.clients, prev);
    if prev.Some? && alive then With(b, t, e, Entry(x, prev, None), b.clients, Finished)
    else if !dials then With(b, t, e, Entry(x, None, None), closed, Finished)
    else if !sftp then With(b, t, e, Entry(x, None, None), closed + [Client(x, false)], Finished)
    else With(b, t, e, Entry(x, Some(|closed|), None), closed + [Client(x, true)], Finished)
  }

  lemma EntryAlone(b: State, t: nat, e: nat, x: string, prev: Option<nat>, alive: bool, dials: bool, sftp: bool)
    requires t < |b.calls| && e < |b.heap| && b.calls[t].op == Get && b.calls[t].server == x
    ensures Drive(With(b, t, e, Entry(x, prev, None), b.clients, HasEntry(e)), t, [true] + ([alive] + ([dials] + [sftp]))) ==
            Gotten(b, t, e, x, prev, alive, dials, sftp)
  {
    var s := With(b, t, e, Entry(x, prev, None), b.clients, HasEntry(e));
    var u := With(b, t, e, Entry(x, prev, Some(t)), b.clients, InLock(e));
    DriveFirst(s, t, true, [alive] + ([dials] + [sftp]));
    TakesLock(b, t, e, x, prev, b.clients, true);
    DriveFirst(u, t, alive, [dials] + [sftp]);
    if prev.Some? && alive {
      FindsAlive(b, t, e, x, prev.value, b.clients);
      DriveFinished(With(b, t, e, Entry(x, prev, None), b.clients, Finished), t, [dials] + [sftp]);
    } else {
      ClosesOld(b, t, e, x, prev, b.clients, alive);
      DialAlone(b, t, e, x, Closed(b.clients, prev), dials, sftp);
    }
  }

  /** A `get` that is left alone: it works on the server's entry, which it makes if there
      is none, and leaves all else as it is. */
  lemma GetAlone(s: State, t: nat, x: string, alive: bool, dials: bool, sftp: bool)
    requires t < |s.calls| && s.calls[t] == Call(Get, x, Start)
    requires x in s.entries ==> s.entries[x] < |s.heap| && s.heap[s.entries[x]].server == x && s.heap[s.entries[x]].holder.None?
    ensures var u := Drive(s, t, [true] + ([true] + ([alive] + ([dials] + [sftp]))));
            if x in s.entries then u == Gotten(s, t, s.entries[x], x, s.heap[s.entries[x]].client, alive, dials, sftp)
            else u == Gotten(s.(entries := s.entries[x := |s.heap|], heap := s.heap + [Entry(x, None, None)]),
                             t, |s.heap|, x, None, alive, dials, sftp)
  {
    DriveFirst(s, t, true, [true] + ([alive] + ([dials] + [sftp])));
    if x in s.entries {
      var e := s.entries[x];
      assert s.heap[e := Entry(x, s.heap[e].client, None)] == s.heap;
      assert Next(s, t, true) == With(s, t, e, Entry(x, s.heap[e].client, None), s.clients, HasEntry(e));
      EntryAlone(s, t, e, x, s.heap[e].client, alive, dials, sftp);
    } else {
      var b := s.(entries := s.entries[x := |s.heap|], heap := s.heap + [Entry(x, None, None)]);
      assert b.heap[|s.heap| := Entry(x, None, None)] == b.heap;
      assert Next(s, t, true) == With(b, t, |s.heap|, Entry(x, None, None), b.clients, HasEntry(|s.heap|));
      EntryAlone(b, t, |s.heap|, x, None, alive, dials, sftp);
    }
  }

  /** An `invalidate` left alone takes the entry from the map and closes its connection. */
  lemma InvalidateAlone(s: State, t: nat, x: string)
    requires t < |s.calls| && s.calls[t] == Call(Invalidate, x, Start)
    requires x in s.entries ==> s.entries[x] < |s.heap| && s.heap[s.entries[x]].server == x && s.heap[s.entries[x]].holder.None?
    ensures var u := Drive(s, t, [true] + ([true] + [true]));
            if x in s.entries then
              u == With(s.(entries := s.entries - {x}), t, s.entries[x], Entry(x, None, None),
                        Closed(s.clients, s.heap[s.entries[x]].client), Finished)
            else u == s.(calls := s.calls[t := Call(Invalidate, x, Finished)])
  {
    DriveFirst(s, t, true, [true] + [true]);
    if x in s.entries {
      var e := s.entries[x];
      var b, prev := s.(entries := s.entries - {x}), s.heap[e].client;
      assert s.heap[e := Entry(x, prev, None)] == s.heap;
      var u := With(b, t, e, Entry(x, prev, None), b.clients, HasEntry(e));
      assert Next(s, t, true) == u;
      DriveFirst(u, t, true, [true]);
      TakesLock(b, t, e, x, prev, b.clients, true);
      var v := With(b, t, e, Entry(x, prev, Some(t)), b.clients, InLock(e));
      assert [true] + [] == [true];
      DriveFirst(v, t, true, []);
      ClosesTaken(b, t, e, x, prev);
    } else {
      DriveFinished(Next(s, t, true), t, [true] + [true]);
    }
  }

  lemma ClosesTaken(b: State, t: nat, e: nat, x: string, prev: Option<nat>)
    requires t < |b.calls| && e < |b.heap| && b.calls[t].op == Invalidate
    ensures Next(With(b, t, e, Entry(x, prev, Some(t)), b.clients, InLock(e)), t, true) ==
            With(b, t, e, Entry(x, None, None), Closed(b.clients, prev), Finished)
  {
  }
}
