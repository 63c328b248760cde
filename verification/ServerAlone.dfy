/** The protocol's connection test and provisioning run, left alone, do to the row, the log
    and the lock what `Connect` and `ExecuteProvision` do. */
module ServerAlone {
  import opened Calls
  import opened Lifecycle
  import opened Text
  import P = SiteProtocol
  import A = DeployAlone
  import Q = ServerProtocol
  import R = ServerRuns

  /** Worker `i` taking one step after another. */
  function Drive(s: Q.State, i: nat, choices: seq<P.Choice>): (t: Q.State)
    requires i < |s.workers|
    ensures |t.workers| == |s.workers|
    decreases |choices|
  {
    if choices == [] then s else Drive(Stepped(s, i, choices[0]), i, choices[1..])
  }

  function Stepped(s: Q.State, i: nat, c: P.Choice): (t: Q.State)
    requires i < |s.workers|
    ensures |t.workers| == |s.workers|
  {
    Q.WorkerStep(s, i, c)
  }

  lemma DriveFirst(s: Q.State, i: nat, c: P.Choice, choices: seq<P.Choice>)
    requires i < |s.workers|
    ensures Drive(s, i, [c] + choices) == Drive(Stepped(s, i, c), i, choices)
  {
    assert ([c] + choices)[1..] == choices;
  }

  lemma DriveDone(s: Q.State, i: nat, choices: seq<P.Choice>)
    requires i < |s.workers| && s.workers[i].pc == Q.Done
    ensures Drive(s, i, choices) == s
    decreases |choices|
  {
    if choices != [] {
      DriveDone(s, i, choices[1..]);
    }
  }

  /** The end of a run: the row, the log, the key, and the worker done. */
  predicate Ends(t: Q.State, i: nat, status: Status, audit: seq<Event>, key: Option<nat>) {
    i < |t.workers| && t.status == status && t.audit == audit && t.key == key && t.workers[i].pc == Q.Done
  }

  // ---- Connection tests ----

  /** The choices by which the protocol follows a connection test, from its write on, ... */
  function TestWrites(w: R.ConnectWorld): seq<P.Choice> {
    [A.WriteChoice(w.write)] + if w.write == Written then [A.If(w.audited)] else []
  }

  /** ... and from the start. */
  function TestFromIdle(w: R.ConnectWorld, status: Status): seq<P.Choice> {
    [A.If(w.found)] +
    if !w.found then []
    else [P.Ends(R.ConnectTo(w))] +
         if EnsureServerTransition(status, R.ConnectTo(w)) then TestWrites(w) else []
  }

  lemma TestWritesAlone(s: Q.State, i: nat, w: R.ConnectWorld)
    requires i < |s.workers| && s.workers[i].kind == Q.Connect
    requires s.workers[i].pc == Q.ReadyFinal(s.status, R.ConnectTo(w))
    ensures Ends(Drive(s, i, TestWrites(w)), i,
                 if w.write == WriteFailed then s.status else R.ConnectTo(w),
                 if w.write == Written && w.audited then Audited(s.audit, s.status, R.ConnectTo(w)) else s.audit, s.key)
  {
    var t := Stepped(s, i, A.WriteChoice(w.write));
    if w.write == Written {
      DriveFirst(s, i, P.Ok, [A.If(w.audited)]);
      assert [A.If(w.audited)] + [] == [A.If(w.audited)];
      DriveFirst(t, i, A.If(w.audited), []);
    } else {
      assert TestWrites(w) == [A.WriteChoice(w.write)] + [];
      DriveFirst(s, i, A.WriteChoice(w.write), []);
    }
  }

  lemma EventsAre(audit: seq<Event>, from: Status, to: Status)
    ensures Audited(audit, from, to) == audit + Audited([], from, to)
    ensures audit + [] == audit
  {
  }

  /** Whatever the world, a connection test left alone ends as `Connect` does. */
  lemma AloneIsConnect(s: Q.State, i: nat, w: R.ConnectWorld)
    requires i < |s.workers| && s.workers[i].kind == Q.Connect && s.workers[i].pc == Q.Idle
    ensures Ends(Drive(s, i, TestFromIdle(w, s.status)), i, R.Last(s.status, R.ConnectWrites(w, s.status)),
                 s.audit + R.ConnectEvents(w, s.status), s.key)
  {
    var t := Stepped(s, i, A.If(w.found));
    EventsAre(s.audit, s.status, R.ConnectTo(w));
    if !w.found {
      DriveFirst(s, i, P.Fail, []);
    } else {
      var rest := if EnsureServerTransition(s.status, R.ConnectTo(w)) then TestWrites(w) else [];
      DriveFirst(s, i, P.Ok, [P.Ends(R.ConnectTo(w))] + rest);
      DriveFirst(t, i, P.Ends(R.ConnectTo(w)), rest);
      if rest != [] {
        TestWritesAlone(Stepped(t, i, P.Ends(R.ConnectTo(w))), i, w);
      }
    }
  }

  // ---- Provisioning runs ----

  function FromFinal(w: R.ProvisionWorld): seq<P.Choice> {
    [A.WriteChoice(w.final)] + ((if w.final == Written then [A.If(w.finalAudited)] else []) + [A.If(w.released)])
  }

  function FromStart(w: R.ProvisionWorld): seq<P.Choice> {
    [A.WriteChoice(w.start)] +
    if w.start == Written then [A.If(w.startAudited)] + ([P.Ends(R.ProvisionTo(w))] + FromFinal(w)) else [A.If(w.released)]
  }

  function FromLocked(w: R.ProvisionWorld, status: Status): seq<P.Choice> {
    [A.If(w.found)] +
    if !w.found then [A.If(w.released)]
    else [P.Ok] + if EnsureServerTransition(status, Provisioning) then FromStart(w) else [A.If(w.released)]
  }

  function FromIdle(w: R.ProvisionWorld, status: Status): seq<P.Choice> {
    [A.LockChoice(w.lock)] + if w.lock == LockSet then FromLocked(w, status) else []
  }

  function Freed(key: Option<nat>, released: bool): Option<nat> {
    if released then None else key
  }

  lemma Leaves(s: Q.State, i: nat, released: bool)
    requires i < |s.workers| && s.workers[i].pc == Q.Leaving
    ensures Ends(Drive(s, i, [A.If(released)]), i, s.status, s.audit, Freed(s.key, released))
  {
    assert [A.If(released)] + [] == [A.If(released)];
    DriveFirst(s, i, A.If(released), []);
  }

  lemma FinalAlone(s: Q.State, i: nat, w: R.ProvisionWorld)
    requires i < |s.workers| && s.workers[i].kind == Q.Provision && s.status == Provisioning
    requires s.workers[i].pc == Q.ReadyFinal(Provisioning, R.ProvisionTo(w))
    ensures Ends(Drive(s, i, FromFinal(w)), i, if w.final == WriteFailed then Provisioning else R.ProvisionTo(w),
                 if w.final == Written && w.finalAudited then Audited(s.audit, Provisioning, R.ProvisionTo(w)) else s.audit,
                 Freed(s.key, w.released))
  {
    var t := Stepped(s, i, A.WriteChoice(w.final));
    if w.final == Written {
      DriveFirst(s, i, P.Ok, [A.If(w.finalAudited)] + [A.If(w.released)]);
      DriveFirst(t, i, A.If(w.finalAudited), [A.If(w.released)]);
      Leaves(Stepped(t, i, A.If(w.finalAudited)), i, w.released);
    } else {
      assert [] + [A.If(w.released)] == [A.If(w.released)];
      DriveFirst(s, i, A.WriteChoice(w.final), [A.If(w.released)]);
      Leaves(t, i, w.released);
    }
  }

  lemma RunAlone(s: Q.State, i: nat, w: R.ProvisionWorld)
    requires i < |s.workers| && s.workers[i].kind == Q.Provision && s.status == Provisioning && s.workers[i].pc == Q.Running
    ensures Ends(Drive(s, i, [P.Ends(R.ProvisionTo(w))] + FromFinal(w)), i,
                 if w.final == WriteFailed then Provisioning else R.ProvisionTo(w),
                 if w.final == Written && w.finalAudited then Audited(s.audit, Provisioning, R.ProvisionTo(w)) else s.audit,
                 Freed(s.key, w.released))
  {
    DriveFirst(s, i, P.Ends(R.ProvisionTo(w)), FromFinal(w));
    Q.EndsRun(s, i, R.ProvisionTo(w));
    FinalAlone(Stepped(s, i, P.Ends(R.ProvisionTo(w))), i, w);
  }

  lemma StartSteps(s: Q.State, i: nat, audited: bool)
    requires i < |s.workers| && s.workers[i].kind == Q.Provision && s.workers[i].pc == Q.ReadyStart(s.status)
    ensures var u := Stepped(Stepped(s, i, P.Ok), i, A.If(audited));
            && u.status == Provisioning && u.key == s.key
            && u.audit == (if audited then Audited(s.audit, s.status, Provisioning) else s.audit)
            && u.workers[i].kind == Q.Provision && u.workers[i].pc == Q.Running
  {
  }

  /** The events of a run, one after the other. */
  lemma ProvisionEventsAre(w: R.ProvisionWorld, status: Status, audit: seq<Event>)
    requires R.Starts(w, status)
    ensures var started := if w.startAudited then Audited(audit, status, Provisioning) else audit;
            (if w.final == Written && w.finalAudited then Audited(started, Provisioning, R.ProvisionTo(w)) else started) ==
            audit + R.ProvisionEvents(w, status)
  {
  }

  lemma StartGoes(s: Q.State, i: nat, w: R.ProvisionWorld)
    requires i < |s.workers| && s.workers[i].kind == Q.Provision && s.workers[i].pc == Q.ReadyStart(s.status)
    requires w.start == Written
    ensures var started := if w.startAudited then Audited(s.audit, s.status, Provisioning) else s.audit;
            Ends(Drive(s, i, FromStart(w)), i, if w.final == WriteFailed then Provisioning else R.ProvisionTo(w),
                 if w.final == Written && w.finalAudited then Audited(started, Provisioning, R.ProvisionTo(w)) else started,
                 Freed(s.key, w.released))
  {
    var t := Stepped(s, i, P.Ok);
    var rest := [P.Ends(R.ProvisionTo(w))] + FromFinal(w);
    DriveFirst(s, i, P.Ok, [A.If(w.startAudited)] + rest);
    DriveFirst(t, i, A.If(w.startAudited), rest);
    StartSteps(s, i, w.startAudited);
    RunAlone(Stepped(t, i, A.If(w.startAudited)), i, w);
  }

  lemma StartStops(s: Q.State, i: nat, w: R.ProvisionWorld)
    requires i < |s.workers| && s.workers[i].kind == Q.Provision && s.workers[i].pc == Q.ReadyStart(s.status)
    requires w.start != Written
    ensures Ends(Drive(s, i, FromStart(w)), i, if w.start == WriteLost then Provisioning else s.status, s.audit,
                 Freed(s.key, w.released))
  {
    DriveFirst(s, i, A.WriteChoice(w.start), [A.If(w.released)]);
    Leaves(Stepped(s, i, A.WriteChoice(w.start)), i, w.released);
  }

  lemma StartAlone(s: Q.State, i: nat, w: R.ProvisionWorld)
    requires i < |s.workers| && s.workers[i].kind == Q.Provision && s.workers[i].pc == Q.ReadyStart(s.status)
    requires w.found && EnsureServerTransition(s.status, Provisioning)
    ensures Ends(Drive(s, i, FromStart(w)), i, R.Last(s.status, R.ProvisionWrites(w, s.status)),
                 s.audit + R.ProvisionEvents(w, s.status), Freed(s.key, w.released))
  {
    if w.start == Written {
      StartGoes(s, i, w);
      ProvisionEventsAre(w, s.status, s.audit);
    } else {
      StartStops(s, i, w);
      assert s.audit + [] == s.audit;
    }
  }

  lemma LockedAlone(s: Q.State, i: nat, w: R.ProvisionWorld)
    requires i < |s.workers| && s.workers[i].kind == Q.Provision && s.workers[i].pc == Q.Locked
    ensures Ends(Drive(s, i, FromLocked(w, s.status)), i, R.Last(s.status, R.ProvisionWrites(w, s.status)),
                 s.audit + R.ProvisionEvents(w, s.status), Freed(s.key, w.released))
  {
    var t := Stepped(s, i, A.If(w.found));
    assert s.audit + [] == s.audit;
    if !w.found {
      DriveFirst(s, i, P.Fail, [A.If(w.released)]);
      Leaves(t, i, w.released);
    } else {
      var rest := if EnsureServerTransition(s.status, Provisioning) then FromStart(w) else [A.If(w.released)];
      DriveFirst(s, i, P.Ok, [P.Ok] + rest);
      DriveFirst(t, i, P.Ok, rest);
      if EnsureServerTransition(s.status, Provisioning) {
        StartAlone(Stepped(t, i, P.Ok), i, w);
      } else {
        Leaves(Stepped(t, i, P.Ok), i, w.released);
      }
    }
  }

  /** Whatever the world, a provisioning run left alone ends as `ExecuteProvision` does. */
  lemma AloneIsExecuteProvision(s: Q.State, i: nat, w: R.ProvisionWorld)
    requires i < |s.workers| && s.workers[i].kind == Q.Provision && s.workers[i].pc == Q.Idle
    ensures var t := Drive(s, i, FromIdle(w, s.status));
            var taken := Some(s.clock + 900);
            if w.lock == LockSet && Q.KeyLive(s) then Ends(t, i, s.status, s.audit, s.key)
            else if w.lock != LockSet then
              Ends(t, i, s.status, s.audit, if w.lock == LockLost && !Q.KeyLive(s) then taken else s.key)
            else
              Ends(t, i, R.Last(s.status, R.ProvisionWrites(w, s.status)), s.audit + R.ProvisionEvents(w, s.status),
                   Freed(taken, w.released))
  {
    var rest := if w.lock == LockSet then FromLocked(w, s.status) else [];
    DriveFirst(s, i, A.LockChoice(w.lock), rest);
    var t := Stepped(s, i, A.LockChoice(w.lock));
    if w.lock == LockSet && !Q.KeyLive(s) {
      LockedAlone(t, i, w);
    } else {
      DriveDone(t, i, rest);
    }
  }
}
