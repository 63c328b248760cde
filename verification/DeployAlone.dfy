/** The protocol's deploy worker, left alone, does to the row, the log and the lock what
    `ExecuteDeploy` does. */
module DeployAlone {
  import opened Calls
  import opened Lifecycle
  import opened Text
  import P = SiteProtocol
  import D = DeployService

  /** Worker `i` taking one step after another. */
  function Drive(s: P.State, i: nat, choices: seq<P.Choice>): (t: P.State)
    requires i < |s.workers|
    ensures |t.workers| == |s.workers|
    decreases |choices|
  {
    if choices == [] then s else Drive(Stepped(s, i, choices[0]), i, choices[1..])
  }

  function Stepped(s: P.State, i: nat, c: P.Choice): (t: P.State)
    requires i < |s.workers|
    ensures |t.workers| == |s.workers|
  {
    P.WorkerStep(s, i, c)
  }

  function WriteChoice(w: Write): P.Choice {
    match w
    case Written => P.Ok
    case WriteFailed => P.Fail
    case WriteLost => P.Lost
  }

  function If(b: bool): P.Choice { if b then P.Ok else P.Fail }

  /** The choices by which the protocol follows a world, from the final write on, ... */
  function FromFinal(w: D.World): seq<P.Choice> {
    [WriteChoice(w.final)] + (if w.final == Written then [If(w.finalAudited)] else []) + [If(w.released)]
  }

  /** ... from the start write on, ... */
  function FromStart(w: D.World): seq<P.Choice> {
    [WriteChoice(w.start)] +
    if w.start == Written then [If(w.startAudited)] + ([P.Ends(D.Outcome(w))] + FromFinal(w)) else [If(w.released)]
  }

  function Ready(w: D.World): bool {
    w.server == Some(ReadyForDeploy) || w.server == Some(Deployed)
  }

  /** ... from holding the lock on. */
  function FromLocked(w: D.World, status: Status): seq<P.Choice> {
    [If(w.siteFound)] +
    if !w.siteFound then [If(w.released)]
    else [If(Ready(w))] +
         if D.Admitted(w, status) then FromStart(w) else [If(w.released)]
  }

  lemma DriveFirst(s: P.State, i: nat, c: P.Choice, choices: seq<P.Choice>)
    requires i < |s.workers|
    ensures Drive(s, i, [c] + choices) == Drive(Stepped(s, i, c), i, choices)
  {
    assert ([c] + choices)[1..] == choices;
  }

  lemma Leaves(s: P.State, i: nat, released: bool)
    requires i < |s.workers| && s.workers[i].kind == P.Deploy && s.workers[i].pc == P.Leaving
    ensures Drive(s, i, [If(released)]) ==
            P.Goto(s.(keys := Freed(s.keys, P.Deploy, released)), i, P.Done)
  {
    assert [If(released)] + [] == [If(released)];
    DriveFirst(s, i, If(released), []);
  }

  /** The end of a run: the row, the log, the keys, and the worker done. */
  predicate Ends(t: P.State, i: nat, status: Status, audit: seq<Event>, keys: map<P.Kind, nat>) {
    i < |t.workers| && t.status == status && t.audit == audit && t.keys == keys && t.workers[i].pc == P.Done
  }

  /** The keys after a worker's release, which may fail. */
  function Freed(keys: map<P.Kind, nat>, k: P.Kind, released: bool): map<P.Kind, nat> {
    if released then keys - {k} else keys
  }

  lemma FinalAlone(s: P.State, i: nat, w: D.World)
    requires i < |s.workers| && s.workers[i].kind == P.Deploy
    requires s.workers[i].pc == P.ReadyFinal(Deploying, D.Outcome(w)) && s.status == Deploying
    ensures Ends(Drive(s, i, FromFinal(w)), i,
                 if w.final == WriteFailed then Deploying else D.Outcome(w),
                 if w.final == Written && w.finalAudited then Audited(s.audit, Deploying, D.Outcome(w)) else s.audit,
                 Freed(s.keys, P.Deploy, w.released))
  {
    var t := Stepped(s, i, WriteChoice(w.final));
    if w.final == Written {
      Assoc([WriteChoice(w.final)], [If(w.finalAudited)], [If(w.released)]);
      DriveFirst(s, i, WriteChoice(w.final), [If(w.finalAudited)] + [If(w.released)]);
      DriveFirst(t, i, If(w.finalAudited), [If(w.released)]);
      Leaves(Stepped(t, i, If(w.finalAudited)), i, w.released);
    } else {
      assert FromFinal(w) == [WriteChoice(w.final)] + [If(w.released)];
      DriveFirst(s, i, WriteChoice(w.final), [If(w.released)]);
      Leaves(t, i, w.released);
    }
  }

  lemma RunAlone(s: P.State, i: nat, w: D.World)
    requires i < |s.workers| && s.workers[i].kind == P.Deploy
    requires s.workers[i].pc == P.Running && s.status == Deploying
    ensures Ends(Drive(s, i, [P.Ends(D.Outcome(w))] + FromFinal(w)), i,
                 if w.final == WriteFailed then Deploying else D.Outcome(w),
                 if w.final == Written && w.finalAudited then Audited(s.audit, Deploying, D.Outcome(w)) else s.audit,
                 Freed(s.keys, P.Deploy, w.released))
  {
    DriveFirst(s, i, P.Ends(D.Outcome(w)), FromFinal(w));
    P.RunEnds(s, i, D.Outcome(w));
    FinalAlone(Stepped(s, i, P.Ends(D.Outcome(w))), i, w);
  }

  lemma StartSteps(s: P.State, i: nat, audited: bool)
    requires i < |s.workers| && s.workers[i].kind == P.Deploy && s.workers[i].pc == P.ReadyStart(s.status)
    ensures var u := Stepped(Stepped(s, i, P.Ok), i, If(audited));
            && u.status == Deploying
            && u.audit == (if audited then Audited(s.audit, s.status, Deploying) else s.audit)
            && u.workers[i].kind == P.Deploy && u.workers[i].pc == P.Running && u.keys == s.keys
  {
  }

  lemma StartGoes(s: P.State, i: nat, w: D.World)
    requires i < |s.workers| && s.workers[i].kind == P.Deploy && s.workers[i].pc == P.ReadyStart(s.status)
    requires w.start == Written
    ensures var started := if w.startAudited then Audited(s.audit, s.status, Deploying) else s.audit;
            Ends(Drive(s, i, FromStart(w)), i, if w.final == WriteFailed then Deploying else D.Outcome(w),
                 if w.final == Written && w.finalAudited then Audited(started, Deploying, D.Outcome(w)) else started,
                 Freed(s.keys, P.Deploy, w.released))
  {
    var t := Stepped(s, i, P.Ok);
    var rest := [P.Ends(D.Outcome(w))] + FromFinal(w);
    DriveFirst(s, i, P.Ok, [If(w.startAudited)] + rest);
    DriveFirst(t, i, If(w.startAudited), rest);
    StartSteps(s, i, w.startAudited);
    RunAlone(Stepped(t, i, If(w.startAudited)), i, w);
  }

  lemma StartStops(s: P.State, i: nat, w: D.World)
    requires i < |s.workers| && s.workers[i].kind == P.Deploy && s.workers[i].pc == P.ReadyStart(s.status)
    requires w.start != Written
    ensures Ends(Drive(s, i, FromStart(w)), i, if w.start == WriteLost then Deploying else s.status, s.audit,
                 Freed(s.keys, P.Deploy, w.released))
  {
    DriveFirst(s, i, WriteChoice(w.start), [If(w.released)]);
    Leaves(Stepped(s, i, WriteChoice(w.start)), i, w.released);
  }

  lemma StartAlone(s: P.State, i: nat, w: D.World)
    requires i < |s.workers| && s.workers[i].kind == P.Deploy && s.workers[i].pc == P.ReadyStart(s.status)
    requires D.Admitted(w, s.status)
    ensures Ends(Drive(s, i, FromStart(w)), i, D.StatusAfter(w, s.status), D.AuditAfter(w, s.status, s.audit),
                 Freed(s.keys, P.Deploy, w.released))
  {
    if w.start == Written {
      StartGoes(s, i, w);
    } else {
      StartStops(s, i, w);
    }
  }

  /** From the moment a deploy has its lock. */
  lemma LockedAlone(s: P.State, i: nat, w: D.World)
    requires i < |s.workers| && s.workers[i].kind == P.Deploy && s.workers[i].pc == P.Locked
    ensures Ends(Drive(s, i, FromLocked(w, s.status)), i,
                 D.StatusAfter(w, s.status), D.AuditAfter(w, s.status, s.audit),
                 Freed(s.keys, P.Deploy, w.released))
  {
    var t := Stepped(s, i, If(w.siteFound));
    if !w.siteFound {
      DriveFirst(s, i, If(w.siteFound), [If(w.released)]);
      Leaves(t, i, w.released);
    } else {
      var rest := if D.Admitted(w, s.status) then FromStart(w) else [If(w.released)];
      DriveFirst(s, i, If(w.siteFound), [If(Ready(w))] + rest);
      DriveFirst(t, i, If(Ready(w)), rest);
      var u := Stepped(t, i, If(Ready(w)));
      if D.Admitted(w, s.status) {
        StartAlone(u, i, w);
      } else {
        Leaves(u, i, w.released);
      }
    }
  }

  function LockChoice(l: Lock): P.Choice {
    match l
    case LockSet => P.Ok
    case LockError => P.Fail
    case LockLost => P.Lost
  }

  /** ... and from the start. */
  function FromIdle(w: D.World, status: Status): seq<P.Choice> {
    [LockChoice(w.lock)] + if w.lock == LockSet then FromLocked(w, status) else []
  }

  lemma DriveDone(s: P.State, i: nat, choices: seq<P.Choice>)
    requires i < |s.workers| && s.workers[i].pc == P.Done
    ensures Drive(s, i, choices) == s
    decreases |choices|
  {
    if choices != [] {
      DriveDone(s, i, choices[1..]);
    }
  }

  /** Whatever the world, a deploy left alone ends as the method's specification says: a
      live key is a silent end, an error of the lock leaves at most the key behind, and
      otherwise the row, the audit log and the keys end as after the run and its release. */
  lemma AloneIsExecuteDeploy(s: P.State, i: nat, w: D.World)
    requires i < |s.workers| && s.workers[i].kind == P.Deploy && s.workers[i].pc == P.Idle
    ensures var t := Drive(s, i, FromIdle(w, s.status));
            var taken := s.keys[P.Deploy := s.clock + 900];
            if w.lock == LockSet && P.KeyLive(s, P.Deploy) then Ends(t, i, s.status, s.audit, s.keys)
            else if w.lock != LockSet then
              Ends(t, i, s.status, s.audit, if w.lock == LockLost && !P.KeyLive(s, P.Deploy) then taken else s.keys)
            else
              Ends(t, i, D.StatusAfter(w, s.status), D.AuditAfter(w, s.status, s.audit), Freed(taken, P.Deploy, w.released))
  {
    var rest := if w.lock == LockSet then FromLocked(w, s.status) else [];
    DriveFirst(s, i, LockChoice(w.lock), rest);
    var t := Stepped(s, i, LockChoice(w.lock));
    if w.lock == LockSet && !P.KeyLive(s, P.Deploy) {
      LockedAlone(t, i, w);
    } else {
      DriveDone(t, i, rest);
    }
  }
}
