/** `ExecuteIssue`: the SSL worker, and its audit events with their fixed `from`. */
module IssueService {
  import opened Calls
  import opened Lifecycle
  import opened Text
  import P = SiteProtocol
  import A = DeployAlone

  datatype Failure = AcquireFailed | SiteUnread | ServerUnread | InvalidTransition | Unwritten | NotIssued(message: string)

  /** What each call of one run returns. */
  datatype World = World(lock: Lock, released: bool, siteFound: bool, serverFound: bool,
                         cert: Option<string>, write: Write, audited: bool)

  const LOCK_PREFIX := "lock:site:ssl-issue:"

  function Outcome(w: World): Status {
    if w.cert.Some? then SslPending else Deployed
  }

  /** The status the event names as the one before: not the one that was. */
  function NamedFrom(w: World): Status {
    if w.cert.Some? then Deployed else SslPending
  }

  predicate Admitted(w: World, status: Status) {
    w.siteFound && w.serverFound && EnsureSiteTransition(status, Outcome(w))
  }

  function StatusAfter(w: World, status: Status): Status {
    if !Admitted(w, status) || w.write == WriteFailed then status else Outcome(w)
  }

  function AuditAfter(w: World, status: Status, audit: seq<Event>): seq<Event> {
    if Admitted(w, status) && w.write == Written && w.audited then audit + [Event(NamedFrom(w), Outcome(w))]
    else audit
  }

  /** What a run that holds its lock comes to, said of the calls alone: it needs the site,
      its server and a status from which the outcome may be stored; then the outcome is
      stored and an event written that names a fixed status before it. */
  predicate ComesTo(w: World, hasAudit: bool, status: Status, audit: seq<Event>,
                    status': Status, audit': seq<Event>, err: Option<Failure>) {
    if !w.siteFound || !w.serverFound || status !in {Deploying, SslPending, Deployed} || w.write == WriteFailed then
      err.Some? && status' == status && audit' == audit
    else
      && status' == (if w.cert.None? then Deployed else SslPending)
      && (w.write == WriteLost ==> err.Some? && audit' == audit)
      && (w.write == Written ==>
            && err == (if w.cert.None? then None else Some(NotIssued(w.cert.value)))
            && audit' == audit + if !hasAudit || !w.audited then []
                                 else if w.cert.None? then [Event(SslPending, Deployed)] else [Event(Deployed, SslPending)])
  }

  class Service {
    const hasLock: bool
    const hasAudit: bool
    var status: Status
    var audit: seq<Event>
    var keys: set<string>

    constructor (lock: bool, audited: bool, row: Status)
      ensures hasLock == lock && hasAudit == audited && status == row && audit == [] && keys == {}
    {
      hasLock, hasAudit, status, audit, keys := lock, audited, row, [], {};
    }

    method WriteAudit(from: Status, to: Status, works: bool)
      modifies this`audit
      ensures audit == if hasAudit && works then Audited(old(audit), from, to) else old(audit)
    {
      if hasAudit && from != to && works {
        audit := audit + [Event(from, to)];
      }
    }

    /** The run under the lock. */
    method Issue(w: World) returns (err: Option<Failure>)
      modifies this`status, this`audit
      ensures status == StatusAfter(w, old(status))
      ensures audit == if hasAudit then AuditAfter(w, old(status), old(audit)) else old(audit)
      ensures err.None? <==> Admitted(w, old(status)) && w.write == Written && w.cert.None?
      ensures ComesTo(w, hasAudit, old(status), old(audit), status, audit, err)
    {
      DeployEdges(status);
      if !w.siteFound {
        return Some(SiteUnread);
      }
      if !w.serverFound {
        return Some(ServerUnread);
      }
      if w.cert.Some? {
        if !EnsureSiteTransition(status, SslPending) {
          return Some(InvalidTransition);
        }
        if w.write != WriteFailed {
          status := SslPending;
        }
        if w.write != Written {
          return Some(Unwritten);
        }
        WriteAudit(Deployed, SslPending, w.audited);
        return Some(NotIssued(w.cert.value));
      }
      if !EnsureSiteTransition(status, Deployed) {
        return Some(InvalidTransition);
      }
      if w.write != WriteFailed {
        status := Deployed;
      }
      if w.write != Written {
        return Some(Unwritten);
      }
      WriteAudit(SslPending, Deployed, w.audited);
      return None;
    }

    method ExecuteIssue(payload: string, w: World) returns (err: Option<Failure>)
      modifies this
      ensures var key := LOCK_PREFIX + TrimSpace(payload);
              if hasLock && w.lock == LockSet && key in old(keys) then
                err.None? && keys == old(keys) && status == old(status) && audit == old(audit)
              else if hasLock && w.lock != LockSet then
                && err == Some(AcquireFailed) && keys == old(keys) + (if w.lock == LockLost then {key} else {})
                && status == old(status) && audit == old(audit)
              else
                && status == StatusAfter(w, old(status))
                && audit == (if hasAudit then AuditAfter(w, old(status), old(audit)) else old(audit))
                && (err.None? <==> Admitted(w, old(status)) && w.write == Written && w.cert.None?)
                && keys == old(keys) + (if hasLock && !w.released then {key} else {})
                && ComesTo(w, hasAudit, old(status), old(audit), status, audit, err)
    {
      var siteID := TrimSpace(payload);
      var key := LOCK_PREFIX + siteID;
      if hasLock {
        if w.lock == LockLost {
          keys := keys + {key};
        }
        if w.lock != LockSet {
          return Some(AcquireFailed);
        }
        if key in keys {
          return None;
        }
        keys := keys + {key};
      }
      err := Issue(w);
      if hasLock && w.released {
        keys := keys - {key};
      }
    }
  }

  /** An event of a run keeps the log in step with the row exactly when the row was in
      the status the code names: `ssl_pending` before a certificate came, `deployed`
      before a request failed. A retry that fails again, or a run that meets the site
      in `deploying`, writes an event that does not fit. */
  lemma NamedFromFits(w: World, status: Status, audit: seq<Event>, first: Status)
    requires Chain(first, audit, status)
    requires Admitted(w, status) && w.write == Written && w.audited
    ensures Chain(first, AuditAfter(w, status, audit), StatusAfter(w, status)) <==>
            status == if w.cert.None? then SslPending else Deployed
  {
    assert (audit + [Event(NamedFrom(w), Outcome(w))])[..|audit|] == audit;
    ChainEnds(first, audit, status, NamedFrom(w));
  }

  /** The choices by which the protocol follows a world, from the write on, ... */
  function FromReady(w: World): seq<P.Choice> {
    [A.WriteChoice(w.write)] + ((if w.write == Written then [A.If(w.audited)] else []) + [A.If(w.released)])
  }

  /** ... from holding the lock on. */
  function FromLocked(w: World, status: Status): seq<P.Choice> {
    [A.If(w.siteFound)] +
    if !w.siteFound then [A.If(w.released)]
    else [if w.serverFound then P.Ends(Outcome(w)) else P.Fail] +
         if Admitted(w, status) then FromReady(w) else [A.If(w.released)]
  }

  lemma Leaves(s: P.State, i: nat, released: bool)
    requires i < |s.workers| && s.workers[i].kind == P.Issue && s.workers[i].pc == P.Leaving
    ensures A.Ends(A.Drive(s, i, [A.If(released)]), i, s.status, s.audit, A.Freed(s.keys, P.Issue, released))
  {
    assert [A.If(released)] + [] == [A.If(released)];
    A.DriveFirst(s, i, A.If(released), []);
  }

  lemma WriteAlone(s: P.State, i: nat, w: World, local: Status)
    requires i < |s.workers| && s.workers[i].kind == P.Issue && s.workers[i].pc == P.ReadyFinal(local, Outcome(w))
    ensures A.Ends(A.Drive(s, i, FromReady(w)), i,
                 if w.write == WriteFailed then s.status else Outcome(w),
                 if w.write == Written && w.audited then s.audit + [Event(NamedFrom(w), Outcome(w))] else s.audit,
                 A.Freed(s.keys, P.Issue, w.released))
  {
    var t := A.Stepped(s, i, A.WriteChoice(w.write));
    if w.write == Written {
      A.DriveFirst(s, i, A.WriteChoice(w.write), [A.If(w.audited)] + [A.If(w.released)]);
      AuditAlone(t, i, w, local);
    } else {
      assert [] + [A.If(w.released)] == [A.If(w.released)];
      A.DriveFirst(s, i, A.WriteChoice(w.write), [A.If(w.released)]);
      Leaves(t, i, w.released);
    }
  }

  lemma AuditAlone(t: P.State, i: nat, w: World, local: Status)
    requires i < |t.workers| && t.workers[i].kind == P.Issue && t.workers[i].pc == P.AuditFinal(local, Outcome(w))
    ensures A.Ends(A.Drive(t, i, [A.If(w.audited)] + [A.If(w.released)]), i, t.status,
                   if w.audited then t.audit + [Event(NamedFrom(w), Outcome(w))] else t.audit,
                   A.Freed(t.keys, P.Issue, w.released))
  {
    A.DriveFirst(t, i, A.If(w.audited), [A.If(w.released)]);
    Leaves(A.Stepped(t, i, A.If(w.audited)), i, w.released);
  }

  /** From the moment an SSL issue has its lock. */
  lemma LockedAlone(s: P.State, i: nat, w: World)
    requires i < |s.workers| && s.workers[i].kind == P.Issue && s.workers[i].pc == P.Locked
    ensures A.Ends(A.Drive(s, i, FromLocked(w, s.status)), i,
                   StatusAfter(w, s.status), AuditAfter(w, s.status, s.audit), A.Freed(s.keys, P.Issue, w.released))
  {
    var t := A.Stepped(s, i, A.If(w.siteFound));
    if !w.siteFound {
      A.DriveFirst(s, i, A.If(w.siteFound), [A.If(w.released)]);
      Leaves(t, i, w.released);
    } else {
      var c := if w.serverFound then P.Ends(Outcome(w)) else P.Fail;
      var rest := if Admitted(w, s.status) then FromReady(w) else [A.If(w.released)];
      A.DriveFirst(s, i, A.If(w.siteFound), [c] + rest);
      A.DriveFirst(t, i, c, rest);
      var u := A.Stepped(t, i, c);
      if Admitted(w, s.status) {
        WriteAlone(u, i, w, s.status);
      } else {
        Leaves(u, i, w.released);
      }
    }
  }

  /** ... and from the start. */
  function FromIdle(w: World, status: Status): seq<P.Choice> {
    [A.LockChoice(w.lock)] + if w.lock == LockSet then FromLocked(w, status) else []
  }

  /** Whatever the world, the protocol's SSL worker left alone ends as the method's
      specification says, key included. */
  lemma AloneIsExecuteIssue(s: P.State, i: nat, w: World)
    requires i < |s.workers| && s.workers[i].kind == P.Issue && s.workers[i].pc == P.Idle
    ensures var t := A.Drive(s, i, FromIdle(w, s.status));
            var taken := s.keys[P.Issue := s.clock + 600];
            if w.lock == LockSet && P.KeyLive(s, P.Issue) then A.Ends(t, i, s.status, s.audit, s.keys)
            else if w.lock != LockSet then
              A.Ends(t, i, s.status, s.audit, if w.lock == LockLost && !P.KeyLive(s, P.Issue) then taken else s.keys)
            else
              A.Ends(t, i, StatusAfter(w, s.status), AuditAfter(w, s.status, s.audit), A.Freed(taken, P.Issue, w.released))
  {
    var rest := if w.lock == LockSet then FromLocked(w, s.status) else [];
    A.DriveFirst(s, i, A.LockChoice(w.lock), rest);
    var t := A.Stepped(s, i, A.LockChoice(w.lock));
    if w.lock == LockSet && !P.KeyLive(s, P.Issue) {
      LockedAlone(t, i, w);
    } else {
      A.DriveDone(t, i, rest);
    }
  }
}
