/** A server's status under connection tests and provisioning runs. */
module ServerRuns {
  import opened Calls
  import opened Lifecycle
  import opened Text

  /** What each call of a connection test returns. */
  datatype ConnectWorld = ConnectWorld(found: bool, ssh: Option<string>, write: Write, audited: bool, reread: bool)

  /** What each call of a provisioning run returns. */
  datatype ProvisionWorld = ProvisionWorld(
    lock: Lock, released: bool, found: bool, start: Write, startAudited: bool,
    script: Option<string>, final: Write, finalAudited: bool)

  datatype Failure =
    | AcquireFailed | Unread | InvalidTransition | Unwritten | NotReread
    | Unreachable(message: string) | ScriptFailed(message: string)

  // ---- What each operation stores and audits ----

  function ConnectTo(w: ConnectWorld): Status {
    if w.ssh.Some? then ConnectionFailed else Connected
  }

  /** The statuses an operation stores, in order. */
  function ConnectWrites(w: ConnectWorld, status: Status): seq<Status> {
    if w.found && EnsureServerTransition(status, ConnectTo(w)) && w.write != WriteFailed then [ConnectTo(w)] else []
  }

  function ConnectEvents(w: ConnectWorld, status: Status): seq<Event> {
    if w.found && EnsureServerTransition(status, ConnectTo(w)) && w.write == Written && w.audited
    then Audited([], status, ConnectTo(w)) else []
  }

  function ProvisionTo(w: ProvisionWorld): Status {
    if w.script.Some? then ProvisionFailed else ReadyForDeploy
  }

  predicate Starts(w: ProvisionWorld, status: Status) {
    w.found && EnsureServerTransition(status, Provisioning) && w.start == Written
  }

  function ProvisionWrites(w: ProvisionWorld, status: Status): seq<Status> {
    if Starts(w, status) then
      [Provisioning] + if w.final == WriteFailed then [] else [ProvisionTo(w)]
    else if w.found && EnsureServerTransition(status, Provisioning) && w.start == WriteLost then [Provisioning]
    else []
  }

  function ProvisionEvents(w: ProvisionWorld, status: Status): seq<Event> {
    if !Starts(w, status) then []
    else
      (if w.startAudited then Audited([], status, Provisioning) else []) +
      (if w.final == Written && w.finalAudited then Audited([], Provisioning, ProvisionTo(w)) else [])
  }

  function Last(status: Status, writes: seq<Status>): Status {
    if writes == [] then status else writes[|writes| - 1]
  }

  // ---- The same, said of the calls alone ----

  function Told(hasAudit: bool, audited: bool, from: Status, to: Status): seq<Event> {
    if hasAudit && audited && from != to then [Event(from, to)] else []
  }

  /** What a row may change by: the statuses stored and the events written. */
  datatype View = View(status: Status, stored: seq<Status>, audit: seq<Event>)

  /** A connection test comes to this: if the server cannot be read, or is in a status in
      which the test's result may not be stored, nothing changes; else the result is. */
  predicate Tested(w: ConnectWorld, hasAudit: bool, before: View, after: View, err: Option<Failure>) {
    if !w.found || before.status !in {Pending, ConnectionFailed, Connected} + (if w.ssh.Some? then {ProvisionFailed} else {})
       || w.write == WriteFailed then err.Some? && after == before
    else
      var to := if w.ssh.Some? then ConnectionFailed else Connected;
      && after.status == to && after.stored == before.stored + [to]
      && after.audit == before.audit + Told(hasAudit, w.write == Written && w.audited, before.status, to)
      && err == (if w.write == WriteLost then Some(Unwritten)
                 else if w.ssh.Some? then Some(Unreachable(w.ssh.value)) else if w.reread then None else Some(NotReread))
  }

  /** And a provisioning run that holds its lock to this: refused, or with its start not
      written, it changes nothing; a lost reply leaves `provisioning`; and otherwise it
      stores `ready_for_deploy` if and only if the script succeeds and the write works. */
  predicate Provisioned(w: ProvisionWorld, hasAudit: bool, before: View, after: View, err: Option<Failure>) {
    if !Startable(w, before.status) || w.start == WriteFailed then
      err.Some? && after == before
    else if w.start == WriteLost then
      err.Some? && after == before.(status := Provisioning, stored := before.stored + [Provisioning])
    else
      var to := if w.script.None? then ReadyForDeploy else ProvisionFailed;
      && after.status == (if w.final == WriteFailed then Provisioning else to)
      && after.stored == before.stored + [Provisioning] + (if w.final == WriteFailed then [] else [to])
      && after.audit == before.audit + Told(hasAudit, w.startAudited, before.status, Provisioning)
                        + Told(hasAudit, w.final == Written && w.finalAudited, Provisioning, to)
      && err == if w.final != Written then Some(Unwritten)
                else if w.script.None? then None else Some(ScriptFailed(w.script.value))
  }

  predicate Startable(w: ProvisionWorld, status: Status) {
    w.found && status in {Connected, Provisioning, ProvisionFailed, ReadyForDeploy}
  }

  /** The functions above say the same of a run. */
  lemma FunctionsSay(w: ProvisionWorld, hasAudit: bool, before: View, after: View, err: Option<Failure>)
    requires Provisioned(w, hasAudit, before, after, err)
    ensures after.stored == before.stored + ProvisionWrites(w, before.status)
    ensures after.status == Last(before.status, ProvisionWrites(w, before.status))
    ensures after.audit == before.audit + if hasAudit then ProvisionEvents(w, before.status) else []
    ensures err.None? <==> Starts(w, before.status) && w.script.None? && w.final == Written
  {
    ServerEdges(before.status);
    if Starts(w, before.status) {
      Assoc(before.stored, [Provisioning], if w.final == WriteFailed then [] else [ProvisionTo(w)]);
      Assoc(before.audit, Told(hasAudit, w.startAudited, before.status, Provisioning),
            Told(hasAudit, w.final == Written && w.finalAudited, Provisioning, ProvisionTo(w)));
    }
  }

  class Service {
    const hasLock: bool
    const hasAudit: bool
    var status: Status          // the stored status
    var stored: seq<Status>     // every status ever stored, the first one included
    var audit: seq<Event>
    var locked: bool            // the provisioning key is there

    constructor (lock: bool, audited: bool)
      ensures hasLock == lock && hasAudit == audited
      ensures status == Pending && stored == [Pending] && audit == [] && !locked
    {
      hasLock, hasAudit, status, stored, audit, locked := lock, audited, Pending, [Pending], [], false;
    }

    function Now(): View
      reads this
    {
      View(status, stored, audit)
    }

    method Update(to: Status, result: Write) returns (ok: bool)
      modifies this`status, this`stored
      ensures ok <==> result == Written
      ensures status == if result == WriteFailed then old(status) else to
      ensures stored == old(stored) + if result == WriteFailed then [] else [to]
    {
      if result != WriteFailed {
        status := to;
        stored := stored + [to];
      }
      ok := result == Written;
    }

    method WriteAudit(from: Status, to: Status, works: bool)
      modifies this`audit
      ensures audit == old(audit) + if hasAudit && works then Audited([], from, to) else []
    {
      if hasAudit && from != to && works {
        audit := audit + [Event(from, to)];
      }
    }

    method Connect(w: ConnectWorld) returns (err: Option<Failure>)
      modifies this`status, this`stored, this`audit
      ensures stored == old(stored) + ConnectWrites(w, old(status))
      ensures status == Last(old(status), ConnectWrites(w, old(status)))
      ensures audit == old(audit) + if hasAudit then ConnectEvents(w, old(status)) else []
      ensures err.None? <==>
                w.found && w.ssh.None? && EnsureServerTransition(old(status), Connected) && w.write == Written && w.reread
      ensures Tested(w, hasAudit, old(Now()), Now(), err)
    {
      ServerEdges(status);
      if !w.found {
        return Some(Unread);
      }
      if w.ssh.Some? {
        if !EnsureServerTransition(status, ConnectionFailed) {
          return Some(InvalidTransition);
        }
        var prev := status;
        var ok := Update(ConnectionFailed, w.write);
        if !ok {
          return Some(Unwritten);
        }
        WriteAudit(prev, ConnectionFailed, w.audited);
        return Some(Unreachable(w.ssh.value));
      }
      if !EnsureServerTransition(status, Connected) {
        return Some(InvalidTransition);
      }
      var prev := status;
      var ok := Update(Connected, w.write);
      if !ok {
        return Some(Unwritten);
      }
      WriteAudit(prev, Connected, w.audited);
      return if w.reread then None else Some(NotReread);
    }

    /** The run under the lock. */
    method Provision(w: ProvisionWorld) returns (err: Option<Failure>)
      modifies this`status, this`stored, this`audit
      ensures stored == old(stored) + ProvisionWrites(w, old(status))
      ensures status == Last(old(status), ProvisionWrites(w, old(status)))
      ensures audit == old(audit) + if hasAudit then ProvisionEvents(w, old(status)) else []
      ensures err.None? <==> Starts(w, old(status)) && w.script.None? && w.final == Written
      ensures err == Some(InvalidTransition) ==> status == old(status)
      ensures Provisioned(w, hasAudit, old(Now()), Now(), err)
    {
      err := Begin(w);
      if err.None? {
        err := Conclude(w);
      }
      FunctionsSay(w, hasAudit, old(Now()), Now(), err);
    }

    /** Up to the start write and its event. */
    method Begin(w: ProvisionWorld) returns (err: Option<Failure>)
      modifies this`status, this`stored, this`audit
      ensures if !Startable(w, old(status)) || w.start == WriteFailed then
                Now() == old(Now()) && err.Some?
              else
                && status == Provisioning && stored == old(stored) + [Provisioning]
                && audit == old(audit) + Told(hasAudit, w.start == Written && w.startAudited, old(status), Provisioning)
                && (err.None? <==> w.start == Written) && err != Some(InvalidTransition)
    {
      ServerEdges(status);
      if !w.found {
        return Some(Unread);
      }
      if !EnsureServerTransition(status, Provisioning) {
        return Some(InvalidTransition);
      }
      var prev := status;
      var ok := Update(Provisioning, w.start);
      if !ok {
        return Some(Unwritten);
      }
      WriteAudit(prev, Provisioning, w.startAudited);
      return None;
    }

    /** The script and its outcome. */
    method Conclude(w: ProvisionWorld) returns (err: Option<Failure>)
      requires status == Provisioning
      modifies this`status, this`stored, this`audit
      ensures var to := if w.script.None? then ReadyForDeploy else ProvisionFailed;
              && status == (if w.final == WriteFailed then Provisioning else to)
              && stored == old(stored) + (if w.final == WriteFailed then [] else [to])
              && audit == old(audit) + Told(hasAudit, w.final == Written && w.finalAudited, Provisioning, to)
      ensures err == if w.final != Written then Some(Unwritten)
                     else if w.script.None? then None else Some(ScriptFailed(w.script.value))
    {
      ServerEdges(Provisioning);
      if w.script.Some? {
        err := Settle(ProvisionFailed, w);
        return if err.Some? then err else Some(ScriptFailed(w.script.value));
      }
      err := Settle(ReadyForDeploy, w);
    }

    /** The block both endings share: check the transition, write the status, audit it. */
    method Settle(to: Status, w: ProvisionWorld) returns (err: Option<Failure>)
      modifies this`status, this`stored, this`audit
      ensures var passes := EnsureServerTransition(old(status), to);
              && err == (if !passes then Some(InvalidTransition) else if w.final == Written then None else Some(Unwritten))
              && status == (if passes && w.final != WriteFailed then to else old(status))
              && stored == old(stored) + (if passes && w.final != WriteFailed then [to] else [])
              && audit == old(audit) + if passes && w.final == Written && hasAudit && w.finalAudited
                                       then Audited([], old(status), to) else []
    {
      if !EnsureServerTransition(status, to) {
        return Some(InvalidTransition);
      }
      var prev := status;
      var ok := Update(to, w.final);
      if !ok {
        return Some(Unwritten);
      }
      WriteAudit(prev, to, w.finalAudited);
      return None;
    }

    method ExecuteProvision(w: ProvisionWorld) returns (err: Option<Failure>)
      modifies this
      ensures if hasLock && (w.lock != LockSet || old(locked)) then
                && stored == old(stored) && status == old(status) && audit == old(audit)
                && err == (if w.lock == LockSet then None else Some(AcquireFailed))
                && (locked <==> old(locked) || w.lock == LockLost)
              else
                && stored == old(stored) + ProvisionWrites(w, old(status))
                && status == Last(old(status), ProvisionWrites(w, old(status)))
                && audit == old(audit) + (if hasAudit then ProvisionEvents(w, old(status)) else [])
                && (err.None? <==> Starts(w, old(status)) && w.script.None? && w.final == Written)
                && (locked <==> if hasLock then !w.released else old(locked))
                && Provisioned(w, hasAudit, old(Now()), Now(), err)
    {
      if hasLock {
        if w.lock == LockLost {
          locked := true;
        }
        if w.lock != LockSet {
          return Some(AcquireFailed);
        }
        if locked {
          return None;
        }
        locked := true;
      }
      err := Provision(w);
      if hasLock && w.released {
        locked := false;
      }
    }
  }

  // ---- Runs of operations ----

  datatype Op = Connect(connect: ConnectWorld) | Provision(provision: ProvisionWorld)

  function Writes(op: Op, status: Status): seq<Status> {
    match op
    case Connect(w) => ConnectWrites(w, status)
    case Provision(w) => ProvisionWrites(w, status)
  }

  function Events(op: Op, status: Status): seq<Event> {
    match op
    case Connect(w) => ConnectEvents(w, status)
    case Provision(w) => ProvisionEvents(w, status)
  }

  /** `now` after one more operation. */
  function AfterOp(now: (seq<Status>, seq<Event>), op: Op): (r: (seq<Status>, seq<Event>))
    requires now.0 != []
    ensures r.0 != []
  {
    (now.0 + Writes(op, now.0[|now.0| - 1]), now.1 + Events(op, now.0[|now.0| - 1]))
  }

  /** The statuses ever stored and the audit log after a run of operations, one after
      another, from a new server on. */
  function Run(ops: seq<Op>): (r: (seq<Status>, seq<Event>))
    ensures r.0 != []
  {
    if ops == [] then ([Pending], []) else AfterOp(Run(ops[..|ops| - 1]), ops[|ops| - 1])
  }

  /** A status is the one before or follows it in the table; and `ready_for_deploy` comes
      right after `provisioning`. */
  predicate Follows(stored: seq<Status>, i: nat)
    requires i < |stored|
  {
    && (i > 0 ==> stored[i - 1] == stored[i] || ServerEdge(stored[i - 1], stored[i]))
    && (stored[i] == ReadyForDeploy ==> i > 0 && stored[i - 1] == Provisioning)
  }

  predicate Path(stored: seq<Status>) {
    forall i :: 0 <= i < |stored| ==> Follows(stored, i)
  }

  lemma WritesFollow(op: Op, stored: seq<Status>, i: nat)
    requires stored != [] && |stored| <= i < |stored + Writes(op, stored[|stored| - 1])|
    ensures Follows(stored + Writes(op, stored[|stored| - 1]), i)
  {
    ServerEdges(stored[|stored| - 1]);
  }

  /** In every run the statuses stored form a path of the table, and `ready_for_deploy`
      is only ever stored right after `provisioning`, though the table would allow it
      after `provision_failed` as well. */
  lemma {:induction false} RunsFollowTable(ops: seq<Op>)
    ensures Path(Run(ops).0)
  {
    if ops != [] {
      var init, op := ops[..|ops| - 1], ops[|ops| - 1];
      RunsFollowTable(init);
      OpGrows(op, Run(init).0);
    }
  }

  lemma OpGrows(op: Op, stored: seq<Status>)
    requires stored != [] && Path(stored)
    ensures Path(stored + Writes(op, stored[|stored| - 1]))
  {
    var more := Writes(op, stored[|stored| - 1]);
    forall i | |stored| <= i < |stored + more| ensures Follows(stored + more, i) {
      WritesFollow(op, stored, i);
    }
    PathGrows(stored, more);
  }

  lemma PathGrows(stored: seq<Status>, more: seq<Status>)
    requires Path(stored) && forall i :: |stored| <= i < |stored + more| ==> Follows(stored + more, i)
    ensures Path(stored + more)
  {
    forall i | 0 <= i < |stored| ensures Follows(stored + more, i) {
      assert Follows(stored, i);
    }
  }

  /** The events that tell a list of statuses apart: one for each change. */
  function Changes(stored: seq<Status>): seq<Event> {
    if |stored| < 2 then []
    else Changes(stored[..|stored| - 1]) + Audited([], stored[|stored| - 2], stored[|stored| - 1])
  }

  /** No reply of a write is lost and no audit write fails. */
  predicate Recorded(op: Op) {
    match op
    case Connect(w) => w.write != WriteLost && w.audited
    case Provision(w) => w.start != WriteLost && w.final != WriteLost && w.startAudited && w.finalAudited
  }

  lemma ChangesSnoc(stored: seq<Status>, to: Status)
    requires stored != []
    ensures Changes(stored + [to]) == Changes(stored) + Audited([], stored[|stored| - 1], to)
  {
    assert (stored + [to])[..|stored|] == stored;
  }

  lemma ConnectSteps(w: ConnectWorld, status: Status)
    requires Recorded(Connect(w))
    ensures var writes, events := ConnectWrites(w, status), ConnectEvents(w, status);
            || (writes == [] && events == [])
            || (writes == [ConnectTo(w)] && events == Audited([], status, ConnectTo(w)))
  {
  }

  lemma ConnectChanges(stored: seq<Status>, w: ConnectWorld)
    requires stored != [] && Recorded(Connect(w))
    ensures Changes(stored + ConnectWrites(w, stored[|stored| - 1])) ==
            Changes(stored) + ConnectEvents(w, stored[|stored| - 1])
  {
    var status := stored[|stored| - 1];
    ConnectSteps(w, status);
    ChangesBy(stored, ConnectWrites(w, status), ConnectEvents(w, status), ConnectTo(w), ConnectTo(w));
  }

  lemma OpChanges(stored: seq<Status>, op: Op)
    requires stored != [] && Recorded(op)
    ensures Changes(stored + Writes(op, stored[|stored| - 1])) == Changes(stored) + Events(op, stored[|stored| - 1])
  {
    match op
    case Connect(w) => ConnectChanges(stored, w);
    case Provision(w) => ProvisionChanges(stored, w);
  }

  lemma NoChange(stored: seq<Status>)
    ensures stored + [] == stored && Changes(stored) + [] == Changes(stored)
  {
  }

  lemma TwoChanges(stored: seq<Status>, a: Status, b: Status)
    requires stored != []
    ensures Changes(stored + ([a] + [b])) ==
            Changes(stored) + (Audited([], stored[|stored| - 1], a) + Audited([], a, b))
  {
    Assoc(stored, [a], [b]);
    ChangesSnoc(stored, a);
    ChangesSnoc(stored + [a], b);
    Assoc(Changes(stored), Audited([], stored[|stored| - 1], a), Audited([], a, b));
  }

  /** The three things a recorded provisioning run may store, with what it audits. */
  lemma ProvisionSteps(w: ProvisionWorld, status: Status)
    requires Recorded(Provision(w))
    ensures var writes, events := ProvisionWrites(w, status), ProvisionEvents(w, status);
            || (writes == [] && events == [])
            || (writes == [Provisioning] && events == Audited([], status, Provisioning))
            || (writes == [Provisioning] + [ProvisionTo(w)] &&
                events == Audited([], status, Provisioning) + Audited([], Provisioning, ProvisionTo(w)))
  {
  }

  lemma ChangesBy(stored: seq<Status>, writes: seq<Status>, events: seq<Event>, a: Status, b: Status)
    requires stored != []
    requires var last := stored[|stored| - 1];
             || (writes == [] && events == [])
             || (writes == [a] && events == Audited([], last, a))
             || (writes == [a] + [b] && events == Audited([], last, a) + Audited([], a, b))
    ensures Changes(stored + writes) == Changes(stored) + events
  {
    if writes == [] {
      NoChange(stored);
    } else if |writes| == 1 {
      ChangesSnoc(stored, a);
    } else {
      TwoChanges(stored, a, b);
    }
  }

  lemma ProvisionChanges(stored: seq<Status>, w: ProvisionWorld)
    requires stored != [] && Recorded(Provision(w))
    ensures Changes(stored + ProvisionWrites(w, stored[|stored| - 1])) ==
            Changes(stored) + ProvisionEvents(w, stored[|stored| - 1])
  {
    var status := stored[|stored| - 1];
    ProvisionSteps(w, status);
    ChangesBy(stored, ProvisionWrites(w, status), ProvisionEvents(w, status), Provisioning, ProvisionTo(w));
  }

  /** When every event gets written, the audit log is exactly the changes of the stored
      status, each once and in order. */
  lemma {:induction false} AuditReplaysRun(ops: seq<Op>)
    requires forall op :: op in ops ==> Recorded(op)
    ensures Run(ops).1 == Changes(Run(ops).0)
  {
    if ops != [] {
      var init := ops[..|ops| - 1];
      AuditReplaysRun(init);
      assert ops[|ops| - 1] in ops;
      OpChanges(Run(init).0, ops[|ops| - 1]);
    }
  }

  /** When a connection test stores anything, and so when it may change a status: never
      on a server that is ready, being provisioned or past a failed provisioning it can
      reach. */
  lemma ConnectStoresIff(w: ConnectWorld, status: Status)
    requires w.found && w.write != WriteFailed
    ensures ConnectWrites(w, status) != [] <==>
              status in {Pending, ConnectionFailed, Connected} || (status == ProvisionFailed && w.ssh.Some?)
  {
    ServerEdges(status);
  }

  /** On a ready server it changes nothing, whatever the world does. */
  lemma ConnectLeavesReady(w: ConnectWorld)
    ensures ConnectWrites(w, ReadyForDeploy) == [] && ConnectEvents(w, ReadyForDeploy) == []
  {
    ServerEdges(ReadyForDeploy);
  }

  /** Once ready, a server leaves that status only into a provisioning run. */
  lemma ReadyLeftByProvisioning(op: Op)
    requires Writes(op, ReadyForDeploy) != []
    ensures op.Provision? && Writes(op, ReadyForDeploy)[0] == Provisioning
  {
    ServerEdges(ReadyForDeploy);
  }

  /** A provisioning run whose start gets stored on a ready server. */
  predicate StoresStart(op: Op) {
    op.Provision? && op.provision.found && op.provision.start != WriteFailed
  }

  lemma ReadyStep(op: Op)
    ensures if StoresStart(op) then Writes(op, ReadyForDeploy) != [] && Writes(op, ReadyForDeploy)[0] == Provisioning
            else Writes(op, ReadyForDeploy) == [] && Events(op, ReadyForDeploy) == []
  {
    ServerEdges(ReadyForDeploy);
    match op
    case Connect(w) => ConnectLeavesReady(w);
    case Provision(w) =>
      if StoresStart(op) {
        ReadyLeftByProvisioning(op);
      }
  }

  lemma RunSnoc(ops: seq<Op>, op: Op)
    ensures Run(ops + [op]) == AfterOp(Run(ops), op)
  {
    assert (ops + [op])[..|ops|] == ops;
  }

  /** What has become of a server that was ready, with `stored` and `audit` by then. */
  predicate StillReady(stored: seq<Status>, audit: seq<Event>, now: (seq<Status>, seq<Event>), started: bool) {
    && stored <= now.0
    && if started then |now.0| > |stored| && now.0[|stored|] == Provisioning else now == (stored, audit)
  }

  lemma StillReadyStep(stored: seq<Status>, audit: seq<Event>, now: (seq<Status>, seq<Event>), started: bool, op: Op,
                       next: (seq<Status>, seq<Event>), started': bool)
    requires stored != [] && stored[|stored| - 1] == ReadyForDeploy && StillReady(stored, audit, now, started)
    requires now.0 != [] && next == AfterOp(now, op)
    requires started' <==> started || StoresStart(op)
    ensures StillReady(stored, audit, next, started')
  {
    if !started {
      ReadyStep(op);
      if !StoresStart(op) {
        assert now.0 + [] == now.0 && now.1 + [] == now.1;
      }
    }
  }

  predicate SomeStart(ops: seq<Op>) {
    ops != [] && (SomeStart(ops[..|ops| - 1]) || StoresStart(ops[|ops| - 1]))
  }

  /** `now` after some more. */
  function AfterOps(now: (seq<Status>, seq<Event>), ops: seq<Op>): (r: (seq<Status>, seq<Event>))
    requires now.0 != []
    ensures r.0 != []
  {
    if ops == [] then now else AfterOp(AfterOps(now, ops[..|ops| - 1]), ops[|ops| - 1])
  }

  lemma {:induction false} RunIsAfterOps(ops: seq<Op>, more: seq<Op>)
    ensures Run(ops + more) == AfterOps(Run(ops), more)
    decreases |more|
  {
    if more == [] {
      NothingMore(ops);
    } else {
      var init, op := more[..|more| - 1], more[|more| - 1];
      RunIsAfterOps(ops, init);
      RunSnoc(ops + init, op);
      SnocLast(ops, more);
      LastOp(Run(ops), more);
    }
  }

  lemma LastOp(now: (seq<Status>, seq<Event>), ops: seq<Op>)
    requires now.0 != [] && ops != []
    ensures AfterOps(now, ops) == AfterOp(AfterOps(now, ops[..|ops| - 1]), ops[|ops| - 1])
  {
  }

  lemma LastStart(ops: seq<Op>)
    requires ops != []
    ensures SomeStart(ops) <==> SomeStart(ops[..|ops| - 1]) || StoresStart(ops[|ops| - 1])
  {
  }

  lemma {:induction false} ReadyAfterOps(now: (seq<Status>, seq<Event>), more: seq<Op>)
    requires now.0 != [] && now.0[|now.0| - 1] == ReadyForDeploy
    ensures StillReady(now.0, now.1, AfterOps(now, more), SomeStart(more))
    decreases |more|
  {
    if more != [] {
      var init, op := more[..|more| - 1], more[|more| - 1];
      ReadyAfterOps(now, init);
      LastOp(now, more);
      LastStart(more);
      StillReadyStep(now.0, now.1, AfterOps(now, init), SomeStart(init), op, AfterOps(now, more), SomeStart(more));
    }
  }

  /** Once a run has made a server ready, nothing is stored or audited, whatever follows,
      up to the first provisioning run whose start gets stored; and that start is what is
      stored next. */
  lemma ReadyUntilProvisioned(ops: seq<Op>, more: seq<Op>)
    requires var stored := Run(ops).0; stored[|stored| - 1] == ReadyForDeploy
    ensures StillReady(Run(ops).0, Run(ops).1, Run(ops + more), SomeStart(more))
  {
    RunIsAfterOps(ops, more);
    ReadyNext(Run(ops), more, Run(ops + more));
  }

  lemma ReadyNext(now: (seq<Status>, seq<Event>), more: seq<Op>, next: (seq<Status>, seq<Event>))
    requires now.0 != [] && now.0[|now.0| - 1] == ReadyForDeploy && next == AfterOps(now, more)
    ensures StillReady(now.0, now.1, next, SomeStart(more))
  {
    ReadyAfterOps(now, more);
  }

  lemma SnocLast(ops: seq<Op>, more: seq<Op>)
    requires more != []
    ensures (ops + more[..|more| - 1]) + [more[|more| - 1]] == ops + more
  {
  }

  lemma NothingMore(ops: seq<Op>)
    ensures ops + [] == ops
  {
  }

  /** Once it has left, a provisioning run that fails opens it to `Connect` again. */
  lemma FailedReprovisionReopens(p: ProvisionWorld, c: ConnectWorld)
    requires p.found && p.start == Written && p.script.Some? && p.final == Written
    requires c.found && c.ssh.Some? && c.write == Written
    ensures var failed := Last(ReadyForDeploy, ProvisionWrites(p, ReadyForDeploy));
            failed == ProvisionFailed && ConnectWrites(c, failed) == [ConnectionFailed]
  {
    ServerEdges(ReadyForDeploy);
    ServerEdges(ProvisionFailed);
  }
}
