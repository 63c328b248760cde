/** Connection tests and provisioning runs of one server, interleaved step by step over
    the server's row, its audit log and the one Redis key that provisioning takes. */
module ServerProtocol {
  import opened Lifecycle
  import opened Text
  import P = SiteProtocol

  datatype Kind = Connect | Provision

  /** How long the provisioning key lives, in seconds. */
  const TTL := 900

  /** Where a worker stands. A connection test goes from `Idle` to `HaveRow`, `ReadyFinal`,
      `AuditFinal` and `Done`; a provisioning run takes them all. */
  datatype Pc =
    | Idle
    | Locked
    | HaveRow(local: Status)
    | ReadyStart(local: Status)
    | AuditStart(local: Status)
    | Running
    | ReadyFinal(local: Status, to: Status)
    | AuditFinal(local: Status, to: Status)
    | Leaving
    | Done
    | Crashed

  datatype Worker = Worker(kind: Kind, pc: Pc, since: nat)

  /** `key` is the expiry time of the provisioning key, if it is there. */
  datatype State = State(status: Status, audit: seq<Event>, key: Option<nat>, clock: nat, workers: seq<Worker>)

  predicate KeyLive(s: State) {
    s.key.Some? && s.clock < s.key.value
  }

  function SetNX(s: State): State {
    if KeyLive(s) then s else s.(key := Some(s.clock + TTL))
  }

  function Goto(s: State, i: nat, pc: Pc): State
    requires i < |s.workers|
  {
    s.(workers := s.workers[i := s.workers[i].(pc := pc)])
  }

  /** The statuses each kind of run may end with. */
  predicate Outcome(k: Kind, to: Status) {
    if k == Connect then to == Connected || to == ConnectionFailed else to == ReadyForDeploy || to == ProvisionFailed
  }

  /** Where a worker goes when it is through: only provisioning has a lock to release. */
  function Exit(k: Kind): Pc {
    if k == Connect then Done else Leaving
  }

  // The steps of worker `i`. A choice that makes no sense where the worker stands
  // leaves everything as it is.

  function IdleStep(s: State, i: nat, choice: P.Choice): State
    requires i < |s.workers|
  {
    if s.workers[i].kind == Connect then
      match choice
      case Ok => Goto(s, i, HaveRow(s.status))
      case Fail => Goto(s, i, Done)
      case _ => s
    else
      match choice
      case Ok =>
        if KeyLive(s) then Goto(s, i, Done)
        else SetNX(s).(workers := s.workers[i := Worker(Provision, Locked, s.clock)])
      case Lost => Goto(SetNX(s), i, Done)
      case Fail => Goto(s, i, Done)
      case _ => s
  }

  /** The outcome of a connection test or of the provisioning script, and its check. */
  function EndStep(s: State, i: nat, to: Status, local: Status): State
    requires i < |s.workers|
  {
    if !Outcome(s.workers[i].kind, to) then s
    else if EnsureServerTransition(local, to) then Goto(s, i, ReadyFinal(local, to))
    else Goto(s, i, Exit(s.workers[i].kind))
  }

  function CheckStep(s: State, i: nat, choice: P.Choice, local: Status): State
    requires i < |s.workers|
  {
    match choice
    case Ok =>
      if s.workers[i].kind == Connect then s
      else if EnsureServerTransition(local, Provisioning) then Goto(s, i, ReadyStart(local))
      else Goto(s, i, Leaving)
    case Ends(to) => if s.workers[i].kind == Connect then EndStep(s, i, to, local) else s
    case _ => s
  }

  function WriteStep(s: State, i: nat, choice: P.Choice, to: Status, after: Pc): State
    requires i < |s.workers|
  {
    match choice
    case Ok => Goto(s.(status := to), i, after)
    case Lost => Goto(s.(status := to), i, Exit(s.workers[i].kind))
    case Fail => Goto(s, i, Exit(s.workers[i].kind))
    case _ => s
  }

  function AuditStep(s: State, i: nat, choice: P.Choice, from: Status, to: Status, after: Pc): State
    requires i < |s.workers|
  {
    match choice
    case Ok => Goto(s.(audit := Audited(s.audit, from, to)), i, after)
    case Fail => Goto(s, i, after)
    case _ => s
  }

  function LeaveStep(s: State, i: nat, choice: P.Choice): State
    requires i < |s.workers|
  {
    match choice
    case Ok => Goto(s.(key := None), i, Done)
    case Lost => Goto(s.(key := None), i, Done)
    case Fail => Goto(s, i, Done)
    case _ => s
  }

  function WorkerStep(s: State, i: nat, choice: P.Choice): State
    requires i < |s.workers|
  {
    var w := s.workers[i];
    if w.pc.Done? || w.pc.Crashed? then s
    else if choice == P.Crash then Goto(s, i, Crashed)
    else
      match w.pc
      case Idle => IdleStep(s, i, choice)
      case Locked => if choice == P.Ok then Goto(s, i, HaveRow(s.status)) else if choice == P.Fail then Goto(s, i, Leaving) else s
      case HaveRow(local) => CheckStep(s, i, choice, local)
      case ReadyStart(local) => WriteStep(s, i, choice, Provisioning, AuditStart(local))
      case AuditStart(local) => AuditStep(s, i, choice, local, Provisioning, Running)
      case Running => if choice.Ends? then EndStep(s, i, choice.to, Provisioning) else s
      case ReadyFinal(local, to) => WriteStep(s, i, choice, to, AuditFinal(local, to))
      case AuditFinal(local, to) => AuditStep(s, i, choice, local, to, Exit(w.kind))
      case Leaving => LeaveStep(s, i, choice)
  }

  function Next(s: State, l: P.Label): State {
    match l
    case Tick(d) => s.(clock := s.clock + d)
    case Step(i, choice) => if i < |s.workers| then WorkerStep(s, i, choice) else s
  }

  function Exec(s: State, labels: seq<P.Label>): State {
    if labels == [] then s else Next(Exec(s, labels[..|labels| - 1]), labels[|labels| - 1])
  }

  predicate Fresh(s: State) {
    s.audit == [] && forall i :: 0 <= i < |s.workers| ==> s.workers[i].pc == Idle
  }

  // ---- The lock ----

  /** A provisioning run between acquire and release. */
  predicate Holds(w: Worker) {
    w.kind == Provision && !w.pc.Idle? && !w.pc.Done? && !w.pc.Crashed?
  }

  predicate InTime(s: State) {
    forall i :: 0 <= i < |s.workers| && Holds(s.workers[i]) ==> s.clock < s.workers[i].since + TTL
  }

  predicate AlwaysInTime(s: State, labels: seq<P.Label>)
    decreases |labels|
  {
    InTime(Exec(s, labels)) && (labels != [] ==> AlwaysInTime(s, labels[..|labels| - 1]))
  }

  predicate Exclusive(s: State) {
    forall i, j :: 0 <= i < j < |s.workers| ==> !(Holds(s.workers[i]) && Holds(s.workers[j]))
  }

  predicate OwnKey(s: State) {
    forall i :: 0 <= i < |s.workers| && Holds(s.workers[i]) ==> s.key == Some(s.workers[i].since + TTL)
  }

  /** What a step of worker `i` may do to the lock: nothing, take the key, or delete it. */
  predicate LockMove(s: State, t: State, i: nat)
    requires i < |s.workers|
  {
    && |t.workers| == |s.workers|
    && t.workers == s.workers[i := t.workers[i]]
    && t.clock == s.clock
    && var (w, v) := (s.workers[i], t.workers[i]);
       && v.kind == w.kind
       && (|| (t.key == s.key && (Holds(v) ==> Holds(w) && v.since == w.since))
           || (!KeyLive(s) && !Holds(w) && t.key == Some(s.clock + TTL) && (Holds(v) ==> v.since == s.clock))
           || (Holds(w) && !Holds(v) && t.key == None))
  }

  /** Only provisioning stands where only provisioning may. */
  predicate Placed(w: Worker) {
    w.kind == Connect ==> !w.pc.Locked? && !w.pc.ReadyStart? && !w.pc.AuditStart? && !w.pc.Running? && !w.pc.Leaving?
  }

  lemma StepLocks(s: State, i: nat, choice: P.Choice)
    requires i < |s.workers| && Placed(s.workers[i])
    ensures LockMove(s, WorkerStep(s, i, choice), i) && Placed(WorkerStep(s, i, choice).workers[i])
  {
  }

  lemma MoveExclusive(s: State, t: State, i: nat)
    requires i < |s.workers| && LockMove(s, t, i)
    requires InTime(s) && Exclusive(s) && OwnKey(s)
    ensures Exclusive(t) && OwnKey(t)
  {
  }

  predicate AllPlaced(s: State) {
    forall i :: 0 <= i < |s.workers| ==> Placed(s.workers[i])
  }

  /** At most one provisioning run holds the lock, as long as none outlives the TTL. */
  lemma {:induction false} MutualExclusion(s: State, labels: seq<P.Label>)
    requires Fresh(s) && AlwaysInTime(s, labels)
    ensures Exclusive(Exec(s, labels)) && OwnKey(Exec(s, labels)) && AllPlaced(Exec(s, labels))
    decreases |labels|
  {
    if labels != [] {
      var init, l := labels[..|labels| - 1], labels[|labels| - 1];
      MutualExclusion(s, init);
      var t := Exec(s, init);
      if l.Step? && l.i < |t.workers| {
        StepLocks(t, l.i, l.choice);
        MoveExclusive(t, Next(t, l), l.i);
      }
    }
  }

  // ---- The table, write by write ----

  /** A status some worker has written. */
  predicate Written(status: Status) {
    status in {Connected, ConnectionFailed, Provisioning, ReadyForDeploy, ProvisionFailed}
  }

  /** A provisioning run's status, or one a connection test has written over it. */
  predicate OrTested(status: Status, local: Status) {
    status == local || status == Connected || status == ConnectionFailed
  }

  /** What a worker can count on while others come between. */
  predicate Sees(w: Worker, status: Status) {
    match w.pc
    case HaveRow(local) => if w.kind == Provision then OrTested(status, local) else status == local || Written(status)
    case ReadyStart(_) => EnsureServerTransition(status, Provisioning) || status == ConnectionFailed
    case AuditStart(_) => OrTested(status, Provisioning)
    case Running => OrTested(status, Provisioning)
    case ReadyFinal(local, to) =>
      && Outcome(w.kind, to)
      && if w.kind == Provision then OrTested(status, Provisioning)
         else Written(status) || (status == local && EnsureServerTransition(local, to))
    case _ => true
  }

  predicate AllSee(s: State) {
    forall i :: 0 <= i < |s.workers| ==> Sees(s.workers[i], s.status)
  }

  /** A status write that goes through. */
  predicate Writes(s: State, l: P.Label) {
    && l.Step? && l.i < |s.workers| && (l.choice == P.Ok || l.choice == P.Lost)
    && (s.workers[l.i].pc.ReadyStart? || s.workers[l.i].pc.ReadyFinal?)
  }

  /** The writes that are no edge, by what is stored when they come: a connection test
      over a server that is being provisioned, is ready, or has failed provisioning where
      the test worked; a provisioning run's start over a failed connection; and its end
      over any connection test. */
  predicate Breaks(s: State, l: P.Label) {
    && Writes(s, l)
    && match s.workers[l.i].pc
       case ReadyStart(_) => s.status == ConnectionFailed
       case ReadyFinal(_, to) =>
         if s.workers[l.i].kind == Provision then s.status == Connected || s.status == ConnectionFailed
         else s.status == Provisioning || s.status == ReadyForDeploy || (s.status == ProvisionFailed && to == Connected)
       case _ => false
  }

  predicate SeeMove(s: State, t: State, i: nat)
    requires i < |s.workers|
  {
    && |t.workers| == |s.workers|
    && t.workers == s.workers[i := t.workers[i]]
    && Sees(t.workers[i], t.status)
    && (t.status == s.status
        || (Written(t.status)
            && if s.workers[i].kind == Provision then Holds(s.workers[i])
               else t.status == Connected || t.status == ConnectionFailed))
  }

  lemma StepSees(s: State, i: nat, choice: P.Choice)
    requires i < |s.workers| && Placed(s.workers[i]) && Sees(s.workers[i], s.status)
    ensures SeeMove(s, WorkerStep(s, i, choice), i)
  {
    if s.workers[i].pc.HaveRow? {
      ServerEdges(s.status);
      ServerEdges(s.workers[i].pc.local);
    }
  }

  lemma StepBreaks(s: State, i: nat, choice: P.Choice)
    requires i < |s.workers| && Placed(s.workers[i]) && Sees(s.workers[i], s.status)
    ensures var after := WorkerStep(s, i, choice).status;
            after != s.status && !ServerEdge(s.status, after) <==> Breaks(s, P.Step(i, choice))
  {
    if !Writes(s, P.Step(i, choice)) {
      assert WorkerStep(s, i, choice).status == s.status;
    } else if s.workers[i].pc.ReadyStart? {
      ServerEdges(s.status);
      assert WorkerStep(s, i, choice).status == Provisioning;
    } else {
      WriteBreaks(s.workers[i], s.status);
      assert WorkerStep(s, i, choice).status == s.workers[i].pc.to;
    }
  }

  lemma WriteBreaks(w: Worker, status: Status)
    requires w.pc.ReadyFinal? && Sees(w, status)
    ensures w.pc.to != status && !ServerEdge(status, w.pc.to) <==>
            if w.kind == Provision then status == Connected || status == ConnectionFailed
            else status == Provisioning || status == ReadyForDeploy || (status == ProvisionFailed && w.pc.to == Connected)
  {
  }

  lemma SeesTested(w: Worker, before: Status, after: Status)
    requires Placed(w) && Sees(w, before) && (after == Connected || after == ConnectionFailed)
    ensures Sees(w, after)
  {
    ServerEdges(after);
  }

  lemma SeesWritten(w: Worker, before: Status, after: Status)
    requires Placed(w) && Sees(w, before) && !Holds(w) && Written(after)
    ensures Sees(w, after)
  {
  }

  lemma MoveSees(s: State, t: State, i: nat)
    requires i < |s.workers| && SeeMove(s, t, i)
    requires AllSee(s) && AllPlaced(s) && Exclusive(s)
    ensures AllSee(t)
  {
    forall j | 0 <= j < |t.workers| ensures Sees(t.workers[j], t.status) {
      if j != i && t.status != s.status {
        if s.workers[i].kind == Connect {
          SeesTested(s.workers[j], s.status, t.status);
        } else {
          assert i < j || j < i;
          SeesWritten(s.workers[j], s.status, t.status);
        }
      }
    }
  }

  lemma {:induction false} AlwaysSees(s: State, labels: seq<P.Label>)
    requires Fresh(s) && AlwaysInTime(s, labels)
    ensures AllSee(Exec(s, labels)) && AllPlaced(Exec(s, labels)) && Exclusive(Exec(s, labels))
    decreases |labels|
  {
    MutualExclusion(s, labels);
    if labels != [] {
      var init, l := labels[..|labels| - 1], labels[|labels| - 1];
      AlwaysSees(s, init);
      var t := Exec(s, init);
      if l.Step? && l.i < |t.workers| {
        StepSees(t, l.i, l.choice);
        MoveSees(t, Next(t, l), l.i);
      }
    }
  }

  /** In any interleaving in time, a change of the stored status is no edge of the table
      if and only if it is one of those writes. */
  lemma BreaksTableIff(s: State, labels: seq<P.Label>, next: P.Label)
    requires Fresh(s) && AlwaysInTime(s, labels)
    ensures var t := Exec(s, labels);
            var after := Next(t, next).status;
            after != t.status && !ServerEdge(t.status, after) <==> Breaks(t, next)
  {
    AlwaysSees(s, labels);
    var t := Exec(s, labels);
    if next.Step? && next.i < |t.workers| {
      StepBreaks(t, next.i, next.choice);
    }
  }

  // ---- Runs in which nobody comes between ----

  /** Between the read and the last write. */
  predicate Midway(w: Worker) {
    w.pc.HaveRow? || w.pc.ReadyStart? || w.pc.AuditStart? || w.pc.Running? || w.pc.ReadyFinal?
  }

  /** A write finds no worker midway, where it or that worker is a connection test: no
      connection test is midway when another worker writes, and when a connection test
      writes no provisioning run is. */
  predicate Undisturbed(s: State, l: P.Label) {
    Writes(s, l) ==>
      forall j :: 0 <= j < |s.workers| && j != l.i && Midway(s.workers[j]) ==>
        s.workers[j].kind == Provision && s.workers[l.i].kind == Provision
  }

  predicate AlwaysUndisturbed(s: State, labels: seq<P.Label>)
    decreases |labels|
  {
    labels != [] ==>
      var (init, l) := (labels[..|labels| - 1], labels[|labels| - 1]);
      AlwaysUndisturbed(s, init) && Undisturbed(Exec(s, init), l)
  }

  /** What a worker knows of the stored status while nobody comes between. */
  predicate Knows(w: Worker, status: Status) {
    match w.pc
    case HaveRow(local) => local == status
    case ReadyStart(local) => local == status && EnsureServerTransition(local, Provisioning)
    case AuditStart(_) => status == Provisioning
    case Running => status == Provisioning
    case ReadyFinal(local, to) => local == status && EnsureServerTransition(local, to)
    case _ => true
  }

  predicate Known(s: State) {
    forall i :: 0 <= i < |s.workers| ==> Knows(s.workers[i], s.status)
  }

  predicate RowMove(s: State, t: State, l: P.Label)
    requires l.Step? && l.i < |s.workers|
  {
    && |t.workers| == |s.workers|
    && t.workers == s.workers[l.i := t.workers[l.i]]
    && Knows(t.workers[l.i], t.status)
    && (t.status == s.status || (Writes(s, l) && ServerEdge(s.status, t.status)))
  }

  lemma StepRow(s: State, i: nat, choice: P.Choice)
    requires i < |s.workers| && Placed(s.workers[i]) && Knows(s.workers[i], s.status)
    ensures RowMove(s, WorkerStep(s, i, choice), P.Step(i, choice))
  {
  }

  lemma MoveKnown(s: State, t: State, l: P.Label)
    requires l.Step? && l.i < |s.workers| && RowMove(s, t, l) && Undisturbed(s, l)
    requires Known(s) && Exclusive(s) && AllPlaced(s)
    ensures Known(t)
  {
    if t.status != s.status {
      NoneMidway(s, l);
    }
  }

  lemma NoneMidway(s: State, l: P.Label)
    requires Writes(s, l) && Undisturbed(s, l) && Exclusive(s) && AllPlaced(s)
    ensures forall j :: 0 <= j < |s.workers| && j != l.i ==> !Midway(s.workers[j])
  {
    forall j | 0 <= j < |s.workers| && j != l.i ensures !Midway(s.workers[j]) {
      assert j < l.i || l.i < j;
    }
  }

  lemma {:induction false} AlwaysKnown(s: State, labels: seq<P.Label>)
    requires Fresh(s) && AlwaysInTime(s, labels) && AlwaysUndisturbed(s, labels)
    ensures Known(Exec(s, labels)) && AllPlaced(Exec(s, labels))
    decreases |labels|
  {
    MutualExclusion(s, labels);
    if labels != [] {
      var init, l := labels[..|labels| - 1], labels[|labels| - 1];
      MutualExclusion(s, init);
      AlwaysKnown(s, init);
      var t := Exec(s, init);
      if l.Step? && l.i < |t.workers| {
        StepRow(t, l.i, l.choice);
        MoveKnown(t, Next(t, l), l);
      }
    }
  }

  /** Every change of the stored status is an edge of the table, whatever happens next, at
      any point of any interleaving in time in which no connection test was midway when
      another worker wrote and none wrote while a provisioning run was midway. */
  lemma UndisturbedFollowsTable(s: State, labels: seq<P.Label>, next: P.Label)
    requires Fresh(s) && AlwaysInTime(s, labels) && AlwaysUndisturbed(s, labels)
    ensures var (before, after) := (Exec(s, labels).status, Next(Exec(s, labels), next).status);
            before == after || ServerEdge(before, after)
  {
    AlwaysKnown(s, labels);
    var t := Exec(s, labels);
    if next.Step? && next.i < |t.workers| {
      StepRow(t, next.i, next.choice);
    }
  }

  // ---- The overwrite ----

  /** `t` can be reached from `s` with no live holder ever over its TTL. */
  ghost predicate Reaches(s: State, t: State) {
    exists labels :: AlwaysInTime(s, labels) && Exec(s, labels) == t
  }

  lemma Go(s: State, t: State, l: P.Label)
    requires Reaches(s, t) && InTime(Next(t, l))
    ensures Reaches(s, Next(t, l))
  {
    var labels :| AlwaysInTime(s, labels) && Exec(s, labels) == t;
    var more := labels + [l];
    assert more[..|labels|] == labels;
    assert AlwaysInTime(s, more) && Exec(s, more) == Next(t, l);
  }

  lemma ReachedInTime(s: State, t: State)
    requires Reaches(s, t)
    ensures InTime(t)
  {
    var labels :| AlwaysInTime(s, labels) && Exec(s, labels) == t;
  }

  /** `u` is `t` with worker `i` at `pc`: it stays in time when the worker held before. */
  predicate Moved(t: State, u: State, i: nat, pc: Pc)
    requires i < |t.workers|
  {
    u.workers == t.workers[i := t.workers[i].(pc := pc)] && u.clock == t.clock && u.key == t.key
  }

  lemma Step(s: State, t: State, i: nat, choice: P.Choice, u: State, pc: Pc)
    requires Reaches(s, t) && i < |t.workers| && u == WorkerStep(t, i, choice) && Moved(t, u, i, pc)
    requires Holds(t.workers[i]) || t.workers[i].kind == Connect
    ensures Reaches(s, u)
  {
    ReachedInTime(s, t);
    assert InTime(u);
    Go(s, t, P.Step(i, choice));
  }

  /** `t` with provisioning run `i` at `pc`, having taken the lock. */
  function At(t: State, i: nat, pc: Pc): State
    requires i < |t.workers|
  {
    t.(key := Some(t.clock + TTL), workers := t.workers[i := Worker(Provision, pc, t.clock)])
  }

  lemma GetsLock(s: State, t: State, i: nat)
    requires Reaches(s, t) && i < |t.workers| && t.workers[i].kind == Provision && t.workers[i].pc == Idle && !KeyLive(t)
    ensures Reaches(s, At(t, i, Locked))
  {
    ReachedInTime(s, t);
    assert Next(t, P.Step(i, P.Ok)) == At(t, i, Locked);
    Go(s, t, P.Step(i, P.Ok));
  }

  lemma AtMoves(t: State, i: nat, pc: Pc, next: Pc)
    requires i < |t.workers|
    ensures Moved(At(t, i, pc), At(t, i, next), i, next)
    ensures At(t, i, pc).workers[i] == Worker(Provision, pc, t.clock) && |At(t, i, pc).workers| == |t.workers|
  {
  }

  /** A provisioning run that nothing stops gets to its start write, ... */
  lemma ProvisionStarts(s: State, t: State, i: nat)
    requires Reaches(s, t) && i < |t.workers| && t.workers[i].kind == Provision && t.workers[i].pc == Idle && !KeyLive(t)
    requires EnsureServerTransition(t.status, Provisioning)
    ensures Reaches(s, At(t, i, ReadyStart(t.status)))
  {
    GetsLock(s, t, i);
    AtMoves(t, i, Locked, HaveRow(t.status));
    Step(s, At(t, i, Locked), i, P.Ok, At(t, i, HaveRow(t.status)), HaveRow(t.status));
    AtMoves(t, i, HaveRow(t.status), ReadyStart(t.status));
    Step(s, At(t, i, HaveRow(t.status)), i, P.Ok, At(t, i, ReadyStart(t.status)), ReadyStart(t.status));
  }

  /** ... past it, ... */
  function Started(t: State, i: nat, pc: Pc): State
    requires i < |t.workers|
  {
    At(t, i, pc).(status := Provisioning, audit := Audited(t.audit, t.status, Provisioning))
  }

  lemma ProvisionRuns(s: State, t: State, i: nat)
    requires Reaches(s, t) && i < |t.workers| && t.workers[i].kind == Provision && t.workers[i].pc == Idle && !KeyLive(t)
    requires EnsureServerTransition(t.status, Provisioning)
    ensures Reaches(s, Started(t, i, Running))
  {
    ProvisionStarts(s, t, i);
    var u := At(t, i, AuditStart(t.status)).(status := Provisioning);
    AtMoves(t, i, ReadyStart(t.status), AuditStart(t.status));
    Step(s, At(t, i, ReadyStart(t.status)), i, P.Ok, u, AuditStart(t.status));
    AtMoves(t, i, AuditStart(t.status), Running);
    RecordsStart(u, i, t.status);
    StartedIs(t, i);
    Step(s, u, i, P.Ok, Started(t, i, Running), Running);
  }

  lemma RecordsStart(u: State, i: nat, local: Status)
    requires i < |u.workers| && u.workers[i].pc == AuditStart(local)
    ensures WorkerStep(u, i, P.Ok) == Goto(u.(audit := Audited(u.audit, local, Provisioning)), i, Running)
  {
  }

  lemma StartedIs(t: State, i: nat)
    requires i < |t.workers|
    ensures var u := At(t, i, AuditStart(t.status)).(status := Provisioning);
            Started(t, i, Running) == Goto(u.(audit := Audited(u.audit, t.status, Provisioning)), i, Running)
  {
  }

  /** ... and to storing its outcome. */
  lemma ProvisionEnds(s: State, t: State, i: nat, to: Status) returns (u: State)
    requires Reaches(s, t) && i < |t.workers| && t.workers[i].kind == Provision && t.workers[i].pc == Idle && !KeyLive(t)
    requires EnsureServerTransition(t.status, Provisioning) && Outcome(Provision, to)
    ensures Reaches(s, u) && u.status == to && u.workers == t.workers[i := Worker(Provision, AuditFinal(Provisioning, to), t.clock)]
  {
    ProvisionRuns(s, t, i);
    ServerEdges(Provisioning);
    var v := Started(t, i, ReadyFinal(Provisioning, to));
    AtMoves(t, i, Running, ReadyFinal(Provisioning, to));
    EndsRun(Started(t, i, Running), i, to);
    EndedIs(t, i, to);
    Step(s, Started(t, i, Running), i, P.Ends(to), v, ReadyFinal(Provisioning, to));
    u := Next(v, P.Step(i, P.Ok));
    StoresFinal(v, i, Provisioning, to);
    assert t.workers[i := v.workers[i]][i := Worker(Provision, AuditFinal(Provisioning, to), t.clock)] ==
           t.workers[i := Worker(Provision, AuditFinal(Provisioning, to), t.clock)];
    Step(s, v, i, P.Ok, u, AuditFinal(Provisioning, to));
  }

  lemma EndsRun(u: State, i: nat, to: Status)
    requires i < |u.workers| && u.workers[i].pc == Running && u.workers[i].kind == Provision && Outcome(Provision, to)
    ensures WorkerStep(u, i, P.Ends(to)) == Goto(u, i, ReadyFinal(Provisioning, to))
  {
    ServerEdges(Provisioning);
  }

  lemma EndedIs(t: State, i: nat, to: Status)
    requires i < |t.workers|
    ensures Started(t, i, ReadyFinal(Provisioning, to)) == Goto(Started(t, i, Running), i, ReadyFinal(Provisioning, to))
  {
  }

  lemma StoresFinal(v: State, i: nat, local: Status, to: Status)
    requires i < |v.workers| && v.workers[i].pc == ReadyFinal(local, to)
    ensures WorkerStep(v, i, P.Ok) == Goto(v.(status := to), i, AuditFinal(local, to))
  {
  }

  lemma EndsTest(t: State, i: nat, local: Status, to: Status)
    requires i < |t.workers| && t.workers[i].kind == Connect && t.workers[i].pc == HaveRow(local)
    requires Outcome(Connect, to) && EnsureServerTransition(local, to)
    ensures WorkerStep(t, i, P.Ends(to)) == Goto(t, i, ReadyFinal(local, to))
  {
  }

  /** `Connect` takes no lock. From any point of any run in time at which one has read a
      status from which it may store its result, and a provisioning run can start, the
      run can go on until `ready_for_deploy` is stored and then overwritten by that
      result, which is no edge of the table. */
  lemma LateConnectLosesUpdate(s: State, t: State, i: nat, local: Status, to: Status, j: nat) returns (u: State)
    requires Reaches(s, t)
    requires i < |t.workers| && t.workers[i].kind == Connect && t.workers[i].pc == HaveRow(local)
    requires Outcome(Connect, to) && EnsureServerTransition(local, to)
    requires j < |t.workers| && t.workers[j].kind == Provision && t.workers[j].pc == Idle
    requires !KeyLive(t) && EnsureServerTransition(t.status, Provisioning)
    ensures Reaches(s, u) && u.status == ReadyForDeploy
    ensures Reaches(s, Next(u, P.Step(i, P.Ok))) && Next(u, P.Step(i, P.Ok)).status == to
    ensures !ServerEdge(ReadyForDeploy, to)
  {
    var r := Goto(t, i, ReadyFinal(local, to));
    EndsTest(t, i, local, to);
    Step(s, t, i, P.Ends(to), r, ReadyFinal(local, to));
    u := ProvisionEnds(s, r, j, ReadyForDeploy);
    StoresFinal(u, i, local, to);
    Step(s, u, i, P.Ok, Next(u, P.Step(i, P.Ok)), AuditFinal(local, to));
    ReadyNotNext(to);
  }

  lemma ReadyNotNext(to: Status)
    requires Outcome(Connect, to)
    ensures !ServerEdge(ReadyForDeploy, to)
  {
  }

  /** `t` with connection test `j` at `pc`. */
  function TestAt(t: State, j: nat, pc: Pc): State
    requires j < |t.workers|
  {
    t.(workers := t.workers[j := t.workers[j].(pc := pc)])
  }

  /** A connection test that nothing stops gets to its write. */
  lemma TestGetsReady(s: State, t: State, j: nat, to: Status)
    requires Reaches(s, t) && j < |t.workers| && t.workers[j].kind == Connect && t.workers[j].pc == Idle
    requires Outcome(Connect, to) && EnsureServerTransition(t.status, to)
    ensures Reaches(s, TestAt(t, j, ReadyFinal(t.status, to)))
  {
    var u := TestAt(t, j, HaveRow(t.status));
    Step(s, t, j, P.Ok, u, HaveRow(t.status));
    var v := TestAt(t, j, ReadyFinal(t.status, to));
    assert u.workers[j := u.workers[j].(pc := ReadyFinal(t.status, to))] == v.workers;
    Step(s, u, j, P.Ends(to), v, ReadyFinal(t.status, to));
  }

  /** Nor is it enough that no connection test is midway when another worker writes. From
      any point of any run in time at which a provisioning run is about to store its start
      and a connection test has not begun, where a failed test may be stored, the test can
      read, check and store in between: the start is then no edge of the table. */
  lemma ConnectBreaksStart(s: State, t: State, i: nat, local: Status, j: nat) returns (u: State)
    requires Reaches(s, t)
    requires i < |t.workers| && t.workers[i].kind == Provision && t.workers[i].pc == ReadyStart(local)
    requires j < |t.workers| && t.workers[j].kind == Connect && t.workers[j].pc == Idle
    requires EnsureServerTransition(t.status, ConnectionFailed)
    ensures Reaches(s, u) && u.status == ConnectionFailed
    ensures Reaches(s, Next(u, P.Step(i, P.Ok))) && Next(u, P.Step(i, P.Ok)).status == Provisioning
    ensures !ServerEdge(ConnectionFailed, Provisioning)
  {
    TestGetsReady(s, t, j, ConnectionFailed);
    var r := TestAt(t, j, ReadyFinal(t.status, ConnectionFailed));
    var pc := AuditFinal(t.status, ConnectionFailed);
    u := Next(r, P.Step(j, P.Ok));
    Step(s, r, j, P.Ok, u, pc);
    Step(s, u, i, P.Ok, Next(u, P.Step(i, P.Ok)), AuditStart(local));
    ServerEdges(ConnectionFailed);
  }
}
