/** Deploy and SSL-issue workers of one site, interleaved step by step over the
    site's row, its audit log and the two Redis lock keys. */
module SiteProtocol {
  import opened Lifecycle

  datatype Kind = Deploy | Issue

  /** How long each kind's lock key lives, in seconds. */
  function Ttl(k: Kind): nat {
    match k
    case Deploy => 900
    case Issue => 600
  }

  /** Where a worker stands. `local` is the status it read from the row. */
  datatype Pc =
    | Idle
    | Locked                                  // holds the lock, has not read the row
    | HaveRow(local: Status)
    | ReadyStart(local: Status)               // deploy only: about to write `deploying`
    | AuditStart(local: Status)               // deploy only: has written it
    | Running                                 // deploy only
    | ReadyFinal(local: Status, to: Status)   // about to write the outcome
    | AuditFinal(local: Status, to: Status)   // has written it
    | Leaving                                 // the deferred release is left to run
    | Done
    | Crashed

  /** `since` is the time at which the worker took its key. */
  datatype Worker = Worker(kind: Kind, pc: Pc, since: nat)

  /** `keys` gives each lock key present its expiry time. */
  datatype State = State(status: Status, audit: seq<Event>, keys: map<Kind, nat>, clock: nat, workers: seq<Worker>)

  /** How the call a worker makes in a step turns out: it works; it fails; it works
      but its reply is lost; the deployment or the certificate request ends with an
      outcome; the process dies instead. */
  datatype Choice = Ok | Fail | Lost | Ends(to: Status) | Crash

  datatype Label = Tick(seconds: nat) | Step(i: nat, choice: Choice)

  predicate KeyLive(s: State, k: Kind) {
    k in s.keys && s.clock < s.keys[k]
  }

  /** SETNX with a TTL: sets the key if it is not there. */
  function SetNX(s: State, k: Kind): State {
    if KeyLive(s, k) then s else s.(keys := s.keys[k := s.clock + Ttl(k)])
  }

  /** DEL: removes the key whoever has set it. */
  function Del(s: State, k: Kind): State {
    s.(keys := s.keys - {k})
  }

  function Goto(s: State, i: nat, pc: Pc): State
    requires i < |s.workers|
  {
    s.(workers := s.workers[i := s.workers[i].(pc := pc)])
  }

  /** The outcomes each kind of run can end with. */
  predicate Outcome(k: Kind, to: Status) {
    to == Deployed || to == SslPending || (k == Deploy && to == DeployFailed)
  }

  /** The status an outcome is audited as coming from: a deploy names its local
      status, an SSL issue a fixed one. */
  function AuditFrom(k: Kind, local: Status, to: Status): Status {
    if k == Deploy then local else if to == Deployed then SslPending else Deployed
  }

  // The steps of worker `i`. A choice that makes no sense where the worker stands
  // leaves everything as it is.

  /** `Acquire`: an error leaves no release behind, even when the key was set. */
  function AcquireStep(s: State, i: nat, choice: Choice): State
    requires i < |s.workers|
  {
    var w := s.workers[i];
    match choice
    case Ok =>
      if KeyLive(s, w.kind) then Goto(s, i, Done)
      else SetNX(s, w.kind).(workers := s.workers[i := Worker(w.kind, Locked, s.clock)])
    case Lost => Goto(SetNX(s, w.kind), i, Done)
    case Fail => Goto(s, i, Done)
    case _ => s
  }

  /** With the row read: a deploy checks its server and that the site may start
      deploying; an SSL issue makes its request and checks the outcome's status. */
  function CheckStep(s: State, i: nat, choice: Choice, local: Status): State
    requires i < |s.workers|
  {
    match choice
    case Fail => Goto(s, i, Leaving)
    case Ok =>
      if s.workers[i].kind == Issue then s
      else if EnsureSiteTransition(local, Deploying) then Goto(s, i, ReadyStart(local))
      else Goto(s, i, Leaving)
    case Ends(to) =>
      if s.workers[i].kind == Deploy then s else EndStep(s, i, to, local)
    case _ => s
  }

  function EndStep(s: State, i: nat, to: Status, local: Status): State
    requires i < |s.workers|
  {
    if !Outcome(s.workers[i].kind, to) then s
    else if EnsureSiteTransition(local, to) then Goto(s, i, ReadyFinal(local, to))
    else Goto(s, i, Leaving)
  }

  /** A write of the row's status. */
  function WriteStep(s: State, i: nat, choice: Choice, to: Status, after: Pc): State
    requires i < |s.workers|
  {
    match choice
    case Ok => Goto(s.(status := to), i, after)
    case Lost => Goto(s.(status := to), i, Leaving)
    case Fail => Goto(s, i, Leaving)
    case _ => s
  }

  /** `writeAudit`: errors are ignored. */
  function AuditStep(s: State, i: nat, choice: Choice, from: Status, to: Status, after: Pc): State
    requires i < |s.workers|
  {
    match choice
    case Ok => Goto(s.(audit := Audited(s.audit, from, to)), i, after)
    case Fail => Goto(s, i, after)
    case _ => s
  }

  /** The deferred `Release`: errors are ignored. */
  function LeaveStep(s: State, i: nat, choice: Choice): State
    requires i < |s.workers|
  {
    match choice
    case Ok => Goto(Del(s, s.workers[i].kind), i, Done)
    case Lost => Goto(Del(s, s.workers[i].kind), i, Done)
    case Fail => Goto(s, i, Done)
    case _ => s
  }

  function WorkerStep(s: State, i: nat, choice: Choice): State
    requires i < |s.workers|
  {
    var w := s.workers[i];
    if w.pc.Done? || w.pc.Crashed? then s
    else if choice == Crash then Goto(s, i, Crashed)
    else
      match w.pc
      case Idle => AcquireStep(s, i, choice)
      case Locked => if choice == Ok then Goto(s, i, HaveRow(s.status)) else if choice == Fail then Goto(s, i, Leaving) else s
      case HaveRow(local) => CheckStep(s, i, choice, local)
      case ReadyStart(local) => WriteStep(s, i, choice, Deploying, AuditStart(local))
      case AuditStart(local) => AuditStep(s, i, choice, local, Deploying, Running)
      case Running => if choice.Ends? then EndStep(s, i, choice.to, Deploying) else s
      case ReadyFinal(local, to) => WriteStep(s, i, choice, to, AuditFinal(local, to))
      case AuditFinal(local, to) => AuditStep(s, i, choice, AuditFrom(w.kind, local, to), to, Leaving)
      case Leaving => LeaveStep(s, i, choice)
  }

  function Next(s: State, l: Label): State {
    match l
    case Tick(d) => s.(clock := s.clock + d)
    case Step(i, choice) => if i < |s.workers| then WorkerStep(s, i, choice) else s
  }

  function Exec(s: State, labels: seq<Label>): State {
    if labels == [] then s else Next(Exec(s, labels[..|labels| - 1]), labels[|labels| - 1])
  }

  /** Before anything has run. Keys may have been left behind. */
  predicate Fresh(s: State) {
    s.audit == [] && forall i :: 0 <= i < |s.workers| ==> s.workers[i].pc == Idle
  }

  predicate OnlyDeploys(s: State) {
    forall i :: 0 <= i < |s.workers| ==> s.workers[i].kind == Deploy
  }

  // ---- Mutual exclusion ----

  /** Alive between acquire and release. */
  predicate Holds(w: Worker) {
    !w.pc.Idle? && !w.pc.Done? && !w.pc.Crashed?
  }

  /** No live holder has outlived the lock's TTL. */
  predicate InTime(s: State) {
    forall i :: 0 <= i < |s.workers| && Holds(s.workers[i]) ==>
      s.clock < s.workers[i].since + Ttl(s.workers[i].kind)
  }

  /** Nor did one at any point of the run. */
  predicate AlwaysInTime(s: State, labels: seq<Label>)
    decreases |labels|
  {
    InTime(Exec(s, labels)) && (labels != [] ==> AlwaysInTime(s, labels[..|labels| - 1]))
  }

  predicate Exclusive(s: State) {
    forall i, j :: 0 <= i < j < |s.workers| && Holds(s.workers[i]) && Holds(s.workers[j]) ==>
      s.workers[i].kind != s.workers[j].kind
  }

  /** Every live holder's key is still the one it set. */
  predicate OwnKeys(s: State) {
    forall i :: 0 <= i < |s.workers| && Holds(s.workers[i]) ==>
      var w := s.workers[i];
      w.kind in s.keys && s.keys[w.kind] == w.since + Ttl(w.kind)
  }

  /** What a step of worker `i` may do to the locks: nothing, take its key, or delete it. */
  predicate LockMove(s: State, t: State, i: nat)
    requires i < |s.workers|
  {
    && |t.workers| == |s.workers|
    && t.workers == s.workers[i := t.workers[i]]
    && t.clock == s.clock
    && var (w, v) := (s.workers[i], t.workers[i]);
       && v.kind == w.kind
       && (|| (t.keys == s.keys && (Holds(v) ==> Holds(w) && v.since == w.since))
           || (!KeyLive(s, w.kind) && !Holds(w) && t.keys == s.keys[w.kind := s.clock + Ttl(w.kind)]
               && v.since == if Holds(v) then s.clock else w.since)
           || (Holds(w) && !Holds(v) && t.keys == s.keys - {w.kind}))
  }

  lemma AcquireLocks(s: State, i: nat, choice: Choice)
    requires i < |s.workers| && s.workers[i].pc == Idle
    ensures LockMove(s, AcquireStep(s, i, choice), i)
  {
  }

  lemma LeaveLocks(s: State, i: nat, choice: Choice)
    requires i < |s.workers| && s.workers[i].pc == Leaving
    ensures LockMove(s, LeaveStep(s, i, choice), i)
  {
  }

  lemma WorkLocks(s: State, i: nat, choice: Choice)
    requires i < |s.workers| && !s.workers[i].pc.Idle? && !s.workers[i].pc.Leaving?
    ensures LockMove(s, WorkerStep(s, i, choice), i)
  {
    assert WorkerStep(s, i, choice).keys == s.keys;
  }

  lemma StepLocks(s: State, i: nat, choice: Choice)
    requires i < |s.workers|
    ensures LockMove(s, WorkerStep(s, i, choice), i)
  {
    if s.workers[i].pc.Idle? {
      AcquireLocks(s, i, choice);
    } else if s.workers[i].pc.Leaving? {
      LeaveLocks(s, i, choice);
    } else {
      WorkLocks(s, i, choice);
    }
  }

  lemma MoveExclusive(s: State, t: State, i: nat)
    requires i < |s.workers| && LockMove(s, t, i)
    requires InTime(s) && Exclusive(s) && OwnKeys(s)
    ensures Exclusive(t) && OwnKeys(t)
  {
  }

  lemma NextExclusive(s: State, l: Label)
    requires InTime(s) && Exclusive(s) && OwnKeys(s)
    ensures Exclusive(Next(s, l)) && OwnKeys(Next(s, l))
  {
    if l.Step? && l.i < |s.workers| {
      StepLocks(s, l.i, l.choice);
      MoveExclusive(s, WorkerStep(s, l.i, l.choice), l.i);
    }
  }

  /** At most one worker of a kind is between acquire and release, at every point of
      every interleaving in which no live holder outlives its TTL. */
  lemma {:induction false} MutualExclusion(s: State, labels: seq<Label>)
    requires Fresh(s) && AlwaysInTime(s, labels)
    ensures Exclusive(Exec(s, labels)) && OwnKeys(Exec(s, labels))
  {
    if labels != [] {
      var init := labels[..|labels| - 1];
      MutualExclusion(s, init);
      NextExclusive(Exec(s, init), labels[|labels| - 1]);
    }
  }

  lemma TickExclusive(s: State, d: nat)
    requires Exclusive(s)
    ensures Exclusive(Next(s, Tick(d)))
  {
  }

  lemma SecondTakes(t: State, i: nat, j: nat)
    requires i < |t.workers| && j < |t.workers| && Holds(t.workers[i]) && t.workers[j].pc == Idle
    requires t.workers[i].kind == t.workers[j].kind && !KeyLive(t, t.workers[j].kind)
    ensures !Exclusive(Next(t, Step(j, Ok)))
  {
    var u := Next(t, Step(j, Ok));
    assert Holds(u.workers[i]) && Holds(u.workers[j]);
    assert i < j || j < i;
  }

  lemma SecondRefused(t: State, j: nat)
    requires j < |t.workers| && t.workers[j].pc == Idle && KeyLive(t, t.workers[j].kind)
    ensures Next(t, Step(j, Ok)) == Goto(t, j, Done)
  {
  }

  /** The TTL is the exact limit: at any point of any run in time, a worker of the same
      kind that tries after `d` more seconds gets in beside a holder if and only if the
      holder's TTL is over by then. */
  lemma OverrunIff(s: State, labels: seq<Label>, i: nat, j: nat, d: nat)
    requires Fresh(s) && AlwaysInTime(s, labels)
    requires var ws := Exec(s, labels).workers;
             i < |ws| && j < |ws| && Holds(ws[i]) && ws[j].pc == Idle && ws[i].kind == ws[j].kind
    ensures var t := Exec(s, labels);
            !Exclusive(Next(Next(t, Tick(d)), Step(j, Ok))) <==>
            t.clock + d >= t.workers[i].since + Ttl(t.workers[i].kind)
  {
    MutualExclusion(s, labels);
    var t := Exec(s, labels);
    var late := Next(t, Tick(d));
    TickExclusive(t, d);
    if KeyLive(late, t.workers[j].kind) {
      SecondRefused(late, j);
    } else {
      SecondTakes(late, i, j);
    }
  }

  // ---- Status and audit ----

  /** No two workers, of whatever kind, are between acquire and release. */
  predicate Alone(s: State) {
    forall i, j :: 0 <= i < j < |s.workers| ==> !(Holds(s.workers[i]) && Holds(s.workers[j]))
  }

  predicate AlwaysAlone(s: State, labels: seq<Label>)
    decreases |labels|
  {
    Alone(Exec(s, labels)) && (labels != [] ==> AlwaysAlone(s, labels[..|labels| - 1]))
  }

  /** What a worker that is alone knows of the stored status. */
  predicate Knows(w: Worker, status: Status) {
    match w.pc
    case HaveRow(local) => local == status
    case ReadyStart(local) => w.kind == Deploy && local == status && EnsureSiteTransition(local, Deploying)
    case AuditStart(_) => w.kind == Deploy && status == Deploying
    case Running => w.kind == Deploy && status == Deploying
    case ReadyFinal(local, to) =>
      && local == status && Outcome(w.kind, to) && EnsureSiteTransition(local, to)
      && (w.kind == Deploy ==> local == Deploying)
    case AuditFinal(local, to) => status == to && (w.kind == Deploy ==> local == Deploying)
    case _ => true
  }

  predicate Known(s: State) {
    forall i :: 0 <= i < |s.workers| ==> Knows(s.workers[i], s.status)
  }

  /** Between a status write and its audit event. */
  predicate InGap(w: Worker) {
    w.pc.AuditStart? || w.pc.AuditFinal?
  }

  /** The audit log leads from `first` to the stored status, or, while a worker is
      between a write and its event, to the status that worker found. */
  predicate Trail(s: State, first: Status) {
    && (forall i :: 0 <= i < |s.workers| && InGap(s.workers[i]) ==> Chain(first, s.audit, s.workers[i].pc.local))
    && ((forall i :: 0 <= i < |s.workers| ==> !InGap(s.workers[i])) ==> Chain(first, s.audit, s.status))
  }

  /** The steps that lose an event: the process dies or the audit write fails between a
      status write that changed something and its event, or such a write succeeds and
      its reply is lost. */
  predicate LosesEvent(s: State, l: Label) {
    && l.Step? && l.i < |s.workers|
    && match s.workers[l.i].pc
       case AuditStart(local) => (l.choice == Crash || l.choice == Fail) && local != s.status
       case AuditFinal(local, _) => (l.choice == Crash || l.choice == Fail) && local != s.status
       case ReadyStart(_) => l.choice == Lost && s.status != Deploying
       case ReadyFinal(_, to) => l.choice == Lost && s.status != to
       case _ => false
  }

  /** The steps that write an event from a status other than the one the worker found:
      an SSL issue's, when the one it always names is not that. */
  predicate Misnames(s: State, l: Label) {
    && l.Step? && l.i < |s.workers| && s.workers[l.i].pc.AuditFinal? && l.choice == Ok
    && var w := s.workers[l.i]; AuditFrom(w.kind, w.pc.local, w.pc.to) != w.pc.local
  }

  predicate BreaksTrail(s: State, l: Label) {
    LosesEvent(s, l) || Misnames(s, l)
  }

  predicate NeverBreaksTrail(s: State, labels: seq<Label>)
    decreases |labels|
  {
    labels != [] ==>
      var (init, l) := (labels[..|labels| - 1], labels[|labels| - 1]);
      NeverBreaksTrail(s, init) && !BreaksTrail(Exec(s, init), l)
  }

  predicate NeverLosesEvent(s: State, labels: seq<Label>)
    decreases |labels|
  {
    labels != [] ==>
      var (init, l) := (labels[..|labels| - 1], labels[|labels| - 1]);
      NeverLosesEvent(s, init) && !LosesEvent(Exec(s, init), l)
  }

  predicate AlwaysTrail(s: State, labels: seq<Label>, first: Status)
    decreases |labels|
  {
    Trail(Exec(s, labels), first) && (labels != [] ==> AlwaysTrail(s, labels[..|labels| - 1], first))
  }

  /** What a step of worker `i` does to the row, given that what it knows is true. */
  predicate RowMove(s: State, t: State, i: nat)
    requires i < |s.workers|
  {
    && |t.workers| == |s.workers|
    && t.workers == s.workers[i := t.workers[i]]
    && t.workers[i].kind == s.workers[i].kind
    && Knows(t.workers[i], t.status)
    && (t.status == s.status || SiteEdge(s.status, t.status))
    && (!Holds(s.workers[i]) ==> t.status == s.status && t.audit == s.audit && !InGap(t.workers[i]))
  }

  lemma StepRow(s: State, i: nat, choice: Choice)
    requires i < |s.workers| && Knows(s.workers[i], s.status)
    ensures RowMove(s, WorkerStep(s, i, choice), i)
  {
  }

  lemma MoveKnown(s: State, t: State, i: nat)
    requires i < |s.workers| && RowMove(s, t, i)
    requires Known(s) && Alone(s)
    ensures Known(t)
  {
  }

  lemma NextKnown(s: State, l: Label)
    requires Known(s) && Alone(s)
    ensures Known(Next(s, l))
    ensures Next(s, l).status == s.status || SiteEdge(s.status, Next(s, l).status)
  {
    if l.Step? && l.i < |s.workers| {
      StepRow(s, l.i, l.choice);
      MoveKnown(s, WorkerStep(s, l.i, l.choice), l.i);
    }
  }

  lemma {:induction false} AlwaysKnown(s: State, labels: seq<Label>)
    requires Fresh(s) && AlwaysAlone(s, labels)
    ensures Known(Exec(s, labels))
    decreases |labels|
  {
    if labels != [] {
      var init := labels[..|labels| - 1];
      AlwaysKnown(s, init);
      NextKnown(Exec(s, init), labels[|labels| - 1]);
    }
  }

  /** Every change of the stored status is an edge of the table, whatever happens next,
      at any point of any interleaving of deploys and SSL issues in which no two of them
      have held their locks at once. */
  lemma AloneFollowsTable(s: State, labels: seq<Label>, next: Label)
    requires Fresh(s) && AlwaysAlone(s, labels)
    ensures var (before, after) := (Exec(s, labels).status, Next(Exec(s, labels), next).status);
            before == after || SiteEdge(before, after)
  {
    AlwaysKnown(s, labels);
    NextKnown(Exec(s, labels), next);
  }

  lemma NextKinds(s: State, l: Label)
    requires OnlyDeploys(s)
    ensures OnlyDeploys(Next(s, l))
  {
    if l.Step? && l.i < |s.workers| {
      StepLocks(s, l.i, l.choice);
    }
  }

  /** Deploys in time are alone: their lock keeps them apart. */
  lemma {:induction false} DeploysAlone(s: State, labels: seq<Label>)
    requires Fresh(s) && OnlyDeploys(s) && AlwaysInTime(s, labels)
    ensures OnlyDeploys(Exec(s, labels)) && AlwaysAlone(s, labels) && Known(Exec(s, labels))
    decreases |labels|
  {
    MutualExclusion(s, labels);
    if labels != [] {
      var init := labels[..|labels| - 1];
      DeploysAlone(s, init);
      NextKinds(Exec(s, init), labels[|labels| - 1]);
    }
    DeploysExclude(Exec(s, labels));
    AlwaysKnown(s, labels);
  }

  lemma DeploysExclude(s: State)
    requires OnlyDeploys(s) && Exclusive(s)
    ensures Alone(s)
  {
  }

  /** So every change of the stored status is an edge of the table at any point of any
      interleaving of any number of deploys in which no live holder has outlived its
      TTL, whatever happens next. Crashes, failed calls and lost replies are included. */
  lemma DeploysFollowTable(s: State, labels: seq<Label>, next: Label)
    requires Fresh(s) && OnlyDeploys(s) && AlwaysInTime(s, labels)
    ensures var (before, after) := (Exec(s, labels).status, Next(Exec(s, labels), next).status);
            before == after || SiteEdge(before, after)
  {
    DeploysAlone(s, labels);
    AloneFollowsTable(s, labels, next);
  }

  /** What a step of worker `i` does to the audit log: nothing, open a gap, close one. */
  predicate AuditMove(s: State, t: State, i: nat)
    requires i < |s.workers| && |t.workers| == |s.workers|
  {
    var (w, v) := (s.workers[i], t.workers[i]);
    && t.workers == s.workers[i := v]
    && (|| (t.status == s.status && t.audit == s.audit
            && (InGap(w) <==> InGap(v)) && (InGap(w) ==> v.pc.local == w.pc.local))
        || (!InGap(w) && InGap(v) && Holds(w) && v.pc.local == s.status && t.audit == s.audit)
        || (InGap(w) && !InGap(v) && t.status == s.status && t.audit == Audited(s.audit, w.pc.local, s.status)))
  }

  lemma StepAudit(s: State, i: nat, choice: Choice)
    requires i < |s.workers| && Knows(s.workers[i], s.status)
    requires !BreaksTrail(s, Step(i, choice))
    ensures |WorkerStep(s, i, choice).workers| == |s.workers| && AuditMove(s, WorkerStep(s, i, choice), i)
  {
  }

  lemma MoveTrail(s: State, t: State, i: nat, first: Status)
    requires i < |s.workers| == |t.workers| && AuditMove(s, t, i)
    requires Known(s) && Alone(s) && Trail(s, first)
    ensures Trail(t, first)
  {
    var w, v := s.workers[i], t.workers[i];
    if InGap(w) && !InGap(v) {
      AloneInGap(s, i);
      ChainExtends(first, s.audit, w.pc.local, s.status);
    } else if !InGap(w) && InGap(v) {
      AloneInGap(s, i);
    } else {
      SameGaps(s, t, i);
    }
  }

  lemma AloneInGap(s: State, i: nat)
    requires i < |s.workers| && Alone(s) && Holds(s.workers[i])
    ensures forall j :: 0 <= j < |s.workers| && j != i ==> !InGap(s.workers[j])
  {
  }

  lemma SameGaps(s: State, t: State, i: nat)
    requires i < |s.workers| == |t.workers| && t.workers == s.workers[i := t.workers[i]]
    requires InGap(s.workers[i]) <==> InGap(t.workers[i])
    requires InGap(s.workers[i]) ==> t.workers[i].pc.local == s.workers[i].pc.local
    ensures forall j :: 0 <= j < |s.workers| ==>
              && (InGap(s.workers[j]) <==> InGap(t.workers[j]))
              && (InGap(t.workers[j]) ==> t.workers[j].pc.local == s.workers[j].pc.local)
  {
  }

  /** A step that breaks the trail ends outside a gap: it loses an event, or writes a
      wrong one. */
  lemma BreakingStep(s: State, i: nat, choice: Choice)
    requires i < |s.workers| && Knows(s.workers[i], s.status) && BreaksTrail(s, Step(i, choice))
    ensures var t := WorkerStep(s, i, choice);
            && Holds(s.workers[i]) && |t.workers| == |s.workers|
            && t.workers == s.workers[i := t.workers[i]] && !InGap(t.workers[i])
            && var last := if InGap(s.workers[i]) then s.workers[i].pc.local else s.status;
               if LosesEvent(s, Step(i, choice)) then t.audit == s.audit && t.status != last
               else exists from :: from != last && t.audit == s.audit + [Event(from, t.status)]
  {
  }

  /** A worker that is alone and ends outside a gap leaves the trail to the log alone. */
  lemma TrailAlone(s: State, t: State, i: nat, first: Status)
    requires i < |s.workers| == |t.workers| && Alone(s) && Holds(s.workers[i]) && Trail(s, first)
    requires t.workers == s.workers[i := t.workers[i]] && !InGap(t.workers[i])
    ensures Trail(t, first) <==> Chain(first, t.audit, t.status)
    ensures Chain(first, s.audit, if InGap(s.workers[i]) then s.workers[i].pc.local else s.status)
  {
    AloneInGap(s, i);
    assert forall j :: 0 <= j < |t.workers| ==> !InGap(t.workers[j]);
  }

  lemma WrongFrom(first: Status, audit: seq<Event>, last: Status, from: Status, to: Status)
    requires Chain(first, audit, last) && from != last
    ensures !Chain(first, audit + [Event(from, to)], to)
  {
    ChainEnds(first, audit, last, from);
    assert (audit + [Event(from, to)])[..|audit|] == audit;
  }

  lemma BreaksNow(t: State, l: Label, first: Status)
    requires Known(t) && Alone(t) && Trail(t, first) && BreaksTrail(t, l)
    ensures !Trail(Next(t, l), first)
  {
    BreakingStep(t, l.i, l.choice);
    var u := Next(t, l);
    TrailAlone(t, u, l.i, first);
    var last := if InGap(t.workers[l.i]) then t.workers[l.i].pc.local else t.status;
    if LosesEvent(t, l) {
      ChainEnds(first, t.audit, last, u.status);
    } else {
      var from :| from != last && u.audit == t.audit + [Event(from, u.status)];
      WrongFrom(first, t.audit, last, from, u.status);
    }
  }

  lemma KeepsNow(t: State, l: Label, first: Status)
    requires Known(t) && Alone(t) && Trail(t, first) && !BreaksTrail(t, l)
    ensures Trail(Next(t, l), first)
  {
    if l.Step? && l.i < |t.workers| {
      StepAudit(t, l.i, l.choice);
      MoveTrail(t, Next(t, l), l.i, first);
    }
  }

  /** As long as the trail is whole, the next step of workers of either kind that never
      hold at once breaks it if and only if it loses an event or writes one from a wrong
      status. A gap between two equal statuses, as of a deploy that started from
      `deploying`, has no event to lose. */
  lemma TrailBreaksIff(s: State, labels: seq<Label>, next: Label, first: Status)
    requires Fresh(s) && AlwaysAlone(s, labels) && Trail(Exec(s, labels), first)
    ensures !Trail(Next(Exec(s, labels), next), first) <==> BreaksTrail(Exec(s, labels), next)
  {
    AlwaysKnown(s, labels);
    if BreaksTrail(Exec(s, labels), next) {
      BreaksNow(Exec(s, labels), next, first);
    } else {
      KeepsNow(Exec(s, labels), next, first);
    }
  }

  /** So over whole runs: the audit events form one chain from the first status to the
      stored one, lagging only between a write and its event and then by that event alone,
      at every point of a run if and only if no step of it is one of those. */
  lemma {:induction false} AuditFollowsStatus(s: State, labels: seq<Label>)
    requires Fresh(s) && AlwaysAlone(s, labels)
    ensures AlwaysTrail(s, labels, s.status) <==> NeverBreaksTrail(s, labels)
    decreases |labels|
  {
    if labels != [] {
      var init := labels[..|labels| - 1];
      AuditFollowsStatus(s, init);
      if NeverBreaksTrail(s, init) {
        TrailBreaksIff(s, init, labels[|labels| - 1], s.status);
      }
    }
  }

  lemma {:induction false} DeploysNameWhatTheyFound(s: State, labels: seq<Label>)
    requires OnlyDeploys(s)
    ensures OnlyDeploys(Exec(s, labels)) && (NeverBreaksTrail(s, labels) <==> NeverLosesEvent(s, labels))
    decreases |labels|
  {
    if labels != [] {
      var init := labels[..|labels| - 1];
      DeploysNameWhatTheyFound(s, init);
      NextKinds(Exec(s, init), labels[|labels| - 1]);
    }
  }

  /** For deploys in time, if and only if no event is lost. */
  lemma DeployAuditFollowsStatus(s: State, labels: seq<Label>)
    requires Fresh(s) && OnlyDeploys(s) && AlwaysInTime(s, labels)
    ensures AlwaysTrail(s, labels, s.status) <==> NeverLosesEvent(s, labels)
  {
    DeploysAlone(s, labels);
    AuditFollowsStatus(s, labels);
    DeploysNameWhatTheyFound(s, labels);
  }

  // ---- `deploying` with SSL issues interleaved ----

  /** A deploy between its start write and its final write. */
  predicate Working(w: Worker) {
    w.kind == Deploy && (w.pc.AuditStart? || w.pc.Running? || w.pc.ReadyFinal?)
  }

  predicate SomeoneWorks(s: State) {
    exists i :: 0 <= i < |s.workers| && Working(s.workers[i])
  }

  /** The row says `deploying` and nobody is at work. */
  predicate Stranded(s: State) {
    s.status == Deploying && !SomeoneWorks(s)
  }

  /** The steps that strand the row: a deploy at work on a row that says `deploying` dies
      or fails its final write, or the reply of a start write is lost. */
  predicate Strands(s: State, l: Label) {
    && l.Step? && l.i < |s.workers|
    && var w := s.workers[l.i];
       || (s.status == Deploying && Working(w) && (l.choice == Crash || (w.pc.ReadyFinal? && l.choice == Fail)))
       || (w.pc.ReadyStart? && l.choice == Lost)
  }

  predicate NeverStrands(s: State, labels: seq<Label>)
    decreases |labels|
  {
    labels != [] ==>
      var (init, l) := (labels[..|labels| - 1], labels[|labels| - 1]);
      NeverStrands(s, init) && !Strands(Exec(s, init), l)
  }

  predicate NeverStranded(s: State, labels: seq<Label>)
    decreases |labels|
  {
    !Stranded(Exec(s, labels)) && (labels != [] ==> NeverStranded(s, labels[..|labels| - 1]))
  }

  /** Final writes are of outcomes, and deploys alone ever stand in a deploy's places. */
  predicate WellPlaced(w: Worker) {
    && (w.pc.ReadyFinal? ==> Outcome(w.kind, w.pc.to))
    && (w.pc.ReadyStart? || w.pc.AuditStart? || w.pc.Running? ==> w.kind == Deploy)
  }

  predicate AllWellPlaced(s: State) {
    forall i :: 0 <= i < |s.workers| ==> WellPlaced(s.workers[i])
  }

  predicate WorkMove(s: State, t: State, i: nat)
    requires i < |s.workers|
  {
    && |t.workers| == |s.workers|
    && t.workers == s.workers[i := t.workers[i]]
    && WellPlaced(t.workers[i])
    && (t.status == Deploying ==>
          (s.status == Deploying && !Working(s.workers[i])) || Working(t.workers[i]))
  }

  lemma StepWork(s: State, i: nat, choice: Choice)
    requires i < |s.workers| && WellPlaced(s.workers[i]) && !Strands(s, Step(i, choice))
    ensures WorkMove(s, WorkerStep(s, i, choice), i)
  {
  }

  lemma MoveWork(s: State, t: State, i: nat)
    requires i < |s.workers| && WorkMove(s, t, i)
    requires AllWellPlaced(s) && !Stranded(s)
    ensures AllWellPlaced(t) && !Stranded(t)
  {
    if t.status == Deploying {
      if Working(t.workers[i]) {
        assert SomeoneWorks(t);
      } else {
        var j :| 0 <= j < |s.workers| && Working(s.workers[j]);
        assert Working(t.workers[j]);
      }
    }
  }

  lemma NextWork(t: State, l: Label)
    requires AllWellPlaced(t) && !Stranded(t) && !Strands(t, l)
    ensures AllWellPlaced(Next(t, l)) && !Stranded(Next(t, l))
  {
    if l.Step? && l.i < |t.workers| {
      StepWork(t, l.i, l.choice);
      MoveWork(t, Next(t, l), l.i);
    } else {
      assert Next(t, l).workers == t.workers;
    }
  }

  /** With any deploys and SSL issues interleaved freely, whatever their locks do: until a
      step strands it, the stored status is `deploying` only while some deploy is between
      its start write and its final write. */
  lemma {:induction false} DeployingMeansWork(s: State, labels: seq<Label>)
    requires Fresh(s) && s.status != Deploying && NeverStrands(s, labels)
    ensures AllWellPlaced(Exec(s, labels))
    ensures Exec(s, labels).status == Deploying ==> SomeoneWorks(Exec(s, labels))
  {
    if labels != [] {
      var init := labels[..|labels| - 1];
      DeployingMeansWork(s, init);
      NextWork(Exec(s, init), labels[|labels| - 1]);
    }
  }

  /** Without SSL issues, and with no holder over its TTL, exactly then. */
  lemma DeployingIffWork(s: State, labels: seq<Label>)
    requires Fresh(s) && s.status != Deploying && NeverStrands(s, labels)
    requires OnlyDeploys(s) && AlwaysInTime(s, labels)
    ensures Exec(s, labels).status == Deploying <==> SomeoneWorks(Exec(s, labels))
  {
    DeployingMeansWork(s, labels);
    DeploysAlone(s, labels);
  }

  // ---- The table with SSL issues interleaved ----

  /** The statuses that deploys and SSL issues write. */
  predicate Written(status: Status) {
    status in {Deploying, Deployed, SslPending, DeployFailed}
  }

  /** A deploy's status, or one an SSL issue has written over it. */
  predicate OrIssued(status: Status, local: Status) {
    status == local || status == Deployed || status == SslPending
  }

  /** What a worker can count on while workers of the other kind come between. */
  predicate Sees(w: Worker, status: Status) {
    match w.pc
    case HaveRow(local) => if w.kind == Deploy then OrIssued(status, local) else status == local || Written(status)
    case ReadyStart(_) => w.kind == Deploy && EnsureSiteTransition(status, Deploying)
    case AuditStart(_) => w.kind == Deploy && OrIssued(status, Deploying)
    case Running => w.kind == Deploy && OrIssued(status, Deploying)
    case ReadyFinal(_, to) => Outcome(w.kind, to) && if w.kind == Deploy then OrIssued(status, Deploying) else Written(status)
    case _ => true
  }

  predicate AllSee(s: State) {
    forall i :: 0 <= i < |s.workers| ==> Sees(s.workers[i], s.status)
  }

  /** The two writes that are no edge: a deploy that stores `deploy_failed` over the
      `deployed` or `ssl_pending` of an SSL issue, and an SSL issue that stores anything
      over the `deploy_failed` of a deploy. */
  predicate Breaks(s: State, l: Label) {
    && l.Step? && l.i < |s.workers| && s.workers[l.i].pc.ReadyFinal? && (l.choice == Ok || l.choice == Lost)
    && if s.workers[l.i].kind == Deploy
       then s.workers[l.i].pc.to == DeployFailed && (s.status == Deployed || s.status == SslPending)
       else s.status == DeployFailed
  }

  /** What a step of worker `i` does to the row, given what it can count on. */
  predicate SeeMove(s: State, t: State, i: nat)
    requires i < |s.workers|
  {
    && |t.workers| == |s.workers|
    && t.workers == s.workers[i := t.workers[i]]
    && t.workers[i].kind == s.workers[i].kind
    && Sees(t.workers[i], t.status)
    && (t.status == s.status
        || (Holds(s.workers[i]) && Written(t.status)
            && (s.workers[i].kind == Issue ==> t.status == Deployed || t.status == SslPending)))
  }

  lemma StepSees(s: State, i: nat, choice: Choice)
    requires i < |s.workers| && Sees(s.workers[i], s.status)
    ensures SeeMove(s, WorkerStep(s, i, choice), i)
  {
    if s.workers[i].pc.HaveRow? {
      DeployEdges(s.status);
      DeployEdges(s.workers[i].pc.local);
    }
  }

  lemma StepBreaks(s: State, i: nat, choice: Choice)
    requires i < |s.workers| && Sees(s.workers[i], s.status)
    ensures var after := WorkerStep(s, i, choice).status;
            after != s.status && !SiteEdge(s.status, after) <==> Breaks(s, Step(i, choice))
  {
    var w := s.workers[i];
    if !w.pc.ReadyStart? && !w.pc.ReadyFinal? {
      assert WorkerStep(s, i, choice).status == s.status;
    } else if w.pc.ReadyStart? {
      DeployEdges(s.status);
      assert WorkerStep(s, i, choice).status in {s.status, Deploying};
    } else {
      WriteBreaks(w, s.status);
      assert WorkerStep(s, i, choice).status == if choice == Ok || choice == Lost then w.pc.to else s.status;
    }
  }

  lemma WriteBreaks(w: Worker, status: Status)
    requires w.pc.ReadyFinal? && Sees(w, status)
    ensures w.pc.to != status && !SiteEdge(status, w.pc.to) <==>
            if w.kind == Deploy then w.pc.to == DeployFailed && (status == Deployed || status == SslPending)
            else status == DeployFailed
  {
  }

  lemma SeesIssued(w: Worker, before: Status, after: Status)
    requires Sees(w, before) && (after == Deployed || after == SslPending)
    ensures Sees(w, after)
  {
    DeployEdges(after);
  }

  lemma SeesWritten(w: Worker, before: Status, after: Status)
    requires Sees(w, before) && (w.kind == Issue || !Holds(w)) && Written(after)
    ensures Sees(w, after)
  {
  }

  lemma MoveSees(s: State, t: State, i: nat)
    requires i < |s.workers| && SeeMove(s, t, i)
    requires AllSee(s) && Exclusive(s)
    ensures AllSee(t)
  {
    forall j | 0 <= j < |t.workers| ensures Sees(t.workers[j], t.status) {
      if j != i && t.status != s.status {
        if s.workers[i].kind == Issue {
          SeesIssued(s.workers[j], s.status, t.status);
        } else {
          assert Holds(s.workers[i]) && (i < j || j < i);
          SeesWritten(s.workers[j], s.status, t.status);
        }
      }
    }
  }

  lemma {:induction false} AlwaysSees(s: State, labels: seq<Label>)
    requires Fresh(s) && AlwaysInTime(s, labels)
    ensures AllSee(Exec(s, labels)) && Exclusive(Exec(s, labels))
    decreases |labels|
  {
    MutualExclusion(s, labels);
    if labels != [] {
      var init, l := labels[..|labels| - 1], labels[|labels| - 1];
      AlwaysSees(s, init);
      var t := Exec(s, init);
      if l.Step? && l.i < |t.workers| {
        StepSees(t, l.i, l.choice);
        MoveSees(t, Next(t, l), l.i);
      }
    }
  }

  /** In any interleaving of deploys and SSL issues in time, a change of the stored status
      is no edge of the table if and only if it is one of those two writes. */
  lemma BreaksTableIff(s: State, labels: seq<Label>, next: Label)
    requires Fresh(s) && AlwaysInTime(s, labels)
    ensures var t := Exec(s, labels);
            var after := Next(t, next).status;
            after != t.status && !SiteEdge(t.status, after) <==> Breaks(t, next)
  {
    AlwaysSees(s, labels);
    var t := Exec(s, labels);
    if next.Step? && next.i < |t.workers| {
      StepBreaks(t, next.i, next.choice);
    }
  }

  // ---- When `deploying` is left behind ----

  lemma OneDeployHolds(t: State, u: State, i: nat)
    requires i < |t.workers| && Exclusive(t) && Holds(t.workers[i]) && t.workers[i].kind == Deploy
    requires |u.workers| == |t.workers| && u.workers == t.workers[i := u.workers[i]] && !Working(u.workers[i])
    ensures !SomeoneWorks(u)
  {
    forall j | 0 <= j < |u.workers| ensures !Working(u.workers[j]) {
      if j != i {
        assert i < j || j < i;
      }
    }
  }

  lemma StrandingStep(t: State, i: nat, choice: Choice)
    requires i < |t.workers| && Sees(t.workers[i], t.status) && Strands(t, Step(i, choice))
    ensures var u := WorkerStep(t, i, choice);
            && Holds(t.workers[i]) && t.workers[i].kind == Deploy
            && |u.workers| == |t.workers| && u.workers == t.workers[i := u.workers[i]]
            && !Working(u.workers[i]) && u.status == Deploying
  {
  }

  /** At any point of any interleaving in time, a step that strands the row leaves it
      `deploying` with nobody at work; until another deploy, which the table lets through. */
  lemma AbandonedDeploying(s: State, labels: seq<Label>, next: Label)
    requires Fresh(s) && AlwaysInTime(s, labels) && Strands(Exec(s, labels), next)
    ensures Stranded(Next(Exec(s, labels), next))
    ensures EnsureSiteTransition(Deploying, Deploying)
  {
    AlwaysSees(s, labels);
    var t := Exec(s, labels);
    StrandingStep(t, next.i, next.choice);
    OneDeployHolds(t, Next(t, next), next.i);
  }

  lemma SeenPlaced(s: State)
    requires AllSee(s)
    ensures AllWellPlaced(s)
  {
    forall i | 0 <= i < |s.workers| ensures WellPlaced(s.workers[i]) {
      assert Sees(s.workers[i], s.status);
    }
  }

  /** And those steps alone: as long as somebody has been at work whenever the row said
      `deploying`, the next step of any interleaving in time ends that if and only if it
      is one of them. */
  lemma StrandsIff(s: State, labels: seq<Label>, next: Label)
    requires Fresh(s) && AlwaysInTime(s, labels) && !Stranded(Exec(s, labels))
    ensures Stranded(Next(Exec(s, labels), next)) <==> Strands(Exec(s, labels), next)
  {
    if Strands(Exec(s, labels), next) {
      AbandonedDeploying(s, labels, next);
    } else {
      AlwaysSees(s, labels);
      SeenPlaced(Exec(s, labels));
      NextWork(Exec(s, labels), next);
    }
  }

  /** Over whole runs in time of deploys and SSL issues: `deploying` is never stored with
      nobody at work if and only if no step strands it. */
  lemma {:induction false} NeverStrandedIff(s: State, labels: seq<Label>)
    requires Fresh(s) && s.status != Deploying && AlwaysInTime(s, labels)
    ensures NeverStranded(s, labels) <==> NeverStrands(s, labels)
    decreases |labels|
  {
    if labels != [] {
      var init := labels[..|labels| - 1];
      NeverStrandedIff(s, init);
      if NeverStrands(s, init) {
        StrandsIff(s, init, labels[|labels| - 1]);
      }
    }
  }

  // ---- The conditions are needed ----

  /** `t` can be reached from `s` with no live holder ever over its TTL. */
  ghost predicate Reaches(s: State, t: State) {
    exists labels :: AlwaysInTime(s, labels) && Exec(s, labels) == t
  }

  lemma Go(s: State, t: State, l: Label)
    requires Reaches(s, t) && InTime(Next(t, l))
    ensures Reaches(s, Next(t, l))
  {
    var labels :| AlwaysInTime(s, labels) && Exec(s, labels) == t;
    var more := labels + [l];
    assert more[..|labels|] == labels;
    assert AlwaysInTime(s, more) && Exec(s, more) == Next(t, l);
  }

  lemma ReachedInTime(s: State, t: State)
    requires Reaches(s, t)
    ensures InTime(t)
  {
    var labels :| AlwaysInTime(s, labels) && Exec(s, labels) == t;
  }

  lemma MoveInTime(s: State, t: State, i: nat)
    requires i < |s.workers| && LockMove(s, t, i) && InTime(s)
    ensures InTime(t)
  {
  }

  /** Worker `i` of `t` goes on to `pc`, changing the row and the log to those of `u`. */
  lemma Proceed(s: State, t: State, ws: seq<Worker>, i: nat, w: Worker, choice: Choice, u: State, pc: Pc, goal: State)
    requires i < |ws| && Reaches(s, t) && t.workers == ws[i := w]
    requires u.workers == t.workers && WorkerStep(t, i, choice) == Goto(u, i, pc)
    requires goal == u.(workers := ws[i := w.(pc := pc)])
    ensures Reaches(s, goal)
  {
    ReachedInTime(s, t);
    StepLocks(t, i, choice);
    MoveInTime(t, WorkerStep(t, i, choice), i);
    Go(s, t, Step(i, choice));
    assert ws[i := w][i := w.(pc := pc)] == ws[i := w.(pc := pc)];
  }

  /** `t` with worker `i` at `pc`, having taken its lock. */
  function At(t: State, i: nat, pc: Pc): State
    requires i < |t.workers|
  {
    var k := t.workers[i].kind;
    t.(keys := t.keys[k := t.clock + Ttl(k)], workers := t.workers[i := Worker(k, pc, t.clock)])
  }

  /** A worker whose key is free gets to see the row. */
  lemma GetsRow(s: State, t: State, i: nat)
    requires Reaches(s, t) && i < |t.workers| && t.workers[i].pc == Idle && !KeyLive(t, t.workers[i].kind)
    ensures Reaches(s, At(t, i, HaveRow(t.status)))
  {
    var w := Worker(t.workers[i].kind, Locked, t.clock);
    ReachedInTime(s, t);
    StepLocks(t, i, Ok);
    MoveInTime(t, WorkerStep(t, i, Ok), i);
    Taken(t, i);
    Go(s, t, Step(i, Ok));
    Proceed(s, At(t, i, Locked), t.workers, i, w, Ok, At(t, i, Locked), HaveRow(t.status), At(t, i, HaveRow(t.status)));
  }

  /** An SSL issue that nothing stops gets as far as its write. */
  lemma IssueGetsReady(s: State, t: State, i: nat, to: Status)
    requires Reaches(s, t) && i < |t.workers| && t.workers[i].pc == Idle && t.workers[i].kind == Issue && !KeyLive(t, Issue)
    requires Outcome(Issue, to) && EnsureSiteTransition(t.status, to)
    ensures Reaches(s, At(t, i, ReadyFinal(t.status, to)))
  {
    GetsRow(s, t, i);
    var u := At(t, i, HaveRow(t.status));
    Proceed(s, u, t.workers, i, Worker(Issue, HaveRow(t.status), t.clock), Ends(to), u, ReadyFinal(t.status, to),
            At(t, i, ReadyFinal(t.status, to)));
  }

  /** A deploy that nothing stops gets past its start write ... */
  lemma DeployStarts(s: State, t: State, i: nat)
    requires Reaches(s, t) && i < |t.workers| && t.workers[i].pc == Idle && t.workers[i].kind == Deploy && !KeyLive(t, Deploy)
    requires EnsureSiteTransition(t.status, Deploying)
    ensures Reaches(s, At(t, i, AuditStart(t.status)).(status := Deploying))
  {
    GetsRow(s, t, i);
    var u := At(t, i, HaveRow(t.status));
    Proceed(s, u, t.workers, i, Worker(Deploy, HaveRow(t.status), t.clock), Ok, u, ReadyStart(t.status),
            At(t, i, ReadyStart(t.status)));
    var v := At(t, i, ReadyStart(t.status));
    Proceed(s, v, t.workers, i, Worker(Deploy, ReadyStart(t.status), t.clock), Ok,
            v.(status := Deploying), AuditStart(t.status), At(t, i, AuditStart(t.status)).(status := Deploying));
  }

  /** A deploy's state at `pc` after its start write and its event. */
  function Started(t: State, i: nat, pc: Pc): State
    requires i < |t.workers|
  {
    At(t, i, pc).(status := Deploying, audit := Audited(t.audit, t.status, Deploying))
  }

  lemma DeployRuns(s: State, t: State, i: nat)
    requires Reaches(s, t) && i < |t.workers| && t.workers[i].pc == Idle && t.workers[i].kind == Deploy && !KeyLive(t, Deploy)
    requires EnsureSiteTransition(t.status, Deploying)
    ensures Reaches(s, Started(t, i, Running))
  {
    DeployStarts(s, t, i);
    var u := At(t, i, AuditStart(t.status)).(status := Deploying);
    var v := u.(audit := Audited(t.audit, t.status, Deploying));
    StartedIs(t, i, Running);
    Proceed(s, u, t.workers, i, Worker(Deploy, AuditStart(t.status), t.clock), Ok, v, Running, Started(t, i, Running));
  }

  lemma StartedIs(t: State, i: nat, pc: Pc)
    requires i < |t.workers| && t.workers[i].kind == Deploy
    ensures Started(t, i, pc) ==
            At(t, i, AuditStart(t.status)).(status := Deploying, audit := Audited(t.audit, t.status, Deploying),
                                            workers := t.workers[i := Worker(Deploy, pc, t.clock)])
  {
  }

  /** ... and, with any outcome, as far as its final write. */
  lemma DeployGetsReady(s: State, t: State, i: nat, to: Status)
    requires Reaches(s, t) && i < |t.workers| && t.workers[i].pc == Idle && t.workers[i].kind == Deploy && !KeyLive(t, Deploy)
    requires EnsureSiteTransition(t.status, Deploying) && Outcome(Deploy, to)
    ensures Reaches(s, Started(t, i, ReadyFinal(Deploying, to)))
  {
    DeployRuns(s, t, i);
    var v := Started(t, i, Running);
    StartedMoves(t, i, Running, ReadyFinal(Deploying, to));
    RunEnds(v, i, to);
    Proceed(s, v, t.workers, i, Worker(Deploy, Running, t.clock), Ends(to), v, ReadyFinal(Deploying, to),
            Started(t, i, ReadyFinal(Deploying, to)));
  }

  lemma RunEnds(t: State, i: nat, to: Status)
    requires i < |t.workers| && t.workers[i].pc == Running && t.workers[i].kind == Deploy && Outcome(Deploy, to)
    ensures WorkerStep(t, i, Ends(to)) == Goto(t, i, ReadyFinal(Deploying, to))
  {
    DeployEdges(to);
  }

  lemma StartedMoves(t: State, i: nat, pc: Pc, next: Pc)
    requires i < |t.workers| && t.workers[i].kind == Deploy
    ensures Started(t, i, pc).(workers := t.workers[i := Worker(Deploy, next, t.clock)]) == Started(t, i, next)
  {
  }

  lemma FinalWrite(t: State, i: nat, local: Status, to: Status)
    requires i < |t.workers| && t.workers[i].pc == ReadyFinal(local, to)
    ensures Next(t, Step(i, Ok)).status == to
    ensures Next(t, Step(i, Ok)).workers == t.workers[i := t.workers[i].(pc := AuditFinal(local, to))]
    ensures InTime(t) ==> InTime(Next(t, Step(i, Ok)))
  {
  }

  /** From any point of any run in time at which an SSL issue has read the row, with a
      status from which it may write, and a deploy can start, the run can go on to a
      write that is no edge: the deploy starts, the issue writes, the deploy fails. */
  lemma IssueBreaksTable(s: State, t: State, i: nat, local: Status, to: Status, j: nat) returns (u: State)
    requires Reaches(s, t)
    requires i < |t.workers| && t.workers[i].kind == Issue && t.workers[i].pc == HaveRow(local)
    requires Outcome(Issue, to) && EnsureSiteTransition(local, to)
    requires j < |t.workers| && t.workers[j].kind == Deploy && t.workers[j].pc == Idle
    requires !KeyLive(t, Deploy) && EnsureSiteTransition(t.status, Deploying)
    ensures Reaches(s, u) && u.status == to && Next(u, Step(j, Ok)).status == DeployFailed
    ensures !SiteEdge(u.status, DeployFailed)
  {
    var r := Goto(t, i, ReadyFinal(local, to));
    assert t.workers == t.workers[i := t.workers[i]];
    IssueEnds(t, i, local, to);
    Proceed(s, t, t.workers, i, t.workers[i], Ends(to), t, ReadyFinal(local, to), r);
    DeployGetsReady(s, r, j, DeployFailed);
    var v := Started(r, j, ReadyFinal(Deploying, DeployFailed));
    ReachedInTime(s, v);
    FinalWrite(v, i, local, to);
    Go(s, v, Step(i, Ok));
    u := Next(v, Step(i, Ok));
    FinalWrite(u, j, Deploying, DeployFailed);
    DeployFailedNotNext(to);
  }

  lemma IssueEnds(t: State, i: nat, local: Status, to: Status)
    requires i < |t.workers| && t.workers[i].kind == Issue && t.workers[i].pc == HaveRow(local)
    requires Outcome(Issue, to) && EnsureSiteTransition(local, to)
    ensures WorkerStep(t, i, Ends(to)) == Goto(t, i, ReadyFinal(local, to))
  {
  }

  lemma DeployFailedNotNext(from: Status)
    requires Outcome(Issue, from)
    ensures !SiteEdge(from, DeployFailed)
  {
  }

  /** A deploy over its TTL releases the key of the next one: then two deploys run at
      once although neither of these two is over time. */
  lemma OverrunBreaksExclusion(s: State)
    requires s.workers == [Worker(Deploy, Idle, 0), Worker(Deploy, Idle, 0), Worker(Deploy, Idle, 0)]
    requires s.clock == 0 && s.keys == map[]
    ensures var t := Next(Next(Next(s, Step(0, Ok)), Tick(900)), Step(0, Fail));
            var u := Next(Next(Next(t, Step(1, Ok)), Step(0, Ok)), Step(2, Ok));
            InTime(u) && !Exclusive(u)
  {
    Taken(s, 0);
    var t := Next(Next(At(s, 0, Locked), Tick(900)), Step(0, Fail));
    assert t == Goto(At(s, 0, Locked).(clock := 900), 0, Leaving);
    SecondAndThird(t);
  }

  lemma SecondAndThird(t: State)
    requires |t.workers| == 3 && !KeyLive(t, Deploy)
    requires t.workers[0] == Worker(Deploy, Leaving, 0)
    requires t.workers[1] == t.workers[2] == Worker(Deploy, Idle, 0)
    ensures var u := Next(Next(Next(t, Step(1, Ok)), Step(0, Ok)), Step(2, Ok));
            InTime(u) && !Exclusive(u)
  {
    var late := Worker(Deploy, Locked, t.clock);
    var u := Next(t, Step(1, Ok));
    Taken(t, 1);
    var v := Next(u, Step(0, Ok));
    assert v == Goto(Del(u, Deploy), 0, Done);
    Taken(v, 2);
    var w := Next(v, Step(2, Ok));
    assert w.workers[1] == late && w.workers[2] == late && !Holds(w.workers[0]);
  }

  lemma Taken(t: State, i: nat)
    requires i < |t.workers| && t.workers[i].pc == Idle && !KeyLive(t, t.workers[i].kind)
    ensures Next(t, Step(i, Ok)) == At(t, i, Locked)
  {
  }
}
