/** The bounded worker pool of `CheckAll`: a main loop that hands eligible sites to
    workers through a ten-slot semaphore, as steps interleaved in any order. */
module UptimePool {

  const MAX_CONCURRENT := 10

  datatype Site = Site(status: string, domainBlank: bool)

  /** Sites the loop does not skip. */
  predicate Eligible(s: Site) {
    s.status in {"deployed", "ssl_pending", "ssl_active"} && !s.domainBlank
  }

  /** Where the worker of a site is: not spawned; running; past its check; past the
      deferred semaphore release; past the deferred `wg.Done`. */
  datatype Worker = Idle | Running | Checked | Released | Finished

  /** Main: at site `i` of the loop; after `wg.Add` for it; after taking a slot for it;
      in `wg.Wait`; returned. */
  datatype Main = Looping(i: nat) | Added(i: nat) | Holding(i: nat) | Waiting | Returned

  /** `sem` is the number of tokens in the channel, `wg` the wait group's counter,
      `checks` the sites checked so far, in order. */
  datatype State = State(main: Main, workers: seq<Worker>, sem: nat, wg: nat, checks: seq<nat>)

  datatype Action = MainStep | WorkerStep(i: nat)

  function Init(n: nat): State {
    State(Looping(0), seq(n, i => Idle), 0, 0, [])
  }

  /** Whether an action can be taken. Sending to a full channel blocks; `Wait` blocks
      until the counter is zero. */
  predicate Enabled(sites: seq<Site>, s: State, a: Action) {
    match a
    case MainStep =>
      (match s.main
       case Looping(i) => true
       case Added(i) => s.sem < MAX_CONCURRENT
       case Holding(i) => true
       case Waiting => s.wg == 0
       case Returned => false)
    case WorkerStep(i) => i < |s.workers| && s.workers[i] in {Running, Checked, Released}
  }

  function Next(sites: seq<Site>, s: State, a: Action): State {
    if !Enabled(sites, s, a) then s
    else
      match a
      case MainStep =>
        (match s.main
         case Looping(i) =>
           if i >= |sites| then s.(main := Waiting)
           else if !Eligible(sites[i]) then s.(main := Looping(i + 1))
           else s.(main := Added(i), wg := s.wg + 1)
         case Added(i) => s.(main := Holding(i), sem := s.sem + 1)
         case Holding(i) =>
           if i < |s.workers| then s.(main := Looping(i + 1), workers := s.workers[i := Running]) else s
         case Waiting => s.(main := Returned)
         case Returned => s)
      case WorkerStep(i) =>
        (match s.workers[i]
         case Running => s.(workers := s.workers[i := Checked], checks := s.checks + [i])
         case Checked =>
           if s.sem == 0 then s else s.(workers := s.workers[i := Released], sem := s.sem - 1)
         case Released =>
           if s.wg == 0 then s else s.(workers := s.workers[i := Finished], wg := s.wg - 1)
         case _ => s)
  }

  /** Any schedule: actions that cannot be taken when they come up are passed over. */
  function Exec(sites: seq<Site>, s: State, schedule: seq<Action>): State {
    if schedule == [] then s
    else Next(sites, Exec(sites, s, schedule[..|schedule| - 1]), schedule[|schedule| - 1])
  }

  // ---- Invariant ----

  function CountIn(ws: seq<Worker>, kinds: set<Worker>): nat {
    if ws == [] then 0 else CountIn(ws[..|ws| - 1], kinds) + if ws[|ws| - 1] in kinds then 1 else 0
  }

  const IN_FLIGHT: set<Worker> := {Running, Checked}
  const UNFINISHED: set<Worker> := {Running, Checked, Released}

  lemma {:induction false} CountUpdate(ws: seq<Worker>, i: nat, w: Worker, kinds: set<Worker>)
    requires i < |ws|
    ensures CountIn(ws[i := w], kinds) ==
            CountIn(ws, kinds) - (if ws[i] in kinds then 1 else 0) + (if w in kinds then 1 else 0)
  {
    var last := |ws| - 1;
    if i == last {
      assert ws[i := w][..last] == ws[..last];
    } else {
      assert ws[i := w][..last] == ws[..last][i := w];
      CountUpdate(ws[..last], i, w, kinds);
    }
  }

  lemma {:induction false} CountPositive(ws: seq<Worker>, kinds: set<Worker>)
    ensures CountIn(ws, kinds) > 0 <==> exists i :: 0 <= i < |ws| && ws[i] in kinds
  {
    if ws != [] {
      CountPositive(ws[..|ws| - 1], kinds);
      if ws[|ws| - 1] !in kinds && exists i :: 0 <= i < |ws| && ws[i] in kinds {
        var i :| 0 <= i < |ws| && ws[i] in kinds;
        assert ws[..|ws| - 1][i] in kinds;
      }
    }
  }

  /** How far the loop has come: sites below have been handled. */
  function Reached(sites: seq<Site>, m: Main): nat {
    match m
    case Looping(i) => i
    case Added(i) => i
    case Holding(i) => i
    case _ => |sites|
  }

  function Times(checks: seq<nat>, i: nat): nat {
    if checks == [] then 0
    else Times(checks[..|checks| - 1], i) + if checks[|checks| - 1] == i then 1 else 0
  }

  /** The slots cover the workers that have not released and the one main holds; the
      wait group covers the unfinished workers and the one main has announced. */
  ghost predicate Counters(sites: seq<Site>, s: State) {
    && |s.workers| == |sites|
    && Reached(sites, s.main) <= |sites|
    && ((s.main.Added? || s.main.Holding?) ==> s.main.i < |sites| && Eligible(sites[s.main.i]))
    && s.sem == CountIn(s.workers, IN_FLIGHT) + (if s.main.Holding? then 1 else 0)
    && s.sem <= MAX_CONCURRENT
    && s.wg == CountIn(s.workers, UNFINISHED) + (if s.main.Added? || s.main.Holding? then 1 else 0)
    && (s.main.Returned? ==> s.wg == 0)
  }

  /** A site has a worker exactly when it is eligible and the loop has passed it, and it
      has been checked once when its worker is past the check, else never. */
  ghost predicate SiteOk(sites: seq<Site>, s: State, i: nat)
    requires |s.workers| == |sites|
  {
    if i < |sites| then
      && (s.workers[i] != Idle <==> i < Reached(sites, s.main) && Eligible(sites[i]))
      && Times(s.checks, i) == if s.workers[i] in {Checked, Released, Finished} then 1 else 0
    else Times(s.checks, i) == 0
  }

  ghost predicate Inv(sites: seq<Site>, s: State) {
    Counters(sites, s) && forall i: nat :: SiteOk(sites, s, i)
  }

  lemma InitInv(sites: seq<Site>)
    ensures Inv(sites, Init(|sites|))
  {
    var ws := Init(|sites|).workers;
    CountPositive(ws, IN_FLIGHT);
    CountPositive(ws, UNFINISHED);
  }

  lemma MainCounters(sites: seq<Site>, s: State)
    requires Inv(sites, s) && Enabled(sites, s, MainStep)
    ensures Counters(sites, Next(sites, s, MainStep))
  {
    if s.main.Holding? {
      assert SiteOk(sites, s, s.main.i);
      CountUpdate(s.workers, s.main.i, Running, IN_FLIGHT);
      CountUpdate(s.workers, s.main.i, Running, UNFINISHED);
    }
  }

  function Advance(w: Worker): Worker {
    match w
    case Running => Checked
    case Checked => Released
    case _ => Finished
  }

  lemma WorkerCounters(sites: seq<Site>, s: State, i: nat)
    requires Counters(sites, s) && Enabled(sites, s, WorkerStep(i))
    ensures Counters(sites, Next(sites, s, WorkerStep(i)))
    ensures Next(sites, s, WorkerStep(i)).workers == s.workers[i := Advance(s.workers[i])]
  {
    var w := Advance(s.workers[i]);
    CountUpdate(s.workers, i, w, IN_FLIGHT);
    CountUpdate(s.workers, i, w, UNFINISHED);
  }

  lemma MainSite(sites: seq<Site>, s: State, i: nat)
    requires Inv(sites, s) && Enabled(sites, s, MainStep)
    ensures |Next(sites, s, MainStep).workers| == |sites| && SiteOk(sites, Next(sites, s, MainStep), i)
  {
    assert SiteOk(sites, s, i);
    if s.main.Holding? {
      assert SiteOk(sites, s, s.main.i);
    }
  }

  lemma WorkerSite(sites: seq<Site>, s: State, j: nat, i: nat)
    requires Inv(sites, s) && Enabled(sites, s, WorkerStep(j))
    ensures |Next(sites, s, WorkerStep(j)).workers| == |sites| && SiteOk(sites, Next(sites, s, WorkerStep(j)), i)
  {
    WorkerCounters(sites, s, j);
    assert SiteOk(sites, s, i) && SiteOk(sites, s, j);
    assert (s.checks + [j])[..|s.checks|] == s.checks;
  }

  lemma NextInv(sites: seq<Site>, s: State, a: Action)
    requires Inv(sites, s)
    ensures Inv(sites, Next(sites, s, a))
  {
    if Enabled(sites, s, a) {
      match a
      case MainStep =>
        MainCounters(sites, s);
        forall i: nat ensures SiteOk(sites, Next(sites, s, a), i) {
          MainSite(sites, s, i);
        }
      case WorkerStep(j) =>
        WorkerCounters(sites, s, j);
        forall i: nat ensures SiteOk(sites, Next(sites, s, a), i) {
          WorkerSite(sites, s, j, i);
        }
    }
  }

  lemma {:induction false} ExecInv(sites: seq<Site>, schedule: seq<Action>)
    ensures Inv(sites, Exec(sites, Init(|sites|), schedule))
  {
    if schedule == [] {
      InitInv(sites);
    } else {
      var init := schedule[..|schedule| - 1];
      ExecInv(sites, init);
      NextInv(sites, Exec(sites, Init(|sites|), init), schedule[|schedule| - 1]);
    }
  }

  /** In every schedule at most ten checks are in flight, and the slots taken are
      exactly the workers started and not yet released, plus the one main is about
      to start. */
  lemma Bounded(sites: seq<Site>, schedule: seq<Action>)
    ensures var s := Exec(sites, Init(|sites|), schedule);
            && CountIn(s.workers, {Running}) <= CountIn(s.workers, IN_FLIGHT) <= 10
            && s.sem == CountIn(s.workers, IN_FLIGHT) + if s.main.Holding? then 1 else 0
  {
    ExecInv(sites, schedule);
    CountSubset(Exec(sites, Init(|sites|), schedule).workers, {Running}, IN_FLIGHT);
  }

  lemma {:induction false} CountSubset(ws: seq<Worker>, a: set<Worker>, b: set<Worker>)
    requires a <= b
    ensures CountIn(ws, a) <= CountIn(ws, b)
  {
    if ws != [] {
      CountSubset(ws[..|ws| - 1], a, b);
    }
  }

  /** No schedule deadlocks: until main has returned, something can move. */
  lemma NeverStuck(sites: seq<Site>, schedule: seq<Action>)
    ensures var s := Exec(sites, Init(|sites|), schedule);
            !s.main.Returned? ==> exists a :: Enabled(sites, s, a)
  {
    ExecInv(sites, schedule);
    var s := Exec(sites, Init(|sites|), schedule);
    if s.main.Added? && s.sem >= MAX_CONCURRENT {
      CountPositive(s.workers, IN_FLIGHT);
      var i :| 0 <= i < |s.workers| && s.workers[i] in IN_FLIGHT;
      assert Enabled(sites, s, WorkerStep(i));
    } else if s.main.Waiting? && s.wg > 0 {
      CountPositive(s.workers, UNFINISHED);
      var i :| 0 <= i < |s.workers| && s.workers[i] in UNFINISHED;
      assert Enabled(sites, s, WorkerStep(i));
    } else if !s.main.Returned? {
      assert Enabled(sites, s, MainStep);
    }
  }

  // ---- Termination ----

  function WorkerLeft(w: Worker): nat {
    match w
    case Idle => 0
    case Running => 3
    case Checked => 2
    case Released => 1
    case Finished => 0
  }

  function WorkersLeft(ws: seq<Worker>): nat {
    if ws == [] then 0 else WorkersLeft(ws[..|ws| - 1]) + WorkerLeft(ws[|ws| - 1])
  }

  function MainLeft(n: nat, m: Main): int {
    match m
    case Looping(i) => 6 * (n - i) + 2
    case Added(i) => 6 * (n - i) + 1
    case Holding(i) => 6 * (n - i)
    case Waiting => 1
    case Returned => 0
  }

  /** An upper bound on the steps still possible. */
  function Left(sites: seq<Site>, s: State): int {
    MainLeft(|sites|, s.main) + WorkersLeft(s.workers)
  }

  lemma {:induction false} LeftUpdate(ws: seq<Worker>, i: nat, w: Worker)
    requires i < |ws|
    ensures WorkersLeft(ws[i := w]) == WorkersLeft(ws) - WorkerLeft(ws[i]) + WorkerLeft(w)
  {
    var last := |ws| - 1;
    if i == last {
      assert ws[i := w][..last] == ws[..last];
    } else {
      assert ws[i := w][..last] == ws[..last][i := w];
      LeftUpdate(ws[..last], i, w);
    }
  }

  lemma MainUses(sites: seq<Site>, s: State)
    requires Inv(sites, s) && Enabled(sites, s, MainStep)
    ensures Left(sites, Next(sites, s, MainStep)) < Left(sites, s)
  {
    if s.main.Holding? {
      assert SiteOk(sites, s, s.main.i);
      LeftUpdate(s.workers, s.main.i, Running);
    }
  }

  lemma WorkerUses(sites: seq<Site>, s: State, i: nat)
    requires Inv(sites, s) && Enabled(sites, s, WorkerStep(i))
    ensures Left(sites, Next(sites, s, WorkerStep(i))) < Left(sites, s)
  {
    CountPositive(s.workers, IN_FLIGHT);
    CountPositive(s.workers, UNFINISHED);
    LeftUpdate(s.workers, i, Advance(s.workers[i]));
  }

  /** Every step taken uses up the bound: no schedule can go on for ever. */
  lemma StepUses(sites: seq<Site>, schedule: seq<Action>, a: Action)
    ensures var s := Exec(sites, Init(|sites|), schedule);
            && Left(sites, s) >= 0
            && (Enabled(sites, s, a) ==> Left(sites, Next(sites, s, a)) < Left(sites, s))
  {
    ExecInv(sites, schedule);
    var s := Exec(sites, Init(|sites|), schedule);
    if Enabled(sites, s, a) {
      match a
      case MainStep => MainUses(sites, s);
      case WorkerStep(i) => WorkerUses(sites, s, i);
    }
  }

  /** Main returns only when all is done: each eligible site has been checked exactly
      once, no other site at all, and no worker or slot is left. */
  lemma ReturnMeansDone(sites: seq<Site>, schedule: seq<Action>)
    ensures var s := Exec(sites, Init(|sites|), schedule);
            s.main.Returned? ==>
              && (forall i: nat :: Times(s.checks, i) == if i < |sites| && Eligible(sites[i]) then 1 else 0)
              && (forall i: nat :: multiset(s.checks)[i] ==
                    if i < |sites| && !sites[i].domainBlank && sites[i].status in {"deployed", "ssl_pending", "ssl_active"}
                    then 1 else 0)
              && s.sem == 0
              && |s.workers| == |sites|
              && forall i :: 0 <= i < |sites| ==> s.workers[i] == if Eligible(sites[i]) then Finished else Idle
  {
    ExecInv(sites, schedule);
    var s := Exec(sites, Init(|sites|), schedule);
    if s.main.Returned? {
      CountPositive(s.workers, UNFINISHED);
      CountSubset(s.workers, IN_FLIGHT, UNFINISHED);
      forall i: nat
        ensures Times(s.checks, i) == if i < |sites| && Eligible(sites[i]) then 1 else 0
        ensures Times(s.checks, i) == multiset(s.checks)[i]
        ensures i < |sites| ==> s.workers[i] == if Eligible(sites[i]) then Finished else Idle
      {
        assert SiteOk(sites, s, i);
        TimesIsCount(s.checks, i);
      }
    }
  }

  lemma {:induction false} TimesIsCount(checks: seq<nat>, i: nat)
    ensures Times(checks, i) == multiset(checks)[i]
  {
    if checks != [] {
      TimesIsCount(checks[..|checks| - 1], i);
      assert checks == checks[..|checks| - 1] + [checks[|checks| - 1]];
    }
  }
}
