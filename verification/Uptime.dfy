/** The uptime monitor's alerts: streaks, incidents and thresholds per site. */
module Uptime {
  import opened Text

  /** The notification settings a check runs under. */
  datatype Config = Config(notifyDown: bool, notifyRecovery: bool, failThreshold: int, recoveryThreshold: int)

  datatype SiteState = SiteState(failStreak: nat, okStreak: nat, incident: bool)

  datatype Alert = Down | Recovered

  /** One check of a site: its result, whether the store held no earlier check (or
      could not say), and the settings of its cycle. */
  datatype Check = Check(down: bool, firstEver: bool, config: Config)

  const FRESH := SiteState(0, 0, false)

  function ClampInt(n: int, min: int, max: int): int {
    if n < min then min else if n > max then max else n
  }

  function FailTh(c: Config): nat { ClampInt(c.failThreshold, 1, 60) }

  function RecoverTh(c: Config): nat { ClampInt(c.recoveryThreshold, 1, 60) }

  /** What one check does to a site and which alert it sends, if any. */
  function Step(st: SiteState, c: Check): (SiteState, seq<Alert>) {
    var s := if c.down then st.(failStreak := st.failStreak + 1, okStreak := 0)
             else st.(okStreak := st.okStreak + 1, failStreak := 0);
    if c.firstEver then (s, [])
    else if c.down && s.failStreak >= FailTh(c.config) && !s.incident && c.config.notifyDown then
      (s.(incident := true), [Down])
    else if !c.down && s.incident && s.okStreak >= RecoverTh(c.config) && c.config.notifyRecovery then
      (s.(incident := false), [Recovered])
    else (s, [])
  }

  function StateOf(m: map<string, SiteState>, id: string): SiteState {
    if id in m then m[id] else FRESH
  }

  /** Enough checks in a row for a threshold, which counts as at least 1 and at most 60. */
  predicate Enough(streak: nat, threshold: int) {
    streak >= 1 && (streak >= threshold || streak >= 60)
  }

  /** When a check is the one that opens an incident, ... */
  predicate GoesDown(before: SiteState, c: Check) {
    && c.down && !c.firstEver && c.config.notifyDown && !before.incident
    && Enough(before.failStreak + 1, c.config.failThreshold)
  }

  /** ... and when the one that closes it. */
  predicate Recovers(before: SiteState, c: Check) {
    && !c.down && !c.firstEver && c.config.notifyRecovery && before.incident
    && Enough(before.okStreak + 1, c.config.recoveryThreshold)
  }

  class Service {
    var notifyState: map<string, SiteState>
    var sent: seq<(string, Alert)>

    constructor ()
      ensures notifyState == map[] && sent == []
    {
      notifyState, sent := map[], [];
    }

    /** `checkSite`, from the point where the ping has its result. */
    method CheckSite(siteID: string, c: Check)
      modifies this
      ensures var (st, alerts) := Step(StateOf(old(notifyState), siteID), c);
              && notifyState == old(notifyState)[siteID := st]
              && sent == old(sent) + Tag(siteID, alerts)
      ensures var before := if siteID in old(notifyState) then old(notifyState)[siteID] else SiteState(0, 0, false);
              && siteID in notifyState
              && var after := notifyState[siteID];
                 && after.failStreak == (if c.down then before.failStreak + 1 else 0)
                 && after.okStreak == (if c.down then 0 else before.okStreak + 1)
                 && (after.incident <==> (before.incident || GoesDown(before, c)) && !Recovers(before, c))
                 && sent == old(sent) + if GoesDown(before, c) then [(siteID, Down)]
                                        else if Recovers(before, c) then [(siteID, Recovered)] else []
    {
      var failTh := ClampInt(c.config.failThreshold, 1, 60);
      var recoverTh := ClampInt(c.config.recoveryThreshold, 1, 60);
      var notifyDown, notifyRecovery := false, false;
      if siteID !in notifyState {
        notifyState := notifyState[siteID := SiteState(0, 0, false)];
      }
      var st := notifyState[siteID];
      if c.down {
        st := st.(failStreak := st.failStreak + 1);
        st := st.(okStreak := 0);
      } else {
        st := st.(okStreak := st.okStreak + 1);
        st := st.(failStreak := 0);
      }
      if !c.firstEver {
        if c.down && st.failStreak >= failTh && !st.incident && c.config.notifyDown {
          notifyDown := true;
          st := st.(incident := true);
        }
        if !c.down && st.incident && st.okStreak >= recoverTh && c.config.notifyRecovery {
          notifyRecovery := true;
          st := st.(incident := false);
        }
      }
      notifyState := notifyState[siteID := st];
      if notifyDown {
        sent := sent + [(siteID, Down)];
      }
      if notifyRecovery {
        sent := sent + [(siteID, Recovered)];
      }
    }
  }

  function Tag(id: string, alerts: seq<Alert>): seq<(string, Alert)> {
    seq(|alerts|, i requires 0 <= i < |alerts| => (id, alerts[i]))
  }

  // ---- One site over a run ----

  /** The state and the alerts after a run of checks. */
  function Run(st: SiteState, cs: seq<Check>): (SiteState, seq<Alert>) {
    if cs == [] then (st, [])
    else
      var (s, alerts) := Run(st, cs[..|cs| - 1]);
      var (s', more) := Step(s, cs[|cs| - 1]);
      (s', alerts + more)
  }

  function Count(alerts: seq<Alert>, a: Alert): nat {
    multiset(alerts)[a]
  }

  /** DOWN, RECOVERED, DOWN, ... */
  predicate Alternating(alerts: seq<Alert>) {
    forall i :: 0 <= i < |alerts| ==> alerts[i] == if i % 2 == 0 then Down else Recovered
  }

  lemma StepAlternates(st: SiteState, alerts: seq<Alert>, c: Check)
    requires Alternating(alerts) && (st.incident <==> |alerts| % 2 == 1)
    ensures var (st', more) := Step(st, c);
            Alternating(alerts + more) && (st'.incident <==> |alerts + more| % 2 == 1)
  {
  }

  /** Alerts alternate, starting with DOWN; an incident is open exactly when one
      more DOWN than RECOVERED has been sent. */
  lemma {:induction false} AlertsAlternate(cs: seq<Check>)
    ensures var (st, alerts) := Run(FRESH, cs);
            && Alternating(alerts)
            && (st.incident <==> |alerts| % 2 == 1)
            && Count(alerts, Down) == Count(alerts, Recovered) + if st.incident then 1 else 0
  {
    if cs != [] {
      AlertsAlternate(cs[..|cs| - 1]);
      var (st, alerts) := Run(FRESH, cs[..|cs| - 1]);
      StepAlternates(st, alerts, cs[|cs| - 1]);
      CountStep(alerts, Step(st, cs[|cs| - 1]).1);
    }
  }

  /** The last `k` checks all have the given result, and no more than `k` do. */
  predicate Streak(cs: seq<Check>, k: nat, down: bool) {
    && k <= |cs|
    && (forall i :: |cs| - k <= i < |cs| ==> cs[i].down == down)
    && (k == |cs| || cs[|cs| - k - 1].down != down)
  }

  lemma StreakLast(cs: seq<Check>, k: nat, down: bool)
    requires cs != [] && Streak(cs[..|cs| - 1], k, down)
    ensures Streak(cs, if cs[|cs| - 1].down == down then k + 1 else 0, down)
  {
  }

  /** The two counters are the lengths of the longest all-down and all-up endings. */
  lemma {:induction false} StreaksAreSuffixes(cs: seq<Check>)
    ensures Streak(cs, Run(FRESH, cs).0.failStreak, true)
    ensures Streak(cs, Run(FRESH, cs).0.okStreak, false)
  {
    if cs != [] {
      var init := cs[..|cs| - 1];
      var st := Run(FRESH, init).0;
      StreaksAreSuffixes(init);
      StreakLast(cs, st.failStreak, true);
      StreakLast(cs, st.okStreak, false);
      StreakCounters(st, cs[|cs| - 1]);
    }
  }

  lemma StreakCounters(st: SiteState, c: Check)
    ensures Step(st, c).0.failStreak == if c.down then st.failStreak + 1 else 0
    ensures Step(st, c).0.okStreak == if c.down then 0 else st.okStreak + 1
  {
  }

  /** No alert without its streak: a DOWN comes at the end of at least as many failing
      checks in a row as the threshold asks for, a RECOVERED of passing ones. */
  lemma AlertNeedsStreak(cs: seq<Check>, c: Check)
    ensures var alerts := Step(Run(FRESH, cs).0, c).1;
            && (alerts == [Down] ==> exists k :: k >= FailTh(c.config) && Streak(cs + [c], k, true))
            && (alerts == [Recovered] ==> exists k :: k >= RecoverTh(c.config) && Streak(cs + [c], k, false))
  {
    StreaksAreSuffixes(cs + [c]);
    assert (cs + [c])[..|cs|] == cs;
    var st := Run(FRESH, cs + [c]).0;
    assert Streak(cs + [c], st.failStreak, true) && Streak(cs + [c], st.okStreak, false);
  }

  /** The thresholds are `f` and `r` throughout; the switches may vary. */
  predicate Fixed(cs: seq<Check>, f: nat, r: nat) {
    forall c :: c in cs ==> FailTh(c.config) == f && RecoverTh(c.config) == r
  }

  /** What d incidents, opened and recovered from, cost in checks. */
  function Price(d: nat, f: nat, r: nat): nat {
    if d == 0 then 0 else Price(d - 1, f, r) + f + r
  }

  lemma {:induction false} PriceIs(d: nat, f: nat, r: nat)
    ensures Price(d, f, r) == d * f + d * r
  {
    if d > 0 {
      PriceIs(d - 1, f, r);
      assert (d - 1) * f == d * f - f && (d - 1) * r == d * r - r;
    }
  }

  /** How many checks the alerts so far have cost. */
  predicate Paid(n: nat, st: SiteState, d: nat, f: nat, r: nat) {
    if st.incident then d >= 1 && n >= Price(d - 1, f, r) + f + st.okStreak
    else n >= Price(d, f, r) + st.failStreak
  }

  lemma PaidStep(n: nat, st: SiteState, d: nat, c: Check)
    requires Paid(n, st, d, FailTh(c.config), RecoverTh(c.config))
    ensures var (st', more) := Step(st, c);
            Paid(n + 1, st', if more == [Down] then d + 1 else d, FailTh(c.config), RecoverTh(c.config))
  {
  }

  lemma CountStep(alerts: seq<Alert>, more: seq<Alert>)
    requires more == [] || more == [Down] || more == [Recovered]
    ensures Count(alerts + more, Down) == Count(alerts, Down) + if more == [Down] then 1 else 0
    ensures Count(alerts + more, Recovered) == Count(alerts, Recovered) + if more == [Recovered] then 1 else 0
  {
  }

  lemma {:induction false} AlertsArePaid(cs: seq<Check>, f: nat, r: nat)
    requires Fixed(cs, f, r)
    ensures Paid(|cs|, Run(FRESH, cs).0, Count(Run(FRESH, cs).1, Down), f, r)
  {
    if cs != [] {
      var init, c := cs[..|cs| - 1], cs[|cs| - 1];
      assert c in cs;
      AlertsArePaid(init, f, r);
      var (st, alerts) := Run(FRESH, init);
      PaidStep(|init|, st, Count(alerts, Down), c);
      CountStep(alerts, Step(st, c).1);
    }
  }

  /** Alert rate: d DOWN alerts take at least d*F + (d-1)*R checks. */
  lemma RateBound(cs: seq<Check>, f: nat, r: nat)
    requires Fixed(cs, f, r)
    ensures var d := Count(Run(FRESH, cs).1, Down);
            d >= 1 ==> d * f + (d - 1) * r <= |cs|
  {
    AlertsArePaid(cs, f, r);
    RateFromPrice(|cs|, Run(FRESH, cs).0, Count(Run(FRESH, cs).1, Down), f, r);
  }

  lemma RateFromPrice(n: nat, st: SiteState, d: nat, f: nat, r: nat)
    requires Paid(n, st, d, f, r)
    ensures d >= 1 ==> d * f + (d - 1) * r <= n
  {
    if d >= 1 {
      PriceIs(d - 1, f, r);
      assert (d - 1) * f == d * f - f;
    }
  }

  // ---- The bound is met ----

  function Repeat(c: Check, n: nat): (cs: seq<Check>)
    ensures |cs| == n && forall x :: x in cs ==> x == c
  {
    if n == 0 then [] else Repeat(c, n - 1) + [c]
  }

  /** F failures, then R passes and F failures, over and over. */
  function Worst(f: nat, r: nat, d: nat): seq<Check>
    requires d >= 1
  {
    if d == 1 then Failing(f, r) else Worst(f, r, d - 1) + Cycle(f, r)
  }

  function Failing(f: nat, r: nat): seq<Check> {
    Repeat(Check(true, false, Config(true, true, f, r)), f)
  }

  function Cycle(f: nat, r: nat): seq<Check> {
    Repeat(Check(false, false, Config(true, true, f, r)), r) + Failing(f, r)
  }

  lemma {:induction false} RunAppend(st: SiteState, a: seq<Check>, b: seq<Check>)
    ensures Run(st, a + b) == (Run(Run(st, a).0, b).0, Run(st, a).1 + Run(Run(st, a).0, b).1)
  {
    if b == [] {
      assert a + b == a;
      assert Run(st, a).1 + [] == Run(st, a).1;
    } else {
      var init := b[..|b| - 1];
      assert (a + b)[..|a + b| - 1] == a + init;
      RunAppend(st, a, init);
      Assoc(Run(st, a).1, Run(Run(st, a).0, init).1, Step(Run(Run(st, a).0, init).0, b[|b| - 1]).1);
    }
  }

  lemma RunOn(st: SiteState, cs: seq<Check>, c: Check, s: SiteState)
    requires Run(st, cs) == (s, [])
    ensures Run(st, cs + [c]) == Step(s, c)
  {
    assert (cs + [c])[..|cs|] == cs;
    assert [] + Step(s, c).1 == Step(s, c).1;
  }

  lemma RunFail(st: SiteState, cs: seq<Check>, cfg: Config, n: nat, ok: nat)
    requires cfg.notifyDown && n < FailTh(cfg)
    requires Run(st, cs) == (SiteState(n, ok, false), [])
    ensures Run(st, cs + [Check(true, false, cfg)]) ==
            (SiteState(n + 1, 0, n + 1 == FailTh(cfg)), if n + 1 == FailTh(cfg) then [Down] else [])
  {
    RunOn(st, cs, Check(true, false, cfg), SiteState(n, ok, false));
  }

  lemma {:induction false} Fails(st: SiteState, cfg: Config, n: nat)
    requires cfg.notifyDown && !st.incident && st.failStreak == 0 && 1 <= n <= FailTh(cfg)
    ensures Run(st, Repeat(Check(true, false, cfg), n)) ==
            (SiteState(n, 0, n == FailTh(cfg)), if n == FailTh(cfg) then [Down] else [])
  {
    var before := Repeat(Check(true, false, cfg), n - 1);
    if n > 1 {
      Fails(st, cfg, n - 1);
    }
    RunFail(st, before, cfg, n - 1, if n == 1 then st.okStreak else 0);
  }

  lemma RunPass(st: SiteState, cs: seq<Check>, cfg: Config, n: nat, fail: nat)
    requires cfg.notifyRecovery && n < RecoverTh(cfg)
    requires Run(st, cs) == (SiteState(fail, n, true), [])
    ensures Run(st, cs + [Check(false, false, cfg)]) ==
            (SiteState(0, n + 1, n + 1 != RecoverTh(cfg)), if n + 1 == RecoverTh(cfg) then [Recovered] else [])
  {
    RunOn(st, cs, Check(false, false, cfg), SiteState(fail, n, true));
  }

  lemma {:induction false} Passes(st: SiteState, cfg: Config, n: nat)
    requires cfg.notifyRecovery && st.incident && st.okStreak == 0 && 1 <= n <= RecoverTh(cfg)
    ensures Run(st, Repeat(Check(false, false, cfg), n)) ==
            (SiteState(0, n, n != RecoverTh(cfg)), if n == RecoverTh(cfg) then [Recovered] else [])
  {
    var before := Repeat(Check(false, false, cfg), n - 1);
    if n > 1 {
      Passes(st, cfg, n - 1);
    }
    RunPass(st, before, cfg, n - 1, if n == 1 then st.failStreak else 0);
  }

  /** R passes and F failures from an open incident close it and open the next. */
  lemma WorstCycle(f: nat, r: nat)
    requires 1 <= f <= 60 && 1 <= r <= 60
    ensures Run(SiteState(f, 0, true), Cycle(f, r)) == (SiteState(f, 0, true), [Recovered, Down])
  {
    var cfg := Config(true, true, f, r);
    var passes, fails := Repeat(Check(false, false, cfg), r), Failing(f, r);
    Passes(SiteState(f, 0, true), cfg, r);
    Fails(SiteState(0, r, false), cfg, f);
    RunAppend(SiteState(f, 0, true), passes, fails);
    assert [Recovered] + [Down] == [Recovered, Down];
  }

  lemma CountCycle(alerts: seq<Alert>)
    ensures Count(alerts + [Recovered, Down], Down) == Count(alerts, Down) + 1
  {
  }

  lemma CountCycleStart()
    ensures Count([Down], Down) == 1
  {
  }

  lemma WorstStep(f: nat, r: nat, before: seq<Check>)
    requires 1 <= f <= 60 && 1 <= r <= 60
    requires Run(FRESH, before).0 == SiteState(f, 0, true)
    ensures Run(FRESH, before + Cycle(f, r)).0 == SiteState(f, 0, true)
    ensures Count(Run(FRESH, before + Cycle(f, r)).1, Down) == Count(Run(FRESH, before).1, Down) + 1
  {
    WorstCycle(f, r);
    RunAppend(FRESH, before, Cycle(f, r));
    CountCycle(Run(FRESH, before).1);
  }

  lemma WorstLength(f: nat, r: nat, d: nat)
    requires d >= 1
    ensures |Worst(f, r, d)| == d * f + (d - 1) * r
    ensures 1 <= f <= 60 && 1 <= r <= 60 ==> Fixed(Worst(f, r, d), f, r)
  {
    if d > 1 {
      WorstLength(f, r, d - 1);
      assert (d - 1) * f == d * f - f && (d - 2) * r == (d - 1) * r - r;
    }
  }

  lemma {:induction false} WorstRun(f: nat, r: nat, d: nat)
    requires 1 <= f <= 60 && 1 <= r <= 60 && d >= 1
    ensures Run(FRESH, Worst(f, r, d)).0 == SiteState(f, 0, true)
    ensures Count(Run(FRESH, Worst(f, r, d)).1, Down) == d
  {
    if d == 1 {
      Fails(FRESH, Config(true, true, f, r), f);
      CountCycleStart();
    } else {
      WorstRun(f, r, d - 1);
      WorstStep(f, r, Worst(f, r, d - 1));
    }
  }

  /** For every threshold pair and every d, some run of exactly d*F + (d-1)*R checks
      does send d DOWN alerts: the bound cannot be improved. */
  lemma BoundIsMet(f: nat, r: nat, d: nat)
    requires 1 <= f <= 60 && 1 <= r <= 60 && d >= 1
    ensures exists cs :: Fixed(cs, f, r) && |cs| == d * f + (d - 1) * r && Count(Run(FRESH, cs).1, Down) == d
  {
    WorstLength(f, r, d);
    WorstRun(f, r, d);
  }

  // ---- Many sites ----

  /** The whole service over a history of checks of any sites in any order. */
  function RunAll(h: seq<(string, Check)>): (map<string, SiteState>, seq<(string, Alert)>) {
    if h == [] then (map[], [])
    else
      var (m, sent) := RunAll(h[..|h| - 1]);
      var (id, c) := h[|h| - 1];
      var (st, alerts) := Step(StateOf(m, id), c);
      (m[id := st], sent + Tag(id, alerts))
  }

  /** The checks of one site. */
  function ChecksOf(h: seq<(string, Check)>, id: string): seq<Check> {
    if h == [] then []
    else ChecksOf(h[..|h| - 1], id) + if h[|h| - 1].0 == id then [h[|h| - 1].1] else []
  }

  /** The alerts of one site. */
  function AlertsOf(sent: seq<(string, Alert)>, id: string): seq<Alert> {
    if sent == [] then []
    else AlertsOf(sent[..|sent| - 1], id) + if sent[|sent| - 1].0 == id then [sent[|sent| - 1].1] else []
  }

  lemma AlertsOfTag(sent: seq<(string, Alert)>, who: string, alerts: seq<Alert>, id: string)
    requires |alerts| <= 1
    ensures AlertsOf(sent + Tag(who, alerts), id) == AlertsOf(sent, id) + if who == id then alerts else []
  {
    if alerts == [] {
      assert sent + Tag(who, alerts) == sent;
    } else {
      assert (sent + Tag(who, alerts))[..|sent|] == sent;
      assert alerts == [alerts[0]];
    }
  }

  lemma RunSnoc(cs: seq<Check>, c: Check)
    ensures Run(FRESH, cs + [c]) ==
            (Step(Run(FRESH, cs).0, c).0, Run(FRESH, cs).1 + Step(Run(FRESH, cs).0, c).1)
  {
    assert (cs + [c])[..|cs|] == cs;
  }

  /** Sites do not disturb each other: in any history each site's state and alerts
      are those of its own checks alone. */
  lemma {:induction false} SitesIndependent(h: seq<(string, Check)>, id: string)
    ensures StateOf(RunAll(h).0, id) == Run(FRESH, ChecksOf(h, id)).0
    ensures AlertsOf(RunAll(h).1, id) == Run(FRESH, ChecksOf(h, id)).1
  {
    if h != [] {
      var init := h[..|h| - 1];
      SitesIndependent(init, id);
      var (m, sent) := RunAll(init);
      var (who, c) := h[|h| - 1];
      AlertsOfTag(sent, who, Step(StateOf(m, who), c).1, id);
      if who == id {
        RunSnoc(ChecksOf(init, id), c);
      } else {
        assert ChecksOf(init, id) + [] == ChecksOf(init, id);
        assert AlertsOf(sent, id) + [] == AlertsOf(sent, id);
      }
    }
  }
}
