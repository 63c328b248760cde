/** `ExecuteDeploy` from its lock to its deferred release: the row, the audit log, the
    task log, the commands it runs and the certificates it asks for. */
module DeployService {
  import opened Calls
  import opened Lifecycle
  import opened Text

  datatype Failure =
    | AcquireFailed | SiteUnread | ServerUnread | ServerNotReady | NotDeployable   // before the start write
    | StartUnwritten
    | LateTransition                                                               // a check after the start write
    | FirewallFailed(message: string) | CommandFailed(message: string)
    | FinalUnwritten

  /** Everything the outside decides in one run: what each call returns. */
  datatype World = World(
    lock: Lock, released: bool, logCreated: bool, siteFound: bool, server: Option<Status>, message: string,
    start: Write, startAudited: bool, firewall: Option<string>,
    commands: seq<(string, Option<string>)>,     // output and error of each, in order
    aliases: seq<string>, aliasCerts: seq<Option<string>>, cert: Option<string>,
    final: Write, finalError: string, finalAudited: bool, enqueued: bool, finished: bool)

  /** A `Finish` call on a task log: a status, the output text, and whether it got through. */
  datatype Finish = Finish(verdict: string, text: string, stored: bool)

  /** A task log and the `Finish` calls made on it. */
  datatype TaskLog = TaskLog(siteID: string, finishes: seq<Finish>)

  const REPO_STEPS: seq<string> := ["deploy_app", "write_nginx", "link_nginx", "nginx_test", "nginx_reload"]
  const STATIC_STEPS: seq<string> := ["mkdir", "write_html", "write_nginx", "link_nginx", "nginx_test", "nginx_reload"]
  const SUCCESS := "success"
  const FAILED := "failed"
  const SSL_ALIAS := "ssl_alias_"
  const SSL_ISSUE := "ssl_issue"
  const ERROR := "ERROR: "
  const ISSUED := "certificate issued"
  const FIREWALL := "firewall:ensure_default_rules"
  const LOCK_PREFIX := "lock:site:deploy:"

  /** The lines `appendOutput` adds. */
  function Entry(cmd: string, out: string, err: Option<string>): string {
    "$ " + cmd + "\n" + (if out != "" then out + "\n" else "")
    + (match err case None => "" case Some(e) => "ERROR: " + e + "\n")
  }

  /** Read line by line, the entry of a command is the command, what it said and its error,
      where each is a line. */
  lemma EntryReads(cmd: string, out: string, err: Option<string>)
    requires '\n' !in cmd && '\n' !in out && (err.Some? ==> '\n' !in err.value)
    ensures Split(Entry(cmd, out, err), '\n') ==
            ["$ " + cmd] + (if out == "" then [] else [out])
            + (match err case None => [] case Some(e) => ["ERROR: " + e]) + [""]
  {
    var a := "$ " + cmd;
    var b := if out == "" then "" else out + "\n";
    var c := match err case None => "" case Some(e) => "ERROR: " + e + "\n";
    Assoc(a + "\n", b, c);
    SplitPlain("", '\n');
    OneLine(a, b + c);
    if out == "" {
      assert b + c == c;
    } else {
      Assoc(out, "\n", c);
      OneLine(out, c);
    }
    if err.Some? {
      OneLine("ERROR: " + err.value, "");
      assert "ERROR: " + err.value + "\n" + "" == c;
    }
  }

  lemma OneLine(line: string, rest: string)
    requires '\n' !in line
    ensures Split(line + "\n" + rest, '\n') == [line] + Split(rest, '\n')
  {
    SplitConcat(line, rest, '\n');
    SplitPlain(line, '\n');
  }

  /** A world answers every call the run may make. */
  predicate Answers(w: World, steps: seq<string>) {
    |w.commands| == |steps| && |w.aliasCerts| == |w.aliases|
  }

  // ---- What a run comes to ----

  /** How many commands run: all up to and including the first that fails. */
  function Ran(commands: seq<(string, Option<string>)>): (n: nat)
    ensures n <= |commands|
    ensures forall i :: 0 <= i < n - 1 ==> commands[i].1 == None
    ensures n < |commands| ==> n > 0 && commands[n - 1].1.Some?
  {
    if commands == [] then 0
    else if commands[0].1.Some? then 1
    else 1 + Ran(commands[1..])
  }

  predicate AllRan(commands: seq<(string, Option<string>)>) {
    forall i :: 0 <= i < |commands| ==> commands[i].1 == None
  }

  /** Whether the run gets as far as its start write. */
  predicate Admitted(w: World, status: Status) {
    && w.siteFound
    && (w.server == Some(ReadyForDeploy) || w.server == Some(Deployed))
    && EnsureSiteTransition(status, Deploying)
  }

  /** The outcome a run that has started tries to write. */
  function Outcome(w: World): Status {
    if w.firewall.Some? || !AllRan(w.commands) then DeployFailed
    else if w.cert.Some? then SslPending
    else Deployed
  }

  /** The stored status after a run that holds its lock. */
  function StatusAfter(w: World, status: Status): Status {
    if !Admitted(w, status) || w.start == WriteFailed then status
    else if w.start == WriteLost || w.final == WriteFailed then Deploying
    else Outcome(w)
  }

  /** The audit log after it. */
  function AuditAfter(w: World, status: Status, audit: seq<Event>): seq<Event> {
    if !Admitted(w, status) || w.start != Written then audit
    else
      var started := if w.startAudited then Audited(audit, status, Deploying) else audit;
      if w.final != Written || !w.finalAudited then started
      else Audited(started, Deploying, Outcome(w))
  }

  /** Whether it returns nil. */
  predicate Succeeds(w: World, status: Status) {
    Admitted(w, status) && w.start == Written && w.final == Written && Outcome(w) != DeployFailed
  }

  /** Whether it puts an SSL issue in the queue, if there is one. */
  predicate Queued(w: World, status: Status) {
    Succeeds(w, status) && Outcome(w) == SslPending && w.enqueued
  }

  /** Whether the start write went through and was seen to. */
  predicate Started(w: World, status: Status) {
    Admitted(w, status) && w.start == Written
  }

  /** The text a created log is finished with. */
  function LogText(w: World, status: Status, steps: seq<string>, domain: string): string
    requires Answers(w, steps)
  {
    if Started(w, status) then Said(w, steps, domain) + WorkExtra(w) else ERROR + w.message
  }

  function WorkResult(w: World): Option<Failure>
  {
    if w.final != Written then Some(FinalUnwritten)
    else if w.firewall.Some? then Some(FirewallFailed(w.firewall.value))
    else if !AllRan(w.commands) then Some(CommandFailed(FirstError(w.commands)))
    else None
  }

  function FirstError(commands: seq<(string, Option<string>)>): string {
    if Ran(commands) > 0 && commands[Ran(commands) - 1].1.Some? then commands[Ran(commands) - 1].1.value else ""
  }

  /** The one case in which the log's last words are not in the output buffer. */
  function WorkExtra(w: World): string {
    if Outcome(w) == Deployed && w.final != Written then ERROR + w.finalError else ""
  }

  function FinishedBy(logs: seq<TaskLog>, created: bool, f: Finish): seq<TaskLog>
    requires created ==> logs != []
  {
    if created then Finished(logs, f) else logs
  }

  function Certified(w: World, domain: string): seq<string> {
    if w.firewall.Some? || !AllRan(w.commands) then [] else OtherAliases(w.aliases, domain) + [domain]
  }

  /** The certificates asked for, best effort, once the commands are through: those of
      the aliases other than the domain, then the domain's. */
  function OtherAliases(aliases: seq<string>, domain: string): seq<string> {
    if aliases == [] then []
    else OtherAliases(aliases[..|aliases| - 1], domain) +
         if aliases[|aliases| - 1] != domain then [aliases[|aliases| - 1]] else []
  }

  /** All of them but the domain, as often as they are listed. */
  lemma {:induction false} OtherAliasesExact(aliases: seq<string>, domain: string)
    ensures domain !in OtherAliases(aliases, domain)
    ensures multiset(OtherAliases(aliases, domain)) == multiset(aliases)[domain := 0]
    ensures domain !in aliases ==> OtherAliases(aliases, domain) == aliases
  {
    if aliases != [] {
      var init, last := aliases[..|aliases| - 1], aliases[|aliases| - 1];
      OtherAliasesExact(init, domain);
      assert aliases == init + [last];
      AliasCount(init, last, OtherAliases(init, domain), domain);
    }
  }

  lemma AliasCount(init: seq<string>, last: string, others: seq<string>, domain: string)
    requires multiset(others) == multiset(init)[domain := 0]
    ensures multiset(others + if last != domain then [last] else []) == multiset(init + [last])[domain := 0]
  {
  }

  /** What the output buffer gets from the first `n` commands. */
  function Transcript(steps: seq<string>, commands: seq<(string, Option<string>)>, n: nat): string
    requires n <= |steps| && n <= |commands|
  {
    if n == 0 then ""
    else Transcript(steps, commands, n - 1) + Entry(steps[n - 1], commands[n - 1].0, commands[n - 1].1)
  }

  function AliasLines(aliases: seq<string>, certs: seq<Option<string>>, domain: string): string
    requires |aliases| == |certs|
  {
    if aliases == [] then ""
    else
      var last := |aliases| - 1;
      AliasLines(aliases[..last], certs[..last], domain) +
      if aliases[last] != domain then Entry(SSL_ALIAS + aliases[last], "", certs[last]) else ""
  }

  function CertLine(cert: Option<string>): string {
    if cert.Some? then Entry(SSL_ISSUE, "", cert) else Entry(SSL_ISSUE, ISSUED, None)
  }

  /** The output of a run that has started: the firewall's error, or the commands' output
      up to the first error, then the certificates'. */
  function Said(w: World, steps: seq<string>, domain: string): string
    requires Answers(w, steps)
  {
    if w.firewall.Some? then Entry(FIREWALL, "", w.firewall)
    else
      Transcript(steps, w.commands, Ran(w.commands)) +
      if !AllRan(w.commands) then ""
      else AliasLines(w.aliases, w.aliasCerts, domain) +
           CertLine(w.cert)
  }

  // ---- The same, said of the calls alone ----

  /** What a run may change, besides its lock and its log. */
  datatype View = View(status: Status, audit: seq<Event>, issues: seq<string>, ran: seq<string>, certified: seq<string>)

  /** The site cannot be deployed: it or its server cannot be read, the server is not
      ready, or the site is in none of the statuses that may start. */
  predicate Refused(w: World, status: Status) {
    || !w.siteFound || w.server.None?
    || (w.server.value != ReadyForDeploy && w.server.value != Deployed)
    || status !in {Draft, Deploying, DeployFailed, SslPending, Deployed}
  }

  /** The firewall's rules and every command come through. */
  predicate NoError(w: World) {
    w.firewall.None? && forall i :: 0 <= i < |w.commands| ==> w.commands[i].1.None?
  }

  /** The commands up to and including the first that fails, of which `n` run. */
  predicate RunsFirst(w: World, n: nat) {
    && n <= |w.commands|
    && (forall i :: 0 <= i < n - 1 ==> w.commands[i].1.None?)
    && (n < |w.commands| ==> n > 0 && w.commands[n - 1].1.Some?)
  }

  /** The events of a run past its start write. */
  function Told(w: World, from: Status, to: Status): seq<Event> {
    (if w.startAudited && from != Deploying then [Event(from, Deploying)] else []) +
    (if w.final == Written && w.finalAudited then [Event(Deploying, to)] else [])
  }

  /** What a run past its start write comes to, with `to` the outcome to be stored. */
  ghost predicate Goes(w: World, hasAudit: bool, hasQueue: bool, siteID: string, steps: seq<string>, domain: string,
                 before: View, after: View, err: Option<Failure>, to: Status) {
    && after.status == (if w.final == WriteFailed then Deploying else to)
    && after.audit == before.audit + (if hasAudit then Told(w, before.status, to) else [])
    && after.issues == before.issues + (if hasQueue && w.enqueued && w.final == Written && to == SslPending then [siteID] else [])
    && (if w.firewall.Some? then after.ran == before.ran
        else exists n: nat :: n <= |steps| && RunsFirst(w, n) && after.ran == before.ran + steps[..n])
    && (if NoError(w) then after.certified == before.certified + OtherAliases(w.aliases, domain) + [domain]
        else after.certified == before.certified)
    && (err.None? <==> NoError(w) && w.final == Written)
    && (w.firewall.Some? && w.final == Written ==> err == Some(FirewallFailed(w.firewall.value)))
    && (w.firewall.None? && !NoError(w) && w.final == Written ==>
          exists n: nat :: RunsFirst(w, n) && n > 0 && w.commands[n - 1].1.Some? && err == Some(CommandFailed(w.commands[n - 1].1.value)))
  }

  /** What a run that holds its lock comes to: a refused run, or one whose start is not
      written, leaves everything as it is; a lost reply leaves `deploying`; and otherwise
      it goes on to store what the calls make of it. */
  ghost predicate ComesTo(w: World, hasAudit: bool, hasQueue: bool, siteID: string, steps: seq<string>, domain: string,
                    before: View, after: View, err: Option<Failure>) {
    if Refused(w, before.status) || w.start == WriteFailed then err.Some? && after == before
    else if w.start == WriteLost then err.Some? && after == before.(status := Deploying)
    else
      Goes(w, hasAudit, hasQueue, siteID, steps, domain, before, after, err,
           if !NoError(w) then DeployFailed else if w.cert.Some? then SslPending else Deployed)
  }

  lemma RefusedIff(w: World, status: Status)
    ensures Refused(w, status) <==> !Admitted(w, status)
    ensures NoError(w) <==> w.firewall.None? && AllRan(w.commands)
  {
    DeployEdges(status);
  }

  /** The log of a run that did not start says why. */
  lemma LogTextExact(w: World, status: Status, steps: seq<string>, domain: string)
    requires Answers(w, steps) && (Refused(w, status) || w.start != Written)
    ensures LogText(w, status, steps, domain) == "ERROR: " + w.message
  {
    RefusedIff(w, status);
  }

  lemma ToldIs(w: World, audit: seq<Event>, from: Status, to: Status)
    requires to != Deploying
    ensures var started := if w.startAudited then Audited(audit, from, Deploying) else audit;
            audit + Told(w, from, to) ==
            if w.final != Written || !w.finalAudited then started else Audited(started, Deploying, to)
  {
  }

  lemma RanFirst(w: World)
    ensures RunsFirst(w, Ran(w.commands))
    ensures !AllRan(w.commands) ==> Ran(w.commands) > 0 && w.commands[Ran(w.commands) - 1].1.Some?
  {
    LastRan(w.commands);
  }

  lemma {:induction false} LastRan(commands: seq<(string, Option<string>)>)
    ensures !AllRan(commands) ==> Ran(commands) > 0 && commands[Ran(commands) - 1].1.Some?
  {
    if commands != [] && commands[0].1.None? {
      LastRan(commands[1..]);
      if AllRan(commands[1..]) {
        assert forall i :: 0 < i < |commands| ==> commands[i] == commands[1..][i - 1];
      }
    }
  }

  class Service {
    const hasLock: bool
    const hasTaskLogs: bool
    const hasAudit: bool
    const hasSslQueue: bool

    // The site's row.
    var status: Status
    const domain: string
    const steps: seq<string>

    var keys: set<string>
    var audit: seq<Event>
    var logs: seq<TaskLog>
    var issues: seq<string>        // SSL issue tasks in the queue
    var ran: seq<string>           // commands run on the server
    var certified: seq<string>     // domains a certificate was asked for
    var output: string             // outputBuf

    constructor (lock: bool, taskLogs: bool, audited: bool, queue: bool, row: Status, siteDomain: string, repo: bool)
      ensures status == row && logs == [] && audit == [] && issues == [] && keys == {}
      ensures steps == (if repo then REPO_STEPS else STATIC_STEPS) && domain == siteDomain
      ensures hasLock == lock && hasTaskLogs == taskLogs && hasAudit == audited && hasSslQueue == queue
    {
      hasLock, hasTaskLogs, hasAudit, hasSslQueue := lock, taskLogs, audited, queue;
      status, domain := row, siteDomain;
      steps := if repo then REPO_STEPS else STATIC_STEPS;
      keys, audit, logs, issues, ran, certified, output := {}, [], [], [], [], [], "";
    }

    function Now(): View
      reads this
    {
      View(status, audit, issues, ran, certified)
    }

    /** `finishLog` on the run's own log, the last one; nothing when none was created. */
    method FinishLog(created: bool, w: World, verdict: string, extra: string)
      requires created ==> logs != []
      modifies this`logs
      ensures logs == FinishedBy(old(logs), created, Finish(verdict, output + extra, w.finished))
    {
      if created {
        var l := logs[|logs| - 1];
        logs := logs[|logs| - 1 := l.(finishes := l.finishes + [Finish(verdict, output + extra, w.finished)])];
      }
    }

    method AppendOutput(cmd: string, out: string, err: Option<string>)
      modifies this`output
      ensures output == old(output) + Entry(cmd, out, err)
    {
      output := output + "$ " + cmd + "\n";
      if out != "" {
        output := output + out + "\n";
      }
      match err {
        case None =>
        case Some(e) => output := output + "ERROR: " + e + "\n";
      }
    }

    /** The command loop: stops at the first error. */
    method RunCommands(commands: seq<(string, Option<string>)>) returns (deployErr: Option<string>)
      requires |commands| == |steps|
      modifies this`ran, this`output
      ensures ran == old(ran) + steps[..Ran(commands)]
      ensures output == old(output) + Transcript(steps, commands, Ran(commands))
      ensures deployErr.None? <==> AllRan(commands)
      ensures deployErr.Some? ==> deployErr == commands[Ran(commands) - 1].1
    {
      deployErr := None;
      var i := 0;
      while i < |steps|
        invariant 0 <= i <= |steps|
        invariant ran == old(ran) + steps[..i]
        invariant output == old(output) + Transcript(steps, commands, i)
        invariant deployErr.None? && AllRan(commands[..i])
        invariant Ran(commands) == i + Ran(commands[i..])
      {
        ran := ran + [steps[i]];
        AppendOutput(steps[i], commands[i].0, commands[i].1);
        TakeSnoc(steps, i);
        Assoc(old(ran), steps[..i], [steps[i]]);
        Assoc(old(output), Transcript(steps, commands, i), Entry(steps[i], commands[i].0, commands[i].1));
        TakeSnoc(commands, i);
        assert commands[i..][1..] == commands[i + 1..];
        if commands[i].1.Some? {
          deployErr := commands[i].1;
          break;
        }
        i := i + 1;
      }
      TakeAll(commands);
    }

    /** The alias loop: errors only show in the output. */
    method IssueAliases(aliases: seq<string>, certs: seq<Option<string>>)
      requires |aliases| == |certs|
      modifies this`certified, this`output
      ensures certified == old(certified) + OtherAliases(aliases, domain)
      ensures output == old(output) + AliasLines(aliases, certs, domain)
    {
      var i := 0;
      while i < |aliases|
        invariant 0 <= i <= |aliases|
        invariant certified == old(certified) + OtherAliases(aliases[..i], domain)
        invariant output == old(output) + AliasLines(aliases[..i], certs[..i], domain)
      {
        TakeSnoc(aliases, i);
        TakeSnoc(certs, i);
        IssueAlias(aliases[i], certs[i]);
        OneMoreAlias(old(certified), aliases[..i], aliases[i], domain);
        OneMoreLine(old(output), aliases[..i], certs[..i], aliases[i], certs[i], domain);
        i := i + 1;
      }
      TakeAll(aliases);
      TakeAll(certs);
    }

    /** The loop's body. */
    method IssueAlias(alias: string, cert: Option<string>)
      modifies this`certified, this`output
      ensures certified == old(certified) + if alias != domain then [alias] else []
      ensures output == old(output) + if alias != domain then Entry(SSL_ALIAS + alias, "", cert) else ""
    {
      if alias != domain {
        certified := certified + [alias];
        AppendOutput(SSL_ALIAS + alias, "", cert);
      }
    }

    method WriteStatus(to: Status, result: Write) returns (ok: bool)
      modifies this`status
      ensures ok <==> result == Written
      ensures status == if result == WriteFailed then old(status) else to
    {
      if result != WriteFailed {
        status := to;
      }
      ok := result == Written;
    }

    method WriteAudit(from: Status, to: Status, works: bool)
      modifies this`audit
      ensures audit == if hasAudit && works then Audited(old(audit), from, to) else old(audit)
    {
      if hasAudit && from != to && works {
        audit := audit + [Event(from, to)];
      }
    }

    /** The block every ending shares: check the transition, write the status, audit it.
        When the check or the write fails the log is finished here, as failed. */
    method Settle(to: Status, w: World, extra: string, unwritten: string) returns (err: Option<Failure>)
      requires hasTaskLogs && w.logCreated ==> logs != []
      modifies this`status, this`audit, this`logs
      ensures var passes := EnsureSiteTransition(old(status), to);
              && status == (if !passes || w.final == WriteFailed then old(status) else to)
              && audit == (if passes && hasAudit && w.final == Written && w.finalAudited
                           then Audited(old(audit), old(status), to) else old(audit))
              && err == (if !passes then Some(LateTransition) else if w.final == Written then None else Some(FinalUnwritten))
              && logs == if err.Some? then FinishedBy(old(logs), hasTaskLogs && w.logCreated,
                                                      Finish(FAILED, output + if passes then unwritten else extra, w.finished))
                         else old(logs)
    {
      var created := hasTaskLogs && w.logCreated;
      if !EnsureSiteTransition(status, to) {
        FinishLog(created, w, FAILED, extra);
        return Some(LateTransition);
      }
      var prev := status;
      var ok := WriteStatus(to, w.final);
      if !ok {
        FinishLog(created, w, FAILED, unwritten);
        return Some(FinalUnwritten);
      }
      WriteAudit(prev, to, w.finalAudited);
      return None;
    }

    /** The two endings without a certificate: the firewall's error and a command's. */
    method Fail(w: World, failure: Failure) returns (err: Option<Failure>)
      requires status == Deploying
      requires hasTaskLogs && w.logCreated ==> logs != []
      modifies this`status, this`audit, this`logs
      ensures status == if w.final == WriteFailed then Deploying else DeployFailed
      ensures audit == if hasAudit && w.final == Written && w.finalAudited
                       then Audited(old(audit), Deploying, DeployFailed) else old(audit)
      ensures err == Some(if w.final == Written then failure else FinalUnwritten)
      ensures logs == FinishedBy(old(logs), hasTaskLogs && w.logCreated, Finish(FAILED, output, w.finished))
    {
      OutcomesFollow();
      assert output + "" == output;
      err := Settle(DeployFailed, w, "", "");
      if err.Some? {
        return;
      }
      FinishLog(hasTaskLogs && w.logCreated, w, FAILED, "");
      return Some(failure);
    }

    /** The ending without a certificate: an SSL issue is left to try again. */
    method EndPending(siteID: string, w: World) returns (err: Option<Failure>)
      requires status == Deploying
      requires hasTaskLogs && w.logCreated ==> logs != []
      modifies this`status, this`audit, this`logs, this`issues
      ensures status == if w.final == WriteFailed then Deploying else SslPending
      ensures audit == if hasAudit && w.final == Written && w.finalAudited
                       then Audited(old(audit), Deploying, SslPending) else old(audit)
      ensures issues == old(issues) + if hasSslQueue && w.enqueued && w.final == Written then [siteID] else []
      ensures err == if w.final == Written then None else Some(FinalUnwritten)
      ensures logs == FinishedBy(old(logs), hasTaskLogs && w.logCreated,
                                 Finish(if err.None? then SUCCESS else FAILED, output, w.finished))
    {
      OutcomesFollow();
      assert output + "" == output;
      err := Settle(SslPending, w, "", "");
      if err.Some? {
        return;
      }
      if hasSslQueue && w.enqueued {
        issues := issues + [siteID];
      }
      FinishLog(hasTaskLogs && w.logCreated, w, SUCCESS, "");
      return None;
    }

    /** The ending with one. */
    method EndDeployed(w: World) returns (err: Option<Failure>)
      requires status == Deploying
      requires hasTaskLogs && w.logCreated ==> logs != []
      modifies this`status, this`audit, this`logs
      ensures status == if w.final == WriteFailed then Deploying else Deployed
      ensures audit == if hasAudit && w.final == Written && w.finalAudited
                       then Audited(old(audit), Deploying, Deployed) else old(audit)
      ensures err == if w.final == Written then None else Some(FinalUnwritten)
      ensures logs == FinishedBy(old(logs), hasTaskLogs && w.logCreated,
                                 Finish(if err.None? then SUCCESS else FAILED,
                                        output + if w.final != Written then ERROR + w.finalError else "", w.finished))
    {
      OutcomesFollow();
      err := Settle(Deployed, w, ERROR, ERROR + w.finalError);
      if err.Some? {
        return;
      }
      FinishLog(hasTaskLogs && w.logCreated, w, SUCCESS, "");
      return None;
    }

    /** The two endings with all commands through: with a certificate and without. */
    method Certify(siteID: string, w: World) returns (err: Option<Failure>)
      requires Answers(w, steps) && status == Deploying
      requires hasTaskLogs && w.logCreated ==> logs != []
      modifies this`status, this`audit, this`logs, this`issues, this`certified, this`output
      ensures var to := if w.cert.Some? then SslPending else Deployed;
              && status == (if w.final == WriteFailed then Deploying else to)
              && audit == (if hasAudit && w.final == Written && w.finalAudited
                           then Audited(old(audit), Deploying, to) else old(audit))
              && issues == old(issues) + if hasSslQueue && w.enqueued && w.final == Written && to == SslPending then [siteID] else []
      ensures err == if w.final == Written then None else Some(FinalUnwritten)
      ensures output == old(output) + AliasLines(w.aliases, w.aliasCerts, domain) + CertLine(w.cert)
      ensures logs == FinishedBy(old(logs), hasTaskLogs && w.logCreated,
                                 Finish(if err.None? then SUCCESS else FAILED,
                                        output + if w.final != Written && w.cert.None? then ERROR + w.finalError else "",
                                        w.finished))
      ensures certified == old(certified) + (OtherAliases(w.aliases, domain) + [domain])
    {
      IssueAliases(w.aliases, w.aliasCerts);
      Assoc(old(certified), OtherAliases(w.aliases, domain), [domain]);
      certified := certified + [domain];
      if w.cert.Some? {
        AppendOutput(SSL_ISSUE, "", w.cert);
        NothingAfter(output);
        err := EndPending(siteID, w);
      } else {
        AppendOutput(SSL_ISSUE, ISSUED, None);
        err := EndDeployed(w);
        assert issues + [] == issues;
      }
    }

    /** From the start write on: every later check passes, since the table leads from
        `deploying` to each outcome. */
    method Work(siteID: string, w: World) returns (err: Option<Failure>)
      requires Answers(w, steps) && status == Deploying && output == ""
      requires hasTaskLogs && w.logCreated ==> logs != []
      modifies this`status, this`audit, this`logs, this`issues, this`ran, this`certified, this`output
      ensures status == if w.final == WriteFailed then Deploying else Outcome(w)
      ensures audit == if hasAudit && w.final == Written && w.finalAudited
                       then Audited(old(audit), Deploying, Outcome(w)) else old(audit)
      ensures err == WorkResult(w)
      ensures logs == FinishedBy(old(logs), hasTaskLogs && w.logCreated,
                                 Finish(if err.None? then SUCCESS else FAILED, Said(w, steps, domain) + WorkExtra(w), w.finished))
      ensures issues == old(issues) + if hasSslQueue && w.enqueued && err.None? && Outcome(w) == SslPending then [siteID] else []
      ensures ran == old(ran) + if w.firewall.Some? then [] else steps[..Ran(w.commands)]
      ensures certified == old(certified) + Certified(w, domain)
    {
      if w.firewall.Some? {
        SaidByFirewall(w, steps, domain);
        AppendOutput(FIREWALL, "", w.firewall);
        err := Fail(w, FirewallFailed(w.firewall.value));
      } else {
        err := WorkOn(siteID, w);
      }
    }

    /** The ending after a command that failed. */
    method FailCommand(w: World, message: string) returns (err: Option<Failure>)
      requires Answers(w, steps) && status == Deploying && w.firewall.None?
      requires !AllRan(w.commands) && message == FirstError(w.commands)
      requires output == "" + Transcript(steps, w.commands, Ran(w.commands))
      requires hasTaskLogs && w.logCreated ==> logs != []
      modifies this`status, this`audit, this`logs
      ensures Outcome(w) == DeployFailed && Certified(w, domain) == []
      ensures status == if w.final == WriteFailed then Deploying else Outcome(w)
      ensures audit == if hasAudit && w.final == Written && w.finalAudited
                       then Audited(old(audit), Deploying, Outcome(w)) else old(audit)
      ensures err == WorkResult(w) && err.Some?
      ensures logs == FinishedBy(old(logs), hasTaskLogs && w.logCreated,
                                 Finish(FAILED, Said(w, steps, domain) + WorkExtra(w), w.finished))
    {
      SaidByCommand(w, steps, domain);
      err := Fail(w, CommandFailed(message));
    }

    /** With the firewall's rules in place: the commands, then the certificates. */
    method WorkOn(siteID: string, w: World) returns (err: Option<Failure>)
      requires Answers(w, steps) && status == Deploying && output == "" && w.firewall.None?
      requires hasTaskLogs && w.logCreated ==> logs != []
      modifies this`status, this`audit, this`logs, this`issues, this`ran, this`certified, this`output
      ensures status == if w.final == WriteFailed then Deploying else Outcome(w)
      ensures audit == if hasAudit && w.final == Written && w.finalAudited
                       then Audited(old(audit), Deploying, Outcome(w)) else old(audit)
      ensures err == WorkResult(w)
      ensures logs == FinishedBy(old(logs), hasTaskLogs && w.logCreated,
                                 Finish(if err.None? then SUCCESS else FAILED, Said(w, steps, domain) + WorkExtra(w), w.finished))
      ensures issues == old(issues) + if hasSslQueue && w.enqueued && err.None? && Outcome(w) == SslPending then [siteID] else []
      ensures ran == old(ran) + steps[..Ran(w.commands)]
      ensures certified == old(certified) + Certified(w, domain)
    {
      var deployErr := RunCommands(w.commands);
      if deployErr.Some? {
        err := FailCommand(w, deployErr.value);
        NothingAfter(issues);
        NothingAfter(certified);
      } else {
        SaidByAll(w, steps, domain);
        err := Certify(siteID, w);
      }
    }

    /** The reads and checks before the start write. */
    method Admit(created: bool, w: World) returns (err: Option<Failure>)
      requires created ==> logs != []
      requires output == ""
      modifies this`logs
      ensures err.None? <==> Admitted(w, status)
      ensures err.Some? ==> err.value in {SiteUnread, ServerUnread, ServerNotReady, NotDeployable}
      ensures err == Some(NotDeployable) ==> !EnsureSiteTransition(status, Deploying)
      ensures logs == if err.Some? then FinishedBy(old(logs), created, Finish(FAILED, ERROR + w.message, w.finished)) else old(logs)
    {
      NothingBefore(ERROR + w.message);
      if !w.siteFound {
        FinishLog(created, w, FAILED, ERROR + w.message);
        return Some(SiteUnread);
      }
      if w.server.None? {
        FinishLog(created, w, FAILED, ERROR + w.message);
        return Some(ServerUnread);
      }
      if w.server.value != ReadyForDeploy && w.server.value != Deployed {
        FinishLog(created, w, FAILED, ERROR + w.message);
        return Some(ServerNotReady);
      }
      if !EnsureSiteTransition(status, Deploying) {
        FinishLog(created, w, FAILED, ERROR + w.message);
        return Some(NotDeployable);
      }
      return None;
    }

    /** The checks, then the start write and its event. */
    method Begin(created: bool, w: World) returns (err: Option<Failure>)
      requires created ==> logs != []
      requires output == ""
      modifies this`status, this`audit, this`logs
      ensures err.None? <==> Started(w, old(status))
      ensures err.Some? ==> err.value !in {LateTransition, FinalUnwritten}
      ensures err == Some(NotDeployable) ==> !EnsureSiteTransition(old(status), Deploying) && status == old(status)
      ensures status == if !Admitted(w, old(status)) || w.start == WriteFailed then old(status) else Deploying
      ensures audit == if err.None? && hasAudit && w.startAudited then Audited(old(audit), old(status), Deploying)
                       else old(audit)
      ensures logs == if err.Some? then FinishedBy(old(logs), created, Finish(FAILED, ERROR + w.message, w.finished)) else old(logs)
    {
      err := Admit(created, w);
      if err.Some? {
        return;
      }
      var prev := status;
      var ok := WriteStatus(Deploying, w.start);
      if !ok {
        NothingBefore(ERROR + w.message);
        FinishLog(created, w, FAILED, ERROR + w.message);
        return Some(StartUnwritten);
      }
      WriteAudit(prev, Deploying, w.startAudited);
    }

    /** The run under the lock. A log that was created is finished exactly once. */
    method Deploy(siteID: string, w: World) returns (err: Option<Failure>)
      requires Answers(w, steps)
      modifies this`status, this`audit, this`logs, this`issues, this`ran, this`certified, this`output
      ensures status == StatusAfter(w, old(status))
      ensures audit == if hasAudit then AuditAfter(w, old(status), old(audit)) else old(audit)
      ensures err.None? <==> Succeeds(w, old(status))
      ensures Started(w, old(status)) ==> err == WorkResult(w)
      ensures err != Some(LateTransition)
      ensures err == Some(NotDeployable) ==> !EnsureSiteTransition(old(status), Deploying) && status == old(status)
      ensures logs == old(logs) + if hasTaskLogs && w.logCreated
                then [TaskLog(siteID, [Finish(if err.None? then SUCCESS else FAILED, LogText(w, old(status), steps, domain), w.finished)])]
                else []
      ensures issues == old(issues) + if hasSslQueue && Queued(w, old(status)) then [siteID] else []
      ensures ran == old(ran) + if Started(w, old(status)) && w.firewall.None? then steps[..Ran(w.commands)] else []
      ensures certified == old(certified) + if Started(w, old(status)) then Certified(w, domain) else []
    {
      var created := hasTaskLogs && w.logCreated;
      if created {
        logs := logs + [TaskLog(siteID, [])];
      }
      output := "";
      err := Begin(created, w);
      if err.Some? {
        OneFinish(old(logs), siteID, Finish(FAILED, ERROR + w.message, w.finished));
        return;
      }
      err := Work(siteID, w);
      OneFinish(old(logs), siteID, Finish(if err.None? then SUCCESS else FAILED, Said(w, steps, domain) + WorkExtra(w), w.finished));
    }

    /** The run, and what it comes to. */
    method Run(siteID: string, w: World) returns (err: Option<Failure>)
      requires Answers(w, steps)
      modifies this`status, this`audit, this`logs, this`issues, this`ran, this`certified, this`output
      ensures status == StatusAfter(w, old(status))
      ensures audit == if hasAudit then AuditAfter(w, old(status), old(audit)) else old(audit)
      ensures err.None? <==> Succeeds(w, old(status))
      ensures err != Some(LateTransition)
      ensures logs == old(logs) + if hasTaskLogs && w.logCreated
                then [TaskLog(siteID, [Finish(if err.None? then SUCCESS else FAILED, LogText(w, old(status), steps, domain), w.finished)])]
                else []
      ensures issues == old(issues) + if hasSslQueue && Queued(w, old(status)) then [siteID] else []
      ensures ComesTo(w, hasAudit, hasSslQueue, siteID, steps, domain, old(Now()), Now(), err)
    {
      err := Deploy(siteID, w);
      RunComesTo(w, hasAudit, hasSslQueue, siteID, steps, domain, old(Now()), Now(), err);
    }

    /** `ExecuteDeploy`: takes the lock, runs, and releases whatever the run returned. A
        lock held elsewhere is a silent success that leaves everything as it is. */
    method ExecuteDeploy(payload: string, w: World) returns (err: Option<Failure>)
      requires Answers(w, steps)
      modifies this
      ensures var siteID := TrimSpace(payload);
              var key := LOCK_PREFIX + siteID;
              if hasLock && w.lock == LockSet && key in old(keys) then
                && err.None? && keys == old(keys) && status == old(status) && audit == old(audit)
                && logs == old(logs) && issues == old(issues) && ran == old(ran) && certified == old(certified)
              else if hasLock && w.lock != LockSet then
                && err == Some(AcquireFailed) && keys == old(keys) + (if w.lock == LockLost then {key} else {})
                && status == old(status) && audit == old(audit)
                && logs == old(logs) && issues == old(issues) && ran == old(ran) && certified == old(certified)
              else
                && status == StatusAfter(w, old(status))
                && audit == (if hasAudit then AuditAfter(w, old(status), old(audit)) else old(audit))
                && (err.None? <==> Succeeds(w, old(status)))
                && err != Some(LateTransition)
                && logs == old(logs) + (if hasTaskLogs && w.logCreated
                     then [TaskLog(siteID, [Finish(if err.None? then SUCCESS else FAILED,
                                                   LogText(w, old(status), steps, domain), w.finished)])]
                     else [])
                && issues == old(issues) + (if hasSslQueue && Queued(w, old(status)) then [siteID] else [])
                && keys == old(keys) + (if hasLock && !w.released then {key} else {})
                && ComesTo(w, hasAudit, hasSslQueue, siteID, steps, domain, old(Now()), Now(), err)
    {
      var siteID := TrimSpace(payload);
      var key := LOCK_PREFIX + siteID;
      if hasLock {
        if w.lock == LockLost {
          keys := keys + {key};
        }
        if w.lock != LockSet {
          return Some(AcquireFailed);
        }
        if key in keys {
          return None;
        }
        keys := keys + {key};
      }
      err := Run(siteID, w);
      if hasLock && w.released {
        keys := keys - {key};
      }
    }
  }

  /** The functions that specify a run say the same. */
  lemma RunComesTo(w: World, hasAudit: bool, hasQueue: bool, siteID: string, steps: seq<string>, domain: string,
                   before: View, after: View, err: Option<Failure>)
    requires Answers(w, steps)
    requires after.status == StatusAfter(w, before.status)
    requires after.audit == if hasAudit then AuditAfter(w, before.status, before.audit) else before.audit
    requires err.None? <==> Succeeds(w, before.status)
    requires Started(w, before.status) ==> err == WorkResult(w)
    requires after.issues == before.issues + if hasQueue && Queued(w, before.status) then [siteID] else []
    requires after.ran == before.ran + if Started(w, before.status) && w.firewall.None? then steps[..Ran(w.commands)] else []
    requires after.certified == before.certified + if Started(w, before.status) then Certified(w, domain) else []
    ensures ComesTo(w, hasAudit, hasQueue, siteID, steps, domain, before, after, err)
  {
    RefusedIff(w, before.status);
    if !Started(w, before.status) {
      NothingAfter(before.issues);
      NothingAfter(before.ran);
      NothingAfter(before.certified);
    } else {
      RunGoes(w, hasAudit, hasQueue, siteID, steps, domain, before, after, err);
    }
  }

  lemma RunGoes(w: World, hasAudit: bool, hasQueue: bool, siteID: string, steps: seq<string>, domain: string,
                before: View, after: View, err: Option<Failure>)
    requires Answers(w, steps) && Started(w, before.status)
    requires after.status == StatusAfter(w, before.status)
    requires after.audit == if hasAudit then AuditAfter(w, before.status, before.audit) else before.audit
    requires err == WorkResult(w)
    requires after.issues == before.issues + if hasQueue && Queued(w, before.status) then [siteID] else []
    requires after.ran == before.ran + if w.firewall.None? then steps[..Ran(w.commands)] else []
    requires after.certified == before.certified + Certified(w, domain)
    ensures Goes(w, hasAudit, hasQueue, siteID, steps, domain, before, after, err, Outcome(w))
    ensures Outcome(w) == if !NoError(w) then DeployFailed else if w.cert.Some? then SslPending else Deployed
  {
    RefusedIff(w, before.status);
    RanFirst(w);
    ToldIs(w, before.audit, before.status, Outcome(w));
    NothingAfter(before.audit);
    NothingAfter(before.ran);
    NothingAfter(before.certified);
    Assoc(before.certified, OtherAliases(w.aliases, domain), [domain]);
  }

  lemma NothingAfter<T>(s: seq<T>)
    ensures s + [] == s
  {
  }

  lemma NothingBefore(text: string)
    ensures "" + text == text
  {
  }

  lemma OneFinish(logs: seq<TaskLog>, siteID: string, f: Finish)
    ensures Finished(logs + [TaskLog(siteID, [])], f) == logs + [TaskLog(siteID, [f])]
  {
    assert [] + [f] == [f];
  }

  lemma SaidByFirewall(w: World, steps: seq<string>, domain: string)
    requires Answers(w, steps) && w.firewall.Some?
    ensures "" + Entry(FIREWALL, "", w.firewall) == Said(w, steps, domain) + WorkExtra(w)
  {
    NothingBefore(Entry(FIREWALL, "", w.firewall));
    NothingAfter(Said(w, steps, domain));
  }

  lemma SaidByCommand(w: World, steps: seq<string>, domain: string)
    requires Answers(w, steps) && w.firewall.None? && !AllRan(w.commands)
    ensures "" + Transcript(steps, w.commands, Ran(w.commands)) == Said(w, steps, domain) + WorkExtra(w)
  {
    var t := Transcript(steps, w.commands, Ran(w.commands));
    NothingBefore(t);
    NothingAfter(t);
  }

  lemma SaidByAll(w: World, steps: seq<string>, domain: string)
    requires Answers(w, steps) && w.firewall.None? && AllRan(w.commands)
    ensures ("" + Transcript(steps, w.commands, Ran(w.commands)))
            + AliasLines(w.aliases, w.aliasCerts, domain) + CertLine(w.cert) == Said(w, steps, domain)
  {
    var t := Transcript(steps, w.commands, Ran(w.commands));
    NothingBefore(t);
    Assoc(t, AliasLines(w.aliases, w.aliasCerts, domain), CertLine(w.cert));
  }

  lemma OneMoreAlias(before: seq<string>, aliases: seq<string>, alias: string, domain: string)
    ensures before + OtherAliases(aliases + [alias], domain) ==
            before + OtherAliases(aliases, domain) + if alias != domain then [alias] else []
  {
    assert (aliases + [alias])[..|aliases|] == aliases;
  }

  lemma OneMoreLine(before: string, aliases: seq<string>, certs: seq<Option<string>>, alias: string, cert: Option<string>, domain: string)
    requires |aliases| == |certs|
    ensures before + AliasLines(aliases + [alias], certs + [cert], domain) ==
            before + AliasLines(aliases, certs, domain)
            + if alias != domain then Entry(SSL_ALIAS + alias, "", cert) else ""
  {
    assert (aliases + [alias])[..|aliases|] == aliases;
    assert (certs + [cert])[..|certs|] == certs;
    Assoc(before, AliasLines(aliases, certs, domain), if alias != domain then Entry(SSL_ALIAS + alias, "", cert) else "");
  }

  function Finished(logs: seq<TaskLog>, f: Finish): seq<TaskLog>
    requires logs != []
  {
    var l := logs[|logs| - 1];
    logs[|logs| - 1 := l.(finishes := l.finishes + [f])]
  }

  // ---- What the verdict is worth ----

  /** Nil from a run that held its lock means a stored `deployed` or `ssl_pending`; the
      other way round exactly unless the final write's reply was lost, or the run never
      got past its start write and the row was in such a status before. */
  lemma VerdictIsStored(w: World, status: Status)
    ensures Succeeds(w, status) ==> StatusAfter(w, status) in {Deployed, SslPending}
    ensures Started(w, status) ==>
              (StatusAfter(w, status) in {Deployed, SslPending} <==>
               Succeeds(w, status) || (w.final == WriteLost && Outcome(w) != DeployFailed))
    ensures !Started(w, status) ==>
              !Succeeds(w, status) &&
              (StatusAfter(w, status) in {Deployed, SslPending} ==> StatusAfter(w, status) == status)
  {
  }

  /** A run whose certificate is still to come leaves `ssl_pending` stored and nothing in
      the queue that would take it on exactly when the final write's reply is lost, or it
      is written and enqueueing fails; the run that fails to enqueue still returns nil. */
  lemma PendingWithoutTaskIff(w: World, status: Status)
    requires Started(w, status) && Outcome(w) == SslPending
    ensures StatusAfter(w, status) == SslPending && !Queued(w, status) <==>
            w.final == WriteLost || (w.final == Written && !w.enqueued)
    ensures w.final == Written && !w.enqueued ==> Succeeds(w, status)
  {
  }

  /** Every run keeps the audit log in step with the row, unless an audit write fails
      or the reply of a status write is lost. */
  lemma RunKeepsChain(w: World, status: Status, audit: seq<Event>, first: Status)
    requires Chain(first, audit, status)
    requires w.start != WriteLost && w.final != WriteLost && w.startAudited && w.finalAudited
    ensures Chain(first, AuditAfter(w, status, audit), StatusAfter(w, status))
  {
    ChainExtends(first, audit, status, Deploying);
    ChainExtends(first, Audited(audit, status, Deploying), Deploying, Outcome(w));
  }
}
