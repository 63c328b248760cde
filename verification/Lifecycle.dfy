/** The transition tables of servers and sites, and the check every status write
    goes through. */
module Lifecycle {

  /** A status text: the ones the tables name, and any other. */
  datatype Status =
    | Empty
    | Draft | Deploying | Deployed | DeployFailed | SslPending
    | Pending | Connected | ConnectionFailed | Provisioning | ProvisionFailed | ReadyForDeploy
    | Other(text: string)

  const SERVER_TRANSITIONS: map<Status, set<Status>> := map[
    Empty := {Pending},
    Pending := {Connected, ConnectionFailed},
    ConnectionFailed := {Connected, ConnectionFailed},
    Connected := {Connected, ConnectionFailed, Provisioning},
    Provisioning := {ReadyForDeploy, ProvisionFailed},
    ProvisionFailed := {Provisioning, ReadyForDeploy, ConnectionFailed},
    ReadyForDeploy := {ReadyForDeploy, Provisioning}
  ]

  const SITE_TRANSITIONS: map<Status, set<Status>> := map[
    Empty := {Draft},
    Draft := {Draft, Deploying},
    Deploying := {Deployed, DeployFailed, SslPending},
    DeployFailed := {Deploying, DeployFailed},
    SslPending := {SslPending, Deployed, Deploying},
    Deployed := {Deployed, Deploying, SslPending}
  ]

  /** `ensureTransition`: whether the change is accepted. */
  predicate EnsureTransition(transitions: map<Status, set<Status>>, from: Status, to: Status) {
    to != Empty && (from == to || (from in transitions && to in transitions[from]))
  }

  predicate EnsureServerTransition(from: Status, to: Status) {
    EnsureTransition(SERVER_TRANSITIONS, from, to)
  }

  predicate EnsureSiteTransition(from: Status, to: Status) {
    EnsureTransition(SITE_TRANSITIONS, from, to)
  }

  predicate ServerEdge(from: Status, to: Status) {
    from in SERVER_TRANSITIONS && to in SERVER_TRANSITIONS[from]
  }

  predicate SiteEdge(from: Status, to: Status) {
    from in SITE_TRANSITIONS && to in SITE_TRANSITIONS[from]
  }

  /** A status event as the audit log keeps it. */
  datatype Event = Event(from: Status, to: Status)

  /** What `writeAudit` appends: nothing for a change that is none. */
  function Audited(audit: seq<Event>, from: Status, to: Status): seq<Event> {
    if from == to then audit else audit + [Event(from, to)]
  }

  /** The events lead from `first` to `last`, each starting where the one before ended. */
  predicate Chain(first: Status, audit: seq<Event>, last: Status)
    decreases |audit|
  {
    if audit == [] then first == last
    else audit[|audit| - 1].to == last && Chain(first, audit[..|audit| - 1], audit[|audit| - 1].from)
  }

  lemma ChainExtends(first: Status, audit: seq<Event>, from: Status, to: Status)
    requires Chain(first, audit, from)
    ensures Chain(first, Audited(audit, from, to), to)
  {
    if from != to {
      assert (audit + [Event(from, to)])[..|audit|] == audit;
    }
  }

  /** A log leads to one status only. */
  lemma {:induction false} ChainEnds(first: Status, audit: seq<Event>, a: Status, b: Status)
    requires Chain(first, audit, a)
    ensures Chain(first, audit, b) <==> a == b
  {
  }

  /** Where a deploy may start, where it may end, and who may follow a deploy that
      never ended: a row left in `deploying` accepts the next one. */
  lemma DeployEdges(s: Status)
    ensures EnsureSiteTransition(s, Deploying) <==> s in {Draft, Deploying, DeployFailed, SslPending, Deployed}
    ensures EnsureSiteTransition(Deploying, s) <==> s in {Deploying, Deployed, DeployFailed, SslPending}
    ensures EnsureSiteTransition(s, Deployed) <==> s in {Deploying, SslPending, Deployed}
    ensures EnsureSiteTransition(s, SslPending) <==> s in {Deploying, SslPending, Deployed}
  {
  }

  /** The rest of the two tables, read the other way: what may come before a status. */
  lemma OtherEdges(s: Status)
    ensures EnsureSiteTransition(s, DeployFailed) <==> s in {Deploying, DeployFailed}
    ensures EnsureSiteTransition(s, Draft) <==> s in {Empty, Draft}
    ensures EnsureServerTransition(s, Pending) <==> s in {Empty, Pending}
    ensures EnsureServerTransition(s, ProvisionFailed) <==> s in {Provisioning, ProvisionFailed}
    ensures EnsureServerTransition(s, ReadyForDeploy) <==> s in {Provisioning, ProvisionFailed, ReadyForDeploy}
    ensures !EnsureSiteTransition(s, Empty) && !EnsureServerTransition(s, Empty)
  {
  }

  /** No check can fail between a deploy's start and its outcome. */
  lemma OutcomesFollow()
    ensures EnsureSiteTransition(Deploying, Deployed)
    ensures EnsureSiteTransition(Deploying, DeployFailed)
    ensures EnsureSiteTransition(Deploying, SslPending)
  {
  }

  /** Where a server's connection test and its provisioning may take it. */
  lemma ServerEdges(s: Status)
    ensures EnsureServerTransition(s, Connected) <==> s in {Pending, ConnectionFailed, Connected}
    ensures EnsureServerTransition(s, ConnectionFailed) <==> s in {Pending, ConnectionFailed, Connected, ProvisionFailed}
    ensures EnsureServerTransition(s, Provisioning) <==> s in {Connected, Provisioning, ProvisionFailed, ReadyForDeploy}
    ensures EnsureServerTransition(Provisioning, ReadyForDeploy) && EnsureServerTransition(Provisioning, ProvisionFailed)
  {
  }
}
