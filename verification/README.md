# VentoPanel: what its hard parts keep

VentoPanel is a panel that provisions servers over SSH, deploys sites to them, issues
certificates, watches uptime and keeps an audit log. Most of it is plumbing. The pieces
modelled here are the ones that hold state machines, protocols and round trips; each is
written as the source writes it (imperative code as classes and methods with loops,
concurrent code as a state machine over its steps, pure code as functions), and the
properties below are proved of it for all inputs, runs and interleavings.

| file | what it models |
|---|---|
| `Lifecycle.dfy` | the transition tables and the check in front of every status write |
| `SiteProtocol.dfy` | deploys and SSL issues of one site as small steps over the row, the audit log and the Redis keys, interleaved in any way; crashes, failed calls and lost replies are steps too |
| `DeployService.dfy`, `DeployAlone.dfy` | `ExecuteDeploy` as a method, and the proof that the protocol's deploy worker, left alone, does the same |
| `IssueService.dfy` | the same for `ExecuteIssue` |
| `ServerRuns.dfy` | `Connect` and `ExecuteProvision` on a server row |
| `ServerProtocol.dfy`, `ServerAlone.dfy` | the two as small steps over the row, interleaved in any way, and the proof that each step worker, left alone, does what its method does |
| `Paths.dfy`, `Archive.dfy`, `Shell.dfy` | the file manager: `safePath`, packing and unpacking, command lines |
| `LogStream.dfy` | the live-log pipe: the Go line writer and the TypeScript reader |
| `AuditQuery.dfy`, `AuditReader.dfy`, `AuditPages.dfy` | the audit log's SQL builder, a reader of its text, the handler and the cursor walk |
| `Uptime.dfy`, `UptimePool.dfy` | the alert state machine and the worker pool that feeds it |
| `Rekey.dfy` | key rotation over the encrypted columns |
| `LogPoller.dfy` | the file source of the server log stream |
| `SshPool.dfy` | the SSH connection pool |
| `Retention.dfy` | pruning of uptime checks and backups |
| `Text.dfy`, `Calls.dfy` | string helpers; how database and Redis calls turn out |

What the outside decides (replies of the database, Redis, SSH, certbot and the random
source, the order of steps, how texts are cut into writes and reads) is a parameter, and
every theorem is about all of its values.

## Findings

Where a property one would expect is false of the code, the model keeps the code, a lemma
gives the run that breaks it, and another says when it does hold.

- The lock's `Release` deletes the key whoever set it. Workers of a kind exclude each other as
  long as no live holder outlives the TTL (`SiteProtocol.MutualExclusion`), and the TTL is the
  exact limit: whoever tries next to a holder gets in if and only if it is over (`OverrunIff`).
  `OverrunBreaksExclusion` goes on from there to two deploys at once, both within their time.
- Deploys and SSL issues take different keys, and each can write over what the other stored.
  Every change of a site's status is an edge of the table while no two workers of either kind
  hold at once (`AloneFollowsTable`); in any interleaving in time, the changes that are none are
  a deploy's `deploy_failed` over an issue's `deployed` or `ssl_pending` and an issue's write over
  `deploy_failed` (`SiteProtocol.BreaksTableIff`), and wherever an issue has read the row and a
  deploy can start, the first of them can be reached (`IssueBreaksTable`). What survives any
  interleaving is `DeployingMeansWork`.
- While no two workers of either kind hold at once, the audit log stops leading to the stored
  status exactly when a change loses its event (a crash or a failed audit write after it, or a
  lost reply of it) or when an SSL issue names a previous status that is not the one it read
  (`TrailBreaksIff`, and over whole runs `AuditFollowsStatus`).
- `deploying` with nobody at work: in any interleaving in time the row is left so exactly by a
  deploy that dies at work, or whose final write fails, on a row that says `deploying`, or by a
  start write whose reply is lost (`StrandsIff`, and over whole runs `NeverStrandedIff`). Crashes
  and failures anywhere else do no harm, and without those steps it is never so, whatever the locks
  do (`DeployingMeansWork`).
- A deploy whose certificate is still to come stores `ssl_pending` and leaves it to a task. There
  is no task exactly when the final write's reply is lost or enqueueing fails, whose error is
  dropped: the run then returns nil (`PendingWithoutTaskIff`).
- `ExecuteIssue` audits a fixed previous status. The event fits the row only if the row was in
  that very status (`NamedFromFits`).
- `Connect` takes no lock and can store `connected` or `connection_failed` over
  `ready_for_deploy`, from any point at which it has read the row and a provisioning run can start
  (`LateConnectLosesUpdate`). In any interleaving in time the changes of a server's status are
  edges of the table as long as no connection test is midway when another worker writes and none
  writes while a provisioning run is midway (`UndisturbedFollowsTable`). The second half is needed
  too, for a test can read and write between a run's check and its first write
  (`ConnectBreaksStart`). `ServerProtocol.BreaksTableIff` lists the writes that are no edge, by
  what they find stored. Run one after another, `ready_for_deploy` is safe from `Connect` only
  until a provisioning run starts again (`FailedReprovisionReopens`).
- The comment on the SSH pool says a server has at most one live connection. That holds whenever
  no `Invalidate` of the server is under way, as long as none took from the map an entry that a
  `Get` had fetched and not yet locked (`OnePerServer`). Any such step lets the run go on to an open
  client in an entry that the map has lost (`UncalmStepLeaks`), and nothing closes it
  (`OrphanStaysOpen`); `InvalidateLeaks` is the shortest run to two open clients.
- `Prune` says it keeps the most recent `keep` rows; it keeps one more (`PruneKeepsOneMore`),
  unlike the backup service, which keeps exactly its count (`PruneKeepsNewest`).
- The audit handler compares the page with the limit asked for, the repository clamps it:
  the walk is exact if and only if the limit is in 1..500 or at most 100 rows match, and a
  limit of 0 with no match makes the handler index an empty slice (`Walk`, `Handle`).
- The log poller counts the lines it sends, not those it reads. By the end of a poll that comes
  through every unfiltered line has been sent if and only if no poll cut short a line that had not
  been sent before (`AllDeliveredIff`): was cut in a line, left the counter behind it, and sent
  something other than the line should have been sent as. A line cut only of its newline or of
  trailing carriage returns, or itself to be dropped, is no loss, and a line dropped before it in
  the same poll holds the counter back, so that the cut line is read again (`CutLineLostIff`).
- A text that itself starts with `enc:v1:` is stored in the clear (`StoredInClearIff`). When it
  reads under neither key it keeps every later rotation of its column from completing
  (`PrefixedTextBlocks`): a rotation that nothing outside stops completes if and only if every
  prefixed row reads under one of the two keys (`CompletesIff`), as every row does that holds a
  sealed text, after any number of runs cut off anywhere (`RetryCompletes`).

## Model

| member | source | states |
|---|---|---|
| Lifecycle.DeployEdges | internal/domain/lifecycle/status.go:42-69 | from which statuses a deploy may start, where it may end, and that a row left in `deploying` accepts another deploy |
| Lifecycle.OutcomesFollow | internal/domain/lifecycle/status.go:50-54 | none of the checks between a deploy's start and its outcome can fail |
| Lifecycle.ServerEdges | internal/domain/lifecycle/status.go:10-40 | from which statuses a connection test or a provisioning run may store its result |
| Lifecycle.OtherEdges | internal/domain/lifecycle/status.go:10-69 | what may come before each of the other statuses, and that nothing may go to the empty one |
| Lifecycle.ChainExtends | internal/service/deploy/service.go:566-578 | an event naming the true previous status extends a connected audit chain; a change that is none leaves it |
| SiteProtocol.MutualExclusion | internal/infra/lock/redis.go:21-34 | in every interleaving in which no live holder outlives its TTL, at most one worker of a kind is between acquire and release, and each holder's key is still its own |
| SiteProtocol.OverrunIff | internal/infra/lock/redis.go:21-34 | at any point of any run in time, a worker that tries after d more seconds gets in beside a holder of its kind if and only if the holder's TTL is over by then |
| SiteProtocol.AloneFollowsTable | internal/domain/lifecycle/status.go:42-69 | in every interleaving of deploys and SSL issues in which no two hold their locks at once, every change of the stored status is an edge of `siteTransitions`, whatever happens next |
| SiteProtocol.DeploysFollowTable | internal/service/deploy/service.go:132-334 | in every interleaving of deploys in time every change of the stored status is an edge of `siteTransitions`, crashes, failures and lost replies included |
| SiteProtocol.BreaksTableIff | internal/domain/lifecycle/status.go:42-69 | with locks in time, a change is no edge if and only if a deploy stores `deploy_failed` over `deployed` or `ssl_pending`, or an SSL issue stores anything over `deploy_failed` |
| SiteProtocol.AuditFollowsStatus | internal/service/deploy/service.go:185-334 | over whole runs of deploys and SSL issues that never hold at once: at every point the audit log is one chain from the first status to the stored one, lagging by at most the event about to be written, if and only if no step loses an event or names a wrong previous status |
| SiteProtocol.DeployAuditFollowsStatus | internal/service/deploy/service.go:185-334 | for any number of deploys in time, if and only if no event is lost |
| SiteProtocol.DeployingMeansWork | internal/service/deploy/service.go:191-333 | with deploys and SSL issues interleaved freely, the status is `deploying` only while some deploy is between its start and its final write, until a working deploy dies or fails its final write or the reply of a start write is lost; no lock is needed for it |
| SiteProtocol.DeployingIffWork | internal/service/deploy/service.go:191-333 | without SSL issues and with locks in time, exactly then |
| SiteProtocol.StepRow | internal/service/deploy/service.go:167-334 | what a deploy knows of the row stays true through each of its steps, and each changes the status along an edge or not at all |
| SiteProtocol.StepAudit | internal/service/deploy/service.go:191-197 | each step that loses no event and names no wrong status leaves the audit log, opens the gap between a write and its event, or closes it with the right event |
| SiteProtocol.StepLocks | internal/infra/lock/redis.go:21-34 | each step leaves the keys, takes a free key of its kind, or deletes it |
| SiteProtocol.DeployGetsReady | internal/service/deploy/service.go:132-334 | a deploy whose key is free and whose start is allowed can reach its final write with each of its outcomes |
| SiteProtocol.IssueGetsReady | internal/service/ssl/service.go:166-210 | likewise for an SSL issue |
| SiteProtocol.IssueBreaksTable | internal/service/ssl/service.go:201-205 | from any point in time at which an SSL issue has read a status it may write from and a deploy can start, the run can go on to a write of `deploy_failed` that is no edge |
| SiteProtocol.TrailBreaksIff | internal/service/deploy/service.go:191-334 | while the audit log leads to the stored status, the next step of deploys and SSL issues that never hold at once ends that if and only if it loses the event of a change, by a crash, a failed audit write or a lost reply, or writes an SSL issue's event from a status other than the one it read |
| SiteProtocol.AbandonedDeploying | internal/service/deploy/service.go:191-333 | at any point of any interleaving in time, a working deploy that dies or fails its final write on a row that says `deploying`, and a start write whose reply is lost, leave `deploying` with nobody at work; the table lets the next deploy through |
| SiteProtocol.StrandsIff | internal/service/deploy/service.go:191-333 | as long as somebody has been at work whenever the row said `deploying`, the next step of any interleaving of deploys and SSL issues in time ends that if and only if it is one of those |
| SiteProtocol.NeverStrandedIff | internal/service/deploy/service.go:191-333 | over whole runs in time: `deploying` is never stored with nobody at work if and only if there is no such step |
| SiteProtocol.OverrunBreaksExclusion | internal/infra/lock/redis.go:32-34 | a deploy over its TTL releases another's key: two deploys at once, both in time |
| DeployService.Service.ExecuteDeploy | internal/service/deploy/service.go:132-143 | a held lock is a silent success that changes nothing; otherwise, said of the calls alone: a site or server that cannot be read, a server neither `ready_for_deploy` nor `deployed`, or a site in no startable status gives an error and changes nothing; past a written start the outcome stored, the events, the task queued, the commands run, the certificates asked for and the error are what the calls make of them; and the key is released unless the release failed |
| DeployService.Service.Deploy | internal/service/deploy/service.go:144-334 | a created task log gets exactly one `Finish` call, as success if and only if nil is returned, which may fail unseen; no check after the start write fails; an SSL issue comes into the queue exactly when a run returns nil with `ssl_pending` stored, there is a queue and enqueueing works |
| DeployService.Service.Begin | internal/service/deploy/service.go:167-197 | the start write and its event happen exactly when site and server can be read, the server is ready and the table allows it |
| DeployService.Service.Work | internal/service/deploy/service.go:199-334 | from the start write to the end: outcome, event, result, log text, certificates and commands as the calls' results determine |
| DeployService.Service.RunCommands | internal/service/deploy/service.go:264-272 | runs the commands up to and including the first that fails, with their output in order, and returns that error |
| DeployService.Service.IssueAliases | internal/service/deploy/service.go:291-296 | asks for a certificate for each alias but the domain, in order, whatever fails |
| DeployService.OtherAliasesExact | internal/service/deploy/service.go:291-296 | those are the aliases but the domain, as often as they are listed |
| DeployService.EntryReads | internal/service/deploy/service.go:157-165 | read line by line, a command's entry in the log is the command, its output and its error |
| DeployService.LogTextExact | internal/service/deploy/service.go:151-190 | the log of a run that did not start says why |
| DeployService.VerdictIsStored | internal/service/deploy/service.go:298-333 | nil means a stored `deployed` or `ssl_pending`; for a run past its start write the converse fails only for a lost reply of the final write |
| DeployService.PendingWithoutTaskIff | internal/service/deploy/service.go:298-316 | a run whose certificate is still to come leaves `ssl_pending` without a task exactly when the final write's reply is lost, or it is written and enqueueing fails; then it still returns nil |
| DeployService.RunKeepsChain | internal/service/deploy/service.go:191-330 | a run keeps the audit log connected to the row unless a reply or an event is lost |
| DeployAlone.AloneIsExecuteDeploy | internal/service/deploy/service.go:132-334 | the protocol's worker, driven alone from its acquire on, ends with the status, audit log and keys the method's specification gives: for a free, held or failing lock, every reply of the calls and a release that works or fails |
| IssueService.Service.ExecuteIssue | internal/service/ssl/service.go:166-210 | said of the calls alone: which status is stored, which event written with its fixed previous status, which error returned, and when nothing changes; and the key after the release |
| IssueService.NamedFromFits | internal/service/ssl/service.go:193-208 | the event with its fixed previous status keeps the audit log connected if and only if the row was in that status |
| IssueService.AloneIsExecuteIssue | internal/service/ssl/service.go:166-210 | the protocol's SSL worker, left alone from its acquire on, ends with the status, audit log and keys of the method, for every reply of the lock and the calls |
| ServerRuns.Service.Connect | internal/service/server/service.go:110-141 | said of the calls alone: in which statuses a connection test's result is stored, what it stores, audits and returns |
| ServerRuns.Service.ExecuteProvision | internal/service/provision/service.go:55-124 | a held lock changes nothing; otherwise, said of the calls alone: `provisioning` and then `ready_for_deploy` are stored and audited and nil returned exactly when the script succeeds and the writes work, `provision_failed` when it fails, and what is left by each failed or lost write |
| ServerRuns.RunsFollowTable | internal/domain/lifecycle/status.go:10-40 | in any sequence of both from `pending` on, each status stored is the one before or its successor in the table, and `ready_for_deploy` comes only right after `provisioning` |
| ServerRuns.AuditReplaysRun | internal/service/provision/service.go:73-123 | when no event is lost, the audit log is exactly the changes of the stored status, each once, in order |
| ServerRuns.ConnectStoresIff | internal/service/server/service.go:116-137 | in which statuses a connection test stores anything at all |
| ServerRuns.ReadyUntilProvisioned | internal/domain/lifecycle/status.go:36-39 | once a run of operations has made a server ready, whatever operations follow store and audit nothing up to the first provisioning run whose start gets stored, and that start is what is stored next |
| ServerRuns.FailedReprovisionReopens | internal/domain/lifecycle/status.go:31-35 | after a failed re-provisioning, a connection test changes the status again |
| ServerProtocol.MutualExclusion | internal/service/provision/service.go:55-66 | in every interleaving of connection tests and provisioning runs at most one run is between acquire and release while none outlives the TTL |
| ServerProtocol.UndisturbedFollowsTable | internal/domain/lifecycle/status.go:10-40 | in every interleaving in time in which no connection test is midway when another worker writes and none writes while a provisioning run is midway, every change of the status is an edge of `serverTransitions` |
| ServerProtocol.BreaksTableIff | internal/domain/lifecycle/status.go:10-40 | in any interleaving in time a change is no edge if and only if it is one of the listed writes, told by the worker, what it stores and what it finds stored |
| ServerProtocol.LateConnectLosesUpdate | internal/service/server/service.go:110-141 | from any point at which a connection test has read a status it may write from and a provisioning run can start, the run can go on until `ready_for_deploy` is stored and then overwritten |
| ServerProtocol.ConnectBreaksStart | internal/service/provision/service.go:66-78 | from any point at which a provisioning run is about to store its start and a connection test may fail, the test can read and write in between, and the start is then no edge |
| ServerAlone.AloneIsConnect | internal/service/server/service.go:110-141 | the protocol's connection test, left alone, ends with the status and audit log of the method |
| ServerAlone.AloneIsExecuteProvision | internal/service/provision/service.go:55-124 | the protocol's provisioning run, left alone from its acquire on, ends with the status, audit log and key of the method, for every reply of the lock and the calls |
| Paths.SafePathExact | internal/filemanager/service.go:48-54 | an accepted path is rooted, clean, spells the walk and holds no two dots in a row; it is refused if and only if some surviving name does |
| Paths.SafePathIdempotent | internal/filemanager/service.go:48-54 | an accepted path passes again unchanged |
| Paths.CleanIdempotent | internal/filemanager/service.go:49 | cleaning a cleaned path changes nothing |
| Paths.CleanDot | internal/filemanager/service.go:49 | an empty name or a dot changes nothing |
| Paths.CleanName | internal/filemanager/service.go:49 | a name goes below what came before |
| Paths.CleanDotDot | internal/filemanager/service.go:49 | two dots take the last name back |
| Paths.CleanRoot | internal/filemanager/service.go:49 | and do nothing at the root |
| Paths.EntryStaysInside | internal/filemanager/service.go:427-430 | whatever an archive entry is called, it resolves name by name inside the cleaned destination, so the prefix check never fires |
| Paths.DirBaseRender | internal/filemanager/service.go:302-345 | `filepath.Dir` and `filepath.Base` take a clean path apart into parent and name |
| Archive.Service.Walk | internal/filemanager/service.go:340-347 | visits every regular file beneath the root, each once |
| Archive.Service.AddToZip | internal/filemanager/service.go:329-348 | a source gives one entry per regular file at or beneath it, with its bytes and its entry name, or fails as not found |
| Archive.Service.CompressLocal | internal/filemanager/service.go:297-325 | an accepted call packs, source by source in order, exactly its files, each once; when a source is forbidden or missing, those before it stay in the archive; errors and the rest of the tree as in the code |
| Archive.FirstErrorExact | internal/filemanager/service.go:315-324 | the error is that of the first source that is forbidden or missing, and there is none exactly when every source is accepted and present |
| Archive.Service.ExtractLocal | internal/filemanager/service.go:404-462 | for any archive and destination: when it ends well every directory asked for is there, every file with its bytes, and nothing else has changed; it stops exactly at an entry that a file or a directory blocks, with no file changed since; errors for what is no archive |
| Archive.ExtractEntryAt | internal/filemanager/service.go:425-460 | an entry's effect depends only on its resolved path; the forbidden branch is dead |
| Archive.DirEntry | internal/filemanager/service.go:432-437 | a directory entry makes its directory and those above it, changes no file, and fails exactly when a file stands at or above its path |
| Archive.FileEntry | internal/filemanager/service.go:439-460 | a file entry writes its file and makes the directories above it, and fails exactly when a file stands above its path or a directory at it |
| Archive.EntryNameWalk | internal/filemanager/service.go:320-345 | both ways of naming an entry resolve to base(src)/rel, also when a directory at the root leaves a leading slash |
| Archive.PutAllSucceeds | internal/filemanager/service.go:432-460 | extracting files succeeds exactly when every target has room beforehand |
| Archive.HomesApart | internal/filemanager/service.go:315-347 | with distinct base names no two packed files land on or under each other |
| Archive.LandsAtHome | internal/filemanager/service.go:427 | every packed entry lands at dest/base(src)/rel |
| Archive.ExtractConfined | internal/filemanager/service.go:425-460 | however extraction ends, only the files aimed at have come, each whole, with the directories above them |
| Archive.RoundTrip | internal/filemanager/service.go:404-462 | extracting what was packed succeeds exactly when the destination has room, and then writes every packed file at dest/base(src)/rel with its bytes and adds only the directories above those; if it fails, nothing but files at those homes and directories above them has come |
| Archive.Service.CompressThenExtract | internal/filemanager/service.go:297-462 | the two calls in a row restore every file of the sources, as it was when packed, at its home, with the directories above and nothing else; they fail only where a home has no room, having then changed homes only |
| Shell.LineReads | internal/filemanager/service.go:503-505 | a line of words built with `shellescape`, tokenised by sections 2.2.1, 2.2.2 and 2.3 of POSIX.1-2017 Shell Command Language, gives back exactly those words if and only if none holds a NUL |
| Shell.CompressCommand | internal/filemanager/service.go:280-294 | the zip command reads as `zip -r` and the cleaned paths, none of which can be taken for an option; no command when a path is forbidden |
| Shell.ExtractCommand | internal/filemanager/service.go:390-401 | the unzip command reads as `unzip -o ZIP -d DEST` with the cleaned paths |
| Shell.BuildEnvFlags | internal/service/deploy/service.go:696-710 | the flags read as `-e` and `KEY=value` for each variable in order, for every value without a NUL |
| LogStream.SseLineWriter.Write | internal/transport/http/site.go:433-449 | every line completed by a write goes out as one event, the rest stays buffered |
| LogStream.StreamContainerLogs | internal/transport/http/site.go:396-424 | the wire is one event per completed line and the closing event, however the log is cut into writes |
| LogStream.LinesExtend | internal/transport/http/site.go:433-449 | later text touches only the unfinished line |
| LogStream.StreamReader.Receive | frontend/app/(dashboard)/sites/[id]/page.tsx:319-338 | one read consumes exactly the complete events, line by line, with the window applied |
| LogStream.FeedSplit | frontend/app/(dashboard)/sites/[id]/page.tsx:319-338 | cutting a read in two changes nothing, for any wire and any cut |
| LogStream.ReadsWhole | frontend/app/(dashboard)/sites/[id]/page.tsx:311-340 | any chunking of a wire leaves the reader as one read of it would |
| LogStream.WindowKeepsLast | frontend/app/(dashboard)/sites/[id]/page.tsx:331-334 | the window holds the last thousand of everything shown |
| LogStream.EndToEnd | frontend/app/(dashboard)/sites/[id]/page.tsx:311-340 | for every cutting on both sides the list ends as the last thousand expected lines, in order, and the reader is disconnected; each is a completed line less the carriage returns at its end and none reads "stream ended" (framing as in section 9.2 of the WHATWG HTML Living Standard) |
| LogStream.ShowsLog | internal/transport/http/site.go:433-449 | said of the log itself: a log of any lines, cut in any way, ends on screen as its last thousand lines, less trailing carriage returns and less those that then read "stream ended" |
| LogStream.LiveView | frontend/app/(dashboard)/sites/[id]/page.tsx:311-340 | while the stream runs, the list is the window over some prefix of the expected lines |
| AuditQuery.BuildList | internal/repository/postgres/status_event_repository.go:44-101 | the text's placeholders are $1..$n in argument order with LIMIT last, bound to the clamped limit, and the conditions with those arguments mean the filter and the cursor |
| AuditQuery.BuildCount | internal/repository/postgres/status_event_repository.go:124-152 | likewise, meaning the filter without the cursor |
| AuditQuery.ListPlaceholders | internal/repository/postgres/status_event_repository.go:92-101 | scanning the list query's text finds the conditions' placeholders in order, then LIMIT's |
| AuditQuery.CountPlaceholders | internal/repository/postgres/status_event_repository.go:143-152 | scanning the count query's text finds the conditions' placeholders in order |
| AuditQuery.DecimalValue | internal/repository/postgres/status_event_repository.go:55-90 | a placeholder's decimal digits read back as its number |
| AuditReader.ListReads | internal/repository/postgres/status_event_repository.go:92-101 | the list query's text, read alone, gives back exactly the conditions it was built from, and then ORDER BY and LIMIT with its placeholder |
| AuditReader.CountReads | internal/repository/postgres/status_event_repository.go:143-152 | the count query's text gives back exactly its conditions |
| AuditReader.OrderReads | internal/repository/postgres/status_event_repository.go:92-101 | what stands behind the conditions asks for `created_at` and then `id`, both descending, and the limit's placeholder |
| AuditPages.ListStatusEvents | internal/repository/postgres/status_event_repository.go:44-122 | the database's answer to the text, its conditions, order and limit as read from it, is the first rows the filter and cursor select, newest first, at most the clamped limit |
| AuditPages.CountStatusEvents | internal/repository/postgres/status_event_repository.go:124-158 | returns the size of the selection without the cursor |
| AuditPages.List | internal/service/audit/service.go:34-65 | a page under the cursor, with the total, when asked for, of the whole filtered listing |
| AuditPages.Handle | internal/transport/http/audit.go:22-102 | the response to each request, said field by field: a page holds the newest rows that fit the trimmed parameters and come after the cursor, none left out before its last, at most as many as a limit in 1..500 says, or 100; the total counts the rows that fit; rejected cursors, `next_cursor`, and the index out of range for an empty page at limit 0 |
| AuditPages.CursorRoundTrip | internal/transport/http/audit.go:43-91 | a cursor handed out is read back as the event it was made from |
| AuditPages.CursorIsListing | internal/repository/postgres/status_event_repository.go:78-90 | a row passes the keyset condition exactly when it is listed after the cursor's row |
| AuditPages.LessExact | internal/repository/postgres/status_event_repository.go:78-90 | one id comes before another when it is a proper beginning of it or smaller where they first differ |
| AuditPages.SelectExact | internal/repository/postgres/status_event_repository.go:92-101 | a selection is exactly the rows wanted, each once, in listing order |
| AuditPages.OrderedIsTable | internal/repository/postgres/status_event_repository.go:92-101 | ordering keeps the rows and puts them in the listing's order |
| AuditPages.OrderedSelect | internal/repository/postgres/status_event_repository.go:92-101 | selecting and then ordering gives what ordering and then selecting does |
| AuditPages.SelectAfter | internal/repository/postgres/status_event_repository.go:78-90 | the selection past the cursor of its k-th row is what follows that row |
| AuditPages.PageAfter | internal/repository/postgres/status_event_repository.go:78-90 | newer rows do not change what is past a cursor |
| AuditPages.Walk | internal/transport/http/audit.go:43-91 | following `next_cursor` ends, whatever newer events come in meanwhile; the pages together hold only rows of the first table that fit the request, newest first, each once, and all of them if and only if the limit is in 1..500 or at most 100 fit; the first page's total is their number |
| Uptime.Service.CheckSite | internal/service/uptime/service.go:116-165 | a check counts in its site's streaks; DOWN is sent exactly when the check failed, is not the first, reaches the clamped threshold, no incident is open and the switch is on, RECOVERED likewise; no other site is touched |
| Uptime.AlertsAlternate | internal/service/uptime/service.go:132-155 | under any configuration changes alerts alternate DOWN, RECOVERED from DOWN on, and an incident is open exactly when one more DOWN was sent |
| Uptime.StreaksAreSuffixes | internal/service/uptime/service.go:132-140 | the two streaks are the lengths of the maximal all-down and all-up endings of the history |
| Uptime.AlertNeedsStreak | internal/service/uptime/service.go:141-155 | no alert without as many checks in a row as its threshold asks for |
| Uptime.RateBound | internal/service/uptime/service.go:125-155 | with thresholds F and R fixed, d DOWN alerts take at least d*F + (d-1)*R checks |
| Uptime.BoundIsMet | internal/service/uptime/service.go:125-155 | the bound is met for all thresholds and every d |
| Uptime.SitesIndependent | internal/service/uptime/service.go:125-156 | in any interleaving of checks each site's state and alerts are those of its own checks alone |
| UptimePool.Bounded | internal/service/uptime/service.go:87-113 | in every schedule at most ten checks are in flight, and the slots taken are exactly the started, unreleased workers and the one about to start |
| UptimePool.NeverStuck | internal/service/uptime/service.go:87-113 | no schedule deadlocks before `CheckAll` returns |
| UptimePool.StepUses | internal/service/uptime/service.go:87-113 | every step uses up a bound, so no schedule runs for ever |
| UptimePool.ReturnMeansDone | internal/service/uptime/service.go:74-113 | on return each eligible site was checked exactly once, no other site was, and no worker or slot is left |
| Rekey.RoundTrip | internal/infra/crypto/aesgcm.go:31-95 | decrypting what was encrypted gives the text back, except for texts that look encrypted |
| Rekey.SealedOpens | internal/infra/crypto/aesgcm.go:54-94 | a ciphertext opens under its own key and under no other |
| Rekey.Table.Rekey | cmd/rekey/main.go:85-155 | the column, the count and the error after a run, cut off or not, for every order of rows; a dry run changes nothing |
| Rekey.UpdatedExact | cmd/rekey/main.go:122-152 | the count is of the rows that hold a text, up to the row at which the run ended |
| Rekey.RotateAll | cmd/rekey/main.go:32-81 | which keys are refused and why, and otherwise both columns after the run, the second rotated only if the first came through |
| Rekey.RunOutcome | cmd/rekey/main.go:122-154 | any run rewrites only prefixed rows, and one without an error has rewritten all that hold a text |
| Rekey.RotationKeeps | cmd/rekey/main.go:122-154 | after any number of runs cut off anywhere every encrypted row decrypts under one of the two keys to its original text, and the other rows are untouched |
| Rekey.RotationCompletes | cmd/rekey/main.go:122-154 | after a completed run every encrypted row decrypts under the new key to its original text, and keeps doing so through any number of later runs cut off anywhere |
| Rekey.CompletesIff | cmd/rekey/main.go:122-154 | a run that nothing outside stops ends without an error if and only if every prefixed row reads under one of the two keys; a row that reads under neither stops every run |
| Rekey.RetryCompletes | cmd/rekey/main.go:122-154 | after any number of runs cut off anywhere on a column of sealed texts, the next run that nothing outside stops completes with every encrypted row under the new key |
| Rekey.UnreadableStays | cmd/rekey/main.go:124-133 | such a row is never rewritten, through any number of runs |
| Rekey.StoredInClearIff | internal/infra/crypto/aesgcm.go:31-52 | encryption stores a text as it is if and only if it is empty or itself starts with the prefix; any other it stores so that it decrypts to that text |
| Rekey.PrefixedTextBlocks | internal/infra/crypto/aesgcm.go:35-37 | a text that starts with the prefix and reads under neither key, once stored by `Encrypt`, makes every later rotation of its column end with an error |
| LogPoller.Poller.Run | internal/transport/http/logs_handler.go:107-130 | sends exactly the output's lines less the carriage returns at their ends, but no blank and no `-- ... --` line |
| LogPoller.FilterIs | internal/transport/http/logs_handler.go:107-130 | in order, each as often as it came |
| LogPoller.Poller.Tick | internal/transport/http/logs_handler.go:190-226 | a poll sends the kept lines and advances the counter by their number |
| LogPoller.PollSends | internal/transport/http/logs_handler.go:107-130 | wherever its output is cut, a poll sends the whole lines it read less the dropped ones, then what is left standing of the line it was cut in |
| LogPoller.CountConserved | internal/transport/http/logs_handler.go:165-226 | however polls are cut or fail, the counter never passes the file's lines and grows by exactly the lines sent |
| LogPoller.PassesIff | internal/transport/http/logs_handler.go:216-221 | a poll's counter ends at most at the end of the lines it read, or one further, exactly if the cut line left something standing and no line before it was dropped |
| LogPoller.AllDeliveredIff | internal/transport/http/logs_handler.go:165-226 | by the end of a poll that comes through, every unfiltered line past the initial count has come through as it is to be sent, if and only if no poll cut short a line that had not come through before |
| LogPoller.AtLeastOnce | internal/transport/http/logs_handler.go:165-226 | by the end of a poll that comes through, every unfiltered line past the initial count is among the lines sent, if no poll cut short a line that had not come through before |
| LogPoller.Drains | internal/transport/http/logs_handler.go:211-226 | on a file that stays as it is each poll that comes through sends at least one more line until nothing is left to send |
| LogPoller.Quiesces | internal/transport/http/logs_handler.go:211-226 | on a file that stays as it is, polling stops sending after as many polls as there were lines to read |
| LogPoller.CatchesUpIff | internal/transport/http/logs_handler.go:216-221 | a poll catches the counter up if and only if it dropped no line |
| LogPoller.CutLineLostIff | internal/transport/http/logs_handler.go:216-221 | for any file, counter and cut, the cut line comes through in no later poll if and only if the poll left something of it standing and dropped no line before it |
| SshPool.ConnectionsConserved | internal/filemanager/pool.go:64-105 | in every interleaving of `Get` and `Invalidate` each client ever opened is closed and nobody's, or open and owned by exactly one entry or by the call that has just dialed it |
| SshPool.GetAlone | internal/filemanager/pool.go:64-93 | a `Get` left alone reuses a connection that is alive, opening and closing none; else it closes the old one and keeps a new one exactly when the dial and SFTP work |
| SshPool.InvalidateAlone | internal/filemanager/pool.go:98-105 | an `Invalidate` left alone takes the entry from the map and closes its connection |
| SshPool.OnePerServer | internal/filemanager/pool.go:43-93 | a server has at most one open client whenever no `Invalidate` of it is under way, in every interleaving in which none of them took from the map an entry that a `Get` had fetched and not yet locked |
| SshPool.UncalmStepLeaks | internal/filemanager/pool.go:98-105 | from any reachable state, a step that takes such an entry from the map lets the run go on to an open client in an entry the map has lost |
| SshPool.StrandedLeaks | internal/filemanager/pool.go:64-105 | likewise wherever a `Get` waits to lock an entry that the map has lost |
| SshPool.InvalidateLeaks | internal/filemanager/pool.go:98-105 | a reachable state with two open clients of one server, one of them in an entry the map has lost |
| SshPool.OrphanStaysOpen | internal/filemanager/pool.go:98-105 | nothing the pool does ever closes the client of such an entry |
| Retention.UptimeTable.Prune | internal/repository/postgres/uptime_repository.go:184-202 | keeps exactly the other sites' rows and the site's rows with at most `keep` (or 10080) newer ones |
| Retention.PruneKeepsOneMore | internal/repository/postgres/uptime_repository.go:182-202 | leaves other sites alone, keeps everything when there are at most `keep` rows, else at least `keep` + 1, and exactly that if and only if the row at the offset is not tied with the next |
| Retention.Backups.List | internal/service/backup/service.go:87-115 | exactly the archives of the directory, each once, newest first |
| Retention.Backups.Prune | internal/service/backup/service.go:189-198 | removes exactly the listed archives past the count that can be removed |
| Retention.PruneKeepsNewest | internal/service/backup/service.go:189-198 | leaves exactly the newest archives, as many as are to be kept, and those of the others that cannot be removed; none removed is newer than one kept by the count, and no other file is touched |

## Left out

- SSH, SFTP, HTTP, Docker, certbot, nginx and firewall calls: each is a result chosen by the outside.
- Asynq's retries and task ids: a queue may start a worker at any time.
- The endpoints that store a status straight from their input: they bypass the tables, and the runs are those without them.
- `ExecuteRenew`: it rewrites the whole server row and audits statuses that are not lifecycle statuses.
- A service set up without a lock or without an audit log: the methods have that case where the code does, the protocols always have both.
- The other columns of the site and server rows, which a status write also rewrites.
- Deploy scripts, nginx templates and the commands' texts: a command is its name, its output and its error; the notifications sent after a deploy.
- Uptime pings, thresholds' parsing and state across restarts: streaks live in memory only.
- The zip container's encoding, modification times and permissions: an archive is its list of entries; the copy of the archive in itself, taken while it is being written, is left open.
- The order in which a directory is walked beyond its being some order of its files.
- Archive.Service.ExtractLocal: an archive is what `CompressLocal` stored at the path, so text that is no zip file is one case, not a format.
- UTF-8 decoding of chunks in the log reader, and the unfinished last line that the line writer never flushes.
- Parsing of the audit handler's numeric, boolean and time parameters: the request comes with them parsed. RFC 3339 text is any pair of a formatter and a parser that undo each other.
- AES-GCM and base64: functions with what they promise, a wrong key always failing.
- Rekey.Table.Rekey: rows are not changed by others while a run is under way; the two columns are rotated one after the other by the same method.
- The journal and Docker sources of the log stream, log rotation and truncation, a last line without a newline, and the lines between the initial `tail` and `wc`.
- SshPool.ConnectionsConserved: a connection that dies on its own counts as open until it is closed.
- Backups' writing of archives; the sort of the backup list keeps one order of equal times where the source's may keep any.
