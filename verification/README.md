# Hostlet: a verified model

Hostlet builds users' projects in fenced virtual machines, meters them, admits them to
limited capacity, and moves traffic between releases. This project models the parts of it
whose correctness depends on many steps taken together, and proves what those parts promise
over every input, every interleaving and every crash point. `dafny verify dfyconfig.toml`
checks everything.

## What is modelled

**DNS cutover** (`DnsCutover`, `DnsSafety`, `DnsOutcomes`, `DnsSession`). A command is a run
with a budget of durable writes: journal saves, provider calls and the token file. It dies when
the budget is spent, so a statement for all budgets is a statement for all crash points, and a
provider call whose answer is lost is a death just after it. The results quantify over scripts:
any sequence of commands, each dying anywhere.

**Build queue** (`BuildQueue`, `BuildSafety`, `BuildRuns`, `BuildEffects`, `BuildStore`,
`Completeness`, `Meter`). Tables are sequences and maps, and a handler is one committed transaction, except
that a lease is three steps between which anything else may happen. The results quantify over
sequences of steps by any number of workers, users and the reaper, with stale calls and aborted
leases among them.

**Admission** (`Admission`, `AdmissionSafety`, `AdmissionRuns`, `AdmissionEffects`,
`AdmissionStore`, `Counting`).
Holds, slots, headroom, refund intents and the allowance, over every sequence of admission
steps.

**Idempotency** (`Idempotency`). The lock, lookup, execute, store protocol around every
mutating handler, over every interleaving and for any function from keys to lock numbers.

**Archives** (`Bytes`, `Paths`, `Archive`, `Sorting`, `SourceBundle`, `Scanner`,
`GuestOutput`, `Unpackers`, `OutputRoundTrip`, `PathSafety`, `WireFormat`). One grammar of entries is written and read by
six programs that differ in their rules. The round trips say exactly when a reader accepts what
another program wrote, and that it then gets back the same ordered paths, modes and bytes.

**Symbolic links** (`ImageResolve`), **release routes** (`ReleaseRoute`, `ReleaseStore`,
`ReleaseOutcomes`, and `ReleaseRace` for switches that overlap) and
**JavaScript sources** (`JsComments`, `JsSegments`, `JsObject`, `JsMembers`, `JsExports`).

The modules named `...Effects`, `...Outcomes`, `PathSafety`, `WireFormat`, `JsMembers` and
`JsExports` say what an operation achieves on rows, record fields, bytes and numbers, so that a
reader need not trust the function that specifies it.

Where a source file changes state step by step, its handlers or loops are methods, many of
them of a class that holds the tables, and each is proved equal to a function; the theorems are
about those functions. Where the code only computes, the model is functions.

## What the proofs found

- `prepare` in scripts/beta/cloudflare.py can lock itself out: if the provider reports the 404
  default rule for a new tunnel and the process dies between saving `configure-tunnel` and the
  configuration call, every later `prepare` refuses. `PrepareOutcome` gives the exact condition.
- Stripping JavaScript comments is not idempotent on text with characters above 127 outside
  comments, because each byte is pushed as a character. `StripTwice` gives the exact condition.
- Two switches of one project that overlap can move the route pointer back to a lower
  generation, because the coordinator holds no lock between reading and replacing it
  (`PointerCanGoBack`). `ForwardIffNoneOvertaken` gives the exact condition; stored manifests and
  installed trees are safe regardless (`OverlapIsSafe`).
- `switch` limits a route manifest in characters and the gateway limits it in bytes. With the
  compact manifests that the control plane sends the gateway loads every switched route
  (`CompactManifestsLoad`), since the request file holds the manifest twice and is limited to 1 MiB.
  Only a text stretched beyond its object, with a character of several bytes, gets past one limit
  and not the other (`OutgrowingNeedsPadding`, `StretchedManifestIsLost`).
- The builder stores applications that the runtime refuses: a file name with a control byte such
  as a tab passes guest and builder and fails in the runtime (`TabPathIsRefused`), and so does a
  service id with upper-case digits (`UpperCaseIdIsRefused`), although the ids the control plane
  issues have none. `ApplicationUnpacks` gives the exact condition, the runtime's own limits
  included.
- The search for a literal property takes a value that only starts with the expected string
  for a match (`CountsMembers`), and takes the colon of a conditional expression for the colon of a
  member: `{a:b?output:"standalone"}` counts as one `output` with that value
  (`TernaryIsCounted`). With no colon in a value outside strings and inner braces the count is the
  number of members (`CountsMembers`, `SingleLiteralIff`).

## Model

| member | source | states |
|---|---|---|
| `DnsSession.Session.constructor` | scripts/beta/cloudflare.py:355-362 | a run starts from the journal on disk with its budget of durable writes |
| `DnsSession.Session.SaveJournal` | scripts/beta/cloudflare.py:365-366 | one durable write: the journal in memory becomes the journal on disk, unless the run dies first |
| `DnsSession.Session.LogAction` | scripts/beta/cloudflare.py:390-393 | appends the action and clears `pending` in one save |
| `DnsSession.Session.CutoverBeta` | scripts/beta/cloudflare.py:482-500 | the beta host of a cutover, as specified: adopt an announced change, refuse a foreign one, else announce, patch, read back, log |
| `DnsSession.Session.CutoverSibling` | scripts/beta/cloudflare.py:501-522 | a sibling host of a cutover: adopt the record of an interrupted creation or create, record and log one |
| `DnsSession.Session.CreateSibling` | scripts/beta/cloudflare.py:512-522 | announce, create, record, read back and log one record |
| `DnsSession.Session.Cutover` | scripts/beta/cloudflare.py:471-524 | the whole cutover with its guards, host loop and phase save equals the specified run, keeps the invariant, and ends at the preview from a resumable journal with 12 writes |
| `DnsSession.Session.ReverseSibling` | scripts/beta/cloudflare.py:536-557 | a sibling host of a reverse: adopt, finish an interrupted removal, or announce, delete, forget |
| `DnsSession.Session.ReverseBeta` | scripts/beta/cloudflare.py:558-581 | the beta host of a reverse: restore the baseline record, null comment included |
| `DnsSession.Session.Reverse` | scripts/beta/cloudflare.py:528-583 | the whole reverse with its guards, hosts last to first, equals the specified run, keeps the invariant, and from every such state past inventory leaves the baseline whenever it does not die |
| `DnsSession.Session.EnsureTunnel` | scripts/beta/cloudflare.py:404-423 | records the one tunnel of the generated name, creating it only when there is none |
| `DnsSession.Session.EnsureIngress` | scripts/beta/cloudflare.py:424-441 | writes the expected ingress rules or accepts rules this journal wrote; refuses others |
| `DnsSession.Session.EnsureToken` | scripts/beta/cloudflare.py:442-450 | stores the connector token once and refuses a different one |
| `DnsSession.Session.Prepare` | scripts/beta/cloudflare.py:396-452 | the whole prepare with its guards equals the specified run, keeps the invariant, and before any cutover changes nothing when it refuses |
| `DnsCutover.PatchById` | scripts/beta/cloudflare.py:496 | a PATCH changes the record with that id and no other |
| `DnsCutover.DeleteById` | scripts/beta/cloudflare.py:553 | a DELETE removes exactly the records with that id |
| `DnsSafety.CutoverBetaKeeps` | scripts/beta/cloudflare.py:482-500 | the invariant survives the beta host of a cutover for every crash point, and a live run ends on the tunnel |
| `DnsSafety.CutoverSiblingKeeps` | scripts/beta/cloudflare.py:501-522 | the invariant survives a sibling host of a cutover for every crash point, and a live run has the record present and recorded |
| `DnsSafety.ReverseSiblingKeeps` | scripts/beta/cloudflare.py:536-557 | the invariant survives a sibling host of a reverse for every crash point, and a live run has the record gone and forgotten |
| `DnsSafety.ReverseBetaKeeps` | scripts/beta/cloudflare.py:558-581 | the invariant survives the beta host of a reverse for every crash point, and a live run ends at the baseline |
| `DnsSafety.PrepareKeeps` | scripts/beta/cloudflare.py:396-452 | the invariant survives prepare for every crash point |
| `DnsSafety.CommandKeeps` | scripts/beta/cloudflare.py:396-584 | every command, crashed anywhere, keeps the invariant of journal and provider |
| `DnsSafety.AllRunsKeep` | scripts/beta/cloudflare.py:396-584 | any sequence of crashed commands keeps the invariant |
| `DnsOutcomes.EveryScriptIsSafe` | scripts/beta/cloudflare.py:396-584 | after any crashed runs: beta keeps its id and is, field by field, the captured record or the proxied CNAME to the tunnel with ttl 1 and the preview comment; a sibling has those fields too and exists only while beta is on the tunnel; a record the journal lacks has `cutover:` pending, a recorded but absent one `reverse:`; at most one tunnel was created |
| `DnsOutcomes.ReverseRecovers` | scripts/beta/cloudflare.py:528-584 | from every such state past inventory a reverse that does not die leaves the captured beta record, field by field, and no sibling and no recorded record; it refuses iff beta was restored and logged before the phase save, and then DNS is at the baseline already; 12 writes suffice |
| `DnsOutcomes.EveryScriptRecovers` | scripts/beta/cloudflare.py:528-584 | the same after any script from a fresh inventory |
| `DnsOutcomes.ReverseCanRefuse` | scripts/beta/cloudflare.py:562-567 | the refusing state is reachable: a finished prepare, a finished cutover and a reverse that dies just before its phase save |
| `DnsOutcomes.CutoverResumes` | scripts/beta/cloudflare.py:471-525 | from a resumable journal a cutover never refuses, stays resumable when it dies, and with 12 writes reaches all three preview routes: each one proxied CNAME to the tunnel, ttl 1, with the preview comment |
| `DnsOutcomes.CrashedCutoversResume` | scripts/beta/cloudflare.py:471-525 | any number of dead cutovers and one live one reach the preview with each sibling created exactly once and its id recorded |
| `DnsOutcomes.PrepareOutcome` | scripts/beta/cloudflare.py:396-453 | prepare refuses iff it is stuck behind its own interrupted configuration write; otherwise 9 writes finish it, with the one tunnel configured, its token stored and DNS as captured, and cutover can start |
| `DnsOutcomes.PrepareCanStick` | scripts/beta/cloudflare.py:427-434 | that stuck journal is reachable: a new tunnel that reports the 404 default and a death just before the configuration call |
| `DnsOutcomes.InventoryToPreview` | scripts/beta/cloudflare.py:396-525 | from a fresh inventory, dead prepares, a finished prepare, dead cutovers and a live cutover reach the preview with one tunnel created over all of them |
| `DnsOutcomes.CutoverRefusals` | scripts/beta/cloudflare.py:471-481 | a cutover without readiness, before prepare, without this tunnel's rules or with a moved guard changes nothing |
| `DnsOutcomes.FieldsOfRecord` | scripts/beta/cloudflare.py:463-469 | the intended route and the baseline comparison, said on the fields of a record |
| `DnsOutcomes.CommandNamed` | scripts/beta/cloudflare.py:396-584 | no command changes the captured record or the tunnel's name |
| `BuildStore.Store.EnqueueJob` | crates/control/src/build_jobs.rs:403-627 | a job and its 600-second reservation appear iff the request is admitted, the account is not locked, and debits less credits plus open reservations leave 600 seconds under the limit |
| `BuildStore.Store.CancelJob` | crates/control/src/build_jobs.rs:1087-1149 | cancel fences the running attempt and leaves cleanup pending, or releases the reservation of a job with no attempt; a refused cancel changes nothing, and no row of another job changes |
| `BuildStore.Store.LeaseCandidate` | crates/control/src/build_jobs.rs:1197-1209 | first step of a lease: lock the first job, in order of creation, that the offered profiles can build, that nobody has locked and whose account looks clear, or report that there is none |
| `BuildStore.Store.LeaseSecondLook` | crates/control/src/build_jobs.rs:1210-1224 | second step: under the account lock, look again or give the job up |
| `BuildStore.Store.LeaseCommit` | crates/control/src/build_jobs.rs:1225-1261 | last step: fail a stale job, or start an attempt under the next fence |
| `BuildStore.Store.RenewLease` | crates/control/src/build_jobs.rs:1315-1339 | a live attempt extends both expiries; any other call changes nothing |
| `BuildStore.Store.MaterializeSource` | crates/control/src/build_jobs.rs:1356-1510 | a live attempt stores the bundle once, or gets 30 seconds to report a rejected source |
| `BuildStore.Store.Credentials` | crates/control/src/build_jobs.rs:1777-1853 | the first resolution by a live attempt marks it launched |
| `BuildStore.Store.CompleteJob` | crates/control/src/build_jobs.rs:2088-2325 | an accepted completion bills its elapsed seconds to the account of the job, closes attempt and job, and stores receipt, effect and artifacts; anything else changes nothing; no row of another job changes and the queue invariant is kept |
| `BuildStore.Store.RegisterCompletion` | crates/control/src/build_jobs.rs:2284-2322 | the rows an accepted completion writes |
| `BuildStore.Store.AcknowledgeCancel` | crates/control/src/build_jobs.rs:1855-1942 | a matching acknowledgment bills the acknowledged seconds and confirms cleanup, once; a refused one changes nothing, and no row of another job changes |
| `BuildStore.Store.SettleUsage` | crates/control/src/build_jobs.rs:2289-2300 | an open reservation is finalized at the seconds given, with a debit of exactly those to its account iff they are more than none |
| `BuildStore.Store.ReapOne` | crates/control/src/build_jobs.rs:2351-2399 | an expired lease becomes retriable before launch (failed at the third attempt), and after it failed, billed from 1 to 600 seconds since the launch and blocked on cleanup |
| `BuildStore.Store.NextExpired` | crates/control/src/build_jobs.rs:2352-2358 | the expired unlocked lease that ended first |
| `BuildStore.Store.ReapExpired` | crates/control/src/build_jobs.rs:2349-2402 | up to 64 rounds, each the specified reap at its own reading of the clock; stopping early leaves no lease that had expired at the last reading; the queue invariant is kept |
| `BuildQueue.ReapBill` | crates/control/src/build_jobs.rs:2378-2382 | at most 600 seconds, and more than none iff the attempt was launched |
| `BuildRuns.StepKeeps` | crates/control/src/build_jobs.rs:403-2402 | every step keeps the queue invariant |
| `BuildRuns.RunKeeps` | crates/control/src/build_jobs.rs:403-2402 | every interleaving of steps keeps the queue invariant |
| `BuildRuns.NeverTwoActive` | crates/control/src/build_jobs.rs:1198-1256 | no interleaving of two-step leases, cancels, completions, acknowledgments and reaps gives an account two jobs that run or await cleanup |
| `BuildRuns.SkippingGivesTwoActive` | crates/control/src/build_jobs.rs:1210-1224 | from every reachable state with two selected leases of one account, granting both without the second look gives it two active jobs |
| `BuildRuns.RecheckedNeverBoth` | crates/control/src/build_jobs.rs:1210-1224 | with the second look, whatever steps come in between, those two jobs are never both active |
| `BuildRuns.CancelTouches` | crates/control/src/build_jobs.rs:1109-1136 | a cancel changes no row, attempt, reservation, effect or artifact of another job |
| `BuildRuns.CompleteTouches` | crates/control/src/build_jobs.rs:2284-2322 | nor does a completion |
| `BuildRuns.ReapTouches` | crates/control/src/build_jobs.rs:2383-2398 | nor does a reap |
| `BuildRuns.TwoCanSelect` | crates/control/src/build_jobs.rs:1198-1209 | such states are reachable for every account that may reserve two builds |
| `BuildRuns.MeterNeverExceeds` | crates/control/src/build_jobs.rs:514-523 | net debits plus 600 per open reservation stay within the limit, and a reservation is open iff its job is queued, running, retriable or canceled with cleanup pending |
| `BuildRuns.OneDebitPerJob` | crates/control/src/build_jobs.rs:2289-2300 | every debit is the finalized seconds of one job, and one job has at most one debit over all its attempts |
| `BuildRuns.RunningAttemptIsUnique` | crates/control/src/build_jobs.rs:1240-1256 | a job runs iff it has a running attempt; that attempt is unique, current and under the current fence; fences of attempts strictly increase |
| `BuildRuns.EffectsAgree` | crates/control/src/build_jobs.rs:2301-2322 | an effect names the terminal state; a success has its artifacts from one attempt, matching the declared services |
| `BuildRuns.ConflictsNeverArise` | crates/control/src/build_jobs.rs:2319-2397 | where a completion or a reap goes through, the job has no effect and no artifacts yet and its reservation is open, so the conflict arms never decide |
| `BuildRuns.StaleAttemptIsPowerless` | crates/control/src/build_jobs.rs:1294-1313 | once an attempt has left running, no renew, materialize, credential or completion call in its name changes a row, whatever happens in between |
| `BuildRuns.TerminalIsFinal` | crates/control/src/build_jobs.rs:1122-1131 | succeeded, failed and canceled are absorbing, and fences never go back |
| `BuildRuns.StaleCancelRefused` | crates/control/src/build_jobs.rs:1087-1121 | a cancel that names an earlier revision changes nothing once the job has changed state |
| `BuildEffects.CompletionBills` | crates/control/src/build_jobs.rs:2284-2322 | an accepted final completion of e seconds raises the net use of its account by e and no other, and finalizes the reservation at e with a debit iff e is positive; one to be retried bills nothing; the rows take the reported state |
| `BuildEffects.AckBills` | crates/control/src/build_jobs.rs:1919-1929 | the same for an acknowledged cancellation |
| `BuildEffects.ReapBills` | crates/control/src/build_jobs.rs:2378-2394 | a launched attempt fails and is billed the seconds since its launch, at least 1 and at most 600; one not launched is retried free of charge, and fails so at the third attempt |
| `BuildEffects.BillsMatchReceipts` | crates/control/src/build_jobs.rs:2289-2300 | in every run a receipt of a final completion or a cancellation is the bill of its job, a debit bills the seconds of its attempt's receipt, and a debit without one is a reaped attempt that had been launched |
| `BuildEffects.CancelFrees` | crates/control/src/build_jobs.rs:1122-1136 | canceling a job that does not run frees its 600 seconds; canceling a running one keeps them until the acknowledgment |
| `BuildEffects.CancelThenAck` | crates/control/src/build_jobs.rs:1855-1942 | whoever holds a live attempt can acknowledge its cancellation with any seconds from 0 to 600; the job is billed those and no longer holds up its account |
| `BuildEffects.RenewalHolds` | crates/control/src/build_jobs.rs:1315-1339 | after a renewal the attempt is live exactly until the new end |
| `BuildEffects.MaterializationHolds` | crates/control/src/build_jobs.rs:1356-1510 | a rejected source leaves the attempt exactly 30 seconds; a stored one is bundled and leaves the lease as it was |
| `BuildEffects.FirstLaunchStays` | crates/control/src/build_jobs.rs:1777-1853 | the launch time is that of the first resolution, whatever happens afterwards |
| `BuildEffects.GrantGives` | crates/control/src/build_jobs.rs:1225-1261 | a granted lease is live for its worker and claim alone, exactly until its end, under a fence above all earlier ones, and is at most the third attempt |
| `BuildEffects.WaitingJobCanRun` | crates/control/src/build_jobs.rs:1197-1261 | a queued or retriable job with attempts left and a clear account can be selected, looked at again and granted |
| `BuildEffects.LiveAttemptCanEnd` | crates/control/src/build_jobs.rs:2088-2283 | a live attempt with its source stored can end with every failure code, a retry or a covering success; before that only with a refused source or a retry, free of charge |
| `BuildEffects.ExpiredIff` | crates/control/src/build_jobs.rs:2352-2358 | a job is reaped iff it runs and its lease has ended |
| `Completeness.CheckArtifacts` | crates/control/src/build_jobs.rs:2187-2283 | the artifact loop and final count accept exactly distinct kinds, each the declared kind of its service, as many as services on success |
| `Completeness.SuccessCoversServices` | crates/control/src/build_jobs.rs:2278-2283 | an accepted success is a bijection between artifacts and declared services with matching kinds |
| `Completeness.ValidateArtifacts` | crates/builder/src/project_build.rs:690-707 | the worker accepts iff there are as many artifacts as services and each service has one of its kind |
| `Completeness.WorkerAndControlAgree` | crates/builder/src/project_build.rs:690-707 | with distinct service ids and artifact kinds, the worker accepts exactly the artifacts control accepts as a success |
| `Completeness.ValidateCredentials` | crates/builder/src/project_build.rs:648-688 | the loop accepts iff counts are equal, every credential answers a leased reference and no version repeats, and returns them in order |
| `Completeness.CredentialsCoverReferences` | crates/builder/src/project_build.rs:648-688 | accepted credentials answer every leased reference exactly once; duplicate reference ids can never be satisfied |
| `AdmissionStore.ExpireRows` | crates/control/src/admission.rs:1271-1288 | due holds in scope expire, each initial one with a refund intent, and the count is right |
| `AdmissionStore.Store.ExpireHolds` | crates/control/src/admission.rs:1694-1716 | expiry of a scope, or of everything when reconciling |
| `AdmissionStore.Store.PlaceHold` | crates/control/src/admission.rs:303-431 | a hold is placed as specified, or nothing is committed |
| `AdmissionStore.Store.AdmitHold` | crates/control/src/admission.rs:433-567 | an active hold is consumed, an initial one into a slot; a lapsed one commits only its expiry; other refusals commit nothing |
| `AdmissionStore.Store.SetCapacity` | crates/control/src/admission.rs:624-687 | a pool limit below present use is refused |
| `AdmissionStore.Store.SetEntitlement` | crates/control/src/admission.rs:689-793 | an entitlement below present use, or with another pool or period, is refused |
| `AdmissionStore.Store.ObserveResources` | crates/control/src/admission.rs:915-1122 | a linked observation of a live slot has the effect stated by `ObserveEffects` |
| `AdmissionStore.Store.Debit` | crates/control/src/admission.rs:1124-1192 | a debit within the allowance, once per attempt |
| `AdmissionStore.Store.Credit` | crates/control/src/admission.rs:1193-1245 | a credit must match one uncredited debit in account, attempt and seconds |
| `Admission.FindSlot` | crates/control/src/admission.rs:492-515 | finds a live slot of the project iff there is one |
| `AdmissionSafety.StepKeeps` | crates/control/src/admission.rs:303-1288 | every admission step keeps placement, limits, hold conservation and billing |
| `AdmissionRuns.CapacityIsSafe` | crates/control/src/admission.rs:1608-1692 | after any run, account slot use, pool slot use and pool rollout use are within entitlement, hosted limit and headroom |
| `AdmissionRuns.AdmitConservesUse` | crates/control/src/admission.rs:492-538 | admission of a hold moves no use counter of any account or pool |
| `AdmissionRuns.InitialHoldsPartition` | crates/control/src/admission.rs:1694-1716 | initial holds ever created are active, refunded or turned into slots, and the three numbers add up |
| `AdmissionRuns.NeverRefundedAndReserved` | crates/control/src/admission.rs:492-520 | no hold is both refunded and reserved; no two live slots share a project |
| `AdmissionRuns.BuildAllowanceHolds` | crates/control/src/admission.rs:1193-1245 | what an account owes is exactly its uncredited debits, between zero and its allowance |
| `AdmissionEffects.UseIsRows` | crates/control/src/admission.rs:1608-1692 | account use is its unreleased slots and active initial holds; a pool likewise; headroom use is rollout holds active or consumed |
| `AdmissionEffects.ObserveEffects` | crates/control/src/admission.rs:1000-1117 | confirmed cleanup frees one slot of its account and pool and moves no other counter; retained resources and a healthy deployment move none and keep the slot; a released rollout gives back one unit of headroom, once |
| `AdmissionEffects.CleanupFreesProject` | crates/control/src/admission.rs:1040-1075 | in every run a confirmed cleanup leaves its project without a live slot, and repeating it changes nothing |
| `AdmissionEffects.HoldEffects` | crates/control/src/admission.rs:303-431 | a granted hold is one new active row that expires after its 5 to 300 seconds; it is initial and takes one slot of its account and pool iff the project has no live slot, else it names that slot and takes one unit of headroom |
| `AdmissionEffects.FreeCapacityIsHeld` | crates/control/src/admission.rs:303-431 | a well-formed request under a live entitlement with room and no open hold of the deployment is granted |
| `AdmissionEffects.AdmitEffects` | crates/control/src/admission.rs:433-567 | an admission consumes exactly a hold that was active and not due; an initial one becomes the reserved slot of a project without a live one |
| `AdmissionEffects.HoldAdmitRelease` | crates/control/src/admission.rs:303-1117 | in every run, holding, admitting and releasing give back exactly what the hold took |
| `AdmissionEffects.ExpireEffects` | crates/control/src/admission.rs:1271-1288 | after an expiry no hold in scope is active and due; those are expired, the initial ones with a refund intent, and no other row changes |
| `AdmissionEffects.DebitThenCredit` | crates/control/src/admission.rs:1124-1245 | a debit raises the net use of its account alone, its credit restores every account, and neither is recorded twice |
| `Meter.NetIsOutstanding` | crates/control/src/admission.rs:1193-1245 | credits each undo one debit, whole and once, so net use is the sum of uncredited debits |
| `Idempotency.Records.AcquireOperationLock` | crates/control/src/intent.rs:80-98 | the lock is taken iff no open transaction holds the same lock number |
| `Idempotency.Records.LookUp` | crates/control/src/intent.rs:100-124 | miss, changed payload or stored response |
| `Idempotency.Records.StoreReplay` | crates/control/src/intent.rs:126-151 | the response row is inserted with the effects of the handler |
| `Idempotency.ExactlyOnce` | crates/control/src/intent.rs:80-151 | in every interleaving, whatever keys share a lock, a key takes effect at most once and every caller is told that outcome or that its payload differs |
| `Idempotency.StoreNeverConflicts` | crates/control/src/intent.rs:126-151 | the insert never meets an existing row |
| `Idempotency.RowsStay` | crates/control/src/intent.rs:126-151 | rows, effects and replies are never lost or rewritten |
| `Bytes.ValueOfBE` | crates/builder/src/guest.rs:747-754 | big-endian decoding inverts encoding |
| `Bytes.BEOfValue` | crates/builder/src/artifact.rs:320-328 | and the other way round |
| `Archive.ReadEntryOfBytes` | crates/builder/src/artifact.rs:169-201 | reading a written entry gives it back iff the reader's rules admit it, and refuses otherwise |
| `Archive.ReadEntriesOfBytes` | crates/builder/src/artifact.rs:165-204 | the same for a whole list of entries with order and running total |
| `Archive.BytesOfReadEntries` | crates/builder/src/artifact.rs:165-204 | whatever is read is the encoding of what was read: no bytes are skipped or read two ways |
| `Archive.LooserRules` | scripts/runtime/prepare-artifact.py:226-250 | entries one reader accepted are accepted by any reader whose rules admit their paths and total |
| `Paths.ReadersAgree` | scripts/runtime/prepare-artifact.py:168-178 | on a path the receiver accepts, the runtime reader adds exactly the ban on control bytes and the release reader nothing |
| `Paths.JoinOfSplit` | crates/builder/src/artifact.rs:330-343 | the components a path check looks at hold no slash and rejoin to the path |
| `PathSafety.NoParentMeans` | crates/builder/src/artifact.rs:330-343 | no component is `..` iff no two dots fill the space between slashes or ends |
| `PathSafety.ChecksOnBytes` | scripts/runtime/prepare-artifact.py:168-178 | each of the four path checks, said on positions and byte values |
| `PathSafety.ContainedStaysBelow` | crates/builder/src/artifact.rs:330-343 | walking such a path component by component never leaves the directory it starts from, and ends strictly below it unless the path starts with `.` |
| `PathSafety.ReceivedPathsAreSafe` | crates/builder/src/artifact.rs:165-204 | every file of an accepted stream has such a path, of at most 1024 bytes and without zero, line break or backslash |
| `PathSafety.UnpackedPathsAreSafe` | scripts/runtime/prepare-artifact.py:226-250 | every file the runtime unpacks, from any bytes under any manifest, has such a path without control character or backslash |
| `PathSafety.ExtractedPathsAreSafe` | scripts/release/hostlet-release-coordinator.py:75-125 | every file of an extracted frontend has such a path without zero or backslash |
| `PathSafety.SourcePathsAreSafe` | crates/builder/src/guest.rs:384-426 | every source file extracted from any device has such a path |
| `PathSafety.BundledIff` | crates/control/src/build_jobs.rs:1526-1597 | a snapshot is bundled iff it has at most 10000 files, every path is such a printable path of at most 1024 bytes, and no two agree after lowering |
| `PathSafety.PlannedIff` | crates/builder/src/guest.rs:632-729 | an output is planned iff every file can be sent, no two share a path, the kind is known and count and size are within limits |
| `WireFormat.MostSignificantFirst` | crates/builder/src/guest.rs:747-754 | numbers are big-endian |
| `WireFormat.BeforeMeans` | crates/builder/src/artifact.rs:172-174 | one path precedes another iff it is a proper prefix or has the smaller byte where they first differ |
| `WireFormat.Utf8Iff` | crates/builder/src/artifact.rs:320-328 | a text passes the UTF-8 check iff it encodes some Unicode scalar values |
| `WireFormat.EntriesOnTheWire` | crates/builder/src/guest.rs:750-756 | two entries byte by byte: widths, order and modes |
| `WireFormat.FormatsOnTheWire` | crates/builder/src/guest.rs:736-763 | two files as a bundle, a stored archive and a guest stream, byte by byte |
| `Sorting.SortSorts` | crates/control/src/build_jobs.rs:1529-1530 | sorting by path bytes orders and permutes |
| `Sorting.SortIgnoresOrder` | crates/control/src/build_jobs.rs:1529-1530 | with distinct paths the sorted list does not depend on the input order |
| `Sorting.SortedPathsIgnoreOrder` | crates/control/src/build_jobs.rs:1529-1530 | the sorted paths never do, repeated or not |
| `SourceBundle.CanonicalSourceBundle` | crates/control/src/build_jobs.rs:1526-1579 | the loop produces the specified bundle and total, or the first refusal in path order; `BundledIff` says when |
| `SourceBundle.BundleIgnoresOrder` | crates/control/src/build_jobs.rs:1526-1579 | the same files in any order give the same bundle or the same refusal |
| `SourceBundle.Padded` | crates/builder/src/vm.rs:578-588 | zero padding to the next multiple of 512 |
| `SourceBundle.ExtractBundle` | crates/builder/src/guest.rs:374-452 | behind a bundle, extraction accepts exactly up to 511 zero bytes and returns the sorted files |
| `SourceBundle.SourceRoundTrip` | crates/builder/src/guest.rs:374-452 | extracting the padded bundle returns exactly the sorted files |
| `SourceBundle.BundleIsInjective` | crates/control/src/build_jobs.rs:1526-1579 | different sets of files never share a bundle |
| `SourceBundle.ReadPadding` | crates/builder/src/guest.rs:427-451 | for any read sizes, the trailing loop accepts iff all bytes are zero and at most 511 |
| `SourceBundle.ExtractSource` | crates/builder/src/guest.rs:374-452 | for any read sizes, the loop extracts what the specification says |
| `SourceBundle.ExtractEntry` | crates/builder/src/guest.rs:384-426 | one turn of that loop |
| `Scanner.ContainsBytes` | crates/builder/src/artifact.rs:297-302 | the window search finds the needle iff it occurs |
| `Scanner.TailIsEnough` | crates/builder/src/artifact.rs:264-287 | a value not seen before occurs in all bytes read iff it occurs in the carried tail and the new piece |
| `Scanner.ScanIsWhole` | crates/builder/src/artifact.rs:264-287 | scanning tail and piece decides the same as scanning everything |
| `Scanner.ScanPiece` | crates/builder/src/artifact.rs:274-287 | one step of the scan and the tail it carries on |
| `Scanner.CopyHashed` | crates/builder/src/artifact.rs:250-295 | for any read sizes it rejects iff a nonempty forbidden value occurs in the whole content, fails iff the input is short, and otherwise writes and captures exactly the content |
| `GuestOutput.WriteSuccess` | crates/builder/src/guest.rs:625-758 | plans every artifact before writing; the stream is the encoding of the plan, or the first planning error, or a refusal of more than 255 artifacts |
| `GuestOutput.WriteArchives` | crates/builder/src/guest.rs:745-756 | the writing loops produce the encoding of the planned artifacts |
| `GuestOutput.ReceiveEntry` | crates/builder/src/artifact.rs:169-201 | one turn of the receiving loop: checks, copies with the scan and repacks |
| `GuestOutput.ReceiveEntries` | crates/builder/src/artifact.rs:165-204 | the entry loop: entries, repacked bytes, byte total, paths and package.json |
| `GuestOutput.ReceiveArtifact` | crates/builder/src/artifact.rs:108-219 | one artifact: accepted and stored as its canonical HCA1 bytes with the counts of its entries, or refused |
| `GuestOutput.Receive` | crates/builder/src/artifact.rs:72-229 | the whole stream: accepted artifacts in order, or refusal |
| `Unpackers.UnpackEntries` | scripts/runtime/prepare-artifact.py:226-251 | the entry loops of both scripts with the final total and trailing-byte checks |
| `Unpackers.UnpackApplication` | scripts/runtime/prepare-artifact.py:210-254 | unpack_hca returns the ordered files or refuses, as specified |
| `Unpackers.UnpackStatic` | scripts/release/hostlet-release-coordinator.py:87-131 | extract_static likewise |
| `OutputRoundTrip.PlanOneMeans` | crates/builder/src/guest.rs:632-729 | a planned artifact holds exactly the collected files, sorted, within limits |
| `OutputRoundTrip.PlannedIsAccepted` | crates/builder/src/artifact.rs:165-204 | planned entries meet the receiver's rules iff no file holds a forbidden value |
| `OutputRoundTrip.ReceiveOfStream` | crates/builder/src/artifact.rs:72-229 | the receiver accepts a written stream, artifact for artifact, iff there are at most two, no two share a kind and no file holds a forbidden value |
| `OutputRoundTrip.AcceptedStreams` | crates/builder/src/artifact.rs:72-229 | whatever a guest sends, an accepted stream is the encoding of the artifacts received, each ordered, clean and within limits |
| `OutputRoundTrip.ReportedFacts` | crates/builder/src/artifact.rs:173-219 | the counts and the set of paths of an accepted artifact are right, and its package.json is reported iff it has one of at most 64 KiB |
| `OutputRoundTrip.ApplicationUnpacks` | scripts/runtime/prepare-artifact.py:210-254 | the runtime unpacks a received application to exactly its files, under the manifest of what was received, iff the id is canonical, no path has a control byte and the script's limits hold |
| `OutputRoundTrip.StaticExtracts` | scripts/release/hostlet-release-coordinator.py:87-131 | the coordinator extracts a received frontend to exactly its files iff its limits hold and it can parse the id |
| `OutputRoundTrip.EndToEnd` | crates/builder/src/guest.rs:625-758 | from the files of a declared service to the unpacked files: same order, paths, modes, bytes and counts at every stage |
| `OutputRoundTrip.OneFileChain` | scripts/runtime/prepare-artifact.py:210-254 | guest and builder take an application with any path and id they can write; the runtime takes it iff the id is canonical and the path has no control byte |
| `OutputRoundTrip.TabPathIsRefused` | scripts/runtime/prepare-artifact.py:168-178 | a file named with a tab is planned, received and stored, and the runtime refuses the artifact |
| `OutputRoundTrip.UpperCaseIdIsRefused` | scripts/runtime/prepare-artifact.py:216-218 | so is an artifact under a service id with upper-case digits |
| `ImageResolve.Resolve` | scripts/runtime/prepare-artifact.py:61-94 | the loop ends on every file system and gives the specified answer |
| `ImageResolve.WalkIsCanonical` | scripts/runtime/prepare-artifact.py:61-94 | a result has no `..`, nothing skipped and no link at it or above it, and never uses more links than allowed |
| `ImageResolve.ResolveIsIdempotent` | scripts/runtime/prepare-artifact.py:61-94 | a result resolves to itself without following a link |
| `ImageResolve.WalkAppend` | scripts/runtime/prepare-artifact.py:66-93 | resolution composes: the rest of a path is resolved from where its beginning ended |
| `ImageResolve.DirectoryFirst` | scripts/runtime/prepare-artifact.py:61-94 | resolving the directory first gives the same result, less the links it cost |
| `ImageResolve.LimitCutsOff` | scripts/runtime/prepare-artifact.py:84-87 | the limit of 64 changes nothing but to report a loop exactly when more links would be followed |
| `ImageResolve.CyclesNeverResolve` | scripts/runtime/prepare-artifact.py:83-91 | a link whose target leads back to itself is a loop under every limit |
| `ImageResolve.NoLinksIsLexical` | scripts/runtime/prepare-artifact.py:66-93 | without links a path resolves to its lexical normal form, each `..` canceling the nearest name left of it, and is an escape iff some `..` finds none |
| `ImageResolve.ParentOfResolved` | scripts/runtime/prepare-artifact.py:70-74 | wherever a path leads, `..` after it leads to the directory above, and is an escape at the root |
| `ImageResolve.LinkStandsForTarget` | scripts/runtime/prepare-artifact.py:83-91 | a link stands for its target from the root if absolute, else from the directory that holds it, at the cost of one link |
| `ReleaseStore.Coordinator.Extract` | scripts/release/hostlet-release-coordinator.py:87-131 | an installed tree is reused; otherwise it appears whole in one rename, or not at all |
| `ReleaseStore.Coordinator.ExtractAll` | scripts/release/hostlet-release-coordinator.py:278-280 | frontend and retained trees in order |
| `ReleaseStore.Coordinator.Publish` | scripts/release/hostlet-release-coordinator.py:281-292 | the immutable manifest before the pointer; stale or colliding generations leave the pointer |
| `ReleaseStore.Coordinator.Switch` | scripts/release/hostlet-release-coordinator.py:261-292 | the whole switch equals the specified run, for every point of death |
| `ReleaseRoute.SwitchKeeps` | scripts/release/hostlet-release-coordinator.py:261-292 | every request, dying anywhere, keeps the state-root invariant and moves only forward |
| `ReleaseRoute.PointerIsSafe` | scripts/release/hostlet-release-coordinator.py:281-292 | over any dead or finished switches the pointer is a stored manifest, its generation never drops and never changes content while it stays |
| `ReleaseRoute.DrainSelection` | scripts/release/hostlet-release-gateway.py:62-92 | a visitor stays on the release of the cookie, with the frontend retained for it, exactly while it drains, is retained and its manifest is stored; everyone else gets the active route |
| `ReleaseRoute.SelectionIsStored` | scripts/release/hostlet-release-gateway.py:53-92 | whatever the cookie, time and listing order, the gateway selects a stored manifest of its project |
| `ReleaseRoute.SelectionIsInstalled` | scripts/release/hostlet-release-gateway.py:118-126 | in every state that keeps the invariant, the frontend of a selected route has its tree installed |
| `ReleaseRoute.SelectedFrontendIsInstalled` | scripts/release/hostlet-release-gateway.py:118-126 | so in every state that switches, dead or finished, lead to; the tree equals what its archive unpacks to |
| `ReleaseRoute.ServedFiles` | scripts/release/hostlet-release-coordinator.py:87-131 | an installed tree of an archive the builder stored is exactly the files of that artifact |
| `ReleaseRoute.ActiveAfterSwitch` | scripts/release/hostlet-release-gateway.py:53-61 | after a switch the gateway has the new route iff the manifest is at most 512 KiB in bytes |
| `ReleaseRoute.OutgrowingNeedsPadding` | scripts/release/hostlet-release-coordinator.py:214-219 | a request file of at most 1 MiB carries the manifest twice, so a text no longer than the object fits the gateway; one that does not fit is longer than the object and not ASCII |
| `ReleaseRoute.CompactManifestsLoad` | crates/control/src/releases.rs:945-957 | with the compact text the control plane sends, the gateway has every switched route |
| `ReleaseRoute.StretchedManifestIsLost` | scripts/release/hostlet-release-coordinator.py:267-292 | a manifest with one character of several bytes, its text stretched by blanks to the limit in characters, is switched to and the gateway then has no route |
| `ReleaseRoute.ExampleIsLost` | scripts/release/hostlet-release-coordinator.py:267-292 | the same for one written-out JSON text, under every decoder that reads it the same behind blanks |
| `ReleaseRace.StepKeeps` | scripts/release/hostlet-release-coordinator.py:261-292 | with several switches at once, every single write or look keeps the state-root invariant |
| `ReleaseRace.OverlapIsSafe` | scripts/release/hostlet-release-coordinator.py:261-292 | however switches overlap and die, the pointer is a stored manifest and a selected frontend is installed |
| `ReleaseRace.ForwardIffNoneOvertaken` | scripts/release/hostlet-release-coordinator.py:286-292 | over overlapping switches the pointer only moves forward iff no pointer write is overtaken: between its look and its write no later generation, or other content of the same one, was written |
| `ReleaseRace.PointersAreMoves` | scripts/release/hostlet-release-coordinator.py:286-292 | the pointer of any moment is the last of the pointer writes so far |
| `ReleaseRace.PointerCanGoBack` | scripts/release/hostlet-release-coordinator.py:286-292 | overtaking happens: of two switches that look before either writes, the lower generation can write last |
| `ReleaseRace.AloneIsSwitch` | scripts/release/hostlet-release-coordinator.py:261-292 | a switch no other step disturbs leaves what the sequential run leaves |
| `ReleaseRoute.SwitchResumes` | scripts/release/hostlet-release-coordinator.py:261-292 | repeating a switch that died ends as if it had not died |
| `ReleaseRoute.CrashedSwitchesResume` | scripts/release/hostlet-release-coordinator.py:261-292 | any number of dead switches and a live one end as one live one |
| `ReleaseOutcomes.SwitchIff` | scripts/release/hostlet-release-coordinator.py:261-292 | with writes to spare, an admissible request is switched to iff its trees can be installed and nothing later, or other of the same generation, is current; else the pointer stays |
| `ReleaseOutcomes.SwitchedTo` | scripts/release/hostlet-release-coordinator.py:261-292 | the pointer is then the text whose digest was committed, stored under it, the text of the manifest sent and of the generation requested; its trees are installed and described in the store |
| `ReleaseOutcomes.InstallsIff` | scripts/release/hostlet-release-coordinator.py:87-131 | the trees are installed iff each is described in the store and is there already or unpacks |
| `ReleaseOutcomes.NewTreesAreUnpacked` | scripts/release/hostlet-release-coordinator.py:98-127 | a tree that a run adds is what its stored archive unpacks to under a build manifest that describes it |
| `ReleaseOutcomes.CharactersAreScalars` | scripts/release/hostlet-release-coordinator.py:270-271 | the length the coordinator limits is the number of Unicode scalar values |
| `JsComments.StripComments` | crates/control/src/compatibility.rs:1523-1594 | the byte loop equals the specified stripping |
| `JsComments.StripIsCommentFree` | crates/control/src/compatibility.rs:1523-1594 | the output lexes without entering a comment |
| `JsComments.StripTwice` | crates/control/src/compatibility.rs:1523-1594 | stripping the output only expands it, and leaves it alone iff the source is ASCII outside its comments |
| `JsComments.AsciiSource` | crates/control/src/compatibility.rs:1523-1594 | an ASCII source meets that condition |
| `JsComments.AccentsGrow` | crates/control/src/compatibility.rs:1554-1562 | one accented letter in code changes on every pass |
| `JsSegments.StripOfSegments` | crates/control/src/compatibility.rs:1523-1594 | of a run of code bytes, literals and comments, stripping keeps code and literals and leaves a space for each comment |
| `JsSegments.SegmentsOfAccepted` | crates/control/src/compatibility.rs:1523-1594 | every accepted source is such a run, so the output is what the run keeps |
| `JsObject.ParseSimpleQuoted` | crates/control/src/compatibility.rs:1495-1514 | the end of a string, and its inside iff it has no escape |
| `JsObject.SkipAsciiWhitespace` | crates/control/src/compatibility.rs:1516-1521 | the first byte that is not white |
| `JsObject.StaticExportedObject` | crates/control/src/compatibility.rs:1443-1493 | the loop returns the specified object text |
| `JsObject.ShortestBalanced` | crates/control/src/compatibility.rs:1467-1492 | the scan finds the shortest quote-aware balanced prefix, and fails iff there is none |
| `JsObject.ObjectCloses` | crates/control/src/compatibility.rs:1443-1493 | the returned text is one balanced object and no proper prefix of it is balanced |
| `JsObject.OneTurn` | crates/control/src/compatibility.rs:1390-1438 | one turn of the counting loop; `CountsMembers` says what the turns add up to |
| `JsObject.HasSingleLiteralProperty` | crates/control/src/compatibility.rs:1378-1441 | strip, cut out and count, as specified; `SingleLiteralIff` says when it answers yes |
| `JsObject.CountingIsSound` | crates/control/src/compatibility.rs:1385-1440 | in an exported object, counting never meets an open string or a stray brace and ends at depth zero |
| `JsMembers.StringIff` | crates/control/src/compatibility.rs:1495-1514 | from a quote mark on a string is read iff one stands there on one line with its escapes complete, and its inside is given iff it has none |
| `JsMembers.CountsMembers` | crates/control/src/compatibility.rs:1378-1441 | on an object text the count is the number of members with that name, bare or quoted, and of those whose value starts with that string, whatever strings and nested braces the other members hold |
| `JsExports.ObjectIsExport` | crates/control/src/compatibility.rs:1443-1493 | an object is cut out iff it stands behind the first `export default`, or else the first `module.exports` and an equals sign, closes there first, nothing banned occurs from there on, and only white space and at most one semicolon follow |
| `JsExports.SingleLiteralIff` | crates/control/src/compatibility.rs:1378-1441 | for a source that exports these members the answer is yes iff exactly one member has the name and its value starts with the expected string |
| `JsExports.TernaryIsCounted` | crates/control/src/compatibility.rs:1428-1440 | the colon of a conditional value is counted as that of a member |

## Left out

- DNS: the `inventory` and `status` commands, and writers other than this script, so that the
  guards on the apex, the wildcard and the legacy tunnel are one flag and a new tunnel reports no
  foreign rules; a connector token is represented by its tunnel.
- BuildStore.Store.CompleteJob: the size and count limits of artifacts, their entrypoints and the
  manifest checks against the store are one parameter, because they compare fields of documents
  that nothing else here reads.
- Build queue: the checks of source, profile and secrets at enqueue and the validity query of a
  lease are parameters; a step of a run may lease any eligible job, which the candidate method
  narrows to the first one offered; entitlements are per account; receipts hold what their hash
  commits to; a repeated acknowledgment is refused, as the code does. Liveness is not claimed:
  cleanup pending on a failed job is never cleared here.
- Build queue and admission share one event table in the database; a joint claim over both files
  is not made, since admission's checks do not count open build reservations.
- Admission: project revisions, source proofs and lifecycle checks are parameters; the unique
  index that allows one live slot per project (migrations/0005_onboarding.sql:288) appears as a
  refusal; replays of a usage event by its id are not modelled.
- Archives: a reader's several error codes are one refusal; the JSON of reports and manifests,
  `str::to_lowercase` and `uuid.UUID` are parameters; collecting a directory tree and collisions
  such as `a` beside `a/b` are not modelled, files being ordered lists of paths; a reader that
  would block at the end of a stream counts as the end of the stream.
- Symbolic links: a path or link target is a list of components with an absolute flag, and the
  file system does not change during resolution.
- Release routes: JSON decoding is a parameter; stored content is its own address in place of
  SHA-256; migrations, receipts and the serving of files are left out.
- JavaScript: only the comment stripper and the object scanner; the rest of the compatibility
  analysis is left out.
- JsExports.SingleLiteralIff: an object with a colon inside a value, outside strings and inner
  braces, is not a list of members here, because the scanner counts such a colon too.
- HTTP, authentication, SQL text, encryption, virtual machines, sockets, permissions and fsync
  are not part of this model, nor are the relay, the migration probe and the configuration
  checks, which are mostly linear validation.
