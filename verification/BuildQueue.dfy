/** The fenced build queue and its meter (crates/control/src/build_jobs.rs).

    Every table is a sequence whose index is the row id, or a map for a table keyed by another
    table's id. A handler is one committed transaction, written as a function from the database
    before to the database after; a refused request leaves the database as it is. The lease
    handler is three steps, between which any other step may happen. */
module BuildQueue {
  import opened Common
  import opened Meter

  const RESERVED_SECONDS := 600
  const MAX_ATTEMPTS := 3
  const MAX_ARTIFACTS := 2
  const REJECTION_SECONDS := 30

  datatype State = Queued | Running | Succeeded | Failed | Canceled | Retriable

  datatype Cleanup = NotStarted | Confirmed | CleanupPending

  datatype Kind = Static | Application

  /** A service of the job's immutable graph and the artifact kind it must produce. */
  datatype Service = Service(id: nat, kind: Kind)

  datatype Artifact = Artifact(service: nat, kind: Kind, digest: string)

  datatype Job = Job(account: nat, state: State, revision: nat, attempts: nat, current: Option<nat>, fence: nat,
                     leaseEnds: Option<int>, cleanup: Cleanup, bundled: bool, services: seq<Service>)

  datatype Attempt = Attempt(job: nat, number: nat, fence: nat, worker: nat, state: State, leaseEnds: int,
                             launched: Option<int>)

  datatype Reservation = Reserved | Finalized(seconds: nat, debit: Option<nat>) | Released

  datatype Usage = Usage(account: nat, reservation: Reservation)

  datatype Effect = Effect(attempt: nat, state: State)

  datatype Outcome = Outcome(state: State, code: string, elapsed: int, artifacts: seq<Artifact>, cleanupConfirmed: bool)

  /** What a receipt's hash commits to. */
  datatype Receipt = Completion(worker: nat, outcome: Outcome) | CancelAck(worker: nat, elapsed: int)

  datatype Outputs = Outputs(attempt: nat, artifacts: seq<Artifact>)

  /** A lease transaction: it holds the row lock of a job, and from the recheck on also the row
      lock of the job's account. */
  datatype Lease = Selected(job: nat) | Checked(job: nat)

  datatype Db = Db(jobs: seq<Job>, attempts: seq<Attempt>, usage: seq<Usage>, events: seq<Event>,
                   effects: map<nat, Effect>, receipts: map<nat, Receipt>, outputs: map<nat, Outputs>,
                   limits: map<nat, nat>, leases: map<nat, Lease>)

  /** The identity a worker presents with every call about its attempt. */
  datatype Claim = Claim(worker: nat, attempt: nat, fence: nat)

  datatype Materialized = Stored | Rejected | Unavailable

  // ----- guards -----

  predicate Terminal(s: State) {
    s in {Succeeded, Failed, Canceled}
  }

  predicate Active(j: Job) {
    j.state == Running || j.cleanup == CleanupPending
  }

  predicate AccountClear(jobs: seq<Job>, account: nat) {
    forall i :: 0 <= i < |jobs| && jobs[i].account == account ==> !Active(jobs[i])
  }

  /** A lease transaction has the row lock of this job. */
  predicate JobLocked(db: Db, job: nat) {
    exists t :: t in db.leases && db.leases[t].job == job
  }

  predicate AccountLocked(db: Db, account: nat) {
    exists t :: t in db.leases && db.leases[t].Checked? && db.leases[t].job < |db.jobs|
                && db.jobs[db.leases[t].job].account == account
  }

  predicate Leasable(j: Job) {
    j.state in {Queued, Retriable} && j.attempts < MAX_ATTEMPTS
  }

  /** lock_live_attempt. */
  predicate LiveAttempt(db: Db, job: nat, c: Claim, now: int) {
    && job < |db.jobs| && !JobLocked(db, job) && c.fence > 0 && c.attempt < |db.attempts|
    && var j, a := db.jobs[job], db.attempts[c.attempt];
    && j.state == Running && j.current == Some(c.attempt) && j.fence == c.fence
    && j.leaseEnds.Some? && j.leaseEnds.value > now
    && a.job == job && a.fence == c.fence && a.state == Running && a.worker == c.worker && a.leaseEnds > now
  }

  function Share(u: Usage, account: nat): int {
    if u.account == account && u.reservation.Reserved? then RESERVED_SECONDS else 0
  }

  function Held(usage: seq<Usage>, account: nat): int {
    if usage == [] then 0 else Held(usage[..|usage| - 1], account) + Share(usage[|usage| - 1], account)
  }

  // ----- row updates that several handlers share -----

  function SetJob(db: Db, job: nat, row: Job): Db
    requires job < |db.jobs|
  {
    db.(jobs := db.jobs[job := row])
  }

  function SetAttemptState(db: Db, attempt: nat, s: State): Db
    requires attempt < |db.attempts|
  {
    db.(attempts := db.attempts[attempt := db.attempts[attempt].(state := s)])
  }

  function SetReservation(db: Db, job: nat, r: Reservation): Db
    requires job < |db.usage|
  {
    db.(usage := db.usage[job := db.usage[job].(reservation := r)])
  }

  function Release(db: Db, job: nat): Db {
    if job < |db.usage| && db.usage[job].reservation.Reserved? then SetReservation(db, job, Released) else db
  }

  /** Finalize the reservation, with a debit when something is billed. */
  function Settle(db: Db, job: nat, attempt: nat, billed: nat): Db {
    if job < |db.usage| && db.usage[job].reservation.Reserved? then
      if billed > 0 then
        var debited := db.(events := db.events + [Debit(db.usage[job].account, attempt, billed)]);
        SetReservation(debited, job, Finalized(billed, Some(|db.events|)))
      else SetReservation(db, job, Finalized(0, None))
    else db
  }

  // ----- handlers -----

  function Enqueue(db: Db, account: nat, services: seq<Service>, admitted: bool): Db {
    if admitted && account in db.limits && !AccountLocked(db, account)
       && Net(db.events, account) + Held(db.usage, account) + RESERVED_SECONDS <= db.limits[account]
    then db.(jobs := db.jobs + [Job(account, Queued, 1, 0, None, 0, None, NotStarted, false, services)],
             usage := db.usage + [Usage(account, Reserved)])
    else db
  }

  function Cancel(db: Db, job: nat, expected: nat): Db {
    if job >= |db.jobs| || JobLocked(db, job) || db.jobs[job].revision != expected || Terminal(db.jobs[job].state) then db
    else
      var j := db.jobs[job];
      var row := j.(state := Canceled, revision := j.revision + 1, current := None, fence := j.fence + 1, leaseEnds := None,
                    cleanup := if j.current.Some? then CleanupPending else NotStarted);
      if j.current.Some? then
        var a := j.current.value;
        SetJob(if a < |db.attempts| && db.attempts[a].job == job && db.attempts[a].fence == j.fence && db.attempts[a].state == Running
               then SetAttemptState(db, a, Canceled) else db, job, row)
      else SetJob(Release(db, job), job, row)
  }

  predicate Candidate(db: Db, job: nat) {
    job < |db.jobs| && Leasable(db.jobs[job]) && !JobLocked(db, job) && AccountClear(db.jobs, db.jobs[job].account)
  }

  /** The candidate query: one unlocked job, chosen while its account looks clear. */
  function LeaseSelect(db: Db, t: nat, job: nat): Db {
    if t !in db.leases && Candidate(db, job) then db.(leases := db.leases[t := Selected(job)])
    else db
  }

  /** Take the account lock, or wait for it, and look again. */
  function LeaseRecheck(db: Db, t: nat): Db {
    if t in db.leases && db.leases[t].Selected? && db.leases[t].job < |db.jobs| then
      var account := db.jobs[db.leases[t].job].account;
      if AccountLocked(db, account) then db
      else if AccountClear(db.jobs, account) then db.(leases := db.leases[t := Checked(db.leases[t].job)])
      else db.(leases := db.leases - {t})
    else db
  }

  /** The rest of the lease transaction up to its commit. */
  function LeaseGrant(db: Db, t: nat, valid: bool, worker: nat, ends: int): Db {
    if t in db.leases && db.leases[t].Checked? && db.leases[t].job < |db.jobs| then
      var job := db.leases[t].job;
      var j := db.jobs[job];
      var freed := db.(leases := db.leases - {t});
      if !valid then SetJob(Release(freed, job), job, j.(state := Failed, revision := j.revision + 1))
      else
        var a := Attempt(job, j.attempts + 1, j.fence + 1, worker, Running, ends, None);
        SetJob(freed.(attempts := db.attempts + [a]), job,
               j.(state := Running, revision := j.revision + 1, attempts := j.attempts + 1,
                  current := Some(|db.attempts|), fence := j.fence + 1, leaseEnds := Some(ends)))
    else db
  }

  /** The worker's connection is lost: its transaction rolls back and its locks go. */
  function LeaseAbort(db: Db, t: nat): Db {
    db.(leases := db.leases - {t})
  }

  function Extend(db: Db, job: nat, attempt: nat, ends: int): Db
    requires job < |db.jobs| && attempt < |db.attempts|
  {
    db.(jobs := db.jobs[job := db.jobs[job].(leaseEnds := Some(ends))],
        attempts := db.attempts[attempt := db.attempts[attempt].(leaseEnds := ends)])
  }

  function Renew(db: Db, job: nat, c: Claim, now: int, ends: int): Db {
    if LiveAttempt(db, job, c, now) then Extend(db, job, c.attempt, ends) else db
  }

  function Materialize(db: Db, job: nat, c: Claim, now: int, result: Materialized): Db {
    if !LiveAttempt(db, job, c, now) || db.jobs[job].bundled then db
    else match result
      case Stored => SetJob(db, job, db.jobs[job].(bundled := true))
      case Rejected => Extend(db, job, c.attempt, now + REJECTION_SECONDS)
      case Unavailable => db
  }

  function ResolveCredentials(db: Db, job: nat, c: Claim, now: int, resolved: bool): Db {
    if LiveAttempt(db, job, c, now) && resolved && db.attempts[c.attempt].launched.None?
    then db.(attempts := db.attempts[c.attempt := db.attempts[c.attempt].(launched := Some(now))])
    else db
  }

  const FAILURE_CODES := {
    "build_failed", "dependency_not_available_offline", "build_timeout", "memory_limit", "workspace_limit",
    "static_output_too_large", "runtime_output_too_large", "output_invalid", "source_policy_rejected",
    "platform_fault", "cleanup_failed"}

  predicate ValidCompletion(o: Outcome) {
    && (match o.state
        case Succeeded => o.code == "build_succeeded" && o.elapsed > 0 && o.artifacts != []
        case Failed => o.code in FAILURE_CODES && o.artifacts == []
        case Retriable => o.code == "platform_prelaunch_fault" && o.elapsed == 0 && o.artifacts == []
        case _ => false)
    && 0 <= o.elapsed <= RESERVED_SECONDS && |o.artifacts| <= MAX_ARTIFACTS
  }

  /** Completions accepted before the source is materialized. */
  predicate EarlyCompletion(o: Outcome) {
    && o.elapsed == 0
    && ((o.state == Failed && o.code == "source_policy_rejected") || (o.state == Retriable && o.code == "platform_prelaunch_fault"))
  }

  /** The required kind of a service id: BTreeMap::get on the collected rows. */
  function KindOf(services: seq<Service>, id: nat): Option<Kind> {
    if services == [] then None
    else if services[|services| - 1].id == id then Some(services[|services| - 1].kind)
    else KindOf(services[..|services| - 1], id)
  }

  function ServiceIds(services: seq<Service>): set<nat> {
    set i | 0 <= i < |services| :: services[i].id
  }

  /** The artifact loop and the count that follows it, on the first `n` artifacts. */
  predicate ArtifactsMatch(services: seq<Service>, artifacts: seq<Artifact>) {
    && (forall i, k :: 0 <= i < k < |artifacts| ==> artifacts[i].kind != artifacts[k].kind)
    && (forall i :: 0 <= i < |artifacts| ==> KindOf(services, artifacts[i].service) == Some(artifacts[i].kind))
  }

  predicate ArtifactsAccepted(services: seq<Service>, o: Outcome) {
    ArtifactsMatch(services, o.artifacts) && (o.state == Succeeded ==> |o.artifacts| == |ServiceIds(services)|)
  }

  predicate CompletionAccepted(db: Db, job: nat, c: Claim, now: int, o: Outcome, manifests: bool) {
    && c.attempt !in db.receipts && ValidCompletion(o) && LiveAttempt(db, job, c, now)
    && (db.jobs[job].bundled || EarlyCompletion(o))
    && manifests && (o.state == Succeeded ==> o.cleanupConfirmed)
    && ArtifactsAccepted(db.jobs[job].services, o)
    && job < |db.usage| && (o.elapsed > 0 ==> db.usage[job].reservation.Reserved?)
  }

  /** What an accepted completion writes. */
  function CompleteRows(db: Db, job: nat, c: Claim, o: Outcome): Db
    requires job < |db.jobs| && c.attempt < |db.attempts| && o.elapsed >= 0
  {
    var j := db.jobs[job];
    var settled := if o.state == Retriable then db else Settle(db, job, c.attempt, o.elapsed);
    var closed := SetJob(SetAttemptState(settled, c.attempt, o.state), job,
      j.(state := o.state, revision := j.revision + 1, current := None, leaseEnds := None,
         cleanup := if o.cleanupConfirmed then Confirmed else CleanupPending));
    closed.(receipts := closed.receipts[c.attempt := Completion(c.worker, o)],
            effects := if o.state == Retriable then closed.effects else closed.effects[job := Effect(c.attempt, o.state)],
            outputs := if o.artifacts == [] then closed.outputs else closed.outputs[job := Outputs(c.attempt, o.artifacts)])
  }

  function Complete(db: Db, job: nat, c: Claim, now: int, o: Outcome, manifests: bool): Db {
    if CompletionAccepted(db, job, c, now, o, manifests) then CompleteRows(db, job, c, o) else db
  }

  function AckCancel(db: Db, job: nat, c: Claim, elapsed: int, receipt: bool): Db {
    if c.fence > 0 && 0 <= elapsed <= RESERVED_SECONDS && receipt && c.attempt !in db.receipts
       && job < |db.jobs| && !JobLocked(db, job) && c.attempt < |db.attempts|
       && db.jobs[job].state == Canceled && db.jobs[job].cleanup == CleanupPending
       && db.attempts[c.attempt].job == job && db.attempts[c.attempt].fence == c.fence
       && db.attempts[c.attempt].worker == c.worker && db.attempts[c.attempt].state == Canceled
       && job < |db.usage| && (elapsed > 0 ==> db.usage[job].reservation.Reserved?)
    then
      var j := db.jobs[job];
      var settled := Settle(db, job, c.attempt, elapsed);
      SetJob(settled, job, j.(cleanup := Confirmed, revision := j.revision + 1))
        .(receipts := db.receipts[c.attempt := CancelAck(c.worker, elapsed)])
    else db
  }

  predicate Expired(db: Db, job: nat, now: int) {
    && job < |db.jobs| && !JobLocked(db, job) && db.jobs[job].state == Running
    && db.jobs[job].leaseEnds.Some? && db.jobs[job].leaseEnds.value <= now
    && db.jobs[job].current.Some? && db.jobs[job].current.value < |db.attempts|
    && db.attempts[db.jobs[job].current.value].job == job && db.attempts[db.jobs[job].current.value].fence == db.jobs[job].fence
  }

  /** LEAST(600, GREATEST(1, elapsed)) since the launch, and nothing before it. */
  function ReapBill(a: Attempt, now: int): (billed: nat)
    ensures billed <= RESERVED_SECONDS
    ensures a.launched.Some? <==> billed > 0
  {
    if a.launched.None? then 0
    else
      var elapsed := now - a.launched.value;
      if elapsed < 1 then 1 else if elapsed > RESERVED_SECONDS then RESERVED_SECONDS else elapsed
  }

  predicate ReapEnds(db: Db, job: nat)
    requires job < |db.jobs| && db.jobs[job].current.Some? && db.jobs[job].current.value < |db.attempts|
  {
    db.attempts[db.jobs[job].current.value].launched.Some? || db.jobs[job].attempts >= MAX_ATTEMPTS
  }

  /** The attempt and its job leave running. */
  function ReapClose(db: Db, job: nat, s: State, billed: nat): Db
    requires job < |db.jobs| && db.jobs[job].current.Some? && db.jobs[job].current.value < |db.attempts|
  {
    var j := db.jobs[job];
    var attempt := j.current.value;
    SetJob(if db.attempts[attempt].state == Running then SetAttemptState(db, attempt, s) else db, job,
      j.(state := s, revision := j.revision + 1, current := None, leaseEnds := None,
         cleanup := if billed > 0 then CleanupPending else j.cleanup))
  }

  function Reap(db: Db, job: nat, now: int): Db {
    if !Expired(db, job, now) then db
    else
      var attempt := db.jobs[job].current.value;
      var billed := ReapBill(db.attempts[attempt], now);
      if ReapEnds(db, job) then
        var settled := Settle(ReapClose(db, job, Failed, billed), job, attempt, billed);
        settled.(effects := if job in settled.effects then settled.effects else settled.effects[job := Effect(attempt, Failed)])
      else ReapClose(db, job, Retriable, billed)
  }

  /** A platform-fault credit of admission.rs: exactly one debit, exactly once. */
  function CreditFault(db: Db, debit: nat): Db {
    if debit < |db.events| && db.events[debit].Debit? && !Credited(db.events, debit)
    then db.(events := db.events + [Credit(db.events[debit].account, debit, db.events[debit].seconds)])
    else db
  }

  /** An entitlement limit that appears or grows. */
  function RaiseLimit(db: Db, account: nat, limit: nat): Db {
    if account in db.limits && limit < db.limits[account] then db
    else db.(limits := db.limits[account := limit])
  }

  datatype Step =
    | DoEnqueue(account: nat, services: seq<Service>, admitted: bool)
    | DoCancel(job: nat, expected: nat)
    | DoSelect(t: nat, job: nat)
    | DoRecheck(t: nat)
    | DoGrant(t: nat, valid: bool, worker: nat, ends: int)
    | DoAbort(t: nat)
    | DoRenew(job: nat, claim: Claim, now: int, ends: int)
    | DoMaterialize(job: nat, claim: Claim, now: int, result: Materialized)
    | DoResolve(job: nat, claim: Claim, now: int, resolved: bool)
    | DoComplete(job: nat, claim: Claim, now: int, outcome: Outcome, manifests: bool)
    | DoAck(job: nat, claim: Claim, elapsed: int, receipt: bool)
    | DoReap(job: nat, now: int)
    | DoCredit(debit: nat)
    | DoRaise(account: nat, limit: nat)

  function Apply(db: Db, s: Step): Db {
    match s
    case DoEnqueue(account, services, admitted) => Enqueue(db, account, services, admitted)
    case DoCancel(job, expected) => Cancel(db, job, expected)
    case DoSelect(t, job) => LeaseSelect(db, t, job)
    case DoRecheck(t) => LeaseRecheck(db, t)
    case DoGrant(t, valid, worker, ends) => LeaseGrant(db, t, valid, worker, ends)
    case DoAbort(t) => LeaseAbort(db, t)
    case DoRenew(job, claim, now, ends) => Renew(db, job, claim, now, ends)
    case DoMaterialize(job, claim, now, result) => Materialize(db, job, claim, now, result)
    case DoResolve(job, claim, now, resolved) => ResolveCredentials(db, job, claim, now, resolved)
    case DoComplete(job, claim, now, outcome, manifests) => Complete(db, job, claim, now, outcome, manifests)
    case DoAck(job, claim, elapsed, receipt) => AckCancel(db, job, claim, elapsed, receipt)
    case DoReap(job, now) => Reap(db, job, now)
    case DoCredit(debit) => CreditFault(db, debit)
    case DoRaise(account, limit) => RaiseLimit(db, account, limit)
  }

  function ApplyAll(db: Db, steps: seq<Step>): Db
    decreases |steps|
  {
    if steps == [] then db else ApplyAll(Apply(db, steps[0]), steps[1..])
  }

  const EMPTY: Db := Db([], [], [], [], map[], map[], map[], map[], map[])
}
