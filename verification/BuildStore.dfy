/** The handlers of build_jobs.rs as they run: row by row over the tables of one database,
    each proved to commit what its specification in BuildQueue says. */
module BuildStore {
  import opened Common
  import opened Meter
  import opened BuildQueue
  import BuildSafety
  import BuildRuns
  import BuildEffects
  import Completeness

  class Store {
    var jobs: seq<Job>
    var attempts: seq<Attempt>
    var usage: seq<Usage>
    var events: seq<Event>
    var effects: map<nat, Effect>
    var receipts: map<nat, Receipt>
    var outputs: map<nat, Outputs>
    var limits: map<nat, nat>
    var leases: map<nat, Lease>

    constructor ()
      ensures View() == EMPTY
    {
      jobs, attempts, usage, events := [], [], [], [];
      effects, receipts, outputs, limits, leases := map[], map[], map[], map[], map[];
    }

    function View(): Db
      reads this
    {
      Db(jobs, attempts, usage, events, effects, receipts, outputs, limits, leases)
    }

    method EnqueueJob(account: nat, services: seq<Service>, admitted: bool) returns (created: Option<nat>)
      modifies this
      ensures View() == Enqueue(old(View()), account, services, admitted)
      ensures created.Some? <==> View() != old(View())
      ensures created.Some? ==> created.value == old(|jobs|) && |jobs| == old(|jobs|) + 1
      ensures old(BuildSafety.Inv(View())) ==> BuildSafety.Inv(View())
    {
      ghost var before := View();
      hide BuildSafety.Inv;
      if BuildSafety.Inv(before) {
        BuildSafety.EnqueueKeeps(before, account, services, admitted);
      }
      if !admitted || account !in limits || AccountLocked(View(), account) {
        return None;
      }
      var used := Net(events, account) + Held(usage, account);
      if used + RESERVED_SECONDS > limits[account] {
        return None;
      }
      created := Some(|jobs|);
      jobs := jobs + [Job(account, Queued, 1, 0, None, 0, None, NotStarted, false, services)];
      usage := usage + [Usage(account, Reserved)];
    }

    /** UPDATE build_usage_reservations SET state='released' ... AND state='reserved'. */
    method ReleaseUsage(job: nat)
      modifies this`usage
      ensures View() == Release(old(View()), job)
    {
      if job < |usage| && usage[job].reservation.Reserved? {
        usage := usage[job := usage[job].(reservation := Released)];
      }
    }

    /** The debit insert and the finalizing update that complete, cancel_ack and the reaper share. */
    method SettleUsage(job: nat, attempt: nat, billed: nat)
      modifies this`usage, this`events
      ensures View() == Settle(old(View()), job, attempt, billed)
      ensures old(job < |usage| && usage[job].reservation.Reserved?) ==> BuildEffects.Billed(old(View()), View(), job, attempt, billed)
    {
      ghost var before := View();
      if job < |usage| && usage[job].reservation.Reserved? {
        BuildEffects.SettleBills(before, job, attempt, billed);
      }
      hide BuildEffects.Billed;
      if job < |usage| && usage[job].reservation.Reserved? {
        var debit := None;
        if billed > 0 {
          debit := Some(|events|);
          events := events + [Debit(usage[job].account, attempt, billed)];
        }
        usage := usage[job := usage[job].(reservation := Finalized(billed, debit))];
      }
    }

    method CancelJob(job: nat, expected: nat) returns (canceled: bool)
      modifies this
      ensures View() == Cancel(old(View()), job, expected)
      ensures old(BuildSafety.Inv(View())) ==> BuildSafety.Inv(View())
      ensures BuildRuns.OnlyJob(old(View()), View(), job)
      ensures !canceled ==> View() == old(View())
      ensures canceled ==> job < |jobs| == old(|jobs|) && jobs[job].state == Canceled && jobs[job].fence == old(jobs[job].fence) + 1
    {
      ghost var before := View();
      hide BuildSafety.Inv, BuildRuns.OnlyJob;
      if BuildSafety.Inv(before) {
        BuildRuns.CancelKeeps(before, job, expected);
      }
      BuildRuns.CancelTouches(before, job, expected);
      if job >= |jobs| || JobLocked(View(), job) || jobs[job].revision != expected || Terminal(jobs[job].state) {
        return false;
      }
      var attempt := jobs[job].current;
      if attempt.Some? {
        var a := attempt.value;
        if a < |attempts| && attempts[a].job == job && attempts[a].fence == jobs[job].fence && attempts[a].state == Running {
          attempts := attempts[a := attempts[a].(state := Canceled)];
        }
      } else {
        ReleaseUsage(job);
      }
      jobs := jobs[job := jobs[job].(state := Canceled, revision := jobs[job].revision + 1, current := None,
                                     fence := jobs[job].fence + 1, leaseEnds := None,
                                     cleanup := if attempt.Some? then CleanupPending else NotStarted)];
      canceled := true;
    }

    /** The candidate query: the first job, in the order of creation, that the worker's profiles can build,
        that no transaction has locked and whose account looks clear. `offered` holds the jobs whose profile
        the worker named. */
    method LeaseCandidate(t: nat, offered: set<nat>) returns (job: Option<nat>)
      requires t !in leases
      modifies this`leases
      ensures job.Some? ==> job.value in offered && Candidate(old(View()), job.value) && View() == LeaseSelect(old(View()), t, job.value)
                            && leases[t] == Selected(job.value)
      ensures job.None? ==> View() == old(View())
      ensures forall i: nat :: i in offered && Candidate(old(View()), i) ==> job.Some? && job.value <= i
      ensures old(BuildSafety.Inv(View())) ==> BuildSafety.Inv(View())
    {
      ghost var before := View();
          hide BuildSafety.Inv;
      var i := 0;
      while i < |jobs|
        invariant 0 <= i <= |jobs| && View() == before
        invariant forall k: nat :: k < i && k in offered ==> !Candidate(before, k)
      {
        if i in offered && Candidate(View(), i) {
          if BuildSafety.Inv(before) {
            BuildSafety.SelectKeeps(before, t, i);
          }
          leases := leases[t := Selected(i)];
          return Some(i);
        }
        i := i + 1;
      }
      job := None;
    }

    method LeaseSecondLook(t: nat)
      modifies this`leases
      ensures View() == LeaseRecheck(old(View()), t)
      ensures old(BuildSafety.Inv(View())) ==> BuildSafety.Inv(View())
    {
      ghost var before := View();
      hide BuildSafety.Inv;
      if BuildSafety.Inv(before) {
        BuildSafety.RecheckKeeps(before, t);
      }
      if t !in leases || !leases[t].Selected? || leases[t].job >= |jobs| {
        return;
      }
      var account := jobs[leases[t].job].account;
      if AccountLocked(View(), account) {
        return;
      }
      if AccountClear(jobs, account) {
        leases := leases[t := Checked(leases[t].job)];
      } else {
        leases := leases - {t};
      }
    }

    method LeaseCommit(t: nat, valid: bool, worker: nat, ends: int) returns (claim: Option<Claim>)
      modifies this
      ensures View() == LeaseGrant(old(View()), t, valid, worker, ends)
      ensures claim.Some? ==>
                && old(t in leases && leases[t].job < |jobs|)
                && claim.value.attempt < |attempts| && attempts[claim.value.attempt].state == Running
                && claim.value.fence == jobs[old(leases[t].job)].fence
      ensures old(BuildSafety.Inv(View())) ==> BuildSafety.Inv(View())
    {
      ghost var before := View();
      hide BuildSafety.Inv;
      if BuildSafety.Inv(before) {
        BuildRuns.GrantKeeps(before, t, valid, worker, ends);
      }
      if t !in leases || !leases[t].Checked? || leases[t].job >= |jobs| {
        return None;
      }
      var job := leases[t].job;
      leases := leases - {t};
      if !valid {
        jobs := jobs[job := jobs[job].(state := Failed, revision := jobs[job].revision + 1)];
        ReleaseUsage(job);
        return None;
      }
      var number, fence := jobs[job].attempts + 1, jobs[job].fence + 1;
      claim := Some(Claim(worker, |attempts|, fence));
      attempts := attempts + [Attempt(job, number, fence, worker, Running, ends, None)];
      jobs := jobs[job := jobs[job].(state := Running, revision := jobs[job].revision + 1, attempts := number,
                                     current := Some(claim.value.attempt), fence := fence, leaseEnds := Some(ends))];
    }

    method RenewLease(job: nat, c: Claim, now: int, ends: int) returns (renewed: bool)
      modifies this
      ensures View() == Renew(old(View()), job, c, now, ends)
      ensures renewed == old(LiveAttempt(View(), job, c, now))
      ensures old(BuildSafety.Inv(View())) ==> BuildSafety.Inv(View())
      ensures BuildRuns.OnlyJob(old(View()), View(), job)
    {
      ghost var before := View();
      hide BuildSafety.Inv, BuildRuns.OnlyJob;
      if BuildSafety.Inv(before) {
        BuildSafety.RenewKeeps(before, job, c, now, ends);
      }
      BuildRuns.RenewTouches(before, job, c, now, ends);
      renewed := LiveAttempt(View(), job, c, now);
      if renewed {
        attempts := attempts[c.attempt := attempts[c.attempt].(leaseEnds := ends)];
        jobs := jobs[job := jobs[job].(leaseEnds := Some(ends))];
      }
    }

    method MaterializeSource(job: nat, c: Claim, now: int, result: Materialized)
      modifies this
      ensures View() == Materialize(old(View()), job, c, now, result)
      ensures old(BuildSafety.Inv(View())) ==> BuildSafety.Inv(View())
      ensures BuildRuns.OnlyJob(old(View()), View(), job)
    {
      ghost var before := View();
      hide BuildSafety.Inv, BuildRuns.OnlyJob;
      if BuildSafety.Inv(before) {
        BuildSafety.MaterializeKeeps(before, job, c, now, result);
      }
      BuildRuns.MaterializeTouches(before, job, c, now, result);
      if !LiveAttempt(View(), job, c, now) || jobs[job].bundled {
        return;
      }
      match result
      case Stored =>
        jobs := jobs[job := jobs[job].(bundled := true)];
      case Rejected =>
        attempts := attempts[c.attempt := attempts[c.attempt].(leaseEnds := now + REJECTION_SECONDS)];
        jobs := jobs[job := jobs[job].(leaseEnds := Some(now + REJECTION_SECONDS))];
      case Unavailable =>
    }

    method Credentials(job: nat, c: Claim, now: int, resolved: bool)
      modifies this
      ensures View() == ResolveCredentials(old(View()), job, c, now, resolved)
      ensures old(BuildSafety.Inv(View())) ==> BuildSafety.Inv(View())
      ensures BuildRuns.OnlyJob(old(View()), View(), job)
    {
      ghost var before := View();
      hide BuildSafety.Inv, BuildRuns.OnlyJob;
      if BuildSafety.Inv(before) {
        BuildSafety.ResolveKeeps(before, job, c, now, resolved);
      }
      BuildRuns.ResolveTouches(before, job, c, now, resolved);
      if LiveAttempt(View(), job, c, now) && resolved && attempts[c.attempt].launched.None? {
        attempts := attempts[c.attempt := attempts[c.attempt].(launched := Some(now))];
      }
    }

    method CompleteJob(job: nat, c: Claim, now: int, o: Outcome, manifests: bool) returns (accepted: bool)
      modifies this
      ensures View() == Complete(old(View()), job, c, now, o, manifests)
      ensures old(BuildSafety.Inv(View())) ==> BuildSafety.Inv(View())
      ensures BuildRuns.OnlyJob(old(View()), View(), job)
      ensures accepted == CompletionAccepted(old(View()), job, c, now, o, manifests)
      ensures if accepted then c.attempt in receipts else View() == old(View())
      ensures accepted && o.state != Retriable && old(BuildSafety.Inv(View())) ==>
                BuildEffects.Billed(old(View()), View(), job, c.attempt, o.elapsed)
    {
      ghost var before := View();
      hide BuildSafety.Inv, BuildRuns.OnlyJob;
      if BuildSafety.Inv(before) && CompletionAccepted(before, job, c, now, o, manifests) {
        BuildEffects.CompletionBills(before, job, c, now, o, manifests);
      }
      hide BuildEffects.Billed;
      if BuildSafety.Inv(before) {
        BuildSafety.CompleteKeeps(before, job, c, now, o, manifests);
      }
      BuildRuns.CompleteTouches(before, job, c, now, o, manifests);
      if c.attempt in receipts || !ValidCompletion(o) || !LiveAttempt(View(), job, c, now) {
        return false;
      }
      if (!jobs[job].bundled && !EarlyCompletion(o)) || !manifests || (o.state == Succeeded && !o.cleanupConfirmed) {
        return false;
      }
      assert o.elapsed >= 0;
      hide ValidCompletion, EarlyCompletion, ArtifactsAccepted, CompleteRows, JobLocked;
      var matching := Completeness.CheckArtifacts(jobs[job].services, o);
      if !matching || job >= |usage| || (o.elapsed > 0 && !usage[job].reservation.Reserved?) {
        return false;
      }
      RegisterCompletion(job, c, o);
      accepted := true;
    }

    /** The writes of an accepted completion. */
    method RegisterCompletion(job: nat, c: Claim, o: Outcome)
      requires job < |jobs| && c.attempt < |attempts| && o.elapsed >= 0
      modifies this
      ensures View() == CompleteRows(old(View()), job, c, o)
    {
      hide Settle;
      if o.state != Retriable {
        SettleUsage(job, c.attempt, o.elapsed);
      }
      attempts := attempts[c.attempt := attempts[c.attempt].(state := o.state)];
      jobs := jobs[job := jobs[job].(state := o.state, revision := jobs[job].revision + 1, current := None, leaseEnds := None,
                                     cleanup := if o.cleanupConfirmed then Confirmed else CleanupPending)];
      receipts := receipts[c.attempt := Completion(c.worker, o)];
      if o.state != Retriable {
        effects := effects[job := Effect(c.attempt, o.state)];
      }
      if o.artifacts != [] {
        outputs := outputs[job := Outputs(c.attempt, o.artifacts)];
      }
    }

    method AcknowledgeCancel(job: nat, c: Claim, elapsed: int, receipt: bool) returns (acknowledged: bool)
      modifies this
      ensures View() == AckCancel(old(View()), job, c, elapsed, receipt)
      ensures old(BuildSafety.Inv(View())) ==> BuildSafety.Inv(View())
      ensures BuildRuns.OnlyJob(old(View()), View(), job)
      ensures if acknowledged then c.attempt in receipts && job < |jobs| && jobs[job].cleanup == Confirmed else View() == old(View())
      ensures acknowledged && old(BuildSafety.Inv(View())) ==> BuildEffects.Billed(old(View()), View(), job, c.attempt, elapsed)
    {
      ghost var before := View();
      hide BuildSafety.Inv, BuildRuns.OnlyJob;
      if BuildSafety.Inv(before) && AckCancel(before, job, c, elapsed, receipt) != before {
        BuildEffects.AckBills(before, job, c, elapsed, receipt);
      }
      hide BuildEffects.Billed;
      if BuildSafety.Inv(before) {
        BuildSafety.AckKeeps(before, job, c, elapsed, receipt);
      }
      BuildRuns.AckTouches(before, job, c, elapsed, receipt);
      if c.fence == 0 || elapsed < 0 || elapsed > RESERVED_SECONDS || !receipt || c.attempt in receipts
         || job >= |jobs| || JobLocked(View(), job) || c.attempt >= |attempts| {
        return false;
      }
      var a := attempts[c.attempt];
      if jobs[job].state != Canceled || jobs[job].cleanup != CleanupPending
         || a.job != job || a.fence != c.fence || a.worker != c.worker || a.state != Canceled
         || job >= |usage| || (elapsed > 0 && !usage[job].reservation.Reserved?) {
        return false;
      }
      SettleUsage(job, c.attempt, elapsed);
      jobs := jobs[job := jobs[job].(cleanup := Confirmed, revision := jobs[job].revision + 1)];
      receipts := receipts[c.attempt := CancelAck(c.worker, elapsed)];
      acknowledged := true;
    }

    method CloseExpired(job: nat, s: State, launched: bool)
      requires job < |jobs| && jobs[job].current.Some? && jobs[job].current.value < |attempts|
      modifies this`jobs, this`attempts
      ensures forall billed: nat :: (billed > 0 <==> launched) ==> View() == ReapClose(old(View()), job, s, billed)
    {
      var attempt := jobs[job].current.value;
      if attempts[attempt].state == Running {
        attempts := attempts[attempt := attempts[attempt].(state := s)];
      }
      jobs := jobs[job := jobs[job].(state := s, revision := jobs[job].revision + 1, current := None, leaseEnds := None,
                                     cleanup := if launched then CleanupPending else jobs[job].cleanup)];
    }

    /** One round of the reaper on one expired lease. */
    method ReapOne(job: nat, now: int)
      modifies this
      ensures View() == Reap(old(View()), job, now)
      ensures old(BuildSafety.Inv(View())) ==> BuildSafety.Inv(View())
      ensures BuildRuns.OnlyJob(old(View()), View(), job)
      ensures old(BuildSafety.Inv(View()) && Expired(View(), job, now)) ==> BuildEffects.ReapBilled(old(View()), View(), job, now)
    {
      ghost var before := View();
      hide BuildSafety.Inv, BuildRuns.OnlyJob, BuildEffects.ReapBilled, BuildEffects.Billed;
      BuildEffects.ReapSummary(before, job, now);
      if !Expired(View(), job, now) {
        return;
      }
      var attempt := jobs[job].current.value;
      var launched := attempts[attempt].launched.Some?;
      var billed := ReapBill(attempts[attempt], now);
      var terminal := launched || jobs[job].attempts >= MAX_ATTEMPTS;
      assert terminal == ReapEnds(View(), job);
      hide ReapClose, Settle, ReapBill, ReapEnds;
      CloseExpired(job, if terminal then Failed else Retriable, launched);
      if terminal {
        SettleUsage(job, attempt, billed);
        if job !in effects {
          effects := effects[job := Effect(attempt, Failed)];
        }
      }
    }

    /** The expired lease that ended first, lowest row id first among equals. */
    method NextExpired(now: int) returns (found: Option<nat>)
      ensures found.Some? ==> Expired(View(), found.value, now)
      ensures found.Some? ==> forall i: nat :: i < |jobs| && Expired(View(), i, now) ==>
                jobs[found.value].leaseEnds.value < jobs[i].leaseEnds.value
                || (jobs[found.value].leaseEnds == jobs[i].leaseEnds && found.value <= i)
      ensures found.None? ==> forall i: nat :: i < |jobs| ==> !Expired(View(), i, now)
    {
      found := None;
      var i := 0;
      while i < |jobs|
        invariant 0 <= i <= |jobs|
        invariant found.Some? ==> found.value < i && Expired(View(), found.value, now)
        invariant found.Some? ==> forall k: nat :: k < i && Expired(View(), k, now) ==>
                    jobs[found.value].leaseEnds.value < jobs[k].leaseEnds.value
                    || (jobs[found.value].leaseEnds == jobs[k].leaseEnds && found.value <= k)
        invariant found.None? ==> forall k: nat :: k < i ==> !Expired(View(), k, now)
      {
        if Expired(View(), i, now) && (found.None? || jobs[i].leaseEnds.value < jobs[found.value].leaseEnds.value) {
          found := Some(i);
        }
        i := i + 1;
      }
    }

    /** Up to 64 rounds, each with its own reading of the clock: what is left is the run of those reaps,
        and an early stop leaves no lease behind that had expired at the last reading. */
    method ReapExpired(clock: nat -> int) returns (ghost reaped: seq<Step>)
      modifies this
      ensures |reaped| <= 64
      ensures View() == ApplyAll(old(View()), reaped)
      ensures forall i :: 0 <= i < |reaped| ==> reaped[i].DoReap? && reaped[i].now == clock(i)
      ensures |reaped| < 64 ==> forall i: nat :: i < |jobs| ==> !Expired(View(), i, clock(|reaped|))
      ensures old(BuildSafety.Inv(View())) ==> BuildSafety.Inv(View())
    {
      hide BuildSafety.Inv, BuildRuns.OnlyJob, Reap;
      reaped := [];
      var round := 0;
      while round < 64
        invariant 0 <= round <= 64 && |reaped| == round
        invariant View() == ApplyAll(old(View()), reaped)
        invariant forall i :: 0 <= i < |reaped| ==> reaped[i].DoReap? && reaped[i].now == clock(i)
      {
        var next := NextExpired(clock(round));
        if next.None? {
          break;
        }
        ReapOne(next.value, clock(round));
        ApplyOneMore(old(View()), reaped, DoReap(next.value, clock(round)));
        reaped := reaped + [DoReap(next.value, clock(round))];
        round := round + 1;
      }
      if old(BuildSafety.Inv(View())) {
        BuildRuns.RunKeeps(old(View()), reaped);
      }
    }
  }

  lemma {:induction false} ApplyOneMore(db: Db, steps: seq<Step>, s: Step)
    ensures ApplyAll(db, steps + [s]) == Apply(ApplyAll(db, steps), s)
    decreases |steps|
  {
    if steps == [] {
      assert [s][1..] == [];
      assert ([] + [s])[1..] == [];
    } else {
      assert (steps + [s])[1..] == steps[1..] + [s];
      ApplyOneMore(Apply(db, steps[0]), steps[1..], s);
    }
  }
}
