/** The build queue over whole runs: every interleaving of the steps of many workers, users
    and the reaper, with crashed lease transactions and stale calls among them. */
module BuildRuns {
  import opened Common
  import opened Meter
  import opened BuildQueue
  import opened BuildSafety

  lemma CancelKeeps(db: Db, job: nat, expected: nat)
    requires Inv(db)
    ensures Inv(Cancel(db, job, expected))
  {
    hide Inv;
    if job < |db.jobs| {
      if db.jobs[job].state == Running {
        CancelRunningKeeps(db, job, expected);
      } else {
        CancelIdleKeeps(db, job, expected);
      }
    }
  }

  lemma GrantKeeps(db: Db, t: nat, valid: bool, worker: nat, ends: int)
    requires Inv(db)
    ensures Inv(LeaseGrant(db, t, valid, worker, ends))
  {
    hide Inv, LeaseGrant;
    if valid {
      ValidGrantKeeps(db, t, worker, ends);
    } else {
      StaleGrantKeeps(db, t, worker, ends);
    }
  }

  lemma StepKeeps(db: Db, s: Step)
    requires Inv(db)
    ensures Inv(Apply(db, s))
  {
    hide Inv, Enqueue, Cancel, LeaseSelect, LeaseRecheck, LeaseGrant, LeaseAbort, Renew, Materialize, ResolveCredentials, Complete,
         AckCancel, Reap, CreditFault, RaiseLimit;
    match s
    case DoEnqueue(account, services, admitted) => EnqueueKeeps(db, account, services, admitted);
    case DoCancel(job, expected) => CancelKeeps(db, job, expected);
    case DoSelect(t, job) => SelectKeeps(db, t, job);
    case DoRecheck(t) => RecheckKeeps(db, t);
    case DoGrant(t, valid, worker, ends) => GrantKeeps(db, t, valid, worker, ends);
    case DoAbort(t) => AbortKeeps(db, t);
    case DoRenew(job, claim, now, ends) => RenewKeeps(db, job, claim, now, ends);
    case DoMaterialize(job, claim, now, result) => MaterializeKeeps(db, job, claim, now, result);
    case DoResolve(job, claim, now, resolved) => ResolveKeeps(db, job, claim, now, resolved);
    case DoComplete(job, claim, now, outcome, manifests) => CompleteKeeps(db, job, claim, now, outcome, manifests);
    case DoAck(job, claim, elapsed, receipt) => AckKeeps(db, job, claim, elapsed, receipt);
    case DoReap(job, now) => ReapKeeps(db, job, now);
    case DoCredit(debit) => CreditKeeps(db, debit);
    case DoRaise(account, limit) => RaiseKeeps(db, account, limit);
  }

  lemma {:induction false} RunKeeps(db: Db, steps: seq<Step>)
    requires Inv(db)
    ensures Inv(ApplyAll(db, steps))
    decreases |steps|
  {
    if steps != [] {
      StepKeeps(db, steps[0]);
      RunKeeps(Apply(db, steps[0]), steps[1..]);
    }
  }

  /** No interleaving gives an account two jobs that run or wait for cleanup. */
  lemma NeverTwoActive(steps: seq<Step>)
    ensures var db := ApplyAll(EMPTY, steps);
            forall i, k :: 0 <= i < k < |db.jobs| && db.jobs[i].account == db.jobs[k].account ==>
              !Active(db.jobs[i]) || !Active(db.jobs[k])
  {
    EmptyHolds();
    RunKeeps(EMPTY, steps);
    var db := ApplyAll(EMPTY, steps);
    forall i, k | 0 <= i < k < |db.jobs| && db.jobs[i].account == db.jobs[k].account
      ensures !Active(db.jobs[i]) || !Active(db.jobs[k])
    {
      assert Apart(db.jobs, i, k);
    }
  }

  /** Net debits plus 600 seconds for every open reservation never exceed an account's limit, and a
      reservation is open exactly while its job is queued, running, retriable or awaiting cleanup after a cancel. */
  lemma MeterNeverExceeds(steps: seq<Step>, account: nat, job: nat)
    ensures var db := ApplyAll(EMPTY, steps);
            && (account in db.limits ==> Net(db.events, account) + Held(db.usage, account) <= db.limits[account])
            && |db.usage| == |db.jobs|
            && (job < |db.jobs| ==>
                  (db.usage[job].reservation.Reserved? <==>
                    db.jobs[job].state in {Queued, Running, Retriable}
                    || (db.jobs[job].state == Canceled && db.jobs[job].cleanup == CleanupPending)))
  {
    EmptyHolds();
    RunKeeps(EMPTY, steps);
    var db := ApplyAll(EMPTY, steps);
    if job < |db.jobs| {
      assert ReservationOk(db.jobs, db.usage, db.events, job);
    }
  }

  /** Every debit bills the finalized seconds of the job of one attempt, and all attempts of a job
      together cause at most one debit. */
  lemma OneDebitPerJob(steps: seq<Step>)
    ensures var db := ApplyAll(EMPTY, steps);
            && (forall e :: 0 <= e < |db.events| && db.events[e].Debit? ==>
                  && db.events[e].attempt < |db.attempts| && db.attempts[db.events[e].attempt].job < |db.usage|
                  && db.usage[db.attempts[db.events[e].attempt].job].reservation == Finalized(db.events[e].seconds, Some(e))
                  && 0 < db.events[e].seconds <= RESERVED_SECONDS)
            && (forall e, f :: 0 <= e < f < |db.events| && db.events[e].Debit? && db.events[f].Debit? ==>
                  db.attempts[db.events[e].attempt].job != db.attempts[db.events[f].attempt].job)
  {
    EmptyHolds();
    RunKeeps(EMPTY, steps);
    var db := ApplyAll(EMPTY, steps);
    forall e | 0 <= e < |db.events| && db.events[e].Debit?
      ensures db.events[e].attempt < |db.attempts| && db.attempts[db.events[e].attempt].job < |db.usage|
      ensures db.usage[db.attempts[db.events[e].attempt].job].reservation == Finalized(db.events[e].seconds, Some(e))
      ensures 0 < db.events[e].seconds <= RESERVED_SECONDS
    {
      assert DebitOk(db.attempts, db.usage, db.events, e);
      assert ReservationOk(db.jobs, db.usage, db.events, db.attempts[db.events[e].attempt].job);
    }
  }

  /** A job has a running attempt iff it runs; that attempt is the current one under the current
      fence, and no other attempt of the job runs. Later attempts carry larger fences. */
  lemma RunningAttemptIsUnique(steps: seq<Step>, job: nat)
    requires job < |ApplyAll(EMPTY, steps).jobs|
    ensures var db := ApplyAll(EMPTY, steps);
            && (db.jobs[job].state == Running <==> exists a :: 0 <= a < |db.attempts| && db.attempts[a].job == job && db.attempts[a].state == Running)
            && (forall a :: 0 <= a < |db.attempts| && db.attempts[a].job == job && db.attempts[a].state == Running ==>
                  db.jobs[job].current == Some(a) && db.attempts[a].fence == db.jobs[job].fence)
            && (forall a, b :: 0 <= a < b < |db.attempts| && db.attempts[a].job == job && db.attempts[b].job == job ==>
                  db.attempts[a].fence < db.attempts[b].fence)
  {
    EmptyHolds();
    RunKeeps(EMPTY, steps);
    var db := ApplyAll(EMPTY, steps);
    assert JobFenced(db.jobs, db.attempts, job);
    forall a | 0 <= a < |db.attempts| && db.attempts[a].job == job && db.attempts[a].state == Running
      ensures db.jobs[job].current == Some(a) && db.attempts[a].fence == db.jobs[job].fence && db.jobs[job].state == Running
    {
      assert AttemptFenced(db.jobs, db.attempts, a);
    }
    if db.jobs[job].state == Running {
      var a := db.jobs[job].current.value;
      assert 0 <= a < |db.attempts| && db.attempts[a].job == job && db.attempts[a].state == Running;
    }
    forall a, b | 0 <= a < b < |db.attempts| && db.attempts[a].job == job && db.attempts[b].job == job
      ensures db.attempts[a].fence < db.attempts[b].fence
    {
      assert Later(db.attempts, a, b);
    }
  }

  /** A job's effect names its terminal state, and a success registers, from that one attempt,
      artifacts that match the declared services and are as many. */
  lemma EffectsAgree(steps: seq<Step>, job: nat)
    requires job < |ApplyAll(EMPTY, steps).jobs|
    ensures var db := ApplyAll(EMPTY, steps);
            && (job in db.effects ==> db.effects[job].state == db.jobs[job].state && db.jobs[job].state in {Succeeded, Failed})
            && (db.jobs[job].state == Succeeded ==>
                  && job in db.effects && job in db.outputs && db.outputs[job].attempt == db.effects[job].attempt
                  && ArtifactsMatch(db.jobs[job].services, db.outputs[job].artifacts)
                  && |db.outputs[job].artifacts| == |ServiceIds(db.jobs[job].services)|)
            && (job in db.outputs ==> db.jobs[job].state == Succeeded)
  {
    EmptyHolds();
    RunKeeps(EMPTY, steps);
    var db := ApplyAll(EMPTY, steps);
    assert EffectOk(db.jobs, db.attempts, db.effects, db.outputs, job);
  }

  /** A completion or a reap that goes through finds its reservation open and no effect or output of the
      job yet: the conflict arms of the inserts never decide anything. */
  lemma ConflictsNeverArise(steps: seq<Step>, job: nat, c: Claim, now: int)
    requires var db := ApplyAll(EMPTY, steps); LiveAttempt(db, job, c, now) || Expired(db, job, now)
    ensures var db := ApplyAll(EMPTY, steps);
            job !in db.effects && job !in db.outputs && job < |db.usage| && db.usage[job].reservation.Reserved?
  {
    EmptyHolds();
    RunKeeps(EMPTY, steps);
    var db := ApplyAll(EMPTY, steps);
    assert EffectOk(db.jobs, db.attempts, db.effects, db.outputs, job);
    assert ReservationOk(db.jobs, db.usage, db.events, job);
  }

  // ----- what never comes back -----

  ghost predicate AttemptStays(before: Attempt, later: Attempt) {
    && later.job == before.job && later.fence == before.fence && later.number == before.number && later.worker == before.worker
    && (before.state != Running ==> later.state == before.state)
    && (before.launched.Some? ==> later.launched == before.launched)
  }

  ghost predicate JobStays(before: Job, later: Job) {
    && later.fence >= before.fence && later.account == before.account && later.services == before.services
    && later.revision >= before.revision && (later.state != before.state ==> later.revision > before.revision)
    && (Terminal(before.state) ==> later.state == before.state)
  }

  /** Attempts that have left running and terminal jobs stay as they are. */
  ghost predicate Settled(jobs: seq<Job>, jobs': seq<Job>, attempts: seq<Attempt>, attempts': seq<Attempt>) {
    && |attempts| <= |attempts'| && |jobs| <= |jobs'|
    && (forall a :: 0 <= a < |attempts| ==> AttemptStays(attempts[a], attempts'[a]))
    && (forall i :: 0 <= i < |jobs| ==> JobStays(jobs[i], jobs'[i]))
  }

  lemma GrantSettled(db: Db, t: nat, valid: bool, worker: nat, ends: int)
    requires Inv(db)
    ensures var out := LeaseGrant(db, t, valid, worker, ends); Settled(db.jobs, out.jobs, db.attempts, out.attempts)
  {
    assert LeaseOk(db.jobs, db.leases, t);
  }

  lemma CompleteSettled(db: Db, job: nat, c: Claim, now: int, o: Outcome, manifests: bool)
    requires Inv(db)
    ensures var out := Complete(db, job, c, now, o, manifests); Settled(db.jobs, out.jobs, db.attempts, out.attempts)
  {
    if CompletionAccepted(db, job, c, now, o, manifests) {
      CompleteShape(db, job, c, now, o, manifests);
    }
  }

  lemma ReapSettled(db: Db, job: nat, now: int)
    requires Inv(db)
    ensures var out := Reap(db, job, now); Settled(db.jobs, out.jobs, db.attempts, out.attempts)
  {
    if Expired(db, job, now) {
      ReapShape(db, job, now);
      assert JobFenced(db.jobs, db.attempts, job);
    }
  }

  lemma RowsSettled(jobs: seq<Job>, attempts: seq<Attempt>, i: nat, row: Job, a: nat, x: Attempt)
    requires i < |jobs| && a < |attempts| && JobStays(jobs[i], row) && AttemptStays(attempts[a], x)
    ensures Settled(jobs, jobs[i := row], attempts, attempts) && Settled(jobs, jobs, attempts, attempts[a := x])
    ensures Settled(jobs, jobs[i := row], attempts, attempts[a := x])
  {
  }

  lemma CancelShape(db: Db, job: nat, expected: nat)
    requires Inv(db) && Cancel(db, job, expected) != db
    ensures var out := Cancel(db, job, expected);
            && job < |db.jobs| == |out.jobs| && out.jobs == db.jobs[job := out.jobs[job]] && JobStays(db.jobs[job], out.jobs[job])
            && (db.jobs[job].current.None? ==> out.attempts == db.attempts)
            && (db.jobs[job].current.Some? ==>
                  && db.jobs[job].current.value < |db.attempts| && db.attempts[db.jobs[job].current.value].state == Running
                  && out.attempts == db.attempts[db.jobs[job].current.value := db.attempts[db.jobs[job].current.value].(state := Canceled)])
  {
    assert JobFenced(db.jobs, db.attempts, job);
  }

  lemma CancelSettled(db: Db, job: nat, expected: nat)
    requires Inv(db)
    ensures var out := Cancel(db, job, expected); Settled(db.jobs, out.jobs, db.attempts, out.attempts)
  {
    var out := Cancel(db, job, expected);
    if out != db {
      CancelShape(db, job, expected);
      if db.jobs[job].current.Some? {
        var a := db.jobs[job].current.value;
        RowsSettled(db.jobs, db.attempts, job, out.jobs[job], a, db.attempts[a].(state := Canceled));
      }
    }
  }

  lemma RenewSettled(db: Db, job: nat, c: Claim, now: int, ends: int)
    ensures var out := Renew(db, job, c, now, ends); Settled(db.jobs, out.jobs, db.attempts, out.attempts)
  {
    if LiveAttempt(db, job, c, now) {
      RowsSettled(db.jobs, db.attempts, job, db.jobs[job].(leaseEnds := Some(ends)), c.attempt, db.attempts[c.attempt].(leaseEnds := ends));
    }
  }

  lemma MaterializeSettled(db: Db, job: nat, c: Claim, now: int, result: Materialized)
    ensures var out := Materialize(db, job, c, now, result); Settled(db.jobs, out.jobs, db.attempts, out.attempts)
  {
    if LiveAttempt(db, job, c, now) {
      var a := db.attempts[c.attempt];
      RowsSettled(db.jobs, db.attempts, job, db.jobs[job].(bundled := true), c.attempt, a);
      RowsSettled(db.jobs, db.attempts, job, db.jobs[job].(leaseEnds := Some(now + REJECTION_SECONDS)), c.attempt, a.(leaseEnds := now + REJECTION_SECONDS));
    }
  }

  lemma ResolveSettled(db: Db, job: nat, c: Claim, now: int, resolved: bool)
    ensures var out := ResolveCredentials(db, job, c, now, resolved); Settled(db.jobs, out.jobs, db.attempts, out.attempts)
  {
    if LiveAttempt(db, job, c, now) && db.attempts[c.attempt].launched.None? {
      RowsSettled(db.jobs, db.attempts, job, db.jobs[job], c.attempt, db.attempts[c.attempt].(launched := Some(now)));
    }
  }

  lemma AckSettled(db: Db, job: nat, c: Claim, elapsed: int, receipt: bool)
    ensures var out := AckCancel(db, job, c, elapsed, receipt); Settled(db.jobs, out.jobs, db.attempts, out.attempts)
  {
  }

  lemma StepSettled(db: Db, s: Step)
    requires Inv(db)
    ensures Settled(db.jobs, Apply(db, s).jobs, db.attempts, Apply(db, s).attempts)
  {
    hide Inv, Reap, Complete, LeaseGrant, Cancel, Renew, Materialize, ResolveCredentials, AckCancel;
    match s
    case DoReap(job, now) => ReapSettled(db, job, now);
    case DoComplete(job, claim, now, outcome, manifests) => CompleteSettled(db, job, claim, now, outcome, manifests);
    case DoGrant(t, valid, worker, ends) => GrantSettled(db, t, valid, worker, ends);
    case DoCancel(job, expected) => CancelSettled(db, job, expected);
    case DoRenew(job, claim, now, ends) => RenewSettled(db, job, claim, now, ends);
    case DoMaterialize(job, claim, now, result) => MaterializeSettled(db, job, claim, now, result);
    case DoResolve(job, claim, now, resolved) => ResolveSettled(db, job, claim, now, resolved);
    case DoAck(job, claim, elapsed, receipt) => AckSettled(db, job, claim, elapsed, receipt);
    case _ =>
  }

  lemma {:induction false} RunSettled(db: Db, steps: seq<Step>)
    requires Inv(db)
    ensures Settled(db.jobs, ApplyAll(db, steps).jobs, db.attempts, ApplyAll(db, steps).attempts)
    decreases |steps|
  {
    if steps != [] {
      StepSettled(db, steps[0]);
      StepKeeps(db, steps[0]);
      RunSettled(Apply(db, steps[0]), steps[1..]);
      var mid, out := Apply(db, steps[0]), ApplyAll(db, steps);
      forall a | 0 <= a < |db.attempts|
        ensures AttemptStays(db.attempts[a], out.attempts[a])
      {
        assert AttemptStays(db.attempts[a], mid.attempts[a]) && AttemptStays(mid.attempts[a], out.attempts[a]);
      }
      forall i | 0 <= i < |db.jobs|
        ensures JobStays(db.jobs[i], out.jobs[i])
      {
        assert JobStays(db.jobs[i], mid.jobs[i]) && JobStays(mid.jobs[i], out.jobs[i]);
      }
    }
  }

  /** Once an attempt has stopped running, no renewal, materialization, credential or completion
      call in its name changes anything, whatever happens in between. */
  lemma StaleAttemptIsPowerless(before: seq<Step>, after: seq<Step>, job: nat, c: Claim, now: int, ends: int,
                                result: Materialized, resolved: bool, o: Outcome, manifests: bool)
    requires var db := ApplyAll(EMPTY, before); c.attempt < |db.attempts| && db.attempts[c.attempt].state != Running
    ensures var db := ApplyAll(ApplyAll(EMPTY, before), after);
            && Renew(db, job, c, now, ends) == db && Materialize(db, job, c, now, result) == db
            && ResolveCredentials(db, job, c, now, resolved) == db && Complete(db, job, c, now, o, manifests) == db
  {
    EmptyHolds();
    RunKeeps(EMPTY, before);
    RunSettled(ApplyAll(EMPTY, before), after);
  }

  /** A succeeded, failed or canceled job stays so, and fences never go back. */
  lemma TerminalIsFinal(before: seq<Step>, after: seq<Step>, job: nat)
    requires job < |ApplyAll(EMPTY, before).jobs|
    ensures var db, out := ApplyAll(EMPTY, before), ApplyAll(ApplyAll(EMPTY, before), after);
            && job < |out.jobs| && out.jobs[job].fence >= db.jobs[job].fence
            && (Terminal(db.jobs[job].state) ==> out.jobs[job].state == db.jobs[job].state)
  {
    EmptyHolds();
    RunKeeps(EMPTY, before);
    RunSettled(ApplyAll(EMPTY, before), after);
  }

  /** A cancel that names the revision of an earlier moment changes nothing if the job has changed state since. */
  lemma StaleCancelRefused(before: seq<Step>, after: seq<Step>, job: nat)
    requires job < |ApplyAll(EMPTY, before).jobs|
    ensures var db, out := ApplyAll(EMPTY, before), ApplyAll(ApplyAll(EMPTY, before), after);
            && job < |out.jobs| && out.jobs[job].revision >= db.jobs[job].revision
            && (out.jobs[job].state != db.jobs[job].state ==> Cancel(out, job, db.jobs[job].revision) == out)
  {
    EmptyHolds();
    RunKeeps(EMPTY, before);
    RunSettled(ApplyAll(EMPTY, before), after);
    hide ApplyAll, Inv, JobLocked;
  }

  // ----- a handler touches one job -----

  /** Rows of other jobs, their reservations, attempts, effects and artifacts are as before; nothing is
      removed, and events are only added. */
  ghost predicate OnlyJob(db: Db, out: Db, job: nat) {
    && |out.jobs| == |db.jobs| && |out.usage| == |db.usage| && |out.attempts| == |db.attempts|
    && db.events <= out.events && out.limits == db.limits && out.leases == db.leases
    && (forall i :: 0 <= i < |db.jobs| && i != job ==> out.jobs[i] == db.jobs[i])
    && (forall i :: 0 <= i < |db.usage| && i != job ==> out.usage[i] == db.usage[i])
    && (forall a :: 0 <= a < |db.attempts| && db.attempts[a].job != job ==> out.attempts[a] == db.attempts[a])
    && out.effects - {job} == db.effects - {job} && out.outputs - {job} == db.outputs - {job}
  }

  lemma ReleaseTouches(db: Db, job: nat)
    ensures var out := Release(db, job); OnlyJob(db, out, job) && out == db.(usage := out.usage)
  {
  }

  lemma CancelTouches(db: Db, job: nat, expected: nat)
    ensures OnlyJob(db, Cancel(db, job, expected), job)
  {
    if job < |db.jobs| {
      hide JobLocked;
      if db.jobs[job].current.None? {
        ReleaseTouches(db, job);
        hide Release;
      }
    }
  }

  lemma RenewTouches(db: Db, job: nat, c: Claim, now: int, ends: int)
    ensures OnlyJob(db, Renew(db, job, c, now, ends), job)
  {
  }

  lemma MaterializeTouches(db: Db, job: nat, c: Claim, now: int, result: Materialized)
    ensures OnlyJob(db, Materialize(db, job, c, now, result), job)
  {
  }

  lemma ResolveTouches(db: Db, job: nat, c: Claim, now: int, resolved: bool)
    ensures OnlyJob(db, ResolveCredentials(db, job, c, now, resolved), job)
  {
  }

  lemma SettleTouches(db: Db, job: nat, attempt: nat, billed: nat)
    ensures var out := Settle(db, job, attempt, billed);
            && OnlyJob(db, out, job) && out == db.(usage := out.usage, events := out.events)
  {
  }

  lemma CompleteTouches(db: Db, job: nat, c: Claim, now: int, o: Outcome, manifests: bool)
    ensures OnlyJob(db, Complete(db, job, c, now, o, manifests), job)
  {
    if CompletionAccepted(db, job, c, now, o, manifests) {
      SettleTouches(db, job, c.attempt, o.elapsed);
      hide Settle;
    }
  }

  lemma AckTouches(db: Db, job: nat, c: Claim, elapsed: int, receipt: bool)
    ensures OnlyJob(db, AckCancel(db, job, c, elapsed, receipt), job)
  {
    if elapsed >= 0 {
      SettleTouches(db, job, c.attempt, elapsed);
      hide Settle;
    }
  }

  lemma RowTouches(db: Db, job: nat, row: Job)
    requires job < |db.jobs|
    ensures OnlyJob(db, SetJob(db, job, row), job)
  {
  }

  /** Updating a job and one of its attempts. */
  lemma RowsTouch(db: Db, job: nat, row: Job, a: nat, s: State)
    requires job < |db.jobs| && a < |db.attempts| && db.attempts[a].job == job
    ensures OnlyJob(db, SetJob(SetAttemptState(db, a, s), job, row), job)
  {
  }

  lemma ReapCloseTouches(db: Db, job: nat, s: State, billed: nat)
    requires job < |db.jobs| && db.jobs[job].current.Some? && db.jobs[job].current.value < |db.attempts|
    requires db.attempts[db.jobs[job].current.value].job == job
    ensures var out := ReapClose(db, job, s, billed);
            && OnlyJob(db, out, job) && out.usage == db.usage && out.events == db.events
            && out.effects == db.effects && out.outputs == db.outputs
  {
    var row := ReapClose(db, job, s, billed).jobs[job];
    RowTouches(db, job, row);
    RowsTouch(db, job, row, db.jobs[job].current.value, s);
    hide OnlyJob;
  }

  lemma ReapTouches(db: Db, job: nat, now: int)
    ensures OnlyJob(db, Reap(db, job, now), job)
  {
    hide JobLocked;
    if Expired(db, job, now) {
      var attempt := db.jobs[job].current.value;
      var billed := ReapBill(db.attempts[attempt], now);
      ReapCloseTouches(db, job, Failed, billed);
      ReapCloseTouches(db, job, Retriable, billed);
      SettleTouches(ReapClose(db, job, Failed, billed), job, attempt, billed);
      hide Settle, ReapBill, ReapClose;
    }
  }

  // ----- why a lease looks twice -----

  /** A lease transaction that skips the second look. */
  function SkipRecheck(db: Db, t: nat): Db
    requires t in db.leases
  {
    db.(leases := db.leases[t := Checked(db.leases[t].job)])
  }

  /** From every reachable state in which two transactions hold a selected job of one account, granting
      both without the second look gives the account two active jobs. */
  lemma SkippingGivesTwoActive(steps: seq<Step>, t: nat, u: nat, worker: nat, worker': nat, ends: int)
    requires var db := ApplyAll(EMPTY, steps);
             && t in db.leases && u in db.leases && t != u && db.leases[t].job < |db.jobs| && db.leases[u].job < |db.jobs|
             && db.jobs[db.leases[t].job].account == db.jobs[db.leases[u].job].account
    ensures var db := ApplyAll(EMPTY, steps);
            var first := LeaseGrant(SkipRecheck(db, t), t, true, worker, ends);
            u in first.leases
            && var both := LeaseGrant(SkipRecheck(first, u), u, true, worker', ends);
            var i, k := db.leases[t].job, db.leases[u].job;
            i != k && i < |both.jobs| && k < |both.jobs| && both.jobs[i].account == both.jobs[k].account
            && Active(both.jobs[i]) && Active(both.jobs[k])
  {
    EmptyHolds();
    RunKeeps(EMPTY, steps);
    var db := ApplyAll(EMPTY, steps);
    assert LeasesApart(db.jobs, db.leases, t, u);
    hide Inv, ApplyAll;
    var first := LeaseGrant(SkipRecheck(db, t), t, true, worker, ends);
    assert first.jobs[db.leases[t].job].state == Running && first.leases[u].job == db.leases[u].job;
  }

  /** With the second look, whatever other steps come in between, never both: the account has at most
      one active job. */
  lemma RecheckedNeverBoth(steps: seq<Step>, t: nat, u: nat, more: seq<Step>, i: nat, k: nat)
    requires var db := ApplyAll(EMPTY, steps);
             && t in db.leases && u in db.leases && t != u && i == db.leases[t].job < |db.jobs| && k == db.leases[u].job < |db.jobs|
             && db.jobs[i].account == db.jobs[k].account
    ensures var out := ApplyAll(ApplyAll(EMPTY, steps), more);
            i < |out.jobs| && k < |out.jobs| && !(Active(out.jobs[i]) && Active(out.jobs[k]))
  {
    EmptyHolds();
    RunKeeps(EMPTY, steps);
    var db := ApplyAll(EMPTY, steps);
    assert LeasesApart(db.jobs, db.leases, t, u);
    RunKeeps(db, more);
    RunSettled(db, more);
    assert JobStays(db.jobs[i], ApplyAll(db, more).jobs[i]) && JobStays(db.jobs[k], ApplyAll(db, more).jobs[k]);
    var out := ApplyAll(db, more);
    if i < k {
      assert Apart(out.jobs, i, k);
    } else {
      assert Apart(out.jobs, k, i);
    }
  }

  lemma SelectsTwo(db: Db)
    requires db.leases == map[] && |db.jobs| == 2 && forall i :: 0 <= i < 2 ==> Leasable(db.jobs[i]) && !Active(db.jobs[i])
    ensures LeaseSelect(LeaseSelect(db, 0, 0), 1, 1) == db.(leases := map[0 := Selected(0), 1 := Selected(1)])
  {
    var one := LeaseSelect(db, 0, 0);
    assert one == db.(leases := map[0 := Selected(0)]);
  }

  lemma FiveSteps(db: Db, a: Step, b: Step, c: Step, e: Step, f: Step)
    ensures ApplyAll(db, [a, b, c, e, f]) == Apply(Apply(Apply(Apply(Apply(db, a), b), c), e), f)
  {
    hide Apply;
    assert [a, b, c, e, f][1..] == [b, c, e, f] && [b, c, e, f][1..] == [c, e, f] && [c, e, f][1..] == [e, f] && [e, f][1..] == [f];
    assert [f][1..] == [];
    var d3 := Apply(Apply(Apply(db, a), b), c);
    assert ApplyAll(db, [a, b, c, e, f]) == ApplyAll(Apply(db, a), [b, c, e, f]) == ApplyAll(Apply(Apply(db, a), b), [c, e, f]);
    assert ApplyAll(d3, [e, f]) == ApplyAll(Apply(d3, e), [f]);
  }

  lemma QueuesTwo(account: nat, limit: nat, one: seq<Service>, two: seq<Service>)
    requires limit >= 2 * RESERVED_SECONDS
    ensures var db := Enqueue(Enqueue(RaiseLimit(EMPTY, account, limit), account, one, true), account, two, true);
            && db.leases == map[] && |db.jobs| == 2
            && forall i :: 0 <= i < 2 ==> db.jobs[i].account == account && Leasable(db.jobs[i]) && !Active(db.jobs[i])
  {
    var d1 := RaiseLimit(EMPTY, account, limit);
    var d2 := Enqueue(d1, account, one, true);
    EnqueuesUnlocked(d1, account, one);
    HeldAppend([], Usage(account, Reserved), account);
    assert d1.usage + [Usage(account, Reserved)] == [] + [Usage(account, Reserved)];
    hide Enqueue, Held, Net;
    EnqueuesUnlocked(d2, account, two);
  }

  /** Such states are reachable for every account that may reserve two builds. */
  lemma TwoCanSelect(account: nat, limit: nat, one: seq<Service>, two: seq<Service>)
    requires limit >= 2 * RESERVED_SECONDS
    ensures var db := ApplyAll(EMPTY, [DoRaise(account, limit), DoEnqueue(account, one, true), DoEnqueue(account, two, true),
                                       DoSelect(0, 0), DoSelect(1, 1)]);
            && db.leases == map[0 := Selected(0), 1 := Selected(1)]
            && |db.jobs| == 2 && db.jobs[0].account == account && db.jobs[1].account == account
  {
    hide ApplyAll, Enqueue, RaiseLimit, LeaseSelect, Leasable, Active;
    FiveSteps(EMPTY, DoRaise(account, limit), DoEnqueue(account, one, true), DoEnqueue(account, two, true), DoSelect(0, 0), DoSelect(1, 1));
    QueuesTwo(account, limit, one, two);
    SelectsTwo(Enqueue(Enqueue(RaiseLimit(EMPTY, account, limit), account, one, true), account, two, true));
  }

  lemma EnqueuesUnlocked(db: Db, account: nat, services: seq<Service>)
    requires db.leases == map[] && account in db.limits && Net(db.events, account) + Held(db.usage, account) + RESERVED_SECONDS <= db.limits[account]
    ensures var out := Enqueue(db, account, services, true);
            && out.leases == map[] && out.limits == db.limits && out.events == db.events
            && out.jobs == db.jobs + [Job(account, Queued, 1, 0, None, 0, None, NotStarted, false, services)]
            && out.usage == db.usage + [Usage(account, Reserved)]
  {
  }
}
