/** The invariant of the build queue and the lemmas that every step keeps it. Each part of
    the invariant reads only the tables it is about, so a step has to argue only about the
    tables it writes. */
module BuildSafety {
  import opened Common
  import opened Meter
  import opened BuildQueue

  // ----- the invariant, part by part -----

  ghost predicate Rows(jobs: seq<Job>, usage: seq<Usage>, limits: map<nat, nat>) {
    && |usage| == |jobs|
    && (forall i :: 0 <= i < |jobs| ==> usage[i].account == jobs[i].account && jobs[i].account in limits)
  }

  /** A job is running iff it has a current attempt, which is running under the job's fence. */
  ghost predicate JobFenced(jobs: seq<Job>, attempts: seq<Attempt>, i: nat)
    requires i < |jobs|
  {
    var j := jobs[i];
    && (j.state == Running <==> j.current.Some?) && (j.state == Running <==> j.leaseEnds.Some?)
    && (j.current.Some? ==>
          && j.current.value < |attempts| && attempts[j.current.value].job == i
          && attempts[j.current.value].fence == j.fence && attempts[j.current.value].state == Running)
  }

  /** A running attempt is its job's current one; fences and numbers stay within the job's. */
  ghost predicate AttemptFenced(jobs: seq<Job>, attempts: seq<Attempt>, a: nat)
    requires a < |attempts|
  {
    && attempts[a].job < |jobs|
    && var j := jobs[attempts[a].job];
    && attempts[a].fence <= j.fence && 0 < attempts[a].number <= j.attempts
    && (attempts[a].state == Running ==> j.current == Some(a))
    && (attempts[a].state == Canceled ==> j.state == Canceled)
  }

  predicate Later(attempts: seq<Attempt>, a: nat, b: nat)
    requires a < |attempts| && b < |attempts|
  {
    attempts[a].job == attempts[b].job ==> attempts[a].fence < attempts[b].fence && attempts[a].number < attempts[b].number
  }

  ghost predicate Fenced(jobs: seq<Job>, attempts: seq<Attempt>) {
    && (forall i :: 0 <= i < |jobs| ==> JobFenced(jobs, attempts, i))
    && (forall a :: 0 <= a < |attempts| ==> AttemptFenced(jobs, attempts, a))
    && (forall a, b :: 0 <= a < b < |attempts| ==> Later(attempts, a, b))
  }

  /** The jobs whose 600 seconds are still reserved. */
  predicate Holding(j: Job) {
    j.state in {Queued, Running, Retriable} || (j.state == Canceled && j.cleanup == CleanupPending)
  }

  ghost predicate ReservationOk(jobs: seq<Job>, usage: seq<Usage>, events: seq<Event>, i: nat)
    requires i < |jobs| && i < |usage|
  {
    var r := usage[i].reservation;
    && (r.Reserved? <==> Holding(jobs[i]))
    && (r.Finalized? ==>
          && r.seconds <= RESERVED_SECONDS && (r.debit.Some? <==> r.seconds > 0)
          && (r.debit.Some? ==> r.debit.value < |events| && events[r.debit.value].Debit?))
  }

  /** A debit belongs to one attempt, whose job was finalized with that debit and those seconds. */
  ghost predicate DebitOk(attempts: seq<Attempt>, usage: seq<Usage>, events: seq<Event>, e: nat)
    requires e < |events|
  {
    events[e].Debit? ==>
      && events[e].attempt < |attempts| && attempts[events[e].attempt].job < |usage|
      && usage[attempts[events[e].attempt].job] == Usage(events[e].account, Finalized(events[e].seconds, Some(e)))
  }

  ghost predicate Metered(jobs: seq<Job>, attempts: seq<Attempt>, usage: seq<Usage>, events: seq<Event>) {
    && |usage| == |jobs|
    && (forall i :: 0 <= i < |jobs| ==> ReservationOk(jobs, usage, events, i))
    && (forall e :: 0 <= e < |events| ==> DebitOk(attempts, usage, events, e))
    && CreditsOk(events)
  }

  ghost predicate WithinLimits(usage: seq<Usage>, events: seq<Event>, limits: map<nat, nat>) {
    forall account :: account in limits ==> Net(events, account) + Held(usage, account) <= limits[account]
  }

  /** What a job's effect, receipts and outputs say about it. */
  ghost predicate EffectOk(jobs: seq<Job>, attempts: seq<Attempt>, effects: map<nat, Effect>, outputs: map<nat, Outputs>, i: nat) {
    && (i in effects ==>
          && i < |jobs| && effects[i].state in {Succeeded, Failed} && jobs[i].state == effects[i].state
          && effects[i].attempt < |attempts| && attempts[effects[i].attempt].job == i)
    && (i < |jobs| && jobs[i].state == Succeeded ==> i in effects && i in outputs)
    && (i in outputs ==>
          && i in effects && effects[i] == Effect(outputs[i].attempt, Succeeded)
          && i < |jobs| && ArtifactsMatch(jobs[i].services, outputs[i].artifacts)
          && |outputs[i].artifacts| == |ServiceIds(jobs[i].services)|)
  }

  ghost predicate ReceiptOk(attempts: seq<Attempt>, receipts: map<nat, Receipt>, a: nat) {
    a in receipts ==> a < |attempts| && attempts[a].state != Running
  }

  ghost predicate Effected(jobs: seq<Job>, attempts: seq<Attempt>, effects: map<nat, Effect>, outputs: map<nat, Outputs>) {
    forall i: nat :: EffectOk(jobs, attempts, effects, outputs, i)
  }

  ghost predicate Receipted(attempts: seq<Attempt>, receipts: map<nat, Receipt>) {
    forall a: nat :: ReceiptOk(attempts, receipts, a)
  }

  predicate Apart(jobs: seq<Job>, i: nat, k: nat)
    requires i < |jobs| && k < |jobs|
  {
    jobs[i].account == jobs[k].account ==> !Active(jobs[i]) || !Active(jobs[k])
  }

  ghost predicate OneActive(jobs: seq<Job>) {
    forall i, k :: 0 <= i < k < |jobs| ==> Apart(jobs, i, k)
  }

  /** A lease transaction holds a leasable job, and after the recheck a clear account. */
  ghost predicate LeaseOk(jobs: seq<Job>, leases: map<nat, Lease>, t: nat) {
    t in leases ==>
      && leases[t].job < |jobs| && Leasable(jobs[leases[t].job])
      && (leases[t].Checked? ==> AccountClear(jobs, jobs[leases[t].job].account))
  }

  /** Two transactions never hold the same row. */
  ghost predicate LeasesApart(jobs: seq<Job>, leases: map<nat, Lease>, t: nat, u: nat) {
    t in leases && u in leases && t != u ==>
      && leases[t].job != leases[u].job
      && (leases[t].Checked? && leases[u].Checked? && leases[t].job < |jobs| && leases[u].job < |jobs| ==>
            jobs[leases[t].job].account != jobs[leases[u].job].account)
  }

  ghost predicate Leasing(jobs: seq<Job>, leases: map<nat, Lease>) {
    && (forall t: nat :: LeaseOk(jobs, leases, t))
    && (forall t: nat, u: nat :: LeasesApart(jobs, leases, t, u))
  }

  ghost predicate Inv(db: Db) {
    && Rows(db.jobs, db.usage, db.limits) && Fenced(db.jobs, db.attempts)
    && Metered(db.jobs, db.attempts, db.usage, db.events) && WithinLimits(db.usage, db.events, db.limits)
    && Effected(db.jobs, db.attempts, db.effects, db.outputs) && Receipted(db.attempts, db.receipts)
    && OneActive(db.jobs) && Leasing(db.jobs, db.leases)
  }

  lemma EmptyHolds()
    ensures Inv(EMPTY)
  {
  }

  // ----- sums over a table -----

  lemma HeldAppend(usage: seq<Usage>, u: Usage, account: nat)
    ensures Held(usage + [u], account) == Held(usage, account) + Share(u, account)
  {
    assert (usage + [u])[..|usage|] == usage;
  }

  lemma {:induction false} HeldUpdate(usage: seq<Usage>, i: nat, u: Usage, account: nat)
    requires i < |usage|
    ensures Held(usage[i := u], account) == Held(usage, account) - Share(usage[i], account) + Share(u, account)
    decreases |usage|
  {
    var n := |usage| - 1;
    if i == n {
      assert usage[i := u][..n] == usage[..n];
    } else {
      assert usage[i := u][..n] == usage[..n][i := u];
      HeldUpdate(usage[..n], i, u, account);
    }
  }

  // ----- the meter -----

  lemma EnqueueWithinLimits(usage: seq<Usage>, events: seq<Event>, limits: map<nat, nat>, account: nat)
    requires WithinLimits(usage, events, limits) && account in limits
    requires Net(events, account) + Held(usage, account) + RESERVED_SECONDS <= limits[account]
    ensures WithinLimits(usage + [Usage(account, Reserved)], events, limits)
  {
    forall a | a in limits
      ensures Net(events, a) + Held(usage + [Usage(account, Reserved)], a) <= limits[a]
    {
      HeldAppend(usage, Usage(account, Reserved), a);
    }
  }

  lemma ReleaseWithinLimits(usage: seq<Usage>, events: seq<Event>, limits: map<nat, nat>, i: nat, u: Usage)
    requires WithinLimits(usage, events, limits) && i < |usage| && !u.reservation.Reserved?
    ensures WithinLimits(usage[i := u], events, limits)
  {
    forall a | a in limits
      ensures Net(events, a) + Held(usage[i := u], a) <= limits[a]
    {
      HeldUpdate(usage, i, u, a);
    }
  }

  /** A finalized reservation frees at least what its debit bills. */
  lemma DebitWithinLimits(usage: seq<Usage>, events: seq<Event>, limits: map<nat, nat>, i: nat, u: Usage, d: Event)
    requires WithinLimits(usage, events, limits) && i < |usage| && usage[i].reservation.Reserved? && !u.reservation.Reserved?
    requires d.Debit? && d.account == usage[i].account && d.seconds <= RESERVED_SECONDS
    ensures WithinLimits(usage[i := u], events + [d], limits)
  {
    forall a | a in limits
      ensures Net(events + [d], a) + Held(usage[i := u], a) <= limits[a]
    {
      HeldUpdate(usage, i, u, a);
      NetAppend(events, d, a);
    }
  }

  lemma CreditWithinLimits(usage: seq<Usage>, events: seq<Event>, limits: map<nat, nat>, c: Event)
    requires WithinLimits(usage, events, limits) && c.Credit?
    ensures WithinLimits(usage, events + [c], limits)
  {
    forall a | a in limits
      ensures Net(events + [c], a) + Held(usage, a) <= limits[a]
    {
      NetAppend(events, c, a);
    }
  }

  /** Ending the reservation of one job that stops holding. */
  lemma EndReservation(jobs: seq<Job>, attempts: seq<Attempt>, usage: seq<Usage>, events: seq<Event>, i: nat, row: Job, u: Usage)
    requires Metered(jobs, attempts, usage, events) && i < |jobs| && usage[i].reservation.Reserved?
    requires !Holding(row) && u.account == usage[i].account && u.reservation in {Released, Finalized(0, None)}
    ensures Metered(jobs[i := row], attempts, usage[i := u], events)
  {
    var jobs', usage' := jobs[i := row], usage[i := u];
    forall k | 0 <= k < |jobs|
      ensures ReservationOk(jobs', usage', events, k)
    {
      assert ReservationOk(jobs, usage, events, k);
    }
    forall e | 0 <= e < |events|
      ensures DebitOk(attempts, usage', events, e)
    {
      assert DebitOk(attempts, usage, events, e);
    }
  }

  lemma DebitReservation(jobs: seq<Job>, attempts: seq<Attempt>, usage: seq<Usage>, events: seq<Event>, i: nat, row: Job,
                         attempt: nat, billed: nat)
    requires Metered(jobs, attempts, usage, events) && i < |jobs| && usage[i].reservation.Reserved?
    requires !Holding(row) && attempt < |attempts| && attempts[attempt].job == i && 0 < billed <= RESERVED_SECONDS
    ensures var d := Debit(usage[i].account, attempt, billed);
            Metered(jobs[i := row], attempts, usage[i := Usage(usage[i].account, Finalized(billed, Some(|events|)))], events + [d])
  {
    var d := Debit(usage[i].account, attempt, billed);
    var jobs', events' := jobs[i := row], events + [d];
    var usage' := usage[i := Usage(usage[i].account, Finalized(billed, Some(|events|)))];
    DebitKeepsCredits(events, d);
    forall k | 0 <= k < |jobs|
      ensures ReservationOk(jobs', usage', events', k)
    {
      assert ReservationOk(jobs, usage, events, k);
    }
    forall e | 0 <= e < |events'|
      ensures DebitOk(attempts, usage', events', e)
    {
      if e < |events| {
        assert DebitOk(attempts, usage, events, e);
      }
    }
  }

  /** Settling a job that stops holding: the two tables of the meter together. */
  lemma SettleMeter(db: Db, job: nat, attempt: nat, billed: nat, row: Job)
    requires Inv(db) && job < |db.jobs| && db.usage[job].reservation.Reserved? && !Holding(row)
    requires attempt < |db.attempts| && db.attempts[attempt].job == job && billed <= RESERVED_SECONDS
    requires row.account == db.jobs[job].account
    ensures var out := Settle(db, job, attempt, billed);
            && Metered(db.jobs[job := row], db.attempts, out.usage, out.events)
            && WithinLimits(out.usage, out.events, db.limits)
            && Rows(db.jobs[job := row], out.usage, db.limits)
            && out == db.(usage := out.usage, events := out.events)
  {
    if billed > 0 {
      var d := Debit(db.usage[job].account, attempt, billed);
      DebitReservation(db.jobs, db.attempts, db.usage, db.events, job, row, attempt, billed);
      DebitWithinLimits(db.usage, db.events, db.limits, job, Usage(db.usage[job].account, Finalized(billed, Some(|db.events|))), d);
    } else {
      EndReservation(db.jobs, db.attempts, db.usage, db.events, job, row, Usage(db.usage[job].account, Finalized(0, None)));
      ReleaseWithinLimits(db.usage, db.events, db.limits, job, Usage(db.usage[job].account, Finalized(0, None)));
    }
  }

  lemma ReleaseMeter(db: Db, job: nat, row: Job)
    requires Inv(db) && job < |db.jobs| && db.usage[job].reservation.Reserved? && !Holding(row)
    requires row.account == db.jobs[job].account
    ensures var out := Release(db, job);
            && Metered(db.jobs[job := row], db.attempts, out.usage, db.events)
            && WithinLimits(out.usage, db.events, db.limits)
            && Rows(db.jobs[job := row], out.usage, db.limits)
            && out == db.(usage := out.usage)
  {
    EndReservation(db.jobs, db.attempts, db.usage, db.events, job, row, Usage(db.usage[job].account, Released));
    ReleaseWithinLimits(db.usage, db.events, db.limits, job, Usage(db.usage[job].account, Released));
  }

  /** Jobs that hold as before and attempts that stay with their jobs leave the meter alone. */
  lemma SameMeter(jobs: seq<Job>, jobs': seq<Job>, attempts: seq<Attempt>, attempts': seq<Attempt>, usage: seq<Usage>, events: seq<Event>)
    requires Metered(jobs, attempts, usage, events) && |jobs'| == |jobs|
    requires forall i :: 0 <= i < |jobs| ==> Holding(jobs'[i]) == Holding(jobs[i])
    requires |attempts| <= |attempts'| && forall a :: 0 <= a < |attempts| ==> attempts'[a].job == attempts[a].job
    ensures Metered(jobs', attempts', usage, events)
  {
    forall i | 0 <= i < |jobs'|
      ensures ReservationOk(jobs', usage, events, i)
    {
      assert ReservationOk(jobs, usage, events, i);
    }
    forall e | 0 <= e < |events|
      ensures DebitOk(attempts', usage, events, e)
    {
      assert DebitOk(attempts, usage, events, e);
    }
  }

  // ----- effects, receipts and outputs -----

  /** Effects and outputs stand when the one changed job has none and does not succeed. */
  lemma SameEffects(jobs: seq<Job>, jobs': seq<Job>, attempts: seq<Attempt>, attempts': seq<Attempt>,
                    effects: map<nat, Effect>, outputs: map<nat, Outputs>, job: nat)
    requires Effected(jobs, attempts, effects, outputs) && job < |jobs| == |jobs'|
    requires forall i :: 0 <= i < |jobs| && i != job ==> jobs'[i] == jobs[i]
    requires jobs[job].state !in {Succeeded, Failed} && jobs'[job].state != Succeeded
    requires |attempts| <= |attempts'| && forall a :: 0 <= a < |attempts| ==> attempts'[a].job == attempts[a].job
    ensures Effected(jobs', attempts', effects, outputs)
  {
    forall i: nat
      ensures EffectOk(jobs', attempts', effects, outputs, i)
    {
      assert EffectOk(jobs, attempts, effects, outputs, i);
    }
  }

  lemma SameReceipts(attempts: seq<Attempt>, attempts': seq<Attempt>, receipts: map<nat, Receipt>)
    requires Receipted(attempts, receipts) && |attempts| <= |attempts'|
    requires forall a :: 0 <= a < |attempts| && attempts[a].state != Running ==> attempts'[a].state != Running
    ensures Receipted(attempts', receipts)
  {
    forall a: nat
      ensures ReceiptOk(attempts', receipts, a)
    {
      assert ReceiptOk(attempts, receipts, a);
    }
  }

  // ----- ending an attempt: cancel, complete and reap -----

  /** The running job's row after its current attempt ends in state `s`. */
  ghost predicate EndRow(j: Job, row: Job, s: State) {
    && row.account == j.account && row.services == j.services && row.current.None? && row.leaseEnds.None?
    && row.fence >= j.fence && row.attempts == j.attempts
    && row.state == s && s in {Succeeded, Failed, Canceled, Retriable}
  }

  lemma EndFenced(jobs: seq<Job>, attempts: seq<Attempt>, job: nat, attempt: nat, row: Job, s: State)
    requires Fenced(jobs, attempts) && job < |jobs| && attempt < |attempts|
    requires jobs[job].current == Some(attempt) && EndRow(jobs[job], row, s)
    ensures Fenced(jobs[job := row], attempts[attempt := attempts[attempt].(state := s)])
  {
    var jobs', attempts' := jobs[job := row], attempts[attempt := attempts[attempt].(state := s)];
    assert JobFenced(jobs, attempts, job);
    forall i | 0 <= i < |jobs'|
      ensures JobFenced(jobs', attempts', i)
    {
      assert JobFenced(jobs, attempts, i);
    }
    forall a | 0 <= a < |attempts'|
      ensures AttemptFenced(jobs', attempts', a)
    {
      assert AttemptFenced(jobs, attempts, a);
    }
    forall a, b | 0 <= a < b < |attempts'|
      ensures Later(attempts', a, b)
    {
      assert Later(attempts, a, b);
    }
  }

  /** A job that was active may stay so or not; no account gains an active job. */
  lemma EndActive(jobs: seq<Job>, leases: map<nat, Lease>, job: nat, row: Job)
    requires OneActive(jobs) && Leasing(jobs, leases) && job < |jobs| && Active(jobs[job]) && !Leasable(jobs[job])
    requires row.account == jobs[job].account
    ensures OneActive(jobs[job := row]) && Leasing(jobs[job := row], leases)
  {
    var jobs' := jobs[job := row];
    forall i, k | 0 <= i < k < |jobs'|
      ensures Apart(jobs', i, k)
    {
      assert Apart(jobs, i, k);
    }
    forall t: nat
      ensures LeaseOk(jobs', leases, t)
    {
      assert LeaseOk(jobs, leases, t);
    }
    forall t: nat, u: nat
      ensures LeasesApart(jobs', leases, t, u)
    {
      assert LeasesApart(jobs, leases, t, u) && LeaseOk(jobs, leases, t) && LeaseOk(jobs, leases, u);
    }
  }

  lemma CancelRunningKeeps(db: Db, job: nat, expected: nat)
    requires Inv(db) && job < |db.jobs| && db.jobs[job].state == Running
    ensures Inv(Cancel(db, job, expected))
  {
    var out := Cancel(db, job, expected);
    assert JobFenced(db.jobs, db.attempts, job);
    if out != db {
      var attempt := db.jobs[job].current.value;
      EndFenced(db.jobs, db.attempts, job, attempt, out.jobs[job], Canceled);
      EndActive(db.jobs, db.leases, job, out.jobs[job]);
      SameEffects(db.jobs, out.jobs, db.attempts, out.attempts, db.effects, db.outputs, job);
      SameReceipts(db.attempts, out.attempts, db.receipts);
      SameMeter(db.jobs, out.jobs, db.attempts, out.attempts, db.usage, db.events);
    }
  }

  /** A job that is neither running nor locked ends without touching its attempts. */
  lemma IdleFenced(jobs: seq<Job>, attempts: seq<Attempt>, job: nat, row: Job, s: State)
    requires Fenced(jobs, attempts) && job < |jobs| && jobs[job].state in {Queued, Retriable}
    requires EndRow(jobs[job], row, s)
    ensures Fenced(jobs[job := row], attempts)
  {
    var jobs' := jobs[job := row];
    forall i | 0 <= i < |jobs'|
      ensures JobFenced(jobs', attempts, i)
    {
      assert JobFenced(jobs, attempts, i);
    }
    forall a | 0 <= a < |attempts|
      ensures AttemptFenced(jobs', attempts, a)
    {
      assert AttemptFenced(jobs, attempts, a) && JobFenced(jobs, attempts, job);
    }
  }

  lemma IdleActive(jobs: seq<Job>, leases: map<nat, Lease>, job: nat, row: Job)
    requires OneActive(jobs) && Leasing(jobs, leases) && job < |jobs| && !Active(row)
    requires row.account == jobs[job].account && forall t :: t in leases ==> leases[t].job != job
    ensures OneActive(jobs[job := row]) && Leasing(jobs[job := row], leases)
  {
    var jobs' := jobs[job := row];
    forall i, k | 0 <= i < k < |jobs'|
      ensures Apart(jobs', i, k)
    {
      assert Apart(jobs, i, k);
    }
    forall t: nat
      ensures LeaseOk(jobs', leases, t)
    {
      assert LeaseOk(jobs, leases, t);
    }
    forall t: nat, u: nat
      ensures LeasesApart(jobs', leases, t, u)
    {
      assert LeasesApart(jobs, leases, t, u) && LeaseOk(jobs, leases, t) && LeaseOk(jobs, leases, u);
    }
  }

  lemma CancelIdleKeeps(db: Db, job: nat, expected: nat)
    requires Inv(db) && job < |db.jobs| && db.jobs[job].state != Running
    ensures Inv(Cancel(db, job, expected))
  {
    var out := Cancel(db, job, expected);
    assert JobFenced(db.jobs, db.attempts, job);
    if out != db {
      var row := out.jobs[job];
      assert ReservationOk(db.jobs, db.usage, db.events, job);
      ReleaseMeter(db, job, row);
      IdleFenced(db.jobs, db.attempts, job, row, Canceled);
      IdleActive(db.jobs, db.leases, job, row);
      SameEffects(db.jobs, out.jobs, db.attempts, out.attempts, db.effects, db.outputs, job);
    }
  }

  // ----- the lease steps -----

  lemma SelectKeeps(db: Db, t: nat, job: nat)
    requires Inv(db)
    ensures Inv(LeaseSelect(db, t, job))
  {
    hide Rows, Fenced, Metered, WithinLimits, Effected, Receipted, OneActive;
    var out := LeaseSelect(db, t, job);
    forall u: nat
      ensures LeaseOk(db.jobs, out.leases, u)
    {
      assert LeaseOk(db.jobs, db.leases, u);
    }
    forall u: nat, v: nat
      ensures LeasesApart(db.jobs, out.leases, u, v)
    {
      assert LeasesApart(db.jobs, db.leases, u, v);
    }
  }

  lemma AbortKeeps(db: Db, t: nat)
    requires Inv(db)
    ensures Inv(LeaseAbort(db, t))
  {
    var out := LeaseAbort(db, t);
    forall u: nat
      ensures LeaseOk(db.jobs, out.leases, u)
    {
      assert LeaseOk(db.jobs, db.leases, u);
    }
    forall u: nat, v: nat
      ensures LeasesApart(db.jobs, out.leases, u, v)
    {
      assert LeasesApart(db.jobs, db.leases, u, v);
    }
  }

  /** The account lock is free and the account is clear. */
  lemma CheckKeeps(jobs: seq<Job>, leases: map<nat, Lease>, t: nat)
    requires Leasing(jobs, leases) && t in leases && leases[t].job < |jobs| && AccountClear(jobs, jobs[leases[t].job].account)
    requires forall u :: u in leases && leases[u].Checked? && leases[u].job < |jobs| ==> jobs[leases[u].job].account != jobs[leases[t].job].account
    ensures Leasing(jobs, leases[t := Checked(leases[t].job)])
  {
    var checked := leases[t := Checked(leases[t].job)];
    forall u: nat
      ensures LeaseOk(jobs, checked, u)
    {
      assert LeaseOk(jobs, leases, u);
    }
    forall u: nat, v: nat
      ensures LeasesApart(jobs, checked, u, v)
    {
      assert LeasesApart(jobs, leases, u, v);
    }
  }

  lemma RecheckKeeps(db: Db, t: nat)
    requires Inv(db)
    ensures Inv(LeaseRecheck(db, t))
  {
    if t in db.leases && db.leases[t].Selected? && db.leases[t].job < |db.jobs| {
      var account := db.jobs[db.leases[t].job].account;
      if !AccountLocked(db, account) {
        hide Rows, Fenced, Metered, WithinLimits, Effected, Receipted, OneActive, Leasing;
        if AccountClear(db.jobs, account) {
          CheckKeeps(db.jobs, db.leases, t);
        } else {
          AbortKeeps(db, t);
        }
      }
    }
  }

  lemma StaleGrantKeeps(db: Db, t: nat, worker: nat, ends: int)
    requires Inv(db)
    ensures Inv(LeaseGrant(db, t, false, worker, ends))
  {
    var out := LeaseGrant(db, t, false, worker, ends);
    assert LeaseOk(db.jobs, db.leases, t);
    if out != db {
      var job := db.leases[t].job;
      var freed := LeaseAbort(db, t);
      AbortKeeps(db, t);
      var row := out.jobs[job];
      assert ReservationOk(db.jobs, db.usage, db.events, job);
      assert JobFenced(db.jobs, db.attempts, job);
      assert AccountClear(db.jobs, db.jobs[job].account);
      ReleaseMeter(freed, job, row);
      IdleFenced(db.jobs, db.attempts, job, row, Failed);
      forall u | u in freed.leases
        ensures freed.leases[u].job != job
      {
        assert LeasesApart(db.jobs, db.leases, t, u);
      }
      IdleActive(db.jobs, freed.leases, job, row);
      SameEffects(db.jobs, out.jobs, db.attempts, out.attempts, db.effects, db.outputs, job);
    }
  }

  lemma GrantFenced(jobs: seq<Job>, attempts: seq<Attempt>, job: nat, row: Job, a: Attempt)
    requires Fenced(jobs, attempts) && job < |jobs| && Leasable(jobs[job])
    requires row.state == Running && row.current == Some(|attempts|) && row.leaseEnds.Some?
    requires row.fence == jobs[job].fence + 1 && row.attempts == jobs[job].attempts + 1
    requires a.job == job && a.number == row.attempts && a.fence == row.fence && a.state == Running
    ensures Fenced(jobs[job := row], attempts + [a])
  {
    var jobs', attempts' := jobs[job := row], attempts + [a];
    assert JobFenced(jobs, attempts, job);
    forall i | 0 <= i < |jobs'|
      ensures JobFenced(jobs', attempts', i)
    {
      assert JobFenced(jobs, attempts, i);
    }
    forall b | 0 <= b < |attempts'|
      ensures AttemptFenced(jobs', attempts', b)
    {
      if b < |attempts| {
        assert AttemptFenced(jobs, attempts, b);
      }
    }
    forall b, c | 0 <= b < c < |attempts'|
      ensures Later(attempts', b, c)
    {
      assert AttemptFenced(jobs, attempts, b);
      if c < |attempts| {
        assert Later(attempts, b, c);
      }
    }
  }

  /** The checked transaction is the only one that can make a job of its account active. */
  lemma GrantActive(jobs: seq<Job>, leases: map<nat, Lease>, t: nat, row: Job)
    requires OneActive(jobs) && Leasing(jobs, leases) && t in leases && leases[t].Checked?
    requires leases[t].job < |jobs| && row.account == jobs[leases[t].job].account
    ensures OneActive(jobs[leases[t].job := row]) && Leasing(jobs[leases[t].job := row], leases - {t})
  {
    var job := leases[t].job;
    var jobs' := jobs[job := row];
    assert LeaseOk(jobs, leases, t);
    forall i, k | 0 <= i < k < |jobs'|
      ensures Apart(jobs', i, k)
    {
      assert Apart(jobs, i, k);
    }
    forall u: nat
      ensures LeaseOk(jobs', leases - {t}, u)
    {
      assert LeaseOk(jobs, leases, u) && LeasesApart(jobs, leases, t, u);
    }
    forall u: nat, v: nat
      ensures LeasesApart(jobs', leases - {t}, u, v)
    {
      assert LeasesApart(jobs, leases, u, v) && LeaseOk(jobs, leases, u) && LeaseOk(jobs, leases, v);
    }
  }

  lemma ValidGrantKeeps(db: Db, t: nat, worker: nat, ends: int)
    requires Inv(db)
    ensures Inv(LeaseGrant(db, t, true, worker, ends))
  {
    var out := LeaseGrant(db, t, true, worker, ends);
    assert LeaseOk(db.jobs, db.leases, t);
    if out != db {
      var job := db.leases[t].job;
      GrantFenced(db.jobs, db.attempts, job, out.jobs[job], out.attempts[|db.attempts|]);
      GrantActive(db.jobs, db.leases, t, out.jobs[job]);
      SameEffects(db.jobs, out.jobs, db.attempts, out.attempts, db.effects, db.outputs, job);
      SameReceipts(db.attempts, out.attempts, db.receipts);
      SameMeter(db.jobs, out.jobs, db.attempts, out.attempts, db.usage, db.events);
    }
  }

  // ----- calls that leave states alone -----

  /** Lease times, the bundle flag and the launch time may change; nothing the invariant counts does. */
  ghost predicate Touched(jobs: seq<Job>, jobs': seq<Job>, attempts: seq<Attempt>, attempts': seq<Attempt>) {
    && |jobs'| == |jobs| && |attempts'| == |attempts|
    && (forall i :: 0 <= i < |jobs| ==>
          jobs'[i] == jobs[i].(leaseEnds := jobs'[i].leaseEnds, bundled := jobs'[i].bundled)
          && jobs'[i].leaseEnds.Some? == jobs[i].leaseEnds.Some?)
    && (forall a :: 0 <= a < |attempts| ==>
          attempts'[a] == attempts[a].(leaseEnds := attempts'[a].leaseEnds, launched := attempts'[a].launched))
  }

  lemma TouchedFenced(jobs: seq<Job>, jobs': seq<Job>, attempts: seq<Attempt>, attempts': seq<Attempt>)
    requires Fenced(jobs, attempts) && Touched(jobs, jobs', attempts, attempts')
    ensures Fenced(jobs', attempts')
  {
    forall i | 0 <= i < |jobs'|
      ensures JobFenced(jobs', attempts', i)
    {
      assert JobFenced(jobs, attempts, i);
    }
    forall a | 0 <= a < |attempts'|
      ensures AttemptFenced(jobs', attempts', a)
    {
      assert AttemptFenced(jobs, attempts, a);
    }
    forall a, b | 0 <= a < b < |attempts'|
      ensures Later(attempts', a, b)
    {
      assert Later(attempts, a, b);
    }
  }

  lemma TouchedActive(jobs: seq<Job>, jobs': seq<Job>, attempts: seq<Attempt>, attempts': seq<Attempt>, leases: map<nat, Lease>)
    requires OneActive(jobs) && Leasing(jobs, leases) && Touched(jobs, jobs', attempts, attempts')
    ensures OneActive(jobs') && Leasing(jobs', leases)
  {
    forall i, k | 0 <= i < k < |jobs'|
      ensures Apart(jobs', i, k)
    {
      assert Apart(jobs, i, k);
    }
    forall t: nat
      ensures LeaseOk(jobs', leases, t)
    {
      assert LeaseOk(jobs, leases, t);
    }
    forall t: nat, u: nat
      ensures LeasesApart(jobs', leases, t, u)
    {
      assert LeasesApart(jobs, leases, t, u);
    }
  }

  lemma TouchedKeeps(db: Db, out: Db)
    requires Inv(db) && Touched(db.jobs, out.jobs, db.attempts, out.attempts)
    requires out == db.(jobs := out.jobs, attempts := out.attempts)
    ensures Inv(out)
  {
    TouchedFenced(db.jobs, out.jobs, db.attempts, out.attempts);
    TouchedActive(db.jobs, out.jobs, db.attempts, out.attempts, db.leases);
    SameMeter(db.jobs, out.jobs, db.attempts, out.attempts, db.usage, db.events);
    SameReceipts(db.attempts, out.attempts, db.receipts);
    forall i: nat
      ensures EffectOk(out.jobs, out.attempts, out.effects, out.outputs, i)
    {
      assert EffectOk(db.jobs, db.attempts, db.effects, db.outputs, i);
    }
  }

  lemma RenewKeeps(db: Db, job: nat, c: Claim, now: int, ends: int)
    requires Inv(db)
    ensures Inv(Renew(db, job, c, now, ends))
  {
    var out := Renew(db, job, c, now, ends);
    if out != db {
      assert Touched(db.jobs, out.jobs, db.attempts, out.attempts);
      TouchedKeeps(db, out);
    }
  }

  lemma MaterializeKeeps(db: Db, job: nat, c: Claim, now: int, result: Materialized)
    requires Inv(db)
    ensures Inv(Materialize(db, job, c, now, result))
  {
    var out := Materialize(db, job, c, now, result);
    if out != db {
      assert Touched(db.jobs, out.jobs, db.attempts, out.attempts);
      TouchedKeeps(db, out);
    }
  }

  lemma ResolveKeeps(db: Db, job: nat, c: Claim, now: int, resolved: bool)
    requires Inv(db)
    ensures Inv(ResolveCredentials(db, job, c, now, resolved))
  {
    TouchedKeeps(db, ResolveCredentials(db, job, c, now, resolved));
  }

  // ----- complete -----

  /** The effect and outputs of a completion that is not retriable. */
  lemma NewEffect(jobs: seq<Job>, attempts: seq<Attempt>, effects: map<nat, Effect>, outputs: map<nat, Outputs>,
                  job: nat, row: Job, attempt: nat, artifacts: seq<Artifact>)
    requires Effected(jobs, attempts, effects, outputs) && job < |jobs| && jobs[job].state == Running
    requires attempt < |attempts| && attempts[attempt].job == job
    requires row.state in {Succeeded, Failed} && row.services == jobs[job].services
    requires row.state == Succeeded <==> artifacts != []
    requires artifacts != [] ==> ArtifactsMatch(row.services, artifacts) && |artifacts| == |ServiceIds(row.services)|
    ensures job !in effects
    ensures Effected(jobs[job := row], attempts, effects[job := Effect(attempt, row.state)],
                     if artifacts == [] then outputs else outputs[job := Outputs(attempt, artifacts)])
  {
    assert EffectOk(jobs, attempts, effects, outputs, job);
    var jobs', effects' := jobs[job := row], effects[job := Effect(attempt, row.state)];
    var outputs' := if artifacts == [] then outputs else outputs[job := Outputs(attempt, artifacts)];
    forall i: nat
      ensures EffectOk(jobs', attempts, effects', outputs', i)
    {
      assert EffectOk(jobs, attempts, effects, outputs, i);
    }
  }

  lemma SameEffectAttempts(jobs: seq<Job>, attempts: seq<Attempt>, attempts': seq<Attempt>,
                           effects: map<nat, Effect>, outputs: map<nat, Outputs>)
    requires Effected(jobs, attempts, effects, outputs) && |attempts| <= |attempts'|
    requires forall a :: 0 <= a < |attempts| ==> attempts'[a].job == attempts[a].job
    ensures Effected(jobs, attempts', effects, outputs)
  {
    forall i: nat
      ensures EffectOk(jobs, attempts', effects, outputs, i)
    {
      assert EffectOk(jobs, attempts, effects, outputs, i);
    }
  }

  /** The tables a completion leaves, spelled out once. */
  lemma CompleteShape(db: Db, job: nat, c: Claim, now: int, o: Outcome, manifests: bool)
    requires Inv(db) && CompletionAccepted(db, job, c, now, o, manifests)
    ensures var out := Complete(db, job, c, now, o, manifests);
            && |out.jobs| == |db.jobs| && out.jobs == db.jobs[job := out.jobs[job]] && EndRow(db.jobs[job], out.jobs[job], o.state)
            && out.attempts == db.attempts[c.attempt := db.attempts[c.attempt].(state := o.state)]
            && out.leases == db.leases && out.limits == db.limits
            && out.receipts == db.receipts[c.attempt := Completion(c.worker, o)]
            && (o.state == Retriable ==> out.usage == db.usage && out.events == db.events && out.effects == db.effects && out.outputs == db.outputs)
            && (o.state != Retriable ==>
                  && out.usage == Settle(db, job, c.attempt, o.elapsed).usage && out.events == Settle(db, job, c.attempt, o.elapsed).events
                  && out.effects == db.effects[job := Effect(c.attempt, o.state)]
                  && out.outputs == if o.artifacts == [] then db.outputs else db.outputs[job := Outputs(c.attempt, o.artifacts)])
  {
    assert JobFenced(db.jobs, db.attempts, job);
  }

  lemma NewReceipt(attempts: seq<Attempt>, attempts': seq<Attempt>, receipts: map<nat, Receipt>, a: nat, r: Receipt)
    requires Receipted(attempts, receipts) && a < |attempts| == |attempts'| && attempts'[a].state != Running
    requires forall b :: 0 <= b < |attempts| && attempts[b].state != Running ==> attempts'[b].state != Running
    ensures Receipted(attempts', receipts[a := r])
  {
    var receipts' := receipts[a := r];
    forall b: nat
      ensures ReceiptOk(attempts', receipts', b)
    {
      assert ReceiptOk(attempts, receipts, b);
    }
  }

  lemma CompleteEffects(db: Db, job: nat, c: Claim, now: int, o: Outcome, manifests: bool)
    requires Inv(db) && CompletionAccepted(db, job, c, now, o, manifests)
    ensures var out := Complete(db, job, c, now, o, manifests);
            Effected(out.jobs, out.attempts, out.effects, out.outputs) && Receipted(out.attempts, out.receipts)
  {
    CompleteShape(db, job, c, now, o, manifests);
    var out := Complete(db, job, c, now, o, manifests);
    var row, attempts' := out.jobs[job], out.attempts;
    NewReceipt(db.attempts, attempts', db.receipts, c.attempt, Completion(c.worker, o));
    if o.state == Retriable {
      SameEffects(db.jobs, db.jobs[job := row], db.attempts, attempts', db.effects, db.outputs, job);
    } else {
      NewEffect(db.jobs, db.attempts, db.effects, db.outputs, job, row, c.attempt, o.artifacts);
      SameEffectAttempts(db.jobs[job := row], db.attempts, attempts', out.effects, out.outputs);
    }
  }

  lemma CompleteTables(db: Db, job: nat, c: Claim, now: int, o: Outcome, manifests: bool)
    requires Inv(db) && CompletionAccepted(db, job, c, now, o, manifests)
    ensures var out := Complete(db, job, c, now, o, manifests);
            Fenced(out.jobs, out.attempts) && OneActive(out.jobs) && Leasing(out.jobs, out.leases)
  {
    CompleteShape(db, job, c, now, o, manifests);
    var out := Complete(db, job, c, now, o, manifests);
    EndFenced(db.jobs, db.attempts, job, c.attempt, out.jobs[job], o.state);
    EndActive(db.jobs, db.leases, job, out.jobs[job]);
  }

  lemma CompleteMeter(db: Db, job: nat, c: Claim, now: int, o: Outcome, manifests: bool)
    requires Inv(db) && CompletionAccepted(db, job, c, now, o, manifests)
    ensures var out := Complete(db, job, c, now, o, manifests);
            && Rows(out.jobs, out.usage, out.limits) && Metered(out.jobs, out.attempts, out.usage, out.events)
            && WithinLimits(out.usage, out.events, out.limits)
  {
    CompleteShape(db, job, c, now, o, manifests);
    var out := Complete(db, job, c, now, o, manifests);
    assert ReservationOk(db.jobs, db.usage, db.events, job);
    if o.state == Retriable {
      SameMeter(db.jobs, out.jobs, db.attempts, out.attempts, db.usage, db.events);
    } else {
      SettleMeter(db, job, c.attempt, o.elapsed, out.jobs[job]);
      SameMeter(out.jobs, out.jobs, db.attempts, out.attempts, out.usage, out.events);
    }
  }

  lemma CompleteKeeps(db: Db, job: nat, c: Claim, now: int, o: Outcome, manifests: bool)
    requires Inv(db)
    ensures Inv(Complete(db, job, c, now, o, manifests))
  {
    if CompletionAccepted(db, job, c, now, o, manifests) {
      CompleteTables(db, job, c, now, o, manifests);
      CompleteMeter(db, job, c, now, o, manifests);
      CompleteEffects(db, job, c, now, o, manifests);
    }
  }

  // ----- cancellation acknowledgment -----

  lemma AckFenced(jobs: seq<Job>, attempts: seq<Attempt>, job: nat, row: Job)
    requires Fenced(jobs, attempts) && job < |jobs| && row == jobs[job].(cleanup := row.cleanup, revision := row.revision)
    ensures Fenced(jobs[job := row], attempts)
  {
    var jobs' := jobs[job := row];
    forall i | 0 <= i < |jobs'|
      ensures JobFenced(jobs', attempts, i)
    {
      assert JobFenced(jobs, attempts, i);
    }
    forall a | 0 <= a < |attempts|
      ensures AttemptFenced(jobs', attempts, a)
    {
      assert AttemptFenced(jobs, attempts, a);
    }
  }

  lemma AckKeeps(db: Db, job: nat, c: Claim, elapsed: int, receipt: bool)
    requires Inv(db)
    ensures Inv(AckCancel(db, job, c, elapsed, receipt))
  {
    var out := AckCancel(db, job, c, elapsed, receipt);
    if out != db {
      var row := out.jobs[job];
      assert ReservationOk(db.jobs, db.usage, db.events, job);
      SettleMeter(db, job, c.attempt, elapsed, row);
      AckFenced(db.jobs, db.attempts, job, row);
      EndActive(db.jobs, db.leases, job, row);
      SameEffects(db.jobs, out.jobs, db.attempts, out.attempts, db.effects, db.outputs, job);
      forall a: nat
        ensures ReceiptOk(out.attempts, out.receipts, a)
      {
        assert ReceiptOk(db.attempts, db.receipts, a);
      }
    }
  }

  // ----- the reaper -----

  /** The tables a reap leaves, spelled out once. */
  lemma ReapCloseShape(db: Db, job: nat, s: State, billed: nat)
    requires job < |db.jobs| && db.jobs[job].current.Some? && db.jobs[job].current.value < |db.attempts|
    requires db.attempts[db.jobs[job].current.value].state == Running && s in {Failed, Retriable}
    ensures var out := ReapClose(db, job, s, billed); var attempt := db.jobs[job].current.value;
            && |out.jobs| == |db.jobs| && out.jobs == db.jobs[job := out.jobs[job]] && EndRow(db.jobs[job], out.jobs[job], s)
            && (Holding(out.jobs[job]) <==> s == Retriable)
            && out.attempts == db.attempts[attempt := db.attempts[attempt].(state := s)]
            && out.usage == db.usage && out.events == db.events && out.effects == db.effects
            && out.leases == db.leases && out.limits == db.limits && out.receipts == db.receipts && out.outputs == db.outputs
  {
  }

  /** Settling reads and writes the meter only. */
  lemma SettleReadsMeter(db: Db, closed: Db, job: nat, attempt: nat, billed: nat)
    requires closed.usage == db.usage && closed.events == db.events
    ensures var out, same := Settle(closed, job, attempt, billed), Settle(db, job, attempt, billed);
            out.usage == same.usage && out.events == same.events && out == closed.(usage := same.usage, events := same.events)
  {
  }

  lemma ReapShape(db: Db, job: nat, now: int)
    requires Inv(db) && Expired(db, job, now)
    ensures job !in db.effects
    ensures var out := Reap(db, job, now);
            var attempt := db.jobs[job].current.value;
            var s := if ReapEnds(db, job) then Failed else Retriable;
            var billed := ReapBill(db.attempts[attempt], now);
            && |out.jobs| == |db.jobs| && out.jobs == db.jobs[job := out.jobs[job]] && EndRow(db.jobs[job], out.jobs[job], s)
            && (Holding(out.jobs[job]) <==> s == Retriable)
            && out.attempts == db.attempts[attempt := db.attempts[attempt].(state := s)]
            && out.leases == db.leases && out.limits == db.limits && out.receipts == db.receipts && out.outputs == db.outputs
            && (s == Retriable ==> out.usage == db.usage && out.events == db.events && out.effects == db.effects)
            && (s == Failed ==>
                  && out.usage == Settle(db, job, attempt, billed).usage && out.events == Settle(db, job, attempt, billed).events
                  && out.effects == db.effects[job := Effect(attempt, Failed)])
  {
    assert JobFenced(db.jobs, db.attempts, job);
    assert EffectOk(db.jobs, db.attempts, db.effects, db.outputs, job);
    hide Inv, ReapBill, ReapClose, Settle, Holding, EndRow;
    var attempt := db.jobs[job].current.value;
    var billed := ReapBill(db.attempts[attempt], now);
    var s := if ReapEnds(db, job) then Failed else Retriable;
    ReapCloseShape(db, job, s, billed);
    SettleReadsMeter(db, ReapClose(db, job, s, billed), job, attempt, billed);
  }

  lemma ReapTables(db: Db, job: nat, now: int)
    requires Inv(db) && Expired(db, job, now)
    ensures var out := Reap(db, job, now);
            && Fenced(out.jobs, out.attempts) && OneActive(out.jobs) && Leasing(out.jobs, out.leases)
            && Receipted(out.attempts, out.receipts)
  {
    ReapShape(db, job, now);
    var out := Reap(db, job, now);
    var attempt := db.jobs[job].current.value;
    assert JobFenced(db.jobs, db.attempts, job);
    EndFenced(db.jobs, db.attempts, job, attempt, out.jobs[job], out.jobs[job].state);
    EndActive(db.jobs, db.leases, job, out.jobs[job]);
    SameReceipts(db.attempts, out.attempts, db.receipts);
  }

  lemma ReapEndsMeter(db: Db, job: nat, now: int)
    requires Inv(db) && Expired(db, job, now) && ReapEnds(db, job)
    ensures var out := Reap(db, job, now);
            && Rows(out.jobs, out.usage, out.limits) && Metered(out.jobs, out.attempts, out.usage, out.events)
            && WithinLimits(out.usage, out.events, out.limits)
  {
    ReapShape(db, job, now);
    var out := Reap(db, job, now);
    var attempt := db.jobs[job].current.value;
    var row := out.jobs[job];
    var billed := ReapBill(db.attempts[attempt], now);
    assert ReservationOk(db.jobs, db.usage, db.events, job);
    SettleMeter(db, job, attempt, billed, row);
    var settled := Settle(db, job, attempt, billed);
    SameMeter(db.jobs[job := row], db.jobs[job := row], db.attempts, out.attempts, settled.usage, settled.events);
  }

  lemma ReapRetriesMeter(db: Db, job: nat, now: int)
    requires Inv(db) && Expired(db, job, now) && !ReapEnds(db, job)
    ensures var out := Reap(db, job, now);
            && Rows(out.jobs, out.usage, out.limits) && Metered(out.jobs, out.attempts, out.usage, out.events)
            && WithinLimits(out.usage, out.events, out.limits)
  {
    ReapShape(db, job, now);
    var out := Reap(db, job, now);
    SameMeter(db.jobs, out.jobs, db.attempts, out.attempts, db.usage, db.events);
  }

  /** The reaper's insert never meets an existing effect. */
  lemma ReapEffects(db: Db, job: nat, now: int)
    requires Inv(db) && Expired(db, job, now)
    ensures job !in db.effects
    ensures var out := Reap(db, job, now); Effected(out.jobs, out.attempts, out.effects, out.outputs)
  {
    ReapShape(db, job, now);
    var out := Reap(db, job, now);
    if ReapEnds(db, job) {
      NewEffect(db.jobs, db.attempts, db.effects, db.outputs, job, out.jobs[job], db.jobs[job].current.value, []);
      SameEffectAttempts(out.jobs, db.attempts, out.attempts, out.effects, out.outputs);
    } else {
      SameEffects(db.jobs, out.jobs, db.attempts, out.attempts, db.effects, db.outputs, job);
    }
  }

  lemma ReapKeeps(db: Db, job: nat, now: int)
    requires Inv(db)
    ensures Inv(Reap(db, job, now))
  {
    if Expired(db, job, now) {
      ReapTables(db, job, now);
      if ReapEnds(db, job) {
        ReapEndsMeter(db, job, now);
      } else {
        ReapRetriesMeter(db, job, now);
      }
      ReapEffects(db, job, now);
    }
  }

  // ----- enqueue, credits and limits -----

  lemma EnqueueTables(jobs: seq<Job>, attempts: seq<Attempt>, effects: map<nat, Effect>, outputs: map<nat, Outputs>,
                      leases: map<nat, Lease>, j: Job)
    requires Fenced(jobs, attempts) && Effected(jobs, attempts, effects, outputs) && OneActive(jobs) && Leasing(jobs, leases)
    requires j.state == Queued && j.current.None? && j.leaseEnds.None? && !Active(j)
    ensures Fenced(jobs + [j], attempts) && Effected(jobs + [j], attempts, effects, outputs)
            && OneActive(jobs + [j]) && Leasing(jobs + [j], leases)
  {
    var jobs' := jobs + [j];
    forall i | 0 <= i < |jobs'|
      ensures JobFenced(jobs', attempts, i)
    {
      assert i < |jobs| ==> JobFenced(jobs, attempts, i);
    }
    forall a | 0 <= a < |attempts|
      ensures AttemptFenced(jobs', attempts, a)
    {
      assert AttemptFenced(jobs, attempts, a);
    }
    forall i: nat
      ensures EffectOk(jobs', attempts, effects, outputs, i)
    {
      assert EffectOk(jobs, attempts, effects, outputs, i);
    }
    forall i, k | 0 <= i < k < |jobs'|
      ensures Apart(jobs', i, k)
    {
      assert k < |jobs| ==> Apart(jobs, i, k);
    }
    forall t: nat
      ensures LeaseOk(jobs', leases, t)
    {
      assert LeaseOk(jobs, leases, t);
    }
    forall t: nat, u: nat
      ensures LeasesApart(jobs', leases, t, u)
    {
      assert LeasesApart(jobs, leases, t, u) && LeaseOk(jobs, leases, t) && LeaseOk(jobs, leases, u);
    }
  }

  lemma EnqueueKeeps(db: Db, account: nat, services: seq<Service>, admitted: bool)
    requires Inv(db)
    ensures Inv(Enqueue(db, account, services, admitted))
  {
    var out := Enqueue(db, account, services, admitted);
    if out != db {
      EnqueueWithinLimits(db.usage, db.events, db.limits, account);
      EnqueueTables(db.jobs, db.attempts, db.effects, db.outputs, db.leases, out.jobs[|db.jobs|]);
      forall i | 0 <= i < |out.jobs|
        ensures ReservationOk(out.jobs, out.usage, out.events, i)
      {
        assert i < |db.jobs| ==> ReservationOk(db.jobs, db.usage, db.events, i);
      }
      forall e | 0 <= e < |out.events|
        ensures DebitOk(out.attempts, out.usage, out.events, e)
      {
        assert DebitOk(db.attempts, db.usage, db.events, e);
      }
    }
  }

  lemma CreditKeeps(db: Db, debit: nat)
    requires Inv(db)
    ensures Inv(CreditFault(db, debit))
  {
    var out := CreditFault(db, debit);
    if out != db {
      CreditWithinLimits(db.usage, db.events, db.limits, out.events[|db.events|]);
      forall i | 0 <= i < |out.jobs|
        ensures ReservationOk(out.jobs, out.usage, out.events, i)
      {
        assert ReservationOk(db.jobs, db.usage, db.events, i);
      }
      forall e | 0 <= e < |out.events|
        ensures DebitOk(out.attempts, out.usage, out.events, e) && CreditOk(out.events, e)
      {
        assert e < |db.events| ==> DebitOk(db.attempts, db.usage, db.events, e) && CreditOk(db.events, e);
      }
      forall e, f | 0 <= e < f < |out.events|
        ensures Distinct(out.events, e, f)
      {
        assert f < |db.events| ==> Distinct(db.events, e, f);
      }
    }
  }

  lemma {:induction false} NoRowsNothingHeld(usage: seq<Usage>, events: seq<Event>, account: nat)
    requires forall i :: 0 <= i < |usage| ==> usage[i].account != account
    requires forall e :: 0 <= e < |events| ==> events[e].account != account
    ensures Net(events, account) == 0 && Held(usage, account) == 0
    decreases |usage| + |events|
  {
    if usage != [] {
      NoRowsNothingHeld(usage[..|usage| - 1], events, account);
    }
    if events != [] {
      NoRowsNothingHeld(usage, events[..|events| - 1], account);
    }
  }

  lemma RaiseKeeps(db: Db, account: nat, limit: nat)
    requires Inv(db)
    ensures Inv(RaiseLimit(db, account, limit))
  {
    if account !in db.limits {
      forall e | 0 <= e < |db.events|
        ensures db.events[e].account != account
      {
        assert CreditOk(db.events, e) && DebitOk(db.attempts, db.usage, db.events, e);
        if db.events[e].Credit? {
          assert DebitOk(db.attempts, db.usage, db.events, db.events[e].debit);
        }
      }
      NoRowsNothingHeld(db.usage, db.events, account);
    }
  }
}
