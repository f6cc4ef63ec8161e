/** What the fenced calls of the build queue achieve: the seconds a completion, an acknowledged
    cancellation and a reap bill, and how long a lease lives after a grant, a renewal and a
    rejected source. Every amount is stated on the rows themselves. */
module BuildEffects {
  import opened Common
  import opened Meter
  import opened BuildQueue
  import opened BuildSafety
  import opened BuildRuns

  /** A finalized reservation of this many seconds: the debit it names bills them to its account in the
      name of this attempt, and there is one exactly when there is something to bill. */
  predicate BilledRow(u: Usage, events: seq<Event>, attempt: nat, seconds: int) {
    && u.reservation.Finalized? && u.reservation.seconds == seconds
    && (u.reservation.debit.Some? <==> seconds > 0)
    && (u.reservation.debit.Some? ==>
          u.reservation.debit.value < |events| && events[u.reservation.debit.value] == Debit(u.account, attempt, u.reservation.seconds))
  }

  /** The reservation of the job is closed with these seconds, and the net use of its account rises by
      them; no other account is billed and no other reservation moves. */
  ghost predicate Billed(db: Db, out: Db, job: nat, attempt: nat, seconds: int) {
    && job < |db.usage| == |out.usage|
    && out.usage[job].account == db.usage[job].account && BilledRow(out.usage[job], out.events, attempt, seconds)
    && (forall i :: 0 <= i < |db.usage| && i != job ==> out.usage[i] == db.usage[i])
    && (forall account: nat ::
          Net(out.events, account) == Net(db.events, account) + if account == db.usage[job].account then seconds else 0)
    && (if seconds > 0 then out.events == db.events + [Debit(db.usage[job].account, attempt, seconds)] else out.events == db.events)
  }

  lemma SettleBills(db: Db, job: nat, attempt: nat, billed: nat)
    requires job < |db.usage| && db.usage[job].reservation.Reserved?
    ensures Billed(db, Settle(db, job, attempt, billed), job, attempt, billed)
  {
    hide Net;
    var out := Settle(db, job, attempt, billed);
    forall account: nat
      ensures Net(out.events, account) == Net(db.events, account) + if account == db.usage[job].account then billed else 0
    {
      NetAppend(db.events, Debit(db.usage[job].account, attempt, billed), account);
    }
  }

  /** The meter of the result is that of the billed state. */
  lemma BilledElsewhere(db: Db, settled: Db, out: Db, job: nat, attempt: nat, seconds: int)
    requires Billed(db, settled, job, attempt, seconds) && out.usage == settled.usage && out.events == settled.events
    ensures Billed(db, out, job, attempt, seconds)
  {
  }

  /** An accepted completion of `elapsed` seconds bills exactly those to the account of its job; one that
      is to be retried bills nothing and keeps the reservation open. The attempt and its job take the
      reported state, and the receipt holds the worker and the whole outcome. */
  lemma CompletionBills(db: Db, job: nat, c: Claim, now: int, o: Outcome, manifests: bool)
    requires Inv(db) && CompletionAccepted(db, job, c, now, o, manifests)
    ensures var out := Complete(db, job, c, now, o, manifests);
            && 0 <= o.elapsed <= 600 && db.usage[job].account == db.jobs[job].account
            && (o.state == Retriable ==> out.usage == db.usage && out.events == db.events && out.effects == db.effects)
            && (o.state != Retriable ==> Billed(db, out, job, c.attempt, o.elapsed) && job in out.effects
                                         && out.effects[job] == Effect(c.attempt, o.state))
            && out.receipts == db.receipts[c.attempt := Completion(c.worker, o)]
            && job < |out.jobs| && out.jobs[job].state == o.state && out.jobs[job].current.None? && out.jobs[job].leaseEnds.None?
            && (out.jobs[job].cleanup == if o.cleanupConfirmed then Confirmed else CleanupPending)
            && c.attempt < |out.attempts| && out.attempts[c.attempt].state == o.state
            && (o.artifacts != [] ==> job in out.outputs && out.outputs[job] == Outputs(c.attempt, o.artifacts))
  {
    CompleteShape(db, job, c, now, o, manifests);
    assert ReservationOk(db.jobs, db.usage, db.events, job);
    SettleBills(db, job, c.attempt, o.elapsed);
    var out := Complete(db, job, c, now, o, manifests);
    hide Settle, Billed, Inv;
    if o.state != Retriable {
      BilledElsewhere(db, Settle(db, job, c.attempt, o.elapsed), out, job, c.attempt, o.elapsed);
    }
  }

  /** An acknowledged cancellation bills the acknowledged seconds and confirms the cleanup. */
  lemma AckBills(db: Db, job: nat, c: Claim, elapsed: int, receipt: bool)
    requires Inv(db) && AckCancel(db, job, c, elapsed, receipt) != db
    ensures var out := AckCancel(db, job, c, elapsed, receipt);
            && 0 <= elapsed <= 600 && Billed(db, out, job, c.attempt, elapsed)
            && out.receipts == db.receipts[c.attempt := CancelAck(c.worker, elapsed)] && c.attempt !in db.receipts
            && job < |db.jobs| == |out.jobs| && db.jobs[job].state == Canceled && db.jobs[job].cleanup == CleanupPending
            && out.jobs == db.jobs[job := db.jobs[job].(cleanup := Confirmed, revision := db.jobs[job].revision + 1)]
            && c.attempt < |db.attempts| && db.attempts[c.attempt].job == job && db.attempts[c.attempt].state == Canceled
            && out.attempts == db.attempts
  {
    var out := AckCancel(db, job, c, elapsed, receipt);
    assert ReservationOk(db.jobs, db.usage, db.events, job);
    SettleBills(db, job, c.attempt, elapsed);
    SettleTouches(db, job, c.attempt, elapsed);
    var settled := Settle(db, job, c.attempt, elapsed);
    hide Settle, Billed, Inv;
    BilledElsewhere(db, settled, out, job, c.attempt, elapsed);
  }

  /** The seconds since the launch, at least 1 and at most 600. */
  predicate Clamped(seconds: int, since: int) {
    && 1 <= seconds <= 600
    && (since < 1 ==> seconds == 1) && (1 <= since <= 600 ==> seconds == since) && (since > 600 ==> seconds == 600)
  }

  /** An expired attempt that had been launched fails and is billed from its launch on; one that had not is
      retried without a bill, until the third, which fails without a bill. */
  ghost predicate ReapBilled(db: Db, out: Db, job: nat, now: int)
    requires Expired(db, job, now)
  {
    var attempt := db.jobs[job].current.value;
    var launched := db.attempts[attempt].launched;
    && job < |out.jobs| && attempt < |out.attempts| && out.jobs[job].state == out.attempts[attempt].state
    && (launched.Some? ==>
          && out.jobs[job].state == Failed && out.jobs[job].cleanup == CleanupPending
          && exists seconds :: Clamped(seconds, now - launched.value) && Billed(db, out, job, attempt, seconds))
    && (launched.None? && db.jobs[job].attempts >= 3 ==> out.jobs[job].state == Failed && Billed(db, out, job, attempt, 0))
    && (launched.None? && db.jobs[job].attempts < 3 ==>
          out.jobs[job].state == Retriable && out.usage == db.usage && out.events == db.events)
  }

  lemma ReapBills(db: Db, job: nat, now: int)
    requires Inv(db) && Expired(db, job, now)
    ensures ReapBilled(db, Reap(db, job, now), job, now) && Reap(db, job, now).receipts == db.receipts
  {
    ReapShape(db, job, now);
    assert JobFenced(db.jobs, db.attempts, job);
    assert ReservationOk(db.jobs, db.usage, db.events, job);
    var out := Reap(db, job, now);
    var attempt := db.jobs[job].current.value;
    var launched := db.attempts[attempt].launched;
    var billed := ReapBill(db.attempts[attempt], now);
    assert launched.Some? ==> Clamped(billed, now - launched.value);
    ReapPends(db, job, now);
    SettleBills(db, job, attempt, billed);
    hide Settle, Billed, Inv, ReapBill, Clamped, Reap;
    if ReapEnds(db, job) {
      BilledElsewhere(db, Settle(db, job, attempt, billed), out, job, attempt, billed);
    }
  }

  /** A reap of any lease, expired or not. */
  lemma ReapSummary(db: Db, job: nat, now: int)
    ensures OnlyJob(db, Reap(db, job, now), job)
    ensures Inv(db) ==> Inv(Reap(db, job, now))
    ensures Inv(db) && Expired(db, job, now) ==> ReapBilled(db, Reap(db, job, now), job, now)
  {
    hide Inv, OnlyJob, Reap, ReapBilled, Expired;
    ReapTouches(db, job, now);
    if Inv(db) {
      ReapKeeps(db, job, now);
      if Expired(db, job, now) {
        ReapBills(db, job, now);
      }
    }
  }

  lemma ReapPends(db: Db, job: nat, now: int)
    requires Expired(db, job, now)
    ensures db.attempts[db.jobs[job].current.value].launched.Some? ==>
              job < |Reap(db, job, now).jobs| && Reap(db, job, now).jobs[job].cleanup == CleanupPending
  {
    var attempt := db.jobs[job].current.value;
    var billed := ReapBill(db.attempts[attempt], now);
    SettleTouches(ReapClose(db, job, Failed, billed), job, attempt, billed);
    hide Settle, OnlyJob;
  }

  // ----- bills over whole runs -----

  /** The reservation of the job of an attempt with a receipt is closed with the seconds of the receipt. */
  ghost predicate ReceiptRow(attempts: seq<Attempt>, usage: seq<Usage>, events: seq<Event>, receipts: map<nat, Receipt>, a: nat) {
    a in receipts ==>
      && a < |attempts| && attempts[a].state != Running
      && match receipts[a]
         case Completion(worker, o) =>
           attempts[a].state == o.state
           && (o.state != Retriable ==> attempts[a].job < |usage| && BilledRow(usage[attempts[a].job], events, a, o.elapsed))
         case CancelAck(worker, elapsed) =>
           attempts[a].state == Canceled && attempts[a].job < |usage| && BilledRow(usage[attempts[a].job], events, a, elapsed)
  }

  /** A debit is made for an attempt that has ended for good; without a receipt it is a reaped one that had
      been launched. */
  ghost predicate DebitRow(attempts: seq<Attempt>, events: seq<Event>, receipts: map<nat, Receipt>, e: nat)
    requires e < |events|
  {
    events[e].Debit? ==>
      && events[e].attempt < |attempts| && Terminal(attempts[events[e].attempt].state)
      && (events[e].attempt in receipts || (attempts[events[e].attempt].state == Failed && attempts[events[e].attempt].launched.Some?))
  }

  ghost predicate Ledger(db: Db) {
    && (forall a: nat :: ReceiptRow(db.attempts, db.usage, db.events, db.receipts, a))
    && (forall e :: 0 <= e < |db.events| ==> DebitRow(db.attempts, db.events, db.receipts, e))
  }

  /** Rows are only added, and what has ended stays. */
  ghost predicate Grows(db: Db, out: Db) {
    && |db.attempts| <= |out.attempts| && (forall a :: 0 <= a < |db.attempts| ==> AttemptStays(db.attempts[a], out.attempts[a]))
    && |db.usage| <= |out.usage| && db.events <= out.events
    && (forall i :: 0 <= i < |db.usage| && db.usage[i].reservation.Finalized? ==> out.usage[i] == db.usage[i])
  }

  lemma SettleGrows(db: Db, job: nat, attempt: nat, billed: nat)
    ensures Grows(db, Settle(db, job, attempt, billed)) && Grows(db, Release(db, job))
  {
  }

  lemma CompleteGrows(db: Db, job: nat, c: Claim, now: int, o: Outcome, manifests: bool)
    requires Inv(db)
    ensures Grows(db, Complete(db, job, c, now, o, manifests))
  {
    if CompletionAccepted(db, job, c, now, o, manifests) {
      CompleteShape(db, job, c, now, o, manifests);
      SettleGrows(db, job, c.attempt, o.elapsed);
      hide Settle;
    }
  }

  lemma AckGrows(db: Db, job: nat, c: Claim, elapsed: int, receipt: bool)
    ensures Grows(db, AckCancel(db, job, c, elapsed, receipt))
  {
    if elapsed >= 0 {
      SettleGrows(db, job, c.attempt, elapsed);
      SettleTouches(db, job, c.attempt, elapsed);
      hide Settle, OnlyJob;
    }
  }

  lemma ReapGrows(db: Db, job: nat, now: int)
    requires Inv(db)
    ensures Grows(db, Reap(db, job, now))
  {
    if Expired(db, job, now) {
      ReapShape(db, job, now);
      assert JobFenced(db.jobs, db.attempts, job);
      SettleGrows(db, job, db.jobs[job].current.value, ReapBill(db.attempts[db.jobs[job].current.value], now));
      hide Settle, ReapBill;
    }
  }

  lemma CancelMeter(db: Db, job: nat, expected: nat)
    ensures var out := Cancel(db, job, expected);
            && out.events == db.events && out.receipts == db.receipts
            && (out.usage == db.usage || out.usage == Release(db, job).usage)
  {
    hide Release, JobLocked, Terminal;
    ReleaseMeterRows(db, job);
  }

  lemma ReleaseMeterRows(db: Db, job: nat)
    ensures var out := Release(db, job);
            && out.events == db.events && out.receipts == db.receipts && out.jobs == db.jobs && |out.usage| == |db.usage|
            && forall i :: 0 <= i < |db.usage| && db.usage[i].reservation.Finalized? ==> out.usage[i] == db.usage[i]
  {
  }

  lemma CancelGrows(db: Db, job: nat, expected: nat)
    requires Inv(db)
    ensures Grows(db, Cancel(db, job, expected))
    ensures var out := Cancel(db, job, expected); out.events == db.events && out.receipts == db.receipts
  {
    hide Cancel, Release, Inv, AttemptStays, JobStays;
    CancelSettled(db, job, expected);
    CancelMeter(db, job, expected);
    ReleaseMeterRows(db, job);
  }

  lemma GrantGrows(db: Db, t: nat, valid: bool, worker: nat, ends: int)
    requires Inv(db)
    ensures Grows(db, LeaseGrant(db, t, valid, worker, ends))
    ensures var out := LeaseGrant(db, t, valid, worker, ends); out.events == db.events && out.receipts == db.receipts
  {
    GrantSettled(db, t, valid, worker, ends);
    if t in db.leases {
      SettleGrows(db.(leases := db.leases - {t}), db.leases[t].job, 0, 0);
      ReleaseTouches(db.(leases := db.leases - {t}), db.leases[t].job);
    }
    hide Release, OnlyJob, Inv;
  }

  /** What holds of the old receipts and debits holds on. */
  lemma OldRowsStay(db: Db, out: Db)
    requires Ledger(db) && Grows(db, out)
    ensures forall a: nat :: a in db.receipts && a in out.receipts && out.receipts[a] == db.receipts[a] ==>
              ReceiptRow(out.attempts, out.usage, out.events, out.receipts, a)
    ensures db.receipts.Keys <= out.receipts.Keys ==>
              forall e :: 0 <= e < |db.events| ==> DebitRow(out.attempts, out.events, out.receipts, e)
  {
    forall a: nat | a in db.receipts && a in out.receipts && out.receipts[a] == db.receipts[a]
      ensures ReceiptRow(out.attempts, out.usage, out.events, out.receipts, a)
    {
      assert ReceiptRow(db.attempts, db.usage, db.events, db.receipts, a);
      assert AttemptStays(db.attempts[a], out.attempts[a]);
    }
    if db.receipts.Keys <= out.receipts.Keys {
      forall e | 0 <= e < |db.events|
        ensures DebitRow(out.attempts, out.events, out.receipts, e)
      {
        assert DebitRow(db.attempts, db.events, db.receipts, e);
        if db.events[e].Debit? {
          assert AttemptStays(db.attempts[db.events[e].attempt], out.attempts[db.events[e].attempt]);
        }
      }
    }
  }

  /** A step that neither writes receipts nor debits. */
  lemma QuietLedger(db: Db, out: Db)
    requires Ledger(db) && Grows(db, out) && out.receipts == db.receipts
    requires forall e :: |db.events| <= e < |out.events| ==> out.events[e].Credit?
    ensures Ledger(out)
  {
    OldRowsStay(db, out);
  }

  /** A step that closes the reservation of one attempt and leaves its receipt. */
  lemma BilledLedger(db: Db, out: Db, job: nat, attempt: nat, seconds: int, r: Receipt)
    requires Ledger(db) && Grows(db, out) && Billed(db, out, job, attempt, seconds)
    requires attempt !in db.receipts && out.receipts == db.receipts[attempt := r]
    requires attempt < |out.attempts| && out.attempts[attempt].job == job && Terminal(out.attempts[attempt].state)
    requires match r
             case Completion(worker, o) => out.attempts[attempt].state == o.state && seconds == o.elapsed
             case CancelAck(worker, elapsed) => out.attempts[attempt].state == Canceled && seconds == elapsed
    ensures Ledger(out)
  {
    OldRowsStay(db, out);
    hide Net, AttemptStays, Grows;
    forall a: nat
      ensures ReceiptRow(out.attempts, out.usage, out.events, out.receipts, a)
    {
      assert a != attempt && a in out.receipts ==> a in db.receipts && out.receipts[a] == db.receipts[a];
    }
    assert db.receipts.Keys <= out.receipts.Keys;
  }

  /** A retriable completion leaves a receipt and no bill. */
  lemma RetryLedger(db: Db, out: Db, attempt: nat, worker: nat, o: Outcome)
    requires Ledger(db) && Grows(db, out) && out.events == db.events && o.state == Retriable
    requires attempt !in db.receipts && out.receipts == db.receipts[attempt := Completion(worker, o)]
    requires attempt < |out.attempts| && out.attempts[attempt].state == Retriable
    ensures Ledger(out)
  {
    OldRowsStay(db, out);
    hide AttemptStays, Grows;
    forall a: nat
      ensures ReceiptRow(out.attempts, out.usage, out.events, out.receipts, a)
    {
      assert a != attempt && a in out.receipts ==> a in db.receipts && out.receipts[a] == db.receipts[a];
    }
    assert db.receipts.Keys <= out.receipts.Keys;
  }

  lemma CompleteLedger(db: Db, job: nat, c: Claim, now: int, o: Outcome, manifests: bool)
    requires Inv(db) && Ledger(db)
    ensures Ledger(Complete(db, job, c, now, o, manifests))
  {
    if CompletionAccepted(db, job, c, now, o, manifests) {
      var out := Complete(db, job, c, now, o, manifests);
      CompletionBills(db, job, c, now, o, manifests);
      CompleteGrows(db, job, c, now, o, manifests);
      CompleteShape(db, job, c, now, o, manifests);
      assert o.state in {Succeeded, Failed, Retriable};
      hide Inv, Ledger, Complete, CompletionAccepted, EndRow, Settle, Billed, Grows;
      if o.state == Retriable {
        RetryLedger(db, out, c.attempt, c.worker, o);
      } else {
        BilledLedger(db, out, job, c.attempt, o.elapsed, Completion(c.worker, o));
      }
    }
  }

  lemma AckLedger(db: Db, job: nat, c: Claim, elapsed: int, receipt: bool)
    requires Inv(db) && Ledger(db)
    ensures Ledger(AckCancel(db, job, c, elapsed, receipt))
  {
    var out := AckCancel(db, job, c, elapsed, receipt);
    if out != db {
      AckBills(db, job, c, elapsed, receipt);
      AckGrows(db, job, c, elapsed, receipt);
      hide Inv, Ledger, AckCancel, Billed, Grows;
      BilledLedger(db, out, job, c.attempt, elapsed, CancelAck(c.worker, elapsed));
    }
  }

  lemma ReapLedger(db: Db, job: nat, now: int)
    requires Inv(db) && Ledger(db)
    ensures Ledger(Reap(db, job, now))
  {
    if Expired(db, job, now) {
      var out := Reap(db, job, now);
      ReapBills(db, job, now);
      ReapGrows(db, job, now);
      ReapShape(db, job, now);
      hide Inv, Reap, Expired, EndRow, Settle, ReapBill, ReapEnds, Net, AttemptStays;
      OldRowsStay(db, out);
    }
  }

  /** The steps that leave the meter alone. */
  lemma LockQuiet(db: Db, s: Step)
    requires s.DoSelect? || s.DoRecheck? || s.DoAbort? || s.DoRaise?
    ensures var out := Apply(db, s); out.usage == db.usage && out.events == db.events && out.receipts == db.receipts
  {
    hide Candidate, AccountLocked, AccountClear;
  }

  lemma LiveQuiet(db: Db, s: Step)
    requires s.DoRenew? || s.DoMaterialize? || s.DoResolve?
    ensures var out := Apply(db, s); out.usage == db.usage && out.events == db.events && out.receipts == db.receipts
  {
    if LiveAttempt(db, s.job, s.claim, s.now) {
      hide LiveAttempt;
    }
  }

  lemma AddingMeter(db: Db, s: Step)
    requires s.DoEnqueue? || s.DoCredit?
    ensures var out := Apply(db, s);
            && db.usage <= out.usage && db.events <= out.events && out.receipts == db.receipts
            && forall e :: |db.events| <= e < |out.events| ==> out.events[e].Credit?
  {
    hide AccountLocked, Net, Held;
  }

  lemma QuietGrows(db: Db, out: Db)
    requires Settled(db.jobs, out.jobs, db.attempts, out.attempts) && db.usage <= out.usage && db.events <= out.events
    ensures Grows(db, out)
  {
    hide AttemptStays, JobStays;
  }

  lemma StepLedger(db: Db, s: Step)
    requires Inv(db) && Ledger(db)
    ensures Ledger(Apply(db, s))
  {
    hide Inv, Ledger, Grows, Settled, Reap, Complete, LeaseGrant, Cancel, AckCancel, Enqueue, LeaseSelect, LeaseRecheck, LeaseAbort, Renew,
         Materialize, ResolveCredentials, CreditFault, RaiseLimit;
    match s
    case DoReap(job, now) => ReapLedger(db, job, now);
    case DoComplete(job, claim, now, outcome, manifests) => CompleteLedger(db, job, claim, now, outcome, manifests);
    case DoAck(job, claim, elapsed, receipt) => AckLedger(db, job, claim, elapsed, receipt);
    case DoGrant(t, valid, worker, ends) =>
      GrantGrows(db, t, valid, worker, ends);
      QuietLedger(db, Apply(db, s));
    case DoCancel(job, expected) =>
      CancelGrows(db, job, expected);
      QuietLedger(db, Apply(db, s));
    case _ =>
      StepSettled(db, s);
      if s.DoEnqueue? || s.DoCredit? {
        AddingMeter(db, s);
      } else if s.DoRenew? || s.DoMaterialize? || s.DoResolve? {
        LiveQuiet(db, s);
      } else {
        LockQuiet(db, s);
      }
      QuietGrows(db, Apply(db, s));
      QuietLedger(db, Apply(db, s));
  }

  lemma {:induction false} RunLedger(db: Db, steps: seq<Step>)
    requires Inv(db) && Ledger(db)
    ensures Ledger(ApplyAll(db, steps))
    decreases |steps|
  {
    hide Inv, Ledger, Apply;
    if steps != [] {
      StepLedger(db, steps[0]);
      StepKeeps(db, steps[0]);
      RunLedger(Apply(db, steps[0]), steps[1..]);
    }
  }

  /** In every run a job whose attempt has the receipt of a final completion or of an acknowledged
      cancellation is closed with the seconds of that receipt, and a debit made in the name of an attempt
      bills the seconds of the attempt's receipt. A debit for an attempt without a receipt is a reaped one
      that had been launched; a retriable completion has none. */
  lemma BillsMatchReceipts(steps: seq<Step>, a: nat, e: nat)
    ensures var db := ApplyAll(EMPTY, steps);
            && (a in db.receipts ==>
                  && a < |db.attempts| && db.attempts[a].job < |db.usage|
                  && match db.receipts[a]
                     case Completion(_, o) => o.state != Retriable ==> BilledRow(db.usage[db.attempts[a].job], db.events, a, o.elapsed)
                     case CancelAck(_, elapsed) => BilledRow(db.usage[db.attempts[a].job], db.events, a, elapsed))
            && (e < |db.events| && db.events[e].Debit? && db.events[e].attempt == a ==>
                  if a in db.receipts then
                    match db.receipts[a]
                    case Completion(_, o) => o.state != Retriable && db.events[e].seconds == o.elapsed
                    case CancelAck(_, elapsed) => db.events[e].seconds == elapsed
                  else
                    a < |db.attempts| && db.attempts[a].state == Failed && db.attempts[a].launched.Some? && 1 <= db.events[e].seconds <= 600)
  {
    EmptyHolds();
    RunKeeps(EMPTY, steps);
    RunLedger(EMPTY, steps);
    OneDebitPerJob(steps);
    var db := ApplyAll(EMPTY, steps);
    hide ApplyAll;
    assert ReceiptRow(db.attempts, db.usage, db.events, db.receipts, a);
    if a in db.receipts {
      assert AttemptFenced(db.jobs, db.attempts, a);
    }
    if e < |db.events| {
      assert DebitRow(db.attempts, db.events, db.receipts, e);
    }
  }

  // ----- reservations that end without a bill -----

  /** A queued, running or retriable job that no lease holds is canceled under its revision. If it is not
      running this frees its 600 seconds and bills nothing; if it is they stay until the worker acknowledges. */
  lemma CancelFrees(db: Db, job: nat)
    requires Inv(db) && job < |db.jobs| && !JobLocked(db, job)
    requires db.jobs[job].state == Queued || db.jobs[job].state == Running || db.jobs[job].state == Retriable
    ensures var out := Cancel(db, job, db.jobs[job].revision);
            && |out.jobs| == |db.jobs| && out.jobs[job].state == Canceled && out.jobs[job].fence > db.jobs[job].fence
            && out.events == db.events && |out.usage| == |db.usage|
            && (db.jobs[job].state != Running ==>
                  out.usage[job].reservation == Released && Held(out.usage, db.jobs[job].account) == Held(db.usage, db.jobs[job].account) - 600)
            && (db.jobs[job].state == Running ==> out.usage == db.usage && out.jobs[job].cleanup == CleanupPending)
  {
    assert JobFenced(db.jobs, db.attempts, job);
    assert ReservationOk(db.jobs, db.usage, db.events, job);
    HeldUpdate(db.usage, job, db.usage[job].(reservation := Released), db.jobs[job].account);
  }

  // ----- how long a lease lives -----

  /** After a renewal the attempt is live exactly until the new end. */
  lemma RenewalHolds(db: Db, job: nat, c: Claim, now: int, ends: int, t: int)
    requires LiveAttempt(db, job, c, now)
    ensures LiveAttempt(Renew(db, job, c, now, ends), job, c, t) <==> t < ends
  {
    var out := Renew(db, job, c, now, ends);
    assert JobLocked(out, job) == JobLocked(db, job);
    hide JobLocked;
  }

  /** A rejected source leaves the attempt thirty seconds from now; a stored one is bundled from then on,
      and the lease is as it was. */
  lemma MaterializationHolds(db: Db, job: nat, c: Claim, now: int, t: int)
    requires LiveAttempt(db, job, c, now) && !db.jobs[job].bundled
    ensures var rejected, stored := Materialize(db, job, c, now, Rejected), Materialize(db, job, c, now, Stored);
            && (LiveAttempt(rejected, job, c, t) <==> t < now + 30) && job < |rejected.jobs| && !rejected.jobs[job].bundled
            && (LiveAttempt(stored, job, c, t) <==> LiveAttempt(db, job, c, t)) && job < |stored.jobs| && stored.jobs[job].bundled
            && Materialize(db, job, c, now, Unavailable) == db
  {
    var rejected, stored := Materialize(db, job, c, now, Rejected), Materialize(db, job, c, now, Stored);
    assert JobLocked(rejected, job) == JobLocked(db, job) == JobLocked(stored, job);
    hide JobLocked;
  }

  /** The launch time is that of the first resolution, now and after every further step; a resolution that
      fails leaves none. */
  lemma FirstLaunchStays(before: seq<Step>, after: seq<Step>, job: nat, c: Claim, now: int)
    requires LiveAttempt(ApplyAll(EMPTY, before), job, c, now)
    ensures var db := ApplyAll(EMPTY, before);
            var out := ApplyAll(ResolveCredentials(db, job, c, now, true), after);
            && ResolveCredentials(db, job, c, now, false) == db
            && c.attempt < |out.attempts|
            && out.attempts[c.attempt].launched == if db.attempts[c.attempt].launched.None? then Some(now) else db.attempts[c.attempt].launched
  {
    EmptyHolds();
    RunKeeps(EMPTY, before);
    var db := ApplyAll(EMPTY, before);
    var mid := ResolveCredentials(db, job, c, now, true);
    ResolveKeeps(db, job, c, now, true);
    ResolveSettled(db, job, c, now, true);
    assert AttemptStays(db.attempts[c.attempt], mid.attempts[c.attempt]);
    hide Inv, ApplyAll;
    RunSettled(mid, after);
    assert AttemptStays(mid.attempts[c.attempt], ApplyAll(mid, after).attempts[c.attempt]);
  }

  /** A granted lease gives its worker, and no one else, a live attempt until its end, under a fence that no
      earlier attempt carries; no job is attempted more than three times. */
  lemma GrantGives(db: Db, t: nat, worker: nat, ends: int, now: int, c: Claim)
    requires Inv(db) && t in db.leases && db.leases[t].Checked?
    ensures var out := LeaseGrant(db, t, true, worker, ends); var job := db.leases[t].job;
            && job < |out.jobs| && (LiveAttempt(out, job, c, now) <==> c == Claim(worker, |db.attempts|, out.jobs[job].fence) && now < ends)
            && (forall a :: 0 <= a < |db.attempts| && db.attempts[a].job == job ==> db.attempts[a].fence < out.jobs[job].fence)
            && out.jobs[job].attempts <= 3
  {
    var out := LeaseGrant(db, t, true, worker, ends);
    var job := db.leases[t].job;
    assert LeaseOk(db.jobs, db.leases, t);
    forall u | u in out.leases
      ensures out.leases[u].job != job
    {
      assert LeasesApart(db.jobs, db.leases, t, u);
    }
    assert !JobLocked(out, job);
    forall a | 0 <= a < |db.attempts| && db.attempts[a].job == job
      ensures db.attempts[a].fence < out.jobs[job].fence
    {
      assert AttemptFenced(db.jobs, db.attempts, a);
    }
    hide JobLocked, Inv;
  }

  // ----- what can always be done -----

  /** A running job is not locked by any lease transaction, and it is expired exactly when its lease has ended. */
  lemma ExpiredIff(db: Db, job: nat, now: int)
    requires Inv(db)
    ensures Expired(db, job, now) <==>
              job < |db.jobs| && db.jobs[job].state == Running && db.jobs[job].leaseEnds.Some? && db.jobs[job].leaseEnds.value <= now
    ensures job < |db.jobs| && db.jobs[job].state == Running ==> !JobLocked(db, job)
  {
    if job < |db.jobs| && db.jobs[job].state == Running {
      assert JobFenced(db.jobs, db.attempts, job);
      forall t | t in db.leases
        ensures LeaseOk(db.jobs, db.leases, t)
      {
      }
    }
  }

  /** A queued or retriable job that has been attempted less than three times and whose account has no active
      job can be leased: selected, looked at again and granted it runs, and its worker holds it until the
      end of the lease. */
  lemma WaitingJobCanRun(db: Db, job: nat, t: nat, worker: nat, ends: int, now: int)
    requires Inv(db) && db.leases == map[] && job < |db.jobs|
    requires (db.jobs[job].state == Queued || db.jobs[job].state == Retriable) && db.jobs[job].attempts < 3
    requires forall i :: 0 <= i < |db.jobs| && db.jobs[i].account == db.jobs[job].account ==>
               db.jobs[i].state != Running && db.jobs[i].cleanup != CleanupPending
    ensures var out := LeaseGrant(LeaseRecheck(LeaseSelect(db, t, job), t), t, true, worker, ends);
            && job < |out.jobs| && out.jobs[job].state == Running && out.jobs[job].attempts == db.jobs[job].attempts + 1
            && (LiveAttempt(out, job, Claim(worker, |db.attempts|, out.jobs[job].fence), now) <==> now < ends)
  {
    var selected := LeaseSelect(db, t, job);
    assert selected == db.(leases := map[t := Selected(job)]);
    var checked := LeaseRecheck(selected, t);
    assert checked == db.(leases := map[t := Checked(job)]);
    SelectKeeps(db, t, job);
    RecheckKeeps(selected, t);
    hide Inv, LeaseSelect, LeaseRecheck;
    GrantGives(checked, t, worker, ends, now, Claim(worker, |db.attempts|, LeaseGrant(checked, t, true, worker, ends).jobs[job].fence));
  }

  /** A live attempt can always end: with any failure code and up to 600 seconds, with a request to be retried,
      and with a success that covers its services, as soon as its source is stored. Before that only a refused
      source and a retry are taken, both without a bill. */
  lemma LiveAttemptCanEnd(db: Db, job: nat, c: Claim, now: int, o: Outcome)
    requires Inv(db) && LiveAttempt(db, job, c, now)
    ensures (o.state == Failed && o.code in {
               "build_failed", "dependency_not_available_offline", "build_timeout", "memory_limit", "workspace_limit",
               "static_output_too_large", "runtime_output_too_large", "output_invalid", "source_policy_rejected",
               "platform_fault", "cleanup_failed"}
             && 0 <= o.elapsed <= 600 && o.artifacts == [] && db.jobs[job].bundled) ==> CompletionAccepted(db, job, c, now, o, true)
    ensures o.state == Retriable && o.code == "platform_prelaunch_fault" && o.elapsed == 0 && o.artifacts == [] ==>
              CompletionAccepted(db, job, c, now, o, true)
    ensures (o.state == Succeeded && o.code == "build_succeeded" && 0 < o.elapsed <= 600 && 0 < |o.artifacts| <= 2 && o.cleanupConfirmed
             && ArtifactsMatch(db.jobs[job].services, o.artifacts) && |o.artifacts| == |ServiceIds(db.jobs[job].services)|
             && db.jobs[job].bundled) ==> CompletionAccepted(db, job, c, now, o, true)
    ensures !db.jobs[job].bundled && CompletionAccepted(db, job, c, now, o, true) ==>
              o.elapsed == 0 && ((o.state == Failed && o.code == "source_policy_rejected") || o.state == Retriable)
  {
    assert ReceiptOk(db.attempts, db.receipts, c.attempt);
    assert ReservationOk(db.jobs, db.usage, db.events, job);
    hide Inv, LiveAttempt;
  }

  /** Whoever holds a live attempt can acknowledge its cancellation: the job is closed with the acknowledged
      seconds and no longer keeps its account from another build. */
  lemma CancelThenAck(db: Db, job: nat, c: Claim, now: int, elapsed: int)
    requires Inv(db) && LiveAttempt(db, job, c, now) && 0 <= elapsed <= 600
    ensures var canceled := Cancel(db, job, db.jobs[job].revision); var out := AckCancel(canceled, job, c, elapsed, true);
            && job < |canceled.jobs| && canceled.jobs[job].state == Canceled && !LiveAttempt(canceled, job, c, now)
            && Billed(canceled, out, job, c.attempt, elapsed) && canceled.events == db.events
            && job < |out.jobs| && out.jobs[job].state == Canceled && !Active(out.jobs[job])
  {
    var canceled := Cancel(db, job, db.jobs[job].revision);
    var out := AckCancel(canceled, job, c, elapsed, true);
    CancelKeeps(db, job, db.jobs[job].revision);
    CancelFrees(db, job);
    assert ReceiptOk(db.attempts, db.receipts, c.attempt);
    assert JobLocked(canceled, job) == JobLocked(db, job);
    AckGoesThrough(canceled, job, c, elapsed);
    hide Inv, Cancel, AckCancel, JobLocked, Billed;
    AckBills(canceled, job, c, elapsed, true);
  }

  lemma AckGoesThrough(db: Db, job: nat, c: Claim, elapsed: int)
    requires Inv(db) && 0 <= elapsed <= 600 && c.fence > 0 && c.attempt !in db.receipts && job < |db.jobs| && !JobLocked(db, job)
    requires c.attempt < |db.attempts| && db.jobs[job].state == Canceled && db.jobs[job].cleanup == CleanupPending
    requires var a := db.attempts[c.attempt]; a.job == job && a.fence == c.fence && a.worker == c.worker && a.state == Canceled
    ensures AckCancel(db, job, c, elapsed, true) != db
  {
    assert ReservationOk(db.jobs, db.usage, db.events, job);
    SettleTouches(db, job, c.attempt, elapsed);
    hide Settle, JobLocked, Inv;
    assert c.attempt in AckCancel(db, job, c, elapsed, true).receipts;
  }
}
