/** Results over every run of admission steps. */
module AdmissionRuns {
  import opened Common
  import opened Counting
  import opened Meter
  import opened Admission
  import opened AdmissionSafety

  /** After any run of holds, admissions, limit changes, observations, expiries and usage events:
      every account is within its slot entitlement, every pool within its slots and its rollout headroom. */
  lemma CapacityIsSafe(steps: seq<Step>, account: nat, pool: nat)
    ensures var db := ApplyAll(EMPTY_LEDGER, steps);
            && (account in db.entitlements ==> AccountUse(db.holds, db.slots, account) <= db.entitlements[account].slots)
            && (pool in db.pools ==>
                  PoolUse(db.holds, db.slots, pool) <= db.pools[pool].slots && RolloutUse(db.holds, pool) <= db.pools[pool].headroom)
  {
    EmptyHolds();
    RunKeeps(EMPTY_LEDGER, steps);
  }

  /** Admission of an active hold moves no use counter of any account or pool: an initial hold becomes a
      slot of the same account and pool, a rollout hold keeps its headroom. Only holds that were due leave. */
  lemma AdmitConservesUse(steps: seq<Step>, now: int, account: nat, project: nat, deployment: nat, hold: nat, a: nat, p: nat)
    ensures var db := ApplyAll(EMPTY_LEDGER, steps);
            var out := Admit(db, now, account, project, deployment, hold, true, true);
            out != db ==>
              var d := Expire(db, now, Some((account, db.entitlements[account].pool)));
              && AccountUse(out.holds, out.slots, a) == AccountUse(d.holds, d.slots, a)
              && PoolUse(out.holds, out.slots, p) == PoolUse(d.holds, d.slots, p)
              && RolloutUse(out.holds, p) == RolloutUse(d.holds, p)
  {
    EmptyHolds();
    RunKeeps(EMPTY_LEDGER, steps);
    var db := ApplyAll(EMPTY_LEDGER, steps);
    var out := Admit(db, now, account, project, deployment, hold, true, true);
    if out != db {
      var scope := Some((account, db.entitlements[account].pool));
      var d := Expire(db, now, scope);
      ExpireKeeps(db, now, scope);
      if out != d {
        assert Homed(d.entitlements, d.holds[hold].account, d.holds[hold].pool);
        if d.holds[hold].kind.Initial? {
          InitialAdmissionConserves(d.holds, d.slots, hold, out.slots[|d.slots|], a, p);
        } else {
          RolloutAdmissionConserves(d.holds, d.slots, hold, a, p);
        }
      }
    }
  }

  function IsInitial(): Hold -> bool {
    (h: Hold) => h.kind.Initial?
  }

  function InitialWith(s: HoldState): Hold -> bool {
    (h: Hold) => h.kind.Initial? && h.state == s
  }

  lemma {:induction false} PartitionCounts(holds: seq<Hold>)
    ensures Count(holds, IsInitial())
            == Count(holds, InitialWith(HoldActive)) + Count(holds, InitialWith(Consumed))
               + Count(holds, InitialWith(HoldReleased)) + Count(holds, InitialWith(HoldExpired))
    decreases |holds|
  {
    if holds != [] {
      PartitionCounts(holds[..|holds| - 1]);
    }
  }

  lemma {:induction false} CountNone<T>(rows: seq<T>, p: T -> bool)
    requires forall i :: 0 <= i < |rows| ==> !p(rows[i])
    ensures Count(rows, p) == 0
    decreases |rows|
  {
    if rows != [] {
      CountNone(rows[..|rows| - 1], p);
    }
  }

  /** Expired initial holds and refund intents are the same set. */
  lemma RefundsAreExpired(db: Ledger)
    requires Inv(db)
    ensures Count(db.holds, InitialWith(HoldExpired)) == |db.refunds|
    ensures Count(db.holds, InitialWith(HoldReleased)) == 0
  {
    forall i | 0 <= i < |db.holds|
      ensures !InitialWith(HoldReleased)(db.holds[i])
      ensures i in db.refunds <==> InitialWith(HoldExpired)(db.holds[i])
    {
      assert HoldOk(db.holds, db.slots, db.refunds, i);
    }
    CountNone(db.holds, InitialWith(HoldReleased));
    CountIsSize(db.holds, InitialWith(HoldExpired));
    assert Where(db.holds, InitialWith(HoldExpired)) == db.refunds;
  }

  /** Consumed initial holds and slots correspond one to one. */
  lemma SlotsAreConsumed(db: Ledger)
    requires Inv(db)
    ensures Count(db.holds, InitialWith(Consumed)) == |db.slots|
  {
    forall i | 0 <= i < |db.holds|
      ensures HasSlot(db.slots, i) <==> InitialWith(Consumed)(db.holds[i])
    {
      assert HoldOk(db.holds, db.slots, db.refunds, i);
    }
    CountIsSize(db.holds, InitialWith(Consumed));
    var keys := seq(|db.slots|, r requires 0 <= r < |db.slots| => db.slots[r].initialHold);
    forall r, s | 0 <= r < s < |keys|
      ensures keys[r] != keys[s]
    {
      assert SlotsApart(db.slots, r, s);
    }
    ImageSize(keys);
    var image := Places(keys);
    forall i: nat
      ensures i in image <==> i in Where(db.holds, InitialWith(Consumed))
    {
      if i in image {
        var r :| 0 <= r < |keys| && keys[r] == i;
        assert SlotOk(db.holds, db.slots, r);
        assert HasSlot(db.slots, i);
      }
      if i in Where(db.holds, InitialWith(Consumed)) {
        assert HasSlot(db.slots, i);
        var r :| 0 <= r < |db.slots| && db.slots[r].initialHold == i;
        assert keys[r] == i;
      }
    }
    assert image == Where(db.holds, InitialWith(Consumed));
  }

  /** Every initial hold ever created is active, expired with exactly one refund intent, or consumed by
      exactly one slot, and the three numbers add up. */
  lemma InitialHoldsPartition(steps: seq<Step>)
    ensures var db := ApplyAll(EMPTY_LEDGER, steps);
            Count(db.holds, IsInitial()) == Count(db.holds, InitialWith(HoldActive)) + |db.refunds| + |db.slots|
  {
    EmptyHolds();
    RunKeeps(EMPTY_LEDGER, steps);
    hide Inv;
    var db := ApplyAll(EMPTY_LEDGER, steps);
    PartitionCounts(db.holds);
    RefundsAreExpired(db);
    SlotsAreConsumed(db);
  }

  /** No hold is both refunded and turned into a slot, and a project has at most one live slot. */
  lemma NeverRefundedAndReserved(steps: seq<Step>)
    ensures var db := ApplyAll(EMPTY_LEDGER, steps);
            && (forall r :: 0 <= r < |db.slots| ==> db.slots[r].initialHold !in db.refunds)
            && (forall r, s :: 0 <= r < s < |db.slots| && !db.slots[r].state.SlotReleased? && !db.slots[s].state.SlotReleased? ==>
                  db.slots[r].project != db.slots[s].project && db.slots[r].initialHold != db.slots[s].initialHold)
  {
    EmptyHolds();
    RunKeeps(EMPTY_LEDGER, steps);
    var db := ApplyAll(EMPTY_LEDGER, steps);
    forall r | 0 <= r < |db.slots|
      ensures db.slots[r].initialHold !in db.refunds
    {
      assert SlotOk(db.holds, db.slots, r);
      assert HasSlot(db.slots, db.slots[r].initialHold);
      assert HoldOk(db.holds, db.slots, db.refunds, db.slots[r].initialHold);
    }
    forall r, s | 0 <= r < s < |db.slots| && !db.slots[r].state.SlotReleased? && !db.slots[s].state.SlotReleased?
      ensures db.slots[r].project != db.slots[s].project && db.slots[r].initialHold != db.slots[s].initialHold
    {
      assert SlotsApart(db.slots, r, s);
    }
  }

  /** What an account owes is the seconds of its uncredited debits: between zero and its allowance. */
  lemma BuildAllowanceHolds(steps: seq<Step>, account: nat)
    ensures var db := ApplyAll(EMPTY_LEDGER, steps);
            && Net(db.events, account) == Outstanding(db.events, |db.events|, CreditedSet(db.events), account)
            && 0 <= Net(db.events, account)
            && (account in db.entitlements ==> Net(db.events, account) <= db.entitlements[account].seconds)
  {
    EmptyHolds();
    RunKeeps(EMPTY_LEDGER, steps);
    NetIsOutstanding(ApplyAll(EMPTY_LEDGER, steps).events, account);
  }
}
