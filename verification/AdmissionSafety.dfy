/** Capacity safety, hold conservation and the credit bookkeeping over every run of admission steps. */
module AdmissionSafety {
  import opened Common
  import opened Counting
  import opened Admission
  import opened Meter

  // ----- the invariant, part by part -----

  predicate Homed(ents: map<nat, Entitlement>, account: nat, pool: nat) {
    account in ents && ents[account].pool == pool
  }

  /** Every hold and slot sits in its account's pool, which never changes. */
  ghost predicate Placed(pools: map<nat, Pool>, ents: map<nat, Entitlement>, holds: seq<Hold>, slots: seq<Slot>) {
    && (forall a :: a in ents ==> ents[a].pool in pools)
    && (forall i :: 0 <= i < |holds| ==> Homed(ents, holds[i].account, holds[i].pool))
    && (forall r :: 0 <= r < |slots| ==> Homed(ents, slots[r].account, slots[r].pool))
  }

  ghost predicate AccountsFit(ents: map<nat, Entitlement>, holds: seq<Hold>, slots: seq<Slot>) {
    forall a :: a in ents ==> AccountUse(holds, slots, a) <= ents[a].slots
  }

  ghost predicate PoolsFit(pools: map<nat, Pool>, holds: seq<Hold>, slots: seq<Slot>) {
    forall p :: p in pools ==> PoolUse(holds, slots, p) <= pools[p].slots && RolloutUse(holds, p) <= pools[p].headroom
  }

  ghost predicate HasSlot(slots: seq<Slot>, hold: nat) {
    exists r :: 0 <= r < |slots| && slots[r].initialHold == hold
  }

  /** Where an initial hold has gone: still active, expired with a refund, or consumed by a slot. */
  ghost predicate HoldOk(holds: seq<Hold>, slots: seq<Slot>, refunds: set<nat>, i: nat)
    requires i < |holds|
  {
    && (holds[i].kind.Initial? ==> !holds[i].state.HoldReleased? && holds[i].reservation.None?)
    && (i in refunds <==> holds[i].kind.Initial? && holds[i].state.HoldExpired?)
    && (HasSlot(slots, i) <==> holds[i].kind.Initial? && holds[i].state.Consumed?)
  }

  ghost predicate SlotOk(holds: seq<Hold>, slots: seq<Slot>, r: nat)
    requires r < |slots|
  {
    && slots[r].initialHold < |holds|
    && holds[slots[r].initialHold].account == slots[r].account && holds[slots[r].initialHold].project == slots[r].project
    && holds[slots[r].initialHold].deployment == slots[r].deployment && holds[slots[r].initialHold].pool == slots[r].pool
  }

  predicate SlotsApart(slots: seq<Slot>, r: nat, s: nat)
    requires r < |slots| && s < |slots|
  {
    && slots[r].initialHold != slots[s].initialHold
    && (slots[r].project == slots[s].project ==> slots[r].state.SlotReleased? || slots[s].state.SlotReleased?)
  }

  ghost predicate Conserved(holds: seq<Hold>, slots: seq<Slot>, refunds: set<nat>) {
    && (forall i :: 0 <= i < |holds| ==> HoldOk(holds, slots, refunds, i))
    && (forall i :: i in refunds ==> i < |holds|)
    && (forall r :: 0 <= r < |slots| ==> SlotOk(holds, slots, r))
    && (forall r, s :: 0 <= r < s < |slots| ==> SlotsApart(slots, r, s))
  }

  ghost predicate Billed(ents: map<nat, Entitlement>, events: seq<Event>) {
    && CreditsOk(events)
    && (forall a :: a in ents ==> Net(events, a) <= ents[a].seconds)
  }

  ghost predicate Inv(db: Ledger) {
    && Placed(db.pools, db.entitlements, db.holds, db.slots)
    && AccountsFit(db.entitlements, db.holds, db.slots) && PoolsFit(db.pools, db.holds, db.slots)
    && Conserved(db.holds, db.slots, db.refunds) && Billed(db.entitlements, db.events)
  }

  lemma EmptyHolds()
    ensures Inv(EMPTY_LEDGER)
  {
  }

  // ----- expiry -----

  lemma ExpireFits(pools: map<nat, Pool>, ents: map<nat, Entitlement>, holds: seq<Hold>, slots: seq<Slot>, now: int, scope: Option<(nat, nat)>)
    requires AccountsFit(ents, holds, slots) && PoolsFit(pools, holds, slots)
    ensures AccountsFit(ents, ExpireAll(holds, now, scope), slots) && PoolsFit(pools, ExpireAll(holds, now, scope), slots)
  {
    var out := ExpireAll(holds, now, scope);
    forall a | a in ents
      ensures AccountUse(out, slots, a) <= ents[a].slots
    {
      CountFewer(holds, out, InitialOf(a));
    }
    forall p | p in pools
      ensures PoolUse(out, slots, p) <= pools[p].slots && RolloutUse(out, p) <= pools[p].headroom
    {
      CountFewer(holds, out, InitialIn(p));
      CountFewer(holds, out, RolloutIn(p));
    }
  }

  lemma ExpireKeeps(db: Ledger, now: int, scope: Option<(nat, nat)>)
    requires Inv(db)
    ensures Inv(Expire(db, now, scope))
  {
    var out := Expire(db, now, scope);
    ExpireFits(db.pools, db.entitlements, db.holds, db.slots, now, scope);
    forall i | 0 <= i < |out.holds|
      ensures HoldOk(out.holds, out.slots, out.refunds, i)
    {
      assert HoldOk(db.holds, db.slots, db.refunds, i);
    }
    forall r | 0 <= r < |out.slots|
      ensures SlotOk(out.holds, out.slots, r)
    {
      assert SlotOk(db.holds, db.slots, r);
    }
  }

  // ----- holds -----

  lemma NewHoldFits(pools: map<nat, Pool>, ents: map<nat, Entitlement>, holds: seq<Hold>, slots: seq<Slot>, h: Hold)
    requires AccountsFit(ents, holds, slots) && PoolsFit(pools, holds, slots)
    requires h.account in ents && h.pool in pools && h.state.HoldActive?
    requires h.kind.Initial? ==> AccountUse(holds, slots, h.account) < ents[h.account].slots && PoolUse(holds, slots, h.pool) < pools[h.pool].slots
    requires h.kind.Rollout? ==> RolloutUse(holds, h.pool) < pools[h.pool].headroom
    ensures AccountsFit(ents, holds + [h], slots) && PoolsFit(pools, holds + [h], slots)
  {
    var out := holds + [h];
    forall a | a in ents
      ensures AccountUse(out, slots, a) <= ents[a].slots
    {
      CountAppend(holds, h, InitialOf(a));
    }
    forall p | p in pools
      ensures PoolUse(out, slots, p) <= pools[p].slots && RolloutUse(out, p) <= pools[p].headroom
    {
      CountAppend(holds, h, InitialIn(p));
      CountAppend(holds, h, RolloutIn(p));
    }
  }

  lemma NewHoldConserved(holds: seq<Hold>, slots: seq<Slot>, refunds: set<nat>, h: Hold)
    requires Conserved(holds, slots, refunds) && h.state.HoldActive? && (h.kind.Initial? ==> h.reservation.None?)
    ensures Conserved(holds + [h], slots, refunds)
  {
    var out := holds + [h];
    forall r | 0 <= r < |slots|
      ensures SlotOk(out, slots, r) && slots[r].initialHold != |holds|
    {
      assert SlotOk(holds, slots, r);
    }
    forall i | 0 <= i < |out|
      ensures HoldOk(out, slots, refunds, i)
    {
      if i < |holds| {
        assert HoldOk(holds, slots, refunds, i);
      }
    }
  }

  lemma HoldKeeps(db: Ledger, now: int, account: nat, project: nat, deployment: nat, ttl: int, admissible: bool)
    requires Inv(db)
    ensures Inv(CreateHold(db, now, account, project, deployment, ttl, admissible))
  {
    hide Conserved, AccountsFit, PoolsFit, Billed, HoldConflict;
    var out := CreateHold(db, now, account, project, deployment, ttl, admissible);
    if out != db {
      var d := Expire(db, now, Some((account, db.entitlements[account].pool)));
      ExpireKeeps(db, now, Some((account, db.entitlements[account].pool)));
      var h := out.holds[|d.holds|];
      assert out == d.(holds := d.holds + [h]);
      NewHoldFits(d.pools, d.entitlements, d.holds, d.slots, h);
      NewHoldConserved(d.holds, d.slots, d.refunds, h);
    }
  }

  // ----- admission -----

  /** Consuming an initial hold into a slot of the same account and pool moves one unit from the
      holds to the slots; both use counters stay exactly what they were. */
  lemma InitialAdmissionConserves(holds: seq<Hold>, slots: seq<Slot>, hold: nat, s: Slot, account: nat, pool: nat)
    requires hold < |holds| && holds[hold].kind.Initial? && holds[hold].state.HoldActive?
    requires s.account == holds[hold].account && s.pool == holds[hold].pool && s.state.SlotReserved?
    ensures var holds' := holds[hold := holds[hold].(state := Consumed)];
            && AccountUse(holds', slots + [s], account) == AccountUse(holds, slots, account)
            && PoolUse(holds', slots + [s], pool) == PoolUse(holds, slots, pool)
            && RolloutUse(holds', pool) == RolloutUse(holds, pool)
  {
    var h' := holds[hold].(state := Consumed);
    CountUpdate(holds, hold, h', InitialOf(account));
    CountAppend(slots, s, LiveSlotOf(account));
    CountUpdate(holds, hold, h', InitialIn(pool));
    CountAppend(slots, s, LiveSlotIn(pool));
    CountUpdate(holds, hold, h', RolloutIn(pool));
  }

  lemma RolloutAdmissionConserves(holds: seq<Hold>, slots: seq<Slot>, hold: nat, account: nat, pool: nat)
    requires hold < |holds| && holds[hold].kind.Rollout? && holds[hold].state.HoldActive?
    ensures var holds' := holds[hold := holds[hold].(state := Consumed)];
            && AccountUse(holds', slots, account) == AccountUse(holds, slots, account)
            && PoolUse(holds', slots, pool) == PoolUse(holds, slots, pool)
            && RolloutUse(holds', pool) == RolloutUse(holds, pool)
  {
    var h' := holds[hold].(state := Consumed);
    CountUpdate(holds, hold, h', InitialOf(account));
    CountUpdate(holds, hold, h', InitialIn(pool));
    CountUpdate(holds, hold, h', RolloutIn(pool));
  }

  lemma ConsumeConserved(holds: seq<Hold>, slots: seq<Slot>, refunds: set<nat>, hold: nat, s: Slot)
    requires Conserved(holds, slots, refunds) && hold < |holds| && holds[hold].kind.Initial? && holds[hold].state.HoldActive?
    requires s.initialHold == hold && s.state.SlotReserved? && !ProjectTaken(slots, s.project)
    requires s.account == holds[hold].account && s.project == holds[hold].project
             && s.deployment == holds[hold].deployment && s.pool == holds[hold].pool
    ensures Conserved(holds[hold := holds[hold].(state := Consumed)], slots + [s], refunds)
  {
    var holds', slots' := holds[hold := holds[hold].(state := Consumed)], slots + [s];
    assert HoldOk(holds, slots, refunds, hold);
    assert slots'[|slots|] == s;
    forall i | 0 <= i < |holds'|
      ensures HoldOk(holds', slots', refunds, i)
    {
      assert HoldOk(holds, slots, refunds, i);
      if HasSlot(slots, i) {
        var r :| 0 <= r < |slots| && slots[r].initialHold == i;
        assert slots'[r].initialHold == i;
      }
      if HasSlot(slots', i) && i != hold {
        var r :| 0 <= r < |slots'| && slots'[r].initialHold == i;
        assert slots[r].initialHold == i;
      }
    }
    forall r | 0 <= r < |slots'|
      ensures SlotOk(holds', slots', r)
    {
      if r < |slots| {
        assert SlotOk(holds, slots, r);
      }
    }
    forall r, q | 0 <= r < q < |slots'|
      ensures SlotsApart(slots', r, q)
    {
      if q < |slots| {
        assert SlotsApart(slots, r, q);
      } else {
        assert slots[r] == slots'[r];
      }
    }
  }

  lemma RolloutHoldConserved(holds: seq<Hold>, slots: seq<Slot>, refunds: set<nat>, hold: nat, state: HoldState)
    requires Conserved(holds, slots, refunds) && hold < |holds| && holds[hold].kind.Rollout?
    ensures Conserved(holds[hold := holds[hold].(state := state)], slots, refunds)
  {
    var holds' := holds[hold := holds[hold].(state := state)];
    forall i | 0 <= i < |holds'|
      ensures HoldOk(holds', slots, refunds, i)
    {
      assert HoldOk(holds, slots, refunds, i);
    }
    forall r | 0 <= r < |slots|
      ensures SlotOk(holds', slots, r)
    {
      assert SlotOk(holds, slots, r);
    }
  }

  lemma InitialAdmitKeeps(d: Ledger, hold: nat, s: Slot)
    requires Inv(d) && hold < |d.holds| && d.holds[hold].kind.Initial? && d.holds[hold].state.HoldActive?
    requires !ProjectTaken(d.slots, s.project)
    requires s == Slot(d.holds[hold].account, d.holds[hold].project, d.holds[hold].deployment, d.holds[hold].pool, hold, SlotReserved)
    ensures Inv(d.(holds := d.holds[hold := d.holds[hold].(state := Consumed)], slots := d.slots + [s]))
  {
    var holds', slots' := d.holds[hold := d.holds[hold].(state := Consumed)], d.slots + [s];
    ConsumeConserved(d.holds, d.slots, d.refunds, hold, s);
    forall a | a in d.entitlements
      ensures AccountUse(holds', slots', a) <= d.entitlements[a].slots
    {
      InitialAdmissionConserves(d.holds, d.slots, hold, s, a, 0);
    }
    forall p | p in d.pools
      ensures PoolUse(holds', slots', p) <= d.pools[p].slots && RolloutUse(holds', p) <= d.pools[p].headroom
    {
      InitialAdmissionConserves(d.holds, d.slots, hold, s, 0, p);
    }
    assert Homed(d.entitlements, d.holds[hold].account, d.holds[hold].pool);
  }

  lemma RolloutAdmitKeeps(d: Ledger, hold: nat)
    requires Inv(d) && hold < |d.holds| && d.holds[hold].kind.Rollout? && d.holds[hold].state.HoldActive?
    ensures Inv(d.(holds := d.holds[hold := d.holds[hold].(state := Consumed)]))
  {
    var holds' := d.holds[hold := d.holds[hold].(state := Consumed)];
    RolloutHoldConserved(d.holds, d.slots, d.refunds, hold, Consumed);
    forall a | a in d.entitlements
      ensures AccountUse(holds', d.slots, a) <= d.entitlements[a].slots
    {
      RolloutAdmissionConserves(d.holds, d.slots, hold, a, 0);
    }
    forall p | p in d.pools
      ensures PoolUse(holds', d.slots, p) <= d.pools[p].slots && RolloutUse(holds', p) <= d.pools[p].headroom
    {
      RolloutAdmissionConserves(d.holds, d.slots, hold, 0, p);
    }
  }

  lemma AdmitKeeps(db: Ledger, now: int, account: nat, project: nat, deployment: nat, hold: nat, current: bool, admissible: bool)
    requires Inv(db)
    ensures Inv(Admit(db, now, account, project, deployment, hold, current, admissible))
  {
    var out := Admit(db, now, account, project, deployment, hold, current, admissible);
    if out != db {
      var scope := Some((account, db.entitlements[account].pool));
      var d := Expire(db, now, scope);
      ExpireKeeps(db, now, scope);
      if out != d {
        assert Homed(d.entitlements, d.holds[hold].account, d.holds[hold].pool);
        if d.holds[hold].kind.Initial? {
          InitialAdmitKeeps(d, hold, out.slots[|d.slots|]);
        } else {
          RolloutAdmitKeeps(d, hold);
        }
      }
    }
  }

  // ----- limits, observations and the meter -----

  lemma CapacityKeeps(db: Ledger, pool: nat, slots: nat, headroom: nat)
    requires Inv(db)
    ensures Inv(PutCapacity(db, pool, slots, headroom))
  {
    hide Conserved, AccountsFit, Billed;
  }

  lemma EntitlementKeeps(db: Ledger, account: nat, e: Entitlement)
    requires Inv(db)
    ensures Inv(PutEntitlement(db, account, e))
  {
    hide Conserved, PoolsFit;
    var out := PutEntitlement(db, account, e);
    forall i | 0 <= i < |db.holds|
      ensures Homed(out.entitlements, db.holds[i].account, db.holds[i].pool)
    {
      assert Homed(db.entitlements, db.holds[i].account, db.holds[i].pool);
    }
    forall r | 0 <= r < |db.slots|
      ensures Homed(out.entitlements, db.slots[r].account, db.slots[r].pool)
    {
      assert Homed(db.entitlements, db.slots[r].account, db.slots[r].pool);
    }
  }

  lemma SlotStateConserved(holds: seq<Hold>, slots: seq<Slot>, refunds: set<nat>, slot: nat, state: SlotState)
    requires Conserved(holds, slots, refunds) && slot < |slots| && !slots[slot].state.SlotReleased?
    ensures Conserved(holds, slots[slot := slots[slot].(state := state)], refunds)
  {
    var slots' := slots[slot := slots[slot].(state := state)];
    forall i | 0 <= i < |holds|
      ensures HoldOk(holds, slots', refunds, i)
    {
      assert HoldOk(holds, slots, refunds, i);
      if HasSlot(slots, i) {
        var r :| 0 <= r < |slots| && slots[r].initialHold == i;
        assert slots'[r].initialHold == i;
      }
      if HasSlot(slots', i) {
        var r :| 0 <= r < |slots'| && slots'[r].initialHold == i;
        assert slots[r].initialHold == i;
      }
    }
    forall r | 0 <= r < |slots'|
      ensures SlotOk(holds, slots', r)
    {
      assert SlotOk(holds, slots, r);
    }
    forall r, q | 0 <= r < q < |slots'|
      ensures SlotsApart(slots', r, q)
    {
      assert SlotsApart(slots, r, q);
    }
  }

  lemma SlotStateFits(pools: map<nat, Pool>, ents: map<nat, Entitlement>, holds: seq<Hold>, slots: seq<Slot>, slot: nat, state: SlotState)
    requires AccountsFit(ents, holds, slots) && PoolsFit(pools, holds, slots) && slot < |slots| && !slots[slot].state.SlotReleased?
    ensures var slots' := slots[slot := slots[slot].(state := state)]; AccountsFit(ents, holds, slots') && PoolsFit(pools, holds, slots')
  {
    var x := slots[slot].(state := state);
    var slots' := slots[slot := x];
    forall a | a in ents
      ensures AccountUse(holds, slots', a) <= ents[a].slots
    {
      CountUpdate(slots, slot, x, LiveSlotOf(a));
    }
    forall p | p in pools
      ensures PoolUse(holds, slots', p) <= pools[p].slots && RolloutUse(holds, p) <= pools[p].headroom
    {
      CountUpdate(slots, slot, x, LiveSlotIn(p));
    }
  }

  lemma ReleaseRolloutFits(pools: map<nat, Pool>, ents: map<nat, Entitlement>, holds: seq<Hold>, slots: seq<Slot>, hold: nat)
    requires AccountsFit(ents, holds, slots) && PoolsFit(pools, holds, slots) && hold < |holds| && holds[hold].kind.Rollout?
    ensures var holds' := holds[hold := holds[hold].(state := HoldReleased)]; AccountsFit(ents, holds', slots) && PoolsFit(pools, holds', slots)
  {
    var x := holds[hold].(state := HoldReleased);
    var holds' := holds[hold := x];
    forall a | a in ents
      ensures AccountUse(holds', slots, a) <= ents[a].slots
    {
      CountUpdate(holds, hold, x, InitialOf(a));
    }
    forall p | p in pools
      ensures PoolUse(holds', slots, p) <= pools[p].slots && RolloutUse(holds', p) <= pools[p].headroom
    {
      CountUpdate(holds, hold, x, InitialIn(p));
      CountUpdate(holds, hold, x, RolloutIn(p));
    }
  }

  lemma ObserveKeeps(db: Ledger, account: nat, project: nat, deployment: nat, slot: nat, rollout: Option<nat>, outcome: Observation)
    requires Inv(db)
    ensures Inv(Observe(db, account, project, deployment, slot, rollout, outcome))
  {
    var out := Observe(db, account, project, deployment, slot, rollout, outcome);
    if out != db {
      if outcome == RolloutReleased {
        ReleaseRolloutFits(db.pools, db.entitlements, db.holds, db.slots, rollout.value);
        RolloutHoldConserved(db.holds, db.slots, db.refunds, rollout.value, HoldReleased);
      } else {
        SlotStateFits(db.pools, db.entitlements, db.holds, db.slots, slot, out.slots[slot].state);
        SlotStateConserved(db.holds, db.slots, db.refunds, slot, out.slots[slot].state);
      }
    }
  }

  lemma DebitKeeps(db: Ledger, now: int, account: nat, attempt: nat, seconds: int)
    requires Inv(db)
    ensures Inv(RecordDebit(db, now, account, attempt, seconds))
  {
    hide Placed, AccountsFit, PoolsFit, Conserved;
    var out := RecordDebit(db, now, account, attempt, seconds);
    if out != db {
      var d := Debit(account, attempt, seconds);
      DebitKeepsCredits(db.events, d);
      forall a | a in db.entitlements
        ensures Net(out.events, a) <= db.entitlements[a].seconds
      {
        NetAppend(db.events, d, a);
      }
    }
  }

  lemma CreditKeeps(db: Ledger, account: nat, attempt: nat, debit: nat, seconds: int)
    requires Inv(db)
    ensures Inv(RecordCredit(db, account, attempt, debit, seconds))
  {
    hide Placed, AccountsFit, PoolsFit, Conserved;
    var back := RecordCredit(db, account, attempt, debit, seconds);
    if back != db {
      NewCreditOk(db.events, Credit(account, debit, seconds));
      forall a | a in db.entitlements
        ensures Net(back.events, a) <= db.entitlements[a].seconds
      {
        NetAppend(db.events, Credit(account, debit, seconds), a);
      }
    }
  }

  lemma StepKeeps(db: Ledger, s: Step)
    requires Inv(db)
    ensures Inv(Apply(db, s))
  {
    match s
    case DoHold(now, account, project, deployment, ttl, admissible) => HoldKeeps(db, now, account, project, deployment, ttl, admissible);
    case DoAdmit(now, account, project, deployment, hold, current, admissible) => AdmitKeeps(db, now, account, project, deployment, hold, current, admissible);
    case DoCapacity(pool, slots, headroom) => CapacityKeeps(db, pool, slots, headroom);
    case DoEntitlement(account, entitlement) => EntitlementKeeps(db, account, entitlement);
    case DoObserve(account, project, deployment, slot, rollout, outcome) => ObserveKeeps(db, account, project, deployment, slot, rollout, outcome);
    case DoDebit(now, account, attempt, seconds) => DebitKeeps(db, now, account, attempt, seconds);
    case DoCredit(account, attempt, debit, seconds) => CreditKeeps(db, account, attempt, debit, seconds);
    case DoReconcile(now) => ExpireKeeps(db, now, None);
  }

  lemma {:induction false} RunKeeps(db: Ledger, steps: seq<Step>)
    requires Inv(db)
    ensures Inv(ApplyAll(db, steps))
    decreases |steps|
  {
    if steps != [] {
      StepKeeps(db, steps[0]);
      RunKeeps(Apply(db, steps[0]), steps[1..]);
    }
  }
}
