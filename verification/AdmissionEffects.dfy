/** What one admission step achieves, on rows and counters: which use a hold, an admission or an
    observation moves, and what the meter says after a debit and its credit. */
module AdmissionEffects {
  import opened Common
  import opened Counting
  import opened Meter
  import opened Admission
  import opened AdmissionSafety

  // ----- what the counters count -----

  /** An account uses its slots that are not released and its active initial holds; a pool likewise, and
      its rollout headroom is used by rollout holds that are active or consumed. */
  lemma UseIsRows(db: Ledger, account: nat, pool: nat)
    ensures AccountUse(db.holds, db.slots, account)
            == |set r: nat | r < |db.slots| && db.slots[r].account == account && db.slots[r].state in {SlotReserved, Retained}|
               + |set i: nat | i < |db.holds| && db.holds[i].account == account && db.holds[i].kind == Initial && db.holds[i].state == HoldActive|
    ensures PoolUse(db.holds, db.slots, pool)
            == |set r: nat | r < |db.slots| && db.slots[r].pool == pool && db.slots[r].state in {SlotReserved, Retained}|
               + |set i: nat | i < |db.holds| && db.holds[i].pool == pool && db.holds[i].kind == Initial && db.holds[i].state == HoldActive|
    ensures RolloutUse(db.holds, pool)
            == |set i: nat | i < |db.holds| && db.holds[i].pool == pool && db.holds[i].kind == Rollout && db.holds[i].state in {HoldActive, Consumed}|
  {
    CountIsSize(db.slots, LiveSlotOf(account));
    CountIsSize(db.holds, InitialOf(account));
    CountIsSize(db.slots, LiveSlotIn(pool));
    CountIsSize(db.holds, InitialIn(pool));
    CountIsSize(db.holds, RolloutIn(pool));
    assert Where(db.slots, LiveSlotOf(account))
        == set r: nat | r < |db.slots| && db.slots[r].account == account && db.slots[r].state in {SlotReserved, Retained};
    assert Where(db.holds, InitialOf(account))
        == set i: nat | i < |db.holds| && db.holds[i].account == account && db.holds[i].kind == Initial && db.holds[i].state == HoldActive;
    assert Where(db.slots, LiveSlotIn(pool))
        == set r: nat | r < |db.slots| && db.slots[r].pool == pool && db.slots[r].state in {SlotReserved, Retained};
    assert Where(db.holds, InitialIn(pool))
        == set i: nat | i < |db.holds| && db.holds[i].pool == pool && db.holds[i].kind == Initial && db.holds[i].state == HoldActive;
    assert Where(db.holds, RolloutIn(pool))
        == set i: nat | i < |db.holds| && db.holds[i].pool == pool && db.holds[i].kind == Rollout && db.holds[i].state in {HoldActive, Consumed};
  }

  /** The use of one account and of one pool moves by `slots`, the rollout headroom of that pool by
      `rollouts`, and no other counter moves. */
  ghost predicate UseMoves(db: Ledger, out: Ledger, account: nat, pool: nat, slots: int, rollouts: int) {
    && (forall a: nat :: AccountUse(out.holds, out.slots, a) == AccountUse(db.holds, db.slots, a) + if a == account then slots else 0)
    && (forall p: nat :: PoolUse(out.holds, out.slots, p) == PoolUse(db.holds, db.slots, p) + if p == pool then slots else 0)
    && (forall p: nat :: RolloutUse(out.holds, p) == RolloutUse(db.holds, p) + if p == pool then rollouts else 0)
  }

  lemma SlotRowMoves(db: Ledger, slot: nat, state: SlotState)
    requires slot < |db.slots| && !db.slots[slot].state.SlotReleased?
    ensures UseMoves(db, db.(slots := db.slots[slot := db.slots[slot].(state := state)]), db.slots[slot].account, db.slots[slot].pool,
                     if state.SlotReleased? then -1 else 0, 0)
  {
    var x := db.slots[slot].(state := state);
    var out := db.(slots := db.slots[slot := x]);
    hide Count;
    forall a: nat
      ensures AccountUse(out.holds, out.slots, a)
              == AccountUse(db.holds, db.slots, a) + if a == x.account && state.SlotReleased? then -1 else 0
    {
      CountUpdate(db.slots, slot, x, LiveSlotOf(a));
    }
    forall p: nat
      ensures PoolUse(out.holds, out.slots, p) == PoolUse(db.holds, db.slots, p) + if p == x.pool && state.SlotReleased? then -1 else 0
    {
      CountUpdate(db.slots, slot, x, LiveSlotIn(p));
    }
  }

  lemma RolloutRowMoves(db: Ledger, hold: nat)
    requires hold < |db.holds| && db.holds[hold].kind.Rollout? && db.holds[hold].state.Consumed?
    ensures UseMoves(db, db.(holds := db.holds[hold := db.holds[hold].(state := HoldReleased)]), db.holds[hold].account, db.holds[hold].pool, 0, -1)
  {
    var x := db.holds[hold].(state := HoldReleased);
    var out := db.(holds := db.holds[hold := x]);
    hide Count;
    forall a: nat
      ensures AccountUse(out.holds, out.slots, a) == AccountUse(db.holds, db.slots, a)
    {
      CountUpdate(db.holds, hold, x, InitialOf(a));
    }
    forall p: nat
      ensures PoolUse(out.holds, out.slots, p) == PoolUse(db.holds, db.slots, p)
      ensures RolloutUse(out.holds, p) == RolloutUse(db.holds, p) + if p == x.pool then -1 else 0
    {
      CountUpdate(db.holds, hold, x, InitialIn(p));
      CountUpdate(db.holds, hold, x, RolloutIn(p));
    }
  }

  // ----- observations -----

  /** What a linked observation of a live slot does. Confirmed cleanup frees one slot of its account and of
      its pool; retained resources and a healthy deployment move no counter and keep the slot; a released
      rollout gives back one unit of headroom, once. */
  ghost predicate Observed(db: Ledger, out: Ledger, slot: nat, rollout: Option<nat>, outcome: Observation)
    requires slot < |db.slots| && (rollout.Some? ==> rollout.value < |db.holds|)
  {
    var account, pool := db.slots[slot].account, db.slots[slot].pool;
    && |out.slots| == |db.slots| && |out.holds| == |db.holds|
    && (forall r :: 0 <= r < |db.slots| && r != slot ==> out.slots[r] == db.slots[r])
    && match outcome
       case CleanupConfirmed => out.slots[slot].state == SlotReleased && UseMoves(db, out, account, pool, -1, 0)
       case ResourcesRetained => out.slots[slot].state == Retained && UseMoves(db, out, account, pool, 0, 0)
       case DeploymentHealthy => out == db
       case RolloutReleased =>
         && out.slots == db.slots
         && (rollout.Some? ==> out.holds[rollout.value].state == HoldReleased)
         && UseMoves(db, out, account, pool, 0, if rollout.Some? && db.holds[rollout.value].state.Consumed? then -1 else 0)
  }

  lemma ObserveEffects(db: Ledger, account: nat, project: nat, deployment: nat, slot: nat, rollout: Option<nat>, outcome: Observation)
    requires ObservationLinked(db, account, project, deployment, slot, rollout) && !db.slots[slot].state.SlotReleased?
    ensures Observed(db, Observe(db, account, project, deployment, slot, rollout, outcome), slot, rollout, outcome)
  {
    hide AccountUse, PoolUse, RolloutUse;
    match outcome
    case CleanupConfirmed => SlotRowMoves(db, slot, SlotReleased);
    case ResourcesRetained => SlotRowMoves(db, slot, Retained);
    case DeploymentHealthy =>
    case RolloutReleased =>
      if rollout.Some? && db.holds[rollout.value].state.Consumed? {
        RolloutRowMoves(db, rollout.value);
      }
  }

  /** In every run a confirmed cleanup leaves its project without a live slot, so that a new one can be
      admitted; the observation repeated changes nothing more. */
  lemma CleanupFreesProject(steps: seq<Step>, account: nat, project: nat, deployment: nat, slot: nat, rollout: Option<nat>)
    requires ObservationLinked(ApplyAll(EMPTY_LEDGER, steps), account, project, deployment, slot, rollout)
    ensures var out := Observe(ApplyAll(EMPTY_LEDGER, steps), account, project, deployment, slot, rollout, CleanupConfirmed);
            && slot < |out.slots| && out.slots[slot].state == SlotReleased && out.slots[slot].project == project
            && (ApplyAll(EMPTY_LEDGER, steps).slots[slot].state != SlotReleased ==>
                  forall r :: 0 <= r < |out.slots| && out.slots[r].project == project ==> out.slots[r].state == SlotReleased)
            && Observe(out, account, project, deployment, slot, rollout, CleanupConfirmed) == out
  {
    EmptyHolds();
    RunKeeps(EMPTY_LEDGER, steps);
    var db := ApplyAll(EMPTY_LEDGER, steps);
    hide ApplyAll;
    var out := Observe(db, account, project, deployment, slot, rollout, CleanupConfirmed);
    if !db.slots[slot].state.SlotReleased? {
      forall r | 0 <= r < |out.slots| && out.slots[r].project == project
        ensures out.slots[r].state == SlotReleased
      {
        if r < slot {
          assert SlotsApart(db.slots, r, slot);
        } else if slot < r {
          assert SlotsApart(db.slots, slot, r);
        }
      }
    }
  }

  // ----- holds and admissions -----

  predicate LiveProjectSlot(slots: seq<Slot>, account: nat, project: nat) {
    exists r :: 0 <= r < |slots| && slots[r].account == account && slots[r].project == project && slots[r].state != SlotReleased
  }

  /** A hold that is granted is the one new row, active until `ttl` seconds from now, between 5 and 300. It is
      an initial hold iff the project has no live slot, and takes one slot of its account and pool; a
      rollout hold names the live slot and takes one unit of headroom. */
  lemma HoldEffects(db: Ledger, now: int, account: nat, project: nat, deployment: nat, ttl: int, admissible: bool)
    requires |CreateHold(db, now, account, project, deployment, ttl, admissible).holds| > |db.holds|
    ensures 5 <= ttl <= 300 && account in db.entitlements
    ensures var out := CreateHold(db, now, account, project, deployment, ttl, admissible);
            var pool := db.entitlements[account].pool;
            var d := Expire(db, now, Some((account, pool)));
            var h := out.holds[|d.holds|];
            var initial := !LiveProjectSlot(db.slots, account, project);
            && out == d.(holds := d.holds + [h])
            && h.account == account && h.project == project && h.deployment == deployment && h.pool == pool
            && h.state == HoldActive && h.expires == now + ttl && h.kind == (if initial then Initial else Rollout)
            && (initial ==> h.reservation == None)
            && (!initial ==> h.reservation.Some? && h.reservation.value < |db.slots| && db.slots[h.reservation.value].account == account
                             && db.slots[h.reservation.value].project == project && db.slots[h.reservation.value].state != SlotReleased)
            && UseMoves(d, out, account, pool, if initial then 1 else 0, if initial then 0 else 1)
  {
    hide Net, HoldConflict, CapacityAvailable;
    var pool := db.entitlements[account].pool;
    var d := Expire(db, now, Some((account, pool)));
    FindSlotIff(d.slots, account, project);
    var slot := FindSlot(d.slots, account, project);
    assert slot.Some? ==> LiveSlotAt(d.slots, slot.value, account, project);
    var h := CreateHold(db, now, account, project, deployment, ttl, admissible).holds[|d.holds|];
    NewHoldMoves(d, h);
    hide FindSlot, UseMoves;
  }

  /** A hold is granted whenever it is well formed, the entitlement is live with build seconds left, no hold of
      the same deployment and kind is open, and the counters leave room. */
  lemma FreeCapacityIsHeld(db: Ledger, now: int, account: nat, project: nat, deployment: nat, ttl: int)
    requires 5 <= ttl <= 300 && account in db.entitlements && db.entitlements[account].pool in db.pools
    requires var e := db.entitlements[account]; e.live && e.starts <= now < e.ends && Net(db.events, account) < e.seconds
    requires forall i :: 0 <= i < |db.holds| && db.holds[i].project == project && db.holds[i].deployment == deployment ==>
               db.holds[i].state in {HoldReleased, HoldExpired} || (db.holds[i].kind == Initial && db.holds[i].state == Consumed)
    requires var e := db.entitlements[account]; var d := Expire(db, now, Some((account, e.pool)));
             if LiveProjectSlot(db.slots, account, project) then RolloutUse(d.holds, e.pool) < db.pools[e.pool].headroom
             else AccountUse(d.holds, d.slots, account) < e.slots && PoolUse(d.holds, d.slots, e.pool) < db.pools[e.pool].slots
    ensures |CreateHold(db, now, account, project, deployment, ttl, true).holds| == |db.holds| + 1
  {
    hide Net, HoldConflict, LiveProjectSlot, FindSlot, AccountUse, PoolUse, RolloutUse, ExpireAll;
    var pool := db.entitlements[account].pool;
    var d := Expire(db, now, Some((account, pool)));
    FindSlotIff(db.slots, account, project);
    NoConflict(db.holds, now, Some((account, pool)), project, deployment, Initial);
    NoConflict(db.holds, now, Some((account, pool)), project, deployment, Rollout);
  }

  lemma FindSlotIff(slots: seq<Slot>, account: nat, project: nat)
    ensures FindSlot(slots, account, project).Some? <==> LiveProjectSlot(slots, account, project)
  {
    var slot := FindSlot(slots, account, project);
    assert slot.Some? ==> LiveSlotAt(slots, slot.value, account, project);
    if LiveProjectSlot(slots, account, project) {
      var r: nat :| r < |slots| && slots[r].account == account && slots[r].project == project && slots[r].state != SlotReleased;
      assert LiveSlotAt(slots, r, account, project);
    }
    hide FindSlot;
  }

  lemma NoConflict(holds: seq<Hold>, now: int, scope: Option<(nat, nat)>, project: nat, deployment: nat, kind: HoldKind)
    requires forall i :: 0 <= i < |holds| && holds[i].project == project && holds[i].deployment == deployment ==>
               holds[i].state in {HoldReleased, HoldExpired} || (holds[i].kind == Initial && holds[i].state == Consumed)
    ensures !HoldConflict(ExpireAll(holds, now, scope), project, deployment, kind)
  {
    var out := ExpireAll(holds, now, scope);
    assert forall i :: 0 <= i < |out| ==> out[i] == holds[i] || out[i] == holds[i].(state := HoldExpired);
    hide ExpireAll, ExpireHold;
  }

  lemma NewHoldMoves(d: Ledger, h: Hold)
    requires h.state.HoldActive?
    ensures UseMoves(d, d.(holds := d.holds + [h]), h.account, h.pool, if h.kind.Initial? then 1 else 0, if h.kind.Rollout? then 1 else 0)
  {
    hide Count;
    var out := d.(holds := d.holds + [h]);
    forall a: nat
      ensures AccountUse(out.holds, out.slots, a) == AccountUse(d.holds, d.slots, a) + if a == h.account && h.kind.Initial? then 1 else 0
    {
      CountAppend(d.holds, h, InitialOf(a));
    }
    forall p: nat
      ensures PoolUse(out.holds, out.slots, p) == PoolUse(d.holds, d.slots, p) + if p == h.pool && h.kind.Initial? then 1 else 0
      ensures RolloutUse(out.holds, p) == RolloutUse(d.holds, p) + if p == h.pool && h.kind.Rollout? then 1 else 0
    {
      CountAppend(d.holds, h, InitialIn(p));
      CountAppend(d.holds, h, RolloutIn(p));
    }
  }

  /** An admission that adds a slot adds the reserved slot of that initial hold to a project without a live
      one; it and the admission of a rollout consume exactly that hold, which was active and not due. */
  lemma AdmitEffects(db: Ledger, now: int, account: nat, project: nat, deployment: nat, hold: nat, current: bool, admissible: bool)
    requires hold < |db.holds| && db.holds[hold].state != Consumed
    requires var out := Admit(db, now, account, project, deployment, hold, current, admissible);
             hold < |out.holds| && out.holds[hold].state == Consumed
    ensures account in db.entitlements
    ensures var out := Admit(db, now, account, project, deployment, hold, current, admissible);
            var d := Expire(db, now, Some((account, db.entitlements[account].pool)));
            var h := db.holds[hold];
            && h.account == account && h.project == project && h.deployment == deployment && h.state == HoldActive && h.expires > now
            && out == d.(holds := d.holds[hold := h.(state := Consumed)], slots := out.slots)
            && (h.kind == Initial ==>
                  && out.slots == db.slots + [Slot(account, project, deployment, db.entitlements[account].pool, hold, SlotReserved)]
                  && forall r :: 0 <= r < |db.slots| && db.slots[r].project == project ==> db.slots[r].state == SlotReleased)
            && (h.kind == Rollout ==> out.slots == db.slots && LiveProjectSlot(db.slots, account, project))
  {
    hide MayAdmit;
    assert account in db.entitlements by {
      AdmitNeedsEntitlement(db, now, account, project, deployment, hold, current, admissible);
    }
    var d := Expire(db, now, Some((account, db.entitlements[account].pool)));
    var slot := FindSlot(d.slots, account, project);
    assert slot.Some? ==> LiveSlotAt(d.slots, slot.value, account, project);
    hide FindSlot;
  }

  lemma AdmitNeedsEntitlement(db: Ledger, now: int, account: nat, project: nat, deployment: nat, hold: nat, current: bool, admissible: bool)
    requires Admit(db, now, account, project, deployment, hold, current, admissible) != db
    ensures account in db.entitlements
  {
  }

  /** After an expiry no hold in scope is active and due; those that were are expired, the initial ones among
      them with a refund intent, and every other row is as it was. */
  lemma ExpireEffects(db: Ledger, now: int, scope: Option<(nat, nat)>, i: nat)
    requires i < |db.holds|
    ensures var out := Expire(db, now, scope); var h := db.holds[i];
            var due := h.state == HoldActive && h.expires <= now && (scope.None? || h.account == scope.value.0 || h.pool == scope.value.1);
            && |out.holds| == |db.holds| && out == db.(holds := out.holds, refunds := out.refunds)
            && out.holds[i] == (if due then h.(state := HoldExpired) else h)
            && (i in out.refunds <==> i in db.refunds || (due && h.kind == Initial))
  {
  }

  // ----- a hold from its grant to its release -----

  lemma AdmitMovesNothing(db: Ledger, now: int, account: nat, project: nat, deployment: nat, hold: nat)
    requires Inv(db) && hold < |db.holds| && db.holds[hold].state != Consumed
    requires var out := Admit(db, now, account, project, deployment, hold, true, true); hold < |out.holds| && out.holds[hold].state == Consumed
    ensures account in db.entitlements
    ensures var pool := db.entitlements[account].pool;
            UseMoves(Expire(db, now, Some((account, pool))), Admit(db, now, account, project, deployment, hold, true, true), account, pool, 0, 0)
  {
    AdmitEffects(db, now, account, project, deployment, hold, true, true);
    assert Homed(db.entitlements, db.holds[hold].account, db.holds[hold].pool);
    var pool := db.entitlements[account].pool;
    var d := Expire(db, now, Some((account, pool)));
    var out := Admit(db, now, account, project, deployment, hold, true, true);
    assert d.holds[hold] == db.holds[hold];
    hide Admit, Expire, Inv, AccountUse, PoolUse, RolloutUse;
    forall x: nat
      ensures AccountUse(out.holds, out.slots, x) == AccountUse(d.holds, d.slots, x)
      ensures PoolUse(out.holds, out.slots, x) == PoolUse(d.holds, d.slots, x)
      ensures RolloutUse(out.holds, x) == RolloutUse(d.holds, x)
    {
      if d.holds[hold].kind.Initial? {
        InitialAdmissionConserves(d.holds, d.slots, hold, Slot(account, project, deployment, pool, hold, SlotReserved), x, x);
      } else {
        RolloutAdmissionConserves(d.holds, d.slots, hold, x, x);
      }
    }
  }

  /** A granted hold whose turn comes before it is due, with the entitlement still live and no live slot of
      the project on another account, is admitted. */
  lemma HoldIsAdmitted(db: Ledger, now: int, account: nat, project: nat, deployment: nat, ttl: int, later: int)
    requires var out := CreateHold(db, now, account, project, deployment, ttl, true);
             |out.holds| > |db.holds| && later < now + ttl && MayAdmit(out, later, account)
    requires forall r :: 0 <= r < |db.slots| && db.slots[r].project == project && db.slots[r].state != SlotReleased ==> db.slots[r].account == account
    ensures var held := CreateHold(db, now, account, project, deployment, ttl, true);
            var out := Admit(held, later, account, project, deployment, |db.holds|, true, true);
            |db.holds| < |out.holds| && out.holds[|db.holds|].state == Consumed
  {
    HoldEffects(db, now, account, project, deployment, ttl, true);
    hide CreateHold, MayAdmit;
    var held := CreateHold(db, now, account, project, deployment, ttl, true);
    FindSlotIff(held.slots, account, project);
    hide FindSlot;
  }

  /** Holding, admitting and releasing give back exactly what the hold took: a confirmed cleanup the slot of
      an initial hold, a released rollout the headroom of a rollout hold. */
  lemma HoldAdmitRelease(steps: seq<Step>, now: int, account: nat, project: nat, deployment: nat, ttl: int, later: int)
    requires var db := ApplyAll(EMPTY_LEDGER, steps); var held := CreateHold(db, now, account, project, deployment, ttl, true);
             && |held.holds| > |db.holds| && later < now + ttl && MayAdmit(held, later, account)
             && (forall r :: 0 <= r < |db.slots| && db.slots[r].project == project && db.slots[r].state != SlotReleased ==> db.slots[r].account == account)
    ensures var db := ApplyAll(EMPTY_LEDGER, steps); account in db.entitlements
    ensures var db := ApplyAll(EMPTY_LEDGER, steps);
            var pool := db.entitlements[account].pool;
            var held := CreateHold(db, now, account, project, deployment, ttl, true);
            var d := Expire(held, later, Some((account, pool)));
            var admitted := Admit(held, later, account, project, deployment, |db.holds|, true, true);
            if held.holds[|db.holds|].kind == Initial then
              UseMoves(d, Observe(admitted, account, project, deployment, |db.slots|, None, CleanupConfirmed), account, pool, -1, 0)
            else
              held.holds[|db.holds|].reservation.Some?
              && UseMoves(d, Observe(admitted, account, project, deployment, held.holds[|db.holds|].reservation.value, Some(|db.holds|), RolloutReleased),
                          account, pool, 0, -1)
  {
    EmptyHolds();
    RunKeeps(EMPTY_LEDGER, steps);
    var db := ApplyAll(EMPTY_LEDGER, steps);
    hide ApplyAll;
    Released(db, now, account, project, deployment, ttl, later);
  }

  lemma Released(db: Ledger, now: int, account: nat, project: nat, deployment: nat, ttl: int, later: int)
    requires Inv(db)
    requires var held := CreateHold(db, now, account, project, deployment, ttl, true);
             && |held.holds| > |db.holds| && later < now + ttl && MayAdmit(held, later, account)
             && (forall r :: 0 <= r < |db.slots| && db.slots[r].project == project && db.slots[r].state != SlotReleased ==> db.slots[r].account == account)
    ensures account in db.entitlements
    ensures var pool := db.entitlements[account].pool;
            var held := CreateHold(db, now, account, project, deployment, ttl, true);
            var d := Expire(held, later, Some((account, pool)));
            var admitted := Admit(held, later, account, project, deployment, |db.holds|, true, true);
            if held.holds[|db.holds|].kind == Initial then
              UseMoves(d, Observe(admitted, account, project, deployment, |db.slots|, None, CleanupConfirmed), account, pool, -1, 0)
            else
              held.holds[|db.holds|].reservation.Some?
              && UseMoves(d, Observe(admitted, account, project, deployment, held.holds[|db.holds|].reservation.value, Some(|db.holds|), RolloutReleased),
                          account, pool, 0, -1)
  {
    var h := |db.holds|;
    HoldEffects(db, now, account, project, deployment, ttl, true);
    HoldIsAdmitted(db, now, account, project, deployment, ttl, later);
    HoldKeeps(db, now, account, project, deployment, ttl, true);
    var held := CreateHold(db, now, account, project, deployment, ttl, true);
    var pool := db.entitlements[account].pool;
    assert held.entitlements == db.entitlements && held.slots == db.slots;
    if held.holds[h].reservation.Some? {
      var slot := held.holds[h].reservation.value;
      assert slot < |db.slots| ==> Homed(db.entitlements, db.slots[slot].account, db.slots[slot].pool);
    }
    hide CreateHold, MayAdmit, Admit;
    AdmitMovesNothing(held, later, account, project, deployment, h);
    AdmitEffects(held, later, account, project, deployment, h, true, true);
    var admitted := Admit(held, later, account, project, deployment, h, true, true);
    var d := Expire(held, later, Some((account, pool)));
    hide Expire, UseMoves, LiveProjectSlot, Inv;
    if held.holds[h].kind == Initial {
      SlotGivenBack(d, admitted, account, project, deployment, pool, h, db.slots);
    } else {
      RolloutGivenBack(d, admitted, account, project, deployment, pool, h, held.holds[h].reservation.value);
    }
  }

  lemma SlotGivenBack(d: Ledger, admitted: Ledger, account: nat, project: nat, deployment: nat, pool: nat, hold: nat, slots: seq<Slot>)
    requires UseMoves(d, admitted, account, pool, 0, 0)
    requires admitted.slots == slots + [Slot(account, project, deployment, pool, hold, SlotReserved)]
    ensures UseMoves(d, Observe(admitted, account, project, deployment, |slots|, None, CleanupConfirmed), account, pool, -1, 0)
  {
    assert admitted.slots[|slots|] == Slot(account, project, deployment, pool, hold, SlotReserved);
    ObserveEffects(admitted, account, project, deployment, |slots|, None, CleanupConfirmed);
    hide Observe, AccountUse, PoolUse, RolloutUse;
  }

  lemma RolloutGivenBack(d: Ledger, admitted: Ledger, account: nat, project: nat, deployment: nat, pool: nat, hold: nat, slot: nat)
    requires UseMoves(d, admitted, account, pool, 0, 0)
    requires slot < |admitted.slots| && admitted.slots[slot].account == account && admitted.slots[slot].project == project
    requires admitted.slots[slot].pool == pool && admitted.slots[slot].state != SlotReleased && hold < |admitted.holds|
    requires admitted.holds[hold] == Hold(account, project, deployment, pool, Rollout, Consumed, admitted.holds[hold].expires, Some(slot))
    ensures UseMoves(d, Observe(admitted, account, project, deployment, slot, Some(hold), RolloutReleased), account, pool, 0, -1)
  {
    ObserveEffects(admitted, account, project, deployment, slot, Some(hold), RolloutReleased);
    hide Observe, AccountUse, PoolUse, RolloutUse;
  }

  // ----- the meter -----

  /** A recorded debit raises the net use of its account alone, and its credit brings every account back to
      where it was; neither is recorded twice. */
  lemma DebitThenCredit(db: Ledger, now: int, account: nat, attempt: nat, seconds: int, a: nat)
    requires RecordDebit(db, now, account, attempt, seconds) != db && CreditsOk(db.events)
    ensures var debited := RecordDebit(db, now, account, attempt, seconds);
            var credited := RecordCredit(debited, account, attempt, |db.events|, seconds);
            && Net(debited.events, a) == Net(db.events, a) + (if a == account then seconds else 0) && seconds > 0
            && Net(credited.events, a) == Net(db.events, a)
            && RecordDebit(debited, now, account, attempt, seconds) == debited
            && RecordCredit(credited, account, attempt, |db.events|, seconds) == credited
  {
    var n := |db.events|;
    DebitRaises(db, now, account, attempt, seconds, a);
    hide Net, RecordDebit, RecordCredit, Credited, Debited;
    var debited := RecordDebit(db, now, account, attempt, seconds);
    CreditLowers(debited, account, attempt, n, seconds, a);
  }

  lemma DebitRaises(db: Ledger, now: int, account: nat, attempt: nat, seconds: int, a: nat)
    requires RecordDebit(db, now, account, attempt, seconds) != db && CreditsOk(db.events)
    ensures seconds > 0 && account in db.entitlements
    ensures var debited := RecordDebit(db, now, account, attempt, seconds);
            && debited == db.(events := db.events + [Debit(account, attempt, seconds)])
            && Net(debited.events, a) == Net(db.events, a) + (if a == account then seconds else 0)
            && !Credited(debited.events, |db.events|) && RecordDebit(debited, now, account, attempt, seconds) == debited
  {
    hide Net;
    var debited := RecordDebit(db, now, account, attempt, seconds);
    NetAppend(db.events, Debit(account, attempt, seconds), a);
    assert debited.events[|db.events|] == Debit(account, attempt, seconds);
    forall i | 0 <= i < |debited.events| && debited.events[i].Credit?
      ensures debited.events[i].debit != |db.events|
    {
      assert CreditOk(db.events, i);
    }
  }

  lemma CreditLowers(db: Ledger, account: nat, attempt: nat, debit: nat, seconds: int, a: nat)
    requires seconds > 0 && account in db.entitlements && debit < |db.events| && !Credited(db.events, debit)
    requires db.events[debit] == Debit(account, attempt, seconds)
    ensures var credited := RecordCredit(db, account, attempt, debit, seconds);
            && Net(credited.events, a) == Net(db.events, a) - (if a == account then seconds else 0)
            && RecordCredit(credited, account, attempt, debit, seconds) == credited
  {
    hide Net;
    var credited := RecordCredit(db, account, attempt, debit, seconds);
    NetAppend(db.events, Credit(account, debit, seconds), a);
    assert credited.events[|db.events|] == Credit(account, debit, seconds);
    assert Credited(credited.events, debit);
  }
}
