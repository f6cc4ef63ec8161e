/** The handlers of admission.rs row by row over their tables, each proved to commit what its
    specification in Admission says. */
module AdmissionStore {
  import opened Common
  import opened Counting
  import opened Meter
  import opened Admission
  import AdmissionEffects
  import AdmissionSafety

  function Expiring(now: int, scope: Option<(nat, nat)>): Hold -> bool {
    (h: Hold) => Due(h, now) && InScope(h, scope)
  }

  /** The statement that expires the due holds in scope and inserts a refund intent for each
      initial one, here taken hold by hold. */
  method ExpireRows(holds: seq<Hold>, now: int, scope: Option<(nat, nat)>) returns (out: seq<Hold>, intents: set<nat>, expired: nat)
    ensures out == ExpireAll(holds, now, scope)
    ensures intents == set i | 0 <= i < |holds| && Due(holds[i], now) && InScope(holds[i], scope) && holds[i].kind.Initial? :: i
    ensures expired == Count(holds, Expiring(now, scope))
  {
    out, intents, expired := [], {}, 0;
    var i := 0;
    while i < |holds|
      invariant 0 <= i <= |holds| && |out| == i
      invariant forall k :: 0 <= k < i ==> out[k] == ExpireHold(holds[k], now, scope)
      invariant forall k: nat :: k in intents <==> k < i && Due(holds[k], now) && InScope(holds[k], scope) && holds[k].kind.Initial?
      invariant expired == Count(holds[..i], Expiring(now, scope))
    {
      CountAppend(holds[..i], holds[i], Expiring(now, scope));
      assert holds[..i + 1] == holds[..i] + [holds[i]];
      if Due(holds[i], now) && InScope(holds[i], scope) {
        out := out + [holds[i].(state := HoldExpired)];
        expired := expired + 1;
        if holds[i].kind.Initial? {
          intents := intents + {i};
        }
      } else {
        out := out + [holds[i]];
      }
      i := i + 1;
    }
    assert holds[..i] == holds;
    assert out == ExpireAll(holds, now, scope);
  }

  class Store {
    var pools: map<nat, Pool>
    var entitlements: map<nat, Entitlement>
    var holds: seq<Hold>
    var slots: seq<Slot>
    var refunds: set<nat>
    var events: seq<Event>

    constructor ()
      ensures View() == EMPTY_LEDGER
    {
      pools, entitlements, holds, slots, refunds, events := map[], map[], [], [], {}, [];
    }

    function View(): Ledger
      reads this
    {
      Ledger(pools, entitlements, holds, slots, refunds, events)
    }

    method ExpireHolds(now: int, scope: Option<(nat, nat)>) returns (expired: nat)
      modifies this`holds, this`refunds
      ensures View() == Expire(old(View()), now, scope)
      ensures expired == Count(old(holds), Expiring(now, scope))
      ensures old(AdmissionSafety.Inv(View())) ==> AdmissionSafety.Inv(View())
    {
      ghost var before := View();
      hide AdmissionSafety.Inv;
      if AdmissionSafety.Inv(before) {
        AdmissionSafety.ExpireKeeps(before, now, scope);
      }
      var out, intents;
      out, intents, expired := ExpireRows(holds, now, scope);
      holds := out;
      refunds := refunds + intents;
    }

    method PlaceHold(now: int, account: nat, project: nat, deployment: nat, ttl: int, admissible: bool) returns (hold: Option<nat>)
      modifies this
      ensures View() == CreateHold(old(View()), now, account, project, deployment, ttl, admissible)
      ensures hold.Some? ==> |holds| == old(|holds|) + 1 && hold.value == old(|holds|) && holds[hold.value].state.HoldActive?
      ensures hold.None? ==> View() == old(View())
      ensures old(AdmissionSafety.Inv(View())) ==> AdmissionSafety.Inv(View())
    {
      ghost var before := View();
      hide AdmissionSafety.Inv;
      if AdmissionSafety.Inv(before) {
        AdmissionSafety.HoldKeeps(before, now, account, project, deployment, ttl, admissible);
      }
      if ttl < 5 || ttl > 300 || !MayAdmit(View(), now, account) {
        return None;
      }
      var rollback := (holds, refunds);
      var e := entitlements[account];
      var expired := ExpireHolds(now, Some((account, e.pool)));
      if !admissible {
        holds, refunds := rollback.0, rollback.1;
        return None;
      }
      var slot := FindSlot(slots, account, project);
      var kind := if slot.Some? then Rollout else Initial;
      if HoldConflict(holds, project, deployment, kind) || !CapacityAvailable(View(), account, kind) {
        holds, refunds := rollback.0, rollback.1;
        return None;
      }
      hold := Some(|holds|);
      holds := holds + [Hold(account, project, deployment, e.pool, kind, HoldActive, now + ttl, slot)];
    }

    method AdmitHold(now: int, account: nat, project: nat, deployment: nat, hold: nat, current: bool, admissible: bool)
        returns (admitted: bool)
      modifies this
      ensures View() == Admit(old(View()), now, account, project, deployment, hold, current, admissible)
      ensures admitted ==> hold < |holds| && holds[hold].state.Consumed? && old(hold < |holds| && holds[hold].state.HoldActive?)
      ensures !admitted ==> slots == old(slots)
      ensures !admitted && View() != old(View()) ==>
                account in entitlements && View() == Expire(old(View()), now, Some((account, entitlements[account].pool)))
      ensures old(AdmissionSafety.Inv(View())) ==> AdmissionSafety.Inv(View())
    {
      ghost var before := View();
      hide AdmissionSafety.Inv;
      if AdmissionSafety.Inv(before) {
        AdmissionSafety.AdmitKeeps(before, now, account, project, deployment, hold, current, admissible);
      }
      if !MayAdmit(View(), now, account) || !current {
        return false;
      }
      var rollback := (holds, refunds);
      var e := entitlements[account];
      var expired := ExpireHolds(now, Some((account, e.pool)));
      if hold >= |holds| || holds[hold].account != account || holds[hold].project != project || holds[hold].deployment != deployment {
        holds, refunds := rollback.0, rollback.1;
        return false;
      }
      if !holds[hold].state.HoldActive? || holds[hold].expires <= now {
        return false;
      }
      if !admissible {
        holds, refunds := rollback.0, rollback.1;
        return false;
      }
      var kind := holds[hold].kind;
      holds := holds[hold := holds[hold].(state := Consumed)];
      if kind.Initial? {
        if ProjectTaken(slots, project) {
          holds, refunds := rollback.0, rollback.1;
          return false;
        }
        slots := slots + [Slot(account, project, deployment, e.pool, hold, SlotReserved)];
      } else if FindSlot(slots, account, project).None? {
        holds, refunds := rollback.0, rollback.1;
        return false;
      }
      admitted := true;
    }

    method SetCapacity(pool: nat, slotLimit: nat, headroom: nat) returns (ok: bool)
      modifies this`pools
      ensures View() == PutCapacity(old(View()), pool, slotLimit, headroom)
      ensures ok ==> pool in pools && pools[pool] == Pool(slotLimit, headroom)
      ensures !ok ==> View() == old(View())
      ensures old(AdmissionSafety.Inv(View())) ==> AdmissionSafety.Inv(View())
    {
      ghost var before := View();
      hide AdmissionSafety.Inv;
      if AdmissionSafety.Inv(before) {
        AdmissionSafety.CapacityKeeps(before, pool, slotLimit, headroom);
      }
      if PoolUse(holds, slots, pool) > slotLimit || RolloutUse(holds, pool) > headroom {
        return false;
      }
      pools := pools[pool := Pool(slotLimit, headroom)];
      ok := true;
    }

    method SetEntitlement(account: nat, e: Entitlement) returns (ok: bool)
      modifies this`entitlements
      ensures View() == PutEntitlement(old(View()), account, e)
      ensures ok ==> account in entitlements && entitlements[account] == e
      ensures !ok ==> View() == old(View())
      ensures old(AdmissionSafety.Inv(View())) ==> AdmissionSafety.Inv(View())
    {
      ghost var before := View();
      hide AdmissionSafety.Inv;
      if AdmissionSafety.Inv(before) {
        AdmissionSafety.EntitlementKeeps(before, account, e);
      }
      if e.ends <= e.starts || e.pool !in pools {
        return false;
      }
      if AccountUse(holds, slots, account) > e.slots || Net(events, account) > e.seconds {
        return false;
      }
      if account in entitlements {
        var prior := entitlements[account];
        if prior.pool != e.pool || prior.starts != e.starts || prior.ends != e.ends {
          return false;
        }
      }
      entitlements := entitlements[account := e];
      ok := true;
    }

    method Debit(now: int, account: nat, attempt: nat, seconds: int) returns (event: Option<nat>)
      modifies this`events
      ensures View() == RecordDebit(old(View()), now, account, attempt, seconds)
      ensures event.Some? ==> event.value == old(|events|) && |events| == old(|events|) + 1
      ensures event.None? ==> View() == old(View())
      ensures old(AdmissionSafety.Inv(View())) ==> AdmissionSafety.Inv(View())
    {
      ghost var before := View();
      hide AdmissionSafety.Inv;
      if AdmissionSafety.Inv(before) {
        AdmissionSafety.DebitKeeps(before, now, account, attempt, seconds);
      }
      if seconds <= 0 || account !in entitlements || !EntitlementActive(entitlements[account], now) {
        return None;
      }
      if Debited(events, account, attempt) || Net(events, account) + seconds > entitlements[account].seconds {
        return None;
      }
      event := Some(|events|);
      events := events + [Event.Debit(account, attempt, seconds)];
    }

    method Credit(account: nat, attempt: nat, debit: nat, seconds: int) returns (event: Option<nat>)
      modifies this`events
      ensures View() == RecordCredit(old(View()), account, attempt, debit, seconds)
      ensures event.Some? ==> event.value == old(|events|) && |events| == old(|events|) + 1
      ensures event.None? ==> View() == old(View())
      ensures old(AdmissionSafety.Inv(View())) ==> AdmissionSafety.Inv(View())
    {
      ghost var before := View();
      hide AdmissionSafety.Inv;
      if AdmissionSafety.Inv(before) {
        AdmissionSafety.CreditKeeps(before, account, attempt, debit, seconds);
      }
      if seconds <= 0 || account !in entitlements || debit >= |events| {
        return None;
      }
      if events[debit] != Event.Debit(account, attempt, seconds) || Credited(events, debit) {
        return None;
      }
      event := Some(|events|);
      events := events + [Event.Credit(account, debit, seconds)];
    }

    method ObserveResources(account: nat, project: nat, deployment: nat, slot: nat, rollout: Option<nat>, outcome: Observation)
      modifies this
      ensures View() == Observe(old(View()), account, project, deployment, slot, rollout, outcome)
      ensures old(ObservationLinked(View(), account, project, deployment, slot, rollout) && !slots[slot].state.SlotReleased?) ==>
                AdmissionEffects.Observed(old(View()), View(), slot, rollout, outcome)
      ensures old(AdmissionSafety.Inv(View())) ==> AdmissionSafety.Inv(View())
    {
      ghost var before := View();
      hide AdmissionSafety.Inv;
      hide AdmissionEffects.Observed;
      if ObservationLinked(before, account, project, deployment, slot, rollout) && !before.slots[slot].state.SlotReleased? {
        AdmissionEffects.ObserveEffects(before, account, project, deployment, slot, rollout, outcome);
      }
      if AdmissionSafety.Inv(before) {
        AdmissionSafety.ObserveKeeps(before, account, project, deployment, slot, rollout, outcome);
      }
      if !ObservationLinked(View(), account, project, deployment, slot, rollout) {
        return;
      }
      match outcome
      case ResourcesRetained =>
        if !slots[slot].state.SlotReleased? {
          slots := slots[slot := slots[slot].(state := Retained)];
        }
      case DeploymentHealthy =>
      case CleanupConfirmed =>
        if !slots[slot].state.SlotReleased? {
          slots := slots[slot := slots[slot].(state := SlotReleased)];
        }
      case RolloutReleased =>
        if rollout.Some? && holds[rollout.value].state.Consumed? {
          holds := holds[rollout.value := holds[rollout.value].(state := HoldReleased)];
        }
    }
  }
}
