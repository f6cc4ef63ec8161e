/** The capacity admission allocator (crates/control/src/admission.rs): holds, slot
    reservations, rollout headroom, refund intents and the synthetic meter.

    Tables are sequences whose index is the row id, or maps; a handler is one transaction, and an
    error return that does not commit leaves the database as it was. Lookups in tables of other
    components (project revision, source proof, lifecycle) are parameters. */
module Admission {
  import opened Common
  import opened Counting
  import opened Meter

  datatype HoldKind = Initial | Rollout

  datatype HoldState = HoldActive | Consumed | HoldReleased | HoldExpired

  datatype Hold = Hold(account: nat, project: nat, deployment: nat, pool: nat, kind: HoldKind, state: HoldState,
                       expires: int, reservation: Option<nat>)

  datatype SlotState = SlotReserved | Retained | SlotReleased

  datatype Slot = Slot(account: nat, project: nat, deployment: nat, pool: nat, initialHold: nat, state: SlotState)

  datatype Pool = Pool(slots: nat, headroom: nat)

  datatype Entitlement = Entitlement(pool: nat, slots: nat, seconds: nat, starts: int, ends: int, live: bool)

  /** `refunds` is keyed by hold: the table has a unique hold_id. */
  datatype Ledger = Ledger(pools: map<nat, Pool>, entitlements: map<nat, Entitlement>, holds: seq<Hold>, slots: seq<Slot>,
                           refunds: set<nat>, events: seq<Event>)

  datatype Observation = ResourcesRetained | DeploymentHealthy | CleanupConfirmed | RolloutReleased

  // ----- use counters -----

  function InitialOf(account: nat): Hold -> bool {
    (h: Hold) => h.account == account && h.kind.Initial? && h.state.HoldActive?
  }

  function LiveSlotOf(account: nat): Slot -> bool {
    (s: Slot) => s.account == account && !s.state.SlotReleased?
  }

  function InitialIn(pool: nat): Hold -> bool {
    (h: Hold) => h.pool == pool && h.kind.Initial? && h.state.HoldActive?
  }

  function LiveSlotIn(pool: nat): Slot -> bool {
    (s: Slot) => s.pool == pool && !s.state.SlotReleased?
  }

  function RolloutIn(pool: nat): Hold -> bool {
    (h: Hold) => h.pool == pool && h.kind.Rollout? && h.state in {HoldActive, Consumed}
  }

  function AccountUse(holds: seq<Hold>, slots: seq<Slot>, account: nat): nat {
    Count(slots, LiveSlotOf(account)) + Count(holds, InitialOf(account))
  }

  function PoolUse(holds: seq<Hold>, slots: seq<Slot>, pool: nat): nat {
    Count(slots, LiveSlotIn(pool)) + Count(holds, InitialIn(pool))
  }

  function RolloutUse(holds: seq<Hold>, pool: nat): nat {
    Count(holds, RolloutIn(pool))
  }

  // ----- guards -----

  predicate Due(h: Hold, now: int) {
    h.state.HoldActive? && h.expires <= now
  }

  predicate InScope(h: Hold, scope: Option<(nat, nat)>) {
    scope.None? || h.account == scope.value.0 || h.pool == scope.value.1
  }

  function ExpireHold(h: Hold, now: int, scope: Option<(nat, nat)>): Hold {
    if Due(h, now) && InScope(h, scope) then h.(state := HoldExpired) else h
  }

  function ExpireAll(holds: seq<Hold>, now: int, scope: Option<(nat, nat)>): (out: seq<Hold>)
    ensures |out| == |holds| && forall i :: 0 <= i < |holds| ==> out[i] == ExpireHold(holds[i], now, scope)
  {
    seq(|holds|, i requires 0 <= i < |holds| => ExpireHold(holds[i], now, scope))
  }

  /** expire_holds_for_scope, and reconcile when there is no scope. */
  function Expire(db: Ledger, now: int, scope: Option<(nat, nat)>): Ledger {
    db.(holds := ExpireAll(db.holds, now, scope),
        refunds := db.refunds + (set i | 0 <= i < |db.holds| && Due(db.holds[i], now) && InScope(db.holds[i], scope) && db.holds[i].kind.Initial? :: i))
  }

  predicate EntitlementActive(e: Entitlement, now: int) {
    e.live && e.starts <= now < e.ends
  }

  /** lock_entitlement_and_pool, ensure_entitlement_active and ensure_build_allowance. */
  predicate MayAdmit(db: Ledger, now: int, account: nat) {
    && account in db.entitlements && db.entitlements[account].pool in db.pools
    && EntitlementActive(db.entitlements[account], now)
    && Net(db.events, account) < db.entitlements[account].seconds
  }

  predicate LiveSlotAt(slots: seq<Slot>, r: nat, account: nat, project: nat) {
    r < |slots| && slots[r].account == account && slots[r].project == project && !slots[r].state.SlotReleased?
  }

  function FindSlot(slots: seq<Slot>, account: nat, project: nat): (r: Option<nat>)
    ensures r.Some? ==> LiveSlotAt(slots, r.value, account, project)
    ensures r.None? ==> forall i: nat :: !LiveSlotAt(slots, i, account, project)
  {
    if slots == [] then None
    else
      var n := |slots| - 1;
      var earlier := FindSlot(slots[..n], account, project);
      assert forall i: nat :: i < n ==> slots[..n][i] == slots[i];
      if earlier.Some? then earlier
      else if LiveSlotAt(slots, n, account, project) then Some(n)
      else
        assert forall i: nat :: LiveSlotAt(slots, i, account, project) && i != n ==> LiveSlotAt(slots[..n], i, account, project);
        None
  }

  predicate HoldConflict(holds: seq<Hold>, project: nat, deployment: nat, kind: HoldKind) {
    exists i :: 0 <= i < |holds| && holds[i].project == project && holds[i].deployment == deployment && holds[i].kind == kind
                && (holds[i].state.HoldActive? || (kind.Rollout? && holds[i].state.Consumed?))
  }

  predicate CapacityAvailable(db: Ledger, account: nat, kind: HoldKind)
    requires account in db.entitlements && db.entitlements[account].pool in db.pools
  {
    var e := db.entitlements[account];
    if kind.Initial? then
      AccountUse(db.holds, db.slots, account) < e.slots && PoolUse(db.holds, db.slots, e.pool) < db.pools[e.pool].slots
    else RolloutUse(db.holds, e.pool) < db.pools[e.pool].headroom
  }

  // ----- handlers -----

  function CreateHold(db: Ledger, now: int, account: nat, project: nat, deployment: nat, ttl: int, admissible: bool): Ledger {
    if !(5 <= ttl <= 300) || !MayAdmit(db, now, account) || !admissible then db
    else
      var e := db.entitlements[account];
      var d := Expire(db, now, Some((account, e.pool)));
      var slot := FindSlot(d.slots, account, project);
      var kind := if slot.Some? then Rollout else Initial;
      if HoldConflict(d.holds, project, deployment, kind) || !CapacityAvailable(d, account, kind) then db
      else d.(holds := d.holds + [Hold(account, project, deployment, e.pool, kind, HoldActive, now + ttl, slot)])
  }

  /** slot_reservations_one_active_project_idx refuses a second live slot of a project. */
  predicate ProjectTaken(slots: seq<Slot>, project: nat) {
    exists r :: 0 <= r < |slots| && slots[r].project == project && !slots[r].state.SlotReleased?
  }

  function Admit(db: Ledger, now: int, account: nat, project: nat, deployment: nat, hold: nat, current: bool, admissible: bool): Ledger {
    if !MayAdmit(db, now, account) || !current then db
    else
      var e := db.entitlements[account];
      var d := Expire(db, now, Some((account, e.pool)));
      if hold >= |d.holds| || d.holds[hold].account != account || d.holds[hold].project != project || d.holds[hold].deployment != deployment then db
      else if !d.holds[hold].state.HoldActive? || d.holds[hold].expires <= now then d
      else if !admissible then db
      else
        var consumed := d.(holds := d.holds[hold := d.holds[hold].(state := Consumed)]);
        if d.holds[hold].kind.Initial? then
          if ProjectTaken(d.slots, project) then db
          else consumed.(slots := d.slots + [Slot(account, project, deployment, e.pool, hold, SlotReserved)])
        else if FindSlot(d.slots, account, project).None? then db
        else consumed
  }

  function PutCapacity(db: Ledger, pool: nat, slots: nat, headroom: nat): Ledger {
    if PoolUse(db.holds, db.slots, pool) > slots || RolloutUse(db.holds, pool) > headroom then db
    else db.(pools := db.pools[pool := Pool(slots, headroom)])
  }

  function PutEntitlement(db: Ledger, account: nat, e: Entitlement): Ledger {
    if e.ends <= e.starts || e.pool !in db.pools
       || AccountUse(db.holds, db.slots, account) > e.slots || Net(db.events, account) > e.seconds
       || (account in db.entitlements &&
             (db.entitlements[account].pool != e.pool || db.entitlements[account].starts != e.starts || db.entitlements[account].ends != e.ends))
    then db
    else db.(entitlements := db.entitlements[account := e])
  }

  predicate ObservationLinked(db: Ledger, account: nat, project: nat, deployment: nat, slot: nat, rollout: Option<nat>) {
    && slot < |db.slots| && db.slots[slot].account == account && db.slots[slot].project == project
    && match rollout
       case Some(h) =>
         && h < |db.holds| && db.holds[h].account == account && db.holds[h].project == project && db.holds[h].deployment == deployment
         && db.holds[h].pool == db.slots[slot].pool && db.holds[h].reservation == Some(slot)
         && db.holds[h].kind.Rollout? && db.holds[h].state in {Consumed, HoldReleased}
       case None => deployment == db.slots[slot].deployment
  }

  function Observe(db: Ledger, account: nat, project: nat, deployment: nat, slot: nat, rollout: Option<nat>, outcome: Observation): Ledger {
    if !ObservationLinked(db, account, project, deployment, slot, rollout) then db
    else match outcome
      case ResourcesRetained =>
        if db.slots[slot].state.SlotReleased? then db else db.(slots := db.slots[slot := db.slots[slot].(state := Retained)])
      case DeploymentHealthy => db
      case CleanupConfirmed =>
        if db.slots[slot].state.SlotReleased? then db else db.(slots := db.slots[slot := db.slots[slot].(state := SlotReleased)])
      case RolloutReleased =>
        if rollout.None? || !db.holds[rollout.value].state.Consumed? then db
        else db.(holds := db.holds[rollout.value := db.holds[rollout.value].(state := HoldReleased)])
  }

  predicate Debited(events: seq<Event>, account: nat, attempt: nat) {
    exists i :: 0 <= i < |events| && events[i].Debit? && events[i].account == account && events[i].attempt == attempt
  }

  function RecordDebit(db: Ledger, now: int, account: nat, attempt: nat, seconds: int): Ledger {
    if seconds <= 0 || account !in db.entitlements || !EntitlementActive(db.entitlements[account], now)
       || Debited(db.events, account, attempt) || Net(db.events, account) + seconds > db.entitlements[account].seconds then db
    else db.(events := db.events + [Debit(account, attempt, seconds)])
  }

  function RecordCredit(db: Ledger, account: nat, attempt: nat, debit: nat, seconds: int): Ledger {
    if account !in db.entitlements || debit >= |db.events| || Credited(db.events, debit) || seconds <= 0
       || db.events[debit] != Debit(account, attempt, seconds) then db
    else db.(events := db.events + [Credit(account, debit, seconds)])
  }

  datatype Step =
    | DoHold(now: int, account: nat, project: nat, deployment: nat, ttl: int, admissible: bool)
    | DoAdmit(now: int, account: nat, project: nat, deployment: nat, hold: nat, current: bool, admissible: bool)
    | DoCapacity(pool: nat, slots: nat, headroom: nat)
    | DoEntitlement(account: nat, entitlement: Entitlement)
    | DoObserve(account: nat, project: nat, deployment: nat, slot: nat, rollout: Option<nat>, outcome: Observation)
    | DoDebit(now: int, account: nat, attempt: nat, seconds: int)
    | DoCredit(account: nat, attempt: nat, debit: nat, seconds: int)
    | DoReconcile(now: int)

  function Apply(db: Ledger, s: Step): Ledger {
    match s
    case DoHold(now, account, project, deployment, ttl, admissible) => CreateHold(db, now, account, project, deployment, ttl, admissible)
    case DoAdmit(now, account, project, deployment, hold, current, admissible) => Admit(db, now, account, project, deployment, hold, current, admissible)
    case DoCapacity(pool, slots, headroom) => PutCapacity(db, pool, slots, headroom)
    case DoEntitlement(account, entitlement) => PutEntitlement(db, account, entitlement)
    case DoObserve(account, project, deployment, slot, rollout, outcome) => Observe(db, account, project, deployment, slot, rollout, outcome)
    case DoDebit(now, account, attempt, seconds) => RecordDebit(db, now, account, attempt, seconds)
    case DoCredit(account, attempt, debit, seconds) => RecordCredit(db, account, attempt, debit, seconds)
    case DoReconcile(now) => Expire(db, now, None)
  }

  function ApplyAll(db: Ledger, steps: seq<Step>): Ledger
    decreases |steps|
  {
    if steps == [] then db else ApplyAll(Apply(db, steps[0]), steps[1..])
  }

  const EMPTY_LEDGER: Ledger := Ledger(map[], map[], [], [], {}, [])
}
