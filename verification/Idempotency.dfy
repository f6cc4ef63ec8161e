/** The idempotency protocol of crates/control/src/intent.rs around every mutating handler: take an
    advisory lock derived from actor, operation and key, look the key up, run the handler, store its
    response in the same transaction. The lock number is a hash cut to 64 bits over a concatenation
    without separators, so different keys may share one; `lockOf` is any function. */
module Idempotency {
  import opened Common

  datatype Key = Key(actor: nat, operation: string, key: string)

  datatype Row = Row(hash: nat, response: nat)

  /** A transaction holds its lock from Locked on; Missed means its lookup found no row. */
  datatype Phase = Locked | Missed

  datatype Tx = Tx(key: Key, hash: nat, phase: Phase)

  datatype Answer = Replayed(response: nat) | PayloadChanged | Executed(response: nat)

  datatype Reply = Reply(key: Key, hash: nat, answer: Answer)

  /** `effects` are the committed handler executions, `replies` what callers were told. */
  datatype Table = Table(rows: map<Key, Row>, open: map<nat, Tx>, effects: seq<Reply>, replies: seq<Reply>)

  const EMPTY := Table(map[], map[], [], [])

  predicate LockHeld(d: Table, lockOf: Key -> int, lock: int) {
    exists t :: t in d.open && lockOf(d.open[t].key) == lock
  }

  /** acquire_operation_lock: a held lock leaves the caller waiting. */
  function Acquire(d: Table, lockOf: Key -> int, t: nat, key: Key, hash: nat): Table {
    if t in d.open || LockHeld(d, lockOf, lockOf(key)) then d else d.(open := d.open[t := Tx(key, hash, Locked)])
  }

  datatype Lookup = Miss | Changed | Match(response: nat)

  function Replay(rows: map<Key, Row>, key: Key, hash: nat): Lookup {
    if key !in rows then Miss else if rows[key].hash != hash then Changed else Match(rows[key].response)
  }

  function Close(d: Table, t: nat, r: Reply): Table {
    d.(open := d.open - {t}, replies := d.replies + [r])
  }

  function Look(d: Table, t: nat): Table {
    if t !in d.open || !d.open[t].phase.Locked? then d
    else
      var x := d.open[t];
      match Replay(d.rows, x.key, x.hash)
      case Miss => d.(open := d.open[t := x.(phase := Missed)])
      case Changed => Close(d, t, Reply(x.key, x.hash, PayloadChanged))
      case Match(response) => Close(d, t, Reply(x.key, x.hash, Replayed(response)))
  }

  /** The handler's effects, store_replay and the commit. The primary key would refuse a second row. */
  function Commit(d: Table, t: nat, response: nat): Table {
    if t !in d.open || !d.open[t].phase.Missed? then d
    else
      var x := d.open[t];
      if x.key in d.rows then d.(open := d.open - {t})
      else
        var r := Reply(x.key, x.hash, Executed(response));
        Close(d.(rows := d.rows[x.key := Row(x.hash, response)], effects := d.effects + [r]), t, r)
  }

  /** A handler error or a lost connection rolls back and frees the lock. */
  function Abort(d: Table, t: nat): Table {
    d.(open := d.open - {t})
  }

  datatype Step = DoAcquire(t: nat, key: Key, hash: nat) | DoLook(t: nat) | DoCommit(t: nat, response: nat) | DoAbort(t: nat)

  function Apply(d: Table, lockOf: Key -> int, s: Step): Table {
    match s
    case DoAcquire(t, key, hash) => Acquire(d, lockOf, t, key, hash)
    case DoLook(t) => Look(d, t)
    case DoCommit(t, response) => Commit(d, t, response)
    case DoAbort(t) => Abort(d, t)
  }

  function ApplyAll(d: Table, lockOf: Key -> int, steps: seq<Step>): Table
    decreases |steps|
  {
    if steps == [] then d else ApplyAll(Apply(d, lockOf, steps[0]), lockOf, steps[1..])
  }

  // ----- the invariant -----

  ghost predicate LocksApart(open: map<nat, Tx>, lockOf: Key -> int) {
    forall t, u :: t in open && u in open && t != u ==> lockOf(open[t].key) != lockOf(open[u].key)
  }

  ghost predicate MissesHold(rows: map<Key, Row>, open: map<nat, Tx>) {
    forall t :: t in open && open[t].phase.Missed? ==> open[t].key !in rows
  }

  predicate EffectOk(rows: map<Key, Row>, e: Reply) {
    e.answer.Executed? && e.key in rows && rows[e.key] == Row(e.hash, e.answer.response)
  }

  predicate Caused(effects: seq<Reply>, key: Key) {
    exists i :: 0 <= i < |effects| && effects[i].key == key
  }

  predicate ReplyOk(rows: map<Key, Row>, r: Reply) {
    r.key in rows &&
    match r.answer
    case Replayed(response) => rows[r.key] == Row(r.hash, response)
    case Executed(response) => rows[r.key] == Row(r.hash, response)
    case PayloadChanged => rows[r.key].hash != r.hash
  }

  ghost predicate Inv(d: Table, lockOf: Key -> int) {
    && LocksApart(d.open, lockOf) && MissesHold(d.rows, d.open)
    && (forall i :: 0 <= i < |d.effects| ==> EffectOk(d.rows, d.effects[i]))
    && (forall i, k :: 0 <= i < k < |d.effects| ==> d.effects[i].key != d.effects[k].key)
    && (forall key :: key in d.rows ==> Caused(d.effects, key))
    && (forall i :: 0 <= i < |d.replies| ==> ReplyOk(d.rows, d.replies[i]))
  }

  lemma CommitKeeps(d: Table, lockOf: Key -> int, t: nat, response: nat)
    requires Inv(d, lockOf)
    ensures Inv(Commit(d, t, response), lockOf)
  {
    if t in d.open && d.open[t].phase.Missed? {
      var out := Commit(d, t, response);
      var key := d.open[t].key;
      forall u | u in out.open && out.open[u].phase.Missed?
        ensures out.open[u].key !in out.rows
      {
        assert u in d.open && lockOf(d.open[u].key) != lockOf(key);
      }
      forall i | 0 <= i < |out.effects|
        ensures EffectOk(out.rows, out.effects[i])
      {
        assert i < |d.effects| ==> EffectOk(d.rows, d.effects[i]);
      }
      forall k | k in out.rows
        ensures Caused(out.effects, k)
      {
        if k == key {
          assert out.effects[|d.effects|].key == k;
        } else {
          assert Caused(d.effects, k);
          var i :| 0 <= i < |d.effects| && d.effects[i].key == k;
          assert out.effects[i].key == k;
        }
      }
      forall i | 0 <= i < |out.replies|
        ensures ReplyOk(out.rows, out.replies[i])
      {
        assert i < |d.replies| ==> ReplyOk(d.rows, d.replies[i]);
      }
    }
  }

  lemma StepKeeps(d: Table, lockOf: Key -> int, s: Step)
    requires Inv(d, lockOf)
    ensures Inv(Apply(d, lockOf, s), lockOf)
  {
    match s
    case DoCommit(t, response) => CommitKeeps(d, lockOf, t, response);
    case DoAcquire(t, key, hash) =>
    case DoLook(t) =>
    case DoAbort(t) =>
  }

  lemma {:induction false} RunKeeps(d: Table, lockOf: Key -> int, steps: seq<Step>)
    requires Inv(d, lockOf)
    ensures Inv(ApplyAll(d, lockOf, steps), lockOf)
    decreases |steps|
  {
    if steps != [] {
      StepKeeps(d, lockOf, steps[0]);
      RunKeeps(Apply(d, lockOf, steps[0]), lockOf, steps[1..]);
    }
  }

  // ----- main results -----

  /** However transactions interleave and whatever keys share a lock: a key's handler takes effect at
      most once, and every caller is told the outcome of that one execution, or that its payload
      differs from the one executed. */
  lemma ExactlyOnce(lockOf: Key -> int, steps: seq<Step>)
    ensures var d := ApplyAll(EMPTY, lockOf, steps);
            && (forall i, k :: 0 <= i < k < |d.effects| ==> d.effects[i].key != d.effects[k].key)
            && (forall r :: r in d.replies ==>
                  exists i :: 0 <= i < |d.effects| && d.effects[i].key == r.key
                    && match r.answer
                       case PayloadChanged => d.effects[i].hash != r.hash
                       case Replayed(response) => d.effects[i] == Reply(r.key, r.hash, Executed(response))
                       case Executed(response) => d.effects[i] == r)
  {
    RunKeeps(EMPTY, lockOf, steps);
    var d := ApplyAll(EMPTY, lockOf, steps);
    forall r | r in d.replies
      ensures exists i :: 0 <= i < |d.effects| && d.effects[i].key == r.key
                && match r.answer
                   case PayloadChanged => d.effects[i].hash != r.hash
                   case Replayed(response) => d.effects[i] == Reply(r.key, r.hash, Executed(response))
                   case Executed(response) => d.effects[i] == r
    {
      assert ReplyOk(d.rows, r);
      assert Caused(d.effects, r.key);
      var i :| 0 <= i < |d.effects| && d.effects[i].key == r.key;
      assert EffectOk(d.rows, d.effects[i]);
    }
  }

  /** store_replay never meets a row that is already there: the lock, not the primary key, decides. */
  lemma StoreNeverConflicts(lockOf: Key -> int, steps: seq<Step>, t: nat)
    requires var d := ApplyAll(EMPTY, lockOf, steps); t in d.open && d.open[t].phase.Missed?
    ensures var d := ApplyAll(EMPTY, lockOf, steps); d.open[t].key !in d.rows
  {
    RunKeeps(EMPTY, lockOf, steps);
  }

  /** Rows and effects are never lost or rewritten. */
  lemma {:induction false} RowsStay(d: Table, lockOf: Key -> int, steps: seq<Step>)
    ensures var out := ApplyAll(d, lockOf, steps);
            && (forall k :: k in d.rows ==> k in out.rows && out.rows[k] == d.rows[k])
            && d.effects <= out.effects && d.replies <= out.replies
    decreases |steps|
  {
    if steps != [] {
      RowsStay(Apply(d, lockOf, steps[0]), lockOf, steps[1..]);
    }
  }

  // ----- the three calls on one table -----

  class Records {
    var rows: map<Key, Row>
    var open: map<nat, Tx>
    ghost var effects: seq<Reply>
    ghost var replies: seq<Reply>

    ghost function View(): Table
      reads this
    {
      Table(rows, open, effects, replies)
    }

    constructor ()
      ensures View() == EMPTY
    {
      rows, open, effects, replies := map[], map[], [], [];
    }

    method AcquireOperationLock(lockOf: Key -> int, t: nat, key: Key, hash: nat) returns (locked: bool)
      modifies this`open
      ensures View() == Acquire(old(View()), lockOf, t, key, hash)
      ensures locked ==> t in open && open[t] == Tx(key, hash, Locked) && !old(LockHeld(View(), lockOf, lockOf(key)))
    {
      locked := t !in open;
      var others := open.Keys;
      while others != {}
        invariant others <= open.Keys
        invariant locked <==> t !in open && forall u :: u in open && u !in others ==> lockOf(open[u].key) != lockOf(key)
        decreases |others|
      {
        var u :| u in others;
        if lockOf(open[u].key) == lockOf(key) {
          locked := false;
        }
        others := others - {u};
      }
      if locked {
        open := open[t := Tx(key, hash, Locked)];
      }
    }

    method LookUp(t: nat) returns (found: Option<Lookup>)
      modifies this
      ensures View() == Look(old(View()), t)
      ensures found.Some? ==> old(t in open) && found.value == Replay(old(rows), old(open[t].key), old(open[t].hash))
    {
      if t !in open || !open[t].phase.Locked? {
        return None;
      }
      var x := open[t];
      found := Some(Replay(rows, x.key, x.hash));
      match found.value
      case Miss => open := open[t := x.(phase := Missed)];
      case Changed =>
        open := open - {t};
        replies := replies + [Reply(x.key, x.hash, PayloadChanged)];
      case Match(response) =>
        open := open - {t};
        replies := replies + [Reply(x.key, x.hash, Replayed(response))];
    }

    method StoreReplay(t: nat, response: nat) returns (stored: bool)
      modifies this
      ensures View() == Commit(old(View()), t, response)
      ensures stored ==> old(t in open) && old(open[t].key) in rows
    {
      if t !in open || !open[t].phase.Missed? {
        return false;
      }
      var x := open[t];
      open := open - {t};
      if x.key in rows {
        return false;
      }
      rows := rows[x.key := Row(x.hash, response)];
      effects := effects + [Reply(x.key, x.hash, Executed(response))];
      replies := replies + [Reply(x.key, x.hash, Executed(response))];
      stored := true;
    }
  }
}
