/** The append-only build usage events shared by the build queue and admission: debits, and
    credits that each undo one debit. */
module Meter {
  datatype Event = Debit(account: nat, attempt: nat, seconds: nat) | Credit(account: nat, debit: nat, seconds: nat)

  function Signed(e: Event, account: nat): int {
    if e.account != account then 0 else if e.Debit? then e.seconds as int else -(e.seconds as int)
  }

  /** Debits less credits. */
  function Net(events: seq<Event>, account: nat): int {
    if events == [] then 0 else Net(events[..|events| - 1], account) + Signed(events[|events| - 1], account)
  }

  predicate Credited(events: seq<Event>, debit: nat) {
    exists i :: 0 <= i < |events| && events[i].Credit? && events[i].debit == debit
  }

  ghost predicate CreditOk(events: seq<Event>, e: nat)
    requires e < |events|
  {
    events[e].Credit? ==>
      && events[e].debit < e && events[events[e].debit].Debit?
      && events[events[e].debit].account == events[e].account && events[events[e].debit].seconds == events[e].seconds
  }

  predicate Distinct(events: seq<Event>, e: nat, f: nat)
    requires e < |events| && f < |events|
  {
    events[e].Credit? && events[f].Credit? ==> events[e].debit != events[f].debit
  }

  ghost predicate CreditsOk(events: seq<Event>) {
    && (forall e :: 0 <= e < |events| ==> CreditOk(events, e))
    && (forall e, f :: 0 <= e < f < |events| ==> Distinct(events, e, f))
  }

  lemma NetAppend(events: seq<Event>, e: Event, account: nat)
    ensures Net(events + [e], account) == Net(events, account) + Signed(e, account)
  {
    assert (events + [e])[..|events|] == events;
  }

  lemma DebitKeepsCredits(events: seq<Event>, d: Event)
    requires CreditsOk(events) && d.Debit?
    ensures CreditsOk(events + [d])
  {
    var out := events + [d];
    forall e | 0 <= e < |out|
      ensures CreditOk(out, e)
    {
      if e < |events| {
        assert CreditOk(events, e);
      }
    }
    forall e, f | 0 <= e < f < |out|
      ensures Distinct(out, e, f)
    {
      if f < |events| {
        assert Distinct(events, e, f);
      }
    }
  }

  lemma NewCreditOk(events: seq<Event>, c: Event)
    requires CreditsOk(events) && c.Credit? && c.debit < |events| && !Credited(events, c.debit)
    requires events[c.debit].Debit? && events[c.debit].account == c.account && events[c.debit].seconds == c.seconds
    ensures CreditsOk(events + [c])
  {
    var out := events + [c];
    forall e | 0 <= e < |out|
      ensures CreditOk(out, e)
    {
      if e < |events| {
        assert CreditOk(events, e);
      }
    }
    forall e, f | 0 <= e < f < |out|
      ensures Distinct(out, e, f)
    {
      if f < |events| {
        assert Distinct(events, e, f);
      }
    }
  }

  // ----- credits never exceed debits -----

  function CreditedSet(events: seq<Event>): set<nat> {
    set i | 0 <= i < |events| && events[i].Credit? :: events[i].debit
  }

  /** The seconds of an account's debits among the first `n` events that `credited` does not name. */
  function Outstanding(events: seq<Event>, n: nat, credited: set<nat>, account: nat): nat
    requires n <= |events|
  {
    if n == 0 then 0
    else Outstanding(events, n - 1, credited, account)
         + (if events[n - 1].Debit? && events[n - 1].account == account && (n - 1) !in credited then events[n - 1].seconds else 0)
  }

  lemma {:induction false} OutstandingExtends(events: seq<Event>, e: Event, n: nat, credited: set<nat>, account: nat)
    requires n <= |events|
    ensures Outstanding(events + [e], n, credited, account) == Outstanding(events, n, credited, account)
    decreases n
  {
    if n > 0 {
      OutstandingExtends(events, e, n - 1, credited, account);
    }
  }

  lemma {:induction false} OutstandingCredited(events: seq<Event>, n: nat, credited: set<nat>, d: nat, account: nat)
    requires n <= |events| && d < |events| && d !in credited && events[d].Debit?
    ensures Outstanding(events, n, credited + {d}, account)
            == Outstanding(events, n, credited, account) - (if d < n && events[d].account == account then events[d].seconds else 0)
    decreases n
  {
    if n > 0 {
      OutstandingCredited(events, n - 1, credited, d, account);
    }
  }

  /** What an account owes net of credits is exactly the seconds of its debits that have no credit:
      each credit undoes one debit, whole and once. In particular it is never negative. */
  lemma {:induction false} NetIsOutstanding(events: seq<Event>, account: nat)
    requires CreditsOk(events)
    ensures Net(events, account) == Outstanding(events, |events|, CreditedSet(events), account)
    ensures Net(events, account) >= 0
    decreases |events|
  {
    if events != [] {
      var n := |events| - 1;
      var earlier, e := events[..n], events[n];
      assert events == earlier + [e];
      forall i | 0 <= i < n
        ensures CreditOk(earlier, i)
      {
        assert CreditOk(events, i);
      }
      forall i, k | 0 <= i < k < n
        ensures Distinct(earlier, i, k)
      {
        assert Distinct(events, i, k);
      }
      NetIsOutstanding(earlier, account);
      NetAppend(earlier, e, account);
      OutstandingExtends(earlier, e, n, CreditedSet(earlier), account);
      if e.Debit? {
        assert CreditedSet(events) == CreditedSet(earlier);
        forall i | 0 <= i < |events| && events[i].Credit?
          ensures events[i].debit != n
        {
          assert CreditOk(events, i);
        }
      } else {
        assert CreditOk(events, n);
        assert CreditedSet(events) == CreditedSet(earlier) + {e.debit};
        forall i | 0 <= i < n && events[i].Credit?
          ensures events[i].debit != e.debit
        {
          assert Distinct(events, i, n);
        }
        OutstandingCredited(events, n, CreditedSet(earlier), e.debit, account);
      }
    }
  }
}
