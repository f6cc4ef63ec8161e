/** Sorting entries by path bytes, and why the result does not depend on the order given. */
module Sorting {
  import opened Common
  import opened Bytes
  import opened Paths
  import opened Archive

  function Insert(e: Entry, es: seq<Entry>): seq<Entry> {
    if es == [] || !Before(es[0].path, e.path) then [e] + es else [es[0]] + Insert(e, es[1..])
  }

  function Sort(es: seq<Entry>): seq<Entry> {
    if es == [] then [] else Insert(es[0], Sort(es[1..]))
  }

  /** Each path strictly before the next: what every reader demands. */
  predicate Ascending(es: seq<Entry>) {
    forall i :: 0 <= i < |es| - 1 ==> Before(es[i].path, es[i + 1].path)
  }

  predicate Sorted(es: seq<Entry>) {
    forall i :: 0 <= i < |es| - 1 ==> !Before(es[i + 1].path, es[i].path)
  }

  lemma {:induction false} InsertKeeps(e: Entry, es: seq<Entry>)
    requires Sorted(es)
    ensures Sorted(Insert(e, es)) && multiset(Insert(e, es)) == multiset(es) + multiset{e}
    ensures |Insert(e, es)| == |es| + 1
    ensures Insert(e, es)[0] == e || (es != [] && Insert(e, es)[0] == es[0])
    decreases |es|
  {
    if es == [] || !Before(es[0].path, e.path) {
    } else {
      InsertKeeps(e, es[1..]);
      assert es == [es[0]] + es[1..];
      var rest := Insert(e, es[1..]);
      assert !Before(rest[0].path, es[0].path) by {
        if Before(e.path, es[0].path) {
          BeforeTransitive(e.path, es[0].path, e.path);
          BeforeIrreflexive(e.path);
        }
        assert |es| > 1 ==> es[1..][0] == es[0 + 1];
      }
      forall i | 0 <= i < |[es[0]] + rest| - 1
        ensures !Before(([es[0]] + rest)[i + 1].path, ([es[0]] + rest)[i].path)
      {
        if i > 0 {
          assert !Before(rest[(i - 1) + 1].path, rest[i - 1].path);
        }
      }
    }
  }

  lemma {:induction false} SortSorts(es: seq<Entry>)
    ensures Sorted(Sort(es)) && multiset(Sort(es)) == multiset(es) && |Sort(es)| == |es|
    decreases |es|
  {
    if es != [] {
      SortSorts(es[1..]);
      InsertKeeps(es[0], Sort(es[1..]));
      assert es == [es[0]] + es[1..];
    }
  }

  lemma {:induction false} AscendingApart(es: seq<Entry>, i: nat, k: nat)
    requires Ascending(es) && i < k < |es|
    ensures Before(es[i].path, es[k].path)
    decreases k
  {
    if i + 1 < k {
      AscendingApart(es, i, k - 1);
      BeforeTransitive(es[i].path, es[k - 1].path, es[k - 1 + 1].path);
    }
  }

  lemma SameFirst(a: seq<Entry>, b: seq<Entry>)
    requires Ascending(a) && Ascending(b) && multiset(a) == multiset(b) && a != [] && b != []
    ensures a[0] == b[0]
  {
    assert a[0] in multiset(b) && b[0] in multiset(a);
    var i :| 0 <= i < |b| && b[i] == a[0];
    var k :| 0 <= k < |a| && a[k] == b[0];
    hide Ascending, Before;
    if i != 0 && k != 0 {
      AscendingApart(b, 0, i);
      AscendingApart(a, 0, k);
      BeforeTransitive(a[0].path, b[0].path, a[0].path);
      BeforeIrreflexive(a[0].path);
    }
  }

  /** Two strictly ascending lists with the same entries are the same list. */
  lemma {:induction false} AscendingIsUnique(a: seq<Entry>, b: seq<Entry>)
    requires Ascending(a) && Ascending(b) && multiset(a) == multiset(b)
    ensures a == b
    decreases |a|
  {
    hide Ascending;
    assert |a| == |multiset(a)| == |multiset(b)| == |b|;
    if a != [] {
      SameFirst(a, b);
      TailMultisets(a, b);
      AscendingTail(a);
      AscendingTail(b);
      AscendingIsUnique(a[1..], b[1..]);
      assert a == [a[0]] + a[1..] && b == [b[0]] + b[1..];
    }
  }

  lemma AscendingTail(es: seq<Entry>)
    requires Ascending(es) && es != []
    ensures Ascending(es[1..])
  {
    forall i | 0 <= i < |es[1..]| - 1
      ensures Before(es[1..][i].path, es[1..][i + 1].path)
    {
      assert Before(es[i + 1].path, es[(i + 1) + 1].path);
    }
  }

  /** Where no path repeats, the order of the input does not matter. */
  lemma SortIgnoresOrder(es: seq<Entry>, fs: seq<Entry>)
    requires multiset(es) == multiset(fs) && Ascending(Sort(es))
    requires Ascending(Sort(fs))
    ensures Sort(es) == Sort(fs)
  {
    SortSorts(es);
    SortSorts(fs);
    AscendingIsUnique(Sort(es), Sort(fs));
  }

  // ----- the sorted paths never depend on the order, repeated or not -----

  /** An entry reduced to its path. */
  function Bare(e: Entry): Entry {
    Entry(e.path, PLAIN_MODE, [])
  }

  function BareAll(es: seq<Entry>): (out: seq<Entry>)
    ensures |out| == |es| && forall i :: 0 <= i < |es| ==> out[i] == Bare(es[i])
  {
    seq(|es|, i requires 0 <= i < |es| => Bare(es[i]))
  }

  lemma {:induction false} BareInsert(e: Entry, es: seq<Entry>)
    ensures BareAll(Insert(e, es)) == Insert(Bare(e), BareAll(es))
    decreases |es|
  {
    if es != [] && Before(es[0].path, e.path) {
      BareInsert(e, es[1..]);
      assert BareAll(es)[1..] == BareAll(es[1..]);
    }
  }

  lemma {:induction false} BareSort(es: seq<Entry>)
    ensures BareAll(Sort(es)) == Sort(BareAll(es))
    decreases |es|
  {
    if es != [] {
      BareSort(es[1..]);
      BareInsert(es[0], Sort(es[1..]));
      assert BareAll(es)[1..] == BareAll(es[1..]);
    }
  }

  predicate AllBare(es: seq<Entry>) {
    forall i :: 0 <= i < |es| ==> es[i] == Bare(es[i])
  }

  lemma TailMultisets(a: seq<Entry>, b: seq<Entry>)
    requires a != [] && b != [] && a[0] == b[0] && multiset(a) == multiset(b)
    ensures multiset(a[1..]) == multiset(b[1..])
  {
    assert a == [a[0]] + a[1..] && b == [b[0]] + b[1..];
    assert multiset(a[1..]) == multiset(a) - multiset{a[0]};
    assert multiset(b[1..]) == multiset(b) - multiset{b[0]};
  }

  /** The first entry of one sorted list is no later than the first of the other. */
  lemma FirstIsLeast(a: seq<Entry>, b: seq<Entry>)
    requires Sorted(a) && a != [] && b != [] && multiset(a) == multiset(b)
    ensures !Before(b[0].path, a[0].path)
  {
    assert b[0] in multiset(a);
    var k :| 0 <= k < |a| && a[k] == b[0];
    SortedFirst(a, k);
  }

  lemma {:induction false} SortedBareIsUnique(a: seq<Entry>, b: seq<Entry>)
    requires Sorted(a) && Sorted(b) && multiset(a) == multiset(b) && AllBare(a) && AllBare(b)
    ensures a == b
    decreases |a|
  {
    hide Sorted;
    assert |a| == |multiset(a)| == |multiset(b)| == |b|;
    if a != [] {
      FirstIsLeast(a, b);
      FirstIsLeast(b, a);
      BeforeTotal(a[0].path, b[0].path);
      assert a[0] == b[0];
      TailMultisets(a, b);
      SortedTail(a);
      SortedTail(b);
      SortedBareIsUnique(a[1..], b[1..]);
      assert a == [a[0]] + a[1..] && b == [b[0]] + b[1..];
    }
  }

  lemma SortedTail(es: seq<Entry>)
    requires Sorted(es) && es != []
    ensures Sorted(es[1..])
  {
    forall i | 0 <= i < |es[1..]| - 1
      ensures !Before(es[1..][i + 1].path, es[1..][i].path)
    {
      assert !Before(es[(i + 1) + 1].path, es[i + 1].path);
    }
  }

  lemma {:induction false} SortedFirst(es: seq<Entry>, k: nat)
    requires Sorted(es) && k < |es|
    ensures !Before(es[k].path, es[0].path)
    decreases k
  {
    if k == 0 {
      BeforeIrreflexive(es[0].path);
    } else {
      SortedFirst(es, k - 1);
      assert !Before(es[k - 1 + 1].path, es[k - 1].path);
      BeforeTotal(es[k - 1].path, es[k].path);
      if Before(es[k].path, es[0].path) && Before(es[k - 1].path, es[k].path) {
        BeforeTransitive(es[k - 1].path, es[k].path, es[0].path);
      }
    }
  }

  lemma Without(fs: seq<Entry>, i: nat)
    requires i < |fs|
    ensures multiset(fs) == multiset(fs[..i] + fs[i + 1..]) + multiset{fs[i]}
  {
    assert fs == fs[..i] + [fs[i]] + fs[i + 1..];
  }

  lemma RestMultiset(es: seq<Entry>, fs: seq<Entry>, i: nat)
    requires multiset(es) == multiset(fs) && es != [] && i < |fs| && fs[i] == es[0]
    ensures multiset(es[1..]) == multiset(fs[..i] + fs[i + 1..])
  {
    Without(fs, i);
    assert es == [es[0]] + es[1..];
    assert multiset(es[1..]) == multiset(es) - multiset{es[0]};
    assert multiset(fs[..i] + fs[i + 1..]) == multiset(fs) - multiset{fs[i]};
  }

  lemma BareWithout(es: seq<Entry>, i: nat, rest: seq<Entry>)
    requires i < |es| && rest == es[..i] + es[i + 1..]
    ensures multiset(BareAll(es)) == multiset(BareAll(rest)) + multiset{Bare(es[i])}
  {
    Without(BareAll(es), i);
    assert BareAll(rest) == BareAll(es)[..i] + BareAll(es)[i + 1..];
  }

  lemma Locate(es: seq<Entry>, fs: seq<Entry>) returns (i: nat)
    requires multiset(es) == multiset(fs) && es != []
    ensures i < |fs| && fs[i] == es[0]
  {
    assert es[0] in multiset(fs);
    i :| 0 <= i < |fs| && fs[i] == es[0];
  }

  lemma {:induction false} BareMultiset(es: seq<Entry>, fs: seq<Entry>)
    requires multiset(es) == multiset(fs)
    ensures multiset(BareAll(es)) == multiset(BareAll(fs))
    decreases |es|
  {
    if es == [] {
      assert |multiset(fs)| == 0;
    } else {
      var i := Locate(es, fs);
      var rest := fs[..i] + fs[i + 1..];
      RestMultiset(es, fs, i);
      BareMultiset(es[1..], rest);
      BareWithout(es, 0, es[1..]);
      BareWithout(fs, i, rest);
    }
  }

  lemma {:induction false} SortKeepsBare(es: seq<Entry>)
    requires AllBare(es)
    ensures AllBare(Sort(es))
  {
    SortSorts(es);
    forall i | 0 <= i < |Sort(es)|
      ensures Sort(es)[i] == Bare(Sort(es)[i])
    {
      assert Sort(es)[i] in multiset(Sort(es));
      assert Sort(es)[i] in es;
    }
  }

  lemma SortedPathsIgnoreOrder(es: seq<Entry>, fs: seq<Entry>)
    requires multiset(es) == multiset(fs)
    ensures BareAll(Sort(es)) == BareAll(Sort(fs))
  {
    hide Sort, Sorted;
    BareMultiset(es, fs);
    BareSort(es);
    BareSort(fs);
    SortSorts(BareAll(es));
    SortSorts(BareAll(fs));
    SortKeepsBare(BareAll(es));
    SortKeepsBare(BareAll(fs));
    SortedBareIsUnique(Sort(BareAll(es)), Sort(BareAll(fs)));
  }

  lemma {:induction false} AscendingIsAccepted(es: seq<Entry>, rules: Rules, previous: Option<seq<byte>>, used: nat)
    requires Ascending(es) && used + Total(es) <= rules.cap
    requires es != [] ==> Follows(previous, es[0].path)
    requires forall i :: 0 <= i < |es| ==>
               && 0 < |es[i].path| <= rules.maxPath && |es[i].path| < Pow256(2) && Utf8(es[i].path) && rules.pathOk(es[i].path)
               && es[i].mode in {PLAIN_MODE, EXECUTABLE_MODE} && |es[i].content| < Pow256(8) && rules.contentOk(es[i].content)
    ensures EntriesOk(es, rules, previous, used)
    decreases |es|
  {
    if es != [] {
      AscendingTail(es);
      forall i | 0 <= i < |es[1..]|
        ensures es[1..][i] == es[i + 1]
      {
      }
      if |es| > 1 {
        assert Before(es[0].path, es[0 + 1].path);
      }
      AscendingIsAccepted(es[1..], rules, Some(es[0].path), used + |es[0].content|);
    }
  }
}
