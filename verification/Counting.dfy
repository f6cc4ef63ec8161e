/** Counting the rows of a table that satisfy a predicate. */
module Counting {
  function Count<T>(rows: seq<T>, p: T -> bool): nat {
    if rows == [] then 0 else Count(rows[..|rows| - 1], p) + (if p(rows[|rows| - 1]) then 1 else 0)
  }

  lemma CountAppend<T>(rows: seq<T>, x: T, p: T -> bool)
    ensures Count(rows + [x], p) == Count(rows, p) + (if p(x) then 1 else 0)
  {
    assert (rows + [x])[..|rows|] == rows;
  }

  lemma {:induction false} CountUpdate<T>(rows: seq<T>, i: nat, x: T, p: T -> bool)
    requires i < |rows|
    ensures Count(rows[i := x], p) == Count(rows, p) - (if p(rows[i]) then 1 else 0) + (if p(x) then 1 else 0)
    decreases |rows|
  {
    var n := |rows| - 1;
    if i == n {
      assert rows[i := x][..n] == rows[..n];
    } else {
      assert rows[i := x][..n] == rows[..n][i := x];
      CountUpdate(rows[..n], i, x, p);
    }
  }

  lemma {:induction false} CountFewer<T>(rows: seq<T>, fewer: seq<T>, p: T -> bool)
    requires |fewer| == |rows| && forall i :: 0 <= i < |rows| && p(fewer[i]) ==> p(rows[i])
    ensures Count(fewer, p) <= Count(rows, p)
    decreases |rows|
  {
    if rows != [] {
      CountFewer(rows[..|rows| - 1], fewer[..|rows| - 1], p);
    }
  }

  function Where<T>(rows: seq<T>, p: T -> bool): set<nat> {
    set i: nat | i < |rows| && p(rows[i]) :: i
  }

  lemma {:induction false} CountIsSize<T>(rows: seq<T>, p: T -> bool)
    ensures Count(rows, p) == |Where(rows, p)|
    decreases |rows|
  {
    if rows != [] {
      var n := |rows| - 1;
      CountIsSize(rows[..n], p);
      assert Where(rows, p) == Where(rows[..n], p) + (if p(rows[n]) then {n} else {});
    }
  }

  function Places(keys: seq<nat>): set<nat> {
    set i | 0 <= i < |keys| :: keys[i]
  }

  /** Rows that all point to different places are as many as the places. */
  lemma {:induction false} ImageSize(keys: seq<nat>)
    requires forall i, k :: 0 <= i < k < |keys| ==> keys[i] != keys[k]
    ensures |Places(keys)| == |keys|
    decreases |keys|
  {
    if keys != [] {
      var n := |keys| - 1;
      ImageSize(keys[..n]);
      assert Places(keys) == Places(keys[..n]) + {keys[n]};
    }
  }

  lemma {:induction false} PlacesBound(keys: seq<nat>)
    ensures |Places(keys)| <= |keys|
    decreases |keys|
  {
    if keys != [] {
      var n := |keys| - 1;
      PlacesBound(keys[..n]);
      assert Places(keys) == Places(keys[..n]) + {keys[n]};
    }
  }

  /** As many places as rows means no two rows point to the same place. */
  lemma {:induction false} DistinctByCount(keys: seq<nat>, i: nat, k: nat)
    requires |Places(keys)| == |keys| && i < k < |keys|
    ensures keys[i] != keys[k]
    decreases |keys|
  {
    var n := |keys| - 1;
    var rest := keys[..n];
    PlacesBound(rest);
    assert Places(keys) == Places(rest) + {keys[n]};
    assert keys[n] in Places(rest) ==> Places(keys) == Places(rest);
    if k == n {
      assert rest[i] == keys[i];
    } else {
      DistinctByCount(rest, i, k);
    }
  }

  lemma {:induction false} SubsetSize<T>(a: set<T>, b: set<T>)
    requires a <= b
    ensures |a| <= |b|
    ensures |a| == |b| ==> a == b
    decreases a
  {
    if a != {} {
      var x :| x in a;
      SubsetSize(a - {x}, b - {x});
      assert a == (a - {x}) + {x} && b == (b - {x}) + {x};
    } else {
      assert b == {} || |b| > 0;
    }
  }
}
