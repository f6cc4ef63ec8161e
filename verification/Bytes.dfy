/** Bytes, big-endian numbers and the bytewise order of strings. */
module Bytes {
  type byte = b: int | 0 <= b < 256

  const SLASH: byte := 47
  const BACKSLASH: byte := 92

  predicate Ascii(bs: seq<byte>) {
    forall i :: 0 <= i < |bs| ==> bs[i] < 128
  }

  /** The bytes of an ASCII text. */
  function Letters(s: string): (bs: seq<byte>)
    requires forall i :: 0 <= i < |s| ==> s[i] as int < 128
    ensures |bs| == |s| && forall i :: 0 <= i < |s| ==> bs[i] == s[i] as int
  {
    seq(|s|, i requires 0 <= i < |s| => s[i] as int)
  }

  function Pow256(k: nat): nat {
    if k == 0 then 1 else 256 * Pow256(k - 1)
  }

  lemma Widths()
    ensures Pow256(2) == 0x1_0000 && Pow256(4) == 0x1_0000_0000 && Pow256(8) == 0x1_0000_0000_0000_0000
  {
    assert Pow256(4) == 256 * 256 * Pow256(2);
    assert Pow256(6) == 256 * 256 * Pow256(4);
  }

  /** The last `k` bytes of a number, most significant first. */
  function BE(n: nat, k: nat): (bs: seq<byte>)
    ensures |bs| == k
  {
    if k == 0 then [] else BE(n / 256, k - 1) + [n % 256]
  }

  function Value(bs: seq<byte>): nat {
    if bs == [] then 0 else Value(bs[..|bs| - 1]) * 256 + bs[|bs| - 1]
  }

  lemma {:induction false} ValueOfBE(n: nat, k: nat)
    requires n < Pow256(k)
    ensures Value(BE(n, k)) == n
  {
    if k > 0 {
      ValueOfBE(n / 256, k - 1);
      assert BE(n, k)[..k - 1] == BE(n / 256, k - 1);
    }
  }

  lemma {:induction false} BEOfValue(bs: seq<byte>)
    ensures BE(Value(bs), |bs|) == bs && Value(bs) < Pow256(|bs|)
    decreases |bs|
  {
    if bs != [] {
      BEOfValue(bs[..|bs| - 1]);
      assert bs == bs[..|bs| - 1] + [bs[|bs| - 1]];
    }
  }

  /** Strict bytewise order: Rust's order of strings and, for valid UTF-8, Python's. */
  predicate Before(a: seq<byte>, b: seq<byte>)
    decreases |a|
  {
    b != [] && (a == [] || a[0] < b[0] || (a[0] == b[0] && Before(a[1..], b[1..])))
  }

  lemma {:induction false} BeforeIrreflexive(a: seq<byte>)
    ensures !Before(a, a)
    decreases |a|
  {
    if a != [] {
      BeforeIrreflexive(a[1..]);
    }
  }

  lemma {:induction false} BeforeTransitive(a: seq<byte>, b: seq<byte>, c: seq<byte>)
    requires Before(a, b) && Before(b, c)
    ensures Before(a, c)
    decreases |a|
  {
    if a != [] && a[0] == b[0] == c[0] {
      BeforeTransitive(a[1..], b[1..], c[1..]);
    }
  }

  lemma {:induction false} BeforeTotal(a: seq<byte>, b: seq<byte>)
    ensures Before(a, b) || Before(b, a) || a == b
    decreases |a|
  {
    if a != [] && b != [] && a[0] == b[0] {
      BeforeTotal(a[1..], b[1..]);
      assert a == [a[0]] + a[1..] && b == [b[0]] + b[1..];
    }
  }
}
