/** The formats byte by byte: what the shared encodings put on the wire, which texts are UTF-8, and
    which order paths are in. */
module WireFormat {
  import opened Common
  import opened Bytes
  import opened Paths
  import opened Archive
  import opened Sorting
  import opened SourceBundle
  import opened GuestOutput

  // ----- numbers and order -----

  /** The first byte of a number is its most significant one. */
  lemma {:induction false} MostSignificantFirst(b: byte, rest: seq<byte>)
    ensures Value([b] + rest) == b * Pow256(|rest|) + Value(rest)
    decreases |rest|
  {
    if rest == [] {
      assert [b] + rest == [b] && [b][..0] == [];
      assert Value([b]) == Value([]) * 256 + b;
    } else {
      var n := |rest| - 1;
      assert ([b] + rest)[..n + 1] == [b] + rest[..n];
      MostSignificantFirst(b, rest[..n]);
      assert (b * Pow256(n) + Value(rest[..n])) * 256 + rest[n] == b * (256 * Pow256(n)) + (Value(rest[..n]) * 256 + rest[n]);
    }
  }

  /** A path comes before another iff it is a proper prefix of it, or has the smaller byte where they first
      differ. */
  lemma {:induction false} BeforeMeans(a: seq<byte>, b: seq<byte>)
    ensures Before(a, b) <==> a < b || exists i :: 0 <= i < |a| && i < |b| && a[..i] == b[..i] && a[i] < b[i]
    decreases |a|
  {
    if a == [] || b == [] {
    } else if a[0] != b[0] {
      assert a[..0] == b[..0];
      forall i | 0 < i < |a| && i < |b|
        ensures a[..i] != b[..i]
      {
        assert a[..i][0] == a[0] && b[..i][0] == b[0];
      }
    } else {
      BeforeMeans(a[1..], b[1..]);
      assert a < b <==> a[1..] < b[1..];
      if i :| 0 <= i < |a[1..]| && i < |b[1..]| && a[1..][..i] == b[1..][..i] && a[1..][i] < b[1..][i] {
        assert a[..i + 1] == [a[0]] + a[1..][..i] == b[..i + 1];
        assert a[i + 1] < b[i + 1];
      }
      if i :| 0 <= i < |a| && i < |b| && a[..i] == b[..i] && a[i] < b[i] {
        assert i > 0;
        assert a[1..][..i - 1] == a[..i][1..] == b[..i][1..] == b[1..][..i - 1];
        assert a[1..][i - 1] < b[1..][i - 1];
      }
    }
  }

  // ----- UTF-8 -----

  /** A Unicode scalar value. */
  predicate Scalar(c: int) {
    0 <= c < 0xD800 || 0xE000 <= c <= 0x10FFFF
  }

  /** The bytes of one scalar value, section 3 of RFC 3629. */
  function Octets(c: int): (bs: seq<byte>)
    requires Scalar(c)
    ensures bs != []
  {
    if c < 0x80 then [c]
    else if c < 0x800 then [0xC0 + c / 64, 0x80 + c % 64]
    else if c < 0x10000 then [0xE0 + c / 4096, 0x80 + c / 64 % 64, 0x80 + c % 64]
    else [0xF0 + c / 262144, 0x80 + c / 4096 % 64, 0x80 + c / 64 % 64, 0x80 + c % 64]
  }

  predicate Scalars(cs: seq<int>) {
    forall i :: 0 <= i < |cs| ==> Scalar(cs[i])
  }

  function AllOctets(cs: seq<int>): seq<byte>
    requires Scalars(cs)
  {
    if cs == [] then [] else Octets(cs[0]) + AllOctets(cs[1..])
  }

  lemma OctetsAreUtf8(c: int, rest: seq<byte>)
    requires Scalar(c)
    ensures Utf8(Octets(c) + rest) <==> Utf8(rest)
  {
    var bs := Octets(c) + rest;
    assert bs[|Octets(c)|..] == rest;
  }

  lemma {:induction false} ScalarsAreUtf8(cs: seq<int>)
    requires Scalars(cs)
    ensures Utf8(AllOctets(cs))
    decreases |cs|
  {
    if cs != [] {
      ScalarsAreUtf8(cs[1..]);
      OctetsAreUtf8(cs[0], AllOctets(cs[1..]));
    }
  }

  /** Quotient and remainder of a number written with these digits. */
  lemma Digits(high: nat, low: nat, base: nat)
    requires low < base && base in {64, 4096, 262144}
    ensures (high * base + low) / base == high && (high * base + low) % base == low
  {
  }

  lemma TwoOctets(b0: byte, b1: byte) returns (c: int)
    requires 0xC2 <= b0 <= 0xDF && Continuation(b1)
    ensures Scalar(c) && Octets(c) == [b0, b1]
  {
    var x: int, y: int := b0, b1;
    c := (x - 0xC0) * 64 + (y - 0x80);
    Digits(x - 0xC0, y - 0x80, 64);
  }

  lemma ThreeOctets(b0: byte, b1: byte, b2: byte) returns (c: int)
    requires 0xE0 <= b0 <= 0xEF && Continuation(b1) && Continuation(b2)
    requires (b0 == 0xE0 ==> b1 >= 0xA0) && (b0 == 0xED ==> b1 <= 0x9F)
    ensures Scalar(c) && Octets(c) == [b0, b1, b2]
  {
    var x: int, y: int, z: int := b0, b1, b2;
    var high := (x - 0xE0) * 64 + (y - 0x80);
    c := high * 64 + (z - 0x80);
    Digits(x - 0xE0, y - 0x80, 64);
    Digits(high, z - 0x80, 64);
    Digits(x - 0xE0, (y - 0x80) * 64 + (z - 0x80), 4096);
    assert c == (x - 0xE0) * 4096 + ((y - 0x80) * 64 + (z - 0x80));
  }

  lemma FourOctets(b0: byte, b1: byte, b2: byte, b3: byte) returns (c: int)
    requires 0xF0 <= b0 <= 0xF4 && Continuation(b1) && Continuation(b2) && Continuation(b3)
    requires (b0 == 0xF0 ==> b1 >= 0x90) && (b0 == 0xF4 ==> b1 <= 0x8F)
    ensures Scalar(c) && Octets(c) == [b0, b1, b2, b3]
  {
    var x: int, y: int, z: int, u: int := b0, b1, b2, b3;
    var top := (x - 0xF0) * 64 + (y - 0x80);
    var high := top * 64 + (z - 0x80);
    c := high * 64 + (u - 0x80);
    Digits(x - 0xF0, y - 0x80, 64);
    Digits(top, z - 0x80, 64);
    Digits(high, u - 0x80, 64);
    Digits(top, (z - 0x80) * 64 + (u - 0x80), 4096);
    Digits(x - 0xF0, (y - 0x80) * 4096 + (z - 0x80) * 64 + (u - 0x80), 262144);
    assert c == top * 4096 + ((z - 0x80) * 64 + (u - 0x80));
    assert c == (x - 0xF0) * 262144 + ((y - 0x80) * 4096 + (z - 0x80) * 64 + (u - 0x80));
  }

  /** The first scalar value of a text. */
  lemma FirstScalar(bs: seq<byte>) returns (c: int)
    requires bs != [] && Utf8(bs)
    ensures Scalar(c) && |Octets(c)| <= |bs| && bs == Octets(c) + bs[|Octets(c)|..] && Utf8(bs[|Octets(c)|..])
  {
    if bs[0] < 0x80 {
      c := bs[0];
    } else if bs[0] <= 0xDF {
      c := TwoOctets(bs[0], bs[1]);
    } else if bs[0] <= 0xEF {
      c := ThreeOctets(bs[0], bs[1], bs[2]);
    } else {
      c := FourOctets(bs[0], bs[1], bs[2], bs[3]);
    }
    assert Octets(c) == bs[..|Octets(c)|];
  }

  lemma {:induction false} Utf8Scalars(bs: seq<byte>) returns (cs: seq<int>)
    requires Utf8(bs)
    ensures Scalars(cs) && bs == AllOctets(cs)
    decreases |bs|
  {
    if bs == [] {
      cs := [];
    } else {
      var c := FirstScalar(bs);
      var more := Utf8Scalars(bs[|Octets(c)|..]);
      cs := [c] + more;
      assert cs[1..] == more;
    }
  }

  /** A text passes the check iff it is the encoding of some Unicode scalar values. */
  lemma Utf8Iff(bs: seq<byte>)
    ensures Utf8(bs) <==> exists cs: seq<int> :: Scalars(cs) && AllOctets(cs) == bs
  {
    if Utf8(bs) {
      var cs := Utf8Scalars(bs);
    }
    if cs: seq<int> :| Scalars(cs) && AllOctets(cs) == bs {
      ScalarsAreUtf8(cs);
    }
  }

  // ----- one file in every format -----

  /** A plain file `a` and an executable `b/c`. */
  const PLAIN_FILE: Entry := Entry(Letters("a"), PLAIN_MODE, [7, 8])
  const PROGRAM: Entry := Entry(Letters("b/c"), EXECUTABLE_MODE, [])

  const PLAIN_BYTES: seq<byte> := [0, 1, 97, 0, 0, 1, 164, 0, 0, 0, 0, 0, 0, 0, 2, 7, 8]
  const PROGRAM_BYTES: seq<byte> := [0, 3, 98, 47, 99, 0, 0, 1, 237, 0, 0, 0, 0, 0, 0, 0, 0]

  lemma SmallNumbers(n: nat)
    requires n < 256
    ensures BE(n, 2) == [0, n] && BE(n, 4) == [0, 0, 0, n] && BE(n, 8) == [0, 0, 0, 0, 0, 0, 0, n]
  {
    assert forall k: nat :: BE(0, k + 1) == BE(0, k) + [0];
    assert BE(0, 0) == [] && BE(0, 1) == [0] && BE(0, 2) == [0, 0] && BE(0, 3) == [0, 0, 0] && BE(0, 4) == [0, 0, 0, 0];
    assert BE(0, 5) == [0, 0, 0, 0, 0] && BE(0, 6) == [0, 0, 0, 0, 0, 0] && BE(0, 7) == [0, 0, 0, 0, 0, 0, 0];
    assert n / 256 == 0 && n % 256 == n;
  }

  lemma Spelled()
    ensures Letters("a") == [97] && Letters("b/c") == [98, 47, 99]
    ensures Letters("HBS1") == HBS1 && Letters("HCA1") == HCA1 && Letters("HBO1") == HBO1
  {
  }

  lemma EntryOnTheWire(path: seq<byte>, mode: seq<byte>, content: seq<byte>, e: Entry)
    requires e.path == path && BE(e.mode, 4) == mode && e.content == content && |path| < 256 && |content| < 256
    ensures EntryBytes(e) == [0, |path|] + path + mode + [0, 0, 0, 0, 0, 0, 0, |content|] + content
  {
    SmallNumbers(|path|);
    SmallNumbers(|content|);
    hide BE;
  }

  /** Length, path, mode, size and bytes of an entry: 2, 4 and 8 bytes for the numbers, modes 0644 and 0755. */
  lemma EntriesOnTheWire()
    ensures EntryBytes(PLAIN_FILE) == PLAIN_BYTES && EntryBytes(PROGRAM) == PROGRAM_BYTES
  {
    Spelled();
    SmallModes();
    hide BE, EntryBytes, Letters;
    EntryOnTheWire([97], [0, 0, 1, 164], [7, 8], PLAIN_FILE);
    EntryOnTheWire([98, 47, 99], [0, 0, 1, 237], [], PROGRAM);
    assert [0, 1] + [97] + [0, 0, 1, 164] + [0, 0, 0, 0, 0, 0, 0, 2] + [7, 8] == PLAIN_BYTES;
    assert [0, 3] + [98, 47, 99] + [0, 0, 1, 237] + [0, 0, 0, 0, 0, 0, 0, 0] + [] == PROGRAM_BYTES;
  }

  lemma SmallModes()
    ensures BE(PLAIN_MODE, 4) == [0, 0, 1, 164] && BE(EXECUTABLE_MODE, 4) == [0, 0, 1, 237]
  {
    SmallNumbers(0);
    assert BE(1, 3) == BE(0, 2) + [1];
    assert BE(PLAIN_MODE, 4) == BE(1, 3) + [164] && BE(EXECUTABLE_MODE, 4) == BE(1, 3) + [237];
  }

  /** What follows the kind of an archive of these two files. */
  function BodyOnTheWire(service: seq<byte>): seq<byte>
    requires |service| < 256
  {
    [0, |service|] + service + [0, 0, 0, 2] + [0, 0, 0, 0, 0, 0, 0, 2] + (PLAIN_BYTES + PROGRAM_BYTES)
  }

  lemma TwoFiles()
    ensures var es := [PLAIN_FILE, PROGRAM]; EntriesBytes(es) == PLAIN_BYTES + PROGRAM_BYTES && Total(es) == 2
  {
    EntriesOnTheWire();
    var es := [PLAIN_FILE, PROGRAM];
    assert es[1..] == [PROGRAM] && [PROGRAM][1..] == [];
    hide EntryBytes, Letters;
    assert EntriesBytes([PROGRAM]) == PROGRAM_BYTES + [];
    assert Total([PROGRAM]) == 0;
  }

  lemma OneArchive(a: Archive)
    ensures ArchivesBytes([a]) == ArchiveBytes(a)
  {
    hide ArchiveBytes;
    assert [a][1..] == [];
    assert ArchivesBytes([a]) == ArchiveBytes(a) + [];
  }

  /** The bundle, the stored archive and the guest's stream of these two files. */
  lemma FormatsOnTheWire(service: seq<byte>, report: seq<byte>)
    requires |service| < 256 && |report| < 256
    ensures var es := [PLAIN_FILE, PROGRAM]; var body := BodyOnTheWire(service);
            && BundleBytes(es) == Letters("HBS1") + [0, 0, 0, 2] + (PLAIN_BYTES + PROGRAM_BYTES)
            && HcaBytes(Archive(APPLICATION, service, es)) == Letters("HCA1") + ([2] + body)
            && HcaBytes(Archive(STATIC, service, es)) == Letters("HCA1") + ([1] + body)
            && StreamBytes(report, [Archive(STATIC, service, es)])
               == Letters("HBO1") + [0, 0, 0, |report|] + report + [1] + ([1] + body)
  {
    Spelled();
    TwoFiles();
    SmallNumbers(2);
    SmallNumbers(|report|);
    hide BE, EntriesBytes, Total, Letters, ArchiveBytes, ArchivesBytes, BodyOnTheWire;
    var es := [PLAIN_FILE, PROGRAM];
    ArchiveOnTheWire(APPLICATION, service, es);
    ArchiveOnTheWire(STATIC, service, es);
    OneArchive(Archive(STATIC, service, es));
  }

  lemma Regroup(a: seq<byte>, b: seq<byte>, c: seq<byte>, d: seq<byte>, e: seq<byte>, f: seq<byte>)
    ensures a + (b + c) + d + e + f == a + (b + c + d + e + f)
  {
  }

  lemma ArchiveOnTheWire(kind: byte, service: seq<byte>, es: seq<Entry>)
    requires |service| < 256 && |es| == 2 && Total(es) == 2 && EntriesBytes(es) == PLAIN_BYTES + PROGRAM_BYTES
    ensures ArchiveBytes(Archive(kind, service, es)) == [kind] + BodyOnTheWire(service)
  {
    SmallNumbers(2);
    SmallNumbers(|service|);
    Regroup([kind], BE(|service|, 2), service, BE(2, 4), BE(2, 8), EntriesBytes(es));
    hide BE, EntriesBytes, Total;
  }
}
