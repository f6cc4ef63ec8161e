/** What the path checks keep out, position by position, and what that means for a program that
    walks the components of a path it has accepted: it never leaves the directory it starts in. */
module PathSafety {
  import opened Common
  import opened Bytes
  import opened Paths
  import opened Archive
  import opened Sorting
  import opened Scanner
  import opened SourceBundle
  import opened GuestOutput
  import opened Unpackers
  import opened OutputRoundTrip

  /** Two dots from byte `i` on that fill the space between slashes or ends of the path. */
  predicate ParentAt(bs: seq<byte>, i: nat) {
    && i + 2 <= |bs| && bs[i] == 46 && bs[i + 1] == 46
    && (i == 0 || bs[i - 1] == 47) && (i + 2 == |bs| || bs[i + 2] == 47)
  }

  /** Neither absolute nor with a parent component. */
  ghost predicate Contained(bs: seq<byte>) {
    bs != [] && bs[0] != 47 && forall i: nat :: !ParentAt(bs, i)
  }

  /** The first component is a single dot. */
  predicate DotFirst(bs: seq<byte>) {
    bs != [] && bs[0] == 46 && (|bs| == 1 || bs[1] == 47)
  }

  predicate Lacks(bs: seq<byte>, excluded: set<int>) {
    forall i :: 0 <= i < |bs| ==> bs[i] !in excluded
  }

  predicate Printable(bs: seq<byte>) {
    forall i :: 0 <= i < |bs| ==> 32 <= bs[i] && bs[i] != 127
  }

  // ----- components and positions -----

  lemma {:induction false} SplitAtSlash(bs: seq<byte>, k: nat)
    requires k < |bs| && bs[k] == SLASH && SLASH !in bs[..k]
    ensures Split(bs) == [bs[..k]] + Split(bs[k + 1..])
    decreases k
  {
    if k == 0 {
      assert bs[..0] == [];
    } else {
      assert bs[..k][0] == bs[0] && bs[1..][..k - 1] == bs[..k][1..];
      SplitAtSlash(bs[1..], k - 1);
      assert bs[1..][k - 1 + 1..] == bs[k + 1..];
      assert bs[..k] == [bs[0]] + bs[1..][..k - 1];
    }
  }

  function FirstSlash(bs: seq<byte>): (k: nat)
    ensures k <= |bs| && SLASH !in bs[..k] && (k < |bs| ==> bs[k] == SLASH)
  {
    if bs == [] || bs[0] == SLASH then 0
    else
      var k := FirstSlash(bs[1..]) + 1;
      assert bs[..k] == [bs[0]] + bs[1..][..k - 1];
      k
  }

  /** A component ".." is one that some position shows. */
  lemma {:induction false} NoParentMeans(bs: seq<byte>)
    ensures NoParent(bs) <==> forall i: nat :: !ParentAt(bs, i)
    decreases |bs|
  {
    var k := FirstSlash(bs);
    assert forall i :: 0 <= i < k ==> bs[i] == bs[..k][i];
    if k == |bs| {
      SplitWhole(bs);
      assert ParentAt(bs, 0) <==> bs == [46, 46];
      assert forall i: nat :: ParentAt(bs, i) ==> i == 0;
    } else {
      var rest := bs[k + 1..];
      SplitAtSlash(bs, k);
      NoParentMeans(rest);
      assert ParentAt(bs, 0) <==> bs[..k] == [46, 46] by {
        if ParentAt(bs, 0) {
          assert k == 2;
        }
      }
      forall i: nat
        ensures ParentAt(rest, i) <==> ParentAt(bs, k + 1 + i)
        ensures 0 < i <= k ==> !ParentAt(bs, i)
      {
      }
      if i: nat :| ParentAt(bs, i) {
        assert i == 0 || ParentAt(rest, i - k - 1);
      }
      if i: nat :| ParentAt(rest, i) {
        assert ParentAt(bs, k + 1 + i);
      }
    }
  }

  lemma FirstComponent(bs: seq<byte>)
    ensures Split(bs)[0] == [DOT] <==> DotFirst(bs)
    ensures Split(bs)[0] == [] <==> bs == [] || bs[0] == 47
  {
    var k := FirstSlash(bs);
    assert forall i :: 0 <= i < k ==> bs[i] == bs[..k][i];
    if k == |bs| {
      SplitWhole(bs);
    } else {
      SplitAtSlash(bs, k);
    }
  }

  /** Every path check, said on bytes. */
  lemma ChecksOnBytes(bs: seq<byte>)
    ensures ArtifactPath(bs) <==> Contained(bs) && !DotFirst(bs) && Lacks(bs, {0, 10, 13, 92})
    ensures BundlePath(bs) <==> Contained(bs) && !DotFirst(bs) && |bs| <= 1024 && Printable(bs) && Lacks(bs, {92})
    ensures SafeArchivePath(bs) <==> Contained(bs) && Printable(bs) && Lacks(bs, {92})
    ensures SafeRelative(bs) <==> Contained(bs) && Lacks(bs, {0, 92})
  {
    NoParentMeans(bs);
    FirstComponent(bs);
    hide Split, NoParent, DotFirst, ParentAt;
    assert PlainBytes(bs) <==> Lacks(bs, {0, 10, 13, 92});
    assert Printable(bs) <==> ControlFree(bs) by {
      assert forall i :: 0 <= i < |bs| ==> (Control(bs[i]) <==> !(32 <= bs[i] && bs[i] != 127));
    }
    assert Lacks(bs, {92}) <==> BACKSLASH !in bs;
    assert Lacks(bs, {0, 92}) <==> BACKSLASH !in bs && 0 !in bs;
  }

  // ----- walking -----

  /** One component seen from a directory: empty and "." stay, ".." goes up, a name goes down. */
  function Enter(dir: seq<seq<byte>>, part: seq<byte>): seq<seq<byte>> {
    if part == [] || part == [46] then dir
    else if part == [46, 46] then if dir == [] then [] else dir[..|dir| - 1]
    else dir + [part]
  }

  function EnterAll(dir: seq<seq<byte>>, parts: seq<seq<byte>>): seq<seq<byte>> {
    if parts == [] then dir else Enter(EnterAll(dir, parts[..|parts| - 1]), parts[|parts| - 1])
  }

  lemma {:induction false} WalkStays(dir: seq<seq<byte>>, parts: seq<seq<byte>>)
    requires [46, 46] !in parts
    ensures dir <= EnterAll(dir, parts)
    ensures parts != [] && parts[0] != [] && parts[0] != [46] ==> |dir| < |EnterAll(dir, parts)|
    decreases |parts|
  {
    if parts != [] {
      var n := |parts| - 1;
      assert parts[n] in parts && forall p :: p in parts[..n] ==> p in parts;
      WalkStays(dir, parts[..n]);
      if n == 0 {
        assert parts[..0] == [];
      }
    }
  }

  /** Walking a contained path component by component never leaves the directory it starts from; if the
      path does not start with ".", it ends strictly below that directory. */
  lemma ContainedStaysBelow(bs: seq<byte>, dir: seq<seq<byte>>, n: nat)
    requires Contained(bs) && n <= |Split(bs)|
    ensures dir <= EnterAll(dir, Split(bs)[..n])
    ensures !DotFirst(bs) ==> dir < EnterAll(dir, Split(bs))
  {
    NoParentMeans(bs);
    FirstComponent(bs);
    assert forall p :: p in Split(bs)[..n] ==> p in Split(bs);
    WalkStays(dir, Split(bs)[..n]);
    WalkStays(dir, Split(bs));
    hide Split, EnterAll;
  }

  // ----- what each program lets through -----

  /** What the receiver, the guest's extraction and the bundle writer refuse alike. */
  ghost predicate FilePath(bs: seq<byte>) {
    Contained(bs) && !DotFirst(bs) && Lacks(bs, {0, 10, 13, 92})
  }

  ghost predicate FilePaths(es: seq<Entry>) {
    forall i :: 0 <= i < |es| ==> FilePath(es[i].path) && |es[i].path| <= 1024
  }

  lemma ReadPaths(es: seq<Entry>, rules: Rules)
    requires EntriesOk(es, rules, None, 0) && rules.maxPath == 1024 && forall p :: rules.pathOk(p) ==> ArtifactPath(p)
    ensures FilePaths(es)
  {
    forall i | 0 <= i < |es|
      ensures FilePath(es[i].path) && |es[i].path| <= 1024
    {
      EntriesMeetRules(es, rules, None, 0, i);
      ChecksOnBytes(es[i].path);
    }
  }

  /** Whatever bytes a guest sends, every file of every artifact that the builder stores stays below the
      directory it is unpacked into, and no path holds a backslash, a line break or a zero. */
  lemma ReceivedPathsAreSafe(bs: seq<byte>, l: Limits, forbidden: seq<seq<byte>>, parse: seq<byte> -> Option<bool>, k: nat)
    requires ReadStream(bs, l, forbidden, parse).Some? && k < |ReadStream(bs, l, forbidden, parse).value.1|
    ensures FilePaths(ReadStream(bs, l, forbidden, parse).value.1[k].entries)
  {
    hide ReadStream, EntriesOk, ArtifactPath, Tainted, FilePaths;
    AcceptedStreams(bs, l, forbidden, parse);
    var a := ReadStream(bs, l, forbidden, parse).value.1[k];
    assert Accepted(a, l, forbidden);
    ReadPaths(a.entries, ReceiveRules(ByteLimit(a.kind, l), forbidden));
  }

  /** So does every file that the runtime unpacks, from any bytes and under any manifest, and no path
      holds a control character. */
  lemma UnpackedPathsAreSafe(bs: seq<byte>, m: BuildManifest, k: nat)
    requires UnpackHca(bs, m).Some? && k < |UnpackHca(bs, m).value|
    ensures var path := UnpackHca(bs, m).value[k].path; Contained(path) && Printable(path) && Lacks(path, {92})
  {
    hide ReadEntries, EntriesOk, SafeArchivePath, CanonicalUuid;
    var (h, r) := ReadHead(bs[4..], 65535).value;
    var (es, rest) := ReadEntries(r, h.count, AppRules(h.total), None, 0).value;
    BytesOfReadEntries(r, h.count, AppRules(h.total), None, 0, es, rest);
    EntriesMeetRules(es, AppRules(h.total), None, 0, k);
    ChecksOnBytes(es[k].path);
  }

  /** And every file of an extracted frontend. */
  lemma ExtractedPathsAreSafe(bs: seq<byte>, m: BuildManifest, parses: seq<byte> -> bool, k: nat)
    requires ExtractStatic(bs, m, parses).Some? && k < |ExtractStatic(bs, m, parses).value|
    ensures var path := ExtractStatic(bs, m, parses).value[k].path; Contained(path) && Lacks(path, {0, 92}) && |path| <= 1024
  {
    hide ReadEntries, EntriesOk, SafeRelative, Utf8;
    var (h, r) := ReadHead(bs[4..], 128).value;
    var (es, rest) := ReadEntries(r, h.count, StaticRules(h.total), None, 0).value;
    BytesOfReadEntries(r, h.count, StaticRules(h.total), None, 0, es, rest);
    EntriesMeetRules(es, StaticRules(h.total), None, 0, k);
    ChecksOnBytes(es[k].path);
  }

  /** And every source file that the guest extracts from any device. */
  lemma SourcePathsAreSafe(bs: seq<byte>)
    requires Extract(bs).Some?
    ensures FilePaths(Extract(bs).value)
  {
    hide ReadEntries, EntriesOk, ArtifactPath, FilePaths;
    var n := Value(bs[4..8]);
    var (es, rest) := ReadEntries(bs[8..], n, SourceRules(|bs|), None, 0).value;
    BytesOfReadEntries(bs[8..], n, SourceRules(|bs|), None, 0, es, rest);
    ReadPaths(es, SourceRules(|bs|));
  }

  /** No two files have the same path after lowering. */
  predicate FoldApart(es: seq<Entry>, lower: seq<byte> -> seq<byte>) {
    forall i, k :: 0 <= i < k < |es| ==> lower(es[i].path) != lower(es[k].path)
  }

  lemma {:induction false} RefusalMeans(es: seq<Entry>, lower: seq<byte> -> seq<byte>, folded: set<seq<byte>>)
    ensures Refusal(es, lower, folded).None? <==>
              (forall i :: 0 <= i < |es| ==> BundlePath(es[i].path) && lower(es[i].path) !in folded) && FoldApart(es, lower)
    decreases |es|
  {
    hide BundlePath;
    if es != [] {
      var more := es[1..];
      RefusalMeans(more, lower, folded + {lower(es[0].path)});
      assert forall i :: 0 <= i < |more| ==> more[i] == es[i + 1];
      assert forall i :: 0 < i < |es| ==> es[i] == more[i - 1];
    }
  }

  ghost predicate Bundleable(bs: seq<byte>) {
    Contained(bs) && !DotFirst(bs) && |bs| <= 1024 && Printable(bs) && Lacks(bs, {92})
  }

  lemma SameFiles(files: seq<Entry>, es: seq<Entry>)
    requires multiset(es) == multiset(files)
    ensures |es| == |files|
    ensures (forall i :: 0 <= i < |es| ==> BundlePath(es[i].path)) <==> forall e :: e in files ==> Bundleable(e.path)
  {
    hide BundlePath, Bundleable;
    assert |es| == |multiset(es)| == |multiset(files)| == |files|;
    forall e: Entry
      ensures BundlePath(e.path) <==> Bundleable(e.path)
      ensures e in files <==> e in es
    {
      BundleableMeans(e.path);
      assert e in files <==> e in multiset(files);
    }
  }

  lemma BundleableMeans(bs: seq<byte>)
    ensures Bundleable(bs) <==> BundlePath(bs)
  {
    ChecksOnBytes(bs);
    hide BundlePath, Contained, DotFirst, Printable, Lacks;
  }

  // ----- no two alike, in any order -----

  lemma Twice(es: seq<Entry>, i: nat, k: nat)
    requires i < k < |es| && es[i] == es[k]
    ensures multiset(es)[es[i]] >= 2
  {
    assert es == es[..i] + [es[i]] + es[i + 1..k] + [es[k]] + es[k + 1..];
  }

  lemma TwoPlaces(es: seq<Entry>, x: Entry) returns (p: nat, q: nat)
    requires multiset(es)[x] >= 2
    ensures p < q < |es| && es[p] == x && es[q] == x
  {
    assert x in multiset(es);
    var i: nat :| i < |es| && es[i] == x;
    Without(es, i);
    var rest := es[..i] + es[i + 1..];
    assert x in multiset(rest);
    var k: nat :| k < |rest| && rest[k] == x;
    if k < i {
      p, q := k, i;
    } else {
      p, q := i, k + 1;
    }
  }

  lemma ApartIgnoresOrder(es: seq<Entry>, fs: seq<Entry>, key: seq<byte> -> seq<byte>)
    requires multiset(es) == multiset(fs) && FoldApart(es, key)
    ensures FoldApart(fs, key)
  {
    forall i, k | 0 <= i < k < |fs|
      ensures key(fs[i].path) != key(fs[k].path)
    {
      if fs[i] == fs[k] {
        Twice(fs, i, k);
        var p, q := TwoPlaces(es, fs[i]);
        assert false;
      } else {
        assert fs[i] in multiset(es) && fs[k] in multiset(es);
        var p: nat :| p < |es| && es[p] == fs[i];
        var q: nat :| q < |es| && es[q] == fs[k];
        assert p != q;
      }
    }
  }

  lemma ApartIff(es: seq<Entry>, fs: seq<Entry>, key: seq<byte> -> seq<byte>)
    requires multiset(es) == multiset(fs)
    ensures FoldApart(es, key) <==> FoldApart(fs, key)
  {
    if FoldApart(es, key) {
      ApartIgnoresOrder(es, fs, key);
    }
    if FoldApart(fs, key) {
      ApartIgnoresOrder(fs, es, key);
    }
  }

  /** A snapshot is bundled iff it has at most 10000 files, every path stays below the root, holds no
      backslash or control character and at most 1024 bytes, and no two paths agree after lowering. */
  lemma BundledIff(files: seq<Entry>, lower: seq<byte> -> seq<byte>)
    ensures Bundle(files, lower).Ok? <==>
              |files| <= 10_000 && (forall e :: e in files ==> Bundleable(e.path)) && FoldApart(files, lower)
  {
    hide Sort, Refusal, BundlePath, FoldApart, Bundleable;
    var es := Sort(files);
    SortSorts(files);
    RefusalMeans(es, lower, {});
    SameFiles(files, es);
    ApartIff(files, es, lower);
    assert forall i :: 0 <= i < |es| ==> lower(es[i].path) !in {};
  }

  lemma {:induction false} InsertTotal(e: Entry, es: seq<Entry>)
    ensures Total(Insert(e, es)) == |e.content| + Total(es)
    decreases |es|
  {
    if es == [] || !Before(es[0].path, e.path) {
      assert ([e] + es)[1..] == es;
    } else {
      InsertTotal(e, es[1..]);
      assert ([es[0]] + Insert(e, es[1..]))[1..] == Insert(e, es[1..]);
    }
  }

  lemma {:induction false} SortTotal(es: seq<Entry>)
    ensures Total(Sort(es)) == Total(es)
    decreases |es|
  {
    if es != [] {
      SortTotal(es[1..]);
      InsertTotal(es[0], Sort(es[1..]));
    }
  }

  function Same(p: seq<byte>): seq<byte> {
    p
  }

  /** Sorted entries ascend strictly iff no two have the same path. */
  lemma AscendingIff(es: seq<Entry>)
    requires Sorted(es)
    ensures Ascending(es) <==> FoldApart(es, Same)
  {
    if Ascending(es) {
      forall i, k | 0 <= i < k < |es|
        ensures Same(es[i].path) != Same(es[k].path)
      {
        AscendingApart(es, i, k);
        BeforeIrreflexive(es[i].path);
      }
    }
    if FoldApart(es, Same) {
      forall i | 0 <= i < |es| - 1
        ensures Before(es[i].path, es[i + 1].path)
      {
        BeforeTotal(es[i].path, es[i + 1].path);
        assert Same(es[i].path) != Same(es[i + 1].path);
      }
    }
  }

  /** A file the guest can send: of the receiver's path form, in UTF-8, of one of the two modes. */
  ghost predicate Sendable(e: Entry) {
    FilePath(e.path) && |e.path| <= 1024 && Utf8(e.path) && e.mode in {420, 493} && |e.content| < 0x1_0000_0000_0000_0000
  }

  lemma CollectableMeans(e: Entry)
    ensures Collectable(e) <==> Sendable(e)
  {
    ChecksOnBytes(e.path);
    Widths();
    hide ArtifactPath, Contained, DotFirst, Lacks, Utf8;
  }

  /** A service's output is planned iff every file can be sent, no two have the same path, the kind is known,
      and there are files, not too many and not too large together. */
  lemma PlannedIff(d: Declared, l: Limits)
    ensures PlanOne(d, l).Ok? <==>
              && (forall i :: 0 <= i < |d.files| ==> Sendable(d.files[i])) && FoldApart(d.files, Same)
              && (d.kind == 1 || d.kind == 2)
              && 0 < |d.files| <= l.maxEntries && Total(d.files) <= (if d.kind == 1 then l.staticBytes else l.runtimeBytes)
  {
    SortSorts(d.files);
    SortTotal(d.files);
    AscendingIff(Sort(d.files));
    ApartIff(Sort(d.files), d.files, Same);
    hide Sort, Total, Ascending, FoldApart, Collectable, Sendable;
    forall i | 0 <= i < |d.files|
      ensures Collectable(d.files[i]) <==> Sendable(d.files[i])
    {
      CollectableMeans(d.files[i]);
    }
  }
}
