/** Build output survives its three programs: what the guest planned is what the builder stores and
    what the runtime and the release coordinator unpack, with the same counts at every stage. */
module OutputRoundTrip {
  import opened Common
  import opened Bytes
  import opened Paths
  import opened Archive
  import opened Sorting
  import opened Scanner
  import opened GuestOutput
  import opened Unpackers

  /** The widths of the limits: u32 entries and report, u64 bytes. */
  predicate Machine(l: Limits) {
    l.staticBytes < Pow256(8) && l.runtimeBytes < Pow256(8) && l.maxEntries < Pow256(4)
  }

  /** An artifact as write_success plans it. */
  predicate Planned(a: Archive, l: Limits) {
    && a.kind in {STATIC, APPLICATION} && 0 < |a.entries| <= l.maxEntries && Total(a.entries) <= ByteLimit(a.kind, l)
    && Ascending(a.entries) && forall i :: 0 <= i < |a.entries| ==> Collectable(a.entries[i])
  }

  /** No file holds a build credential. */
  predicate Clean(a: Archive, forbidden: seq<seq<byte>>) {
    forall i :: 0 <= i < |a.entries| ==> !Tainted(a.entries[i].content, forbidden)
  }

  /** No artifact has the kind of an earlier one. */
  predicate NewKinds(archives: seq<Archive>, kinds: set<byte>) {
    archives == [] || (archives[0].kind !in kinds && NewKinds(archives[1..], kinds + {archives[0].kind}))
  }

  lemma PlanOneMeans(d: Declared, l: Limits)
    requires PlanOne(d, l).Ok?
    ensures var a := PlanOne(d, l).value; Planned(a, l) && a.service == d.id && a.kind == d.kind && a.entries == Sort(d.files)
    ensures multiset(PlanOne(d, l).value.entries) == multiset(d.files)
  {
    SortSorts(d.files);
    var es := Sort(d.files);
    forall i | 0 <= i < |es|
      ensures Collectable(es[i])
    {
      assert es[i] in multiset(es);
    }
  }

  lemma {:induction false} PlanAllMeans(ds: seq<Declared>, l: Limits)
    requires PlanAll(ds, l).Ok?
    ensures var archives := PlanAll(ds, l).value;
            |archives| == |ds| && forall i :: 0 <= i < |ds| ==> PlanOne(ds[i], l) == Ok(archives[i])
    decreases |ds|
  {
    hide PlanOne;
    if ds != [] {
      PlanAllMeans(ds[1..], l);
      var archives := PlanAll(ds, l).value;
      forall i | 0 <= i < |ds|
        ensures PlanOne(ds[i], l) == Ok(archives[i])
      {
        if i > 0 {
          assert ds[i] == ds[1..][i - 1];
        }
      }
    }
  }

  lemma CollectableIsWritable(e: Entry)
    requires Collectable(e)
    ensures Writable(e)
  {
    Widths();
  }

  /** Planned entries meet the receiver's rules exactly when they are clean. */
  lemma PlannedIsAccepted(a: Archive, l: Limits, forbidden: seq<seq<byte>>)
    requires Planned(a, l)
    ensures EntriesOk(a.entries, ReceiveRules(ByteLimit(a.kind, l), forbidden), None, 0) <==> Clean(a, forbidden)
    ensures forall i :: 0 <= i < |a.entries| ==> Writable(a.entries[i])
  {
    hide Tainted, EntriesOk, ArtifactPath, Utf8;
    var es, rules := a.entries, ReceiveRules(ByteLimit(a.kind, l), forbidden);
    forall i | 0 <= i < |es|
      ensures Writable(es[i])
    {
      CollectableIsWritable(es[i]);
    }
    if Clean(a, forbidden) {
      forall i | 0 <= i < |es|
        ensures |es[i].path| < Pow256(2) && rules.pathOk(es[i].path) && rules.contentOk(es[i].content) && 0 < |es[i].path| <= rules.maxPath
      {
        assert Collectable(es[i]) && Writable(es[i]);
      }
      AscendingIsAccepted(es, rules, None, 0);
    }
    if EntriesOk(es, rules, None, 0) {
      forall i | 0 <= i < |es|
        ensures !Tainted(es[i].content, forbidden)
      {
        EntriesMeetRules(es, rules, None, 0, i);
        assert rules.contentOk(es[i].content);
      }
    }
  }

  lemma UuidFits(bs: seq<byte>)
    requires ValidUuid(bs)
    ensures 0 < |bs| <= 128 && |bs| < Pow256(2)
  {
    Widths();
  }

  lemma ReadArchiveOfBytes(a: Archive, rest: seq<byte>, kinds: set<byte>, l: Limits, forbidden: seq<seq<byte>>)
    requires Machine(l) && Planned(a, l) && ValidUuid(a.service)
    ensures ReadArchive(ArchiveBytes(a) + rest, kinds, l, forbidden)
            == if a.kind !in kinds && Clean(a, forbidden) then Some((a, rest)) else None
  {
    hide ReadEntries, ReadHead, EntriesBytes, EntriesOk, ReceiveRules, Clean, ValidUuid;
    var bs := ArchiveBytes(a) + rest;
    var body := EntriesBytes(a.entries) + rest;
    assert bs == Header(a) + body && bs[0] == a.kind;
    UuidFits(a.service);
    ReadHeadOfBytes(a, body, 128);
    PlannedIsAccepted(a, l, forbidden);
    ReadEntriesOfBytes(a.entries, rest, ReceiveRules(ByteLimit(a.kind, l), forbidden), None, 0);
  }

  lemma {:induction false} ReadArchivesOfBytes(archives: seq<Archive>, kinds: set<byte>, l: Limits, forbidden: seq<seq<byte>>)
    requires Machine(l) && forall i :: 0 <= i < |archives| ==> Planned(archives[i], l) && ValidUuid(archives[i].service)
    ensures ReadArchives(ArchivesBytes(archives), |archives|, kinds, l, forbidden)
            == if NewKinds(archives, kinds) && (forall i :: 0 <= i < |archives| ==> Clean(archives[i], forbidden))
               then Some((archives, [])) else None
    decreases |archives|
  {
    hide ReadArchive, ArchiveBytes, Clean, Planned, ValidUuid;
    if archives != [] {
      var a, more := archives[0], archives[1..];
      ReadArchiveOfBytes(a, ArchivesBytes(more), kinds, l, forbidden);
      ReadArchivesOfBytes(more, kinds + {a.kind}, l, forbidden);
      assert archives == [a] + more;
      assert forall i :: 0 <= i < |more| ==> more[i] == archives[i + 1];
      assert (forall i :: 0 <= i < |archives| ==> Clean(archives[i], forbidden))
        <==> Clean(a, forbidden) && forall i :: 0 <= i < |more| ==> Clean(more[i], forbidden) by {
        if Clean(a, forbidden) && forall i :: 0 <= i < |more| ==> Clean(more[i], forbidden) {
          forall i | 0 <= i < |archives|
            ensures Clean(archives[i], forbidden)
          {
            if i > 0 {
              assert archives[i] == more[i - 1];
            }
          }
        }
      }
    }
  }

  lemma StreamParts(report: seq<byte>, archives: seq<Archive>)
    requires |archives| < 256
    ensures var bs := StreamBytes(report, archives); var n := |report|;
            && |bs| >= 8 + n + 1 && bs[..4] == HBO1 && bs[4..8] == BE(n, 4) && bs[8..8 + n] == report
            && bs[8 + n] == |archives| && bs[8 + n + 1..] == ArchivesBytes(archives)
  {
    hide ArchivesBytes, BE;
  }

  /** The builder accepts what the guest wrote, artifact for artifact, unless there are more than two,
      two share a kind or a file holds a credential. */
  lemma ReceiveOfStream(report: seq<byte>, archives: seq<Archive>, l: Limits, forbidden: seq<seq<byte>>, parse: seq<byte> -> Option<bool>)
    requires Machine(l) && |archives| < 256 && 0 < |report| <= l.reportBytes && |report| < Pow256(4) && parse(report) == Some(true)
    requires forall i :: 0 <= i < |archives| ==> Planned(archives[i], l) && ValidUuid(archives[i].service)
    ensures ReadStream(StreamBytes(report, archives), l, forbidden, parse)
            == if |archives| <= 2 && NewKinds(archives, {}) && (forall i :: 0 <= i < |archives| ==> Clean(archives[i], forbidden))
               then Some((true, archives)) else None
  {
    hide ReadArchives, ArchivesBytes, Planned, ValidUuid, Clean, NewKinds, StreamBytes, BE, Value;
    ValueOfBE(|report|, 4);
    StreamParts(report, archives);
    ReadArchivesOfBytes(archives, {}, l, forbidden);
  }

  // ----- what the receiver accepts, from any guest -----

  /** An artifact as the builder has checked it. */
  predicate Accepted(a: Archive, l: Limits, forbidden: seq<seq<byte>>) {
    && a.kind in {STATIC, APPLICATION} && ValidUuid(a.service)
    && 0 < |a.entries| <= l.maxEntries && Total(a.entries) <= ByteLimit(a.kind, l)
    && EntriesOk(a.entries, ReceiveRules(ByteLimit(a.kind, l), forbidden), None, 0)
  }

  lemma BytesOfReadArchive(bs: seq<byte>, kinds: set<byte>, l: Limits, forbidden: seq<seq<byte>>)
    requires ReadArchive(bs, kinds, l, forbidden).Some?
    ensures var (a, rest) := ReadArchive(bs, kinds, l, forbidden).value;
            bs == ArchiveBytes(a) + rest && Accepted(a, l, forbidden) && a.kind !in kinds
  {
    hide ReadEntries, ReadHead, EntriesBytes, EntriesOk, ReceiveRules, ValidUuid;
    var (h, r) := ReadHead(bs, 128).value;
    var rules := ReceiveRules(ByteLimit(h.kind, l), forbidden);
    BytesOfReadHead(bs, 128);
    assert bs[0] == h.kind;
    var (es, rest) := ReadEntries(r, h.count, rules, None, 0).value;
    BytesOfReadEntries(r, h.count, rules, None, 0, es, rest);
    var a := Archive(h.kind, h.service, es);
    assert bs == Header(a) + (EntriesBytes(es) + rest);
  }

  lemma {:induction false} BytesOfReadArchives(bs: seq<byte>, n: nat, kinds: set<byte>, l: Limits, forbidden: seq<seq<byte>>)
    requires ReadArchives(bs, n, kinds, l, forbidden).Some?
    ensures var (archives, rest) := ReadArchives(bs, n, kinds, l, forbidden).value;
            && |archives| == n && bs == ArchivesBytes(archives) + rest && NewKinds(archives, kinds)
            && forall i :: 0 <= i < n ==> Accepted(archives[i], l, forbidden)
    decreases n
  {
    hide ReadArchive, ArchiveBytes, Accepted;
    if n > 0 {
      var (a, r) := ReadArchive(bs, kinds, l, forbidden).value;
      BytesOfReadArchive(bs, kinds, l, forbidden);
      BytesOfReadArchives(r, n - 1, kinds + {a.kind}, l, forbidden);
      var (more, rest) := ReadArchives(r, n - 1, kinds + {a.kind}, l, forbidden).value;
      var archives := [a] + more;
      assert archives[1..] == more;
      assert bs == ArchiveBytes(a) + ArchivesBytes(more) + rest;
    }
  }

  /** Whatever a guest sends, an accepted stream is the encoding of the artifacts received: nothing is
      dropped, added or read two ways, and each artifact is ordered, clean and within limits. */
  lemma AcceptedStreams(bs: seq<byte>, l: Limits, forbidden: seq<seq<byte>>, parse: seq<byte> -> Option<bool>)
    requires ReadStream(bs, l, forbidden, parse).Some?
    ensures var (ok, archives) := ReadStream(bs, l, forbidden, parse).value;
            && |archives| <= 2 && NewKinds(archives, {}) && (!ok ==> archives == [])
            && (forall i :: 0 <= i < |archives| ==> Accepted(archives[i], l, forbidden))
            && exists report: seq<byte> :: |report| <= l.reportBytes && parse(report) == Some(ok) && bs == StreamBytes(report, archives)
  {
    hide ReadArchives, ArchivesBytes, Accepted, NewKinds;
    var n := Value(bs[4..8]);
    var count := bs[8 + n];
    var report := bs[8..8 + n];
    var rest := bs[8 + n + 1..];
    BytesOfReadArchives(rest, count, {}, l, forbidden);
    BEOfValue(bs[4..8]);
    var archives := ReadArchives(rest, count, {}, l, forbidden).value.0;
    assert bs == bs[..4] + bs[4..8] + report + [count] + rest;
    assert bs == StreamBytes(report, archives);
  }

  lemma {:induction false} AcceptedAscend(es: seq<Entry>, rules: Rules, previous: Option<seq<byte>>, used: nat)
    requires EntriesOk(es, rules, previous, used)
    ensures Ascending(es)
    decreases |es|
  {
    hide Before, EntryOk;
    if |es| > 1 {
      AcceptedAscend(es[1..], rules, Some(es[0].path), used + |es[0].content|);
      AcceptedFollows(es, rules, previous, used);
      forall i | 0 <= i < |es| - 1
        ensures Before(es[i].path, es[i + 1].path)
      {
        if i > 0 {
          assert Before(es[1..][i - 1].path, es[1..][i - 1 + 1].path);
        }
      }
    }
  }

  lemma AcceptedFollows(es: seq<Entry>, rules: Rules, previous: Option<seq<byte>>, used: nat)
    requires EntriesOk(es, rules, previous, used) && |es| > 1
    ensures Before(es[0].path, es[1].path)
  {
    hide Before;
    assert es[1..][0] == es[1];
  }

  /** File `i` is a package.json of at most 64 KiB with this content. */
  predicate IsPackage(es: seq<Entry>, i: nat, content: seq<byte>) {
    i < |es| && es[i].path == Letters("package.json") && es[i].content == content && |content| <= 65_536
  }

  lemma {:induction false} PackageJsonIff(es: seq<Entry>, content: seq<byte>)
    requires forall i, k :: 0 <= i < k < |es| ==> es[i].path != es[k].path
    ensures PackageJson(es) == Some(content) <==> exists i: nat :: IsPackage(es, i, content)
    decreases |es|
  {
    hide Letters;
    if es != [] {
      var n := |es| - 1;
      PackageJsonIff(es[..n], content);
      assert PackageJson(es) == Some(content) && PackageJson(es[..n]) != Some(content) ==> IsPackage(es, n, content);
      if i: nat :| IsPackage(es[..n], i, content) {
        assert IsPackage(es, i, content);
      }
      if i: nat :| IsPackage(es, i, content) {
        assert i < n ==> IsPackage(es[..n], i, content) && es[i].path != es[n].path;
      }
    }
  }

  /** What the builder reports about an accepted artifact: its counts, its paths, and its package.json iff it has
      one of at most 64 KiB. */
  lemma ReportedFacts(a: Archive, l: Limits, forbidden: seq<seq<byte>>, content: seq<byte>)
    requires Accepted(a, l, forbidden)
    ensures var r := Receive1(a);
            && r.service == a.service && r.kind == a.kind && r.count == |a.entries| && r.unpacked == Total(a.entries) && r.packed == |r.archive|
            && (forall p :: p in r.paths <==> exists i :: 0 <= i < |a.entries| && a.entries[i].path == p) && |r.paths| == r.count
            && (r.packageJson == Some(content) <==> exists i: nat :: IsPackage(a.entries, i, content))
  {
    AcceptedAscend(a.entries, ReceiveRules(ByteLimit(a.kind, l), forbidden), None, 0);
    hide EntriesOk, Before, HcaBytes, ReceiveRules, ValidUuid, PackageJson, IsPackage;
    forall i, k | 0 <= i < k < |a.entries|
      ensures a.entries[i].path != a.entries[k].path
    {
      AscendingApart(a.entries, i, k);
      BeforeIrreflexive(a.entries[i].path);
    }
    PathsSize(a.entries);
    PackageJsonIff(a.entries, content);
  }

  lemma {:induction false} PathsSize(es: seq<Entry>)
    requires forall i, k :: 0 <= i < k < |es| ==> es[i].path != es[k].path
    ensures |PathsOf(es)| == |es|
    decreases |es|
  {
    if es != [] {
      var n := |es| - 1;
      PathsSize(es[..n]);
      PathsOfAppend(es[..n], es[n]);
      assert es == es[..n] + [es[n]];
    }
  }

  // ----- the stored archive, read back -----

  lemma {:induction false} AcceptedEntry(es: seq<Entry>, rules: Rules, previous: Option<seq<byte>>, used: nat, i: nat)
    requires EntriesOk(es, rules, previous, used) && i < |es|
    ensures Writable(es[i])
    decreases |es|
  {
    if i > 0 {
      assert es[i] == es[1..][i - 1];
      AcceptedEntry(es[1..], rules, Some(es[0].path), used + |es[0].content|, i - 1);
    }
  }

  /** A later reader's rules admit what the receiver's rules admitted iff they admit its paths. */
  lemma ReadAgain(es: seq<Entry>, cap: nat, forbidden: seq<seq<byte>>, rules: Rules)
    requires EntriesOk(es, ReceiveRules(cap, forbidden), None, 0)
    requires rules.cap == Total(es) && rules.maxPath >= 1024 && forall c :: rules.contentOk(c)
    ensures ReadEntries(EntriesBytes(es), |es|, rules, None, 0)
            == if forall i :: 0 <= i < |es| ==> rules.pathOk(es[i].path) then Some((es, [])) else None
  {
    hide EntriesOk, ReadEntries, EntriesBytes;
    forall i | 0 <= i < |es|
      ensures Writable(es[i])
    {
      AcceptedEntry(es, ReceiveRules(cap, forbidden), None, 0, i);
    }
    assert EntriesBytes(es) + [] == EntriesBytes(es);
    ReadEntriesOfBytes(es, [], rules, None, 0);
    if forall i :: 0 <= i < |es| ==> rules.pathOk(es[i].path) {
      LooserRules(es, ReceiveRules(cap, forbidden), rules, None, 0);
    } else {
      var i :| 0 <= i < |es| && !rules.pathOk(es[i].path);
      if EntriesOk(es, rules, None, 0) {
        EntriesMeetRules(es, rules, None, 0, i);
      }
    }
  }

  predicate ControlFreePaths(es: seq<Entry>) {
    forall i :: 0 <= i < |es| ==> ControlFree(es[i].path)
  }

  lemma AcceptedPaths(a: Archive, l: Limits, forbidden: seq<seq<byte>>, i: nat)
    requires Accepted(a, l, forbidden) && i < |a.entries|
    ensures SafeArchivePath(a.entries[i].path) <==> ControlFree(a.entries[i].path)
    ensures SafeRelative(a.entries[i].path)
  {
    var rules := ReceiveRules(ByteLimit(a.kind, l), forbidden);
    EntriesMeetRules(a.entries, rules, None, 0, i);
    assert rules.pathOk(a.entries[i].path);
    ReadersAgree(a.entries[i].path);
  }

  lemma HcaParts(a: Archive, l: Limits, forbidden: seq<seq<byte>>, maxService: nat)
    requires Machine(l) && Accepted(a, l, forbidden) && maxService >= 36
    ensures var bs := HcaBytes(a);
            && |bs| >= 4 && bs[..4] == HCA1
            && ReadHead(bs[4..], maxService) == Some((Head(a.kind, a.service, |a.entries|, Total(a.entries)), EntriesBytes(a.entries)))
  {
    hide EntriesBytes, ReadHead, EntriesOk;
    Widths();
    var bs := HcaBytes(a);
    assert bs[4..] == Header(a) + EntriesBytes(a.entries);
    ReadHeadOfBytes(a, EntriesBytes(a.entries), maxService);
  }

  /** The runtime unpacks an accepted application to exactly its files, under the manifest of what was
      received, iff the service id is in canonical spelling, no path holds a control byte and the
      script's own limits hold. */
  lemma ApplicationUnpacks(a: Archive, l: Limits, forbidden: seq<seq<byte>>)
    requires Machine(l) && Accepted(a, l, forbidden) && a.kind == APPLICATION
    ensures UnpackHca(HcaBytes(a), ManifestOf(Receive1(a)))
            == if CanonicalUuid(a.service) && ControlFreePaths(a.entries) && |a.entries| <= 100_000 && Total(a.entries) <= 2_147_483_648
               then Some(a.entries) else None
  {
    hide EntriesBytes, ReadHead, ReadEntries, EntriesOk, HcaBytes, CanonicalUuid, SafeArchivePath, ControlFree, ReceiveRules, PathsOf, PackageJson;
    HcaParts(a, l, forbidden, 65535);
    var rules := AppRules(Total(a.entries));
    ReadAgain(a.entries, ByteLimit(a.kind, l), forbidden, rules);
    forall i | 0 <= i < |a.entries|
      ensures rules.pathOk(a.entries[i].path) == ControlFree(a.entries[i].path)
    {
      AcceptedPaths(a, l, forbidden, i);
    }
    assert ControlFreePaths(a.entries) <==> forall i :: 0 <= i < |a.entries| ==> rules.pathOk(a.entries[i].path);
  }

  lemma {:induction false} AsciiIsUtf8(bs: seq<byte>)
    requires Ascii(bs)
    ensures Utf8(bs)
    decreases |bs|
  {
    if bs != [] {
      AsciiIsUtf8(bs[1..]);
    }
  }

  /** The release coordinator extracts an accepted frontend to exactly its files iff its own limits hold. */
  lemma StaticExtracts(a: Archive, l: Limits, forbidden: seq<seq<byte>>, parses: seq<byte> -> bool)
    requires Machine(l) && Accepted(a, l, forbidden) && a.kind == STATIC
    ensures ExtractStatic(HcaBytes(a), ManifestOf(Receive1(a)), parses)
            == if parses(a.service) && |a.entries| <= 10_000 && Total(a.entries) <= 262_144_000
               then Some(a.entries) else None
  {
    hide EntriesBytes, ReadHead, ReadEntries, EntriesOk, HcaBytes, SafeRelative, ReceiveRules, PathsOf, PackageJson, Utf8;
    HcaParts(a, l, forbidden, 128);
    AsciiIsUtf8(a.service);
    var rules := StaticRules(Total(a.entries));
    ReadAgain(a.entries, ByteLimit(a.kind, l), forbidden, rules);
    forall i | 0 <= i < |a.entries|
      ensures rules.pathOk(a.entries[i].path)
    {
      AcceptedPaths(a, l, forbidden, i);
    }
  }

  // ----- from the guest's directories to the unpacked files -----

  /** The whole way for the i-th declared service of a clean build with one service per kind. */
  lemma EndToEnd(ds: seq<Declared>, l: Limits, forbidden: seq<seq<byte>>, report: seq<byte>, parse: seq<byte> -> Option<bool>,
                 parses: seq<byte> -> bool, i: nat)
    requires Machine(l) && i < |ds| < 256 && forall k :: 0 <= k < |ds| ==> ValidUuid(ds[k].id)
    requires 0 < |report| <= l.reportBytes && |report| < Pow256(4) && parse(report) == Some(true)
    requires PlanAll(ds, l).Ok? && |PlanAll(ds, l).value| == |ds|
    requires ReadStream(StreamBytes(report, PlanAll(ds, l).value), l, forbidden, parse).Some?
    ensures var received := ReadStream(StreamBytes(report, PlanAll(ds, l).value), l, forbidden, parse).value;
            var files := Sort(ds[i].files);
            && received.0 && |received.1| == |ds|
            && var a := received.1[i];
            var stored := Receive1(a);
            && stored.service == ds[i].id && stored.kind == ds[i].kind && stored.count == |ds[i].files|
            && (ds[i].kind == APPLICATION ==>
                  UnpackHca(stored.archive, ManifestOf(stored))
                  == if CanonicalUuid(ds[i].id) && ControlFreePaths(files) && |files| <= 100_000 && Total(files) <= 2_147_483_648
                     then Some(files) else None)
            && (ds[i].kind == STATIC ==>
                  ExtractStatic(stored.archive, ManifestOf(stored), parses)
                  == if parses(ds[i].id) && |files| <= 10_000 && Total(files) <= 262_144_000 then Some(files) else None)
  {
    hide ReadStream, StreamBytes, PlanOne, UnpackHca, ExtractStatic, Sort, HcaBytes, Accepted, Planned, Clean, NewKinds,
         CanonicalUuid, ValidUuid, PathsOf, PackageJson, Utf8;
    var archives := PlanAll(ds, l).value;
    PlanAllMeans(ds, l);
    forall k | 0 <= k < |ds|
      ensures Planned(archives[k], l) && ValidUuid(archives[k].service) && archives[k].entries == Sort(ds[k].files) && archives[k].kind == ds[k].kind
              && archives[k].service == ds[k].id
    {
      PlanOneMeans(ds[k], l);
    }
    ReceiveOfStream(report, archives, l, forbidden, parse);
    AcceptedStreams(StreamBytes(report, archives), l, forbidden, parse);
    var a := archives[i];
    SortSorts(ds[i].files);
    assert Accepted(a, l, forbidden);
    if ds[i].kind == APPLICATION {
      ApplicationUnpacks(a, l, forbidden);
    }
    if ds[i].kind == STATIC {
      StaticExtracts(a, l, forbidden, parses);
    }
  }

  // ----- applications that are stored and then refused -----

  function OneFile(id: seq<byte>, path: seq<byte>): seq<Declared> {
    [Declared(id, APPLICATION, [Entry(path, PLAIN_MODE, [])])]
  }

  lemma OneFilePlan(id: seq<byte>, path: seq<byte>, l: Limits)
    requires l.maxEntries >= 1 && |path| <= 1024 && ArtifactPath(path) && Utf8(path)
    ensures var a := Archive(APPLICATION, id, [Entry(path, PLAIN_MODE, [])]); PlanAll(OneFile(id, path), l) == Ok([a]) && Planned(a, l)
  {
    hide ArtifactPath, Utf8;
    var e := Entry(path, PLAIN_MODE, []);
    var es, ds, a := [e], OneFile(id, path), Archive(APPLICATION, id, [e]);
    assert es[1..] == [] && ds[1..] == [];
    assert Sort([]) == [] && Total([]) == 0;
    assert Sort(es) == es && Total(es) == 0;
    Widths();
    assert Collectable(e);
    assert PlanOne(ds[0], l) == Ok(a);
    assert PlanAll(ds[1..], l) == Ok([]) && [a] + [] == [a];
    PlanOneMeans(ds[0], l);
  }

  /** The way of an application with one empty file: guest and builder take any path and any spelling of
      the id they can write, the runtime does not. */
  lemma OneFileChain(id: seq<byte>, path: seq<byte>, l: Limits, forbidden: seq<seq<byte>>, report: seq<byte>, parse: seq<byte> -> Option<bool>)
    requires Machine(l) && l.maxEntries >= 1 && ValidUuid(id) && |path| <= 1024 && ArtifactPath(path) && Utf8(path)
    requires 0 < |report| <= l.reportBytes && |report| < Pow256(4) && parse(report) == Some(true)
    ensures var plan := PlanAll(OneFile(id, path), l);
            && plan.Ok? && |plan.value| == 1
            && ReadStream(StreamBytes(report, plan.value), l, forbidden, parse) == Some((true, plan.value))
            && var stored := Receive1(plan.value[0]);
            UnpackHca(stored.archive, ManifestOf(stored))
            == if CanonicalUuid(id) && ControlFree(path) then Some([Entry(path, PLAIN_MODE, [])]) else None
  {
    var e := Entry(path, PLAIN_MODE, []);
    var a := Archive(APPLICATION, id, [e]);
    OneFilePlan(id, path, l);
    hide PlanAll, ReadStream, StreamBytes, UnpackHca, HcaBytes, ArtifactPath, Utf8, ValidUuid, CanonicalUuid, ControlFree, PathsOf, PackageJson,
         Planned;
    NothingForbidden([], forbidden);
    assert Clean(a, forbidden) && NewKinds([a], {});
    ReceiveOfStream(report, [a], l, forbidden, parse);
    PlannedIsAccepted(a, l, forbidden);
    ApplicationUnpacks(a, l, forbidden);
    assert ControlFreePaths(a.entries) <==> ControlFree(path);
  }

  /** A file named `a<tab>b` is built and stored, and the runtime refuses the artifact. */
  lemma TabPathIsRefused(id: seq<byte>, l: Limits, forbidden: seq<seq<byte>>, report: seq<byte>, parse: seq<byte> -> Option<bool>)
    requires Machine(l) && l.maxEntries >= 1 && ValidUuid(id)
    requires 0 < |report| <= l.reportBytes && |report| < Pow256(4) && parse(report) == Some(true)
    ensures var plan := PlanAll(OneFile(id, [97, 9, 98]), l);
            && plan.Ok? && |plan.value| == 1 && ReadStream(StreamBytes(report, plan.value), l, forbidden, parse).Some?
            && UnpackHca(Receive1(plan.value[0]).archive, ManifestOf(Receive1(plan.value[0]))) == None
  {
    var path: seq<byte> := [97, 9, 98];
    AsciiIsUtf8(path);
    SplitWhole(path);
    assert Control(path[1]);
    OneFileChain(id, path, l, forbidden, report, parse);
  }

  function UpperId(): (id: seq<byte>)
    ensures ValidUuid(id) && !CanonicalUuid(id)
  {
    var id: seq<byte> := seq(36, i => if i in {8, 13, 18, 23} then 45 else 65);
    assert UpperHex(id[0]);
    id
  }

  /** So is one under a service id with upper-case digits, which guest and builder also pass on. */
  lemma UpperCaseIdIsRefused(path: seq<byte>, l: Limits, forbidden: seq<seq<byte>>, report: seq<byte>, parse: seq<byte> -> Option<bool>)
    requires Machine(l) && l.maxEntries >= 1 && |path| <= 1024 && ArtifactPath(path) && Utf8(path)
    requires 0 < |report| <= l.reportBytes && |report| < Pow256(4) && parse(report) == Some(true)
    ensures var plan := PlanAll(OneFile(UpperId(), path), l);
            && plan.Ok? && |plan.value| == 1 && ReadStream(StreamBytes(report, plan.value), l, forbidden, parse).Some?
            && UnpackHca(Receive1(plan.value[0]).archive, ManifestOf(Receive1(plan.value[0]))) == None
  {
    OneFileChain(UpperId(), path, l, forbidden, report, parse);
  }
}
