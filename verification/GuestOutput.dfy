/** Build output on its way from the guest to its users: write_success in the guest, receive in
    the builder, and the two scripts that unpack the stored archive. */
module GuestOutput {
  import opened Common
  import opened Bytes
  import opened Paths
  import opened Archive
  import opened Sorting
  import opened Scanner

  const HBO1: seq<byte> := [72, 66, 79, 49]
  const HCA1: seq<byte> := [72, 67, 65, 49]
  const STATIC: byte := 1
  const APPLICATION: byte := 2

  datatype Limits = Limits(staticBytes: nat, runtimeBytes: nat, maxEntries: nat, reportBytes: nat)

  function ByteLimit(kind: byte, l: Limits): nat {
    if kind == STATIC then l.staticBytes else l.runtimeBytes
  }

  // ----- the guest -----

  /** A service and the files under its output directory, in directory order. */
  datatype Declared = Declared(id: seq<byte>, kind: byte, files: seq<Entry>)

  datatype WriteError = OutputInvalid | ServiceKind | OutputTooLarge(kind: byte) | ArtifactCount

  /** What collect_files admits: a relative path of at most 1024 bytes and a normalized mode. */
  predicate Collectable(e: Entry) {
    && |e.path| <= 1024 && ArtifactPath(e.path) && Utf8(e.path)
    && e.mode in {PLAIN_MODE, EXECUTABLE_MODE} && |e.content| < Pow256(8)
  }

  function PlanOne(d: Declared, l: Limits): Result<Archive, WriteError> {
    var es := Sort(d.files);
    if !(forall i :: 0 <= i < |d.files| ==> Collectable(d.files[i])) || !Ascending(es) then Err(OutputInvalid)
    else if d.kind !in {STATIC, APPLICATION} then Err(ServiceKind)
    else if Total(es) > ByteLimit(d.kind, l) then Err(OutputTooLarge(d.kind))
    else if |es| == 0 || |es| > l.maxEntries then Err(OutputInvalid)
    else Ok(Archive(d.kind, d.id, es))
  }

  function PlanAll(ds: seq<Declared>, l: Limits): Result<seq<Archive>, WriteError> {
    if ds == [] then Ok([])
    else
      var first := PlanOne(ds[0], l);
      if first.Err? then Err(first.error)
      else
        var more := PlanAll(ds[1..], l);
        if more.Err? then more else Ok([first.value] + more.value)
  }

  function ArchivesBytes(archives: seq<Archive>): seq<byte> {
    if archives == [] then [] else ArchiveBytes(archives[0]) + ArchivesBytes(archives[1..])
  }

  /** The stream of a successful guest; `report` is its JSON. */
  function StreamBytes(report: seq<byte>, archives: seq<Archive>): seq<byte>
    requires |archives| < 256
  {
    HBO1 + BE(|report|, 4) + report + [|archives|] + ArchivesBytes(archives)
  }

  /** The stored form of one artifact. */
  function HcaBytes(a: Archive): seq<byte> {
    HCA1 + ArchiveBytes(a)
  }

  lemma {:induction false} ArchivesBytesAppend(archives: seq<Archive>, a: Archive)
    ensures ArchivesBytes(archives + [a]) == ArchivesBytes(archives) + ArchiveBytes(a)
    decreases |archives|
  {
    hide ArchiveBytes;
    if archives == [] {
      assert [] + [a] == [a] && [a][1..] == [];
      assert ArchivesBytes([a]) == ArchiveBytes(a) + [];
    } else {
      assert (archives + [a])[1..] == archives[1..] + [a];
      ArchivesBytesAppend(archives[1..], a);
    }
  }

  /** The writing loops, once every artifact is planned. */
  method WriteArchives(archives: seq<Archive>) returns (output: seq<byte>)
    ensures output == ArchivesBytes(archives)
  {
    hide EntryBytes, Str, BE;
    output := [];
    var i := 0;
    while i < |archives|
      invariant 0 <= i <= |archives| && output == ArchivesBytes(archives[..i])
    {
      var a := archives[i];
      ghost var before := output;
      output := output + Header(a);
      var k := 0;
      while k < |a.entries|
        invariant 0 <= k <= |a.entries| && output == before + Header(a) + EntriesBytes(a.entries[..k])
      {
        EntriesBytesAppend(a.entries[..k], a.entries[k]);
        assert a.entries[..k + 1] == a.entries[..k] + [a.entries[k]];
        output := output + EntryBytes(a.entries[k]);
        k := k + 1;
      }
      assert a.entries[..k] == a.entries;
      assert output == before + ArchiveBytes(a);
      ArchivesBytesAppend(archives[..i], a);
      assert archives[..i + 1] == archives[..i] + [a];
      i := i + 1;
    }
    assert archives[..i] == archives;
  }

  /** What planning has done after some services, and still has to do. */
  ghost function PlanAfter(planned: seq<Archive>, rest: seq<Declared>, l: Limits): Result<seq<Archive>, WriteError> {
    var more := PlanAll(rest, l);
    if more.Err? then more else Ok(planned + more.value)
  }

  lemma PlanNext(planned: seq<Archive>, rest: seq<Declared>, l: Limits)
    requires rest != [] && PlanOne(rest[0], l).Ok?
    ensures PlanAfter(planned, rest, l) == PlanAfter(planned + [PlanOne(rest[0], l).value], rest[1..], l)
  {
    hide PlanOne;
    var one := PlanOne(rest[0], l).value;
    var more := PlanAll(rest[1..], l);
    assert more.Ok? ==> planned + ([one] + more.value) == planned + [one] + more.value;
  }

  /** Everything is planned before a byte is written. */
  method WriteSuccess(ds: seq<Declared>, l: Limits, report: seq<byte>) returns (r: Result<seq<byte>, WriteError>)
    ensures var plan := PlanAll(ds, l);
            if plan.Err? then r == Err(plan.error)
            else |plan.value| == |ds| && r == if |ds| < 256 then Ok(StreamBytes(report, plan.value)) else Err(ArtifactCount)
  {
    hide PlanOne;
    var planned: seq<Archive> := [];
    assert PlanAll(ds, l).Ok? ==> [] + PlanAll(ds, l).value == PlanAll(ds, l).value;
    var i := 0;
    assert ds[0..] == ds;
    while i < |ds|
      invariant 0 <= i <= |ds| && |planned| == i
      invariant PlanAll(ds, l) == PlanAfter(planned, ds[i..], l)
    {
      var one := PlanOne(ds[i], l);
      if one.Err? {
        return Err(one.error);
      }
      PlanNext(planned, ds[i..], l);
      assert ds[i..][1..] == ds[i + 1..];
      planned := planned + [one.value];
      i := i + 1;
    }
    assert planned + [] == planned;
    if |planned| >= 256 {
      return Err(ArtifactCount);
    }
    var body := WriteArchives(planned);
    r := Ok(HBO1 + BE(|report|, 4) + report + [|planned|] + body);
  }

  // ----- the builder -----

  function ReceiveRules(cap: nat, forbidden: seq<seq<byte>>): Rules {
    Rules(1024, cap, p => ArtifactPath(p), c => !Tainted(c, forbidden))
  }

  /** One artifact of the stream, under kinds not yet seen. */
  function ReadArchive(bs: seq<byte>, kinds: set<byte>, l: Limits, forbidden: seq<seq<byte>>): Option<(Archive, seq<byte>)> {
    if bs == [] || bs[0] !in {STATIC, APPLICATION} || bs[0] in kinds then None
    else
      var head := ReadHead(bs, 128);
      if head.None? then None
      else
        var (h, r) := head.value;
        var cap := ByteLimit(h.kind, l);
        if !ValidUuid(h.service) || h.count == 0 || h.count > l.maxEntries || h.total > cap then None
        else
          var read := ReadEntries(r, h.count, ReceiveRules(cap, forbidden), None, 0);
          if read.None? || Total(read.value.0) != h.total then None
          else Some((Archive(h.kind, h.service, read.value.0), read.value.1))
  }

  function ReadArchives(bs: seq<byte>, n: nat, kinds: set<byte>, l: Limits, forbidden: seq<seq<byte>>): Option<(seq<Archive>, seq<byte>)>
    decreases n
  {
    if n == 0 then Some(([], bs))
    else
      var first := ReadArchive(bs, kinds, l, forbidden);
      if first.None? then None
      else
        var (a, r) := first.value;
        var more := ReadArchives(r, n - 1, kinds + {a.kind}, l, forbidden);
        if more.None? then None else Some(([a] + more.value.0, more.value.1))
  }

  /** The stream as a whole; `parse` is the report's JSON with its field checks, telling success from
      failure. */
  function ReadStream(bs: seq<byte>, l: Limits, forbidden: seq<seq<byte>>, parse: seq<byte> -> Option<bool>): Option<(bool, seq<Archive>)> {
    if |bs| < 8 || bs[..4] != HBO1 then None
    else
      var n := Value(bs[4..8]);
      if n == 0 || n > l.reportBytes || |bs| < 8 + n + 1 then None
      else
        var report := parse(bs[8..8 + n]);
        var count := bs[8 + n];
        if report.None? || count > 2 || (!report.value && count != 0) then None
        else
          var read := ReadArchives(bs[8 + n + 1..], count, {}, l, forbidden);
          if read.None? || read.value.1 != [] then None else Some((report.value, read.value.0))
  }

  datatype Received = Received(service: seq<byte>, kind: byte, archive: seq<byte>, packed: nat, unpacked: nat, count: nat,
                               paths: set<seq<byte>>, packageJson: Option<seq<byte>>)

  const PACKAGE_JSON: seq<byte> := Letters("package.json")

  function PackageJson(es: seq<Entry>): Option<seq<byte>> {
    if es == [] then None
    else
      var e := es[|es| - 1];
      if e.path == PACKAGE_JSON && |e.content| <= 64 * 1024 then Some(e.content) else PackageJson(es[..|es| - 1])
  }

  function PathsOf(es: seq<Entry>): set<seq<byte>> {
    set i | 0 <= i < |es| :: es[i].path
  }

  function Receive1(a: Archive): Received {
    Received(a.service, a.kind, HcaBytes(a), |HcaBytes(a)|, Total(a.entries), |a.entries|, PathsOf(a.entries), PackageJson(a.entries))
  }

  /** The body of the entry loop: read, check, copy with the scan, repack. */
  method ReceiveEntry(bs: seq<byte>, previous: Option<seq<byte>>, used: nat, cap: nat, forbidden: seq<seq<byte>>, file: seq<byte>)
      returns (r: Option<(Entry, seq<byte>)>, file': seq<byte>, captured: Option<seq<byte>>)
    ensures r == ReadEntry(bs, ReceiveRules(cap, forbidden), previous, used)
    ensures r.Some? ==> file' == file + EntryBytes(r.value.0)
    ensures r.Some? ==> captured == if r.value.0.path == PACKAGE_JSON && |r.value.0.content| <= 64 * 1024
                                    then Some(r.value.0.content) else None
  {
    hide Tainted, Utf8, ArtifactPath, BE, Value;
    file', captured := file, None;
    var s := ReadStr(bs, 1024);
    if s.None? {
      return None, file, None;
    }
    var (path, rest) := s.value;
    if !Utf8(path) || !ArtifactPath(path) || !Follows(previous, path) || |rest| < 12 {
      return None, file, None;
    }
    var mode, size := Value(rest[..4]), Value(rest[4..12]);
    if mode !in {PLAIN_MODE, EXECUTABLE_MODE} || used + size > cap {
      return None, file, None;
    }
    file' := file' + Str(path) + BE(mode, 4) + BE(size, 8);
    var capture := path == PACKAGE_JSON && size <= 64 * 1024;
    var source := rest[12..];
    var copied, written, kept := CopyHashed(source, size, forbidden, capture);
    ghost var rules := ReceiveRules(cap, forbidden);
    assert rules.maxPath == 1024 && rules.pathOk(path) && rules.cap == cap;
    assert size <= |source| ==> source[..size] == rest[12..12 + size] && rules.contentOk(rest[12..12 + size]) == !Tainted(source[..size], forbidden);
    if copied.Err? {
      assert copied.error == Credential || copied.error == UnexpectedEof;
      return None, file, None;
    }
    assert source[size..] == rest[12 + size..];
    file' := file' + written;
    if capture {
      captured := Some(kept);
    }
    r := Some((Entry(path, mode, written), copied.value));
    assert file' == file + EntryBytes(r.value.0);
  }

  lemma PathsOfAppend(es: seq<Entry>, e: Entry)
    ensures PathsOf(es + [e]) == PathsOf(es) + {e.path}
    ensures PackageJson(es + [e]) == if e.path == PACKAGE_JSON && |e.content| <= 64 * 1024 then Some(e.content) else PackageJson(es)
  {
    assert (es + [e])[..|es|] == es;
    forall p | p in PathsOf(es) + {e.path}
      ensures p in PathsOf(es + [e])
    {
      if p == e.path {
        assert (es + [e])[|es|].path == p;
      } else {
        var i :| 0 <= i < |es| && es[i].path == p;
        assert (es + [e])[i].path == p;
      }
    }
  }

  /** The entry loop of one artifact, writing its canonical archive as it goes. */
  method ReceiveEntries(bs: seq<byte>, count: nat, cap: nat, forbidden: seq<seq<byte>>, header: seq<byte>)
      returns (r: Option<(seq<Entry>, seq<byte>)>, file: seq<byte>, actual: nat, paths: set<seq<byte>>, packageJson: Option<seq<byte>>)
    ensures r == ReadEntries(bs, count, ReceiveRules(cap, forbidden), None, 0)
    ensures r.Some? ==> file == header + EntriesBytes(r.value.0) && actual == Total(r.value.0)
                        && paths == PathsOf(r.value.0) && packageJson == PackageJson(r.value.0)
  {
    hide ReadEntry, EntryBytes;
    ghost var rules := ReceiveRules(cap, forbidden);
    file, actual, paths, packageJson := header, 0, {}, None;
    var rest, previous := bs, None;
    var done: seq<Entry> := [];
    ResumeFromStart(ReadEntries(bs, count, rules, None, 0));
    var i := 0;
    while i < count
      invariant 0 <= i <= count
      invariant ReadEntries(bs, count, rules, None, 0) == Resume(done, ReadEntries(rest, count - i, rules, previous, actual))
      invariant file == header + EntriesBytes(done) && actual == Total(done)
      invariant paths == PathsOf(done) && packageJson == PackageJson(done)
    {
      var read, captured;
      read, file, captured := ReceiveEntry(rest, previous, actual, cap, forbidden, file);
      if read.None? {
        return None, file, actual, paths, packageJson;
      }
      var (e, r') := read.value;
      ResumeAfter(done, rest, count - i, rules, previous, actual);
      EntriesBytesAppend(done, e);
      PathsOfAppend(done, e);
      paths := paths + {e.path};
      if captured.Some? {
        packageJson := captured;
      }
      actual := actual + |e.content|;
      done, rest, previous, i := done + [e], r', Some(e.path), i + 1;
    }
    assert done + [] == done;
    r := Some((done, rest));
  }

  lemma HcaLayout(a: Archive, header: seq<byte>, file: seq<byte>)
    requires header == HCA1 + [a.kind] + Str(a.service) + BE(|a.entries|, 4) + BE(Total(a.entries), 8)
    requires file == header + EntriesBytes(a.entries)
    ensures file == HcaBytes(a)
  {
  }

  method ReceiveArtifact(bs: seq<byte>, kinds: set<byte>, l: Limits, forbidden: seq<seq<byte>>)
      returns (r: Option<(Received, seq<byte>)>)
    ensures var read := ReadArchive(bs, kinds, l, forbidden);
            r == if read.None? then None else Some((Receive1(read.value.0), read.value.1))
  {
    hide EntriesBytes, ReadEntries, PackageJson, PathsOf, ReadHead, ReceiveRules, HcaBytes, ValidUuid, BE, Str, Total;
    if bs == [] || bs[0] !in {STATIC, APPLICATION} || bs[0] in kinds {
      return None;
    }
    var head := ReadHead(bs, 128);
    if head.None? {
      return None;
    }
    var (h, rest) := head.value;
    var cap := ByteLimit(h.kind, l);
    if !ValidUuid(h.service) || h.count == 0 || h.count > l.maxEntries || h.total > cap {
      return None;
    }
    var header := HCA1 + [h.kind] + Str(h.service) + BE(h.count, 4) + BE(h.total, 8);
    var read, file, actual, paths, packageJson := ReceiveEntries(rest, h.count, cap, forbidden, header);
    if read.None? || actual != h.total {
      return None;
    }
    ReadEntriesCount(rest, h.count, ReceiveRules(cap, forbidden), None, 0);
    var a := Archive(h.kind, h.service, read.value.0);
    HcaLayout(a, header, file);
    r := Some((Received(h.service, h.kind, file, |file|, actual, h.count, paths, packageJson), read.value.1));
  }

  lemma ReadEntriesCount(bs: seq<byte>, n: nat, rules: Rules, previous: Option<seq<byte>>, used: nat)
    ensures ReadEntries(bs, n, rules, previous, used).Some? ==> |ReadEntries(bs, n, rules, previous, used).value.0| == n
  {
    var read := ReadEntries(bs, n, rules, previous, used);
    if read.Some? {
      BytesOfReadEntries(bs, n, rules, previous, used, read.value.0, read.value.1);
    }
  }

  function ReceiveAll(archives: seq<Archive>): (out: seq<Received>)
    ensures |out| == |archives| && forall i :: 0 <= i < |archives| ==> out[i] == Receive1(archives[i])
  {
    seq(|archives|, i requires 0 <= i < |archives| => Receive1(archives[i]))
  }

  ghost function ResumeArchives(done: seq<Archive>, more: Option<(seq<Archive>, seq<byte>)>): Option<(seq<Archive>, seq<byte>)> {
    if more.None? then None else Some((done + more.value.0, more.value.1))
  }

  lemma ResumeNext(done: seq<Archive>, bs: seq<byte>, n: nat, kinds: set<byte>, l: Limits, forbidden: seq<seq<byte>>)
    requires n > 0
    ensures var first := ReadArchive(bs, kinds, l, forbidden);
            ResumeArchives(done, ReadArchives(bs, n, kinds, l, forbidden))
            == if first.None? then None
               else ResumeArchives(done + [first.value.0], ReadArchives(first.value.1, n - 1, kinds + {first.value.0.kind}, l, forbidden))
  {
    hide ReadArchive;
    var first := ReadArchive(bs, kinds, l, forbidden);
    if first.Some? {
      var (a, r) := first.value;
      var more := ReadArchives(r, n - 1, kinds + {a.kind}, l, forbidden);
      assert more.Some? ==> done + ([a] + more.value.0) == (done + [a]) + more.value.0;
    }
  }

  method Receive(bs: seq<byte>, l: Limits, forbidden: seq<seq<byte>>, parse: seq<byte> -> Option<bool>)
      returns (r: Option<(bool, seq<Received>)>)
    ensures var read := ReadStream(bs, l, forbidden, parse);
            r == if read.None? then None else Some((read.value.0, ReceiveAll(read.value.1)))
  {
    hide ReadArchive, HcaBytes;
    if |bs| < 8 || bs[..4] != HBO1 {
      return None;
    }
    var n := Value(bs[4..8]);
    if n == 0 || n > l.reportBytes || |bs| < 8 + n + 1 {
      return None;
    }
    var report := parse(bs[8..8 + n]);
    var count := bs[8 + n];
    if report.None? || count > 2 || (!report.value && count != 0) {
      return None;
    }
    var artifacts: seq<Received> := [];
    ghost var done: seq<Archive> := [];
    var kinds: set<byte> := {};
    var start := bs[8 + n + 1..];
    var rest := start;
    ghost var whole := ReadArchives(start, count, {}, l, forbidden);
    assert ResumeArchives([], whole) == whole by {
      assert whole.Some? ==> [] + whole.value.0 == whole.value.0;
    }
    var i := 0;
    while i < count
      invariant 0 <= i <= count && artifacts == ReceiveAll(done)
      invariant whole == ResumeArchives(done, ReadArchives(rest, count - i, kinds, l, forbidden))
    {
      ResumeNext(done, rest, count - i, kinds, l, forbidden);
      var one := ReceiveArtifact(rest, kinds, l, forbidden);
      if one.None? {
        return None;
      }
      ghost var a := ReadArchive(rest, kinds, l, forbidden).value.0;
      assert ReceiveAll(done + [a]) == ReceiveAll(done) + [Receive1(a)];
      done := done + [a];
      artifacts, kinds, rest, i := artifacts + [one.value.0], kinds + {one.value.0.kind}, one.value.1, i + 1;
    }
    assert done + [] == done;
    if rest != [] {
      return None;
    }
    r := Some((report.value, artifacts));
  }
}
