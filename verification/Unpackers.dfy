/** The two scripts that open a stored archive: unpack_hca for applications, extract_static for
    frontends. Both give the ordered list of files they write. */
module Unpackers {
  import opened Common
  import opened Bytes
  import opened Paths
  import opened Archive
  import opened GuestOutput

  const MAX_UNPACKED: nat := 2 * 1024 * 1024 * 1024
  const MAX_APP_ENTRIES: nat := 100_000
  const MAX_STATIC_BYTES: nat := 250 * 1024 * 1024
  const MAX_STATIC_ENTRIES: nat := 10_000

  /** The fields of the build manifest that the scripts compare with the archive. */
  datatype BuildManifest = BuildManifest(kind: byte, service: seq<byte>, count: nat, unpacked: nat, packed: nat)

  /** The manifest that records what the builder received. */
  function ManifestOf(r: Received): BuildManifest {
    BuildManifest(r.kind, r.service, r.count, r.unpacked, r.packed)
  }

  /** A size above MAX_UNPACKED needs no rule of its own: the total is already below it. */
  function AppRules(total: nat): Rules {
    Rules(65535, total, p => SafeArchivePath(p), _ => true)
  }

  function StaticRules(total: nat): Rules {
    Rules(1024, total, p => SafeRelative(p), _ => true)
  }

  function UnpackHca(bs: seq<byte>, m: BuildManifest): Option<seq<Entry>> {
    if |bs| < 4 || bs[..4] != HCA1 then None
    else
      var head := ReadHead(bs[4..], 65535);
      if head.None? then None
      else
        var (h, r) := head.value;
        if !CanonicalUuid(h.service) || h.kind != APPLICATION || h.count > MAX_APP_ENTRIES || h.total > MAX_UNPACKED
           || m.kind != APPLICATION || m.service != h.service then None
        else
          var read := ReadEntries(r, h.count, AppRules(h.total), None, 0);
          if read.None? || Total(read.value.0) != h.total || read.value.1 != [] then None
          else if m.count != h.count || m.unpacked != h.total || m.packed != |bs| then None
          else Some(read.value.0)
  }

  /** `parses` tells which service ids uuid.UUID accepts. */
  function ExtractStatic(bs: seq<byte>, m: BuildManifest, parses: seq<byte> -> bool): Option<seq<Entry>> {
    if m.kind != STATIC || |bs| < 4 || bs[..4] != HCA1 then None
    else
      var head := ReadHead(bs[4..], 128);
      if head.None? then None
      else
        var (h, r) := head.value;
        if h.kind != STATIC || !Utf8(h.service) || !parses(h.service) || h.count == 0 || h.count > MAX_STATIC_ENTRIES
           || h.total > MAX_STATIC_BYTES || m.count != h.count || m.unpacked != h.total then None
        else
          var read := ReadEntries(r, h.count, StaticRules(h.total), None, 0);
          if read.None? || Total(read.value.0) != h.total || read.value.1 != [] then None else Some(read.value.0)
  }

  // ----- their loops -----

  /** The body of either entry loop; `observed` is what the loop has written so far. */
  method UnpackEntry(bs: seq<byte>, rules: Rules, previous: Option<seq<byte>>, observed: nat) returns (r: Option<(Entry, seq<byte>)>)
    requires forall c :: rules.contentOk(c)
    ensures r == ReadEntry(bs, rules, previous, observed)
  {
    hide Utf8, Value;
    var s := ReadStr(bs, rules.maxPath);
    if s.None? {
      return None;
    }
    var (path, rest) := s.value;
    if !Utf8(path) || !rules.pathOk(path) || !Follows(previous, path) || |rest| < 12 {
      return None;
    }
    var mode, size := Value(rest[..4]), Value(rest[4..12]);
    if mode !in {PLAIN_MODE, EXECUTABLE_MODE} || observed + size > rules.cap {
      return None;
    }
    var content := CopyExactly(rest[12..], size);
    if content.None? {
      return None;
    }
    assert rest[12..][..size] == rest[12..12 + size];
    r := Some((Entry(path, mode, content.value), rest[12 + size..]));
  }

  /** Either entry loop with the checks that close it: the bytes observed are the total announced and
      nothing follows. */
  method UnpackEntries(bs: seq<byte>, count: nat, rules: Rules, total: nat) returns (r: Option<seq<Entry>>)
    requires forall c :: rules.contentOk(c)
    ensures var read := ReadEntries(bs, count, rules, None, 0);
            r == if read.None? || Total(read.value.0) != total || read.value.1 != [] then None else Some(read.value.0)
  {
    hide ReadEntry, EntryBytes;
    var rest, previous, observed := bs, None, 0;
    var done: seq<Entry> := [];
    ResumeFromStart(ReadEntries(bs, count, rules, None, 0));
    var i := 0;
    while i < count
      invariant 0 <= i <= count && observed == Total(done)
      invariant ReadEntries(bs, count, rules, None, 0) == Resume(done, ReadEntries(rest, count - i, rules, previous, observed))
    {
      var read := UnpackEntry(rest, rules, previous, observed);
      if read.None? {
        return None;
      }
      var (e, r') := read.value;
      ResumeAfter(done, rest, count - i, rules, previous, observed);
      EntriesBytesAppend(done, e);
      observed := observed + |e.content|;
      done, rest, previous, i := done + [e], r', Some(e.path), i + 1;
    }
    assert done + [] == done;
    if observed != total || rest != [] {
      return None;
    }
    r := Some(done);
  }

  method UnpackApplication(bs: seq<byte>, m: BuildManifest) returns (r: Option<seq<Entry>>)
    ensures r == UnpackHca(bs, m)
  {
    hide ReadEntries, CanonicalUuid;
    if |bs| < 4 || bs[..4] != HCA1 {
      return None;
    }
    var head := ReadHead(bs[4..], 65535);
    if head.None? {
      return None;
    }
    var (h, rest) := head.value;
    if !CanonicalUuid(h.service) || h.kind != APPLICATION || h.count > MAX_APP_ENTRIES || h.total > MAX_UNPACKED {
      return None;
    }
    if m.kind != APPLICATION || m.service != h.service {
      return None;
    }
    var files := UnpackEntries(rest, h.count, AppRules(h.total), h.total);
    if files.None? || m.count != h.count || m.unpacked != h.total || m.packed != |bs| {
      return None;
    }
    r := files;
  }

  method UnpackStatic(bs: seq<byte>, m: BuildManifest, parses: seq<byte> -> bool) returns (r: Option<seq<Entry>>)
    ensures r == ExtractStatic(bs, m, parses)
  {
    hide ReadEntries, Utf8;
    if m.kind != STATIC || |bs| < 4 || bs[..4] != HCA1 {
      return None;
    }
    var head := ReadHead(bs[4..], 128);
    if head.None? {
      return None;
    }
    var (h, rest) := head.value;
    if h.kind != STATIC || !Utf8(h.service) || !parses(h.service) || h.count == 0 || h.count > MAX_STATIC_ENTRIES
       || h.total > MAX_STATIC_BYTES || m.count != h.count || m.unpacked != h.total {
      return None;
    }
    r := UnpackEntries(rest, h.count, StaticRules(h.total), h.total);
  }
}
