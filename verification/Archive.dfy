/** One archive grammar shared by four programs: entries (path, mode, bytes) in path order, as the
    guest writes them, the builder receives and repacks them, and the runtime and release scripts
    read them back. A reader differs from another by its rules. */
module Archive {
  import opened Common
  import opened Bytes
  import opened Paths

  const PLAIN_MODE: nat := 0x1A4
  const EXECUTABLE_MODE: nat := 0x1ED

  datatype Entry = Entry(path: seq<byte>, mode: nat, content: seq<byte>)

  /** What a reader insists on beyond the grammar: path length and check, total size, and a check on
      the bytes of each file. */
  datatype Rules = Rules(maxPath: nat, cap: nat, pathOk: seq<byte> -> bool, contentOk: seq<byte> -> bool)

  function Str(s: seq<byte>): seq<byte> {
    BE(|s|, 2) + s
  }

  function EntryBytes(e: Entry): seq<byte> {
    Str(e.path) + BE(e.mode, 4) + BE(|e.content|, 8) + e.content
  }

  function EntriesBytes(es: seq<Entry>): seq<byte> {
    if es == [] then [] else EntryBytes(es[0]) + EntriesBytes(es[1..])
  }

  function Total(es: seq<Entry>): nat {
    if es == [] then 0 else |es[0].content| + Total(es[1..])
  }

  predicate Follows(previous: Option<seq<byte>>, path: seq<byte>) {
    previous.None? || Before(previous.value, path)
  }

  predicate EntryOk(e: Entry, rules: Rules, previous: Option<seq<byte>>, used: nat) {
    && 0 < |e.path| <= rules.maxPath && |e.path| < Pow256(2) && Utf8(e.path) && rules.pathOk(e.path) && Follows(previous, e.path)
    && e.mode in {PLAIN_MODE, EXECUTABLE_MODE}
    && |e.content| < Pow256(8) && used + |e.content| <= rules.cap && rules.contentOk(e.content)
  }

  /** Entries a reader accepts in this order, after `used` bytes of content. */
  predicate EntriesOk(es: seq<Entry>, rules: Rules, previous: Option<seq<byte>>, used: nat) {
    es != [] ==>
      EntryOk(es[0], rules, previous, used) && EntriesOk(es[1..], rules, Some(es[0].path), used + |es[0].content|)
  }

  // ----- reading -----

  /** A length-prefixed string of 1 to `max` bytes, and what follows it. */
  function ReadStr(bs: seq<byte>, max: nat): Option<(seq<byte>, seq<byte>)> {
    if |bs| < 2 then None
    else
      var n := Value(bs[..2]);
      if n == 0 || n > max || |bs| < 2 + n then None else Some((bs[2..2 + n], bs[2 + n..]))
  }

  function ReadEntry(bs: seq<byte>, rules: Rules, previous: Option<seq<byte>>, used: nat): Option<(Entry, seq<byte>)> {
    var s := ReadStr(bs, rules.maxPath);
    if s.None? then None
    else
      var (path, r) := s.value;
      if !Utf8(path) || !rules.pathOk(path) || !Follows(previous, path) || |r| < 12 then None
      else
        var mode, size := Value(r[..4]), Value(r[4..12]);
        if mode !in {PLAIN_MODE, EXECUTABLE_MODE} || used + size > rules.cap || |r| < 12 + size then None
        else
          var content := r[12..12 + size];
          if !rules.contentOk(content) then None else Some((Entry(path, mode, content), r[12 + size..]))
  }

  function ReadEntries(bs: seq<byte>, n: nat, rules: Rules, previous: Option<seq<byte>>, used: nat): Option<(seq<Entry>, seq<byte>)> {
    if n == 0 then Some(([], bs))
    else
      var first := ReadEntry(bs, rules, previous, used);
      if first.None? then None
      else
        var (e, r) := first.value;
        var more := ReadEntries(r, n - 1, rules, Some(e.path), used + |e.content|);
        if more.None? then None else Some(([e] + more.value.0, more.value.1))
  }

  // ----- reading inverts writing, exactly on what the rules admit -----

  /** What any writer of the grammar can put down. */
  predicate Writable(e: Entry) {
    0 < |e.path| < Pow256(2) && e.mode in {PLAIN_MODE, EXECUTABLE_MODE} && |e.content| < Pow256(8)
  }

  lemma ReadStrOfStr(s: seq<byte>, rest: seq<byte>, max: nat)
    requires 0 < |s| < Pow256(2)
    ensures ReadStr(Str(s) + rest, max) == if |s| <= max then Some((s, rest)) else None
  {
    var bs := Str(s) + rest;
    ValueOfBE(|s|, 2);
    assert bs[..2] == BE(|s|, 2);
    assert bs[2..2 + |s|] == s && bs[2 + |s|..] == rest;
  }

  lemma StrOfReadStr(bs: seq<byte>, max: nat)
    requires ReadStr(bs, max).Some?
    ensures var (s, rest) := ReadStr(bs, max).value; bs == Str(s) + rest && 0 < |s| <= max && |s| < Pow256(2)
  {
    var n := Value(bs[..2]);
    BEOfValue(bs[..2]);
    assert bs == bs[..2] + bs[2..2 + n] + bs[2 + n..];
  }

  lemma ReadEntryOfBytes(e: Entry, rest: seq<byte>, rules: Rules, previous: Option<seq<byte>>, used: nat)
    requires Writable(e)
    ensures ReadEntry(EntryBytes(e) + rest, rules, previous, used)
            == if EntryOk(e, rules, previous, used) then Some((e, rest)) else None
  {
    var tail := BE(e.mode, 4) + BE(|e.content|, 8) + e.content + rest;
    assert EntryBytes(e) + rest == Str(e.path) + tail;
    ReadStrOfStr(e.path, tail, rules.maxPath);
    Widths();
    ValueOfBE(e.mode, 4);
    ValueOfBE(|e.content|, 8);
    assert tail[..4] == BE(e.mode, 4) && tail[4..12] == BE(|e.content|, 8);
    assert tail[12..12 + |e.content|] == e.content && tail[12 + |e.content|..] == rest;
  }

  lemma EntryLayout(e: Entry, rest: seq<byte>)
    ensures EntryBytes(e) + rest == Str(e.path) + (BE(e.mode, 4) + (BE(|e.content|, 8) + (e.content + rest)))
  {
  }

  /** The pieces a reader cuts off are the entry's encoding. */
  lemma CutEntry(bs: seq<byte>, path: seq<byte>, r: seq<byte>)
    requires bs == Str(path) + r && |r| >= 12 && |r| >= 12 + Value(r[4..12])
    ensures var n := Value(r[4..12]);
            bs == EntryBytes(Entry(path, Value(r[..4]), r[12..12 + n])) + r[12 + n..] && n < Pow256(8)
  {
    hide Str, BE, Value, EntryBytes, Pow256;
    var mode, size := r[..4], r[4..12];
    var n := Value(size);
    BEOfValue(mode);
    BEOfValue(size);
    var content, rest := r[12..12 + n], r[12 + n..];
    assert r == mode + (size + (content + rest));
    EntryLayout(Entry(path, Value(mode), content), rest);
  }

  lemma BytesOfReadEntry(bs: seq<byte>, rules: Rules, previous: Option<seq<byte>>, used: nat)
    requires ReadEntry(bs, rules, previous, used).Some?
    ensures var (e, rest) := ReadEntry(bs, rules, previous, used).value;
            bs == EntryBytes(e) + rest && EntryOk(e, rules, previous, used)
  {
    hide Str, BE, Value, Utf8, Follows, EntryBytes, Pow256;
    StrOfReadStr(bs, rules.maxPath);
    var (path, r) := ReadStr(bs, rules.maxPath).value;
    hide ReadStr;
    CutEntry(bs, path, r);
  }

  lemma EntriesCons(e: Entry, more: seq<Entry>, rest: seq<byte>)
    ensures EntriesBytes([e] + more) + rest == EntryBytes(e) + (EntriesBytes(more) + rest)
    ensures Total([e] + more) == |e.content| + Total(more)
  {
    assert ([e] + more)[1..] == more;
  }

  lemma EntriesOkCons(e: Entry, more: seq<Entry>, rules: Rules, previous: Option<seq<byte>>, used: nat)
    ensures EntriesOk([e] + more, rules, previous, used)
            <==> EntryOk(e, rules, previous, used) && EntriesOk(more, rules, Some(e.path), used + |e.content|)
  {
    assert ([e] + more)[1..] == more;
  }

  /** A reader gets back what was written, or refuses, exactly as its rules say. */
  lemma {:induction false} ReadEntriesOfBytes(es: seq<Entry>, rest: seq<byte>, rules: Rules, previous: Option<seq<byte>>, used: nat)
    requires forall i :: 0 <= i < |es| ==> Writable(es[i])
    ensures ReadEntries(EntriesBytes(es) + rest, |es|, rules, previous, used)
            == if EntriesOk(es, rules, previous, used) then Some((es, rest)) else None
    decreases |es|
  {
    hide ReadEntry, EntryBytes, EntryOk;
    if es == [] {
      assert EntriesBytes(es) + rest == rest;
    } else {
      var e, more := es[0], es[1..];
      assert es == [e] + more;
      EntriesCons(e, more, rest);
      ReadEntryOfBytes(e, EntriesBytes(more) + rest, rules, previous, used);
      ReadEntriesOfBytes(more, rest, rules, Some(e.path), used + |e.content|);
    }
  }

  lemma {:induction false} BytesOfReadEntries(bs: seq<byte>, n: nat, rules: Rules, previous: Option<seq<byte>>, used: nat,
                                              es: seq<Entry>, rest: seq<byte>)
    requires ReadEntries(bs, n, rules, previous, used) == Some((es, rest))
    ensures |es| == n && bs == EntriesBytes(es) + rest && EntriesOk(es, rules, previous, used)
    decreases n
  {
    hide ReadEntry, EntryBytes;
    if n == 0 {
      assert [] + bs == bs;
    } else {
      var (e, r) := ReadEntry(bs, rules, previous, used).value;
      var more := ReadEntries(r, n - 1, rules, Some(e.path), used + |e.content|).value.0;
      BytesOfReadEntry(bs, rules, previous, used);
      BytesOfReadEntries(r, n - 1, rules, Some(e.path), used + |e.content|, more, rest);
      EntriesCons(e, more, rest);
      EntriesOkCons(e, more, rules, previous, used);
    }
  }

  // ----- an archive: kind, service, counts and entries -----

  datatype Archive = Archive(kind: byte, service: seq<byte>, entries: seq<Entry>)

  function Header(a: Archive): seq<byte> {
    [a.kind] + Str(a.service) + BE(|a.entries|, 4) + BE(Total(a.entries), 8)
  }

  /** The layout of one artifact in the guest's stream; HCA1 prefixes its magic. */
  function ArchiveBytes(a: Archive): seq<byte> {
    Header(a) + EntriesBytes(a.entries)
  }

  /** The fixed fields before the entries. */
  datatype Head = Head(kind: byte, service: seq<byte>, count: nat, total: nat)

  function ReadHead(bs: seq<byte>, maxService: nat): Option<(Head, seq<byte>)> {
    if bs == [] then None
    else
      var s := ReadStr(bs[1..], maxService);
      if s.None? || |s.value.1| < 12 then None
      else
        var r := s.value.1;
        Some((Head(bs[0], s.value.0, Value(r[..4]), Value(r[4..12])), r[12..]))
  }

  lemma ReadHeadOfBytes(a: Archive, rest: seq<byte>, maxService: nat)
    requires 0 < |a.service| < Pow256(2) && |a.entries| < Pow256(4) && Total(a.entries) < Pow256(8)
    ensures ReadHead(Header(a) + rest, maxService)
            == if |a.service| <= maxService then Some((Head(a.kind, a.service, |a.entries|, Total(a.entries)), rest)) else None
  {
    var bs := Header(a) + rest;
    var tail := BE(|a.entries|, 4) + BE(Total(a.entries), 8) + rest;
    assert bs[1..] == Str(a.service) + tail;
    ReadStrOfStr(a.service, tail, maxService);
    ValueOfBE(|a.entries|, 4);
    ValueOfBE(Total(a.entries), 8);
    assert tail[..4] == BE(|a.entries|, 4) && tail[4..12] == BE(Total(a.entries), 8) && tail[12..] == rest;
  }

  lemma HeadLayout(bs: seq<byte>, service: seq<byte>, count: seq<byte>, total: seq<byte>, rest: seq<byte>)
    requires bs != [] && bs[1..] == Str(service) + (count + (total + rest))
    ensures bs == [bs[0]] + Str(service) + count + total + rest
  {
    hide Str;
    assert bs == [bs[0]] + bs[1..];
  }

  lemma BytesOfReadHead(bs: seq<byte>, maxService: nat)
    requires ReadHead(bs, maxService).Some?
    ensures var (h, rest) := ReadHead(bs, maxService).value;
            && bs == [h.kind] + Str(h.service) + BE(h.count, 4) + BE(h.total, 8) + rest
            && 0 < |h.service| <= maxService && |h.service| < Pow256(2) && h.count < Pow256(4) && h.total < Pow256(8)
  {
    hide Str, BE, Value, Pow256;
    StrOfReadStr(bs[1..], maxService);
    var (service, r) := ReadStr(bs[1..], maxService).value;
    var count, total, rest := r[..4], r[4..12], r[12..];
    BEOfValue(count);
    BEOfValue(total);
    assert r == count + (total + rest);
    HeadLayout(bs, service, count, total, rest);
  }

  /** Rules that admit as much admit the same entries. */
  lemma {:induction false} LooserRules(es: seq<Entry>, strict: Rules, loose: Rules, previous: Option<seq<byte>>, used: nat)
    requires EntriesOk(es, strict, previous, used) && strict.maxPath <= loose.maxPath
    requires forall i :: 0 <= i < |es| ==> loose.pathOk(es[i].path) && loose.contentOk(es[i].content)
    requires used + Total(es) <= loose.cap
    ensures EntriesOk(es, loose, previous, used)
    decreases |es|
  {
    if es != [] {
      assert forall i :: 0 <= i < |es[1..]| ==> es[1..][i] == es[i + 1];
      LooserRules(es[1..], strict, loose, Some(es[0].path), used + |es[0].content|);
    }
  }

  lemma {:induction false} EntriesMeetRules(es: seq<Entry>, rules: Rules, previous: Option<seq<byte>>, used: nat, i: nat)
    requires EntriesOk(es, rules, previous, used) && i < |es|
    ensures rules.pathOk(es[i].path) && rules.contentOk(es[i].content) && 0 < |es[i].path| <= rules.maxPath
    decreases |es|
  {
    if i > 0 {
      assert es[i] == es[1..][i - 1];
      EntriesMeetRules(es[1..], rules, Some(es[0].path), used + |es[0].content|, i - 1);
    }
  }

  // ----- reading and writing entry by entry -----

  lemma {:induction false} EntriesBytesAppend(es: seq<Entry>, e: Entry)
    ensures EntriesBytes(es + [e]) == EntriesBytes(es) + EntryBytes(e)
    ensures Total(es + [e]) == Total(es) + |e.content|
    decreases |es|
  {
    hide EntryBytes;
    if es == [] {
      assert [] + [e] == [e] && [e][1..] == [];
      assert EntriesBytes([e]) == EntryBytes(e) + [];
    } else {
      assert (es + [e])[1..] == es[1..] + [e];
      EntriesBytesAppend(es[1..], e);
    }
  }

  ghost function Resume(done: seq<Entry>, more: Option<(seq<Entry>, seq<byte>)>): Option<(seq<Entry>, seq<byte>)> {
    if more.None? then None else Some((done + more.value.0, more.value.1))
  }

  lemma EntrySize(e: Entry)
    ensures |EntryBytes(e)| == 14 + |e.path| + |e.content|
  {
  }

  lemma ResumeFromStart(more: Option<(seq<Entry>, seq<byte>)>)
    ensures Resume([], more) == more
  {
    assert more.Some? ==> [] + more.value.0 == more.value.0;
  }

  lemma ResumeAfter(done: seq<Entry>, bs: seq<byte>, n: nat, rules: Rules, previous: Option<seq<byte>>, used: nat)
    requires n > 0 && ReadEntry(bs, rules, previous, used).Some?
    ensures var (e, r) := ReadEntry(bs, rules, previous, used).value;
            Resume(done, ReadEntries(bs, n, rules, previous, used))
            == Resume(done + [e], ReadEntries(r, n - 1, rules, Some(e.path), used + |e.content|))
  {
    hide ReadEntry;
    var (e, r) := ReadEntry(bs, rules, previous, used).value;
    var more := ReadEntries(r, n - 1, rules, Some(e.path), used + |e.content|);
    assert more.Some? ==> done + ([e] + more.value.0) == (done + [e]) + more.value.0;
  }

  /** Copying exactly `size` bytes, each read returning any positive number of them. */
  method CopyExactly(source: seq<byte>, size: nat) returns (content: Option<seq<byte>>)
    ensures content == if size <= |source| then Some(source[..size]) else None
  {
    var copied: seq<byte> := [];
    while |copied| < size && |copied| < |source|
      invariant |copied| <= size && |copied| <= |source| && copied == source[..|copied|]
      decreases size - |copied|
    {
      var read: nat :| 1 <= read && |copied| + read <= size && |copied| + read <= |source|;
      copied := source[..|copied| + read];
    }
    content := if |copied| == size then Some(copied) else None;
  }
}
