/** The source bundle: canonical_source_bundle in the control plane, the 512-byte padding of the
    builder's block device, and extract_source in the guest. */
module SourceBundle {
  import opened Common
  import opened Bytes
  import opened Paths
  import opened Archive
  import opened Sorting

  const HBS1: seq<byte> := [72, 66, 83, 49]
  const MAX_FILES := 10_000
  const MAX_SOURCE_ENTRIES := 100_000
  const MAX_SOURCE_PATH := 1024
  const MAX_SOURCE_PADDING := 511

  datatype BundleError = TooMany | BadPath | Collision

  /** A file as the provider's snapshot gives it: a Rust string for a path, one of two modes. */
  predicate SourceFile(e: Entry) {
    Utf8(e.path) && e.mode in {PLAIN_MODE, EXECUTABLE_MODE} && |e.content| < Pow256(8)
  }

  /** The first refusal of the loop, in path order; `lower` is str::to_lowercase. */
  function Refusal(es: seq<Entry>, lower: seq<byte> -> seq<byte>, folded: set<seq<byte>>): Option<BundleError> {
    if es == [] then None
    else if !BundlePath(es[0].path) then Some(BadPath)
    else if lower(es[0].path) in folded then Some(Collision)
    else Refusal(es[1..], lower, folded + {lower(es[0].path)})
  }

  function BundleBytes(es: seq<Entry>): seq<byte> {
    HBS1 + BE(|es|, 4) + EntriesBytes(es)
  }

  function Bundle(files: seq<Entry>, lower: seq<byte> -> seq<byte>): Result<(seq<byte>, nat), BundleError> {
    var ordered := Sort(files);
    if |ordered| > MAX_FILES then Err(TooMany)
    else
      var refusal := Refusal(ordered, lower, {});
      if refusal.Some? then Err(refusal.value) else Ok((BundleBytes(ordered), Total(ordered)))
  }

  method CanonicalSourceBundle(files: seq<Entry>, lower: seq<byte> -> seq<byte>) returns (r: Result<(seq<byte>, nat), BundleError>)
    ensures r == Bundle(files, lower)
  {
    hide EntryBytes, Sort, BundlePath, BE;
    var ordered := Sort(files);
    if |ordered| > MAX_FILES {
      return Err(TooMany);
    }
    var bundle := HBS1 + BE(|ordered|, 4);
    var total := 0;
    var folded: set<seq<byte>> := {};
    var i := 0;
    while i < |ordered|
      invariant 0 <= i <= |ordered|
      invariant Refusal(ordered, lower, {}) == Refusal(ordered[i..], lower, folded)
      invariant bundle == HBS1 + BE(|ordered|, 4) + EntriesBytes(ordered[..i]) && total == Total(ordered[..i])
    {
      var e := ordered[i];
      assert ordered[i..][0] == e && ordered[i..][1..] == ordered[i + 1..];
      if !BundlePath(e.path) {
        return Err(BadPath);
      }
      if lower(e.path) in folded {
        return Err(Collision);
      }
      folded := folded + {lower(e.path)};
      EntriesBytesAppend(ordered[..i], e);
      assert ordered[..i + 1] == ordered[..i] + [e];
      bundle := bundle + EntryBytes(e);
      total := total + |e.content|;
      i := i + 1;
    }
    assert ordered[..i] == ordered;
    r := Ok((bundle, total));
  }

  // ----- order and collisions -----

  lemma {:induction false} RefusalReadsPaths(a: seq<Entry>, b: seq<Entry>, lower: seq<byte> -> seq<byte>, folded: set<seq<byte>>)
    requires BareAll(a) == BareAll(b)
    ensures Refusal(a, lower, folded) == Refusal(b, lower, folded)
    decreases |a|
  {
    assert |BareAll(a)| == |BareAll(b)|;
    if a != [] {
      assert BareAll(a)[0] == BareAll(b)[0];
      assert BareAll(a[1..]) == BareAll(a)[1..] == BareAll(b)[1..] == BareAll(b[1..]);
      RefusalReadsPaths(a[1..], b[1..], lower, folded + {lower(a[0].path)});
    }
  }

  lemma {:induction false} UnrefusedPath(es: seq<Entry>, lower: seq<byte> -> seq<byte>, folded: set<seq<byte>>, k: nat)
    requires Refusal(es, lower, folded).None? && k < |es|
    ensures BundlePath(es[k].path) && lower(es[k].path) !in folded
    decreases k
  {
    if k > 0 {
      assert es[k] == es[1..][k - 1];
      UnrefusedPath(es[1..], lower, folded + {lower(es[0].path)}, k - 1);
    }
  }

  lemma {:induction false} UnrefusedAscends(es: seq<Entry>, lower: seq<byte> -> seq<byte>, folded: set<seq<byte>>)
    requires Refusal(es, lower, folded).None? && Sorted(es)
    ensures Ascending(es)
    decreases |es|
  {
    if |es| > 1 {
      SortedTail(es);
      UnrefusedAscends(es[1..], lower, folded + {lower(es[0].path)});
      assert es[1] == es[1..][0];
      UnrefusedPath(es[1..], lower, folded + {lower(es[0].path)}, 0);
      assert !Before(es[0 + 1].path, es[0].path);
      BeforeTotal(es[0].path, es[1].path);
      forall i | 0 <= i < |es| - 1
        ensures Before(es[i].path, es[i + 1].path)
      {
        if i > 0 {
          assert Before(es[1..][i - 1].path, es[1..][i - 1 + 1].path);
        }
      }
    }
  }

  /** The same files in any order give the same bundle, or the same refusal. */
  lemma BundleIgnoresOrder(files: seq<Entry>, others: seq<Entry>, lower: seq<byte> -> seq<byte>)
    requires multiset(files) == multiset(others)
    ensures Bundle(files, lower) == Bundle(others, lower)
  {
    hide Sort;
    SortedPathsIgnoreOrder(files, others);
    var a, b := Sort(files), Sort(others);
    assert |a| == |BareAll(a)| == |BareAll(b)| == |b|;
    RefusalReadsPaths(a, b, lower, {});
    if Refusal(a, lower, {}).None? {
      SortSorts(files);
      SortSorts(others);
      UnrefusedAscends(a, lower, {});
      UnrefusedAscends(b, lower, {});
      SortIgnoresOrder(files, others);
    }
  }

  // ----- padding and extraction -----

  function Zeros(n: nat): (z: seq<byte>)
    ensures |z| == n && forall i :: 0 <= i < n ==> z[i] == 0
  {
    seq(n, _ => 0)
  }

  /** Copied to a device whose size is a multiple of 512. */
  function Padded(bs: seq<byte>): (out: seq<byte>)
    ensures |out| % 512 == 0 && bs <= out && |out| < |bs| + 512
  {
    bs + Zeros((512 - |bs| % 512) % 512)
  }

  predicate Padding(t: seq<byte>) {
    |t| <= MAX_SOURCE_PADDING && forall i :: 0 <= i < |t| ==> t[i] == 0
  }

  /** extract_source sums no sizes; a cap of the input's own length never binds. */
  function SourceRules(cap: nat): Rules {
    Rules(MAX_SOURCE_PATH, cap, p => ArtifactPath(p), _ => true)
  }

  function Extract(bs: seq<byte>): Option<seq<Entry>> {
    if |bs| < 8 || bs[..4] != HBS1 then None
    else
      var n := Value(bs[4..8]);
      if n > MAX_SOURCE_ENTRIES then None
      else
        var read := ReadEntries(bs[8..], n, SourceRules(|bs|), None, 0);
        if read.Some? && Padding(read.value.1) then Some(read.value.0) else None
  }

  lemma {:induction false} TotalFits(es: seq<Entry>)
    ensures Total(es) <= |EntriesBytes(es)|
    decreases |es|
  {
    if es != [] {
      TotalFits(es[1..]);
    }
  }

  /** A bundle that is not refused holds the files in strictly ascending, admissible order. */
  lemma BundledFiles(files: seq<Entry>, lower: seq<byte> -> seq<byte>)
    requires forall i :: 0 <= i < |files| ==> SourceFile(files[i])
    requires Bundle(files, lower).Ok?
    ensures var es := Sort(files);
            && Bundle(files, lower).value.0 == BundleBytes(es) && |es| <= MAX_FILES && Ascending(es)
            && (forall i :: 0 <= i < |es| ==> SourceFile(es[i]) && BundlePath(es[i].path))
  {
    hide Sort, EntriesBytes, BundlePath, SourceFile;
    var es := Sort(files);
    SortSorts(files);
    UnrefusedAscends(es, lower, {});
    forall i | 0 <= i < |es|
      ensures SourceFile(es[i]) && BundlePath(es[i].path)
    {
      assert es[i] in multiset(es);
      assert es[i] in files;
      UnrefusedPath(es, lower, {}, i);
    }
  }

  lemma ExtractOfBytes(es: seq<Entry>, trailing: seq<byte>)
    requires |es| <= MAX_FILES && forall i :: 0 <= i < |es| ==> Writable(es[i])
    requires EntriesOk(es, SourceRules(|BundleBytes(es) + trailing|), None, 0)
    ensures Extract(BundleBytes(es) + trailing) == if Padding(trailing) then Some(es) else None
  {
    hide EntryBytes, EntriesOk, ReadEntries, EntriesBytes;
    var bs := BundleBytes(es) + trailing;
    Widths();
    ValueOfBE(|es|, 4);
    assert bs[..4] == HBS1 && bs[4..8] == BE(|es|, 4) && bs[8..] == EntriesBytes(es) + trailing;
    ReadEntriesOfBytes(es, trailing, SourceRules(|bs|), None, 0);
  }

  /** Behind a bundle, exactly up to 511 zero bytes are tolerated, and they change nothing. */
  lemma ExtractBundle(files: seq<Entry>, lower: seq<byte> -> seq<byte>, trailing: seq<byte>)
    requires forall i :: 0 <= i < |files| ==> SourceFile(files[i])
    requires Bundle(files, lower).Ok?
    ensures Extract(Bundle(files, lower).value.0 + trailing) == if Padding(trailing) then Some(Sort(files)) else None
  {
    hide Sort, EntriesBytes, Extract, EntriesOk, Bundle, Padding;
    var es := Sort(files);
    BundledFiles(files, lower);
    TotalFits(es);
    SourceEntriesAccepted(es, |BundleBytes(es) + trailing|);
    ExtractOfBytes(es, trailing);
  }

  lemma SourceEntriesAccepted(es: seq<Entry>, cap: nat)
    requires Ascending(es) && Total(es) <= cap
    requires forall i :: 0 <= i < |es| ==> SourceFile(es[i]) && BundlePath(es[i].path)
    ensures EntriesOk(es, SourceRules(cap), None, 0)
    ensures forall i :: 0 <= i < |es| ==> Writable(es[i])
  {
    Widths();
    forall i | 0 <= i < |es|
      ensures 0 < |es[i].path| <= MAX_SOURCE_PATH && ArtifactPath(es[i].path)
    {
      BundlePathsAreRelative(es[i].path);
    }
    AscendingIsAccepted(es, SourceRules(cap), None, 0);
  }

  lemma PaddedTail(b: seq<byte>)
    ensures Padded(b) == b + Padded(b)[|b|..] && Padding(Padded(b)[|b|..])
  {
  }

  /** What the guest extracts from the padded device is the sorted snapshot. */
  lemma SourceRoundTrip(files: seq<Entry>, lower: seq<byte> -> seq<byte>)
    requires forall i :: 0 <= i < |files| ==> SourceFile(files[i])
    requires Bundle(files, lower).Ok?
    ensures Extract(Padded(Bundle(files, lower).value.0)) == Some(Sort(files))
  {
    hide Bundle, Extract, Sort, Padded;
    var b := Bundle(files, lower).value.0;
    PaddedTail(b);
    ExtractBundle(files, lower, Padded(b)[|b|..]);
  }

  /** Different sets of files never share a bundle. */
  lemma BundleIsInjective(files: seq<Entry>, others: seq<Entry>, lower: seq<byte> -> seq<byte>)
    requires forall i :: 0 <= i < |files| ==> SourceFile(files[i])
    requires forall i :: 0 <= i < |others| ==> SourceFile(others[i])
    requires Bundle(files, lower).Ok? && Bundle(others, lower).Ok? && Bundle(files, lower).value.0 == Bundle(others, lower).value.0
    ensures multiset(files) == multiset(others)
  {
    SourceRoundTrip(files, lower);
    SourceRoundTrip(others, lower);
    SortSorts(files);
    SortSorts(others);
  }

  // ----- the guest's loops, for any chunking of its reads -----

  /** The trailing loop: a 511-byte buffer filled by reads of any size, then one more byte asked for. */
  method ReadPadding(source: seq<byte>) returns (ok: bool)
    ensures ok == Padding(source)
  {
    var length := 0;
    while true
      invariant 0 <= length <= |source| && length < MAX_SOURCE_PADDING
      invariant forall i :: 0 <= i < length ==> source[i] == 0
      decreases |source| - length
    {
      if length == |source| {
        return true;
      }
      var read: nat :| 1 <= read && length + read <= MAX_SOURCE_PADDING && length + read <= |source|;
      var i := length;
      while i < length + read
        invariant length <= i <= length + read && forall k :: 0 <= k < i ==> source[k] == 0
      {
        if source[i] != 0 {
          return false;
        }
        i := i + 1;
      }
      length := length + read;
      if length == MAX_SOURCE_PADDING {
        return length == |source|;
      }
    }
  }

  method ExtractSource(bs: seq<byte>) returns (r: Option<seq<Entry>>)
    ensures r == Extract(bs)
  {
    hide ReadEntry, EntryBytes;
    if |bs| < 8 || bs[..4] != HBS1 {
      return None;
    }
    var entries := Value(bs[4..8]);
    if entries > MAX_SOURCE_ENTRIES {
      return None;
    }
    ghost var rules := SourceRules(|bs|);
    var rest := bs[8..];
    var done: seq<Entry> := [];
    var previous: Option<seq<byte>> := None;
    ghost var used: nat := 0;
    var i := 0;
    ResumeFromStart(ReadEntries(rest, entries, rules, None, 0));
    while i < entries
      invariant 0 <= i <= entries && used + |rest| <= |bs|
      invariant ReadEntries(bs[8..], entries, rules, None, 0) == Resume(done, ReadEntries(rest, entries - i, rules, previous, used))
    {
      var read := ExtractEntry(rest, previous, |bs|, used);
      if read.None? {
        return None;
      }
      var (e, r') := read.value;
      BytesOfReadEntry(rest, rules, previous, used);
      assert |EntryBytes(e)| >= |e.content| by {
        EntrySize(e);
      }
      ResumeAfter(done, rest, entries - i, rules, previous, used);
      used := used + |e.content|;
      done, rest, previous, i := done + [e], r', Some(e.path), i + 1;
    }
    assert done + [] == done;
    var padded := ReadPadding(rest);
    r := if padded then Some(done) else None;
  }

  /** The body of the extraction loop. */
  method ExtractEntry(bs: seq<byte>, previous: Option<seq<byte>>, ghost cap: nat, ghost used: nat) returns (r: Option<(Entry, seq<byte>)>)
    requires used + |bs| <= cap
    ensures r == ReadEntry(bs, SourceRules(cap), previous, used)
  {
    var s := ReadStr(bs, MAX_SOURCE_PATH);
    if s.None? {
      return None;
    }
    var (path, rest) := s.value;
    if !Utf8(path) || !ArtifactPath(path) || !Follows(previous, path) || |rest| < 12 {
      return None;
    }
    var mode, size := Value(rest[..4]), Value(rest[4..12]);
    if mode !in {PLAIN_MODE, EXECUTABLE_MODE} {
      return None;
    }
    var content := CopyExactly(rest[12..], size);
    if content.None? {
      return None;
    }
    assert rest[12..][..size] == rest[12..12 + size];
    r := Some((Entry(path, mode, content.value), rest[12 + size..]));
  }
}
