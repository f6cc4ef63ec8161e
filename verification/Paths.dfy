/** The path and string checks of the archive writers and readers. Rust's path components and
    Python's path parts both drop empty and "." components, except that Rust keeps a leading ".". */
module Paths {
  import opened Bytes

  const DOT: byte := 46

  predicate Continuation(b: byte) {
    0x80 <= b <= 0xBF
  }

  /** Well-formed UTF-8, section 4 of RFC 3629. */
  predicate Utf8(bs: seq<byte>)
    decreases |bs|
  {
    if bs == [] then true
    else if bs[0] < 0x80 then Utf8(bs[1..])
    else if 0xC2 <= bs[0] <= 0xDF then |bs| >= 2 && Continuation(bs[1]) && Utf8(bs[2..])
    else if 0xE0 <= bs[0] <= 0xEF then
      && |bs| >= 3 && Continuation(bs[1]) && Continuation(bs[2])
      && (bs[0] == 0xE0 ==> bs[1] >= 0xA0) && (bs[0] == 0xED ==> bs[1] <= 0x9F) && Utf8(bs[3..])
    else if 0xF0 <= bs[0] <= 0xF4 then
      && |bs| >= 4 && Continuation(bs[1]) && Continuation(bs[2]) && Continuation(bs[3])
      && (bs[0] == 0xF0 ==> bs[1] >= 0x90) && (bs[0] == 0xF4 ==> bs[1] <= 0x8F) && Utf8(bs[4..])
    else false
  }

  /** The text between slashes. */
  function Split(bs: seq<byte>): (parts: seq<seq<byte>>)
    ensures parts != []
  {
    if bs == [] then [[]]
    else
      var rest := Split(bs[1..]);
      if bs[0] == SLASH then [[]] + rest else [[bs[0]] + rest[0]] + rest[1..]
  }

  function Join(parts: seq<seq<byte>>): seq<byte>
    requires parts != []
  {
    if |parts| == 1 then parts[0] else parts[0] + [SLASH] + Join(parts[1..])
  }

  lemma JoinPrefixed(b: byte, parts: seq<seq<byte>>)
    requires parts != []
    ensures Join([[b] + parts[0]] + parts[1..]) == [b] + Join(parts)
  {
    assert ([[b] + parts[0]] + parts[1..])[1..] == parts[1..];
    if |parts| > 1 {
      assert [b] + parts[0] + [SLASH] + Join(parts[1..]) == [b] + (parts[0] + [SLASH] + Join(parts[1..]));
    }
  }

  /** Components hold no slash, and joining them with slashes gives the path back. */
  lemma {:induction false} JoinOfSplit(bs: seq<byte>)
    ensures Join(Split(bs)) == bs
    ensures forall i :: 0 <= i < |Split(bs)| ==> SLASH !in Split(bs)[i]
    decreases |bs|
  {
    if bs != [] {
      JoinOfSplit(bs[1..]);
      var rest := Split(bs[1..]);
      assert bs == [bs[0]] + bs[1..];
      if bs[0] == SLASH {
        assert ([[]] + rest)[1..] == rest;
      } else {
        JoinPrefixed(bs[0], rest);
      }
    }
  }

  lemma {:induction false} SplitWhole(bs: seq<byte>)
    requires SLASH !in bs
    ensures Split(bs) == [bs]
    decreases |bs|
  {
    if bs != [] {
      SplitWhole(bs[1..]);
      assert bs == [bs[0]] + bs[1..];
    }
  }

  predicate NoParent(bs: seq<byte>) {
    [DOT, DOT] !in Split(bs)
  }

  /** Not absolute, and every component is Component::Normal. */
  predicate RustNormal(bs: seq<byte>) {
    bs != [] && bs[0] != SLASH && NoParent(bs) && Split(bs)[0] != [DOT]
  }

  predicate Control(b: byte) {
    b < 32 || b == 127
  }

  predicate ControlFree(bs: seq<byte>) {
    forall i :: 0 <= i < |bs| ==> !Control(bs[i])
  }

  predicate PlainBytes(bs: seq<byte>) {
    forall i :: 0 <= i < |bs| ==> bs[i] != BACKSLASH && bs[i] != 0 && bs[i] != 13 && bs[i] != 10
  }

  /** validate_path of artifact.rs and, with its length bound, validate_relative_path of guest.rs. */
  predicate ArtifactPath(bs: seq<byte>) {
    RustNormal(bs) && PlainBytes(bs)
  }

  /** validate_bundle_path of build_jobs.rs. */
  predicate BundlePath(bs: seq<byte>) {
    RustNormal(bs) && |bs| <= 1024 && BACKSLASH !in bs && ControlFree(bs)
  }

  /** safe_archive_path of prepare-artifact.py, after decoding. */
  predicate SafeArchivePath(bs: seq<byte>) {
    bs != [] && bs[0] != SLASH && BACKSLASH !in bs && ControlFree(bs) && NoParent(bs)
  }

  /** safe_relative of the release coordinator. */
  predicate SafeRelative(bs: seq<byte>) {
    bs != [] && bs[0] != SLASH && BACKSLASH !in bs && 0 !in bs && NoParent(bs)
  }

  /** On a path the receiver accepts, the runtime reader adds exactly the ban on control bytes, and the
      release coordinator adds nothing. */
  lemma ReadersAgree(bs: seq<byte>)
    requires ArtifactPath(bs)
    ensures SafeArchivePath(bs) <==> ControlFree(bs)
    ensures SafeRelative(bs)
  {
  }

  lemma BundlePathsAreRelative(bs: seq<byte>)
    requires BundlePath(bs)
    ensures ArtifactPath(bs)
  {
    forall i | 0 <= i < |bs|
      ensures bs[i] != BACKSLASH && bs[i] != 0 && bs[i] != 13 && bs[i] != 10
    {
      assert !Control(bs[i]);
    }
  }

  predicate LowerHex(b: byte) {
    48 <= b <= 57 || 97 <= b <= 102
  }

  predicate UpperHex(b: byte) {
    65 <= b <= 70
  }

  /** valid_uuid: 36 bytes, hyphens in place, hexadecimal of either case elsewhere. */
  predicate ValidUuid(bs: seq<byte>) {
    |bs| == 36 && forall i :: 0 <= i < 36 ==> if i in {8, 13, 18, 23} then bs[i] == 45 else LowerHex(bs[i]) || UpperHex(bs[i])
  }

  /** The spelling that uuid.UUID prints back unchanged. */
  predicate CanonicalUuid(bs: seq<byte>) {
    ValidUuid(bs) && forall i :: 0 <= i < 36 ==> !UpperHex(bs[i])
  }
}
