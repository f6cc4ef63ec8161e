/** The chunked credential scan of crates/builder/src/artifact.rs (copy_hashed): content is read in
    pieces of any size and only a tail is carried over, yet nothing that spans pieces is missed. */
module Scanner {
  import opened Common
  import opened Bytes

  const BUFFER := 64 * 1024

  /** `value` stands in `content` at offset `i`. */
  predicate OccursAt(content: seq<byte>, value: seq<byte>, i: nat) {
    i + |value| <= |content| && content[i..i + |value|] == value
  }

  predicate Occurs(content: seq<byte>, value: seq<byte>) {
    exists i :: 0 <= i <= |content| && OccursAt(content, value, i)
  }

  /** Some nonempty forbidden value stands somewhere in the content. */
  predicate Tainted(content: seq<byte>, forbidden: seq<seq<byte>>) {
    exists k :: 0 <= k < |forbidden| && forbidden[k] != [] && Occurs(content, forbidden[k])
  }

  function MaxLength(values: seq<seq<byte>>): (n: nat)
    ensures forall k :: 0 <= k < |values| ==> |values[k]| <= n
    ensures n == 0 || exists k :: 0 <= k < |values| && |values[k]| == n
  {
    if values == [] then 0
    else
      var rest := MaxLength(values[1..]);
      assert forall k :: 1 <= k < |values| ==> values[k] == values[1..][k - 1];
      if |values[0]| >= rest then |values[0]| else
        assert exists k :: 0 <= k < |values[1..]| && |values[1..][k]| == rest;
        rest
  }

  function Suffix(s: seq<byte>, n: nat): seq<byte> {
    if n >= |s| then s else s[|s| - n..]
  }

  lemma OccursBehind(prefix: seq<byte>, s: seq<byte>, value: seq<byte>, i: nat)
    ensures OccursAt(prefix + s, value, |prefix| + i) <==> OccursAt(s, value, i)
  {
    if i + |value| <= |s| {
      assert (prefix + s)[|prefix| + i..|prefix| + i + |value|] == s[i..i + |value|];
    }
  }

  lemma OccursBefore(s: seq<byte>, rest: seq<byte>, value: seq<byte>, i: nat)
    requires i + |value| <= |s|
    ensures OccursAt(s + rest, value, i) <==> OccursAt(s, value, i)
  {
    assert (s + rest)[i..i + |value|] == s[i..i + |value|];
  }

  /** A value no longer than `max` that is not in `done` is in `done + piece` iff it is in the last
      `max - 1` bytes of `done` followed by `piece`. */
  lemma TailIsEnough(done: seq<byte>, piece: seq<byte>, value: seq<byte>, max: nat)
    requires 0 < |value| <= max && !Occurs(done, value)
    ensures Occurs(done + piece, value) <==> Occurs(Suffix(done, max - 1) + piece, value)
  {
    var tail := Suffix(done, max - 1);
    var skipped := done[..|done| - |tail|];
    assert done + piece == skipped + (tail + piece);
    hide OccursAt;
    if Occurs(done + piece, value) {
      var i :| 0 <= i <= |done + piece| && OccursAt(done + piece, value, i);
      assert i + |value| > |done| by {
        if i + |value| <= |done| {
          OccursBefore(done, piece, value, i);
        }
      }
      OccursBehind(skipped, tail + piece, value, i - |skipped|);
      assert OccursAt(tail + piece, value, i - |skipped|);
    }
    if Occurs(tail + piece, value) {
      var i :| 0 <= i <= |tail + piece| && OccursAt(tail + piece, value, i);
      OccursBehind(skipped, tail + piece, value, i);
      assert OccursAt(done + piece, value, |skipped| + i);
    }
  }

  lemma SuffixCarries(done: seq<byte>, piece: seq<byte>, n: nat)
    ensures Suffix(Suffix(done, n) + piece, n) == Suffix(done + piece, n)
  {
    var scan := Suffix(done, n) + piece;
    assert done + piece == done[..|done| - |Suffix(done, n)|] + scan;
  }

  lemma OccursGrows(content: seq<byte>, more: seq<byte>, value: seq<byte>)
    requires Occurs(content, value)
    ensures Occurs(content + more, value)
  {
    var i :| 0 <= i <= |content| && OccursAt(content, value, i);
    assert (content + more)[i..i + |value|] == content[i..i + |value|];
    assert OccursAt(content + more, value, i);
  }

  /** Scanning the tail and the piece decides the same as scanning all bytes read so far. */
  lemma ScanIsWhole(done: seq<byte>, piece: seq<byte>, forbidden: seq<seq<byte>>)
    requires !Tainted(done, forbidden) && MaxLength(forbidden) > 0
    ensures Tainted(Suffix(done, MaxLength(forbidden) - 1) + piece, forbidden) <==> Tainted(done + piece, forbidden)
  {
    var tail := Suffix(done, MaxLength(forbidden) - 1);
    forall k | 0 <= k < |forbidden| && forbidden[k] != []
      ensures Occurs(tail + piece, forbidden[k]) <==> Occurs(done + piece, forbidden[k])
    {
      TailIsEnough(done, piece, forbidden[k], MaxLength(forbidden));
    }
  }

  /** Rust's windows search. */
  method ContainsBytes(haystack: seq<byte>, needle: seq<byte>) returns (found: bool)
    requires needle != []
    ensures found == Occurs(haystack, needle)
  {
    if |needle| > |haystack| {
      return false;
    }
    var i := 0;
    while i + |needle| <= |haystack|
      invariant 0 <= i <= |haystack| - |needle| + 1
      invariant forall k :: 0 <= k < i ==> !OccursAt(haystack, needle, k)
    {
      if haystack[i..i + |needle|] == needle {
        assert OccursAt(haystack, needle, i);
        return true;
      }
      i := i + 1;
    }
    found := false;
  }

  method AnyForbidden(scan: seq<byte>, forbidden: seq<seq<byte>>) returns (found: bool)
    ensures found == Tainted(scan, forbidden)
  {
    var k := 0;
    while k < |forbidden|
      invariant 0 <= k <= |forbidden|
      invariant forall l :: 0 <= l < k && forbidden[l] != [] ==> !Occurs(scan, forbidden[l])
    {
      if forbidden[k] != [] {
        var here := ContainsBytes(scan, forbidden[k]);
        if here {
          return true;
        }
      }
      k := k + 1;
    }
    found := false;
  }

  lemma TaintGrows(content: seq<byte>, longer: seq<byte>, forbidden: seq<seq<byte>>)
    requires Tainted(content, forbidden) && content <= longer
    ensures Tainted(longer, forbidden)
  {
    var k :| 0 <= k < |forbidden| && forbidden[k] != [] && Occurs(content, forbidden[k]);
    OccursGrows(content, longer[|content|..], forbidden[k]);
    assert longer == content + longer[|content|..];
  }

  lemma NothingForbidden(content: seq<byte>, forbidden: seq<seq<byte>>)
    requires content == [] || MaxLength(forbidden) == 0
    ensures !Tainted(content, forbidden)
  {
    forall k | 0 <= k < |forbidden| && forbidden[k] != []
      ensures !Occurs(content, forbidden[k])
    {
      assert forall i: nat :: !OccursAt([], forbidden[k], i);
    }
  }

  datatype CopyError = Credential | UnexpectedEof

  /** One step of the scan: `tail` stands for everything read before. */
  method ScanPiece(ghost done: seq<byte>, tail: seq<byte>, piece: seq<byte>, forbidden: seq<seq<byte>>, maximum: nat)
      returns (found: bool, next: seq<byte>)
    requires maximum == MaxLength(forbidden) > 0 && !Tainted(done, forbidden) && tail == Suffix(done, maximum - 1)
    ensures found == Tainted(done + piece, forbidden)
    ensures next == Suffix(done + piece, maximum - 1)
  {
    hide Tainted;
    var scan := tail + piece;
    found := AnyForbidden(scan, forbidden);
    ScanIsWhole(done, piece, forbidden);
    SuffixCarries(done, piece, maximum - 1);
    var retain := if maximum - 1 < |scan| then maximum - 1 else |scan|;
    next := scan[|scan| - retain..];
  }

  /** Copy `remaining` bytes off the front of `source`. Each read returns any positive number of the
      bytes asked for; `written` is what reached the file and the hasher. */
  method CopyHashed(source: seq<byte>, remaining: nat, forbidden: seq<seq<byte>>, capture: bool)
      returns (r: Result<seq<byte>, CopyError>, written: seq<byte>, captured: seq<byte>)
    ensures var content := source[..if remaining <= |source| then remaining else |source|];
            && (r == Err(Credential) <==> Tainted(content, forbidden))
            && (r == Err(UnexpectedEof) <==> !Tainted(content, forbidden) && |source| < remaining)
            && (r.Ok? ==> r.value == source[remaining..] && written == content && captured == if capture then content else [])
            && written <= content
  {
    hide Tainted;
    var maximum := MaxLength(forbidden);
    var tail: seq<byte> := [];
    var left := remaining;
    written, captured := [], [];
    ghost var content := source[..if remaining <= |source| then remaining else |source|];
    NothingForbidden([], forbidden);
    if maximum == 0 {
      NothingForbidden(content, forbidden);
    }
    while left > 0
      invariant 0 <= left <= remaining && |written| == remaining - left <= |source| && written == source[..|written|]
      invariant captured == if capture then written else []
      invariant maximum > 0 ==> !Tainted(written, forbidden) && tail == Suffix(written, maximum - 1)
    {
      var wanted := if left < BUFFER then left else BUFFER;
      var available := |source| - |written|;
      if available == 0 {
        assert content == written;
        r := Err(UnexpectedEof);
        return;
      }
      var read: nat :| 1 <= read <= wanted && read <= available;
      var piece := source[|written|..|written| + read];
      assert written + piece == source[..|written| + read];
      if maximum > 0 {
        var found;
        found, tail := ScanPiece(written, tail, piece, forbidden, maximum);
        if found {
          TaintGrows(written + piece, content, forbidden);
          r := Err(Credential);
          return;
        }
      }
      if capture {
        captured := captured + piece;
      }
      written := written + piece;
      left := left - read;
    }
    assert written == content;
    r := Ok(source[remaining..]);
  }
}
