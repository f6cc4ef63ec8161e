/** Which text static_exported_object cuts out of a source without comments, said on its positions, and
    what has_single_literal_property answers for a source that exports a list of members. */
module JsExports {
  import opened Common
  import opened Bytes
  import opened Scanner
  import opened JsComments
  import opened JsObject
  import opened JsMembers

  // ----- where the exported text starts -----

  /** The first occurrence. */
  ghost predicate FirstAt(bs: seq<byte>, needle: seq<byte>, k: nat) {
    OccursAt(bs, needle, k) && forall j: nat :: j < k ==> !OccursAt(bs, needle, j)
  }

  /** Only white space from `i` to `k`, and none at `k`. */
  predicate WhiteUpTo(bs: seq<byte>, i: nat, k: nat) {
    i <= k <= |bs| && (forall j :: i <= j < k ==> bs[j] in {9, 10, 12, 13, 32}) && (k < |bs| ==> bs[k] !in {9, 10, 12, 13, 32})
  }

  /** The text behind the first `export default`, or, where there is none, behind the first `module.exports`
      and its equals sign. */
  ghost predicate StartsAt(bs: seq<byte>, k: nat) {
    || (exists d: nat :: FirstAt(bs, Letters("export default"), d) && WhiteUpTo(bs, d + 14, k))
    || ((forall d: nat :: !OccursAt(bs, Letters("export default"), d))
        && exists m: nat :: FirstAt(bs, Letters("module.exports"), m) && AssignedAt(bs, m + 14, k))
  }

  /** White space, an equals sign and white space from `i` to `k`. */
  ghost predicate AssignedAt(bs: seq<byte>, i: nat, k: nat) {
    exists e: nat :: WhiteUpTo(bs, i, e) && e < |bs| && bs[e] as int == '=' as int && WhiteUpTo(bs, e + 1, k)
  }

  lemma WhiteUpToIsSkip(bs: seq<byte>, i: nat, k: nat)
    requires i <= |bs|
    ensures WhiteUpTo(bs, i, k) <==> k == SkipWhite(bs, i)
  {
    var j := SkipWhite(bs, i);
    hide SkipWhite;
    assert forall n :: i <= n < |bs| ==> (White(bs[n]) <==> bs[n] in {9, 10, 12, 13, 32});
    assert WhiteUpTo(bs, i, j);
  }

  lemma FindIsFirst(bs: seq<byte>, needle: seq<byte>)
    ensures forall k: nat :: FirstAt(bs, needle, k) <==> FindFrom(bs, needle, 0) == Some(k)
    ensures FindFrom(bs, needle, 0).None? <==> forall j: nat :: !OccursAt(bs, needle, j)
    ensures FindFrom(bs, needle, 0).Some? ==> FindFrom(bs, needle, 0).value + |needle| <= |bs|
  {
    var r := FindFrom(bs, needle, 0);
    hide FindFrom;
    assert forall j: nat :: OccursAt(bs, needle, j) ==> j <= |bs|;
    assert r.Some? ==> r.value + |needle| <= |bs|;
    hide OccursAt;
  }

  lemma AssignedIsSkip(bs: seq<byte>, i: nat, k: nat)
    requires i <= |bs|
    ensures AssignedAt(bs, i, k) <==> var e := SkipWhite(bs, i); e < |bs| && bs[e] == EQUALS && k == SkipWhite(bs, e + 1)
  {
    var e := SkipWhite(bs, i);
    WhiteUpToIsSkip(bs, i, e);
    if e < |bs| {
      WhiteUpToIsSkip(bs, e + 1, k);
    }
    hide SkipWhite, WhiteUpTo;
    if e': nat :| WhiteUpTo(bs, i, e') && e' < |bs| && bs[e'] as int == '=' as int && WhiteUpTo(bs, e' + 1, k) {
      WhiteUpToIsSkip(bs, i, e');
    }
  }

  /** The exported text starts there, and nowhere if nothing is exported. */
  lemma StartIsExport(bs: seq<byte>, k: nat)
    ensures StartsAt(bs, k) <==> ExportStart(bs) == Some(k)
  {
    FindIsFirst(bs, EXPORT_DEFAULT);
    FindIsFirst(bs, MODULE_EXPORTS);
    hide FindFrom, SkipWhite, WhiteUpTo, AssignedAt, OccursAt, FirstAt, Letters;
    var d := FindFrom(bs, EXPORT_DEFAULT, 0);
    var m := FindFrom(bs, MODULE_EXPORTS, 0);
    if d.Some? {
      WhiteUpToIsSkip(bs, d.value + 14, k);
      assert FirstAt(bs, EXPORT_DEFAULT, d.value);
    } else if m.Some? {
      AssignedIsSkip(bs, m.value + 14, k);
      assert FirstAt(bs, MODULE_EXPORTS, m.value);
    }
  }

  // ----- what may follow, and what may not occur -----

  /** Byte `i` belongs to white space of str::trim: ASCII, or one of the two white characters of two bytes. */
  predicate BlankAt(t: seq<byte>, i: nat)
    requires i < |t|
  {
    || 9 <= t[i] <= 13 || t[i] == 32
    || (t[i] == 0xC2 && i + 1 < |t| && t[i + 1] in {0x85, 0xA0})
    || (t[i] in {0x85, 0xA0} && i > 0 && t[i - 1] == 0xC2)
  }

  predicate BlankText(t: seq<byte>) {
    forall i :: 0 <= i < |t| ==> BlankAt(t, i)
  }

  /** Behind a whole white character a text is blank iff it is blank without it. */
  lemma BlankBehind(t: seq<byte>, n: nat)
    requires if n == 1 then t != [] && (9 <= t[0] <= 13 || t[0] == 32) else n == 2 <= |t| && t[0] == 0xC2 && t[1] in {0x85, 0xA0}
    ensures BlankText(t) <==> BlankText(t[n..])
  {
    var rest := t[n..];
    assert BlankAt(t, 0) && (n == 2 ==> BlankAt(t, 1));
    forall i | 0 <= i < |rest|
      ensures BlankAt(t, n + i) <==> BlankAt(rest, i)
    {
      assert rest[i] == t[n + i] && (i > 0 ==> rest[i - 1] == t[n + i - 1]) && (i + 1 < |rest| ==> rest[i + 1] == t[n + i + 1]);
    }
    if BlankText(rest) {
      forall i | 0 <= i < |t|
        ensures BlankAt(t, i)
      {
        assert i >= n ==> BlankAt(rest, i - n);
      }
    }
    if BlankText(t) {
      forall i | 0 <= i < |rest|
        ensures BlankAt(rest, i)
      {
        assert BlankAt(t, n + i);
      }
    }
  }

  lemma {:induction false} BlankMeans(t: seq<byte>)
    ensures Blank(t) <==> BlankText(t)
    decreases |t|
  {
    if t != [] {
      if 9 <= t[0] <= 13 || t[0] == 32 {
        BlankMeans(t[1..]);
        BlankBehind(t, 1);
      } else if |t| >= 2 && t[0] == 0xC2 && t[1] in {0x85, 0xA0} {
        BlankMeans(t[2..]);
        BlankBehind(t, 2);
      } else {
        assert !BlankAt(t, 0);
      }
    }
  }

  /** A semicolon at `i` with nothing but white space around it. */
  predicate Semicolon(t: seq<byte>, i: nat) {
    i < |t| && t[i] as int == ';' as int && BlankText(t[..i]) && BlankText(t[i + 1..])
  }

  /** Blank but for at most one semicolon. */
  ghost predicate TailText(t: seq<byte>) {
    BlankText(t) || exists i: nat :: Semicolon(t, i)
  }

  lemma SemicolonBehind(t: seq<byte>, n: nat, i: nat)
    requires if n == 1 then t != [] && (9 <= t[0] <= 13 || t[0] == 32) else n == 2 <= |t| && t[0] == 0xC2 && t[1] in {0x85, 0xA0}
    ensures Semicolon(t, n + i) <==> Semicolon(t[n..], i)
  {
    var rest := t[n..];
    if n + i < |t| {
      assert t[..n + i][n..] == rest[..i] && t[n + i + 1..] == rest[i + 1..] && rest[i] == t[n + i];
      assert t[..n + i][0] == t[0] && (n == 2 ==> t[..n + i][1] == t[1]);
      BlankBehind(t[..n + i], n);
    }
    hide BlankText;
  }

  /** A semicolon surrounded by blanks can only stand behind the first white character, or first. */
  lemma SemicolonLate(t: seq<byte>, i: nat)
    requires Semicolon(t, i)
    ensures i > 0 ==> BlankAt(t[..i], 0)
    ensures i == 1 ==> t[0] != 0xC2
  {
  }

  lemma {:induction false} TailTextBehind(t: seq<byte>, n: nat)
    requires if n == 1 then t != [] && (9 <= t[0] <= 13 || t[0] == 32) else n == 2 <= |t| && t[0] == 0xC2 && t[1] in {0x85, 0xA0}
    ensures TailText(t) <==> TailText(t[n..])
  {
    BlankBehind(t, n);
    if i: nat :| Semicolon(t, i) {
      SemicolonLate(t, i);
      assert i >= n;
      SemicolonBehind(t, n, i - n);
    }
    if i: nat :| Semicolon(t[n..], i) {
      SemicolonBehind(t, n, i);
    }
    hide BlankText, Semicolon;
  }

  lemma {:induction false} TailMeans(t: seq<byte>)
    ensures AllowedTail(t) <==> TailText(t)
    decreases |t|
  {
    if t == [] {
    } else if t[0] == SEMICOLON {
      BlankMeans(t[1..]);
      assert t[..0] == [] && !BlankAt(t, 0);
      forall i: nat | Semicolon(t, i)
        ensures i == 0
      {
        SemicolonLate(t, i);
      }
      assert BlankText(t[1..]) ==> Semicolon(t, 0);
    } else if 9 <= t[0] <= 13 || t[0] == 32 {
      TailMeans(t[1..]);
      TailTextBehind(t, 1);
    } else if |t| >= 2 && t[0] == 0xC2 && t[1] in {0x85, 0xA0} {
      TailMeans(t[2..]);
      TailTextBehind(t, 2);
    } else {
      assert !BlankAt(t, 0);
      forall i: nat
        ensures !Semicolon(t, i)
      {
        if Semicolon(t, i) {
          SemicolonLate(t, i);
          assert false;
        }
      }
    }
  }

  /** None of these stands anywhere in the text. */
  ghost predicate Unbanned(text: seq<byte>) {
    forall i: nat ::
      && !OccursAt(text, Letters("..."), i) && !OccursAt(text, Letters("Object.assign"), i) && !OccursAt(text, Letters("=>"), i)
      && !OccursAt(text, Letters("function"), i) && !OccursAt(text, Letters("["), i)
  }

  lemma BansMeans(text: seq<byte>)
    ensures Bans(text) <==> !Unbanned(text)
  {
    FindIsFirst(text, Letters("..."));
    FindIsFirst(text, Letters("Object.assign"));
    FindIsFirst(text, Letters("=>"));
    FindIsFirst(text, Letters("function"));
    FindIsFirst(text, Letters("["));
    hide OccursAt, FindFrom, FirstAt;
    assert BANNED[0] == Letters("...") && BANNED[1] == Letters("Object.assign") && BANNED[2] == Letters("=>");
    assert BANNED[3] == Letters("function") && BANNED[4] == Letters("[");
  }

  /** The braces at the start of the text close first behind `n` bytes. */
  ghost predicate ClosesFirst(text: seq<byte>, n: nat) {
    Balanced(text, n) && forall m: nat :: m < n ==> !Balanced(text, m)
  }

  /** The first `n` bytes of the text are the object it exports. */
  ghost predicate TextExports(text: seq<byte>, n: nat) {
    0 < n <= |text| && text[0] as int == '{' as int && ClosesFirst(text, n) && TailText(text[n..]) && Unbanned(text)
  }

  /** The object of `n` bytes from `k` on is what the source exports. */
  ghost predicate Exports(bs: seq<byte>, k: nat, n: nat) {
    StartsAt(bs, k) && k + n <= |bs| && TextExports(bs[k..], n)
  }

  lemma ScanIsFirst(text: seq<byte>, n: nat)
    requires text != [] && text[0] == OPEN && 0 < n
    ensures ClosesFirst(text, n) <==> Scan(text, 0, 0) == Some(n - 1)
  {
    ShortestBalanced(text);
    hide Scan, Balanced;
  }

  lemma TextIsCut(text: seq<byte>, n: nat)
    ensures TextExports(text, n) <==>
              && text != [] && text[0] == OPEN && !Bans(text) && n > 0 && Scan(text, 0, 0) == Some(n - 1) && AllowedTail(text[n..])
  {
    BansMeans(text);
    if text != [] && text[0] == OPEN && n > 0 {
      ScanIsFirst(text, n);
    }
    if 0 < n <= |text| {
      TailMeans(text[n..]);
    }
    hide Bans, Unbanned, AllowedTail, TailText, ClosesFirst;
  }

  /** An object is cut out iff the source exports it: it stands behind the first `export default` (or, where
      that does not occur, the first `module.exports` and an equals sign), closes there for the first time,
      holds and is followed by no spread, call of Object.assign, arrow, function or bracket, and only
      white space and at most one semicolon follow. */
  lemma ObjectIsExport(bs: seq<byte>, o: seq<byte>)
    ensures ExportedObject(bs) == Some(o) <==> exists k: nat, n: nat :: Exports(bs, k, n) && o == bs[k..k + n]
  {
    hide StartsAt, ExportStart, Bans, AllowedTail, TextExports, Scan;
    var start := ExportStart(bs);
    if start.Some? {
      var k := start.value;
      var text := bs[k..];
      StartIsExport(bs, k);
      var c := Scan(text, 0, 0);
      if c.Some? {
        var n := c.value + 1;
        TextIsCut(text, n);
        assert text[..n] == bs[k..k + n];
        assert ExportedObject(bs) == Some(o) ==> Exports(bs, k, n);
      }
    }
    if k: nat, n: nat :| Exports(bs, k, n) && o == bs[k..k + n] {
      StartIsExport(bs, k);
      TextIsCut(bs[k..], n);
      assert bs[k..][..n] == o;
    }
  }

  // ----- objects given by their members -----

  /** Bytes that a scan for the closing brace passes over. */
  lemma {:induction false} ScanOrdinary(bs: seq<byte>, i: nat, s: seq<byte>, d: nat)
    requires OccursAt(bs, s, i) && forall k :: 0 <= k < |s| ==> Ordinary(s[k])
    ensures Scan(bs, i, d) == Scan(bs, i + |s|, d)
    decreases |s|
  {
    hide OccursAt;
    if s != [] {
      First(bs, i, s);
      ScanOrdinary(bs, i + 1, s[1..], d);
    }
  }

  lemma {:induction false} ScanQuiet(bs: seq<byte>, i: nat, ts: seq<Token>, e: nat, d: nat)
    requires InQuiet(bs, i, ts, e, d)
    ensures i <= e < |bs| && Scan(bs, i, d) == Scan(bs, e, 1)
    decreases |ts|
  {
    hide InQuiet, OccursAt, InsideLine, ParseQuoted;
    QuietHead(bs, i, ts, e, d);
    if ts != [] {
      match ts[0]
      case Open => ScanQuiet(bs, i + 1, ts[1..], e, d + 1);
      case Close => ScanQuiet(bs, i + 1, ts[1..], e, d - 1);
      case Char(_) => ScanQuiet(bs, i + 1, ts[1..], e, d);
      case Str(q, body) =>
        StringAt(bs, i, q, body);
        ScanQuiet(bs, i + |body| + 2, ts[1..], e, d);
    }
  }

  lemma ScanName(bs: seq<byte>, i: nat, n: Name)
    requires NameOk(n) && OccursAt(bs, NameBytes(n), i)
    ensures Scan(bs, i, 1) == Scan(bs, i + |NameBytes(n)|, 1)
  {
    hide OccursAt, InsideLine, ParseQuoted;
    if n.QuotedName? {
      StringAt(bs, i, n.quote, n.body);
    } else {
      ScanOrdinary(bs, i, NameBytes(n), 1);
    }
  }

  lemma ScanMember(bs: seq<byte>, i: nat, m: Member, e: nat)
    requires MemberOk(m) && OccursAt(bs, MemberBytes(m), i) && e == i + |MemberBytes(m)| && EndsAt(bs, e)
    ensures Scan(bs, i, 1) == Scan(bs, e, 1)
  {
    hide OccursAt, NameBytes, NameOk, ValueOk, Quiet, Text, Scan, InsideLine, ValueTokens;
    if m.Loose? {
      assert InQuiet(bs, i, m.text, e, 1);
      ScanQuiet(bs, i, m.text, e, 1);
    } else {
      MemberParts(bs, i, m, e);
      hide MemberBytes;
      var j := i + |m.lead|;
      ScanOrdinary(bs, i, m.lead, 1);
      ScanName(bs, j, m.name);
      j := j + |NameBytes(m.name)|;
      ScanOrdinary(bs, j, m.gap, 1);
      ColonPasses(bs, j + |m.gap|);
      ScanOrdinary(bs, j + |m.gap| + 1, m.space, 1);
      ScanQuiet(bs, j + |m.gap| + 1 + |m.space|, ValueTokens(m.value), e, 1);
    }
  }

  lemma ColonPasses(bs: seq<byte>, i: nat)
    requires i < |bs| && (bs[i] == 58 || bs[i] == 44)
    ensures Scan(bs, i, 1) == Scan(bs, i + 1, 1)
  {
  }

  lemma ScanLast(bs: seq<byte>, i: nat, m: Member, more: seq<byte>)
    requires MemberOk(m) && OccursAt(bs, MemberBytes(m) + more, i) && more == [125]
    ensures OccursAt(bs, more, i + |MemberBytes(m)|) && Scan(bs, i, 1) == Scan(bs, i + |MemberBytes(m)|, 1)
  {
    hide OccursAt, MemberBytes, MemberOk, Scan;
    Cut(bs, i, MemberBytes(m), more);
    First(bs, i + |MemberBytes(m)|, more);
    ScanMember(bs, i, m, i + |MemberBytes(m)|);
  }

  lemma ScanComma(bs: seq<byte>, i: nat, m: Member, more: seq<byte>)
    requires MemberOk(m) && OccursAt(bs, MemberBytes(m) + ([44] + more), i)
    ensures var e := i + |MemberBytes(m)| + 1; OccursAt(bs, more, e) && Scan(bs, i, 1) == Scan(bs, e, 1)
  {
    hide OccursAt, MemberBytes, MemberOk, Scan;
    var e := i + |MemberBytes(m)|;
    Cut(bs, i, MemberBytes(m), [44] + more);
    Cut(bs, e, [44], more);
    First(bs, e, [44]);
    ScanMember(bs, i, m, e);
    ColonPasses(bs, e);
  }

  lemma ScanClose(bs: seq<byte>, i: nat)
    requires OccursAt(bs, [125], i)
    ensures Scan(bs, i, 1) == Some(i)
  {
    First(bs, i, [125]);
  }

  lemma MembersShape(ms: seq<Member>)
    ensures ms == [] ==> MembersBytes(ms) == [125]
    ensures |ms| == 1 ==> MembersBytes(ms[1..]) == [125] && MembersBytes(ms) == MemberBytes(ms[0]) + MembersBytes(ms[1..])
    ensures |ms| > 1 ==> MembersBytes(ms) == MemberBytes(ms[0]) + ([44] + MembersBytes(ms[1..]))
  {
    hide MemberBytes;
    if |ms| == 1 {
      assert [] + MembersBytes(ms[1..]) == MembersBytes(ms[1..]);
    }
  }

  lemma {:induction false} ScanMembers(bs: seq<byte>, i: nat, ms: seq<Member>)
    requires MembersOk(ms) && OccursAt(bs, MembersBytes(ms), i)
    ensures Scan(bs, i, 1) == Some(i + |MembersBytes(ms)| - 1)
    decreases |ms|
  {
    hide OccursAt, MemberBytes, MemberOk, Scan, MembersBytes;
    MembersShape(ms);
    if ms == [] {
      ScanClose(bs, i);
    } else {
      var m, more := ms[0], MembersBytes(ms[1..]);
      if |ms| == 1 {
        ScanLast(bs, i, m, more);
        ScanMembers(bs, i + |MemberBytes(m)|, ms[1..]);
      } else {
        ScanComma(bs, i, m, more);
        ScanMembers(bs, i + |MemberBytes(m)| + 1, ms[1..]);
      }
    }
  }

  /** The braces of an object text close at its end and not before. */
  lemma ObjectTextCloses(ms: seq<Member>, tail: seq<byte>)
    requires MembersOk(ms)
    ensures ClosesFirst(ObjectBytes(ms) + tail, |ObjectBytes(ms)|)
  {
    hide MembersBytes, ClosesFirst, Balanced;
    var text := ObjectBytes(ms) + tail;
    assert text == [123] + (MembersBytes(ms) + tail);
    assert OccursAt(text, text, 0);
    Cut(text, 0, [123], MembersBytes(ms) + tail);
    Cut(text, 1, MembersBytes(ms), tail);
    hide OccursAt;
    assert Scan(text, 0, 0) == Scan(text, 1, 1);
    hide Scan;
    ScanMembers(text, 1, ms);
    ScanIsFirst(text, |ObjectBytes(ms)|);
  }

  // ----- the answer -----

  /** Member `i` has the name and its value starts with the literal, and no other member has the name. */
  predicate Single(ms: seq<Member>, i: nat, property: seq<byte>, expected: seq<byte>) {
    && i < |ms| && IsNamed(ms[i], property) && HasLiteral(ms[i], expected)
    && forall k :: 0 <= k < |ms| && k != i ==> !IsNamed(ms[k], property)
  }

  lemma {:induction false} CountsNone(ms: seq<Member>, property: seq<byte>, expected: seq<byte>)
    ensures CountNamed(ms, property) == 0 <==> forall k :: 0 <= k < |ms| ==> !IsNamed(ms[k], property)
    ensures CountMatching(ms, property, expected) <= CountNamed(ms, property)
    decreases |ms|
  {
    hide IsNamed, HasLiteral;
    if ms != [] {
      CountsNone(ms[1..], property, expected);
      assert forall k :: 0 < k < |ms| ==> ms[k] == ms[1..][k - 1];
      assert forall k :: 0 <= k < |ms[1..]| ==> ms[1..][k] == ms[k + 1];
    }
  }

  lemma {:induction false} CountsOne(ms: seq<Member>, property: seq<byte>, expected: seq<byte>)
    ensures CountNamed(ms, property) == 1 && CountMatching(ms, property, expected) == 1
            <==> exists i: nat :: Single(ms, i, property, expected)
    decreases |ms|
  {
    hide IsNamed, HasLiteral;
    if ms != [] {
      var more := ms[1..];
      CountsOne(more, property, expected);
      CountsNone(more, property, expected);
      assert forall k :: 0 < k < |ms| ==> ms[k] == more[k - 1];
      assert forall k :: 0 <= k < |more| ==> more[k] == ms[k + 1];
      if IsNamed(ms[0], property) {
        assert CountNamed(ms, property) == 1 && CountMatching(ms, property, expected) == 1 ==> Single(ms, 0, property, expected);
      } else {
        if i: nat :| Single(more, i, property, expected) {
          assert Single(ms, i + 1, property, expected);
        }
        if i: nat :| Single(ms, i, property, expected) {
          assert Single(more, i - 1, property, expected);
        }
      }
    }
  }

  /** For a source that, stripped of comments, exports an object with these members, the answer is yes iff
      exactly one member has the property's name and its value starts with the expected string. */
  lemma SingleLiteralIff(source: seq<byte>, before: seq<byte>, ms: seq<Member>, tail: seq<byte>, property: seq<byte>, expected: seq<byte>)
    requires MembersOk(ms) && Strip(source, Code) == Some(before + ObjectBytes(ms) + tail)
    requires StartsAt(before + ObjectBytes(ms) + tail, |before|) && Unbanned(ObjectBytes(ms) + tail) && TailText(tail)
    ensures HasSingle(source, property, expected) <==> exists i: nat :: Single(ms, i, property, expected)
  {
    var o := ObjectBytes(ms);
    var bs := before + o + tail;
    assert bs[|before|..] == o + tail && (o + tail)[|o|..] == tail && bs[|before|..|before| + |o|] == o;
    assert (o + tail)[0] == o[0] == 123;
    ObjectTextCloses(ms, tail);
    hide StartsAt, Unbanned, TailText, ClosesFirst, ObjectBytes, CountProperties, Single, Strip;
    assert TextExports(o + tail, |o|);
    assert Exports(bs, |before|, |o|);
    ObjectIsExport(bs, o);
    hide ExportedObject, Exports;
    CountsMembers(ms, property, expected);
    CountsOne(ms, property, expected);
  }

  // ----- what the members leave open -----

  /** `{a:b?property:"expected"}`, an object whose one member is `a`. */
  function Ternary(property: seq<byte>, expected: seq<byte>): seq<byte> {
    [123, 97, 58, 98, 63] + (property + ([58] + (StringBytes(34, expected) + [125])))
  }

  lemma OneLetter(bs: seq<byte>, i: nat, t: Tally, property: seq<byte>, expected: seq<byte>)
    requires i + 1 < |bs| && WordStart(bs[i]) && !WordByte(bs[i + 1]) && property != [bs[i]] && !t.clipped
    ensures CountProperties(bs, i, t, property, expected) == CountProperties(bs, i + 1, t, property, expected)
  {
    hide CountProperties;
    assert WordEnd(bs, i + 1) == i + 1 && bs[i..i + 1] == [bs[i]];
    WordStep(bs, i, t.depth, property, expected);
    Onward(bs, i, t, property, expected, Turn(i + 1, t.depth, 0, 0, false));
  }

  lemma ColonString(bs: seq<byte>, end: nat, expected: seq<byte>)
    requires end < |bs| && bs[end] == 58 && OccursAt(bs, StringBytes(34, expected), end + 1)
    requires InsideLine(expected, 34) && 92 !in expected
    ensures AfterName(bs, end, 1, true, expected) == Some(Turn(end + 3 + |expected|, 1, 1, 1, false))
  {
    hide InsideLine, ParseQuoted, OccursAt;
    StringAt(bs, end + 1, 34, expected);
    assert SkipWhite(bs, end) == end && SkipWhite(bs, end + 1) == end + 1;
  }

  lemma TernaryValue(bs: seq<byte>, i: nat, property: seq<byte>, expected: seq<byte>)
    requires OccursAt(bs, property + ([58] + (StringBytes(34, expected) + [125])), i)
    requires NameOk(Word(property)) && InsideLine(expected, 34) && 92 !in expected
    ensures var k := i + |property| + 3 + |expected|;
            && k < |bs| && bs[k] == 125
            && CountProperties(bs, i, Tally(0, 0, 1, false), property, expected) == CountProperties(bs, k, Tally(1, 1, 1, false), property, expected)
  {
    hide CountProperties, InsideLine, OccursAt, NameOk, AfterName, Step, WordEnd;
    Cut(bs, i, property, [58] + (StringBytes(34, expected) + [125]));
    var end := i + |property|;
    Cut(bs, end, [58], StringBytes(34, expected) + [125]);
    Cut(bs, end + 1, StringBytes(34, expected), [125]);
    First(bs, end, [58]);
    First(bs, end + 3 + |expected|, [125]);
    WordAt(bs, i, property);
    WordStep(bs, i, 1, property, expected);
    ColonString(bs, end, expected);
    Onward(bs, i, Tally(0, 0, 1, false), property, expected, Turn(end + 3 + |expected|, 1, 1, 1, false));
  }

  /** A colon of a conditional value is taken for that of a member: the count sees one property and one match
      in an object that has no such member. */
  lemma TernaryIsCounted(property: seq<byte>, expected: seq<byte>)
    requires NameOk(Word(property)) && property != [97] && property != [98] && InsideLine(expected, 34) && 92 !in expected
    ensures CountProperties(Ternary(property, expected), 0, START, property, expected) == Some(Tally(1, 1, 0, false))
  {
    hide InsideLine, NameOk;
    var bs := Ternary(property, expected);
    var behind := property + ([58] + (StringBytes(34, expected) + [125]));
    assert bs[0] == 123 && bs[1] == 97 && bs[2] == 58 && bs[3] == 98 && bs[4] == 63;
    assert OccursAt(bs, bs, 0);
    Cut(bs, 0, [123, 97, 58, 98, 63], behind);
    hide OccursAt, Ternary;
    TernaryValue(bs, 5, property, expected);
    var inside := Tally(0, 0, 1, false);
    BraceTurn(bs, 0, START, property, expected);
    OneLetter(bs, 1, inside, property, expected);
    InertTurn(bs, 2, inside, property, expected);
    OneLetter(bs, 3, inside, property, expected);
    InertTurn(bs, 4, inside, property, expected);
    var k := 5 + |property| + 3 + |expected|;
    BraceTurn(bs, k, Tally(1, 1, 1, false), property, expected);
    assert k + 1 == |bs|;
  }
}
