/** What has_single_literal_property counts, said on the members of an object instead of on the loop:
    an object text is a list of members, and the answer depends on the names and values alone. */
module JsMembers {
  import opened Common
  import opened Bytes
  import opened Scanner
  import opened JsComments
  import opened JsObject

  // ----- the text of an object -----

  /** A piece of a text: a byte of no special meaning, a string, or a brace. */
  datatype Token = Char(b: byte) | Str(quote: byte, body: seq<byte>) | Open | Close

  function StringBytes(quote: byte, body: seq<byte>): seq<byte> {
    [quote] + (body + [quote])
  }

  function TokenBytes(t: Token): (bs: seq<byte>)
    ensures bs != []
  {
    match t
    case Char(b) => [b]
    case Str(q, body) => StringBytes(q, body)
    case Open => [123]
    case Close => [125]
  }

  function Text(ts: seq<Token>): seq<byte> {
    if ts == [] then [] else TokenBytes(ts[0]) + Text(ts[1..])
  }

  /** The inside of a string on one line: a quote mark of its kind or a line break only behind a backslash,
      and no escape left open. */
  predicate InsideLine(body: seq<byte>, quote: byte)
    decreases |body|
  {
    if body == [] then true
    else if body[0] == 92 then |body| >= 2 && InsideLine(body[2..], quote)
    else body[0] != quote && body[0] != 10 && body[0] != 13 && InsideLine(body[1..], quote)
  }

  predicate TokenOk(t: Token) {
    match t
    case Char(b) => b !in {34, 39, 96, 123, 125}
    case Str(q, body) => (q == 34 || q == 39) && InsideLine(body, q)
    case _ => true
  }

  /** Read at depth `d`, the pieces leave braces balanced down to depth 1, never end the object, and hold no
      colon outside inner braces and strings. */
  predicate Quiet(ts: seq<Token>, d: nat)
    decreases |ts|
  {
    if ts == [] then d == 1
    else
      && TokenOk(ts[0])
      && match ts[0]
         case Char(b) => (d == 1 ==> b != 58) && Quiet(ts[1..], d)
         case Str(_, _) => Quiet(ts[1..], d)
         case Open => Quiet(ts[1..], d + 1)
         case Close => d > 1 && Quiet(ts[1..], d - 1)
  }

  datatype Name = Word(word: seq<byte>) | QuotedName(quote: byte, body: seq<byte>) | Number(digits: seq<byte>)

  /** A value that starts with a string, and what follows the string; or one that does not. */
  datatype Value = LiteralFirst(quote: byte, body: seq<byte>, more: seq<Token>) | Other(text: seq<Token>)

  /** `name: value` with white space around the name and before the value, or anything else between commas. */
  datatype Member = Property(lead: seq<byte>, name: Name, gap: seq<byte>, space: seq<byte>, value: Value) | Loose(text: seq<Token>)

  predicate WhiteAll(bs: seq<byte>) {
    forall i :: 0 <= i < |bs| ==> bs[i] in {9, 10, 12, 13, 32}
  }

  predicate WordAll(bs: seq<byte>) {
    forall i :: 0 <= i < |bs| ==> WordByte(bs[i])
  }

  predicate NameOk(n: Name) {
    match n
    case Word(w) => w != [] && WordStart(w[0]) && WordAll(w)
    case QuotedName(q, body) => (q == 34 || q == 39) && InsideLine(body, q)
    case Number(digits) => digits != [] && forall i :: 0 <= i < |digits| ==> 48 <= digits[i] <= 57
  }

  predicate ValueOk(v: Value) {
    match v
    case LiteralFirst(q, body, more) => (q == 34 || q == 39) && InsideLine(body, q) && Quiet(more, 1)
    case Other(text) => Quiet(text, 1) && (text != [] ==> text[0].Open? || (text[0].Char? && text[0].b !in {9, 10, 12, 13, 32}))
  }

  predicate MemberOk(m: Member) {
    match m
    case Property(lead, name, gap, space, value) => WhiteAll(lead) && NameOk(name) && WhiteAll(gap) && WhiteAll(space) && ValueOk(value)
    case Loose(text) => Quiet(text, 1)
  }

  function NameBytes(n: Name): seq<byte> {
    match n
    case Word(w) => w
    case QuotedName(q, body) => StringBytes(q, body)
    case Number(digits) => digits
  }

  function ValueTokens(v: Value): seq<Token> {
    match v
    case LiteralFirst(q, body, more) => [Str(q, body)] + more
    case Other(text) => text
  }

  function MemberBytes(m: Member): seq<byte> {
    match m
    case Property(lead, name, gap, space, value) => lead + (NameBytes(name) + (gap + ([58] + (space + Text(ValueTokens(value))))))
    case Loose(text) => Text(text)
  }

  /** The members, a comma after each but the last, up to the closing brace. */
  function MembersBytes(ms: seq<Member>): seq<byte> {
    if ms == [] then [125] else MemberBytes(ms[0]) + ((if |ms| == 1 then [] else [44]) + MembersBytes(ms[1..]))
  }

  function ObjectBytes(ms: seq<Member>): seq<byte> {
    [123] + MembersBytes(ms)
  }

  predicate MembersOk(ms: seq<Member>) {
    forall i :: 0 <= i < |ms| ==> MemberOk(ms[i])
  }

  // ----- what is to be counted -----

  /** The name as written, without quotes; a quoted name with an escape is not compared. */
  predicate IsNamed(m: Member, property: seq<byte>) {
    m.Property? && match m.name
                   case Word(w) => w == property
                   case QuotedName(_, body) => body == property && 92 !in body
                   case Number(_) => false
  }

  /** The value starts with the expected text as a string without an escape. */
  predicate HasLiteral(m: Member, expected: seq<byte>) {
    m.Property? && m.value.LiteralFirst? && m.value.body == expected && 92 !in expected
  }

  function CountNamed(ms: seq<Member>, property: seq<byte>): nat {
    if ms == [] then 0 else (if IsNamed(ms[0], property) then 1 else 0) + CountNamed(ms[1..], property)
  }

  function CountMatching(ms: seq<Member>, property: seq<byte>, expected: seq<byte>): nat {
    if ms == [] then 0
    else (if IsNamed(ms[0], property) && HasLiteral(ms[0], expected) then 1 else 0) + CountMatching(ms[1..], property, expected)
  }

  // ----- reading one piece -----

  lemma Cut(bs: seq<byte>, i: nat, a: seq<byte>, b: seq<byte>)
    requires OccursAt(bs, a + b, i)
    ensures OccursAt(bs, a, i) && OccursAt(bs, b, i + |a|)
  {
    assert bs[i..i + |a|] == bs[i..i + |a + b|][..|a|] == (a + b)[..|a|] == a;
    assert bs[i + |a|..i + |a| + |b|] == bs[i..i + |a + b|][|a|..] == (a + b)[|a|..] == b;
  }

  lemma First(bs: seq<byte>, i: nat, s: seq<byte>)
    requires OccursAt(bs, s, i) && s != []
    ensures i < |bs| && bs[i] == s[0] && OccursAt(bs, s[1..], i + 1)
  {
    assert bs[i] == bs[i..i + |s|][0];
    assert bs[i + 1..i + 1 + |s[1..]|] == bs[i..i + |s|][1..];
  }

  lemma BytesAt(bs: seq<byte>, i: nat, s: seq<byte>)
    requires OccursAt(bs, s, i)
    ensures i + |s| <= |bs| && forall k :: i <= k < i + |s| ==> bs[k] == s[k - i]
  {
    forall k | i <= k < i + |s|
      ensures bs[k] == s[k - i]
    {
      assert bs[k] == bs[i..i + |s|][k - i];
    }
  }

  lemma {:induction false} QuoteEndAt(bs: seq<byte>, i: nat, quote: byte, body: seq<byte>)
    requires OccursAt(bs, body, i) && i + |body| < |bs| && bs[i + |body|] == quote && InsideLine(body, quote) && quote != 92
    ensures QuoteEnd(bs, i, quote) == Some(i + |body| + 1)
    decreases |body|
  {
    hide OccursAt;
    if body != [] {
      First(bs, i, body);
      if body[0] == 92 {
        First(bs, i + 1, body[1..]);
        assert body[1..][1..] == body[2..];
        QuoteEndAt(bs, i + 2, quote, body[2..]);
      } else {
        QuoteEndAt(bs, i + 1, quote, body[1..]);
      }
    }
  }

  lemma StringAt(bs: seq<byte>, i: nat, quote: byte, body: seq<byte>)
    requires OccursAt(bs, StringBytes(quote, body), i) && InsideLine(body, quote) && (quote == 34 || quote == 39)
    ensures i + |body| + 2 <= |bs| && bs[i] == quote
    ensures ParseQuoted(bs, i) == Some((i + |body| + 2, if 92 in body then None else Some(body)))
  {
    Cut(bs, i, [quote], body + [quote]);
    Cut(bs, i + 1, body, [quote]);
    First(bs, i, [quote]);
    First(bs, i + 1 + |body|, [quote]);
    assert bs[i + 1..i + 1 + |body|] == body;
    hide OccursAt;
    QuoteEndAt(bs, i + 1, quote, body);
  }

  lemma {:induction false} QuoteEndInside(bs: seq<byte>, i: nat, quote: byte)
    requires QuoteEnd(bs, i, quote).Some?
    ensures var end := QuoteEnd(bs, i, quote).value; i < end <= |bs| && bs[end - 1] == quote && InsideLine(bs[i..end - 1], quote)
    decreases |bs| - i
  {
    if bs[i] == 92 && quote != 92 {
      QuoteEndInside(bs, i + 2, quote);
      var body := bs[i..QuoteEnd(bs, i, quote).value - 1];
      assert body[2..] == bs[i + 2..QuoteEnd(bs, i, quote).value - 1];
    } else if bs[i] != quote {
      QuoteEndInside(bs, i + 1, quote);
      var body := bs[i..QuoteEnd(bs, i, quote).value - 1];
      assert body[1..] == bs[i + 1..QuoteEnd(bs, i, quote).value - 1];
    }
  }

  lemma SliceIsString(bs: seq<byte>, i: nat, end: nat)
    requires i + 2 <= end <= |bs| && bs[end - 1] == bs[i]
    ensures OccursAt(bs, StringBytes(bs[i], bs[i + 1..end - 1]), i)
  {
    var body := bs[i + 1..end - 1];
    assert bs[i..end] == [bs[i]] + (body + [bs[i]]);
  }

  /** This string stands at `i`: its inside on one line and its escapes complete, with this inside for the
      caller. */
  predicate StringStands(bs: seq<byte>, i: nat, body: seq<byte>, end: nat, inside: Option<seq<byte>>)
    requires i < |bs|
  {
    && OccursAt(bs, StringBytes(bs[i], body), i) && InsideLine(body, bs[i]) && end == i + |body| + 2
    && inside == if 92 in body then None else Some(body)
  }

  /** From a quote mark on, a string is read iff one stands there. */
  lemma StringIff(bs: seq<byte>, i: nat, end: nat, inside: Option<seq<byte>>)
    requires i < |bs| && (bs[i] == 34 || bs[i] == 39)
    ensures ParseQuoted(bs, i) == Some((end, inside)) <==> exists body: seq<byte> :: StringStands(bs, i, body, end, inside)
  {
    hide InsideLine, OccursAt, StringBytes, QuoteEnd;
    if ParseQuoted(bs, i) == Some((end, inside)) {
      QuoteEndInside(bs, i + 1, bs[i]);
      SliceIsString(bs, i, end);
      assert StringStands(bs, i, bs[i + 1..end - 1], end, inside);
    }
    if body: seq<byte> :| StringStands(bs, i, body, end, inside) {
      StringAt(bs, i, bs[i], body);
    }
  }

  lemma WordEndAt(bs: seq<byte>, i: nat, word: seq<byte>)
    requires OccursAt(bs, word, i) && WordAll(word) && (i + |word| < |bs| ==> !WordByte(bs[i + |word|]))
    ensures WordEnd(bs, i) == i + |word|
  {
    BytesAt(bs, i, word);
    hide OccursAt, WordEnd;
  }

  lemma SkipWhiteAt(bs: seq<byte>, i: nat, space: seq<byte>)
    requires OccursAt(bs, space, i) && WhiteAll(space) && (i + |space| < |bs| ==> !White(bs[i + |space|]))
    ensures SkipWhite(bs, i) == i + |space|
  {
    BytesAt(bs, i, space);
    hide OccursAt, SkipWhite;
  }

  // ----- counting over a stretch of text -----

  function Add(t: Tally, u: Turn): Tally {
    Tally(t.properties + u.properties, t.literals + u.literals, u.depth, t.clipped || u.clipped)
  }

  lemma Onward(bs: seq<byte>, i: nat, t: Tally, property: seq<byte>, expected: seq<byte>, u: Turn)
    requires i < |bs| && Step(bs, i, t.depth, property, expected) == Some(u)
    ensures CountProperties(bs, i, t, property, expected) == CountProperties(bs, u.next, Add(t, u), property, expected)
  {
    hide Step;
  }

  predicate Inert(b: byte) {
    b !in {34, 39, 123, 125} && !WordStart(b)
  }

  lemma InertTurn(bs: seq<byte>, i: nat, t: Tally, property: seq<byte>, expected: seq<byte>)
    requires i < |bs| && Inert(bs[i]) && !t.clipped
    ensures CountProperties(bs, i, t, property, expected) == CountProperties(bs, i + 1, t, property, expected)
  {
    hide CountProperties, AfterName;
    Onward(bs, i, t, property, expected, Turn(i + 1, t.depth, 0, 0, false));
  }

  /** Bytes that are neither brace nor quote mark nor the start of a word are passed over. */
  lemma {:induction false} InertRun(bs: seq<byte>, i: nat, t: Tally, property: seq<byte>, expected: seq<byte>, inert: seq<byte>)
    requires OccursAt(bs, inert, i) && !t.clipped && forall k :: 0 <= k < |inert| ==> Inert(inert[k])
    ensures CountProperties(bs, i, t, property, expected) == CountProperties(bs, i + |inert|, t, property, expected)
    decreases |inert|
  {
    hide OccursAt, CountProperties, Inert;
    if inert != [] {
      First(bs, i, inert);
      InertTurn(bs, i, t, property, expected);
      InertRun(bs, i + 1, t, property, expected, inert[1..]);
    }
  }

  /** What ends a member: a comma or the closing brace. */
  predicate EndsAt(bs: seq<byte>, e: nat) {
    e < |bs| && (bs[e] == 44 || bs[e] == 125)
  }

  /** From `i` to `e`, where a member ends, stand these pieces, quiet at depth `d`. */
  predicate InQuiet(bs: seq<byte>, i: nat, ts: seq<Token>, e: nat, d: nat) {
    EndsAt(bs, e) && OccursAt(bs, Text(ts), i) && i + |Text(ts)| == e && Quiet(ts, d)
  }

  lemma QuietHead(bs: seq<byte>, i: nat, ts: seq<Token>, e: nat, d: nat)
    requires InQuiet(bs, i, ts, e, d)
    ensures i <= e < |bs| && (bs[e] == 44 || bs[e] == 125)
    ensures ts == [] ==> i == e && d == 1
    ensures ts != [] ==> TokenOk(ts[0]) && OccursAt(bs, TokenBytes(ts[0]), i) && bs[i] == TokenBytes(ts[0])[0]
    ensures ts != [] && ts[0].Open? ==> InQuiet(bs, i + 1, ts[1..], e, d + 1)
    ensures ts != [] && ts[0].Close? ==> d > 1 && InQuiet(bs, i + 1, ts[1..], e, d - 1)
    ensures ts != [] && ts[0].Char? ==> (d == 1 ==> ts[0].b != 58) && InQuiet(bs, i + 1, ts[1..], e, d)
    ensures ts != [] && ts[0].Str? ==> InQuiet(bs, i + |ts[0].body| + 2, ts[1..], e, d)
  {
    hide OccursAt, InsideLine, EndsAt;
    assert e < |bs| && (bs[e] == 44 || bs[e] == 125) by {
      EndByte(bs, e);
    }
    if ts != [] {
      QuietTokens(ts, d);
      hide Quiet, TokenOk;
      assert Text(ts) == TokenBytes(ts[0]) + Text(ts[1..]);
      Cut(bs, i, TokenBytes(ts[0]), Text(ts[1..]));
      First(bs, i, TokenBytes(ts[0]));
    }
  }

  lemma EndByte(bs: seq<byte>, e: nat)
    requires EndsAt(bs, e)
    ensures e < |bs| && (bs[e] == 44 || bs[e] == 125)
  {
  }

  lemma QuietTokens(ts: seq<Token>, d: nat)
    requires ts != [] && Quiet(ts, d)
    ensures TokenOk(ts[0])
    ensures ts[0].Open? ==> Quiet(ts[1..], d + 1)
    ensures ts[0].Close? ==> d > 1 && Quiet(ts[1..], d - 1)
    ensures ts[0].Char? ==> (d == 1 ==> ts[0].b != 58) && Quiet(ts[1..], d)
    ensures ts[0].Str? ==> Quiet(ts[1..], d)
  {
  }

  /** How many of the first pieces are white, and how many are bytes of a word. */
  function WhiteCount(ts: seq<Token>): (n: nat)
    ensures n <= |ts| && forall k :: 0 <= k < n ==> ts[k].Char? && White(ts[k].b)
    ensures n < |ts| ==> !(ts[n].Char? && White(ts[n].b))
  {
    if ts != [] && ts[0].Char? && White(ts[0].b) then 1 + WhiteCount(ts[1..]) else 0
  }

  function WordCount(ts: seq<Token>): (n: nat)
    ensures n <= |ts| && forall k :: 0 <= k < n ==> ts[k].Char? && WordByte(ts[k].b)
    ensures n < |ts| ==> !(ts[n].Char? && WordByte(ts[n].b))
  {
    if ts != [] && ts[0].Char? && WordByte(ts[0].b) then 1 + WordCount(ts[1..]) else 0
  }

  /** The first `n` pieces are single bytes. */
  lemma {:induction false} DropChars(bs: seq<byte>, i: nat, ts: seq<Token>, e: nat, d: nat, n: nat)
    requires InQuiet(bs, i, ts, e, d) && n <= |ts| && forall k :: 0 <= k < n ==> ts[k].Char?
    ensures i + n <= e < |bs| && InQuiet(bs, i + n, ts[n..], e, d)
    ensures forall k :: i <= k < i + n ==> bs[k] == ts[k - i].b
    decreases n
  {
    hide InQuiet, OccursAt;
    QuietHead(bs, i, ts, e, d);
    if n == 0 {
      assert ts[0..] == ts;
    } else {
      DropChars(bs, i + 1, ts[1..], e, d, n - 1);
      assert ts[1..][n - 1..] == ts[n..];
      forall k | i <= k < i + n
        ensures bs[k] == ts[k - i].b
      {
        assert k > i ==> ts[1..][k - (i + 1)] == ts[k - i];
      }
    }
  }

  /** Behind a name inside a quiet text no property is counted, and the loop goes on at a later piece. */
  lemma NameInQuiet(bs: seq<byte>, i: nat, ts: seq<Token>, e: nat, d: nat, isProperty: bool, expected: seq<byte>) returns (n: nat)
    requires InQuiet(bs, i, ts, e, d)
    ensures n <= |ts| && i + n <= e < |bs| && InQuiet(bs, i + n, ts[n..], e, d)
    ensures AfterName(bs, i, d, isProperty, expected) == Some(Turn(i + n, d, 0, 0, false))
  {
    hide InQuiet, OccursAt, InsideLine, ParseQuoted, SkipWhite;
    QuietHead(bs, i, ts, e, d);
    if !isProperty || d != 1 {
      n := 0;
      assert ts[0..] == ts;
    } else {
      n := WhiteCount(ts);
      hide WhiteCount;
      DropChars(bs, i, ts, e, d, n);
      QuietHead(bs, i + n, ts[n..], e, d);
      assert n < |ts| ==> ts[n..][0] == ts[n];
      assert !White(bs[i + n]) && bs[i + n] != COLON;
      var j := SkipWhite(bs, i);
      assert j == i + n;
    }
  }

  lemma StringTurn(bs: seq<byte>, i: nat, ts: seq<Token>, e: nat, t: Tally, property: seq<byte>, expected: seq<byte>) returns (n: nat, k: nat)
    requires InQuiet(bs, i, ts, e, t.depth) && ts != [] && ts[0].Str? && !t.clipped
    ensures 0 < n <= |ts| && i < k <= e < |bs| && InQuiet(bs, k, ts[n..], e, t.depth)
    ensures CountProperties(bs, i, t, property, expected) == CountProperties(bs, k, t, property, expected)
  {
    hide InQuiet, OccursAt, InsideLine, ParseQuoted, AfterName, CountProperties;
    QuietHead(bs, i, ts, e, t.depth);
    var q, body := ts[0].quote, ts[0].body;
    StringAt(bs, i, q, body);
    var end := i + |body| + 2;
    var isProperty := ParseQuoted(bs, i).value.1 == Some(property);
    var m := NameInQuiet(bs, end, ts[1..], e, t.depth, isProperty, expected);
    assert ts[1..][m..] == ts[m + 1..];
    n, k := m + 1, end + m;
    Onward(bs, i, t, property, expected, Turn(k, t.depth, 0, 0, false));
  }

  lemma WordTurn(bs: seq<byte>, i: nat, ts: seq<Token>, e: nat, t: Tally, property: seq<byte>, expected: seq<byte>) returns (n: nat, k: nat)
    requires InQuiet(bs, i, ts, e, t.depth) && ts != [] && ts[0].Char? && WordStart(ts[0].b) && !t.clipped
    ensures 0 < n <= |ts| && i < k <= e < |bs| && InQuiet(bs, k, ts[n..], e, t.depth)
    ensures CountProperties(bs, i, t, property, expected) == CountProperties(bs, k, t, property, expected)
  {
    hide InQuiet, OccursAt, InsideLine, AfterName, CountProperties, WordCount;
    QuietHead(bs, i, ts, e, t.depth);
    var w := WordCount(ts);
    assert w > 0;
    DropChars(bs, i, ts, e, t.depth, w);
    QuietHead(bs, i + w, ts[w..], e, t.depth);
    assert w < |ts| ==> ts[w..][0] == ts[w];
    assert !WordByte(bs[i + w]);
    var end := WordEnd(bs, i + 1);
    hide WordEnd;
    assert end == i + w;
    var m := NameInQuiet(bs, end, ts[w..], e, t.depth, bs[i..end] == property, expected);
    assert ts[w..][m..] == ts[w + m..];
    n, k := w + m, end + m;
    WordStep(bs, i, t.depth, property, expected);
    Onward(bs, i, t, property, expected, Turn(k, t.depth, 0, 0, false));
  }

  lemma WordStep(bs: seq<byte>, i: nat, d: nat, property: seq<byte>, expected: seq<byte>)
    requires i < |bs| && WordStart(bs[i])
    ensures var end := WordEnd(bs, i + 1); Step(bs, i, d, property, expected) == AfterName(bs, end, d, bs[i..end] == property, expected)
  {
    hide AfterName, WordEnd;
  }

  lemma BraceTurn(bs: seq<byte>, i: nat, t: Tally, property: seq<byte>, expected: seq<byte>)
    requires i < |bs| && !t.clipped && (bs[i] == 123 || (bs[i] == 125 && t.depth > 0))
    ensures CountProperties(bs, i, t, property, expected)
            == CountProperties(bs, i + 1, t.(depth := if bs[i] == 123 then t.depth + 1 else t.depth - 1), property, expected)
  {
    hide CountProperties, AfterName;
    Onward(bs, i, t, property, expected, Turn(i + 1, if bs[i] == 123 then t.depth + 1 else t.depth - 1, 0, 0, false));
  }

  /** One turn of the loop inside a quiet text: it counts nothing and goes on at a later piece. */
  lemma QuietTurn(bs: seq<byte>, i: nat, ts: seq<Token>, e: nat, t: Tally, property: seq<byte>, expected: seq<byte>) returns (n: nat, k: nat, d: nat)
    requires InQuiet(bs, i, ts, e, t.depth) && ts != [] && !t.clipped
    ensures 0 < n <= |ts| && i < k <= e < |bs| && InQuiet(bs, k, ts[n..], e, d)
    ensures CountProperties(bs, i, t, property, expected) == CountProperties(bs, k, t.(depth := d), property, expected)
  {
    hide InQuiet, OccursAt, InsideLine, CountProperties;
    QuietHead(bs, i, ts, e, t.depth);
    n, k, d := 1, i + 1, t.depth;
    match ts[0]
    case Open =>
      d := t.depth + 1;
      BraceTurn(bs, i, t, property, expected);
      QuietHead(bs, i + 1, ts[1..], e, d);
    case Close =>
      d := t.depth - 1;
      BraceTurn(bs, i, t, property, expected);
      QuietHead(bs, i + 1, ts[1..], e, d);
    case Str(_, _) =>
      n, k := StringTurn(bs, i, ts, e, t, property, expected);
    case Char(b) =>
      if WordStart(b) {
        n, k := WordTurn(bs, i, ts, e, t, property, expected);
      } else {
        InertTurn(bs, i, t, property, expected);
        QuietHead(bs, i + 1, ts[1..], e, d);
      }
  }

  /** A quiet text counts nothing and ends at depth 1. */
  lemma {:induction false} QuietRun(bs: seq<byte>, i: nat, ts: seq<Token>, e: nat, t: Tally, property: seq<byte>, expected: seq<byte>)
    requires InQuiet(bs, i, ts, e, t.depth) && !t.clipped
    ensures i <= e < |bs|
    ensures CountProperties(bs, i, t, property, expected) == CountProperties(bs, e, t.(depth := 1), property, expected)
    decreases |ts|
  {
    hide InQuiet, CountProperties;
    QuietHead(bs, i, ts, e, t.depth);
    if ts == [] {
      assert t.(depth := 1) == t;
    } else {
      var n, k, d := QuietTurn(bs, i, ts, e, t, property, expected);
      QuietRun(bs, k, ts[n..], e, t.(depth := d), property, expected);
    }
  }

  // ----- counting one member -----

  function Counted(t: Tally, m: Member, property: seq<byte>, expected: seq<byte>): Tally {
    Tally(t.properties + (if IsNamed(m, property) then 1 else 0),
          t.literals + (if IsNamed(m, property) && HasLiteral(m, expected) then 1 else 0), 1, false)
  }

  /** White space, the colon, white space and the value of a property, up to its end. */
  predicate ValueAt(bs: seq<byte>, i: nat, m: Member, e: nat)
    requires m.Property?
  {
    && OccursAt(bs, m.gap, i) && i + |m.gap| < |bs| && bs[i + |m.gap|] == 58 && OccursAt(bs, m.space, i + |m.gap| + 1)
    && InQuiet(bs, i + |m.gap| + 1 + |m.space|, ValueTokens(m.value), e, 1)
  }

  lemma ValueIsQuiet(v: Value)
    requires ValueOk(v)
    ensures Quiet(ValueTokens(v), 1)
  {
    if v.LiteralFirst? {
      assert ([Str(v.quote, v.body)] + v.more)[1..] == v.more;
    }
  }

  lemma FiveParts(bs: seq<byte>, i: nat, lead: seq<byte>, name: seq<byte>, gap: seq<byte>, space: seq<byte>, text: seq<byte>)
    requires OccursAt(bs, lead + (name + (gap + ([58] + (space + text)))), i)
    ensures OccursAt(bs, lead, i) && OccursAt(bs, name, i + |lead|)
    ensures var j := i + |lead| + |name|;
            && OccursAt(bs, gap, j) && j + |gap| < |bs| && bs[j + |gap|] == 58 && OccursAt(bs, space, j + |gap| + 1)
            && OccursAt(bs, text, j + |gap| + 1 + |space|)
            && |lead + (name + (gap + ([58] + (space + text))))| == |lead| + |name| + |gap| + 1 + |space| + |text|
  {
    hide OccursAt;
    var value := [58] + (space + text);
    var behind := gap + value;
    var j := i + |lead| + |name| + |gap|;
    Cut(bs, i, lead, name + behind);
    Cut(bs, i + |lead|, name, behind);
    Cut(bs, i + |lead| + |name|, gap, value);
    Cut(bs, j, [58], space + text);
    First(bs, j, [58]);
    Cut(bs, j + 1, space, text);
  }

  lemma MemberParts(bs: seq<byte>, i: nat, m: Member, e: nat)
    requires m.Property? && MemberOk(m) && OccursAt(bs, MemberBytes(m), i) && e == i + |MemberBytes(m)| && EndsAt(bs, e)
    ensures OccursAt(bs, m.lead, i) && OccursAt(bs, NameBytes(m.name), i + |m.lead|)
    ensures ValueAt(bs, i + |m.lead| + |NameBytes(m.name)|, m, e)
  {
    hide OccursAt, EndsAt, NameBytes, Text, Quiet, InsideLine, WhiteAll, NameOk;
    ValueIsQuiet(m.value);
    hide ValueOk, ValueTokens;
    FiveParts(bs, i, m.lead, NameBytes(m.name), m.gap, m.space, Text(ValueTokens(m.value)));
  }

  /** Behind a name that is not the property the colon and the value are passed over. */
  lemma OtherProperty(bs: seq<byte>, i: nat, m: Member, e: nat, t: Tally, property: seq<byte>, expected: seq<byte>)
    requires m.Property? && ValueAt(bs, i, m, e) && WhiteAll(m.gap) && WhiteAll(m.space) && t.depth == 1 && !t.clipped
    ensures i <= e < |bs| && CountProperties(bs, i, t, property, expected) == CountProperties(bs, e, t, property, expected)
  {
    hide CountProperties, InQuiet, OccursAt, ValueTokens;
    InertRun(bs, i, t, property, expected, m.gap);
    InertTurn(bs, i + |m.gap|, t, property, expected);
    InertRun(bs, i + |m.gap| + 1, t, property, expected, m.space);
    QuietRun(bs, i + |m.gap| + 1 + |m.space|, ValueTokens(m.value), e, t, property, expected);
    assert t.(depth := 1) == t;
  }

  /** The first byte of a value is not white, and a quote mark iff the value starts with a string. */
  lemma ValueStarts(bs: seq<byte>, k: nat, v: Value, e: nat)
    requires ValueOk(v) && InQuiet(bs, k, ValueTokens(v), e, 1)
    ensures k < |bs| && !White(bs[k]) && (Mark(bs[k]) <==> v.LiteralFirst?)
    ensures v.LiteralFirst? ==> OccursAt(bs, StringBytes(v.quote, v.body), k) && InQuiet(bs, k + |v.body| + 2, v.more, e, 1)
  {
    hide InsideLine, OccursAt, InQuiet, Quiet;
    QuietHead(bs, k, ValueTokens(v), e, 1);
    if v.LiteralFirst? {
      assert ValueTokens(v)[0] == Str(v.quote, v.body) && ValueTokens(v)[1..] == v.more;
    }
  }

  /** Behind the property's name: it is counted, and its value is if it starts with the expected string. */
  lemma NamedProperty(bs: seq<byte>, i: nat, m: Member, e: nat, expected: seq<byte>) returns (u: Turn, ts: seq<Token>)
    requires m.Property? && ValueAt(bs, i, m, e) && WhiteAll(m.gap) && WhiteAll(m.space) && ValueOk(m.value)
    ensures i <= |bs| && AfterName(bs, i, 1, true, expected) == Some(u)
    ensures u == Turn(u.next, 1, 1, if HasLiteral(m, expected) then 1 else 0, false) && InQuiet(bs, u.next, ts, e, 1)
  {
    hide InsideLine, InQuiet, OccursAt, ParseQuoted, ValueTokens, SkipWhite, Quiet;
    var v := m.value;
    var j := i + |m.gap|;
    var k := j + 1 + |m.space|;
    ValueStarts(bs, k, v, e);
    SkipWhiteAt(bs, i, m.gap);
    SkipWhiteAt(bs, j + 1, m.space);
    if v.LiteralFirst? {
      ts := v.more;
      StringAt(bs, k, v.quote, v.body);
      u := Turn(k + |v.body| + 2, 1, 1, if v.body == expected && 92 !in expected then 1 else 0, false);
    } else {
      ts := ValueTokens(v);
      u := Turn(k, 1, 1, 0, false);
    }
  }

  lemma WordAt(bs: seq<byte>, i: nat, word: seq<byte>)
    requires NameOk(Word(word)) && OccursAt(bs, word, i) && i + |word| < |bs| && !WordByte(bs[i + |word|])
    ensures WordStart(bs[i]) && WordEnd(bs, i + 1) == i + |word| && bs[i..i + |word|] == word
  {
    First(bs, i, word);
    WordEndAt(bs, i + 1, word[1..]);
    hide WordEnd;
  }

  /** The turn that reads the name of a property. */
  lemma NameTurn(bs: seq<byte>, i: nat, m: Member, property: seq<byte>, expected: seq<byte>)
    requires m.Property? && NameOk(m.name) && !m.name.Number? && OccursAt(bs, NameBytes(m.name), i)
    requires i + |NameBytes(m.name)| < |bs| && !WordByte(bs[i + |NameBytes(m.name)|])
    ensures Step(bs, i, 1, property, expected) == AfterName(bs, i + |NameBytes(m.name)|, 1, IsNamed(m, property), expected)
  {
    hide AfterName, InsideLine, ParseQuoted, WordEnd, OccursAt, StringBytes;
    match m.name
    case Word(w) =>
      WordAt(bs, i, w);
      WordStep(bs, i, 1, property, expected);
    case QuotedName(q, body) =>
      assert NameBytes(m.name) == StringBytes(q, body) && |StringBytes(q, body)| == |body| + 2 by {
        StringSize(q, body);
      }
      StringAt(bs, i, q, body);
  }

  lemma StringSize(quote: byte, body: seq<byte>)
    ensures |StringBytes(quote, body)| == |body| + 2
  {
  }

  lemma BehindName(bs: seq<byte>, i: nat, end: nat, m: Member, e: nat, t: Tally, property: seq<byte>, expected: seq<byte>)
    requires m.Property? && MemberOk(m) && ValueAt(bs, end, m, e) && t.depth == 1 && !t.clipped && i < end <= |bs|
    requires Step(bs, i, 1, property, expected) == AfterName(bs, end, 1, IsNamed(m, property), expected)
    ensures CountProperties(bs, i, t, property, expected) == CountProperties(bs, e, Counted(t, m, property, expected), property, expected)
  {
    hide CountProperties, InsideLine, ValueOk, NameOk, WhiteAll, Step, ValueAt, InQuiet, IsNamed, HasLiteral;
    if IsNamed(m, property) {
      var u, ts := NamedProperty(bs, end, m, e, expected);
      Onward(bs, i, t, property, expected, u);
      QuietRun(bs, u.next, ts, e, Add(t, u), property, expected);
      assert Add(t, u).(depth := 1) == Counted(t, m, property, expected);
    } else {
      Onward(bs, i, t, property, expected, Turn(end, 1, 0, 0, false));
      assert Add(t, Turn(end, 1, 0, 0, false)) == t;
      OtherProperty(bs, end, m, e, t, property, expected);
      assert Counted(t, m, property, expected) == t;
    }
  }

  lemma NotWordBehind(bs: seq<byte>, i: nat, m: Member, e: nat)
    requires m.Property? && ValueAt(bs, i, m, e) && WhiteAll(m.gap)
    ensures i < |bs| && !WordByte(bs[i])
  {
    if m.gap != [] {
      First(bs, i, m.gap);
    }
  }

  lemma NameRun(bs: seq<byte>, i: nat, m: Member, e: nat, t: Tally, property: seq<byte>, expected: seq<byte>)
    requires m.Property? && MemberOk(m) && OccursAt(bs, NameBytes(m.name), i) && t.depth == 1 && !t.clipped
    requires ValueAt(bs, i + |NameBytes(m.name)|, m, e)
    ensures CountProperties(bs, i, t, property, expected) == CountProperties(bs, e, Counted(t, m, property, expected), property, expected)
  {
    hide CountProperties, InsideLine, ValueOk, WhiteAll, ValueAt, OccursAt, Step;
    var end := i + |NameBytes(m.name)|;
    if m.name.Number? {
      InertRun(bs, i, t, property, expected, m.name.digits);
      OtherProperty(bs, end, m, e, t, property, expected);
      assert Counted(t, m, property, expected) == t;
    } else {
      NotWordBehind(bs, end, m, e);
      NameTurn(bs, i, m, property, expected);
      BehindName(bs, i, end, m, e, t, property, expected);
    }
  }

  lemma MemberRun(bs: seq<byte>, i: nat, m: Member, e: nat, t: Tally, property: seq<byte>, expected: seq<byte>)
    requires OccursAt(bs, MemberBytes(m), i) && e == i + |MemberBytes(m)| && EndsAt(bs, e) && MemberOk(m) && t.depth == 1 && !t.clipped
    ensures CountProperties(bs, i, t, property, expected) == CountProperties(bs, e, Counted(t, m, property, expected), property, expected)
  {
    hide CountProperties, InsideLine, Text, ValueOk, NameOk, ValueAt, Quiet, OccursAt;
    if m.Loose? {
      assert InQuiet(bs, i, m.text, e, 1);
      QuietRun(bs, i, m.text, e, t, property, expected);
      assert Counted(t, m, property, expected) == t.(depth := 1);
    } else {
      MemberParts(bs, i, m, e);
      InertRun(bs, i, t, property, expected, m.lead);
      NameRun(bs, i + |m.lead|, m, e, t, property, expected);
    }
  }

  // ----- counting an object -----

  lemma {:induction false} MembersRun(bs: seq<byte>, i: nat, ms: seq<Member>, t: Tally, property: seq<byte>, expected: seq<byte>)
    requires OccursAt(bs, MembersBytes(ms), i) && i + |MembersBytes(ms)| == |bs| && MembersOk(ms) && t.depth == 1 && !t.clipped
    ensures CountProperties(bs, i, t, property, expected)
            == Some(Tally(t.properties + CountNamed(ms, property), t.literals + CountMatching(ms, property, expected), 0, false))
    decreases |ms|
  {
    hide MemberBytes, MemberOk, IsNamed, HasLiteral, Step, OccursAt;
    if ms == [] {
      First(bs, i, [125]);
      BraceTurn(bs, i, t, property, expected);
    } else {
      hide CountProperties;
      var more := ms[1..];
      var rest := (if |ms| == 1 then [] else [44]) + MembersBytes(more);
      Cut(bs, i, MemberBytes(ms[0]), rest);
      var e := i + |MemberBytes(ms[0])|;
      RestStarts(ms);
      First(bs, e, rest);
      MemberRun(bs, i, ms[0], e, t, property, expected);
      var c := Counted(t, ms[0], property, expected);
      if |ms| == 1 {
        assert rest == MembersBytes(more);
        MembersRun(bs, e, more, c, property, expected);
      } else {
        Cut(bs, e, [44], MembersBytes(more));
        InertTurn(bs, e, c, property, expected);
        MembersRun(bs, e + 1, more, c, property, expected);
      }
    }
  }

  lemma RestStarts(ms: seq<Member>)
    requires ms != []
    ensures var rest := (if |ms| == 1 then [] else [44]) + MembersBytes(ms[1..]); rest != [] && (rest[0] == 44 || rest[0] == 125)
  {
  }

  /** On the text of an object the count is the number of its members with that name, and the number of those
      whose value starts with that literal, whatever else the members hold. */
  lemma CountsMembers(ms: seq<Member>, property: seq<byte>, expected: seq<byte>)
    requires MembersOk(ms)
    ensures CountProperties(ObjectBytes(ms), 0, START, property, expected)
            == Some(Tally(CountNamed(ms, property), CountMatching(ms, property, expected), 0, false))
  {
    hide CountProperties, MembersBytes;
    var bs := ObjectBytes(ms);
    assert OccursAt(bs, bs, 0);
    Cut(bs, 0, [123], MembersBytes(ms));
    hide OccursAt;
    BraceTurn(bs, 0, START, property, expected);
    MembersRun(bs, 1, ms, Tally(0, 0, 1, false), property, expected);
  }
}
