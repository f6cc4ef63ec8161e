/** The object scanner of crates/control/src/compatibility.rs, run on a source without comments:
    static_exported_object cuts an object literal out, has_single_literal_property counts in it. */
module JsObject {
  import opened Common
  import opened Bytes
  import opened Scanner
  import opened JsComments

  const OPEN: byte := 123
  const CLOSE: byte := 125
  const COLON: byte := 58
  const SEMICOLON: byte := 59
  const EQUALS: byte := 61

  const EXPORT_DEFAULT: seq<byte> := Letters("export default")
  const MODULE_EXPORTS: seq<byte> := Letters("module.exports")

  /** What makes an object not a plain literal. */
  const BANNED: seq<seq<byte>> := [Letters("..."), Letters("Object.assign"), Letters("=>"), Letters("function"), Letters("[")]

  predicate White(b: byte) {
    b in {9, 10, 12, 13, 32}
  }

  // ----- quoted strings -----

  /** The position behind the closing mark, for a string whose inside goes on at `i`. */
  function QuoteEnd(bs: seq<byte>, i: nat, quote: byte): (end: Option<nat>)
    ensures end.Some? ==> i < end.value <= |bs|
    decreases |bs| - i
  {
    if i >= |bs| then None
    else if bs[i] == quote then Some(i + 1)
    else if bs[i] == BACKSLASH then QuoteEnd(bs, i + 2, quote)
    else if bs[i] == 10 || bs[i] == 13 then None
    else QuoteEnd(bs, i + 1, quote)
  }

  /** The end of a string, and its inside unless it holds an escape. */
  function ParseQuoted(bs: seq<byte>, start: nat): (r: Option<(nat, Option<seq<byte>>)>)
    ensures r.Some? ==> start < r.value.0 <= |bs|
  {
    if start >= |bs| then None
    else
      var end := QuoteEnd(bs, start + 1, bs[start]);
      if end.None? then None
      else
        var inside := bs[start + 1..end.value - 1];
        Some((end.value, if BACKSLASH in inside then None else Some(inside)))
  }

  method ParseSimpleQuoted(bs: seq<byte>, start: nat) returns (r: Option<(nat, Option<seq<byte>>)>)
    ensures r == ParseQuoted(bs, start)
  {
    if start >= |bs| {
      return None;
    }
    var quote := bs[start];
    var index := start + 1;
    var simple := true;
    while index < |bs|
      invariant start + 1 <= index
      invariant QuoteEnd(bs, start + 1, quote) == QuoteEnd(bs, index, quote)
      invariant index <= |bs| ==> (simple <==> BACKSLASH !in bs[start + 1..index])
      decreases |bs| - index
    {
      if bs[index] == quote {
        return Some((index + 1, if simple then Some(bs[start + 1..index]) else None));
      }
      if bs[index] == BACKSLASH {
        simple := false;
        if index + 2 <= |bs| {
          assert bs[start + 1..index + 2][index - (start + 1)] == BACKSLASH;
        }
        index := index + 2;
      } else if bs[index] == 10 || bs[index] == 13 {
        return None;
      } else {
        assert bs[start + 1..index + 1] == bs[start + 1..index] + [bs[index]];
        index := index + 1;
      }
    }
    r := None;
  }

  // ----- the balanced prefix -----

  /** The brace that closes depth `depth`, going on at `i` and stepping over strings. */
  function Scan(bs: seq<byte>, i: nat, depth: nat): (k: Option<nat>)
    ensures k.Some? ==> i <= k.value < |bs|
    decreases |bs| - i
  {
    if i >= |bs| then None
    else if Mark(bs[i]) then
      var end := ParseQuoted(bs, i);
      if end.None? then None else Scan(bs, end.value.0, depth)
    else if bs[i] == BACKTICK then None
    else if bs[i] == OPEN then Scan(bs, i + 1, depth + 1)
    else if bs[i] == CLOSE then
      if depth == 0 then None else if depth == 1 then Some(i) else Scan(bs, i + 1, depth - 1)
    else Scan(bs, i + 1, depth)
  }

  /** Reading token by token from `i` at depth `d` arrives at `j` with depth `e`, braces never going
      below zero: the meaning of balance, independent of where a scan stops. */
  predicate Reaches(bs: seq<byte>, i: nat, d: nat, j: nat, e: nat)
    decreases j - i
  {
    if i >= j then i == j && d == e
    else if i >= |bs| then false
    else if Mark(bs[i]) then
      var end := ParseQuoted(bs, i);
      end.Some? && end.value.0 <= j && Reaches(bs, end.value.0, d, j, e)
    else if bs[i] == BACKTICK then false
    else if bs[i] == OPEN then Reaches(bs, i + 1, d + 1, j, e)
    else if bs[i] == CLOSE then d > 0 && Reaches(bs, i + 1, d - 1, j, e)
    else Reaches(bs, i + 1, d, j, e)
  }

  predicate Balanced(bs: seq<byte>, n: nat) {
    0 < n <= |bs| && Reaches(bs, 0, 0, n, 0)
  }

  lemma {:induction false} ScanCloses(bs: seq<byte>, i: nat, d: nat)
    requires d > 0 && Scan(bs, i, d).Some?
    ensures Reaches(bs, i, d, Scan(bs, i, d).value + 1, 0)
    ensures forall j: nat :: i <= j <= Scan(bs, i, d).value ==> !Reaches(bs, i, d, j, 0)
    decreases |bs| - i
  {
    if Mark(bs[i]) {
      ScanCloses(bs, ParseQuoted(bs, i).value.0, d);
    } else if bs[i] == OPEN {
      ScanCloses(bs, i + 1, d + 1);
    } else if bs[i] == CLOSE {
      if d > 1 {
        ScanCloses(bs, i + 1, d - 1);
      }
    } else {
      ScanCloses(bs, i + 1, d);
    }
  }

  lemma {:induction false} BalanceIsFound(bs: seq<byte>, i: nat, d: nat, j: nat)
    requires d > 0 && Reaches(bs, i, d, j, 0)
    ensures Scan(bs, i, d).Some? && Scan(bs, i, d).value < j
    decreases j - i
  {
    if Mark(bs[i]) {
      BalanceIsFound(bs, ParseQuoted(bs, i).value.0, d, j);
    } else if bs[i] == OPEN {
      BalanceIsFound(bs, i + 1, d + 1, j);
    } else if bs[i] == CLOSE {
      if d > 1 {
        BalanceIsFound(bs, i + 1, d - 1, j);
      }
    } else {
      BalanceIsFound(bs, i + 1, d, j);
    }
  }

  /** On a text that opens with a brace the scan finds the shortest balanced prefix, and finds none only
      if there is none. */
  lemma ShortestBalanced(bs: seq<byte>)
    requires bs != [] && bs[0] == OPEN
    ensures var k := Scan(bs, 0, 0);
            && (k.Some? ==> Balanced(bs, k.value + 1) && forall n: nat :: n <= k.value ==> !Balanced(bs, n))
            && (k.None? ==> forall n: nat :: !Balanced(bs, n))
  {
    var k := Scan(bs, 0, 0);
    assert k == Scan(bs, 1, 1);
    forall n | Balanced(bs, n)
      ensures k.Some? && n > k.value
    {
      BalanceIsFound(bs, 1, 1, n);
      ScanCloses(bs, 1, 1);
    }
    if k.Some? {
      ScanCloses(bs, 1, 1);
    }
  }

  // ----- static_exported_object -----

  function FindFrom(bs: seq<byte>, needle: seq<byte>, i: nat): (r: Option<nat>)
    requires i <= |bs|
    ensures r.Some? ==> i <= r.value <= |bs| && OccursAt(bs, needle, r.value)
    ensures forall k :: i <= k <= |bs| && (r.Some? ==> k < r.value) ==> !OccursAt(bs, needle, k)
    decreases |bs| - i
  {
    if OccursAt(bs, needle, i) then Some(i) else if i == |bs| then None else FindFrom(bs, needle, i + 1)
  }

  function SkipWhite(bs: seq<byte>, i: nat): (j: nat)
    requires i <= |bs|
    ensures i <= j <= |bs| && (j < |bs| ==> !White(bs[j])) && forall k :: i <= k < j ==> White(bs[k])
    decreases |bs| - i
  {
    if i < |bs| && White(bs[i]) then SkipWhite(bs, i + 1) else i
  }

  method SkipAsciiWhitespace(bs: seq<byte>, i: nat) returns (j: nat)
    requires i <= |bs|
    ensures j == SkipWhite(bs, i)
  {
    j := i;
    while j < |bs| && White(bs[j])
      invariant i <= j <= |bs| && SkipWhite(bs, i) == SkipWhite(bs, j)
    {
      j := j + 1;
    }
  }

  /** Where the exported text starts: the first byte behind the export that is not white. */
  function ExportStart(bs: seq<byte>): (start: Option<nat>)
    ensures start.Some? ==> start.value <= |bs|
  {
    var d := FindFrom(bs, EXPORT_DEFAULT, 0);
    if d.Some? then Some(SkipWhite(bs, d.value + |EXPORT_DEFAULT|))
    else
      var m := FindFrom(bs, MODULE_EXPORTS, 0);
      if m.None? then None
      else
        var equals := SkipWhite(bs, m.value + |MODULE_EXPORTS|);
        if equals >= |bs| || bs[equals] != EQUALS then None else Some(SkipWhite(bs, equals + 1))
  }

  function Exported(bs: seq<byte>): Option<seq<byte>> {
    var start := ExportStart(bs);
    if start.None? then None else Some(bs[start.value..])
  }

  predicate Bans(text: seq<byte>) {
    exists i :: 0 <= i < |BANNED| && FindFrom(text, BANNED[i], 0).Some?
  }

  /** What str::trim drops among the characters a stripped source can hold. */
  predicate Blank(bs: seq<byte>)
    decreases |bs|
  {
    if bs == [] then true
    else if 9 <= bs[0] <= 13 || bs[0] == 32 then Blank(bs[1..])
    else |bs| >= 2 && bs[0] == 0xC2 && (bs[1] == 0x85 || bs[1] == 0xA0) && Blank(bs[2..])
  }

  /** Nothing but white space and at most one semicolon. */
  predicate AllowedTail(bs: seq<byte>)
    decreases |bs|
  {
    if bs == [] then true
    else if bs[0] == SEMICOLON then Blank(bs[1..])
    else if 9 <= bs[0] <= 13 || bs[0] == 32 then AllowedTail(bs[1..])
    else |bs| >= 2 && bs[0] == 0xC2 && (bs[1] == 0x85 || bs[1] == 0xA0) && AllowedTail(bs[2..])
  }

  function ExportedObject(bs: seq<byte>): (o: Option<seq<byte>>) {
    var text := Exported(bs);
    if text.None? || text.value == [] || text.value[0] != OPEN || Bans(text.value) then None
    else
      var k := Scan(text.value, 0, 0);
      if k.None? || !AllowedTail(text.value[k.value + 1..]) then None else Some(text.value[..k.value + 1])
  }

  method FindBanned(text: seq<byte>) returns (found: bool)
    ensures found == Bans(text)
  {
    var i := 0;
    while i < |BANNED|
      invariant 0 <= i <= |BANNED| && forall k :: 0 <= k < i ==> FindFrom(text, BANNED[k], 0).None?
    {
      if FindFrom(text, BANNED[i], 0).Some? {
        return true;
      }
      i := i + 1;
    }
    found := false;
  }

  method StaticExportedObject(source: seq<byte>) returns (o: Option<seq<byte>>)
    ensures o == ExportedObject(source)
  {
    var text := Exported(source);
    if text.None? || text.value == [] || text.value[0] != OPEN {
      return None;
    }
    var banned := FindBanned(text.value);
    if banned {
      return None;
    }
    hide Exported, Bans, AllowedTail, ParseQuoted, FindFrom;
    var bs := text.value;
    var index, depth := 0, 0;
    while index < |bs|
      invariant 0 <= index <= |bs| && Scan(bs, 0, 0) == Scan(bs, index, depth)
      decreases |bs| - index
    {
      var b := bs[index];
      if Mark(b) {
        var quoted := ParseSimpleQuoted(bs, index);
        if quoted.None? {
          return None;
        }
        index := quoted.value.0;
        continue;
      }
      if b == BACKTICK {
        return None;
      }
      if b == OPEN {
        depth := depth + 1;
      } else if b == CLOSE {
        if depth == 0 {
          return None;
        }
        depth := depth - 1;
        if depth == 0 {
          if !AllowedTail(bs[index + 1..]) {
            return None;
          }
          return Some(bs[..index + 1]);
        }
      }
      index := index + 1;
    }
    o := None;
  }

  // ----- has_single_literal_property -----

  predicate WordStart(b: byte) {
    65 <= b <= 90 || 97 <= b <= 122 || b == 95 || b == 36
  }

  predicate WordByte(b: byte) {
    WordStart(b) || 48 <= b <= 57
  }

  function WordEnd(bs: seq<byte>, i: nat): (j: nat)
    requires i <= |bs|
    ensures i <= j <= |bs| && (forall k :: i <= k < j ==> WordByte(bs[k])) && (j < |bs| ==> !WordByte(bs[j]))
    decreases |bs| - i
  {
    if i < |bs| && WordByte(bs[i]) then WordEnd(bs, i + 1) else i
  }

  /** What the counting loop does in one turn: where it goes on, at which depth, what it counted, and
      whether a closing brace had no opening one. */
  datatype Turn = Turn(next: nat, depth: nat, properties: nat, literals: nat, clipped: bool)

  /** A name just ended at `end`; is it a property of the outer object, with which value? */
  function AfterName(bs: seq<byte>, end: nat, depth: nat, isProperty: bool, expected: seq<byte>): (t: Option<Turn>)
    requires end <= |bs|
    ensures t.Some? ==> end <= t.value.next <= |bs|
  {
    if !isProperty || depth != 1 then Some(Turn(end, depth, 0, 0, false))
    else
      var j := SkipWhite(bs, end);
      if j >= |bs| || bs[j] != COLON then Some(Turn(j, depth, 0, 0, false))
      else
        var k := SkipWhite(bs, j + 1);
        if k >= |bs| || !Mark(bs[k]) then Some(Turn(k, depth, 1, 0, false))
        else
          var value := ParseQuoted(bs, k);
          if value.None? then None
          else Some(Turn(value.value.0, depth, 1, if value.value.1 == Some(expected) then 1 else 0, false))
  }

  function Step(bs: seq<byte>, i: nat, depth: nat, property: seq<byte>, expected: seq<byte>): (t: Option<Turn>)
    requires i < |bs|
    ensures t.Some? ==> i < t.value.next <= |bs|
  {
    if bs[i] == OPEN then Some(Turn(i + 1, depth + 1, 0, 0, false))
    else if bs[i] == CLOSE then Some(Turn(i + 1, if depth == 0 then 0 else depth - 1, 0, 0, depth == 0))
    else if Mark(bs[i]) then
      var name := ParseQuoted(bs, i);
      if name.None? then None else AfterName(bs, name.value.0, depth, name.value.1 == Some(property), expected)
    else if WordStart(bs[i]) then
      var end := WordEnd(bs, i + 1);
      AfterName(bs, end, depth, bs[i..end] == property, expected)
    else Some(Turn(i + 1, depth, 0, 0, false))
  }

  datatype Tally = Tally(properties: nat, literals: nat, depth: nat, clipped: bool)

  /** The whole count from `i`; None when a string does not close. */
  function CountProperties(bs: seq<byte>, i: nat, t: Tally, property: seq<byte>, expected: seq<byte>): Option<Tally>
    decreases |bs| - i
  {
    if i >= |bs| then Some(t)
    else
      var s := Step(bs, i, t.depth, property, expected);
      if s.None? then None
      else
        var u := s.value;
        CountProperties(bs, u.next, Tally(t.properties + u.properties, t.literals + u.literals, u.depth, t.clipped || u.clipped), property, expected)
  }

  const START := Tally(0, 0, 0, false)

  predicate HasSingle(source: seq<byte>, property: seq<byte>, expected: seq<byte>) {
    var stripped := Strip(source, Code);
    stripped.Some? &&
    var o := ExportedObject(stripped.value);
    o.Some? &&
    var t := CountProperties(o.value, 0, START, property, expected);
    t.Some? && t.value.properties == 1 && t.value.literals == 1
  }

  method HasSingleLiteralProperty(source: seq<byte>, property: seq<byte>, expected: seq<byte>) returns (r: bool)
    ensures r == HasSingle(source, property, expected)
  {
    hide Strip, ExportedObject, Step;
    var stripped := StripComments(source);
    if stripped.None? {
      return false;
    }
    var o := StaticExportedObject(stripped.value);
    if o.None? {
      return false;
    }
    var bs := o.value;
    var index, tally := 0, START;
    while index < |bs|
      invariant 0 <= index <= |bs|
      invariant CountProperties(bs, 0, START, property, expected) == CountProperties(bs, index, tally, property, expected)
      decreases |bs| - index
    {
      var turn := OneTurn(bs, index, tally.depth, property, expected);
      if turn.None? {
        return false;
      }
      var u := turn.value;
      index := u.next;
      tally := Tally(tally.properties + u.properties, tally.literals + u.literals, u.depth, tally.clipped || u.clipped);
    }
    r := tally.properties == 1 && tally.literals == 1;
  }

  /** The body of the counting loop. */
  method OneTurn(bs: seq<byte>, index: nat, depth: nat, property: seq<byte>, expected: seq<byte>) returns (t: Option<Turn>)
    requires index < |bs|
    ensures t == Step(bs, index, depth, property, expected)
  {
    if bs[index] == OPEN {
      return Some(Turn(index + 1, depth + 1, 0, 0, false));
    }
    if bs[index] == CLOSE {
      return Some(Turn(index + 1, if depth == 0 then 0 else depth - 1, 0, 0, depth == 0));
    }
    var isProperty, end := false, index + 1;
    if Mark(bs[index]) {
      var quoted := ParseSimpleQuoted(bs, index);
      if quoted.None? {
        return None;
      }
      isProperty, end := quoted.value.1 == Some(property), quoted.value.0;
    } else if WordStart(bs[index]) {
      end := WordEnd(bs, index + 1);
      isProperty := bs[index..end] == property;
    } else {
      return Some(Turn(index + 1, depth, 0, 0, false));
    }
    if !isProperty || depth != 1 {
      return Some(Turn(end, depth, 0, 0, false));
    }
    var j := SkipAsciiWhitespace(bs, end);
    if j >= |bs| || bs[j] != COLON {
      return Some(Turn(j, depth, 0, 0, false));
    }
    j := SkipAsciiWhitespace(bs, j + 1);
    if j >= |bs| || !Mark(bs[j]) {
      return Some(Turn(j, depth, 1, 0, false));
    }
    var value := ParseSimpleQuoted(bs, j);
    if value.None? {
      return None;
    }
    t := Some(Turn(value.value.0, depth, 1, if value.value.1 == Some(expected) then 1 else 0, false));
  }

  // ----- on an exported object the counting never goes wrong -----

  /** From here the braces close exactly at the end of the text. */
  predicate ClosesAtEnd(bs: seq<byte>, i: nat, depth: nat) {
    i <= |bs| && if i == |bs| then depth == 0 else Scan(bs, i, depth) == Some(|bs| - 1)
  }

  predicate Ordinary(b: byte) {
    !Mark(b) && b != BACKTICK && b != OPEN && b != CLOSE
  }

  lemma {:induction false} OrdinaryRun(bs: seq<byte>, i: nat, j: nat, depth: nat)
    requires i <= j <= |bs| && forall k :: i <= k < j ==> Ordinary(bs[k])
    requires i < |bs| && ClosesAtEnd(bs, i, depth)
    ensures j < |bs| && ClosesAtEnd(bs, j, depth)
    decreases j - i
  {
    if i < j {
      assert Ordinary(bs[i]);
      OrdinaryRun(bs, i + 1, j, depth);
    }
  }

  lemma QuotedStep(bs: seq<byte>, i: nat, depth: nat)
    requires i < |bs| && ClosesAtEnd(bs, i, depth) && Mark(bs[i])
    ensures ParseQuoted(bs, i).Some? && ParseQuoted(bs, i).value.0 < |bs| && ClosesAtEnd(bs, ParseQuoted(bs, i).value.0, depth)
  {
  }

  lemma NameStep(bs: seq<byte>, end: nat, depth: nat, isProperty: bool, expected: seq<byte>)
    requires end < |bs| && ClosesAtEnd(bs, end, depth)
    ensures var t := AfterName(bs, end, depth, isProperty, expected);
            t.Some? && !t.value.clipped && t.value.next < |bs| && ClosesAtEnd(bs, t.value.next, t.value.depth)
  {
    hide Scan, ParseQuoted, ClosesAtEnd;
    if isProperty && depth == 1 {
      var j := SkipWhite(bs, end);
      OrdinaryRun(bs, end, j, depth);
      if bs[j] == COLON {
        OrdinaryRun(bs, j, j + 1, depth);
        var k := SkipWhite(bs, j + 1);
        OrdinaryRun(bs, j + 1, k, depth);
        if Mark(bs[k]) {
          QuotedStep(bs, k, depth);
        }
      }
    }
  }

  lemma TurnKeeps(bs: seq<byte>, i: nat, depth: nat, property: seq<byte>, expected: seq<byte>)
    requires i < |bs| && ClosesAtEnd(bs, i, depth)
    ensures var t := Step(bs, i, depth, property, expected);
            t.Some? && !t.value.clipped && ClosesAtEnd(bs, t.value.next, t.value.depth)
  {
    hide AfterName, ParseQuoted;
    if bs[i] == OPEN || bs[i] == CLOSE {
    } else if Mark(bs[i]) {
      QuotedStep(bs, i, depth);
      var name := ParseQuoted(bs, i).value;
      NameStep(bs, name.0, depth, name.1 == Some(property), expected);
    } else if WordStart(bs[i]) {
      var end := WordEnd(bs, i + 1);
      OrdinaryRun(bs, i, end, depth);
      NameStep(bs, end, depth, bs[i..end] == property, expected);
    }
  }

  lemma {:induction false} CountEndsClosed(bs: seq<byte>, i: nat, t: Tally, property: seq<byte>, expected: seq<byte>)
    requires ClosesAtEnd(bs, i, t.depth)
    ensures var c := CountProperties(bs, i, t, property, expected); c.Some? && c.value.depth == 0 && c.value.clipped == t.clipped
    decreases |bs| - i
  {
    hide Step, Scan;
    if i < |bs| {
      TurnKeeps(bs, i, t.depth, property, expected);
      var u := Step(bs, i, t.depth, property, expected).value;
      CountEndsClosed(bs, u.next, Tally(t.properties + u.properties, t.literals + u.literals, u.depth, t.clipped || u.clipped), property, expected);
    }
  }

  lemma {:induction false} QuoteEndInPrefix(bs: seq<byte>, n: nat, i: nat, quote: byte)
    requires n <= |bs| && QuoteEnd(bs, i, quote).Some? && QuoteEnd(bs, i, quote).value <= n
    ensures QuoteEnd(bs[..n], i, quote) == QuoteEnd(bs, i, quote)
    decreases |bs| - i
  {
    if bs[i] != quote {
      QuoteEndInPrefix(bs, n, if bs[i] == BACKSLASH then i + 2 else i + 1, quote);
    }
  }

  lemma {:induction false} ScanInPrefix(bs: seq<byte>, i: nat, depth: nat)
    requires Scan(bs, i, depth).Some?
    ensures Scan(bs[..Scan(bs, i, depth).value + 1], i, depth) == Scan(bs, i, depth)
    decreases |bs| - i
  {
    var k := Scan(bs, i, depth).value;
    var o := bs[..k + 1];
    if Mark(bs[i]) {
      var end := ParseQuoted(bs, i).value.0;
      QuoteEndInPrefix(bs, k + 1, i + 1, bs[i]);
      ScanInPrefix(bs, end, depth);
    } else if bs[i] == OPEN {
      ScanInPrefix(bs, i + 1, depth + 1);
    } else if bs[i] == CLOSE {
      if depth > 1 {
        ScanInPrefix(bs, i + 1, depth - 1);
      }
    } else {
      ScanInPrefix(bs, i + 1, depth);
    }
  }

  /** What static_exported_object returns starts and closes with the braces of one object. */
  lemma ObjectCloses(bs: seq<byte>)
    requires ExportedObject(bs).Some?
    ensures var o := ExportedObject(bs).value;
            && o != [] && o[0] == OPEN && o[|o| - 1] == CLOSE && ClosesAtEnd(o, 0, 0)
            && Balanced(o, |o|) && forall n: nat :: n < |o| ==> !Balanced(o, n)
  {
    hide Exported, Bans, AllowedTail;
    var text := Exported(bs).value;
    var o := ExportedObject(bs).value;
    ScanInPrefix(text, 0, 0);
    ShortestBalanced(o);
    ScanEndsInBrace(o, 0, 0);
  }

  lemma {:induction false} ScanEndsInBrace(bs: seq<byte>, i: nat, depth: nat)
    requires Scan(bs, i, depth).Some?
    ensures bs[Scan(bs, i, depth).value] == CLOSE
    decreases |bs| - i
  {
    if Mark(bs[i]) {
      ScanEndsInBrace(bs, ParseQuoted(bs, i).value.0, depth);
    } else if bs[i] == OPEN {
      ScanEndsInBrace(bs, i + 1, depth + 1);
    } else if bs[i] == CLOSE {
      if depth > 1 {
        ScanEndsInBrace(bs, i + 1, depth - 1);
      }
    } else {
      ScanEndsInBrace(bs, i + 1, depth);
    }
  }

  /** Counting properties in an exported object never meets an open string or a stray brace, and ends
      outside every brace, whatever is being looked for. */
  lemma CountingIsSound(bs: seq<byte>, property: seq<byte>, expected: seq<byte>)
    requires ExportedObject(bs).Some?
    ensures var t := CountProperties(ExportedObject(bs).value, 0, START, property, expected); t.Some? && t.value.depth == 0 && !t.value.clipped
  {
    ObjectCloses(bs);
    CountEndsClosed(ExportedObject(bs).value, 0, START, property, expected);
  }
}
