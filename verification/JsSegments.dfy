/** What the comment stripper is for, stated without its modes: a source is a run of code bytes,
    literals and comments, and stripping puts a space in place of every comment. */
module JsSegments {
  import opened Common
  import opened Bytes
  import opened JsComments

  datatype Segment =
    | Plain(b: byte)
    | Literal(quote: byte, body: seq<byte>)
    | ToLineEnd(body: seq<byte>)
    | Block(body: seq<byte>)

  function SourceOf(g: Segment): (bs: seq<byte>)
    ensures bs != []
  {
    match g
    case Plain(b) => [b]
    case Literal(q, body) => [q] + body + [q]
    case ToLineEnd(body) => [SLASH, SLASH] + body
    case Block(body) => [SLASH, STAR] + body + [STAR, SLASH]
  }

  function KeptOf(g: Segment): seq<byte> {
    match g
    case Plain(_) => Expand(SourceOf(g))
    case Literal(_, _) => Expand(SourceOf(g))
    case ToLineEnd(_) => [SPACE]
    case Block(_) => [SPACE]
  }

  function Source(gs: seq<Segment>): seq<byte> {
    if gs == [] then [] else SourceOf(gs[0]) + Source(gs[1..])
  }

  function Kept(gs: seq<Segment>): seq<byte> {
    if gs == [] then [] else KeptOf(gs[0]) + Kept(gs[1..])
  }

  /** A literal's inside: every quote mark of its own kind is escaped, and no escape is left open. */
  predicate Inside(body: seq<byte>, quote: byte) {
    if body == [] then true
    else if body[0] == BACKSLASH then |body| >= 2 && Inside(body[2..], quote)
    else body[0] != quote && Inside(body[1..], quote)
  }

  predicate NoClose(body: seq<byte>) {
    forall i :: 0 <= i < |body| - 1 ==> !(body[i] == STAR && body[i + 1] == SLASH)
  }

  /** A segment in front of the bytes that follow it. */
  predicate Fits(g: Segment, rest: seq<byte>) {
    match g
    case Plain(b) => !Quote(b) && !OpensComment([b] + rest)
    case Literal(q, body) => Quote(q) && Inside(body, q)
    case ToLineEnd(body) => NEWLINE !in body && (rest == [] || rest[0] == NEWLINE)
    case Block(body) => NoClose(body)
  }

  predicate WellFormed(gs: seq<Segment>) {
    gs == [] || (Fits(gs[0], Source(gs[1..])) && WellFormed(gs[1..]))
  }

  // ----- from segments to the stripper -----

  lemma {:induction false} StripInside(body: seq<byte>, quote: byte, rest: seq<byte>)
    requires Inside(body, quote) && Quote(quote)
    ensures Strip(body + [quote] + rest, Quoted(quote, false)) == Pre(Expand(body) + [quote], Strip(rest, Code))
    decreases |body|
  {
    var bs := body + [quote] + rest;
    var open := Quoted(quote, false);
    if body == [] {
      assert bs[1..] == rest && Expand(body) + [quote] == Push(quote);
    } else if body[0] == BACKSLASH {
      StripInside(body[2..], quote, rest);
      assert bs[1..][1..] == body[2..] + [quote] + rest;
      assert bs[1..][0] == body[1] && body[1..][0] == body[1] && body[1..][1..] == body[2..];
      var tail := Strip(rest, Code);
      PreAssociates(Push(body[1]), Expand(body[2..]) + [quote], tail);
      PreAssociates(Push(body[0]), Push(body[1]) + (Expand(body[2..]) + [quote]), tail);
      assert Expand(body[1..]) == Push(body[1]) + Expand(body[2..]);
      assert Expand(body) + [quote] == Push(body[0]) + (Push(body[1]) + (Expand(body[2..]) + [quote]));
    } else {
      StripInside(body[1..], quote, rest);
      assert bs[1..] == body[1..] + [quote] + rest;
      PreAssociates(Push(body[0]), Expand(body[1..]) + [quote], Strip(rest, Code));
      assert Expand(body) + [quote] == Push(body[0]) + (Expand(body[1..]) + [quote]);
    }
  }

  lemma {:induction false} StripLine(body: seq<byte>, rest: seq<byte>)
    requires NEWLINE !in body && (rest == [] || rest[0] == NEWLINE)
    ensures Strip(body + rest, LineComment) == Strip(rest, Code)
    decreases |body|
  {
    if body == [] {
      assert body + rest == rest;
      if rest != [] {
        assert AfterCode(NEWLINE) == Code && Push(NEWLINE) == [NEWLINE];
      }
    } else {
      assert (body + rest)[1..] == body[1..] + rest;
      StripLine(body[1..], rest);
    }
  }

  lemma {:induction false} StripBlock(body: seq<byte>, rest: seq<byte>)
    requires NoClose(body)
    ensures Strip(body + [STAR, SLASH] + rest, BlockComment) == Strip(rest, Code)
    decreases |body|
  {
    var bs := body + [STAR, SLASH] + rest;
    if body == [] {
      assert bs[2..] == rest;
    } else {
      assert bs[1..] == body[1..] + [STAR, SLASH] + rest;
      assert !StartsWith(bs, STAR, SLASH) by {
        if |body| > 1 {
          assert bs[1] == body[0 + 1];
        }
      }
      assert forall i :: 0 <= i < |body[1..]| ==> body[1..][i] == body[i + 1];
      StripBlock(body[1..], rest);
    }
  }

  lemma {:induction false} ExpandAppend(a: seq<byte>, b: seq<byte>)
    ensures Expand(a + b) == Expand(a) + Expand(b)
    decreases |a|
  {
    if a == [] {
      assert a + b == b;
    } else {
      assert (a + b)[1..] == a[1..] + b;
      ExpandAppend(a[1..], b);
    }
  }

  lemma LiteralKept(q: byte, body: seq<byte>)
    requires Quote(q)
    ensures KeptOf(Literal(q, body)) == [q] + (Expand(body) + [q])
  {
    ExpandAppend([q] + body, [q]);
    ExpandAppend([q], body);
    assert [q][1..] == [];
    assert Expand([q]) == [q];
  }

  lemma StripPlain(b: byte, rest: seq<byte>)
    requires Fits(Plain(b), rest)
    ensures Strip([b] + rest, Code) == Pre(KeptOf(Plain(b)), Strip(rest, Code))
  {
    assert ([b] + rest)[1..] == rest && [b][1..] == [];
    assert Expand([b]) == Push(b) + [] == Push(b);
  }

  lemma StripLiteral(q: byte, body: seq<byte>, rest: seq<byte>)
    requires Quote(q) && Inside(body, q)
    ensures Strip(SourceOf(Literal(q, body)) + rest, Code) == Pre(KeptOf(Literal(q, body)), Strip(rest, Code))
  {
    var bs := SourceOf(Literal(q, body)) + rest;
    assert bs[0] == q && bs[1..] == body + [q] + rest;
    assert Strip(bs, Code) == Pre([q], Strip(bs[1..], Quoted(q, false)));
    hide Strip, Expand, Inside;
    StripInside(body, q, rest);
    LiteralKept(q, body);
    PreAssociates([q], Expand(body) + [q], Strip(rest, Code));
  }

  lemma StripComment(g: Segment, rest: seq<byte>)
    requires Fits(g, rest) && (g.ToLineEnd? || g.Block?)
    ensures Strip(SourceOf(g) + rest, Code) == Pre(KeptOf(g), Strip(rest, Code))
  {
    var bs := SourceOf(g) + rest;
    if g.ToLineEnd? {
      assert bs[0] == SLASH && bs[1] == SLASH && bs[2..] == g.body + rest;
      StripLine(g.body, rest);
    } else {
      assert bs[0] == SLASH && bs[1] == STAR && bs[2..] == g.body + [STAR, SLASH] + rest;
      StripBlock(g.body, rest);
    }
  }

  lemma StripSegment(g: Segment, rest: seq<byte>)
    requires Fits(g, rest)
    ensures Strip(SourceOf(g) + rest, Code) == Pre(KeptOf(g), Strip(rest, Code))
  {
    hide Strip, KeptOf, Pre;
    match g
    case Plain(b) => StripPlain(b, rest);
    case Literal(q, body) => StripLiteral(q, body, rest);
    case ToLineEnd(_) => StripComment(g, rest);
    case Block(_) => StripComment(g, rest);
  }

  /** Stripping a well-formed source keeps its code and literals and leaves a space for each comment. */
  lemma {:induction false} StripOfSegments(gs: seq<Segment>)
    requires WellFormed(gs)
    ensures Strip(Source(gs), Code) == Some(Kept(gs))
    decreases |gs|
  {
    hide KeptOf, SourceOf, Fits;
    if gs != [] {
      StripSegment(gs[0], Source(gs[1..]));
      StripOfSegments(gs[1..]);
    }
  }

  // ----- from the stripper to segments -----

  lemma {:induction false} CutLiteral(bs: seq<byte>, quote: byte) returns (body: seq<byte>, rest: seq<byte>)
    requires Strip(bs, Quoted(quote, false)).Some? && Quote(quote)
    ensures bs == body + [quote] + rest && Inside(body, quote) && Strip(rest, Code).Some?
    decreases |bs|
  {
    if bs[0] == quote {
      body, rest := [], bs[1..];
    } else if bs[0] == BACKSLASH {
      assert bs[1..] != [] && bs[1..][1..] == bs[2..];
      assert Strip(bs[2..], Quoted(quote, false)).Some?;
      hide Strip;
      var inner;
      inner, rest := CutLiteral(bs[2..], quote);
      body := bs[..2] + inner;
      assert body[2..] == inner;
      assert bs == bs[..2] + (inner + [quote] + rest);
    } else {
      assert Strip(bs[1..], Quoted(quote, false)).Some?;
      hide Strip;
      var inner;
      inner, rest := CutLiteral(bs[1..], quote);
      body := [bs[0]] + inner;
      assert body[1..] == inner;
      assert bs == [bs[0]] + (inner + [quote] + rest);
    }
  }

  lemma {:induction false} CutLine(bs: seq<byte>) returns (body: seq<byte>, rest: seq<byte>)
    requires Strip(bs, LineComment).Some?
    ensures bs == body + rest && NEWLINE !in body && (rest == [] || rest[0] == NEWLINE) && Strip(rest, Code).Some?
    decreases |bs|
  {
    if bs == [] || bs[0] == NEWLINE {
      body, rest := [], bs;
      if bs != [] {
        assert AfterCode(NEWLINE) == Code;
      }
    } else {
      var inner;
      inner, rest := CutLine(bs[1..]);
      body := [bs[0]] + inner;
      assert bs == [bs[0]] + bs[1..];
    }
  }

  lemma {:induction false} CutBlock(bs: seq<byte>) returns (body: seq<byte>, rest: seq<byte>)
    requires Strip(bs, BlockComment).Some?
    ensures bs == body + [STAR, SLASH] + rest && NoClose(body) && Strip(rest, Code).Some?
    decreases |bs|
  {
    if StartsWith(bs, STAR, SLASH) {
      body, rest := [], bs[2..];
    } else {
      var inner;
      inner, rest := CutBlock(bs[1..]);
      body := [bs[0]] + inner;
      assert bs == [bs[0]] + bs[1..];
      forall i | 0 <= i < |body| - 1
        ensures !(body[i] == STAR && body[i + 1] == SLASH)
      {
        if i == 0 {
          assert body[1] == bs[1];
        } else {
          assert body[i] == inner[i - 1] && body[i + 1] == inner[(i - 1) + 1];
        }
      }
    }
  }

  lemma CommentFirst(bs: seq<byte>) returns (g: Segment, rest: seq<byte>)
    requires OpensComment(bs) && Strip(bs, Code).Some?
    ensures bs == SourceOf(g) + rest && Fits(g, rest) && Strip(rest, Code).Some?
  {
    assert bs == bs[..2] + bs[2..];
    var body;
    if StartsWith(bs, SLASH, SLASH) {
      assert bs[..2] == [SLASH, SLASH];
      body, rest := CutLine(bs[2..]);
      g := ToLineEnd(body);
      assert SourceOf(g) + rest == [SLASH, SLASH] + (body + rest);
    } else {
      assert bs[..2] == [SLASH, STAR];
      body, rest := CutBlock(bs[2..]);
      g := Block(body);
      assert SourceOf(g) + rest == [SLASH, STAR] + (body + [STAR, SLASH] + rest);
    }
  }

  lemma LiteralFirst(bs: seq<byte>) returns (g: Segment, rest: seq<byte>)
    requires bs != [] && Quote(bs[0]) && Strip(bs, Code).Some?
    ensures bs == SourceOf(g) + rest && Fits(g, rest) && Strip(rest, Code).Some?
  {
    var q := bs[0];
    assert !OpensComment(bs) && bs == [q] + bs[1..] && Strip(bs[1..], Quoted(q, false)).Some?;
    hide Strip, Inside;
    var body;
    body, rest := CutLiteral(bs[1..], q);
    g := Literal(q, body);
    assert [q] + body + [q] + rest == [q] + (body + [q] + rest);
  }

  lemma FirstSegment(bs: seq<byte>) returns (g: Segment, rest: seq<byte>)
    requires bs != [] && Strip(bs, Code).Some?
    ensures bs == SourceOf(g) + rest && Fits(g, rest) && Strip(rest, Code).Some?
  {
    if OpensComment(bs) {
      g, rest := CommentFirst(bs);
    } else if Quote(bs[0]) {
      g, rest := LiteralFirst(bs);
    } else {
      g, rest := Plain(bs[0]), bs[1..];
      assert bs == [bs[0]] + rest;
    }
  }

  /** Every source the stripper accepts is such a run, so its output is what the run keeps. */
  lemma {:induction false} SegmentsOfAccepted(bs: seq<byte>) returns (gs: seq<Segment>)
    requires Strip(bs, Code).Some?
    ensures WellFormed(gs) && Source(gs) == bs && Strip(bs, Code) == Some(Kept(gs))
    decreases |bs|
  {
    hide SourceOf, Fits;
    if bs == [] {
      gs := [];
    } else {
      var g, rest := FirstSegment(bs);
      var more := SegmentsOfAccepted(rest);
      gs := [g] + more;
      assert gs[1..] == more;
      StripOfSegments(gs);
    }
  }
}
