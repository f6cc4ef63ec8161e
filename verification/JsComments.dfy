/** strip_javascript_comments of crates/control/src/compatibility.rs. It works on the bytes of a
    UTF-8 string and pushes each kept byte as a character, so a byte above 127 comes out as two. */
module JsComments {
  import opened Common
  import opened Bytes

  const STAR: byte := 42
  const SPACE: byte := 32
  const NEWLINE: byte := 10
  const BACKTICK: byte := 96

  predicate Mark(b: byte) {
    b == 39 || b == 34
  }

  /** What opens a literal: a quote mark, or the backtick of a template. */
  predicate Quote(b: byte) {
    Mark(b) || b == BACKTICK
  }

  datatype Mode = Code | Quoted(quote: byte, escaped: bool) | LineComment | BlockComment

  predicate StartsWith(bs: seq<byte>, first: byte, second: byte) {
    |bs| >= 2 && bs[0] == first && bs[1] == second
  }

  predicate OpensComment(bs: seq<byte>) {
    StartsWith(bs, SLASH, SLASH) || StartsWith(bs, SLASH, STAR)
  }

  /** A byte pushed as a character, in UTF-8. */
  function Push(b: byte): (out: seq<byte>)
    ensures out == [b] <==> b < 128
    ensures |out| == if b < 128 then 1 else 2
    ensures b >= 128 ==> out[0] >= 128 && out[1] >= 128
  {
    if b < 128 then [b] else [0xC0 + b / 64, 0x80 + b % 64]
  }

  function AfterCode(b: byte): Mode {
    if Quote(b) then Quoted(b, false) else Code
  }

  function AfterQuoted(m: Mode, b: byte): Mode
    requires m.Quoted?
  {
    if m.escaped then m.(escaped := false)
    else if b == BACKSLASH then m.(escaped := true)
    else if b == m.quote then Code
    else m
  }

  function Pre(p: seq<byte>, o: Option<seq<byte>>): Option<seq<byte>> {
    if o.None? then None else Some(p + o.value)
  }

  function Strip(bs: seq<byte>, m: Mode): Option<seq<byte>>
    decreases |bs|
  {
    if bs == [] then if m == Code || m == LineComment then Some([]) else None
    else
      match m
      case Code =>
        if StartsWith(bs, SLASH, SLASH) then Pre([SPACE], Strip(bs[2..], LineComment))
        else if StartsWith(bs, SLASH, STAR) then Pre([SPACE], Strip(bs[2..], BlockComment))
        else Pre(Push(bs[0]), Strip(bs[1..], AfterCode(bs[0])))
      case LineComment =>
        if bs[0] == NEWLINE then Pre([NEWLINE], Strip(bs[1..], Code)) else Strip(bs[1..], LineComment)
      case BlockComment =>
        if StartsWith(bs, STAR, SLASH) then Strip(bs[2..], Code) else Strip(bs[1..], BlockComment)
      case Quoted(_, _) => Pre(Push(bs[0]), Strip(bs[1..], AfterQuoted(m, bs[0])))
  }

  lemma PreAssociates(p: seq<byte>, q: seq<byte>, o: Option<seq<byte>>)
    ensures Pre(p + q, o) == Pre(p, Pre(q, o))
  {
    assert o.Some? ==> p + q + o.value == p + (q + o.value);
  }

  /** The loop, byte by byte. */
  method StripComments(source: seq<byte>) returns (r: Option<seq<byte>>)
    ensures r == Strip(source, Code)
  {
    var output: seq<byte> := [];
    var mode := Code;
    var index := 0;
    assert source[0..] == source;
    ghost var whole := Strip(source, Code);
    assert whole.Some? ==> [] + whole.value == whole.value;
    while index < |source|
      invariant 0 <= index <= |source|
      invariant whole == Pre(output, Strip(source[index..], mode))
    {
      ghost var rest := source[index..];
      var byte := source[index];
      var next := if index + 1 < |source| then Some(source[index + 1]) else None;
      assert rest[1..] == source[index + 1..] && (|rest| >= 2 ==> rest[2..] == source[index + 2..]);
      match mode {
        case Code =>
          if byte == SLASH && next == Some(SLASH) {
            PreAssociates(output, [SPACE], Strip(rest[2..], LineComment));
            output, mode, index := output + [SPACE], LineComment, index + 2;
          } else if byte == SLASH && next == Some(STAR) {
            PreAssociates(output, [SPACE], Strip(rest[2..], BlockComment));
            output, mode, index := output + [SPACE], BlockComment, index + 2;
          } else {
            PreAssociates(output, Push(byte), Strip(rest[1..], AfterCode(byte)));
            output, mode, index := output + Push(byte), AfterCode(byte), index + 1;
          }
        case LineComment =>
          if byte == NEWLINE {
            PreAssociates(output, [NEWLINE], Strip(rest[1..], Code));
            output, mode := output + [NEWLINE], Code;
          }
          index := index + 1;
        case BlockComment =>
          if byte == STAR && next == Some(SLASH) {
            mode, index := Code, index + 2;
          } else {
            index := index + 1;
          }
        case Quoted(_, _) =>
          PreAssociates(output, Push(byte), Strip(rest[1..], AfterQuoted(mode, byte)));
          output, mode, index := output + Push(byte), AfterQuoted(mode, byte), index + 1;
      }
    }
    assert output + [] == output;
    r := if mode == Code || mode == LineComment then Some(output) else None;
  }

  // ----- the output has no comments left -----

  function Expand(bs: seq<byte>): seq<byte> {
    if bs == [] then [] else Push(bs[0]) + Expand(bs[1..])
  }

  /** Lexing these bytes from this mode ends in code and never opens a comment. */
  predicate CommentFree(bs: seq<byte>, m: Mode)
    decreases |bs|
  {
    if bs == [] then m == Code
    else
      match m
      case Code => !OpensComment(bs) && CommentFree(bs[1..], AfterCode(bs[0]))
      case Quoted(_, _) => CommentFree(bs[1..], AfterQuoted(m, bs[0]))
      case LineComment => false
      case BlockComment => false
  }

  lemma {:induction false} CommentFreeIsKept(bs: seq<byte>, m: Mode)
    requires CommentFree(bs, m)
    ensures Strip(bs, m) == Some(Expand(bs))
    decreases |bs|
  {
    if bs != [] {
      CommentFreeIsKept(bs[1..], if m == Code then AfterCode(bs[0]) else AfterQuoted(m, bs[0]));
    }
  }

  /** The mode the output is lexed in when the input is in `m`: a comment has become white space. */
  function OutputMode(m: Mode): Mode {
    if m.LineComment? || m.BlockComment? then Code else m
  }

  /** Lexing a pushed byte does what lexing the byte does. */
  lemma PushedByte(b: byte, rest: seq<byte>, m: Mode)
    requires m == Code || m.Quoted?
    requires m == Code ==> !OpensComment([b] + rest)
    requires CommentFree(rest, if m == Code then AfterCode(b) else AfterQuoted(m, b))
    requires m.Quoted? ==> Quote(m.quote)
    ensures CommentFree(Push(b) + rest, m)
  {
    var out := Push(b) + rest;
    if b < 128 {
      assert out[1..] == rest && out == [b] + rest;
    } else {
      assert out[1..] == [out[1]] + rest && out[1..][1..] == rest;
    }
  }

  /** A slash in code is never followed in the output by a slash or a star, because a comment leaves a
      space behind. */
  lemma {:induction false} StripIsCommentFree(bs: seq<byte>, m: Mode)
    requires Strip(bs, m).Some? && (m.Quoted? ==> Quote(m.quote))
    ensures CommentFree(Strip(bs, m).value, OutputMode(m))
    ensures bs != [] && (m == Code || m.Quoted?) ==> Strip(bs, m).value != []
    ensures bs != [] && m == Code ==>
              Strip(bs, m).value[0] == if OpensComment(bs) then SPACE else Push(bs[0])[0]
    decreases |bs|
  {
    if bs != [] {
      match m
      case Code =>
        if OpensComment(bs) {
          var inner := if StartsWith(bs, SLASH, SLASH) then LineComment else BlockComment;
          StripIsCommentFree(bs[2..], inner);
          var o := Strip(bs[2..], inner).value;
          assert ([SPACE] + o)[1..] == o;
        } else {
          var next := AfterCode(bs[0]);
          StripIsCommentFree(bs[1..], next);
          var o := Strip(bs[1..], next).value;
          assert bs[0] == SLASH && bs[1..] != [] ==> bs[1] == bs[1..][0];
          PushedByte(bs[0], o, m);
        }
      case LineComment =>
        if bs[0] == NEWLINE {
          StripIsCommentFree(bs[1..], Code);
          var o := Strip(bs[1..], Code).value;
          assert ([NEWLINE] + o)[1..] == o;
        } else {
          StripIsCommentFree(bs[1..], LineComment);
        }
      case BlockComment =>
        if StartsWith(bs, STAR, SLASH) {
          StripIsCommentFree(bs[2..], Code);
        } else {
          StripIsCommentFree(bs[1..], BlockComment);
        }
      case Quoted(_, _) =>
        var next := AfterQuoted(m, bs[0]);
        StripIsCommentFree(bs[1..], next);
        PushedByte(bs[0], Strip(bs[1..], next).value, m);
    }
  }

  // ----- stripping twice -----

  lemma {:induction false} ExpandSize(bs: seq<byte>)
    ensures |Expand(bs)| >= |bs| && (|Expand(bs)| == |bs| <==> Ascii(bs)) && (Expand(bs) == bs <==> Ascii(bs))
    decreases |bs|
  {
    if bs != [] {
      ExpandSize(bs[1..]);
      assert bs == [bs[0]] + bs[1..];
      assert Ascii(bs) <==> bs[0] < 128 && Ascii(bs[1..]) by {
        if bs[0] < 128 && Ascii(bs[1..]) {
          forall i | 0 <= i < |bs|
            ensures bs[i] < 128
          {
            if i > 0 {
              assert bs[i] == bs[1..][i - 1];
            }
          }
        }
      }
    }
  }

  /** Every byte above 127 stands in a comment. */
  predicate AsciiOutsideComments(bs: seq<byte>, m: Mode)
    decreases |bs|
  {
    if bs == [] then true
    else
      match m
      case Code =>
        if StartsWith(bs, SLASH, SLASH) then AsciiOutsideComments(bs[2..], LineComment)
        else if StartsWith(bs, SLASH, STAR) then AsciiOutsideComments(bs[2..], BlockComment)
        else bs[0] < 128 && AsciiOutsideComments(bs[1..], AfterCode(bs[0]))
      case LineComment => AsciiOutsideComments(bs[1..], if bs[0] == NEWLINE then Code else LineComment)
      case BlockComment =>
        if StartsWith(bs, STAR, SLASH) then AsciiOutsideComments(bs[2..], Code) else AsciiOutsideComments(bs[1..], BlockComment)
      case Quoted(_, _) => bs[0] < 128 && AsciiOutsideComments(bs[1..], AfterQuoted(m, bs[0]))
  }

  lemma AsciiPrefix(p: seq<byte>, o: seq<byte>)
    ensures Ascii(p + o) <==> Ascii(p) && Ascii(o)
  {
    if Ascii(p + o) {
      assert forall i :: 0 <= i < |p| ==> (p + o)[i] == p[i];
      assert forall i :: 0 <= i < |o| ==> (p + o)[|p| + i] == o[i];
    }
  }

  lemma {:induction false} OutputIsAscii(bs: seq<byte>, m: Mode)
    requires Strip(bs, m).Some?
    ensures Ascii(Strip(bs, m).value) <==> AsciiOutsideComments(bs, m)
    decreases |bs|
  {
    if bs != [] {
      match m
      case Code =>
        if OpensComment(bs) {
          var inner := if StartsWith(bs, SLASH, SLASH) then LineComment else BlockComment;
          OutputIsAscii(bs[2..], inner);
          AsciiPrefix([SPACE], Strip(bs[2..], inner).value);
        } else {
          OutputIsAscii(bs[1..], AfterCode(bs[0]));
          AsciiPrefix(Push(bs[0]), Strip(bs[1..], AfterCode(bs[0])).value);
        }
      case LineComment =>
        if bs[0] == NEWLINE {
          OutputIsAscii(bs[1..], Code);
          AsciiPrefix([NEWLINE], Strip(bs[1..], Code).value);
        } else {
          OutputIsAscii(bs[1..], LineComment);
        }
      case BlockComment =>
        if StartsWith(bs, STAR, SLASH) {
          OutputIsAscii(bs[2..], Code);
        } else {
          OutputIsAscii(bs[1..], BlockComment);
        }
      case Quoted(_, _) =>
        OutputIsAscii(bs[1..], AfterQuoted(m, bs[0]));
        AsciiPrefix(Push(bs[0]), Strip(bs[1..], AfterQuoted(m, bs[0])).value);
    }
  }

  /** The output lexes without opening a comment, so stripping it again only expands it; it comes back
      unchanged iff the source was ASCII outside its comments. */
  lemma StripTwice(source: seq<byte>)
    requires Strip(source, Code).Some?
    ensures var o := Strip(source, Code).value;
            && CommentFree(o, Code) && Strip(o, Code) == Some(Expand(o))
            && (Strip(o, Code) == Some(o) <==> AsciiOutsideComments(source, Code))
  {
    var o := Strip(source, Code).value;
    StripIsCommentFree(source, Code);
    CommentFreeIsKept(o, Code);
    ExpandSize(o);
    OutputIsAscii(source, Code);
  }

  lemma {:induction false} AsciiSource(bs: seq<byte>, m: Mode)
    requires Ascii(bs)
    ensures AsciiOutsideComments(bs, m)
    decreases |bs|
  {
    if bs != [] {
      assert Ascii(bs[1..]);
      if |bs| >= 2 {
        assert Ascii(bs[2..]);
        AsciiSource(bs[2..], LineComment);
        AsciiSource(bs[2..], BlockComment);
        AsciiSource(bs[2..], Code);
      }
      AsciiSource(bs[1..], AfterCode(bs[0]));
      AsciiSource(bs[1..], LineComment);
      AsciiSource(bs[1..], BlockComment);
      AsciiSource(bs[1..], Code);
      if m.Quoted? {
        AsciiSource(bs[1..], AfterQuoted(m, bs[0]));
      }
    }
  }

  /** One accented letter in code is enough to change on every pass. */
  lemma AccentsGrow()
    ensures Strip([0xC3, 0xA9], Code) == Some([0xC3, 0x83, 0xC2, 0xA9])
    ensures Strip([0xC3, 0x83, 0xC2, 0xA9], Code) != Some([0xC3, 0x83, 0xC2, 0xA9])
  {
    var s: seq<byte> := [0xC3, 0xA9];
    assert s[1..] == [0xA9] && [0xA9][1..] == [];
    assert CommentFree([0xA9], Code);
    CommentFreeIsKept(s, Code);
    assert Expand([0xA9]) == [0xC2, 0xA9] && Push(0xC3) == [0xC3, 0x83];
    var t: seq<byte> := [0xC3, 0x83, 0xC2, 0xA9];
    assert Expand(s) == [0xC3, 0x83] + [0xC2, 0xA9] == t;
    assert t[0] == 0xC3;
    if Strip(t, Code) == Some(t) {
      StripTwice(t);
      ExpandSize(t);
    }
  }
}
