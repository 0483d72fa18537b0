/** mod_strip: a one-pass transducer over the bytes of an HTML response. */
module StripMachine {
  import opened Bytes
  import opened Buffers

  datatype State =
    | Text | TextWhitespace
    | Tag | TagName | TagWhitespace | TagAttributeName | TagAttributeEquals | TagAttributeValue
    | TagAttributeValueDoubleQuote | TagAttributeValueSingleQuote
    | EndTag | EndTagName
    | Comment | CommentDash | CommentDashDash
    | TagBang | TagBangDash | TagBangStuff
    | TagBangBracket | TagBangBracketC | TagBangBracketCd | TagBangBracketCda | TagBangBracketCdat
    | TagBangBracketCdata | Cdata | CdataBracket | CdataBracketBracket
    | TagNameP | TagNamePr | TagNamePre
    | Preformatted | PreformattedAngle | PreformattedAngleSlash | PreformattedAngleSlashP
    | PreformattedAngleSlashPr | PreformattedAngleSlashPre
    | Abort

  /** The byte is written, if at all, as `out`: one case overwrites what it read. */
  datatype Step = Step(st: State, out: seq<byte>)

  predicate IsLetter(b: byte) {
    'a' <= b <= 'z' || 'A' <= b <= 'Z'
  }

  function Next(s: State, b: byte): Step {
    match s
    case Abort => Step(Abort, [b])
    case Text =>
      if b == '\r' || b == '\n' || b == '\t' then Step(Text, [])
      else Step(if b == '<' then Tag else if b == ' ' then TextWhitespace else Text, [b])
    case TextWhitespace =>
      if White(b) then Step(TextWhitespace, []) else Step(if b == '<' then Tag else Text, [b])
    case Tag =>
      Step(if b == '!' then TagBang
           else if b == '/' then EndTag
           else if b == 'p' || b == 'P' then TagNameP
           else if b == ' ' then Tag
           else if IsLetter(b) then TagName
           else Abort, [b])
    case TagName => Step(if b == '>' then Text else if b == ' ' then TagWhitespace else TagName, [b])
    case TagNameP => Step(AfterName(b, if b == 'r' || b == 'R' then TagNamePr else TagName), [b])
    case TagNamePr => Step(AfterName(b, if b == 'e' || b == 'E' then TagNamePre else TagName), [b])
    case TagNamePre => Step(if b == ' ' || b == '>' then Preformatted else TagName, [b])
    case Preformatted => Step(if b == '<' then PreformattedAngle else Preformatted, [b])
    case PreformattedAngle => Step(if b == '/' then PreformattedAngleSlash else Preformatted, [b])
    case PreformattedAngleSlash =>
      Step(if b == 'p' || b == 'P' then PreformattedAngleSlashP else Preformatted, [b])
    case PreformattedAngleSlashP =>
      Step(if b == 'r' || b == 'R' then PreformattedAngleSlashPr else Preformatted, [b])
    case PreformattedAngleSlashPr =>
      Step(if b == 'e' || b == 'E' then PreformattedAngleSlashPre else Preformatted, [b])
    case PreformattedAngleSlashPre => Step(if b == '>' then Text else Preformatted, [b])
    // the case of '[' has no break: it goes on into the default
    case TagBang => Step(if b == '-' then TagBangDash else TagBangStuff, [b])
    case TagBangBracket => Step(if b == 'C' then TagBangBracketC else TagBangStuff, [b])
    case TagBangBracketC => Step(if b == 'D' then TagBangBracketCd else TagBangStuff, [b])
    case TagBangBracketCd => Step(if b == 'A' then TagBangBracketCda else TagBangStuff, [b])
    case TagBangBracketCda => Step(if b == 'T' then TagBangBracketCdat else TagBangStuff, [b])
    case TagBangBracketCdat => Step(if b == 'A' then TagBangBracketCdata else TagBangStuff, [b])
    case TagBangBracketCdata => Step(if b == '[' then Cdata else TagBangStuff, [b])
    case Cdata => Step(if b == ']' then CdataBracket else Cdata, [b])
    case CdataBracket => Step(if b == ']' then CdataBracketBracket else Cdata, [b])
    // an assignment where a comparison was meant
    case CdataBracketBracket => Step(Text, ['>'])
    case TagBangDash => Step(if b == '-' then Comment else TagBangStuff, [b])
    case TagBangStuff => Step(if b == '>' then Text else TagBangStuff, [b])
    case Comment => Step(if b == '-' then CommentDash else Comment, [b])
    case CommentDash => Step(if b == '-' then CommentDashDash else Comment, [b])
    case CommentDashDash => Step(if b == '>' then Text else Comment, [b])
    case EndTag => if b == ' ' then Step(EndTag, []) else Step(EndTagName, [b])
    case EndTagName => Step(if b == '>' then Text else EndTagName, [b])
    case TagWhitespace =>
      if b == ' ' then Step(TagWhitespace, [])
      else Step(if b == '>' then Text else TagAttributeName, [b])
    case TagAttributeName =>
      Step(if b == '=' then TagAttributeEquals else AfterName(b, TagAttributeName), [b])
    case TagAttributeEquals =>
      Step(if b == '"' then TagAttributeValueDoubleQuote
           else if b == '\'' then TagAttributeValueSingleQuote
           else TagAttributeValue, [b])
    case TagAttributeValue => Step(AfterName(b, TagAttributeValue), [b])
    case TagAttributeValueDoubleQuote =>
      Step(if b == '"' then TagAttributeValue else TagAttributeValueDoubleQuote, [b])
    case TagAttributeValueSingleQuote =>
      Step(if b == '\'' then TagAttributeValue else TagAttributeValueSingleQuote, [b])
  }

  /** The end of a name or a value, or `on`. */
  function AfterName(b: byte, on: State): State {
    if b == '>' then Text else if b == ' ' then TagWhitespace else on
  }

  function Run(s: State, w: seq<byte>): Step
    decreases |w|
  {
    if w == [] then Step(s, [])
    else
      var t := Next(s, w[0]);
      var u := Run(t.st, w[1..]);
      u.(out := t.out + u.out)
  }

  class Context {
    var state: State

    constructor ()
      ensures state == Text
    {
      state := Text;
    }
  }

  lemma {:induction false} RunSnoc(s: State, w: seq<byte>, b: byte)
    ensures var t := Run(s, w);
            var n := Next(t.st, b);
            Run(s, w + [b]) == Step(n.st, t.out + n.out)
    decreases |w|
  {
    RunAppend(s, w, [b]);
    assert [b][1..] == [];
  }

  /** Two consecutive buffers give exactly the result of their concatenation. */
  lemma {:induction false} RunAppend(s: State, v: seq<byte>, w: seq<byte>)
    ensures var t := Run(s, v);
            var u := Run(t.st, w);
            Run(s, v + w) == Step(u.st, t.out + u.out)
    decreases |v|
  {
    hide Next;
    if v == [] {
      assert v + w == w;
    } else {
      assert (v + w)[1..] == v[1..] + w;
      RunAppend(Next(s, v[0]).st, v[1..], w);
    }
  }

  lemma {:induction false} NextShort(s: State, b: byte)
    ensures |Next(s, b).out| <= 1
  {
  }

  lemma {:induction false} RunNothing(s: State)
    ensures Run(s, []) == Step(s, [])
  {
  }

  /** `ngx_http_strip_process_buffer`: the writer never overtakes the reader. */
  method ProcessBuffer(b: Buf, ctx: Context)
    requires b.Valid()
    modifies b.data, b`last, ctx
    ensures b.Valid()
    ensures Step(ctx.state, b.Bytes()) == Run(old(ctx.state), old(b.Bytes()))
  {
    hide Next, Run;
    ghost var w := b.Bytes();
    RunNothing(ctx.state);
    var writer, reader := 0, 0;
    while reader < b.last
      invariant b.last == |w| && 0 <= writer <= reader <= b.last && b.Valid()
      invariant b.data[reader..b.last] == w[reader..]
      invariant Step(ctx.state, b.data[..writer]) == Run(old(ctx.state), w[..reader])
    {
      assert b.data[reader] == b.data[reader..b.last][0];
      var n := Next(ctx.state, b.data[reader]);
      RunSnoc(old(ctx.state), w[..reader], w[reader]);
      NextShort(ctx.state, w[reader]);
      ghost var done := b.data[..writer];
      ctx.state := n.st;
      reader := reader + 1;
      assert w[..reader] == w[..reader - 1] + [w[reader - 1]];
      if n.out != [] {
        b.data[writer] := n.out[0];
        writer := writer + 1;
        assert b.data[..writer] == done + [n.out[0]];
        assert n.out == [n.out[0]];
      }
      assert b.data[..writer] == done + n.out;
      assert b.data[reader..b.last] == w[reader..];
    }
    assert w[..reader] == w;
    b.last := writer;
  }
}
