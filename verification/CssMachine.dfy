/** What the CSS minifier computes, one byte at a time.

    The code looks two bytes ahead and carries an undecided byte over a buffer's end. Here an
    undecided byte is a mode of its own (`Slash`, `Escape`, `Star`), so that nothing but
    `Enter`, applied when a buffer begins, mentions buffers at all. */
module CssMachine {
  import opened Bytes

  datatype Mode = Plain | Slash | Quote | Escape | Comment | Star

  /** `brace`: inside `{...}`; `quote`: the delimiter of the open string; `pre`: the byte that
      decides whether a blank is dropped; `stale`: `pre` no longer follows the output; `last`:
      the byte written last in this buffer. */
  datatype Css = Css(mode: Mode, brace: bool, quote: byte, pre: byte, stale: bool, last: Option<byte>)

  datatype Step = Step(st: Css, out: seq<byte>)

  const START := Css(Plain, false, '\0', '\0', false, None)

  /** The end of a turn: `pre` follows the output unless it is stale. */
  function Sync(s: Css): Css {
    if s.stale then s else s.(pre := s.last.GetOr(s.pre))
  }

  function Emit(s: Css, out: seq<byte>): Step
    requires out != []
  {
    Step(Sync(s.(last := Last(out))), out)
  }

  function Next(s: Css, b: byte): Step {
    match s.mode
    case Plain => if s.brace then NextBrace(s, b) else NextText(s, b)
    case Slash =>
      if b == '*' then Step(s.(mode := Comment), []) else Emit(s.(mode := Plain), ['/', b])
    case Quote =>
      if b == '\\' then Step(s.(mode := Escape), [])
      else InQuote(s.(mode := if b == s.quote then Plain else Quote), [b])
    case Escape => InQuote(s.(mode := Quote), ['\\', b])
    case Comment => Step(s.(stale := s.brace, mode := if b == '*' then Star else Comment), [])
    case Star =>
      Step(s.(stale := s.brace,
              mode := if b == '/' then Plain else if b == '*' then Star else Comment), [])
  }

  /** Outside braces, quoted bytes do not reach `pre`: it stays the opening quote. */
  function InQuote(s: Css, out: seq<byte>): Step
    requires out != []
  {
    if s.brace then Emit(s, out) else Step(s.(last := Last(out)), out)
  }

  function NextText(s: Css, b: byte): Step {
    if Blank(b) then
      if Blank(s.pre) then Step(Sync(s), []) else Emit(s, [b])
    else if b == '/' then Step(Sync(s.(mode := Slash)), [])
    else if b == '"' || b == '\'' then Emit(s.(mode := Quote, quote := b), [b])
    else if b == '{' then Emit(s.(brace := true), [b])
    else if b == '\n' || b == '\r' then Step(Sync(s), [])
    else Emit(s, [b])
  }

  function NextBrace(s: Css, b: byte): Step {
    if b == '}' then
      var t := Emit(s.(brace := false), [b]);
      t.(st := t.st.(stale := false))
    else if (b == ' ' && s.pre == ' ') || b == '\n' || b == '\r' || b == '\t' then
      Step(Sync(s), [])
    else if b == '/' then Step(Sync(s.(mode := Slash)), [])
    else if b == '"' || b == '\'' then Emit(s.(mode := Quote, quote := b), [b])
    else Emit(s, [b])
  }

  /** The machine over a stretch of bytes inside one buffer. */
  function Run(s: Css, w: seq<byte>): Step
    decreases |w|
  {
    if w == [] then Step(s, [])
    else
      var t := Next(s, w[0]);
      After(t.out, Run(t.st, w[1..]))
  }

  /** `t`, after `out` has been written. */
  function After(out: seq<byte>, t: Step): Step {
    t.(out := out + t.out)
  }

  /** Nothing is written in the new buffer yet; and if it begins inside a string inside
      braces, the main loop and not the brace loop handles the string and sets `nochange_pre`. */
  function Freeze(s: Css): Css {
    if s.brace && (s.mode == Quote || s.mode == Escape) then s.(stale := true) else s
  }

  function Buffer(s: Css, w: seq<byte>): Step {
    if w == [] then Step(s, []) else Run(Freeze(s), w)
  }

  /** The undecided byte of a mode, and the mode before that byte. */
  function Carry(s: Css): seq<byte> {
    match s.mode
    case Slash => ['/']
    case Escape => ['\\']
    case Star => ['*']
    case _ => []
  }

  function Uncarried(s: Css): Css {
    s.(mode := match s.mode case Slash => Plain case Escape => Quote case Star => Comment case m => m)
  }

  /** One buffer of the chain: the carry is put before its bytes. */
  function Chunk(s: Css, w: seq<byte>): Step {
    Buffer(Uncarried(s.(last := None)), Carry(s) + w)
  }

  function Chunks(s: Css, chunks: seq<seq<byte>>): Step
    decreases |chunks|
  {
    if chunks == [] then Step(s, [])
    else
      var t := Chunk(s, chunks[0]);
      After(t.out, Chunks(t.st, chunks[1..]))
  }

  lemma {:induction false} AfterAfter(a: seq<byte>, b: seq<byte>, t: Step)
    ensures After(a, After(b, t)) == After(a + b, t)
  {
  }

  lemma {:induction false} RunOne(s: Css, w: seq<byte>)
    requires w != []
    ensures Run(s, w) == After(Next(s, w[0]).out, Run(Next(s, w[0]).st, w[1..]))
  {
  }

  lemma {:induction false} RunTwo(s: Css, w: seq<byte>)
    requires |w| >= 2
    ensures var t := Next(s, w[0]);
            var u := Next(t.st, w[1]);
            Run(s, w) == After(t.out + u.out, Run(u.st, w[1..][1..]))
  {
    var t := Next(s, w[0]);
    var u := Next(t.st, w[1]);
    RunOne(t.st, w[1..]);
    AfterAfter(t.out, u.out, Run(u.st, w[1..][1..]));
  }

  lemma {:induction false} RunAppend(s: Css, v: seq<byte>, w: seq<byte>)
    ensures Run(s, v + w) == After(Run(s, v).out, Run(Run(s, v).st, w))
    decreases |v|
  {
    if v == [] {
      assert v + w == w;
    } else {
      assert (v + w)[1..] == v[1..] + w;
      RunAppend(Next(s, v[0]).st, v[1..], w);
      AfterAfter(Next(s, v[0]).out, Run(Next(s, v[0]).st, v[1..]).out, Run(Run(s, v).st, w));
    }
  }
}
