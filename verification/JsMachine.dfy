/** What the JavaScript minifier computes, one byte at a time. */
module JsMachine {
  import opened Bytes

  datatype Mode = Plain | Slash | Quote | Escape | Comment | Star | Line

  /** `quote`: the byte that closes the open string; `pre`: the byte that decides whether white
      space is dropped; `last`: the byte written last in this buffer. */
  datatype Js = Js(mode: Mode, quote: byte, pre: byte, last: Option<byte>)

  datatype Step = Step(st: Js, out: seq<byte>)

  const START := Js(Plain, '\0', '\0', None)

  function Wrote(s: Js, out: seq<byte>): Step
    requires out != []
  {
    Step(s.(last := Last(out)), out)
  }

  function Emit(s: Js, out: seq<byte>): Step
    requires out != []
  {
    Wrote(s.(pre := out[|out| - 1]), out)
  }

  function Next(s: Js, b: byte): Step {
    match s.mode
    case Plain => NextPlain(s, b)
    case Slash =>
      if b == '*' then Step(s.(mode := Comment), [])
      else if b == '/' then Step(s.(mode := Line), [])
      else Emit(s.(mode := Plain), ['/', b])
    case Quote =>
      if b == '\\' then Step(s.(mode := Escape), [])
      else Wrote(s.(mode := if b == s.quote then Plain else Quote), [b])
    case Escape => Wrote(s.(mode := Quote), ['\\', b])
    case Comment => Step(s.(mode := if b == '*' then Star else Comment), [])
    case Star => Step(s.(mode := if b == '/' then Plain else if b == '*' then Star else Comment), [])
    case Line =>
      if b == '\n' then Wrote(s.(mode := Plain, pre := '\n'), [' ']) else Step(s, [])
  }

  /** A line may end here without a newline. */
  predicate EndsLine(pre: byte) {
    pre == '\0' || pre == '\n' || pre == ';' || pre == ':' || pre == '{' || pre == '}'
  }

  function NextPlain(s: Js, b: byte): Step {
    if Blank(b) && (s.pre == '\n' || s.last == None || Blank(s.pre)) then Step(s, [])
    else if b == '/' then Step(s.(mode := Slash, pre := s.last.GetOr(s.pre)), [])
    else if b == '"' || b == '\'' || b == '[' then
      Wrote(s.(mode := Quote, quote := if b == '[' then ']' else b), [b])
    else if b == '\n' then
      if EndsLine(s.pre) then Step(s.(pre := '\n'), []) else Emit(s, [b])
    else if b == '\r' then Step(s, [])
    else Emit(s, [b])
  }

  /** The machine over a stretch of bytes inside one buffer. */
  function Run(s: Js, w: seq<byte>): Step
    decreases |w|
  {
    if w == [] then Step(s, [])
    else
      var t := Next(s, w[0]);
      After(t.out, Run(t.st, w[1..]))
  }

  function After(out: seq<byte>, t: Step): Step {
    t.(out := out + t.out)
  }

  /** The undecided byte of a mode, and the mode before that byte. */
  function Carry(s: Js): seq<byte> {
    match s.mode
    case Slash => ['/']
    case Escape => ['\\']
    case Star => ['*']
    case _ => []
  }

  function Uncarried(s: Js): Js {
    s.(mode := match s.mode case Slash => Plain case Escape => Quote case Star => Comment case m => m)
  }

  /** Nothing is written in the new buffer yet. */
  function Enter(s: Js): Js {
    s.(last := None)
  }

  /** One buffer of the chain: the carry is put before its bytes. */
  function Chunk(s: Js, w: seq<byte>): Step {
    Run(Uncarried(Enter(s)), Carry(s) + w)
  }

  function Chunks(s: Js, chunks: seq<seq<byte>>): Step
    decreases |chunks|
  {
    if chunks == [] then Step(s, [])
    else
      var t := Chunk(s, chunks[0]);
      After(t.out, Chunks(t.st, chunks[1..]))
  }

  lemma {:induction false} AfterAfter(a: seq<byte>, b: seq<byte>, t: Step)
    ensures After(a, After(b, t)) == After(a + b, t)
  {
  }

  lemma {:induction false} RunOne(s: Js, w: seq<byte>)
    requires w != []
    ensures Run(s, w) == After(Next(s, w[0]).out, Run(Next(s, w[0]).st, w[1..]))
  {
  }

  lemma {:induction false} RunTwo(s: Js, w: seq<byte>)
    requires |w| >= 2
    ensures var t := Next(s, w[0]);
            var u := Next(t.st, w[1]);
            Run(s, w) == After(t.out + u.out, Run(u.st, w[1..][1..]))
  {
    var t := Next(s, w[0]);
    var u := Next(t.st, w[1]);
    RunOne(t.st, w[1..]);
    AfterAfter(t.out, u.out, Run(u.st, w[1..][1..]));
  }

  /** A carry put before the bytes and a pending mode come to the same. */
  lemma {:induction false} ChunkEnters(s: Js, w: seq<byte>)
    ensures Chunk(s, w) == Run(Enter(s), w)
  {
    var c := Carry(s);
    if c != [] {
      RunOne(Uncarried(Enter(s)), c + w);
      assert (c + w)[1..] == w;
    } else {
      assert c + w == w;
    }
  }

  lemma {:induction false} RunAppend(s: Js, v: seq<byte>, w: seq<byte>)
    ensures Run(s, v + w) == After(Run(s, v).out, Run(Run(s, v).st, w))
    decreases |v|
  {
    if v == [] {
      assert v + w == w;
    } else {
      assert (v + w)[1..] == v[1..] + w;
      RunAppend(Next(s, v[0]).st, v[1..], w);
      AfterAfter(Next(s, v[0]).out, Run(Next(s, v[0]).st, v[1..]).out, Run(Run(s, v).st, w));
    }
  }
}
