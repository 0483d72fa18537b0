/** Streaming correctness of the JavaScript minifier: however the input is cut into buffers, the
    output is the uncommented input with nothing but soft white space left out; and when the
    place of a cut shows. */
module JsStreams {
  import opened Bytes
  import opened Thinning
  import opened JsMachine
  import R = Reference

  // ---------- the machine follows the tokens ----------

  function ModeOf(t: R.Tail): Mode {
    match t
    case Done => Plain
    case HalfPair => Slash
    case OpenStr(_, _, escape) => if escape then Escape else Quote
    case OpenNote(_) => if R.TailCarry(t) == [] then Comment else Star
    case OpenLine(_) => Line
  }

  /** The lexical state is a function of the bytes read, wherever the buffers end. */
  ghost predicate Tracks(s: Js, x: R.Text) {
    && s.mode == ModeOf(x.tail)
    && (x.tail.OpenStr? ==> s.quote == R.Closer(x.tail.q))
  }

  lemma {:induction false} NextTracks(s: Js, x: R.Text, b: byte)
    requires Tracks(s, x) && R.TextOk(R.JsRules, x)
    ensures Tracks(Next(s, b).st, R.Extend(R.JsRules, x, b))
  {
  }

  lemma {:induction false} NextThins(s: Js, x: R.Text, b: byte)
    requires Tracks(s, x) && R.TextOk(R.JsRules, x)
    ensures Thins(R.Gain(R.JsRules, x, b), Next(s, b).out)
  {
    var items, out := R.Gain(R.JsRules, x, b), Next(s, b).out;
    if |items| == 2 {
      assert out == [items[0].b, items[1].b];
      assert Thins(items[1..][1..], out[1..][1..]);
      assert Thins(items[1..], out[1..]);
    } else if |items| == 1 {
      assert Thins(items[1..], []);
      if out != [] {
        assert out == [items[0].b] && out[1..] == [];
      }
    }
  }

  /** `s` has read `v` and written `out`. */
  ghost predicate Follows(s: Js, v: seq<byte>, out: seq<byte>) {
    Tracks(s, R.Parse(R.JsRules, v)) && Thins(R.Uncommented(R.Parse(R.JsRules, v)), out)
  }

  lemma {:induction false} NextFollows(s: Js, v: seq<byte>, out: seq<byte>, b: byte)
    requires Follows(s, v, out)
    ensures Follows(Next(s, b).st, v + [b], out + Next(s, b).out)
  {
    hide R.Parse, R.Uncommented, R.Extend, R.Gain, Next, Tracks;
    var x := R.Parse(R.JsRules, v);
    R.ParseSpells(R.JsRules, v);
    R.ParseOk(R.JsRules, v, b);
    R.ParseSnoc(R.JsRules, v, b);
    NextTracks(s, x, b);
    NextThins(s, x, b);
    ThinsAppend(R.Uncommented(x), out, R.Gain(R.JsRules, x, b), Next(s, b).out);
  }

  lemma {:induction false} RunFollows(s: Js, v: seq<byte>, out: seq<byte>, w: seq<byte>)
    requires Follows(s, v, out)
    ensures Follows(Run(s, w).st, v + w, out + Run(s, w).out)
    decreases |w|
  {
    hide Follows;
    if w == [] {
      assert v + w == v && out + [] == out;
    } else {
      var t := Next(s, w[0]);
      NextFollows(s, v, out, w[0]);
      RunFollows(t.st, v + [w[0]], out + t.out, w[1..]);
      assert v + [w[0]] + w[1..] == v + w;
      assert out + t.out + Run(t.st, w[1..]).out == out + (t.out + Run(t.st, w[1..]).out);
    }
  }

  lemma {:induction false} ChunkFollows(s: Js, v: seq<byte>, out: seq<byte>, w: seq<byte>)
    requires Follows(s, v, out)
    ensures Follows(Chunk(s, w).st, v + w, out + Chunk(s, w).out)
  {
    hide Chunk, Run, R.Parse, R.Uncommented;
    ChunkEnters(s, w);
    RunFollows(Enter(s), v, out, w);
  }

  lemma {:induction false} ChunksFollow(s: Js, v: seq<byte>, out: seq<byte>, chunks: seq<seq<byte>>)
    requires Follows(s, v, out)
    ensures Follows(Chunks(s, chunks).st, v + Concat(chunks), out + Chunks(s, chunks).out)
    decreases |chunks|
  {
    hide Follows, Chunk;
    if chunks == [] {
      assert v + Concat(chunks) == v && out + [] == out;
    } else {
      var w, t := chunks[0], Chunk(s, chunks[0]);
      ChunkFollows(s, v, out, w);
      ChunksFollow(t.st, v + w, out + t.out, chunks[1..]);
      assert v + w + Concat(chunks[1..]) == v + Concat(chunks);
      assert out + t.out + Chunks(t.st, chunks[1..]).out == out + Chunks(s, chunks).out;
    }
  }

  /** Streaming correctness, for every input and every cutting, empty buffers included. */
  lemma {:induction false} Streaming(chunks: seq<seq<byte>>)
    ensures var t := Chunks(START, chunks);
            var x := R.Parse(R.JsRules, Concat(chunks));
            Tracks(t.st, x) && Carry(t.st) == R.TailCarry(x.tail) && Thins(R.Uncommented(x), t.out)
  {
    var t := Chunks(START, chunks);
    hide Chunks, R.Parse, R.Uncommented;
    R.ParseNothing(R.JsRules);
    ChunksFollow(START, [], [], chunks);
    assert [] + Concat(chunks) == Concat(chunks) && [] + t.out == t.out;
  }

  /** Two cuttings of one input differ in white space alone, and end in the same lexical state. */
  lemma {:induction false} TwoCuttings(c: seq<seq<byte>>, d: seq<seq<byte>>)
    requires Concat(c) == Concat(d)
    ensures var t, u := Chunks(START, c), Chunks(START, d);
            Solid(t.out) == Solid(u.out) && Carry(t.st) == Carry(u.st) && t.st.mode == u.st.mode
  {
    var x := R.Parse(R.JsRules, Concat(c));
    Streaming(c);
    Streaming(d);
    R.SoftItems(x);
    ThinsKeepsSolid(R.Uncommented(x), Chunks(START, c).out);
    ThinsKeepsSolid(R.Uncommented(x), Chunks(START, d).out);
  }

  // ---------- when a cut shows ----------

  predicate Held(m: Mode) {
    m == Quote || m == Escape || m == Line
  }

  /** A cut is hidden if nothing was written in the buffer yet, if the next byte written will hide
      it, or if white space is being dropped anyway and stays dropped after a comment. */
  predicate CutHides(s: Js) {
    || s.last == None
    || Held(s.mode)
    || (s.last.Some? && ((Blank(s.pre) && Blank(s.last.value)) || (s.pre == '\n' && s.last.value == '\n')))
  }

  /** `b` is `a` after a cut, or both decide alike. */
  ghost predicate Alike(a: Js, b: Js) {
    && a.mode == b.mode && a.quote == b.quote
    && (a.pre == b.pre || (Blank(a.pre) && Blank(b.pre)))
    && (a.last == b.last || Held(a.mode)
        || (b.last == None && a.last.Some?
            && ((Blank(a.pre) && Blank(a.last.value)) || (a.pre == '\n' && a.last.value == '\n'))))
  }

  lemma {:induction false} NextAlike(a: Js, b: Js, c: byte)
    requires Alike(a, b)
    ensures Alike(Next(a, c).st, Next(b, c).st) && Next(a, c).out == Next(b, c).out
  {
  }

  lemma {:induction false} RunAlike(a: Js, b: Js, w: seq<byte>)
    requires Alike(a, b)
    ensures Run(a, w).out == Run(b, w).out && Alike(Run(a, w).st, Run(b, w).st)
    decreases |w|
  {
    hide Alike, Next;
    if w != [] {
      NextAlike(a, b, w[0]);
      RunAlike(Next(a, w[0]).st, Next(b, w[0]).st, w[1..]);
    }
  }

  /** The rest of a comment, or of one that a slash may begin. */
  function Close(m: Mode): seq<byte> {
    match m
    case Slash => ['*', '*', '/']
    case Comment => ['*', '/']
    case Star => ['/']
    case _ => []
  }

  lemma {:induction false} Closes(s: Js)
    requires !Held(s.mode)
    ensures Run(s, Close(s.mode)) == Step(s.(mode := Plain), [])
  {
    if s.mode == Star {
      RunOne(s, ['/']);
    } else if s.mode == Comment {
      RunTwo(s, ['*', '/']);
    } else if s.mode == Slash {
      RunOne(s, ['*', '*', '/']);
      assert ['*', '*', '/'][1..] == ['*', '/'];
      RunTwo(s.(mode := Comment), ['*', '/']);
    }
  }

  /** An empty comment makes `pre_char` the byte written last in this buffer. */
  lemma {:induction false} EmptyComment(s: Js)
    requires s.mode == Plain
    ensures Run(s, ['/', '*', '*', '/']) == Step(s.(pre := s.last.GetOr(s.pre)), [])
  {
    RunOne(s, ['/', '*', '*', '/']);
    assert ['/', '*', '*', '/'][1..] == ['*', '*', '/'];
    Closes(Next(s, '/').st);
  }

  lemma {:induction false} CommentThen(s: Js, x: byte)
    requires s.mode == Plain
    ensures Run(s, ['/', '*', '*', '/'] + [x]).out == Next(s.(pre := s.last.GetOr(s.pre)), x).out
  {
    var a := s.(pre := s.last.GetOr(s.pre));
    EmptyComment(s);
    RunAppend(s, ['/', '*', '*', '/'], [x]);
    RunOne(a, [x]);
    assert [x][1..] == [];
  }

  function PlainTelltale(s: Js): seq<byte> {
    if !Blank(s.pre) && s.pre != '\n' then [' ']
    else if s.last != Some('\n') && (s.last.None? || !Blank(s.last.value)) then ['/', '*', '*', '/'] + [' ']
    else ['/', '*', '*', '/'] + ['\n']
  }

  /** An input on which a cut that shows changes the output. */
  function Telltale(s: Js): seq<byte> {
    Close(s.mode) + PlainTelltale(s)
  }

  lemma {:induction false} PlainTells(s: Js)
    requires s.mode == Plain && !CutHides(s)
    ensures Run(Enter(s), PlainTelltale(s)).out != Run(s, PlainTelltale(s)).out
  {
    if !Blank(s.pre) && s.pre != '\n' {
      RunOne(s, [' ']);
      RunOne(Enter(s), [' ']);
    } else {
      var x := if s.last != Some('\n') && !Blank(s.last.value) then ' ' else '\n';
      CommentThen(s, x);
      CommentThen(Enter(s), x);
    }
  }

  lemma {:induction false} Tells(s: Js)
    requires !CutHides(s)
    ensures Run(Enter(s), Telltale(s)).out != Run(s, Telltale(s)).out
  {
    var p := s.(mode := Plain);
    Closes(s);
    Closes(Enter(s));
    RunAppend(s, Close(s.mode), PlainTelltale(s));
    RunAppend(Enter(s), Close(s.mode), PlainTelltale(s));
    PlainTells(p);
    assert [] + Run(p, PlainTelltale(s)).out == Run(p, PlainTelltale(s)).out;
    assert [] + Run(Enter(p), PlainTelltale(s)).out == Run(Enter(p), PlainTelltale(s)).out;
  }

  /** Exactly when a cut is invisible: it changes the output of no continuation if and only if
      the state there is one of those that hide it. */
  lemma {:induction false} CutInvisible(s: Js)
    ensures (forall w :: Run(Enter(s), w).out == Run(s, w).out) <==> CutHides(s)
  {
    if CutHides(s) {
      forall w ensures Run(Enter(s), w).out == Run(s, w).out {
        RunAlike(s, Enter(s), w);
      }
    } else {
      Tells(s);
    }
  }

  // ---------- byte for byte ----------

  /** Every buffer begins at a state that hides it. */
  ghost predicate GoodCuts(s: Js, chunks: seq<seq<byte>>)
    decreases |chunks|
  {
    chunks != [] ==> CutHides(s) && GoodCuts(Chunk(s, chunks[0]).st, chunks[1..])
  }

  lemma {:induction false} EnterAlike(u: Js, s: Js)
    requires Alike(u, s) && CutHides(s)
    ensures Alike(u, Enter(s))
  {
  }

  lemma {:induction false} GoodCutsRun(u: Js, s: Js, chunks: seq<seq<byte>>)
    requires Alike(u, s) && GoodCuts(s, chunks)
    ensures Chunks(s, chunks).out == Run(u, Concat(chunks)).out
    decreases |chunks|
  {
    hide Alike, CutHides, Run, Chunk;
    if chunks == [] {
      RunNothing(u);
    } else {
      var w := chunks[0];
      ChunkEnters(s, w);
      EnterAlike(u, s);
      RunAlike(u, Enter(s), w);
      GoodCutsRun(Run(u, w).st, Chunk(s, w).st, chunks[1..]);
      RunAppend(u, w, Concat(chunks[1..]));
    }
  }

  lemma {:induction false} RunNothing(s: Js)
    ensures Run(s, []) == Step(s, [])
  {
  }

  /** Exact chunk independence: if every cut is hidden, the cutting gives the bytes of the uncut run. */
  lemma {:induction false} ChunkIndependence(chunks: seq<seq<byte>>)
    requires GoodCuts(START, chunks)
    ensures Chunks(START, chunks).out == Chunks(START, [Concat(chunks)]).out
  {
    hide Run, Chunk;
    var w := Concat(chunks);
    GoodCutsRun(START, START, chunks);
    ChunkEnters(START, w);
    assert [w][1..] == [] && Chunk(START, w).out + [] == Chunk(START, w).out;
  }

  lemma {:induction false} ChunksFirst(s: Js, w: seq<byte>, rest: seq<seq<byte>>)
    ensures var t := Chunk(s, w); Chunks(s, [w] + rest) == After(t.out, Chunks(t.st, rest))
    ensures Concat([w] + rest) == w + Concat(rest)
  {
    assert ([w] + rest)[1..] == rest;
  }

  lemma {:induction false} GoodPrefix(s: Js, chunks: seq<seq<byte>>, k: nat, w: seq<byte>)
    requires GoodCuts(s, chunks) && k < |chunks|
    ensures GoodCuts(s, chunks[..k] + [w])
    decreases k
  {
    hide CutHides, Chunk;
    if k == 0 {
      assert chunks[..0] + [w] == [w] && [w][1..] == [];
    } else {
      GoodPrefix(Chunk(s, chunks[0]).st, chunks[1..], k - 1, w);
      assert (chunks[..k] + [w])[1..] == chunks[1..][..k - 1] + [w];
    }
  }

  /** Up to a cut that shows, the run and the chain decide alike; so a telltale shows there. */
  lemma {:induction false} BadPrefix(u: Js, s: Js, chunks: seq<seq<byte>>) returns (k: nat, w: seq<byte>)
    requires Alike(u, s) && !GoodCuts(s, chunks)
    ensures k < |chunks| && Chunks(s, chunks[..k] + [w]).out != Run(u, Concat(chunks[..k] + [w])).out
    decreases |chunks|
  {
    hide Alike, CutHides, Run, Chunk, Telltale, Chunks, Concat;
    if !CutHides(s) {
      k, w := 0, Telltale(s);
      Tells(s);
      RunAlike(u, s, w);
      ChunkEnters(s, w);
      assert chunks[..0] + [w] == [w] + [];
      ChunksFirst(s, w, []);
      ChunksNone(Chunk(s, w).st);
      assert w + [] == w && Chunk(s, w).out + [] == Chunk(s, w).out;
    } else {
      var v := chunks[0];
      ChunkEnters(s, v);
      EnterAlike(u, s);
      RunAlike(u, Enter(s), v);
      var t := Chunk(s, v);
      k, w := BadPrefix(Run(u, v).st, t.st, chunks[1..]);
      var rest := chunks[1..][..k] + [w];
      assert chunks[..k + 1] + [w] == [v] + rest;
      ChunksFirst(s, v, rest);
      RunAppend(u, v, Concat(rest));
      var a, b := Chunks(t.st, rest).out, Run(Run(u, v).st, Concat(rest)).out;
      assert (t.out + a)[|t.out|..] == a && (t.out + b)[|t.out|..] == b;
      k := k + 1;
    }
  }

  lemma {:induction false} ChunksNone(s: Js)
    ensures Chunks(s, []) == Step(s, []) && Concat<byte>([]) == []
  {
  }

  /** Exactly when the cuts of a chain are invisible: whatever follows any of its buffers, the chain gives the
      bytes of the uncut input, if and only if every cut is hidden. */
  lemma {:induction false} GoodCutsIff(s: Js, chunks: seq<seq<byte>>)
    ensures GoodCuts(s, chunks) <==>
            forall k, w :: 0 <= k < |chunks| ==>
              Chunks(s, chunks[..k] + [w]).out == Run(s, Concat(chunks[..k] + [w])).out
  {
    hide GoodCuts, Chunks, Run, Concat;
    if GoodCuts(s, chunks) {
      forall k, w | 0 <= k < |chunks|
        ensures Chunks(s, chunks[..k] + [w]).out == Run(s, Concat(chunks[..k] + [w])).out
      {
        GoodPrefix(s, chunks, k, w);
        GoodCutsRun(s, s, chunks[..k] + [w]);
      }
    } else {
      var k, w := BadPrefix(s, s, chunks);
      assert Chunks(s, chunks[..k] + [w]).out != Run(s, Concat(chunks[..k] + [w])).out;
    }
  }

  // ---------- the same, in terms of the input alone ----------

  /** The text `v` ends with a byte outside strings and pairs that does not end a line by itself. */
  ghost predicate EndsWord(v: seq<byte>) {
    var x := R.Parse(R.JsRules, v);
    v != [] && !White(v[|v| - 1]) && !EndsLine(v[|v| - 1])
    && x.tail.Done? && x.tokens != [] && x.tokens[|x.tokens| - 1] == R.Byte(v[|v| - 1])
  }

  /** It ends with a string or a line comment that is open, or with a newline behind such a byte. */
  ghost predicate HiddenAt(v: seq<byte>) {
    var x := R.Parse(R.JsRules, v);
    x.tail.OpenStr? || x.tail.OpenLine? || (v != [] && v[|v| - 1] == '\n' && EndsWord(v[..|v| - 1]))
  }

  ghost predicate HiddenCuts(v: seq<byte>, chunks: seq<seq<byte>>)
    decreases |chunks|
  {
    chunks != [] ==> (v == [] || HiddenAt(v)) && HiddenCuts(v + chunks[0], chunks[1..])
  }

  /** What `pre` and `last` are there. */
  ghost predicate Explains(s: Js, v: seq<byte>) {
    && Tracks(s, R.Parse(R.JsRules, v)) && (v == [] ==> s.last == None)
    && (EndsWord(v) ==> s.pre == v[|v| - 1])
    && (v != [] && v[|v| - 1] == '\n' && EndsWord(v[..|v| - 1]) ==>
          s.pre == '\n' && (s.last == None || s.last == Some('\n')))
  }

  lemma {:induction false} NextWord(s: Js, x: R.Text, b: byte)
    requires Tracks(s, x) && !White(b)
    requires var y := R.Extend(R.JsRules, x, b);
             y.tail.Done? && y.tokens != [] && y.tokens[|y.tokens| - 1] == R.Byte(b) && |y.tokens| == |x.tokens| + 1
    ensures Next(s, b).st.pre == b
  {
  }

  lemma {:induction false} ExtendGrows(x: R.Text, b: byte)
    ensures var y := R.Extend(R.JsRules, x, b);
            y.tokens == x.tokens || |y.tokens| == |x.tokens| + 1
    ensures var y := R.Extend(R.JsRules, x, b);
            y.tail.Done? ==> |y.tokens| == |x.tokens| + 1
  {
  }

  lemma {:induction false} NextHides(s: Js, v: seq<byte>, b: byte)
    requires Explains(s, v)
    ensures Explains(Next(s, b).st, v + [b])
  {
    hide R.Parse, R.Extend, Next, Tracks;
    var x, u := R.Parse(R.JsRules, v), v + [b];
    R.ParseSpells(R.JsRules, v);
    R.ParseSnoc(R.JsRules, v, b);
    NextTracks(s, x, b);
    ExtendGrows(x, b);
    assert u[..|u| - 1] == v && u[|u| - 1] == b;
    if EndsWord(u) {
      NextWord(s, x, b);
    }
    if b == '\n' && EndsWord(v) {
      NewlineKept(s, x);
    }
  }

  lemma {:induction false} NewlineKept(s: Js, x: R.Text)
    requires Tracks(s, x) && x.tail.Done? && !EndsLine(s.pre)
    ensures var t := Next(s, '\n').st; t.pre == '\n' && t.last == Some('\n')
  {
  }

  lemma {:induction false} RunHides(s: Js, v: seq<byte>, w: seq<byte>)
    requires Explains(s, v)
    ensures Explains(Run(s, w).st, v + w)
    decreases |w|
  {
    hide Explains, Next;
    if w == [] {
      assert v + w == v;
    } else {
      NextHides(s, v, w[0]);
      RunHides(Next(s, w[0]).st, v + [w[0]], w[1..]);
      assert v + [w[0]] + w[1..] == v + w;
    }
  }

  lemma {:induction false} HiddenIsGood(s: Js, v: seq<byte>, chunks: seq<seq<byte>>)
    requires Explains(s, v) && HiddenCuts(v, chunks)
    ensures GoodCuts(s, chunks)
    decreases |chunks|
  {
    hide Run, R.Parse, EndsWord, Chunk;
    if chunks != [] {
      ChunkEnters(s, chunks[0]);
      RunHides(Enter(s), v, chunks[0]);
      HiddenIsGood(Chunk(s, chunks[0]).st, v + chunks[0], chunks[1..]);
    }
  }

  /** In terms of the input: if every cut falls into a string or a line comment, or behind a newline that is
      needed to end a line, the cutting does not show. */
  lemma {:induction false} HiddenCutsDoNotShow(chunks: seq<seq<byte>>)
    requires HiddenCuts([], chunks)
    ensures Chunks(START, chunks).out == Chunks(START, [Concat(chunks)]).out
  {
    R.ParseNothing(R.JsRules);
    HiddenIsGood(START, [], chunks);
    ChunkIndependence(chunks);
  }
}
