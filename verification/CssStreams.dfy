/** Streaming correctness of the CSS minifier: however the input is cut into buffers, the output
    is the uncommented input with nothing but soft white space left out. */
module CssStreams {
  import opened Bytes
  import opened Thinning
  import opened CssMachine
  import R = Reference

  // ---------- states that runs reach ----------

  ghost predicate InString(m: Mode) {
    m == Quote || m == Escape
  }

  /** `pre` is stale, or equal to the byte written last; outside braces a string keeps it at the
      opening quote, and right after a stale block it may differ from the `}`. */
  ghost predicate Reachable(s: Css) {
    && (s.stale ==> s.brace)
    && (s.brace && s.mode == Star ==> s.stale)
    && (InString(s.mode) ==> R.IsQuote(R.CssRules, s.quote))
    && (if !s.brace && InString(s.mode) then
          s.pre == s.quote
        else
          s.stale || s.last.GetOr(s.pre) == s.pre || (!s.brace && s.mode == Plain && s.last == Some('}')))
  }

  lemma {:induction false} NextReachable(s: Css, b: byte)
    requires Reachable(s)
    ensures Reachable(Next(s, b).st)
  {
  }

  lemma {:induction false} RunReachable(s: Css, w: seq<byte>)
    requires Reachable(s)
    ensures Reachable(Run(s, w).st)
    decreases |w|
  {
    if w != [] {
      NextReachable(s, w[0]);
      RunReachable(Next(s, w[0]).st, w[1..]);
    }
  }

  /** How a buffer is entered. */
  function Enter(s: Css): Css {
    Freeze(s.(last := None))
  }

  /** A carry put before the bytes and a pending mode come to the same. */
  lemma {:induction false} ChunkEnters(s: Css, w: seq<byte>)
    requires Reachable(s)
    ensures Chunk(s, w) == if Carry(s) + w == [] then Step(s.(last := None), []) else Run(Enter(s), w)
    ensures Reachable(Chunk(s, w).st)
  {
    var c := Carry(s);
    if c != [] {
      RunOne(Freeze(Uncarried(s.(last := None))), c + w);
      assert (c + w)[1..] == w;
    } else {
      assert c + w == w;
    }
    RunReachable(Enter(s), w);
  }

  lemma {:induction false} ChunksReachable(s: Css, chunks: seq<seq<byte>>)
    requires Reachable(s)
    ensures Reachable(Chunks(s, chunks).st)
    decreases |chunks|
  {
    if chunks != [] {
      ChunkEnters(s, chunks[0]);
      ChunksReachable(Chunk(s, chunks[0]).st, chunks[1..]);
    }
  }

  // ---------- the machine follows the tokens ----------

  /** The last brace among the tokens is an opening one. */
  function Braced(ts: seq<R.Token>): bool {
    if ts == [] then false
    else if ts[|ts| - 1] == R.Byte('{') then true
    else if ts[|ts| - 1] == R.Byte('}') then false
    else Braced(ts[..|ts| - 1])
  }

  lemma {:induction false} BracedSnoc(ts: seq<R.Token>, t: R.Token)
    ensures Braced(ts + [t]) == (t == R.Byte('{') || (t != R.Byte('}') && Braced(ts)))
  {
    assert (ts + [t])[..|ts|] == ts;
  }

  function ModeOf(t: R.Tail): Mode {
    match t
    case Done => Plain
    case HalfPair => Slash
    case OpenStr(_, _, escape) => if escape then Escape else Quote
    case OpenNote(_) => if R.TailCarry(t) == [] then Comment else Star
    case OpenLine(_) => Comment  // JavaScript only
  }

  /** The lexical state is a function of the bytes read, wherever the buffers end. */
  ghost predicate Tracks(s: Css, x: R.Text) {
    && s.mode == ModeOf(x.tail)
    && s.brace == Braced(x.tokens)
    && (x.tail.OpenStr? ==> s.quote == x.tail.q)
  }

  lemma {:induction false} NextTracks(s: Css, x: R.Text, b: byte)
    requires Tracks(s, x) && R.TextOk(R.CssRules, x)
    ensures Tracks(Next(s, b).st, R.Extend(R.CssRules, x, b))
  {
    hide Braced;
    var ts := R.Extend(R.CssRules, x, b).tokens;
    if |ts| > |x.tokens| {
      BracedSnoc(x.tokens, ts[|x.tokens|]);
    }
  }

  lemma {:induction false} NextThins(s: Css, x: R.Text, b: byte)
    requires Tracks(s, x) && R.TextOk(R.CssRules, x)
    ensures Thins(R.Gain(R.CssRules, x, b), Next(s, b).out)
  {
    var items, out := R.Gain(R.CssRules, x, b), Next(s, b).out;
    if |items| == 2 {
      assert out == [items[0].b, items[1].b];
      assert Thins(items[1..][1..], out[1..][1..]);
      assert Thins(items[1..], out[1..]);
    } else if |items| == 1 {
      assert Thins(items[1..], []);
      if out != [] {
        assert out == [b] && out[1..] == [];
      }
    }
  }

  /** `s` has read `v` and written `out`. */
  ghost predicate Follows(s: Css, v: seq<byte>, out: seq<byte>) {
    Tracks(s, R.Parse(R.CssRules, v)) && Thins(R.Uncommented(R.Parse(R.CssRules, v)), out)
  }

  lemma {:induction false} NextFollows(s: Css, v: seq<byte>, out: seq<byte>, b: byte)
    requires Follows(s, v, out)
    ensures Follows(Next(s, b).st, v + [b], out + Next(s, b).out)
  {
    hide R.Parse, R.Uncommented, R.Extend, R.Gain, Next, Tracks;
    var x := R.Parse(R.CssRules, v);
    R.ParseSpells(R.CssRules, v);
    R.ParseOk(R.CssRules, v, b);
    R.ParseSnoc(R.CssRules, v, b);
    NextTracks(s, x, b);
    NextThins(s, x, b);
    ThinsAppend(R.Uncommented(x), out, R.Gain(R.CssRules, x, b), Next(s, b).out);
  }

  lemma {:induction false} RunFollows(s: Css, v: seq<byte>, out: seq<byte>, w: seq<byte>)
    requires Follows(s, v, out)
    ensures Follows(Run(s, w).st, v + w, out + Run(s, w).out)
    decreases |w|
  {
    hide Follows;
    if w == [] {
      assert v + w == v && out + [] == out;
    } else {
      var t := Next(s, w[0]);
      NextFollows(s, v, out, w[0]);
      RunFollows(t.st, v + [w[0]], out + t.out, w[1..]);
      assert v + [w[0]] + w[1..] == v + w;
      assert out + t.out + Run(t.st, w[1..]).out == out + (t.out + Run(t.st, w[1..]).out);
    }
  }

  lemma {:induction false} ChunkFollows(s: Css, v: seq<byte>, out: seq<byte>, w: seq<byte>)
    requires Reachable(s) && Follows(s, v, out)
    ensures Reachable(Chunk(s, w).st)
    ensures Follows(Chunk(s, w).st, v + w, out + Chunk(s, w).out)
  {
    hide Chunk, Run, R.Parse, R.Uncommented;
    ChunkEnters(s, w);
    RunFollows(Enter(s), v, out, w);
    if Carry(s) + w == [] {
      assert w == [] && v + w == v && out + [] == out;
    }
  }

  lemma {:induction false} ChunksFollow(s: Css, v: seq<byte>, out: seq<byte>, chunks: seq<seq<byte>>)
    requires Reachable(s) && Follows(s, v, out)
    ensures Follows(Chunks(s, chunks).st, v + Concat(chunks), out + Chunks(s, chunks).out)
    decreases |chunks|
  {
    hide Follows, Reachable, Chunk;
    if chunks == [] {
      assert v + Concat(chunks) == v && out + [] == out;
    } else {
      var w, t := chunks[0], Chunk(s, chunks[0]);
      ChunkFollows(s, v, out, w);
      ChunksFollow(t.st, v + w, out + t.out, chunks[1..]);
      assert v + w + Concat(chunks[1..]) == v + Concat(chunks);
      assert out + t.out + Chunks(t.st, chunks[1..]).out == out + Chunks(s, chunks).out;
    }
  }

  /** Streaming correctness, for every input and every cutting, empty buffers included. */
  lemma {:induction false} Streaming(chunks: seq<seq<byte>>)
    ensures var t := Chunks(START, chunks);
            var x := R.Parse(R.CssRules, Concat(chunks));
            Tracks(t.st, x) && Carry(t.st) == R.TailCarry(x.tail) && Thins(R.Uncommented(x), t.out)
  {
    var t := Chunks(START, chunks);
    hide Chunks, R.Parse, R.Uncommented;
    R.ParseNothing(R.CssRules);
    ChunksFollow(START, [], [], chunks);
    assert [] + Concat(chunks) == Concat(chunks) && [] + t.out == t.out;
  }

  /** Two cuttings of one input differ in white space alone, and end in the same lexical state. */
  lemma {:induction false} TwoCuttings(c: seq<seq<byte>>, d: seq<seq<byte>>)
    requires Concat(c) == Concat(d)
    ensures var t, u := Chunks(START, c), Chunks(START, d);
            && Solid(t.out) == Solid(u.out) && Carry(t.st) == Carry(u.st)
            && t.st.mode == u.st.mode && t.st.brace == u.st.brace
  {
    var x := R.Parse(R.CssRules, Concat(c));
    Streaming(c);
    Streaming(d);
    R.SoftItems(x);
    ThinsKeepsSolid(R.Uncommented(x), Chunks(START, c).out);
    ThinsKeepsSolid(R.Uncommented(x), Chunks(START, d).out);
  }
}
