/** When the place of a cut shows in the output of the CSS minifier, and when it does not. */
module CssCuts {
  import opened Bytes
  import opened CssMachine
  import opened CssStreams
  import R = Reference

  /** `a` and `b` decide alike from here on. */
  ghost predicate Alike(a: Css, b: Css) {
    && a.mode == b.mode && a.brace == b.brace && a.quote == b.quote && a.stale == b.stale
    && (if a.brace then
          a.pre == b.pre && (a.stale || a.last.GetOr(a.pre) == b.last.GetOr(b.pre))
        else if InString(a.mode) then
          a.pre == b.pre
        else
          && Blank(a.pre) == Blank(b.pre)
          && Blank(a.last.GetOr(a.pre)) == Blank(b.last.GetOr(b.pre)))
  }

  lemma {:induction false} NextAlikePlain(a: Css, b: Css, c: byte)
    requires Alike(a, b) && Reachable(a) && Reachable(b) && a.mode == Plain
    ensures Alike(Next(a, c).st, Next(b, c).st) && Next(a, c).out == Next(b, c).out
  {
  }

  lemma {:induction false} NextAlikeOther(a: Css, b: Css, c: byte)
    requires Alike(a, b) && Reachable(a) && Reachable(b) && a.mode != Plain
    ensures Alike(Next(a, c).st, Next(b, c).st) && Next(a, c).out == Next(b, c).out
  {
    hide NextText, NextBrace;
  }

  lemma {:induction false} NextAlike(a: Css, b: Css, c: byte)
    requires Alike(a, b) && Reachable(a) && Reachable(b)
    ensures Alike(Next(a, c).st, Next(b, c).st) && Next(a, c).out == Next(b, c).out
  {
    hide Alike, Reachable, Next;
    if a.mode == Plain {
      NextAlikePlain(a, b, c);
    } else {
      NextAlikeOther(a, b, c);
    }
  }

  lemma {:induction false} RunAlike(a: Css, b: Css, w: seq<byte>)
    requires Alike(a, b) && Reachable(a) && Reachable(b)
    ensures Alike(Run(a, w).st, Run(b, w).st) && Run(a, w).out == Run(b, w).out
    decreases |w|
  {
    if w != [] {
      hide Alike, Reachable, Next;
      NextAlike(a, b, w[0]);
      NextReachable(a, w[0]);
      NextReachable(b, w[0]);
      RunAlike(Next(a, w[0]).st, Next(b, w[0]).st, w[1..]);
    }
  }

  /** A cut at state `s` shows: inside a string inside braces it makes `pre_char` stale; right
      after a stale block that kept a blank, the new buffer has forgotten the closing brace. */
  predicate CutShows(s: Css) {
    || (s.brace && (s.mode == Quote || s.mode == Escape) && !s.stale)
    || (!s.brace && s.mode == Plain && Blank(s.pre) && s.last.Some? && !Blank(s.last.value))
  }

  /** An input on which a cut that shows changes the output. */
  function Telltale(s: Css): seq<byte> {
    if !s.brace then [' ', ' ']
    else if s.mode == Escape then ['x'] + AfterString(s)
    else AfterString(s)
  }

  function AfterString(s: Css): seq<byte> {
    if s.pre == ' ' then [s.quote, ' '] else [s.quote, ' ', ' ']
  }

  /** After the string, the fresh machine squeezes blanks; the stale one keeps or drops them all. */
  lemma {:induction false} StringTells(a: Css, b: Css)
    requires a.brace && a.mode == Quote && !a.stale && R.IsQuote(R.CssRules, a.quote)
    requires b.brace && b.mode == Quote && b.stale && b.quote == a.quote
    ensures Run(a, AfterString(b)).out != Run(b, AfterString(b)).out
  {
    var w := AfterString(b);
    var a', b' := Next(a, w[0]).st, Next(b, w[0]).st;
    RunOne(a, w);
    RunOne(b, w);
    assert w[1..] == if b.pre == ' ' then [' '] else [' ', ' '];
    if b.pre == ' ' {
      RunOne(a', w[1..]);
      RunOne(b', w[1..]);
    } else {
      RunTwo(a', w[1..]);
      RunTwo(b', w[1..]);
    }
  }

  lemma {:induction false} Tells(s: Css)
    requires Reachable(s) && CutShows(s)
    ensures Run(Enter(s), Telltale(s)).out != Run(s, Telltale(s)).out
  {
    var w := Telltale(s);
    if !s.brace {
      RunTwo(s, w);
      RunTwo(Enter(s), w);
      assert w[1..][1..] == [];
    } else if s.mode == Escape {
      RunOne(s, w);
      RunOne(Enter(s), w);
      assert w[1..] == AfterString(Next(Enter(s), 'x').st);
      var a, b := Next(s, 'x').st, Next(Enter(s), 'x').st;
      StringTells(a, b);
      assert Run(s, w).out[2..] == Run(a, w[1..]).out && Run(Enter(s), w).out[2..] == Run(b, w[1..]).out;
    } else {
      StringTells(s, Enter(s));
    }
  }

  /** Exactly when a cut is invisible: it changes the output of no continuation if and only if
      the state there is not one of the two that show. */
  lemma {:induction false} CutInvisible(s: Css)
    requires Reachable(s)
    ensures (forall w :: Run(Enter(s), w).out == Run(s, w).out) <==> !CutShows(s)
  {
    if CutShows(s) {
      Tells(s);
    } else {
      forall w ensures Run(Enter(s), w).out == Run(s, w).out {
        EnterAlike(s);
        RunAlike(s, Enter(s), w);
      }
    }
  }

  lemma {:induction false} EnterAlike(s: Css)
    requires Reachable(s) && !CutShows(s)
    ensures Alike(s, Enter(s)) && Reachable(Enter(s)) && Alike(s, s.(last := None))
  {
  }

  lemma {:induction false} AlikeTrans(a: Css, b: Css, c: Css)
    requires Alike(a, b) && Alike(b, c)
    ensures Alike(a, c)
  {
  }

  /** No buffer begins at a state that shows. */
  ghost predicate GoodCuts(s: Css, chunks: seq<seq<byte>>)
    decreases |chunks|
  {
    chunks != [] ==> !CutShows(s) && GoodCuts(Chunk(s, chunks[0]).st, chunks[1..])
  }

  lemma {:induction false} GoodCutsRun(u: Css, s: Css, chunks: seq<seq<byte>>)
    requires Reachable(u) && Reachable(s) && Alike(u, s) && GoodCuts(s, chunks)
    ensures Chunks(s, chunks).out == Run(u, Concat(chunks)).out
    decreases |chunks|
  {
    if chunks != [] {
      var w := chunks[0];
      ChunkEnters(s, w);
      EnterAlike(s);
      AlikeTrans(u, s, Enter(s));
      AlikeTrans(u, s, s.(last := None));
      RunAlike(u, Enter(s), w);
      RunReachable(u, w);
      GoodCutsRun(Run(u, w).st, Chunk(s, w).st, chunks[1..]);
      RunAppend(u, w, Concat(chunks[1..]));
    }
  }

  /** Exact chunk independence: if no cut shows, every cutting gives the bytes of the uncut run. */
  lemma {:induction false} ChunkIndependence(chunks: seq<seq<byte>>)
    requires GoodCuts(START, chunks)
    ensures Chunks(START, chunks).out == Chunks(START, [Concat(chunks)]).out
  {
    GoodCutsRun(START, START, chunks);
    var w := Concat(chunks);
    ChunkEnters(START, w);
    assert Carry(START) + w == w;
    assert [w][1..] == [];
    assert Chunks(START, [w]).out == Chunk(START, w).out + [];
  }

  // ---------- the same, in terms of the input alone ----------

  ghost predicate BracedNote(v: seq<byte>) {
    R.Parse(R.CssRules, v).tail.OpenNote? && Braced(R.Parse(R.CssRules, v).tokens)
  }

  ghost predicate BracedString(v: seq<byte>) {
    R.Parse(R.CssRules, v).tail.OpenStr? && Braced(R.Parse(R.CssRules, v).tokens)
  }

  /** No prefix of `v + w` that extends `v` ends inside a comment inside braces. */
  ghost predicate NoBracedNote(v: seq<byte>, w: seq<byte>)
    decreases |w|
  {
    !BracedNote(v) && (w != [] ==> NoBracedNote(v + [w[0]], w[1..]))
  }

  /** No buffer begins inside a string inside braces. */
  ghost predicate NoBracedStringCut(v: seq<byte>, chunks: seq<seq<byte>>)
    decreases |chunks|
  {
    chunks != [] ==> !BracedString(v) && NoBracedStringCut(v + chunks[0], chunks[1..])
  }

  /** `pre` is the byte written last, over the whole stream. */
  ghost predicate Fresh(s: Css) {
    Reachable(s) && !s.stale && (InString(s.mode) || s.last.GetOr(s.pre) == s.pre)
  }

  lemma {:induction false} NextFresh(s: Css, v: seq<byte>, b: byte)
    requires Fresh(s) && Tracks(s, R.Parse(R.CssRules, v)) && !BracedNote(v)
    ensures Fresh(Next(s, b).st) && Tracks(Next(s, b).st, R.Parse(R.CssRules, v + [b]))
  {
    hide R.Parse, R.Extend;
    R.ParseSpells(R.CssRules, v);
    R.ParseSnoc(R.CssRules, v, b);
    NextTracks(s, R.Parse(R.CssRules, v), b);
    NextReachable(s, b);
  }

  lemma {:induction false} RunFresh(s: Css, v: seq<byte>, w: seq<byte>)
    requires Fresh(s) && Tracks(s, R.Parse(R.CssRules, v)) && NoBracedNote(v, w)
    ensures Fresh(Run(s, w).st) && Tracks(Run(s, w).st, R.Parse(R.CssRules, v + w))
    decreases |w|
  {
    hide Fresh, Tracks, R.Parse, BracedNote;
    if w == [] {
      assert v + w == v;
    } else {
      NextFresh(s, v, w[0]);
      RunFresh(Next(s, w[0]).st, v + [w[0]], w[1..]);
      assert v + [w[0]] + w[1..] == v + w;
    }
  }

  lemma {:induction false} NoBracedNoteSplit(v: seq<byte>, w: seq<byte>, u: seq<byte>)
    requires NoBracedNote(v, w + u)
    ensures NoBracedNote(v, w) && NoBracedNote(v + w, u)
    decreases |w|
  {
    hide BracedNote;
    if w == [] {
      assert w + u == u && v + w == v;
      if u != [] {
        assert !BracedNote(v);
      }
    } else {
      assert (w + u)[1..] == w[1..] + u;
      NoBracedNoteSplit(v + [w[0]], w[1..], u);
      assert v + [w[0]] + w[1..] == v + w;
    }
  }

  lemma {:induction false} ChunkFresh(s: Css, v: seq<byte>, w: seq<byte>)
    requires Fresh(s) && Tracks(s, R.Parse(R.CssRules, v)) && !BracedString(v) && NoBracedNote(v, w)
    ensures !CutShows(s)
    ensures Fresh(Chunk(s, w).st) && Tracks(Chunk(s, w).st, R.Parse(R.CssRules, v + w))
  {
    hide R.Parse, Run, Chunk;
    ChunkEnters(s, w);
    RunFresh(Enter(s), v, w);
    if Carry(s) + w == [] {
      assert w == [] && v + w == v;
    }
  }

  lemma {:induction false} InputGoodCuts(s: Css, v: seq<byte>, chunks: seq<seq<byte>>)
    requires Fresh(s) && Tracks(s, R.Parse(R.CssRules, v))
    requires NoBracedNote(v, Concat(chunks)) && NoBracedStringCut(v, chunks)
    ensures GoodCuts(s, chunks)
    decreases |chunks|
  {
    hide Fresh, Tracks, R.Parse, BracedString, Chunk;
    if chunks != [] {
      NoBracedNoteSplit(v, chunks[0], Concat(chunks[1..]));
      ChunkFresh(s, v, chunks[0]);
      InputGoodCuts(Chunk(s, chunks[0]).st, v + chunks[0], chunks[1..]);
    }
  }

  /** No comment inside a brace block, no boundary inside a string inside a brace block: every
      cutting gives byte-identical output. */
  lemma {:induction false} PlainInputsAreChunkIndependent(chunks: seq<seq<byte>>)
    requires NoBracedNote([], Concat(chunks)) && NoBracedStringCut([], chunks)
    ensures Chunks(START, chunks).out == Chunks(START, [Concat(chunks)]).out
  {
    R.ParseNothing(R.CssRules);
    InputGoodCuts(START, [], chunks);
    ChunkIndependence(chunks);
  }
}
