/** The HTML minifier on inputs without comments and marked sections, that is without `<!-` and `<![`:
    no byte but white space is lost, and no way of cutting the input shows. */
module HtmlPlain {
  import opened Bytes
  import opened Thinning
  import opened HtmlMachine
  import opened HtmlStreams
  import opened HtmlCuts
  import S = HtmlLexing
  import X = HtmlReference

  predicate Unmarked(w: seq<byte>) {
    forall i, j, k :: 0 <= i < |w| && 0 <= j < |w| && 0 <= k < |w| && j == i + 1 && k == i + 2 ==>
      !(w[i] == '<' && w[j] == '!' && (w[k] == '-' || w[k] == '['))
  }

  lemma {:induction false} UnmarkedSuffix(w: seq<byte>, m: nat)
    requires Unmarked(w) && m <= |w|
    ensures Unmarked(w[m..])
  {
    var u := w[m..];
    forall i, j, k | 0 <= i < |u| && 0 <= j < |u| && 0 <= k < |u| && j == i + 1 && k == i + 2
      ensures !(u[i] == '<' && u[j] == '!' && (u[k] == '-' || u[k] == '['))
    {
      var i', j', k' := m + i, m + j, m + k;
      assert !(w[i'] == '<' && w[j'] == '!' && (w[k'] == '-' || w[k'] == '['));
    }
  }

  lemma {:induction false} UnmarkedPrefix(v: seq<byte>, w: seq<byte>)
    requires Unmarked(v + w)
    ensures Unmarked(v)
  {
    var u := v + w;
    forall i, j, k | 0 <= i < |v| && 0 <= j < |v| && 0 <= k < |v| && j == i + 1 && k == i + 2
      ensures !(v[i] == '<' && v[j] == '!' && (v[k] == '-' || v[k] == '['))
    {
      assert !(u[i] == '<' && u[j] == '!' && (u[k] == '-' || u[k] == '['));
    }
  }

  predicate Tame(m: Mode) {
    m == Text || m == Skip || m == Tag || m == TagName || m == TagAtt || m == TagNameEnd
  }

  /** With `w` ahead: a `<!` may be open, but it opens a declaration such as DOCTYPE. */
  predicate TameAt(m: Mode, w: seq<byte>) {
    Tame(m) || (m == TagBang && |w| >= 3 && w[2] != '-' && w[2] != '[')
  }

  /** A move drops at most one white byte, and does not falter. */
  lemma {:induction false} NextPlain(s: Html, w: seq<byte>)
    requires w != [] && Ready(s, w) && s.carry == [] && TameAt(s.mode, w) && Unmarked(w)
    ensures var m := Next(s, w);
            && m.used <= |w| && TameAt(m.st.mode, w[m.used..]) && !Falters(s, w)
            && (|| (m.st.carry == [] && m.out == w[..m.used])
                || (m.out == [] && m.st.carry == w[..m.used])
                || (m.out == [] && m.st.carry == [] && m.used == 1 && White(w[0])))
  {
    hide SkipName, SameNoCase, Begins, Unmarked;
    NextProgress(s, w);
    if s.mode == Text && |w| >= 3 && w[0] == '<' && w[1] == '!' {
      UnmarkedHere(w);
      assert w[0..] == w;
    }
  }

  lemma {:induction false} UnmarkedHere(w: seq<byte>)
    requires Unmarked(w) && |w| >= 3 && w[0] == '<' && w[1] == '!'
    ensures w[2] != '-' && w[2] != '['
  {
  }

  lemma {:induction false} NextPlainSolid(s: Html, w: seq<byte>)
    requires w != [] && Ready(s, w) && s.carry == [] && TameAt(s.mode, w) && Unmarked(w)
    ensures var m := Next(s, w); m.used <= |w| && Solid(m.out + m.st.carry) == Solid(w[..m.used])
  {
    hide Next, Ready, Solid, TameAt, Unmarked, Falters;
    var m := Next(s, w);
    NextPlain(s, w);
    assert m.out + [] == m.out && [] + m.st.carry == m.st.carry;
    if m.used == 1 {
      assert w[..1] == [w[0]];
      SolidWhite(w[0]);
    }
  }

  lemma {:induction false} RunPlain(s: Html, w: seq<byte>)
    requires Ready(s, w) && s.carry == [] && TameAt(s.mode, w) && Unmarked(w)
    ensures var t := Run(s, w);
            Tame(t.st.mode) && !Faltering(s, w) && Solid(t.out + t.st.carry) == Solid(w)
    decreases |w|, Rank(s.mode)
  {
    hide Next, Solid, Ready, Unmarked, Falters;
    if w != [] {
      var m := Next(s, w);
      NextProgress(s, w);
      NextPlain(s, w);
      NextPlainSolid(s, w);
      NextKeeps(s, w);
      RunMove(s, w);
      var v := w[m.used..];
      assert w == w[..m.used] + v;
      SolidAppend(w[..m.used], v);
      UnmarkedSuffix(w, m.used);
      var t := Run(m.st, v);
      if m.st.carry == [] {
        RunPlain(m.st, v);
        assert m.out + m.st.carry == m.out;
        assert (m.out + t.out) + t.st.carry == m.out + (t.out + t.st.carry);
        SolidAppend(m.out, t.out + t.st.carry);
      } else {
        assert v == [] && m.out + [] == m.out && w[..m.used] == w;
      }
    }
  }

  // ---------- over the chain ----------

  /** `s` has read `v`, whose end it may still carry, and has written `out`. */
  ghost predicate HasRead(s: Html, v: seq<byte>, out: seq<byte>) {
    && AtEnd(s) && Tame(s.mode)
    && |s.carry| <= |v| && v[|v| - |s.carry|..] == s.carry
    && Solid(out + s.carry) == Solid(v)
  }

  lemma {:induction false} ChunkReads(s: Html, v: seq<byte>, out: seq<byte>, w: seq<byte>)
    requires HasRead(s, v, out) && Unmarked(v + w)
    ensures HasRead(Chunk(s, w).st, v + w, out + Chunk(s, w).out)
    ensures Ready(Open(s), s.carry + w) && !Faltering(Open(s), s.carry + w)
  {
    hide Run, Unmarked, Names, CarryTable, Tame, Solid, Faltering, Ready;
    var c, t, k := s.carry, Chunk(s, w), |v| - |s.carry|;
    Opens(s, w);
    assert (v + w)[k..] == c + w;
    UnmarkedSuffix(v + w, k);
    RunPlain(Open(s), c + w);
    RunCarriesSuffix(Open(s), c + w);
    assert (v + w)[|v + w| - |t.st.carry|..] == (c + w)[|c + w| - |t.st.carry|..];
    assert v == v[..k] + c;
    SolidPiece(v[..k], c, w, out, t.out, t.st.carry);
  }

  lemma {:induction false} SolidPiece(
    u: seq<byte>, c: seq<byte>, w: seq<byte>, out: seq<byte>, o: seq<byte>, d: seq<byte>)
    requires Solid(out + c) == Solid(u + c) && Solid(o + d) == Solid(c + w)
    ensures Solid((out + o) + d) == Solid((u + c) + w)
  {
    hide Solid;
    SolidAppend(out, c);
    SolidAppend(u, c);
    assert Solid(out) == (Solid(out) + Solid(c))[..|Solid(out) + Solid(c)| - |Solid(c)|];
    assert Solid(u) == (Solid(u) + Solid(c))[..|Solid(u) + Solid(c)| - |Solid(c)|];
    assert (out + o) + d == out + (o + d) && (u + c) + w == u + (c + w);
    SolidAppend(out, o + d);
    SolidAppend(u, c + w);
  }

  lemma {:induction false} ChunksRead(s: Html, v: seq<byte>, out: seq<byte>, chunks: seq<seq<byte>>)
    requires AtEnd(s) && HasRead(s, v, out) && Unmarked(v + Concat(chunks))
    ensures HasRead(Chunks(s, chunks).st, v + Concat(chunks), out + Chunks(s, chunks).out)
    ensures GoodCuts(s, chunks)
    decreases |chunks|
  {
    hide Unmarked, HasRead, AtEnd, Chunk, GoodCuts, Faltering;
    GoodStep(s, chunks);
    if chunks == [] {
      assert v + Concat(chunks) == v && out + [] == out;
    } else {
      var w, t := chunks[0], Chunk(s, chunks[0]);
      assert (v + w) + Concat(chunks[1..]) == v + Concat(chunks);
      UnmarkedPrefix(v + w, Concat(chunks[1..]));
      ChunkReads(s, v, out, w);
      ChunksRead(t.st, v + w, out + t.out, chunks[1..]);
      assert (out + t.out) + Chunks(t.st, chunks[1..]).out == out + Chunks(s, chunks).out;
    }
  }

  lemma {:induction false} HasReadNothing()
    ensures AtEnd(START) && HasRead(START, [], [])
  {
  }

  lemma {:induction false} NoComments(w: seq<byte>)
    requires Unmarked(w)
    ensures var l := X.LexText(w, []); X.Bears(X.ItemsOf(l.tokens), X.Spell(l.tokens)) && X.Spell(l.tokens) + l.rest == w
  {
    hide X.LexText, X.Sound, X.Bears;
    var l := X.LexText(w, []);
    X.LexSpells(w, []);
    if exists t :: t in l.tokens && t.kind.Comment? {
      var i := X.CommentAt(l.tokens, w);
      UnmarkedSuffix(w, i);
      var v := w[i..];
      assert v[0] == v[..4][0] && v[1] == v[..4][1] && v[2] == v[..4][2];
      UnmarkedHere(v);
      assert false;
    }
    X.KeptBytes(l.tokens);
  }

  /** Streaming correctness: no buffer falters, and all bytes of the input are kept in order but for soft ones:
      white space of the text, and spaces of tags but those behind the name or a slash. */
  lemma {:induction false} Streaming(chunks: seq<seq<byte>>)
    requires Unmarked(Concat(chunks))
    ensures var w, t := Concat(chunks), Chunks(START, chunks);
            var l := X.LexText(w, []);
            && GoodCuts(START, chunks) && !Faltering(START, w)
            && Thins(X.ItemsOf(l.tokens), t.out) && t.st.carry == l.rest
            && X.Bears(X.ItemsOf(l.tokens), X.Spell(l.tokens)) && X.Spell(l.tokens) + l.rest == w
  {
    hide *;
    var w := Concat(chunks);
    HasReadNothing();
    var t := Chunks(START, chunks);
    assert [] + w == w && [] + t.out == t.out;
    ChunksRead(START, [], [], chunks);
    PlainNeverFalters(w);
    S.LexedChunks(chunks);
    NoComments(w);
  }

  lemma {:induction false} PlainNeverFalters(w: seq<byte>)
    requires Unmarked(w)
    ensures !Faltering(START, w)
  {
    RunPlain(START, w);
  }

  /** So all cuttings of such an input agree up to white space. */
  lemma {:induction false} TwoPlainCuttings(c: seq<seq<byte>>, d: seq<seq<byte>>)
    requires c != [] && d != [] && Concat(c) == Concat(d) && Unmarked(Concat(c))
    ensures var t, u := Chunks(START, c), Chunks(START, d);
            Solid(t.out) == Solid(u.out) && Reads(t.st, u.st)
  {
    hide *;
    Streaming(c);
    Streaming(d);
    TwoCuttings(c, d);
  }
}
