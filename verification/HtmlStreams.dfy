/** What every run of the HTML minifier keeps, for every way of cutting the input into buffers. */
module HtmlStreams {
  import opened Bytes
  import opened HtmlMachine

  // ---------- the carry, at every boundary ----------

  /** What a buffer ends with. */
  predicate AtEnd(s: Html) {
    Names(s) && CarryTable(s.mode, s.carry)
  }

  /** Nothing is written in the new buffer yet, and its bytes begin with the carry. */
  function Open(s: Html): Html {
    s.(carry := [], last := None)
  }

  lemma {:induction false} BangCarry(c: seq<byte>)
    requires CarryTable(TagBang, c)
    ensures |c| >= 3 && c[0] == '<' && c[1] == '!'
  {
    if c != "<!-" {
      assert "<![CDATA["[..|c|][0] == '<' && "<![CDATA["[..|c|][1] == '!';
    }
  }

  lemma {:induction false} Opens(s: Html, w: seq<byte>)
    requires AtEnd(s)
    ensures Reachable(Open(s), s.carry + w)
  {
    var c := s.carry;
    if s.mode == Comment {
      assert c[..4] == "<!--";
      assert (c + w)[..4] == c[..4];
    } else if s.mode == TagBang {
      BangCarry(c);
    } else if c + w == [] {
      assert CarryTable(s.mode, []);
    }
  }

  /** One buffer of the chain. */
  function Chunk(s: Html, w: seq<byte>): (t: Step)
    requires AtEnd(s)
    ensures AtEnd(t.st)
  {
    Opens(s, w);
    RunReachable(Open(s), s.carry + w);
    Run(Open(s), s.carry + w)
  }

  function Chunks(s: Html, chunks: seq<seq<byte>>): (t: Step)
    requires AtEnd(s)
    ensures AtEnd(t.st)
    decreases |chunks|
  {
    if chunks == [] then Step(s, [])
    else
      var t := Chunk(s, chunks[0]);
      After(t.out, Chunks(t.st, chunks[1..]))
  }

  /** The names stay short over the whole chain. */
  ghost predicate ChunksFit(s: Html, chunks: seq<seq<byte>>)
    requires AtEnd(s)
    decreases |chunks|
  {
    chunks != [] ==>
      && Ready(Open(s), s.carry + chunks[0])
      && Fits(Open(s), s.carry + chunks[0])
      && ChunksFit(Chunk(s, chunks[0]).st, chunks[1..])
  }

  lemma {:induction false} NextKeeps(s: Html, w: seq<byte>)
    requires w != [] && Ready(s, w)
    ensures var m := Next(s, w); m.st.carry == [] || (m.st.carry == w && m.used == |w|)
  {
    hide SkipName, SameNoCase;
  }

  lemma {:induction false} RunCarriesSuffix(s: Html, w: seq<byte>)
    requires Reachable(s, w) && s.carry == []
    ensures var c := Run(s, w).st.carry; |c| <= |w| && w[|w| - |c|..] == c
    decreases |w|, Rank(s.mode)
  {
    hide Next, Names, CarryTable;
    if w != [] {
      var m := Next(s, w);
      NextProgress(s, w);
      NextReachable(s, w);
      NextKeeps(s, w);
      if m.st.carry == [] {
        RunCarriesSuffix(m.st, w[m.used..]);
      } else {
        assert w[m.used..] == [];
      }
    }
  }

  /** The carry invariant: at every boundary mode and carry are in the table, the carry is the end
      of what the buffer was given, and it has at most eight bytes. */
  lemma {:induction false} CarryInvariant(chunks: seq<seq<byte>>, w: seq<byte>)
    ensures var s := Chunks(START, chunks).st;
            var t := Chunk(s, w).st;
            && CarryTable(t.mode, t.carry) && |t.carry| <= 8
            && |t.carry| <= |s.carry + w| && (s.carry + w)[|s.carry + w| - |t.carry|..] == t.carry
  {
    var s := Chunks(START, chunks).st;
    Opens(s, w);
    RunCarriesSuffix(Open(s), s.carry + w);
  }
}
