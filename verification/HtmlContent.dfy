/** What the HTML minifier leaves out, move by move, and that this does not depend on the buffers. */
module HtmlContent {
  import opened Bytes
  import opened Thinning
  import opened HtmlMachine
  import opened HtmlStreams
  import opened HtmlCuts
  import R = Reference

  predicate InNote(m: Mode) {
    m == Comment || m == CommentSkip
  }

  /** The bytes that a move of one byte may drop. */
  predicate Soft(m: Mode, b: byte) {
    (m == Text && White(b)) || ((m == Tag || m == TagAtt || m == TagNameEnd) && b == ' ')
  }

  /** The bytes that a move reads, unless they are carried or in a comment that is skipped. */
  function MoveItems(s: Html, w: seq<byte>): seq<Item>
    requires w != [] && Ready(s, w)
  {
    var m := Next(s, w);
    NextProgress(s, w);
    if m.st.carry != [] || InNote(s.mode) then []
    else if m.used == 1 then [Item(w[0], Soft(s.mode, w[0]))]
    else R.Hard(w[..m.used])
  }

  /** A run: what it reads, where it ends, and whether it falters. */
  datatype Trace = Trace(items: seq<Item>, st: Html, falters: bool)

  function Plus(items: seq<Item>, t: Trace): Trace {
    t.(items := items + t.items)
  }

  function Follow(s: Html, w: seq<byte>): Trace
    requires Ready(s, w)
    decreases |w|, Rank(s.mode)
  {
    if w == [] then Trace([], s, false)
    else
      var m := Next(s, w);
      NextProgress(s, w);
      var t := Plus(MoveItems(s, w), Follow(m.st, w[m.used..]));
      t.(falters := Falters(s, w) || (m.st.carry == [] && t.falters))
  }

  lemma {:induction false} FollowOne(s: Html, w: seq<byte>)
    requires w != [] && Ready(s, w)
    ensures var m := Next(s, w);
            && m.used <= |w| && Ready(m.st, w[m.used..])
            && Follow(s, w) == Plus(MoveItems(s, w), Follow(m.st, w[m.used..])).(falters :=
                 Falters(s, w) || (m.st.carry == [] && Follow(m.st, w[m.used..]).falters))
  {
    NextProgress(s, w);
  }

  lemma {:induction false} FollowsRun(s: Html, w: seq<byte>)
    requires Ready(s, w)
    ensures Follow(s, w).st == Run(s, w).st && (Follow(s, w).falters <==> Faltering(s, w))
    decreases |w|, Rank(s.mode)
  {
    hide Next, Falters, MoveItems;
    if w != [] {
      var m := Next(s, w);
      NextProgress(s, w);
      FollowsRun(m.st, w[m.used..]);
    }
  }

  // ---------- the output ----------

  /** A move that does not falter leaves out soft bytes only. */
  lemma {:induction false} NextContent(s: Html, w: seq<byte>)
    requires w != [] && Ready(s, w) && !Falters(s, w)
    ensures var m, items := Next(s, w), MoveItems(s, w);
            || (|items| == 1 && items[0].b == w[0] && (m.out == [w[0]] || (m.out == [] && items[0].soft)))
            || (m.used <= |w| && items == R.Hard(w[..m.used]) && m.out == w[..m.used])
            || (items == [] && m.out == [])
  {
    hide SkipName, SameNoCase, Begins;
    NextProgress(s, w);
    assert w[..1] == [w[0]] && w[..0] == [];
  }

  lemma {:induction false} HardThins(w: seq<byte>)
    ensures Thins(R.Hard(w), w)
  {
    if w != [] {
      HardThins(w[1..]);
      assert R.Hard(w)[1..] == R.Hard(w[1..]);
    }
  }

  lemma {:induction false} NextThins(s: Html, w: seq<byte>)
    requires w != [] && Ready(s, w) && !Falters(s, w)
    ensures Thins(MoveItems(s, w), Next(s, w).out)
  {
    hide Next, Ready, Falters, MoveItems;
    var m, items := Next(s, w), MoveItems(s, w);
    NextContent(s, w);
    NextProgress(s, w);
    HardThins(w[..m.used]);
    if |items| == 1 && items[0].b == w[0] && (m.out == [w[0]] || (m.out == [] && items[0].soft)) {
      assert items[1..] == [] && [w[0]][1..] == [];
    }
  }

  /** A run that does not falter leaves out soft bytes only. */
  lemma {:induction false} RunThins(s: Html, w: seq<byte>)
    requires Ready(s, w) && s.carry == [] && !Faltering(s, w)
    ensures Thins(Follow(s, w).items, Run(s, w).out)
    decreases |w|, Rank(s.mode)
  {
    hide Next, Ready, Falters, MoveItems, Thins;
    if w == [] {
      NothingThins();
    } else {
      var m := Next(s, w);
      NextProgress(s, w);
      NextThins(s, w);
      NextKeeps(s, w);
      RunMove(s, w);
      var v := w[m.used..];
      if m.st.carry == [] {
        RunThins(m.st, v);
      } else {
        assert v == [];
        NothingThins();
      }
      ThinsAppend(MoveItems(s, w), m.out, Follow(m.st, v).items, Run(m.st, v).out);
    }
  }

  lemma {:induction false} NothingThins()
    ensures Thins([], [])
  {
  }

  // ---------- cuts ----------

  lemma {:induction false} NextFollows(a: Html, b: Html, w: seq<byte>)
    requires w != [] && Ready(a, w) && Ready(b, w) && Reads(a, b)
    ensures MoveItems(a, w) == MoveItems(b, w) && (Falters(a, w) <==> Falters(b, w))
  {
    hide Next;
    NextReads(a, b, w);
  }

  lemma {:induction false} FollowReads(a: Html, b: Html, w: seq<byte>)
    requires Ready(a, w) && Ready(b, w) && Reads(a, b)
    ensures var t, u := Follow(a, w), Follow(b, w);
            t.items == u.items && Reads(t.st, u.st) && t.falters == u.falters
    decreases |w|, Rank(a.mode)
  {
    hide Next, MoveItems, Falters;
    if w != [] {
      var m, n := Next(a, w), Next(b, w);
      NextReads(a, b, w);
      NextFollows(a, b, w);
      NextProgress(a, w);
      NextProgress(b, w);
      FollowReads(m.st, n.st, w[m.used..]);
    }
  }

  /** A move that neither falters nor carries is the same with more bytes behind it. */
  lemma {:induction false} MoveStable(s: Html, v: seq<byte>, w: seq<byte>)
    requires Names(s) && s.carry == [] && Ready(s, v) && v != [] && !Falters(s, v) && Next(s, v).st.carry == []
    ensures Ready(s, v + w) && Next(s, v + w) == Next(s, v) && MoveItems(s, v + w) == MoveItems(s, v)
    ensures !Falters(s, v + w)
  {
    ReadyMore(s, v, w);
    NextStable(s, v, w);
    NextProgress(s, v);
    var m := Next(s, v);
    StableFalters(s, v, w);
    hide Next, Falters, Ready;
    assert (v + w)[..m.used] == v[..m.used] && (v + w)[0] == v[0];
  }

  lemma {:induction false} StableFalters(s: Html, v: seq<byte>, w: seq<byte>)
    requires s.carry == [] && Ready(s, v) && Ready(s, v + w) && v != [] && !Falters(s, v) && Next(s, v).st.carry == []
    ensures !Falters(s, v + w)
  {
    hide Begins, SkipName;
    assert (v + w)[0] == v[0] && (|v| > 2 ==> (v + w)[2] == v[2]);
  }

  /** A cut divides what is read. */
  lemma {:induction false} FollowCut(s: Html, v: seq<byte>, w: seq<byte>)
    requires Names(s) && s.carry == [] && Ready(s, v) && !Faltering(s, v)
    ensures Ready(s, v + w)
    ensures var t := Run(s, v).st;
            && Ready(Open(t), t.carry + w)
            && Follow(s, v + w).items == Follow(s, v).items + Follow(Open(t), t.carry + w).items
            && (Faltering(s, v + w) <==> Faltering(Open(t), t.carry + w))
    decreases |v|, Rank(s.mode)
  {
    hide Next, Names, Falters, Ready, MoveItems, CarryTable;
    ReadyMore(s, v, w);
    RunReachable(s, v);
    var t := Run(s, v).st;
    Opens(t, w);
    if v == [] {
      assert [] + w == w;
      CutReads(s, t, w);
    } else {
      var m := Next(s, v);
      NextProgress(s, v);
      RunMove(s, v);
      if m.st.carry == [] {
        NextNames(s, v);
        MoveStable(s, v, w);
        FollowOne(s, v);
        FollowOne(s, v + w);
        FaltersOne(s, v);
        FaltersOne(s, v + w);
        var v' := v[m.used..];
        assert (v + w)[m.used..] == v' + w;
        FollowCut(m.st, v', w);
        var a, b, c := MoveItems(s, v), Follow(m.st, v').items, Follow(Open(t), t.carry + w).items;
        assert (a + b) + c == a + (b + c);
      } else {
        NextStable(s, v, w);
        CarriedCut(s, v, w);
      }
    }
  }

  lemma {:induction false} FaltersOne(s: Html, v: seq<byte>)
    requires v != [] && Ready(s, v)
    ensures var m := Next(s, v);
            && m.used <= |v| && Ready(m.st, v[m.used..])
            && (Faltering(s, v) <==> Falters(s, v) || (m.st.carry == [] && Faltering(m.st, v[m.used..])))
  {
    NextProgress(s, v);
  }

  lemma {:induction false} CutReads(s: Html, t: Html, w: seq<byte>)
    requires Ready(s, w) && Ready(Open(t), w) && Reads(Open(t), s)
    ensures Follow(s, w).items == [] + Follow(Open(t), w).items
    ensures Faltering(s, w) <==> Faltering(Open(t), w)
  {
    FollowReads(Open(t), s, w);
    FollowsRun(s, w);
    FollowsRun(Open(t), w);
  }

  lemma {:induction false} CarriedCut(s: Html, v: seq<byte>, w: seq<byte>)
    requires Names(s) && s.carry == [] && v != [] && Ready(s, v) && Ready(s, v + w) && Next(s, v).st.carry != []
    requires Stable(s, v, w)
    ensures var t := Run(s, v).st;
            && t.carry == v && Follow(s, v).items == []
            && (Ready(Open(t), t.carry + w) ==>
                  && Follow(s, v + w).items == Follow(Open(t), t.carry + w).items
                  && (Faltering(s, v + w) <==> Faltering(Open(t), t.carry + w)))
  {
    hide Next, Names, Falters, Ready;
    var m := Next(s, v);
    RunMove(s, v);
    FollowOne(s, v);
    assert v[m.used..] == [];
    var t := Run(s, v).st;
    assert t == m.st;
    if Ready(Open(t), t.carry + w) {
      CutReads(s, t, v + w);
    }
  }

  // ---------- over the chain ----------

  /** If no buffer falters, what the whole chain writes leaves out soft bytes of the input only. */
  lemma {:induction false} ChunksThin(s: Html, chunks: seq<seq<byte>>)
    requires AtEnd(s) && chunks != [] && GoodCuts(s, chunks)
    ensures var w := s.carry + Concat(chunks);
            && Ready(Open(s), w)
            && (!Faltering(Open(s), w) ==> Thins(Follow(Open(s), w).items, Chunks(s, chunks).out))
    decreases |chunks|
  {
    hide Names, CarryTable, Faltering, Follow, Run, Thins, Ready, GoodCuts;
    var w := s.carry + Concat(chunks);
    Opens(s, Concat(chunks));
    if |chunks| == 1 {
      assert chunks == [chunks[0]];
      ChunksOne(s, chunks[0]);
      if !Faltering(Open(s), w) {
        RunThins(Open(s), w);
      }
    } else if !Faltering(Open(s), w) {
      GoodStep(s, chunks);
      var v, rest := s.carry + chunks[0], chunks[1..];
      assert v + Concat(rest) == w;
      FollowCut(Open(s), v, Concat(rest));
      var t := Chunk(s, chunks[0]);
      ChunksThin(t.st, rest);
      RunThins(Open(s), v);
      ThinsAppend(Follow(Open(s), v).items, t.out, Follow(Open(t.st), t.st.carry + Concat(rest)).items,
                  Chunks(t.st, rest).out);
    }
  }
}
