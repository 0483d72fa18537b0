/** When the HTML minifier depends on how its input is cut into buffers, and when it does not. */
module HtmlCuts {
  import opened Bytes
  import opened Thinning
  import opened HtmlMachine
  import opened HtmlStreams

  // ---------- the lexical state ----------

  /** Two states that read alike; what they write may differ in white space. */
  ghost predicate Reads(a: Html, b: Html) {
    a.mode == b.mode && a.name == b.name && a.col == b.col && a.carry == b.carry
  }

  /** What two such states do with the same bytes. */
  ghost predicate ReadAlike(m: Move, n: Move, b: byte) {
    && Reads(m.st, n.st) && m.used == n.used
    && (m.out == n.out || (White(b) && m.used == 1 && m.out + n.out == [b]))
  }

  lemma {:induction false} NextReadsName(a: Html, b: Html, w: seq<byte>)
    requires w != [] && Ready(a, w) && Ready(b, w) && Reads(a, b)
    requires a.mode == TagName || a.mode == TagAtt || a.mode == TagNameEnd
    ensures ReadAlike(Next(a, w), Next(b, w), w[0])
  {
    hide SkipName, Begins;
  }

  lemma {:induction false} NextReadsTag(a: Html, b: Html, w: seq<byte>)
    requires w != [] && Ready(a, w) && Ready(b, w) && Reads(a, b)
    requires a.mode == Text || a.mode == Skip || a.mode == Abort || a.mode == Tag
    ensures ReadAlike(Next(a, w), Next(b, w), w[0])
  {
    hide Begins, NextTagName, NextTagAtt, NextTagNameEnd, NextTagBang, NextComment;
  }

  lemma {:induction false} NextReadsBang(a: Html, b: Html, w: seq<byte>)
    requires w != [] && Ready(a, w) && Ready(b, w) && Reads(a, b)
    requires a.mode == TagBang || a.mode == Comment || a.mode == CommentIe || a.mode == CommentSkip || a.mode == Cdata
    ensures ReadAlike(Next(a, w), Next(b, w), w[0])
  {
    hide Begins, NextText, NextTagName, NextTagAtt, NextTagNameEnd;
  }

  lemma {:induction false} NextReads(a: Html, b: Html, w: seq<byte>)
    requires w != [] && Ready(a, w) && Ready(b, w) && Reads(a, b)
    ensures var m, n := Next(a, w), Next(b, w);
            && Reads(m.st, n.st) && m.used == n.used
            && (m.out == n.out || (White(w[0]) && m.used == 1 && m.out + n.out == [w[0]]))
  {
    hide Next, Ready;
    if a.mode == TagName || a.mode == TagAtt || a.mode == TagNameEnd {
      NextReadsName(a, b, w);
    } else if a.mode == Text || a.mode == Skip || a.mode == Abort || a.mode == Tag {
      NextReadsTag(a, b, w);
    } else {
      NextReadsBang(a, b, w);
    }
  }

  lemma {:induction false} SolidWhite(b: byte)
    ensures Solid([b]) == (if White(b) then [] else [b]) && Solid([]) == []
  {
    assert [b][1..] == [];
  }

  lemma {:induction false} NextReadsSolid(a: Html, b: Html, w: seq<byte>)
    requires w != [] && Ready(a, w) && Ready(b, w) && Reads(a, b)
    ensures Solid(Next(a, w).out) == Solid(Next(b, w).out)
  {
    hide Next, Solid, Ready;
    var m, n := Next(a, w), Next(b, w);
    NextReads(a, b, w);
    if m.out != n.out {
      SolidAppend(m.out, n.out);
      SolidWhite(w[0]);
    }
  }

  lemma {:induction false} RunReads(a: Html, b: Html, w: seq<byte>)
    requires Ready(a, w) && Ready(b, w) && Reads(a, b)
    ensures Reads(Run(a, w).st, Run(b, w).st) && Solid(Run(a, w).out) == Solid(Run(b, w).out)
    decreases |w|, Rank(a.mode)
  {
    hide Next, Solid;
    if w != [] {
      var m, n := Next(a, w), Next(b, w);
      NextReads(a, b, w);
      NextReadsSolid(a, b, w);
      NextProgress(a, w);
      NextProgress(b, w);
      RunReads(m.st, n.st, w[m.used..]);
      SolidAppend(m.out, Run(m.st, w[m.used..]).out);
      SolidAppend(n.out, Run(n.st, w[n.used..]).out);
    }
  }

  // ---------- one cut ----------

  /** The end of the buffer makes the machine take a mismatch for decided: it would not take the same
      branch with more bytes in sight. */
  predicate Falters(s: Html, v: seq<byte>) {
    || (s.mode == CommentIe && 1 <= |v| < 4 && v[0] == ']' && !Begins(v, "]-->"))
    || (s.mode == CommentSkip && 1 <= |v| < 3 && v[0] == '-' && !Begins(v, "-->"))
    || (s.mode == Cdata && 1 <= |v| < 3 && v[0] == ']' && !Begins(v, "]]>"))
    || (s.mode == TagBang && 3 <= |v| < 9 && v[2] == '[' && !Begins(v, "<![CDATA["))
  }

  /** Somewhere in the run over `v`. */
  ghost predicate Faltering(s: Html, v: seq<byte>)
    requires Ready(s, v)
    decreases |v|, Rank(s.mode)
  {
    v != [] &&
      (Falters(s, v) ||
        var m := Next(s, v);
        NextProgress(s, v);
        m.st.carry == [] && Faltering(m.st, v[m.used..]))
  }

  lemma {:induction false} ReadyMore(s: Html, v: seq<byte>, w: seq<byte>)
    requires Names(s) && s.carry == [] && Ready(s, v)
    ensures Ready(s, v + w) && Reachable(s, v)
  {
    assert s.mode == Comment ==> (v + w)[..4] == v[..4];
  }

  /** Reading `v` and then, after a cut, `w` comes to the same as reading `v + w`: the same lexical state
      and the same output up to white space. */
  ghost predicate Same(s: Html, v: seq<byte>, w: seq<byte>)
    requires Names(s) && s.carry == [] && Ready(s, v)
  {
    ReadyMore(s, v, w);
    RunReachable(s, v);
    var t, r := Run(s, v), Run(s, v + w);
    var u := Chunk(t.st, w);
    Reads(u.st, r.st) && Solid(t.out + u.out) == Solid(r.out)
  }

  /** More bytes do not change a move, unless it falters, or carries what there is. */
  ghost predicate Stable(s: Html, v: seq<byte>, w: seq<byte>)
    requires v != [] && Ready(s, v) && Ready(s, v + w)
  {
    var m := Next(s, v);
    && (m.st.carry == [] ==> Next(s, v + w) == m)
    && (m.st.carry != [] ==> Reads(Open(m.st), s) && m.st.carry == v && m.used == |v| && m.out == [])
  }

  lemma {:induction false} PlainStable(s: Html, v: seq<byte>, w: seq<byte>)
    requires v != [] && s.carry == [] && Ready(s, v) && Ready(s, v + w)
    requires s.mode != TagBang && s.mode != Comment && s.mode != CommentIe && s.mode != CommentSkip && s.mode != Cdata
    ensures Stable(s, v, w)
  {
    hide SkipName, SameNoCase, Begins;
    var u := v + w;
    assert u[0] == v[0] && u[..1] == v[..1];
    assert |v| > 1 ==> u[1] == v[1] && u[..2] == v[..2];
  }

  lemma {:induction false} BeginsMore(v: seq<byte>, w: seq<byte>, c: seq<byte>)
    requires |v| < |c| <= |v + w| && (v + w)[..|c|] == c
    ensures Begins(v, c)
  {
    assert c[..|v|] == (v + w)[..|v|] == v;
  }

  lemma {:induction false} BangStable(s: Html, v: seq<byte>, w: seq<byte>)
    requires s.mode == TagBang && s.carry == [] && Ready(s, v) && Ready(s, v + w) && v != [] && !Falters(s, v)
    ensures Stable(s, v, w)
  {
    hide SameNoCase, Begins;
    var u := v + w;
    assert u[2] == v[2] && u[..2] == v[..2] && u[..3] == v[..3];
    assert |v| > 3 ==> u[3] == v[3];
    assert |v| >= 9 ==> u[..9] == v[..9];
  }

  lemma {:induction false} CommentStable(s: Html, v: seq<byte>, w: seq<byte>)
    requires s.mode == Comment && s.carry == [] && Ready(s, v) && Ready(s, v + w) && v != []
    ensures Stable(s, v, w)
  {
    hide SameNoCase, Begins;
    var u := v + w;
    assert |v| > 4 ==> u[4] == v[4];
    assert |v| >= 7 ==> u[..7] == v[..7];
    if |v| < 7 <= |u| && u[..7] == "<!--[if" {
      BeginsMore(v, w, "<!--[if");
    }
    if |v| < 7 && |u| < 7 && Begins(u, "<!--[if") {
      BeginsLess(v, w, "<!--[if");
    }
  }

  lemma {:induction false} BeginsLess(v: seq<byte>, w: seq<byte>, c: seq<byte>)
    requires Begins(v + w, c)
    ensures Begins(v, c)
  {
    assert c[..|v|] == c[..|v + w|][..|v|] && (v + w)[..|v|] == v;
    assert forall k :: 0 <= k < |v| ==> (v + w)[k] == v[k] && c[..|v + w|][k] == c[..|v|][k];
  }

  lemma {:induction false} EndStable(s: Html, v: seq<byte>, w: seq<byte>)
    requires s.mode == CommentIe || s.mode == CommentSkip || s.mode == Cdata
    requires s.carry == [] && Ready(s, v) && Ready(s, v + w) && v != [] && !Falters(s, v)
    ensures Stable(s, v, w)
  {
    hide SameNoCase, Begins;
    var u := v + w;
    assert u[0] == v[0] && u[..1] == v[..1];
    assert |v| >= 3 ==> u[..3] == v[..3];
    assert |v| >= 4 ==> u[..4] == v[..4];
  }

  lemma {:induction false} NextStable(s: Html, v: seq<byte>, w: seq<byte>)
    requires v != [] && s.carry == [] && Ready(s, v) && Ready(s, v + w) && !Falters(s, v)
    ensures Stable(s, v, w)
  {
    hide Stable, Falters, Ready;
    match s.mode
    case TagBang => BangStable(s, v, w);
    case Comment => CommentStable(s, v, w);
    case CommentIe => EndStable(s, v, w);
    case CommentSkip => EndStable(s, v, w);
    case Cdata => EndStable(s, v, w);
    case _ => PlainStable(s, v, w);
  }

  lemma {:induction false} IeNext(s: Html, w: seq<byte>)
    requires s.mode == CommentIe && s.carry == [] && w != [] && w[0] != ']'
    ensures Next(s, w) == Move(s.(last := Some(w[0])), 1, [w[0]])
  {
  }

  /** Inside a conditional comment everything up to the next bracket is copied. */
  lemma {:induction false} IeCopies(s: Html, u: seq<byte>, w: seq<byte>)
    requires s.mode == CommentIe && s.carry == [] && ']' !in u
    ensures var s' := if u == [] then s else s.(last := Some(u[|u| - 1]));
            Run(s, u + w) == After(u, Run(s', w))
    decreases |u|
  {
    hide Next, Run;
    if u == [] {
      assert u + w == w;
      assert [] + Run(s, w).out == Run(s, w).out;
    } else {
      var v, t := u + w, s.(last := Some(u[0]));
      assert u == [u[0]] + u[1..] && v[1..] == u[1..] + w;
      IeNext(s, v);
      RunMove(s, v);
      IeCopies(t, u[1..], w);
      AfterAfter([u[0]], u[1..], Run(if u[1..] == [] then t else t.(last := Some(u[1..][|u[1..]| - 1])), w));
    }
  }

  lemma {:induction false} SolidCancel(a: seq<byte>, b: seq<byte>, c: seq<byte>)
    ensures Solid(a + b) == Solid(a + c) <==> Solid(b) == Solid(c)
  {
    hide Solid;
    SolidAppend(a, b);
    SolidAppend(a, c);
    assert (Solid(a) + Solid(b))[|Solid(a)|..] == Solid(b);
    assert (Solid(a) + Solid(c))[|Solid(a)|..] == Solid(c);
  }

  /** A move that does not falter, and carries nothing, is the same before and after the cut. */
  lemma {:induction false} SameMoves(s: Html, v: seq<byte>, w: seq<byte>)
    requires Names(s) && s.carry == [] && Ready(s, v) && v != [] && !Falters(s, v)
    requires Next(s, v).st.carry == []
    ensures var m := Next(s, v);
            && m.used <= |v| && Names(m.st) && Ready(m.st, v[m.used..])
            && (Same(s, v, w) <==> Same(m.st, v[m.used..], w))
  {
    hide Next, Names, Ready, Run, Falters, Reads, Solid, Chunk, Reachable;
    var m := Next(s, v);
    NextProgress(s, v);
    ReadyMore(s, v, w);
    NextNames(s, v);
    NextStable(s, v, w);
    NextProgress(s, v + w);
    var v' := v[m.used..];
    assert (v + w)[m.used..] == v' + w;
    RunMove(s, v);
    RunMove(s, v + w);
    ReadyMore(m.st, v', w);
    RunReachable(m.st, v');
    var t := Run(m.st, v');
    var u := Chunk(t.st, w);
    assert (m.out + t.out) + u.out == m.out + (t.out + u.out);
    SolidCancel(m.out, t.out + u.out, Run(m.st, v' + w).out);
  }

  /** What is carried is read again. */
  lemma {:induction false} SameCarried(s: Html, v: seq<byte>, w: seq<byte>)
    requires Names(s) && s.carry == [] && Ready(s, v) && v != [] && !Falters(s, v)
    requires Next(s, v).st.carry != []
    ensures Same(s, v, w)
  {
    var m := Next(s, v);
    ReadyMore(s, v, w);
    RunReachable(s, v);
    NextStable(s, v, w);
    RunMove(s, v);
    assert v[m.used..] == [];
    var t := Run(s, v);
    assert t.st == m.st && t.out == [];
    Opens(t.st, w);
    RunReads(Open(t.st), s, v + w);
    assert [] + Chunk(t.st, w).out == Chunk(t.st, w).out;
  }

  lemma {:induction false} SameAtEnd(s: Html, w: seq<byte>)
    requires Names(s) && s.carry == [] && Ready(s, [])
    ensures Same(s, [], w)
  {
    ReadyMore(s, [], w);
    assert [] + w == w;
    var t := Run(s, []);
    Opens(t.st, w);
    RunReads(Open(t.st), s, w);
    assert [] + Chunk(t.st, w).out == Chunk(t.st, w).out;
  }

  /** A cut after a run that does not falter changes nothing but white space. */
  lemma {:induction false} SameUnlessFaltering(s: Html, v: seq<byte>, w: seq<byte>)
    requires Names(s) && s.carry == [] && Ready(s, v) && !Faltering(s, v)
    ensures Same(s, v, w)
    decreases |v|, Rank(s.mode)
  {
    hide Same, Names, Next, Falters, Ready;
    if v == [] {
      SameAtEnd(s, w);
    } else {
      var m := Next(s, v);
      NextProgress(s, v);
      if m.st.carry == [] {
        SameMoves(s, v, w);
        SameUnlessFaltering(m.st, v[m.used..], w);
      } else {
        SameCarried(s, v, w);
      }
    }
  }

  // ---------- a cut that shows ----------

  /** No move writes or carries more than it reads. */
  lemma {:induction false} NextAdds(s: Html, w: seq<byte>)
    requires w != [] && Ready(s, w)
    ensures var m := Next(s, w);
            || (m.out == w[..m.used] && m.st.carry == s.carry)
            || (m.out == [] && m.st.carry == s.carry)
            || (m.out == [] && m.st.carry == w && m.used == |w|)
  {
    hide SkipName, Begins;
  }

  lemma {:induction false} RunAdds(s: Html, w: seq<byte>)
    requires Ready(s, w) && (w == [] || s.carry == [])
    ensures |Solid(Run(s, w).out)| + |Solid(Run(s, w).st.carry)| <= |Solid(w)| + |Solid(s.carry)|
    decreases |w|, Rank(s.mode)
  {
    hide Next, Ready, Solid;
    if w == [] {
      SolidNothing();
    } else {
      var m := Next(s, w);
      NextProgress(s, w);
      NextAdds(s, w);
      RunMove(s, w);
      var v := w[m.used..];
      assert w == w[..m.used] + v;
      SolidAppend(w[..m.used], v);
      SolidNothing();
      RunAdds(m.st, v);
      SolidAppend(m.out, Run(m.st, v).out);
      assert m.used == |w| ==> v == [] && w[..m.used] == w;
    }
  }

  lemma {:induction false} SolidNothing()
    ensures Solid([]) == []
  {
  }

  /** Bytes after which a cut that shows has shown. */
  function Telltale(s: Html, v: seq<byte>): seq<byte> {
    match s.mode
    case CommentIe => "aaaa"
    case CommentSkip => "-->a"
    case Cdata => "]]>"
    case _ => seq(if |v| < 9 then 9 - |v| else 0, _ => 'a')
  }

  /** A bracket in a conditional comment is lost. */
  lemma {:induction false} IeFalters(s: Html, v: seq<byte>)
    requires Names(s) && s.carry == [] && s.mode == CommentIe && Ready(s, v) && Falters(s, v)
    ensures !Same(s, v, "aaaa")
  {
    hide Next, Run, Solid, Names, Chunk, Reads;
    var w := "aaaa";
    ReadyMore(s, v, w);
    RunReachable(s, v);
    IeMoves(s, v);
    RunMove(s, v);
    RunMove(s, v + w);
    var s1, s2, rest := Next(s, v).st, Next(s, v + w).st, (v + w)[4..];
    RunAdds(s1, v[1..]);
    var t := Run(s, v);
    assert [] + Run(s1, v[1..]).out == Run(s1, v[1..]).out;
    ChunkAdds(t.st, w);
    assert v == [']'] + v[1..];
    SolidWhite(']');
    SolidAppend([']'], v[1..]);
    assert forall k :: 0 <= k < |rest| ==> rest[k] == w[4 - |v| + k];
    assert rest + [] == rest;
    IeCopies(s2, rest, []);
    RunNone(if rest == [] then s2 else s2.(last := Some(rest[|rest| - 1])));
    assert Run(s, v + w).out == (v + w)[..4] + (rest + []) == v + w;
    SolidAppend(v, w);
    SolidAppend(t.out, Chunk(t.st, w).out);
    SolidWord();
  }

  lemma {:induction false} SolidWord()
    ensures |Solid("aaaa")| == 4
  {
    assert "aaaa"[1..] == "aaa" && "aaa"[1..] == "aa" && "aa"[1..] == "a" && "a"[1..] == "";
  }

  lemma {:induction false} ChunkAdds(s: Html, w: seq<byte>)
    requires AtEnd(s)
    ensures |Solid(Chunk(s, w).out)| <= |Solid(s.carry)| + |Solid(w)|
  {
    hide Solid;
    Opens(s, w);
    RunAdds(Open(s), s.carry + w);
    SolidAppend(s.carry, w);
    SolidNothing();
  }

  lemma {:induction false} IeMoves(s: Html, v: seq<byte>)
    requires s.carry == [] && s.mode == CommentIe && Ready(s, v) && Falters(s, v)
    ensures Next(s, v) == Move(s, 1, [])
    ensures var u := v + "aaaa"; |u| >= 4 && Next(s, u) == Move(s.(last := Some(u[3])), 4, u[..4])
  {
    var u := v + "aaaa";
    assert u[0] == v[0];
    if u[..4] == "]-->" {
      BeginsMore(v, "aaaa", "]-->");
    }
  }

  lemma {:induction false} RunNone(s: Html)
    requires s.mode == CommentIe
    ensures Run(s, []) == Step(s, [])
  {
  }

  lemma {:induction false} SkipMoves(s: Html, v: seq<byte>)
    requires s.carry == [] && s.mode == CommentSkip && Ready(s, v) && Falters(s, v)
    ensures |v| == 2 && Next(s, v) == Move(s, 1, []) && Next(s, v[1..]) == Move(s, 1, [])
    ensures Next(s, v + "-->a") == Move(s, 3, []) && Next(s, "->a") == Move(s, 3, [])
    ensures Next(s, "-->a") == Move(s.(mode := Text), 3, []) && Next(s.(mode := Text), "a").st.mode == Text
  {
    var u := v + "-->a";
    assert "-->"[..1] == "-" && v[1] != '-' && u[..3] == ['-', v[1], '-'];
    assert "-->a"[..3] == "-->";
  }

  /** A comment ends for the machine that was cut and not for the other. */
  lemma {:induction false} SkipFalters(s: Html, v: seq<byte>)
    requires Names(s) && s.carry == [] && s.mode == CommentSkip && Ready(s, v) && Falters(s, v)
    ensures !Same(s, v, "-->a")
  {
    hide Next, Run, Solid, Names;
    var w := "-->a";
    ReadyMore(s, v, w);
    RunReachable(s, v);
    SkipMoves(s, v);
    RunMove(s, v);
    RunMove(s, v[1..]);
    RunEmpty(s);
    assert v[1..][1..] == [] && Run(s, v).st == s;
    Opens(s, w);
    var o := Open(s);
    assert s.carry + w == w;
    SkipMoves(o, v);
    RunMove(o, w);
    assert w[3..] == "a";
    RunMove(o.(mode := Text), "a");
    TextStays(o.(mode := Text));
    RunMove(s, v + w);
    assert (v + w)[3..] == "->a" && "->a"[3..] == [];
    RunMove(s, "->a");
  }

  lemma {:induction false} TextStays(s: Html)
    requires s.mode == Text && s.carry == []
    ensures Run(s, "a").st.mode == Text
  {
    assert "a"[1..] == [];
  }

  lemma {:induction false} RunEmpty(s: Html)
    requires Ready(s, [])
    ensures Run(s, []) == Step(s, [])
  {
  }

  lemma {:induction false} CdataMoves(s: Html, v: seq<byte>)
    requires s.carry == [] && s.mode == Cdata && Ready(s, v) && Falters(s, v)
    ensures |v| == 2 && Next(s, v).st.mode == Next(s.(last := Some(']')), v[1..]).st.mode == Cdata
    ensures Next(s, v) == Move(s.(last := Some(']'), pre := '\0'), 1, "]")
    ensures var t := s.(last := Some(']'), pre := '\0');
            Next(t, v[1..]) == Move(t.(last := Some(v[1])), 1, [v[1]])
    ensures Next(s, v + "]]>") == Move(s.(last := Some(']'), pre := '\0'), 3, v + "]")
    ensures var t := s.(last := Some(']'), pre := '\0');
            Next(t, "]>") == Move(t, 1, "]") && Next(t, ">") == Move(t.(last := Some('>')), 1, ">")
  {
    var u := v + "]]>";
    assert "]]>"[..1] == "]" && v[1] != ']' && u[..3] == v + "]" && v[1..][..1] == [v[1]] && v[..1] == "]";
    assert "]>"[..1] == "]" && "]]>"[..2] == "]]" && ">"[..1] == ">";
  }

  lemma {:induction false} CdataEnds(s: Html)
    requires s.mode == Cdata && s.carry == []
    ensures Run(s, "]]>").st.mode == Text
  {
    hide Run;
    var w := "]]>";
    assert w[..3] == w && w[3..] == [];
    RunMove(s, w);
    RunEmpty(Next(s, w).st);
  }

  /** A CDATA section ends for the machine that was cut and not for the other. */
  lemma {:induction false} CdataFalters(s: Html, v: seq<byte>)
    requires Names(s) && s.carry == [] && s.mode == Cdata && Ready(s, v) && Falters(s, v)
    ensures !Same(s, v, "]]>")
  {
    hide Next, Run, Solid, Names;
    var w := "]]>";
    ReadyMore(s, v, w);
    RunReachable(s, v);
    CdataMoves(s, v);
    var t := s.(last := Some(']'), pre := '\0');
    RunMove(s, v);
    RunMove(t, v[1..]);
    RunEmpty(t.(last := Some(v[1])));
    assert v[1..][1..] == [];
    var c := Run(s, v).st;
    Opens(c, w);
    assert c.carry + w == w;
    CdataEnds(Open(c));
    RunMove(s, v + w);
    assert (v + w)[3..] == "]>" && "]>"[1..] == ">" && ">"[1..] == [];
    RunMove(t, "]>");
    RunMove(t, ">");
    RunEmpty(t.(last := Some('>')));
  }

  lemma {:induction false} AbortStays(s: Html, w: seq<byte>)
    requires s.mode == Abort && s.carry == []
    ensures Run(s, w).st.mode == Abort && Run(s, w).st.carry == []
    decreases |w|
  {
    if w != [] {
      RunMove(s, w);
      AbortStays(Next(s, w).st, w[1..]);
    }
  }

  lemma {:induction false} BangMoves(s: Html, v: seq<byte>, w: seq<byte>)
    requires s.carry == [] && s.mode == TagBang && Ready(s, v) && Falters(s, v) && |v + w| == 9 && Ready(s, v + w)
    ensures Next(s, v).st.mode == Abort && Next(s, v).st.carry == [] && Next(s, v).used == 0
    ensures Next(s, v + w).st.mode == Text && Next(s, v + w).used == 9
  {
    var u := v + w;
    assert u[2] == v[2];
    if u[..9] == "<![CDATA[" {
      BeginsMore(v, w, "<![CDATA[");
    }
  }

  /** The machine that was cut gives up and copies all the rest; the other goes on. */
  lemma {:induction false} BangFalters(s: Html, v: seq<byte>, w: seq<byte>)
    requires Names(s) && s.carry == [] && s.mode == TagBang && Ready(s, v) && Falters(s, v) && |v + w| == 9
    ensures !Same(s, v, w)
  {
    hide Next, Run, Solid, Names;
    ReadyMore(s, v, w);
    RunReachable(s, v);
    BangMoves(s, v, w);
    RunMove(s, v);
    var a := Next(s, v).st;
    assert v[0..] == v;
    AbortStays(a, v);
    var t := Run(s, v).st;
    Opens(t, w);
    AbortStays(Open(t), t.carry + w);
    RunMove(s, v + w);
    var n := Next(s, v + w).st;
    assert (v + w)[9..] == [];
    RunEmpty(n);
  }

  lemma {:induction false} FalterTells(s: Html, v: seq<byte>)
    requires Names(s) && s.carry == [] && Ready(s, v) && Falters(s, v)
    ensures !Same(s, v, Telltale(s, v))
  {
    hide Same, Names, Ready;
    match s.mode
    case CommentIe => IeFalters(s, v);
    case CommentSkip => SkipFalters(s, v);
    case Cdata => CdataFalters(s, v);
    case TagBang => BangFalters(s, v, Telltale(s, v));
  }

  lemma {:induction false} FalteringTells(s: Html, v: seq<byte>) returns (w: seq<byte>)
    requires Names(s) && s.carry == [] && Ready(s, v) && Faltering(s, v)
    ensures !Same(s, v, w)
    decreases |v|, Rank(s.mode)
  {
    hide Same, Names, Next, Falters, Ready;
    if Falters(s, v) {
      w := Telltale(s, v);
      FalterTells(s, v);
    } else {
      NextProgress(s, v);
      SameMoves(s, v, []);
      w := FalteringTells(Next(s, v).st, v[Next(s, v).used..]);
      SameMoves(s, v, w);
    }
  }

  /** Exactly when a cut is invisible: it changes neither the lexical state nor, but for white space, the
      output of any continuation if and only if the run up to the cut does not falter. */
  lemma {:induction false} CutInvisible(s: Html, v: seq<byte>)
    requires Names(s) && s.carry == [] && Ready(s, v)
    ensures (forall w :: Same(s, v, w)) <==> !Faltering(s, v)
  {
    hide Same, Faltering, Names, Ready;
    if Faltering(s, v) {
      var w := FalteringTells(s, v);
      assert !Same(s, v, w);
    } else {
      forall w ensures Same(s, v, w) {
        SameUnlessFaltering(s, v, w);
      }
    }
  }

  // ---------- over the chain ----------

  /** No buffer but the last falters. */
  ghost predicate GoodCuts(s: Html, chunks: seq<seq<byte>>)
    requires AtEnd(s)
    decreases |chunks|
  {
    |chunks| > 1 ==>
      && (Opens(s, chunks[0]); !Faltering(Open(s), s.carry + chunks[0]))
      && GoodCuts(Chunk(s, chunks[0]).st, chunks[1..])
  }

  /** A chain of buffers comes to the same as one buffer with all their bytes, but for white space. */
  ghost predicate LikeOne(s: Html, chunks: seq<seq<byte>>)
    requires AtEnd(s)
  {
    var t, r := Chunks(s, chunks), Chunk(s, Concat(chunks));
    Reads(t.st, r.st) && Solid(t.out) == Solid(r.out)
  }

  lemma {:induction false} ChunksOne(s: Html, w: seq<byte>)
    requires AtEnd(s)
    ensures Chunks(s, [w]) == Chunk(s, w) && Concat([w]) == w
  {
    hide Chunk, AtEnd;
    assert [w][1..] == [] && w + [] == w && Chunk(s, w).out + [] == Chunk(s, w).out;
  }

  lemma {:induction false} ChunksTwo(s: Html, v: seq<byte>, w: seq<byte>)
    requires AtEnd(s)
    ensures var t := Chunk(s, v); Chunks(s, [v, w]) == After(t.out, Chunk(t.st, w)) && Concat([v, w]) == v + w
  {
    hide Chunk, AtEnd;
    assert [v, w][1..] == [w];
    ChunksOne(Chunk(s, v).st, w);
  }

  lemma {:induction false} OneIsOne(s: Html, w: seq<byte>)
    requires AtEnd(s)
    ensures LikeOne(s, [w])
  {
    hide Chunk, Chunks, AtEnd;
    ChunksOne(s, w);
  }

  /** The first cut shows, or all depends on the others. */
  lemma {:induction false} FirstCut(s: Html, v: seq<byte>, rest: seq<seq<byte>>)
    requires AtEnd(s) && Ready(Open(s), s.carry + v) && Same(Open(s), s.carry + v, Concat(rest))
    ensures LikeOne(s, [v] + rest) <==> LikeOne(Chunk(s, v).st, rest)
  {
    hide Run, Solid, Names, Ready, CarryTable;
    var t, w, chunks := Chunk(s, v), Concat(rest), [v] + rest;
    assert chunks[1..] == rest && (s.carry + v) + w == s.carry + Concat(chunks);
    Opens(s, v);
    SolidCancel(t.out, Chunks(t.st, rest).out, Chunk(t.st, w).out);
    Opens(s, Concat(chunks));
  }

  /** Exactly when the cuts of a chain are invisible: whatever follows any of its buffers, the chain
      comes to the same as one buffer, if and only if no buffer but the last falters. */
  lemma {:induction false} GoodCutsIff(s: Html, chunks: seq<seq<byte>>)
    requires AtEnd(s)
    ensures GoodCuts(s, chunks) <==> forall k, w :: 0 <= k < |chunks| ==> LikeOne(s, chunks[..k] + [w])
  {
    hide LikeOne, GoodCuts, AtEnd;
    if GoodCuts(s, chunks) {
      forall k, w | 0 <= k < |chunks| ensures LikeOne(s, chunks[..k] + [w]) {
        GoodPrefix(s, chunks, k, w);
      }
    } else {
      var k, w := BadPrefix(s, chunks);
      assert !LikeOne(s, chunks[..k] + [w]);
    }
  }

  lemma {:induction false} GoodStep(s: Html, chunks: seq<seq<byte>>)
    requires AtEnd(s)
    ensures |chunks| <= 1 ==> GoodCuts(s, chunks)
    ensures |chunks| > 1 ==>
      && Names(Open(s)) && Ready(Open(s), s.carry + chunks[0])
      && (GoodCuts(s, chunks) <==>
            !Faltering(Open(s), s.carry + chunks[0]) && GoodCuts(Chunk(s, chunks[0]).st, chunks[1..]))
  {
    if |chunks| > 1 {
      Opens(s, chunks[0]);
    }
  }

  lemma {:induction false} GoodPrefix(s: Html, chunks: seq<seq<byte>>, k: nat, w: seq<byte>)
    requires AtEnd(s) && GoodCuts(s, chunks) && k < |chunks|
    ensures LikeOne(s, chunks[..k] + [w])
    decreases k
  {
    hide AtEnd, Faltering, Same, LikeOne, GoodCuts, Chunk, Names, Ready;
    if k == 0 {
      assert chunks[..0] + [w] == [w];
      OneIsOne(s, w);
    } else {
      GoodStep(s, chunks);
      var rest := chunks[1..][..k - 1] + [w];
      assert chunks[..k] + [w] == [chunks[0]] + rest;
      GoodPrefix(Chunk(s, chunks[0]).st, chunks[1..], k - 1, w);
      SameUnlessFaltering(Open(s), s.carry + chunks[0], Concat(rest));
      FirstCut(s, chunks[0], rest);
    }
  }

  lemma {:induction false} BadPrefix(s: Html, chunks: seq<seq<byte>>) returns (k: nat, w: seq<byte>)
    requires AtEnd(s) && !GoodCuts(s, chunks)
    ensures k < |chunks| && !LikeOne(s, chunks[..k] + [w])
    decreases |chunks|
  {
    hide AtEnd, Faltering, Same, LikeOne, GoodCuts, Chunk, Names, Ready;
    GoodStep(s, chunks);
    var v := chunks[0];
    if Faltering(Open(s), s.carry + v) {
      k := 1;
      w := FalteringTells(Open(s), s.carry + v);
      assert chunks[..1] + [w] == [v, w];
      TwoUnlike(s, v, w);
    } else {
      var k', w' := BadPrefix(Chunk(s, v).st, chunks[1..]);
      var rest := chunks[1..][..k'] + [w'];
      k, w := k' + 1, w';
      assert chunks[..k] + [w] == [v] + rest;
      SameUnlessFaltering(Open(s), s.carry + v, Concat(rest));
      FirstCut(s, v, rest);
    }
  }

  lemma {:induction false} TwoUnlike(s: Html, v: seq<byte>, w: seq<byte>)
    requires AtEnd(s) && Ready(Open(s), s.carry + v) && !Same(Open(s), s.carry + v, w)
    ensures !LikeOne(s, [v, w])
  {
    hide Run, Solid, Names, Ready, CarryTable, Chunks;
    ChunksTwo(s, v, w);
    assert (s.carry + v) + w == s.carry + (v + w);
    Opens(s, v);
    Opens(s, v + w);
  }

  /** Two cuttings of one input, neither of which makes the machine falter, differ in white space alone,
      and end in the same lexical state with the same carry. */
  lemma {:induction false} TwoCuttings(c: seq<seq<byte>>, d: seq<seq<byte>>)
    requires c != [] && d != [] && Concat(c) == Concat(d) && GoodCuts(START, c) && GoodCuts(START, d)
    ensures var t, u := Chunks(START, c), Chunks(START, d);
            Solid(t.out) == Solid(u.out) && Reads(t.st, u.st)
  {
    hide Chunks, GoodCuts, Solid, Concat;
    var m, n := |c| - 1, |d| - 1;
    GoodPrefix(START, c, m, c[m]);
    GoodPrefix(START, d, n, d[n]);
    assert c[..m] + [c[m]] == c && d[..n] + [d[n]] == d;
  }

  // ---------- an example ----------

  lemma {:induction false} IeNames(w: seq<byte>)
    requires "<!--[if" <= w
    ensures Next(START, w) == Move(START.(mode := TagBang), 0, [])
    ensures Next(START.(mode := TagBang), w) == Move(START.(mode := Comment), 0, [])
    ensures Next(START.(mode := Comment), w) == Move(START.(mode := CommentIe), 0, [])
  {
    assert w[..7] == "<!--[if";
  }

  /** The opening of a conditional comment at the start of the text. */
  lemma {:induction false} IeOpens(w: seq<byte>)
    ensures var s := START.(mode := CommentIe, last := Some('f'));
            Run(START, "<!--[if" + w) == After("<!--[if", Run(s, w))
  {
    hide Next, Run;
    var v := "<!--[if" + w;
    assert v[0..] == v;
    IeNames(v);
    RunMove(START, v);
    RunMove(START.(mode := TagBang), v);
    RunMove(START.(mode := Comment), v);
    var s := START.(mode := CommentIe);
    IeCopies(s, "<!--[if", w);
    AfterAfter([], [], Run(s, v));
    assert [] + Run(s, v).out == Run(s, v).out;
  }

  lemma {:induction false} BracketKept(s: Html)
    requires s.mode == CommentIe && s.carry == []
    ensures Run(s, "]xyz") == Step(s.(last := Some('z')), "]xyz")
  {
    var w := "]xyz";
    assert w[..4] == w && w[4..] == [];
    assert Next(s, w) == Move(s.(last := Some('z')), 4, w);
  }

  lemma {:induction false} BracketDropped(s: Html)
    requires s.mode == CommentIe && s.carry == []
    ensures Run(s, "]x") == Step(s.(last := Some('x')), "x")
  {
    var w := "]x";
    assert "]-->"[..2][1] == '-' && Lower('x') == 'x';
    assert Next(s, w) == Move(s, 1, []) && w[1..] == "x";
    assert "x" + [] == "x";
    IeCopies(s, "x", []);
  }

  /** A bracket in a conditional comment is copied with the three bytes behind it, but dropped if the
      buffer ends before them and what there is does not begin `]-->`: two cuttings of one input
      differ by more than white space. */
  lemma {:induction false} BracketLost()
    ensures Chunks(START, ["<!--[if]xyz"]).out == "<!--[if]xyz"
    ensures Chunks(START, ["<!--[if]x", "yz"]).out == "<!--[ifxyz"
  {
    hide Chunks, Run;
    var s := START.(mode := CommentIe, last := Some('f'));
    var v, u, w := "<!--[if]xyz", "<!--[if]x", "yz";
    assert "<!--[if" + "]xyz" == v && "<!--[if" + "]x" == u;
    IeOpens("]xyz");
    BracketKept(s);
    assert START.carry + v == v && START.carry + u == u && Open(START) == START;
    ChunksOne(START, v);
    IeOpens("]x");
    BracketDropped(s);
    var t := s.(last := Some('x'));
    assert Chunk(START, u) == Step(t, "<!--[ifx");
    var o := Open(t);
    assert w + [] == w && t.carry + w == w;
    IeCopies(o, w, []);
    RunNone(o.(last := Some('z')));
    ChunksTwo(START, u, w);
  }
}
