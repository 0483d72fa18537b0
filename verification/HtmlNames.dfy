/** Where the remembered name of a `pre`, `script` or `style` block comes from, and where it is left over. */
module HtmlNames {
  import opened Bytes
  import opened HtmlMachine
  import opened HtmlStreams
  import opened HtmlBlocks

  /** A name is remembered although no block is being skipped. */
  predicate Dangles(s: Html) {
    s.name != [] && s.mode != Skip && s.mode != Tag && s.mode != TagName && s.mode != TagAtt && s.mode != TagNameEnd
  }

  /** How that begins: with an empty closing tag. How it goes on, and that the next opening tag ends it. */
  lemma {:induction false} DanglesIff(s: Html, w: seq<byte>)
    requires w != [] && Reachable(s, w)
    ensures var m := Next(s, w);
            && (Dangles(m.st) <==>
                  (Dangles(s) && m.st.mode != Tag)
                  || (s.mode == TagNameEnd && s.name != [] && s.col == [] && w[0] == '>'))
            && (Dangles(m.st) ==> m.st.name == s.name)
            && (m.st.mode == TagName && s.mode != TagName ==> m.st.name == [])
  {
    hide SkipName, Begins;
  }

  /** In a block, or in a closing tag read in it. */
  predicate Inside(s: Html) {
    s.mode == Skip || ((s.mode == Tag || s.mode == TagNameEnd) && s.name != [])
  }

  /** Where no name is left over, a block is entered exactly at the `>` of an opening tag of one of the names. */
  lemma {:induction false} OnlyByTag(s: Html, w: seq<byte>)
    requires w != [] && Reachable(s, w) && !Dangles(s) && !Inside(s)
    ensures Inside(Next(s, w).st) <==> w[0] == '>' && (s.mode == TagName || s.mode == TagAtt) && SkipName(s.name)
  {
    hide SkipName, Begins;
  }

  // ---------- left-over names in the input ----------

  /** A tag has been opened, and nothing but spaces came since. */
  predicate Opened(u: seq<byte>) {
    var n := |u| - 1;
    u != [] && (|| u[n] == '<'
                || (n >= 1 && u[n - 1] == '<' && u[n] == '!')
                || (n >= 2 && u[n - 2] == '<' && u[n - 1] == '!' && u[n] == '-')
                || (u[n] == ' ' && Opened(u[..n])))
  }

  /** A closing tag has been opened, and nothing but spaces came since. */
  predicate Emptied(u: seq<byte>) {
    var n := |u| - 1;
    u != [] && ((u[n] == '/' && Opened(u[..n])) || (u[n] == ' ' && Emptied(u[..n])))
  }

  /** No closing tag `</>`, spaces aside, is in the input. */
  predicate NoEmptyTag(w: seq<byte>) {
    forall k :: 0 <= k < |w| && w[k] == '>' ==> !Emptied(w[..k])
  }

  lemma {:induction false} NoEmptyPrefix(v: seq<byte>, w: seq<byte>)
    requires NoEmptyTag(v + w)
    ensures NoEmptyTag(v)
  {
    forall k | 0 <= k < |v| && v[k] == '>' ensures !Emptied(v[..k]) {
      assert (v + w)[k] == '>' && (v + w)[..k] == v[..k];
    }
  }

  lemma {:induction false} NoEmptyHere(u: seq<byte>, w: seq<byte>)
    requires NoEmptyTag(u + w) && w != [] && w[0] == '>'
    ensures !Emptied(u)
  {
    assert (u + w)[|u|] == '>' && (u + w)[..|u|] == u;
  }

  /** What the bytes read so far end with, in the states that depend on it. */
  ghost predicate Since(s: Html, u: seq<byte>) {
    && (s.mode == Tag ==> Opened(u))
    && (s.mode == TagNameEnd && s.name != [] && s.col == [] ==> Emptied(u))
  }

  lemma {:induction false} SinceLater(u: seq<byte>, c: byte)
    ensures c == '<' ==> Opened(u + [c])
    ensures c == ' ' && Opened(u) ==> Opened(u + [c])
    ensures c == '/' && Opened(u) ==> Emptied(u + [c])
    ensures c == ' ' && Emptied(u) ==> Emptied(u + [c])
    ensures Opened(u + ['<', '!']) && Opened(u + ['<', '!', '-'])
  {
    assert (u + [c])[..|u + [c]| - 1] == u;
  }

  lemma {:induction false} BangSince(s: Html, u: seq<byte>, w: seq<byte>)
    requires w != [] && Reachable(s, w) && s.mode == TagBang
    ensures var m := Next(s, w); m.used <= |w| && Since(m.st, u + w[..m.used])
  {
    hide SkipName, Begins, Opened, Emptied, NextText, NextTagName, NextTagAtt, NextTagNameEnd, NextComment;
    NextProgress(s, w);
    SinceLater(u, w[0]);
    assert w[..2] == ['<', '!'];
    assert w[2] == '-' ==> w[..3] == ['<', '!', '-'];
  }

  /** The moves that open a tag, and those that open a closing tag or find it empty so far. */
  lemma {:induction false} TagMoves(s: Html, w: seq<byte>)
    requires w != [] && Reachable(s, w) && (s.mode == Text || s.mode == Skip || s.mode == Tag || s.mode == TagNameEnd)
    ensures var m := Next(s, w);
            && m.used <= |w| && (m.st.mode == Tag ==> m.used == 1 && (w[0] == '<' || (w[0] == ' ' && s.mode == Tag)))
            && (m.st.mode == TagNameEnd && m.st.name != [] && m.st.col == [] ==>
                  m.used == 1
                  && (|| (w[0] == '/' && s.mode == Tag)
                      || (w[0] == ' ' && s.mode == TagNameEnd && s.name != [] && s.col == [])))
  {
    hide SkipName, Begins, NextTagBang, NextComment, NextTagName, NextTagAtt, CarryTable;
    NextProgress(s, w);
  }

  lemma {:induction false} NoTagSince(s: Html, w: seq<byte>)
    requires w != [] && Reachable(s, w)
    requires s.mode != Text && s.mode != Skip && s.mode != Tag && s.mode != TagNameEnd && s.mode != TagBang
    ensures var m := Next(s, w); m.used <= |w| && m.st.mode != Tag && m.st.mode != TagNameEnd
  {
    hide SkipName, Begins, NextText, NextTagBang, NextTagNameEnd, CarryTable;
    NextProgress(s, w);
  }

  lemma {:induction false} NextSince(s: Html, u: seq<byte>, w: seq<byte>)
    requires w != [] && Reachable(s, w) && Since(s, u)
    ensures var m := Next(s, w); m.used <= |w| && Since(m.st, u + w[..m.used])
  {
    hide Next, Opened, Emptied, Reachable, Ready;
    if s.mode == TagBang {
      BangSince(s, u, w);
    } else if s.mode == Text || s.mode == Skip || s.mode == Tag || s.mode == TagNameEnd {
      TagMoves(s, w);
      SinceLater(u, w[0]);
      assert w[..1] == [w[0]];
    } else {
      NoTagSince(s, w);
    }
  }

  /** Every block along the run is entered at the `>` of an opening tag of one of the names. */
  ghost predicate EnteredByTags(s: Html, w: seq<byte>)
    requires Ready(s, w)
    decreases |w|, Rank(s.mode)
  {
    w != [] ==>
      var m := Next(s, w);
      && (!Inside(s) && Inside(m.st) ==>
            w[0] == '>' && (s.mode == TagName || s.mode == TagAtt) && SkipName(s.name))
      && (NextProgress(s, w); EnteredByTags(m.st, w[m.used..]))
  }

  lemma {:induction false} CarriesNoTag(s: Html, w: seq<byte>)
    requires w != [] && Reachable(s, w) && Next(s, w).st.carry != []
    ensures Next(s, w).st.mode != Tag && Next(s, w).st.mode != TagNameEnd
  {
    hide SkipName, Begins;
  }

  lemma {:induction false} RunSince(s: Html, u: seq<byte>, w: seq<byte>)
    requires Reachable(s, w) && s.carry == [] && Since(s, u) && !Dangles(s) && NoEmptyTag(u + w)
    ensures var t := Run(s, w).st;
            && EnteredByTags(s, w) && !Dangles(t)
            && |t.carry| <= |w| && Since(t, u + w[..|w| - |t.carry|])
    decreases |w|, Rank(s.mode)
  {
    hide Next, Dangles, Inside, NoEmptyTag, Emptied, Opened, Names, CarryTable, SkipName;
    if w == [] {
      assert u + w[..0] == u;
    } else {
      var m := Next(s, w);
      NextProgress(s, w);
      NextReachable(s, w);
      NextKeeps(s, w);
      DanglesIff(s, w);
      NextSince(s, u, w);
      RunMove(s, w);
      if !Inside(s) {
        OnlyByTag(s, w);
      }
      if s.mode == TagNameEnd && s.name != [] && s.col == [] && w[0] == '>' {
        NoEmptyHere(u, w);
      }
      var v := w[m.used..];
      if m.st.carry == [] {
        assert (u + w[..m.used]) + v == u + w;
        RunSince(m.st, u + w[..m.used], v);
        var t := Run(m.st, v).st;
        assert (u + w[..m.used]) + v[..|v| - |t.carry|] == u + w[..|w| - |t.carry|];
      } else {
        CarriesNoTag(s, w);
        assert v == [];
      }
    }
  }

  /** No opening tag is read along the run. */
  ghost predicate Untagged(s: Html, w: seq<byte>)
    requires Ready(s, w)
    decreases |w|, Rank(s.mode)
  {
    w != [] ==>
      var m := Next(s, w);
      m.st.mode != TagName && (NextProgress(s, w); Untagged(m.st, w[m.used..]))
  }

  /** At `k` an empty closing tag ends; the run goes on from `t`, with no opening tag behind it. */
  ghost predicate LeftAt(s: Html, u: seq<byte>, w: seq<byte>, k: nat, t: Html) {
    && 0 < k <= |w| && w[k - 1] == '>' && Emptied(u + w[..k - 1])
    && Ready(s, w) && Ready(t, w[k..]) && Dangles(t) && Run(s, w).st == Run(t, w[k..]).st && Untagged(t, w[k..])
  }

  lemma {:induction false} LeftLater(s: Html, u: seq<byte>, w: seq<byte>, k: nat, t: Html)
    requires w != [] && Ready(s, w)
    requires var m := Next(s, w); m.used <= |w| && LeftAt(m.st, u + w[..m.used], w[m.used..], k, t)
    ensures LeftAt(s, u, w, Next(s, w).used + k, t)
  {
    hide Next, Run, Emptied, Dangles, Untagged, Ready;
    var n := Next(s, w).used;
    RunMove(s, w);
    assert w[n..][k..] == w[n + k..] && w[n..][k - 1] == w[n + k - 1];
    assert (u + w[..n]) + w[n..][..k - 1] == u + w[..n + k - 1];
  }

  lemma {:induction false} LeftNow(s: Html, u: seq<byte>, w: seq<byte>)
    requires w != [] && w[0] == '>' && Emptied(u) && Ready(s, w) && Next(s, w).used == 1 && Dangles(Next(s, w).st)
    requires Ready(Next(s, w).st, w[1..]) && Untagged(Next(s, w).st, w[1..])
    ensures LeftAt(s, u, w, 1, Next(s, w).st)
  {
    hide Next, Run, Emptied, Dangles, Untagged, Ready;
    RunMove(s, w);
    assert u + w[..0] == u;
  }

  lemma {:induction false} ClosingReadsOne(s: Html, w: seq<byte>)
    requires w != [] && Ready(s, w) && s.mode == TagNameEnd
    ensures Next(s, w).used == 1
  {
  }

  lemma {:induction false} DanglesSince(s: Html, u: seq<byte>, w: seq<byte>) returns (k: nat, t: Html)
    requires Reachable(s, w) && s.carry == [] && Since(s, u) && Dangles(Run(s, w).st)
    ensures (Dangles(s) && Untagged(s, w)) || LeftAt(s, u, w, k, t)
    decreases |w|, Rank(s.mode)
  {
    hide Next, Emptied, Opened, Names, CarryTable, SkipName, LeftAt, Since, Dangles;
    k, t := 0, s;
    if w != [] {
      var m := Next(s, w);
      NextProgress(s, w);
      var v := w[m.used..];
      NextReachable(s, w);
      NextKeeps(s, w);
      DanglesIff(s, w);
      NextSince(s, u, w);
      RunMove(s, w);
      if m.st.carry == [] {
        k, t := DanglesSince(m.st, u + w[..m.used], v);
        if LeftAt(m.st, u + w[..m.used], v, k, t) {
          LeftLater(s, u, w, k, t);
          k := m.used + k;
          return;
        }
      } else {
        assert v == [];
      }
      DangleMode(m.st);
      if !Dangles(s) {
        ClosingReadsOne(s, w);
        SinceClosing(s, u);
        LeftNow(s, u, w);
        k, t := 1, m.st;
      }
    }
  }

  /** A name is left over outside a block only since a closing tag `</>` with no opening tag behind it. */
  lemma {:induction false} LeftOverSince(w: seq<byte>) returns (k: nat, t: Html)
    requires Dangles(Run(START, w).st)
    ensures LeftAt(START, [], w, k, t)
  {
    k, t := DanglesSince(START, [], w);
  }

  lemma {:induction false} DangleMode(s: Html)
    ensures Dangles(s) ==> s.mode != TagName
  {
  }

  lemma {:induction false} SinceClosing(s: Html, u: seq<byte>)
    requires Since(s, u) && s.mode == TagNameEnd && s.name != [] && s.col == []
    ensures Emptied(u)
  {
  }

  // ---------- over the chain ----------

  /** `s` has read `v`, whose end it may still carry. */
  ghost predicate HasSeen(s: Html, v: seq<byte>) {
    && AtEnd(s) && !Dangles(s) && |s.carry| <= |v| && v[|v| - |s.carry|..] == s.carry
    && Since(s, v[..|v| - |s.carry|])
  }

  lemma {:induction false} ChunkSees(s: Html, v: seq<byte>, w: seq<byte>)
    requires HasSeen(s, v) && NoEmptyTag(v + w)
    ensures HasSeen(Chunk(s, w).st, v + w)
    ensures Ready(Open(s), s.carry + w) && EnteredByTags(Open(s), s.carry + w)
  {
    hide Run, NoEmptyTag, Names, CarryTable, Opened, Emptied, Ready, EnteredByTags;
    var c, t, u := s.carry, Chunk(s, w), v[..|v| - |s.carry|];
    Opens(s, w);
    assert u + (c + w) == v + w;
    RunSince(Open(s), u, c + w);
    RunCarriesSuffix(Open(s), c + w);
    var d := t.st.carry;
    assert (v + w)[|v + w| - |d|..] == (c + w)[|c + w| - |d|..];
    assert (v + w)[..|v + w| - |d|] == u + (c + w)[..|c + w| - |d|];
  }

  lemma {:induction false} ChunksSee(s: Html, v: seq<byte>, chunks: seq<seq<byte>>)
    requires HasSeen(s, v) && NoEmptyTag(v + Concat(chunks))
    ensures HasSeen(Chunks(s, chunks).st, v + Concat(chunks))
    decreases |chunks|
  {
    hide NoEmptyTag, HasSeen, Chunk;
    SeenAtEnd(s, v);
    if chunks == [] {
      assert v + Concat(chunks) == v;
    } else {
      var w := chunks[0];
      assert (v + w) + Concat(chunks[1..]) == v + Concat(chunks);
      NoEmptyPrefix(v + w, Concat(chunks[1..]));
      ChunkSees(s, v, w);
      ChunksSee(Chunk(s, w).st, v + w, chunks[1..]);
    }
  }

  lemma {:induction false} SeenAtEnd(s: Html, v: seq<byte>)
    requires HasSeen(s, v)
    ensures AtEnd(s) && !Dangles(s)
  {
  }

  lemma {:induction false} SeenNothing()
    ensures HasSeen(START, [])
  {
  }

  /** Without `</>` in the input, for every chain of buffers: no name is left over outside a block, and every
      block is entered at an opening tag. */
  lemma {:induction false} BlocksEnteredByTags(chunks: seq<seq<byte>>, w: seq<byte>)
    requires NoEmptyTag(Concat(chunks) + w)
    ensures var s := Chunks(START, chunks).st;
            !Dangles(s) && Ready(Open(s), s.carry + w) && EnteredByTags(Open(s), s.carry + w)
  {
    hide Chunks, NoEmptyTag, Ready, EnteredByTags, Dangles;
    NoEmptyPrefix(Concat(chunks), w);
    assert [] + Concat(chunks) == Concat(chunks);
    SeenNothing();
    ChunksSee(START, [], chunks);
    ChunkSees(Chunks(START, chunks).st, Concat(chunks), w);
    SeenAtEnd(Chunks(START, chunks).st, Concat(chunks));
  }

  // ---------- what a left-over name does ----------

  /** While a name is left over, a closing tag in the text is read as if it stood in the block: unless it is empty
      or begins with the name, all that follows is skipped. */
  lemma {:induction false} ClosingTagReenters(s: Html, x: seq<byte>)
    requires s.mode == Text && s.name != [] && SkipName(s.name) && s.col == [] && s.carry == []
    ensures var b := Html(TagNameEnd, '\0', Some('/'), s.name, [], []);
            InBlock(b, Closing([])) && Agrees(b, Closing([]), x) && Run(s, "</" + x) == After("</", Run(b, x))
  {
    hide SkipName, Run, Agrees;
    var w, b := "</" + x, Html(TagNameEnd, '\0', Some('/'), s.name, [], []);
    var m := Next(s, w);
    assert w[..1] == "<" && w[1..] == "/" + x && w[1..][..1] == "/" && w[1..][1..] == x;
    assert m == Move(Html(Tag, '\0', Some('<'), s.name, [], []), 1, "<");
    assert Next(m.st, w[1..]) == Move(b, 1, "/");
    RunMove(s, w);
    RunMove(m.st, w[1..]);
    AfterAfter("<", "/", Run(b, x));
    RunBlock(b, Closing([]), x);
  }

  lemma {:induction false} NameByte(s: Html, w: seq<byte>)
    requires s.mode == TagName && s.carry == [] && s.pre == '\0' && w != [] && w[0] !in {'>', ' ', '/'}
    ensures Next(s, w) == Move(s.(name := s.name + [w[0]], last := Some(w[0])), 1, [w[0]])
  {
    hide SkipName;
    assert w[..1] == [w[0]];
  }

  lemma {:induction false} PreStarts(w: seq<byte>)
    ensures Run(START, "<pre>" + w) == After("<", Run(Html(TagName, '\0', Some('<'), [], [], []), "pre>" + w))
  {
    hide Run;
    var v := "<pre>" + w;
    assert v[..1] == "<" && v[1..] == "pre>" + w && v[1..][0..] == v[1..];
    var t := Html(TagName, '\0', Some('<'), [], [], []);
    assert Next(START, v) == Move(t.(mode := Tag), 1, "<");
    assert Next(t.(mode := Tag), v[1..]) == Move(t, 0, []);
    RunMove(START, v);
    RunMove(t.(mode := Tag), v[1..]);
    assert [] + Run(t, v[1..]).out == Run(t, v[1..]).out;
  }

  lemma {:induction false} PreNamed(w: seq<byte>)
    ensures var t := Html(TagName, '\0', Some('<'), [], [], []);
            Run(t, "pre>" + w) == After("pre", Run(t.(name := "pre", last := Some('e')), ">" + w))
  {
    hide Next, Run;
    var t := Html(TagName, '\0', Some('<'), [], [], []);
    var x, y, z := "pre>" + w, "re>" + w, "e>" + w;
    assert x[1..] == y && y[1..] == z && z[1..] == ">" + w;
    assert [] + ['p'] == "p" && "p" + ['r'] == "pr" && "pr" + ['e'] == "pre";
    NameByte(t, x);
    NameByte(t.(name := "p", last := Some('p')), y);
    NameByte(t.(name := "pr", last := Some('r')), z);
    RunMove(t, x);
    RunMove(t.(name := "p", last := Some('p')), y);
    RunMove(t.(name := "pr", last := Some('r')), z);
    var r := Run(t.(name := "pre", last := Some('e')), ">" + w);
    AfterAfter("r", "e", r);
    AfterAfter("p", "re", r);
  }

  const IN_PRE := Html(Skip, '\0', Some('>'), "pre", [], [])

  lemma {:induction false} PreOpens(w: seq<byte>)
    ensures InBlock(IN_PRE, Verbatim) && Run(START, "<pre>" + w) == After("<pre>", Run(IN_PRE, w))
  {
    hide Run;
    var u := Html(TagName, '\0', Some('e'), "pre", [], []);
    PreStarts(w);
    PreNamed(w);
    assert (">" + w)[1..] == w && (">" + w)[..1] == ">";
    RunMove(u, ">" + w);
    AfterAfter("pre", ">", Run(IN_PRE, w));
    AfterAfter("<", "pre>", Run(IN_PRE, w));
  }

  /** The input `<pre></></b>`: the empty tag ends the block, the other one makes the machine skip again. */
  lemma {:induction false} EmptyTagThenClosing()
    ensures Run(START, "<pre></>").st.mode == Text && Run(START, "<pre></></b>").st.mode == Skip
  {
    hide Run, SkipName, BlockRun, InBlock, LeftState;
    PreOpens("</>");
    PreOpens("</></b>");
    assert "<pre>" + "</>" == "<pre></>" && "<pre>" + "</></b>" == "<pre></></b>";
    EmptyTagEnds("");
    EmptyTagEnds("</b>");
    assert "</>" + "" == "</>" && "</>" + "</b>" == "</></b>";
    BackInPre();
  }

  lemma {:induction false} EmptyTagEnds(x: seq<byte>)
    ensures Run(IN_PRE, "</>" + x) == After("</>", Run(LeftState("pre", true), x))
    ensures Run(LeftState("pre", true), []).st.mode == Text
  {
    hide Run, BlockRun;
    RunBlock(IN_PRE, Verbatim, "</>" + x);
    EmptyTagLeaves("pre", x);
    RunNothing(LeftState("pre", true));
  }

  lemma {:induction false} BackInPre()
    ensures Run(LeftState("pre", true), "</b>").st.mode == Skip
  {
    hide Run, BlockRun;
    ClosingTagReenters(LeftState("pre", true), "b>");
    assert "</" + "b>" == "</b>";
    OtherTagStays();
  }

  lemma {:induction false} RunNothing(s: Html)
    requires Ready(s, [])
    ensures Run(s, []) == Step(s, [])
  {
  }

  lemma {:induction false} EmptyTagLeaves(name: seq<byte>, x: seq<byte>)
    ensures BlockRun(name, Verbatim, "</>" + x) == BlockStep(Left(true), "</>", x)
  {
    hide BlockRun;
    var w := "</>" + x;
    BlockTwo(name, w);
    assert w[2..] == ">" + x && (">" + x)[1..] == x;
    BlockOne(name, Closing([]), ">" + x);
    BlockNone(name, Left(true), x);
  }

  lemma {:induction false} OtherTagStays()
    ensures BlockRun("pre", Closing([]), "b>").st == Verbatim
  {
    hide BlockRun;
    assert "b>"[1..] == ">" && ">"[1..] == "" && !("pre" <= "b") && [] + ['b'] == "b";
    BlockOne("pre", Closing([]), "b>");
    BlockOne("pre", Closing("b"), ">");
    BlockNone("pre", Verbatim, "");
  }
}
