/** The content of `pre`, `script` and `style` survives, for every way of cutting the input. */
module HtmlBlocks {
  import opened Bytes
  import opened Thinning
  import opened HtmlMachine
  import opened HtmlStreams

  /** Inside a skipped block: in its text, after a pending `<`, after `</` with `col` collected so
      far, or out of it; `kept` if the name is still remembered. */
  datatype Block = Verbatim | Angle | Closing(col: seq<byte>) | Left(kept: bool)

  datatype BlockStep = BlockStep(st: Block, out: seq<byte>, rest: seq<byte>)

  /** One byte inside a block that is skipped because of `name`. */
  function BlockNext(name: seq<byte>, b: Block, c: byte): (Block, seq<byte>) {
    match b
    case Verbatim => if c == '<' then (Angle, []) else (Verbatim, [c])
    case Angle => if c == '/' then (Closing([]), ['<', c]) else (Verbatim, ['<', c])
    case Closing(col) =>
      if c == ' ' then (b, [])
      else if c != '>' then (Closing(col + [c]), [c])
      else if col == [] then (Left(true), [c])
      else if name <= col then (Left(false), [c])
      else (Verbatim, [c])
    case Left(_) => (b, [])
  }

  /** The block up to its end or the end of the bytes, whichever comes first. */
  function BlockRun(name: seq<byte>, b: Block, w: seq<byte>): (t: BlockStep)
    ensures |t.rest| <= |w|
    decreases |w|
  {
    if w == [] || b.Left? then BlockStep(b, [], w)
    else
      var (b', out) := BlockNext(name, b, w[0]);
      var t := BlockRun(name, b', w[1..]);
      t.(out := out + t.out)
  }

  /** The machine is in a block, at `b`. */
  ghost predicate InBlock(s: Html, b: Block) {
    && s.name != [] && SkipName(s.name)
    && match b
       case Verbatim => s.mode == Skip && s.col == [] && s.carry == []
       case Angle => s.mode == Skip && s.col == [] && s.carry == "<"
       case Closing(col) => s.mode == TagNameEnd && s.col == col && s.carry == []
       case Left(_) => false
  }

  /** The machine right after the `>` that ends a block. */
  function LeftState(name: seq<byte>, kept: bool): Html {
    Html(Text, '>', Some('>'), if kept then name else [], [], [])
  }

  /** A machine that skips is in a block; so is one that collects a closing tag while it remembers a name. */
  lemma {:induction false} SkippingIsInBlock(s: Html)
    requires AtEnd(s)
    ensures s.mode == Skip ==> InBlock(s, if s.carry == [] then Verbatim else Angle)
    ensures s.mode == TagNameEnd && s.name != [] ==> InBlock(s, Closing(s.col))
  {
    assert s.mode == Skip ==> s.carry == "" || s.carry == "<";
  }

  /** So it is after every chain of buffers. */
  lemma {:induction false} ChunksInBlock(chunks: seq<seq<byte>>)
    ensures var s := Chunks(START, chunks).st;
            && (s.mode == Skip ==> InBlock(s, if s.carry == [] then Verbatim else Angle))
            && (s.mode == TagNameEnd && s.name != [] ==> InBlock(s, Closing(s.col)))
  {
    hide Chunks, InBlock;
    SkippingIsInBlock(Chunks(START, chunks).st);
  }

  /** A block is entered exactly at the `>` of a tag of one of the three names, or of a closing tag, while a name
      is remembered, whose text does not begin with it. The second is the way back into the block that the
      tag failed to end; but a name is also remembered after `</>`, outside any block. */
  lemma {:induction false} EntersBlock(s: Html, w: seq<byte>)
    requires w != [] && Reachable(s, w) && s.mode != Skip
    ensures var m := Next(s, w);
            && (m.st.mode == Skip <==>
                  w[0] == '>' && (|| ((s.mode == TagName || s.mode == TagAtt) && SkipName(s.name))
                                  || (s.mode == TagNameEnd && s.col != [] && !(s.name <= s.col))))
            && (m.st.mode == Skip ==> InBlock(m.st, Verbatim) && m.st.name == s.name && m.used == 1 && m.out == ">")
  {
    hide SkipName, Begins;
    assert w[..1] == [w[0]];
  }

  lemma {:induction false} BlockOne(name: seq<byte>, b: Block, w: seq<byte>)
    requires w != [] && !b.Left?
    ensures var n := BlockNext(name, b, w[0]);
            var t := BlockRun(name, n.0, w[1..]);
            BlockRun(name, b, w) == t.(out := n.1 + t.out)
  {
  }

  /** What the machine does in a block, as the block reference says. */
  ghost predicate Agrees(s: Html, b: Block, w: seq<byte>)
    requires Ready(s, w)
  {
    var r, t := BlockRun(s.name, b, w), Run(s, w);
    if r.st.Left? then
      Ready(LeftState(s.name, r.st.kept), r.rest) && t == After(r.out, Run(LeftState(s.name, r.st.kept), r.rest))
    else
      r.rest == [] && t.out == r.out && InBlock(t.st, r.st) && t.st.name == s.name
  }

  lemma {:induction false} AgreesAfter(s: Html, b: Block, w: seq<byte>, s': Html, b': Block, w': seq<byte>, out: seq<byte>)
    requires Ready(s, w) && Ready(s', w') && s'.name == s.name
    requires Run(s, w) == After(out, Run(s', w'))
    requires var t := BlockRun(s.name, b', w'); BlockRun(s.name, b, w) == t.(out := out + t.out)
    requires Agrees(s', b', w')
    ensures Agrees(s, b, w)
  {
    hide Run, BlockRun, InBlock;
    var t := BlockRun(s.name, b', w');
    if t.st.Left? {
      AfterAfter(out, t.out, Run(LeftState(s.name, t.st.kept), t.rest));
    }
  }

  /** A move that reads one byte. */
  lemma {:induction false} OneByte(s: Html, b: Block, w: seq<byte>)
    requires InBlock(s, b) && Reachable(s, w) && w != []
    requires b.Closing? || (b.Verbatim? && w[0] != '<')
    ensures var m, n := Next(s, w), BlockNext(s.name, b, w[0]);
            && m.used == 1 && m.out == n.1
            && (if n.0.Left? then m.st == LeftState(s.name, n.0.kept)
                else InBlock(m.st, n.0) && m.st.name == s.name && !n.0.Angle?)
  {
    hide SkipName;
    assert w[..1] == [w[0]];
  }

  lemma {:induction false} LeavesHere(s: Html, b: Block, w: seq<byte>)
    requires InBlock(s, b) && Reachable(s, w) && w != [] && b.Closing?
    requires BlockNext(s.name, b, w[0]).0.Left?
    ensures Agrees(s, b, w)
  {
    var m := Next(s, w);
    OneByte(s, b, w);
    RunMove(s, w);
    BlockOne(s.name, b, w);
    assert m.out + [] == m.out;
  }

  lemma {:induction false} ClosingMoves(s: Html, w: seq<byte>)
    requires InBlock(s, Verbatim) && |w| >= 2 && w[0] == '<' && w[1] == '/'
    ensures var m := Next(s, w);
            && m.used == 1 && m.out == "<" && Ready(m.st, w[1..])
            && Next(m.st, w[1..]) == Move(Html(TagNameEnd, '\0', Some('/'), s.name, [], []), 1, "/")
  {
    assert w[..1] == "<" && w[1..][..1] == "/";
  }

  /** `</` is read in two moves. */
  lemma {:induction false} ClosingOpens(s: Html, w: seq<byte>)
    requires InBlock(s, Verbatim) && Reachable(s, w) && |w| >= 2 && w[0] == '<' && w[1] == '/'
    ensures var s' := Html(TagNameEnd, '\0', Some('/'), s.name, [], []);
            && Ready(s', w[2..]) && Reachable(s', w[2..]) && Run(s, w) == After("</", Run(s', w[2..]))
  {
    hide Next, Run, InBlock, Names, CarryTable, Ready;
    var m := Next(s, w);
    ClosingMoves(s, w);
    RunMove(s, w);
    NextReachable(s, w);
    RunMove(m.st, w[1..]);
    NextReachable(m.st, w[1..]);
    assert w[1..][1..] == w[2..] && "<" + "/" == "</";
    AfterAfter("<", "/", Run(Next(m.st, w[1..]).st, w[2..]));
  }

  lemma {:induction false} PairRead(s: Html, w: seq<byte>)
    requires InBlock(s, Verbatim) && Reachable(s, w) && |w| >= 2 && w[0] == '<' && w[1] != '/'
    ensures var m := Next(s, w);
            && m.used == 2 && m.out == ['<', w[1]] && InBlock(m.st, Verbatim) && m.st.name == s.name
  {
    assert w[..2] == ['<', w[1]];
  }

  lemma {:induction false} BlockTwo(name: seq<byte>, w: seq<byte>)
    requires |w| >= 2 && w[0] == '<'
    ensures var n := BlockNext(name, Angle, w[1]);
            var t := BlockRun(name, n.0, w[2..]);
            BlockRun(name, Verbatim, w) == t.(out := n.1 + t.out)
  {
    BlockOne(name, Verbatim, w);
    BlockOne(name, Angle, w[1..]);
    assert w[1..][1..] == w[2..];
    var n := BlockNext(name, Angle, w[1]);
    var t := BlockRun(name, n.0, w[2..]);
    assert [] + (n.1 + t.out) == n.1 + t.out;
  }

  lemma {:induction false} LoneAngle(s: Html, w: seq<byte>)
    requires InBlock(s, Verbatim) && Reachable(s, w) && w == "<"
    ensures Agrees(s, Verbatim, w)
  {
    RunMove(s, w);
    BlockOne(s.name, Verbatim, w);
    assert w[1..] == [];
  }

  /** In a block, the machine does what the block reference says. */
  lemma {:induction false} RunBlock(s: Html, b: Block, w: seq<byte>)
    requires InBlock(s, b) && !b.Angle? && Reachable(s, w)
    ensures Agrees(s, b, w)
    decreases |w|
  {
    if w == [] {
    } else if b.Verbatim? && w == "<" {
      LoneAngle(s, w);
    } else if b.Verbatim? && w[0] == '<' && w[1] == '/' {
      var s' := Html(TagNameEnd, '\0', Some('/'), s.name, [], []);
      ClosingOpens(s, w);
      BlockTwo(s.name, w);
      RunBlock(s', Closing([]), w[2..]);
      AgreesAfter(s, b, w, s', Closing([]), w[2..], "</");
    } else {
      hide Next, Agrees, BlockRun, Run;
      var m := Next(s, w);
      NextReachable(s, w);
      RunMove(s, w);
      if b.Verbatim? && w[0] == '<' {
        PairRead(s, w);
        BlockTwo(s.name, w);
        RunBlock(m.st, Verbatim, w[2..]);
        AgreesAfter(s, b, w, m.st, Verbatim, w[2..], m.out);
      } else {
        var n := BlockNext(s.name, b, w[0]);
        OneByte(s, b, w);
        BlockOne(s.name, b, w);
        if n.0.Left? {
          LeavesHere(s, b, w);
        } else {
          RunBlock(m.st, n.0, w[1..]);
          AgreesAfter(s, b, w, m.st, n.0, w[1..], m.out);
        }
      }
    }
  }

  // ---------- over the chain ----------

  /** One buffer, entered inside a block: its output is the block's, up to the end of the block if
      it comes, and the text goes on from there. */
  lemma {:induction false} ChunkBlock(s: Html, b: Block, w: seq<byte>)
    requires AtEnd(s) && InBlock(s, b)
    ensures var r, t := BlockRun(s.name, b, w), Chunk(s, w);
            if r.st.Left? then
              && Ready(LeftState(s.name, r.st.kept), r.rest)
              && t == After(r.out, Run(LeftState(s.name, r.st.kept), r.rest))
            else
              t.out == r.out && InBlock(t.st, r.st) && t.st.name == s.name
  {
    Opens(s, w);
    var v := s.carry + w;
    if b.Angle? {
      RunBlock(Open(s), Verbatim, v);
      BlockOne(s.name, Verbatim, v);
      assert v[1..] == w;
      var r := BlockRun(s.name, Angle, w);
      assert [] + r.out == r.out;
    } else {
      assert v == w;
      RunBlock(Open(s), b, v);
    }
  }

  lemma {:induction false} BlockAppend(name: seq<byte>, b: Block, v: seq<byte>, w: seq<byte>)
    ensures var r := BlockRun(name, b, v);
            var u := BlockRun(name, r.st, w);
            if r.st.Left? then BlockRun(name, b, v + w) == r.(rest := r.rest + w)
            else BlockRun(name, b, v + w) == u.(out := r.out + u.out)
    decreases |v|
  {
    if v == [] || b.Left? {
      assert v == [] ==> v + w == w;
      var u := BlockRun(name, b, w);
      assert [] + u.out == u.out;
    } else {
      assert (v + w)[1..] == v[1..] + w;
      var n := BlockNext(name, b, v[0]);
      BlockAppend(name, n.0, v[1..], w);
      BlockOne(name, b, v);
      BlockOne(name, b, v + w);
      var r := BlockRun(name, n.0, v[1..]);
      var u := BlockRun(name, r.st, w);
      assert n.1 + (r.out + u.out) == (n.1 + r.out) + u.out;
    }
  }

  /** The text goes on in the bytes `z` of a buffer, and in the buffers after it. */
  function GoesOn(s: Html, z: seq<byte>, chunks: seq<seq<byte>>): Step
    requires Reachable(s, z)
  {
    RunReachable(s, z);
    var u := Run(s, z);
    After(u.out, Chunks(u.st, chunks))
  }

  lemma {:induction false} LeftReachable(s: Html, b: Block, kept: bool, z: seq<byte>)
    requires InBlock(s, b)
    ensures Reachable(LeftState(s.name, kept), z) && !b.Left?
  {
  }

  /** The block ends in buffer `k`, with the bytes `z` behind it, and the text goes on from there. */
  ghost predicate EndsIn(s: Html, b: Block, chunks: seq<seq<byte>>, k: nat, z: seq<byte>)
    requires AtEnd(s)
  {
    var r := BlockRun(s.name, b, Concat(chunks));
    && r.st.Left? && k < |chunks|
    && |z| <= |chunks[k]| && chunks[k][|chunks[k]| - |z|..] == z && r.rest == z + Concat(chunks[k + 1..])
    && Reachable(LeftState(s.name, r.st.kept), z)
    && Chunks(s, chunks) == After(r.out, GoesOn(LeftState(s.name, r.st.kept), z, chunks[k + 1..]))
  }

  /** The output of a block is the same for every way of cutting it, also if the block ends. */
  lemma {:induction false} BlockSurvives(s: Html, b: Block, chunks: seq<seq<byte>>) returns (k: nat, z: seq<byte>)
    requires AtEnd(s) && InBlock(s, b)
    ensures var r, t := BlockRun(s.name, b, Concat(chunks)), Chunks(s, chunks);
            if r.st.Left? then EndsIn(s, b, chunks, k, z)
            else t.out == r.out && InBlock(t.st, r.st) && t.st.name == s.name
    decreases |chunks|
  {
    hide InBlock, Chunk, AtEnd, EndsIn, BlockNext;
    k, z := 0, [];
    LeftReachable(s, b, true, z);
    if chunks != [] {
      var w, rest := chunks[0], Concat(chunks[1..]);
      BlockAppend(s.name, b, w, rest);
      ChunkBlock(s, b, w);
      var r := BlockRun(s.name, b, w);
      if r.st.Left? {
        z := r.rest;
        EndsHere(s, b, chunks);
      } else {
        k, z := BlockSurvives(Chunk(s, w).st, r.st, chunks[1..]);
        if BlockRun(s.name, r.st, rest).st.Left? {
          EndsLater(s, b, chunks, k, z);
          k := k + 1;
        }
      }
    }
  }

  lemma {:induction false} EndsLater(s: Html, b: Block, chunks: seq<seq<byte>>, k: nat, z: seq<byte>)
    requires AtEnd(s) && InBlock(s, b) && chunks != [] && !BlockRun(s.name, b, chunks[0]).st.Left?
    requires EndsIn(Chunk(s, chunks[0]).st, BlockRun(s.name, b, chunks[0]).st, chunks[1..], k, z)
    ensures EndsIn(s, b, chunks, k + 1, z)
  {
    hide InBlock, Chunk, AtEnd, Reachable, Run, LeftState, BlockNext, BlockRun, GoesOn;
    var w, rest := chunks[0], Concat(chunks[1..]);
    BlockAppend(s.name, b, w, rest);
    ChunkBlock(s, b, w);
    var t, r := Chunk(s, w), BlockRun(s.name, b, w);
    var u := BlockRun(s.name, r.st, rest);
    assert chunks[1..][k] == chunks[k + 1] && chunks[1..][k + 1..] == chunks[k + 2..];
    AfterAfter(t.out, u.out, GoesOn(LeftState(s.name, u.st.kept), z, chunks[k + 2..]));
  }

  lemma {:induction false} RestIsSuffix(name: seq<byte>, b: Block, w: seq<byte>)
    ensures var z := BlockRun(name, b, w).rest; |z| <= |w| && w[|w| - |z|..] == z
    decreases |w|
  {
    if w != [] && !b.Left? {
      RestIsSuffix(name, BlockNext(name, b, w[0]).0, w[1..]);
    }
  }

  lemma {:induction false} EndsHere(s: Html, b: Block, chunks: seq<seq<byte>>)
    requires AtEnd(s) && InBlock(s, b) && chunks != [] && BlockRun(s.name, b, chunks[0]).st.Left?
    ensures EndsIn(s, b, chunks, 0, BlockRun(s.name, b, chunks[0]).rest)
  {
    hide InBlock, AtEnd, Reachable, Run, LeftState, BlockNext, Chunk, BlockRun;
    var r := BlockRun(s.name, b, chunks[0]);
    BlockAppend(s.name, b, chunks[0], Concat(chunks[1..]));
    RestIsSuffix(s.name, b, chunks[0]);
    ChunkBlock(s, b, chunks[0]);
    LeftReachable(s, b, r.st.kept, r.rest);
    var l := LeftState(s.name, r.st.kept);
    RunReachable(l, r.rest);
    var u := Run(l, r.rest);
    AfterAfter(r.out, u.out, Chunks(u.st, chunks[1..]));
  }

  /** The same from the middle of a buffer, with `z` left of it: so from the very start of a block. */
  lemma {:induction false} BlockFromEntry(s: Html, b: Block, z: seq<byte>, chunks: seq<seq<byte>>)
    returns (k: nat, y: seq<byte>)
    requires InBlock(s, b) && !b.Angle? && Reachable(s, z)
    ensures var q, r, t := BlockRun(s.name, b, z), BlockRun(s.name, b, z + Concat(chunks)), GoesOn(s, z, chunks);
            if !r.st.Left? then t.out == r.out && InBlock(t.st, r.st) && t.st.name == s.name
            else if q.st.Left? then
              && r.out == q.out && r.st == q.st && Reachable(LeftState(s.name, q.st.kept), q.rest)
              && t == After(r.out, GoesOn(LeftState(s.name, q.st.kept), q.rest, chunks))
            else
              && k < |chunks| && |y| <= |chunks[k]| && chunks[k][|chunks[k]| - |y|..] == y
              && r.rest == y + Concat(chunks[k + 1..]) && Reachable(LeftState(s.name, r.st.kept), y)
              && t == After(r.out, GoesOn(LeftState(s.name, r.st.kept), y, chunks[k + 1..]))
  {
    hide InBlock, Run, LeftState, BlockNext, BlockRun, Chunks, Ready, Names, CarryTable;
    k, y := 0, [];
    var q := BlockRun(s.name, b, z);
    RunBlock(s, b, z);
    BlockAppend(s.name, b, z, Concat(chunks));
    RunReachable(s, z);
    var u := Run(s, z);
    if q.st.Left? {
      LeftReachable(s, b, q.st.kept, q.rest);
      var l := LeftState(s.name, q.st.kept);
      RunReachable(l, q.rest);
      AfterAfter(q.out, Run(l, q.rest).out, Chunks(u.st, chunks));
    } else {
      k, y := BlockSurvives(u.st, q.st, chunks);
      var r := BlockRun(s.name, q.st, Concat(chunks));
      if r.st.Left? {
        AfterAfter(u.out, r.out, GoesOn(LeftState(s.name, r.st.kept), y, chunks[k + 1..]));
      }
    }
  }

  // ---------- what the block reference keeps ----------

  function Pending(b: Block): seq<byte> {
    if b.Angle? then "<" else ""
  }

  /** An odd number of `<` ends `u`: the last one is not the second of a pair. */
  predicate Angled(u: seq<byte>) {
    u != [] && u[|u| - 1] == '<' && !Angled(u[..|u| - 1])
  }

  /** The bytes `u` of a block end inside a closing tag: behind `</` and before its `>`. */
  predicate InClosing(u: seq<byte>) {
    && u != [] && u[|u| - 1] != '>'
    && (InClosing(u[..|u| - 1]) || (u[|u| - 1] == '/' && Angled(u[..|u| - 1])))
  }

  /** The text of that tag so far. */
  function Collected(u: seq<byte>): seq<byte> {
    if u == [] || !InClosing(u[..|u| - 1]) then [] else Collected(u[..|u| - 1]) + [u[|u| - 1]]
  }

  /** Without spaces. */
  function Tight(a: seq<byte>): seq<byte> {
    if a == [] then [] else (if a[0] == ' ' then [] else [a[0]]) + Tight(a[1..])
  }

  lemma {:induction false} TightAppend(a: seq<byte>, b: seq<byte>)
    ensures Tight(a + b) == Tight(a) + Tight(b)
    decreases |a|
  {
    if a == [] {
      assert a + b == b;
    } else {
      assert (a + b)[1..] == a[1..] + b;
      TightAppend(a[1..], b);
    }
  }

  /** Where the bytes `u` of a block lead, unless they end it. */
  function PlaceOf(u: seq<byte>): Block {
    if InClosing(u) then Closing(Tight(Collected(u))) else if Angled(u) then Angle else Verbatim
  }

  /** `>` behind `u` closes the block: the text of the tag is empty or begins with the name. */
  predicate Closes(name: seq<byte>, u: seq<byte>) {
    InClosing(u) && (Tight(Collected(u)) == [] || name <= Tight(Collected(u)))
  }

  lemma {:induction false} PlaceNext(name: seq<byte>, u: seq<byte>, c: byte)
    ensures BlockNext(name, PlaceOf(u), c).0 ==
            if c == '>' && Closes(name, u) then Left(Tight(Collected(u)) == []) else PlaceOf(u + [c])
  {
    assert (u + [c])[..|u + [c]| - 1] == u;
    if InClosing(u) {
      TightAppend(Collected(u), [c]);
      assert [c][1..] == [];
    }
  }

  /** A closing tag begins at a `/` behind an odd number of `<`, and goes on to the next `>`. */
  lemma {:induction false} InClosingIff(u: seq<byte>)
    ensures InClosing(u) <==> exists i :: 0 <= i < |u| && u[i] == '/' && Angled(u[..i]) && '>' !in u[i..]
  {
    if InClosing(u) {
      var i := ClosingBegins(u);
    }
    if i :| 0 <= i < |u| && u[i] == '/' && Angled(u[..i]) && '>' !in u[i..] {
      ClosingGoesOn(u, i);
    }
  }

  lemma {:induction false} ClosingBegins(u: seq<byte>) returns (i: nat)
    requires InClosing(u)
    ensures i < |u| && u[i] == '/' && Angled(u[..i]) && '>' !in u[i..]
  {
    hide Angled;
    i := |u| - 1;
    var v := u[..i];
    if u[i] == '/' && Angled(v) {
      assert u[i..] == [u[i]];
    } else {
      var n := i;
      i := ClosingBegins(v);
      assert u[i..] == v[i..] + [u[n]] && u[..i] == v[..i];
    }
  }

  lemma {:induction false} ClosingGoesOn(u: seq<byte>, i: nat)
    requires i < |u| && u[i] == '/' && Angled(u[..i]) && '>' !in u[i..]
    ensures InClosing(u)
  {
    hide Angled;
    var n := |u| - 1;
    assert u[i..] == u[i..n] + [u[n]];
    if i < n {
      var v := u[..n];
      assert v[i..] == u[i..n] && v[..i] == u[..i] && v[i] == u[i];
      ClosingGoesOn(v, i);
    }
  }

  /** The bytes `w` behind `u`; only the spaces inside closing tags are soft. */
  function Items(u: seq<byte>, w: seq<byte>): seq<Item>
    decreases |w|
  {
    if w == [] then [] else [Item(w[0], w[0] == ' ' && InClosing(u))] + Items(u + [w[0]], w[1..])
  }

  /** The bytes read so far explain the place in the block. */
  ghost predicate Led(b: Block, u: seq<byte>) {
    b.Left? || b == PlaceOf(u)
  }

  lemma {:induction false} LedNext(name: seq<byte>, b: Block, u: seq<byte>, c: byte)
    requires Led(b, u)
    ensures Led(BlockNext(name, b, c).0, u + [c])
  {
    if !b.Left? {
      PlaceNext(name, u, c);
    }
  }

  /** One byte: it is written, or pending, or a space in a closing tag. */
  lemma {:induction false} ByteThins(name: seq<byte>, b: Block, u: seq<byte>, c: byte)
    requires Led(b, u) && !b.Left?
    ensures var n, it := BlockNext(name, b, c), Item(c, c == ' ' && InClosing(u));
            exists o :: n.1 + Pending(n.0) == Pending(b) + o && Thins([it], o)
  {
    hide InClosing;
    var n, it := BlockNext(name, b, c), Item(c, c == ' ' && InClosing(u));
    var o := if b.Closing? && c == ' ' then [] else [c];
    assert [it][1..] == [] && [c][1..] == [];
    assert n.1 + Pending(n.0) == Pending(b) + o;
    assert Thins([it], o);
  }

  lemma {:induction false} FirstOff(w: seq<byte>, k: nat)
    requires 0 < k <= |w|
    ensures var x := w[1..][..k - 1]; w[..k] == [w[0]] + x && ([w[0]] + x)[1..] == x
  {
  }

  lemma {:induction false} BlockThinsFrom(name: seq<byte>, b: Block, u: seq<byte>, w: seq<byte>,
                                          items: seq<Item>, out: seq<byte>)
    requires Led(b, u) && Thins(items, out + Pending(b))
    ensures var r := BlockRun(name, b, w);
            Thins(items + Items(u, w[..|w| - |r.rest|]), out + r.out + Pending(r.st))
    decreases |w|
  {
    hide BlockNext, Pending, BlockRun, InClosing, Led, Thins;
    var r := BlockRun(name, b, w);
    if w == [] || b.Left? {
      BlockNone(name, b, w);
      assert w[..|w| - |w|] == [] && items + [] == items && out + [] == out;
    } else {
      var c, n := w[0], BlockNext(name, b, w[0]);
      var it := Item(c, c == ' ' && InClosing(u));
      BlockOne(name, b, w);
      LedNext(name, b, u, c);
      ByteThins(name, b, u, c);
      var o :| n.1 + Pending(n.0) == Pending(b) + o && Thins([it], o);
      ThinsAppend(items, out + Pending(b), [it], o);
      assert (out + Pending(b)) + o == out + (Pending(b) + o);
      assert (out + n.1) + Pending(n.0) == out + (n.1 + Pending(n.0));
      BlockThinsFrom(name, n.0, u + [c], w[1..], items + [it], out + n.1);
      var x := w[1..][..|w[1..]| - |r.rest|];
      FirstOff(w, |w| - |r.rest|);
      assert (items + [it]) + Items(u + [c], x) == items + ([it] + Items(u + [c], x));
      assert (out + n.1) + BlockRun(name, n.0, w[1..]).out == out + r.out;
    }
  }

  /** From its start, a block loses nothing but spaces inside closing tags; a `<` may be pending. */
  lemma {:induction false} BlockThins(name: seq<byte>, w: seq<byte>)
    ensures var r := BlockRun(name, Verbatim, w);
            Thins(Items([], w[..|w| - |r.rest|]), r.out + Pending(r.st))
  {
    hide BlockRun, Items, InClosing, Angled, Collected;
    PlaceNowhere();
    BlockThinsFrom(name, Verbatim, [], w, [], []);
    var r := BlockRun(name, Verbatim, w);
    assert [] + r.out == r.out && [] + Items([], w[..|w| - |r.rest|]) == Items([], w[..|w| - |r.rest|]);
  }

  lemma {:induction false} BlockNone(name: seq<byte>, b: Block, w: seq<byte>)
    requires w == [] || b.Left?
    ensures var r := BlockRun(name, b, w); r.st == b && r.out == [] && r.rest == w
  {
  }

  lemma {:induction false} VerbatimNext(name: seq<byte>, b: Block, w: seq<byte>)
    requires (b.Verbatim? || b.Angle?) && Lacks(Pending(b) + w, '<', '/') && w != []
    ensures var n := BlockNext(name, b, w[0]);
            && (n.0.Verbatim? || n.0.Angle?) && Lacks(Pending(n.0) + w[1..], '<', '/')
            && n.1 + (Pending(n.0) + w[1..]) == Pending(b) + w
  {
    var n := BlockNext(name, b, w[0]);
    var v := Pending(b) + w;
    assert b.Angle? ==> v[0] == '<' && v[1] == w[0];
    assert n.1 + (Pending(n.0) + w[1..]) == v;
    LacksSuffix(v, |n.1|, '<', '/');
    assert v[|n.1|..] == Pending(n.0) + w[1..];
  }

  /** Up to the first `</` a block is copied byte for byte. */
  lemma {:induction false} BlockVerbatim(name: seq<byte>, b: Block, w: seq<byte>)
    requires (b.Verbatim? || b.Angle?) && Lacks(Pending(b) + w, '<', '/')
    ensures var r := BlockRun(name, b, w);
            r.out + Pending(r.st) == Pending(b) + w && (r.st.Verbatim? || r.st.Angle?)
    decreases |w|
  {
    hide BlockNext, Pending, Lacks;
    if w == [] {
      assert Pending(b) + w == [] + Pending(b);
    } else {
      var n := BlockNext(name, b, w[0]);
      VerbatimNext(name, b, w);
      BlockVerbatim(name, n.0, w[1..]);
      var t := BlockRun(name, n.0, w[1..]);
      assert (n.1 + t.out) + Pending(t.st) == n.1 + (t.out + Pending(t.st));
    }
  }

  /** Over any bytes of a block: where they lead, or where it ended. */
  lemma {:induction false} BlockPlace(name: seq<byte>, u: seq<byte>, w: seq<byte>)
    ensures var r := BlockRun(name, PlaceOf(u), w);
            if !r.st.Left? then r.st == PlaceOf(u + w) && r.rest == []
            else
              |r.rest| < |w| &&
              var k := |w| - |r.rest| - 1;
              w[k] == '>' && Closes(name, u + w[..k]) && r.st.kept == (Tight(Collected(u + w[..k])) == [])
    decreases |w|
  {
    hide BlockNext, Closes, InClosing, Angled, Collected, Tight, BlockRun;
    if w == [] {
      BlockNone(name, PlaceOf(u), w);
      assert u + w == u;
    } else {
      PlaceNext(name, u, w[0]);
      NotLeft(u);
      BlockOne(name, PlaceOf(u), w);
      if w[0] == '>' && Closes(name, u) {
        BlockNone(name, Left(Tight(Collected(u)) == []), w[1..]);
        assert u + w[..0] == u;
      } else {
        BlockPlace(name, u + [w[0]], w[1..]);
        assert u + [w[0]] + w[1..] == u + w;
        var r := BlockRun(name, PlaceOf(u), w);
        if r.st.Left? {
          var k := |w| - |r.rest| - 1;
          assert u + [w[0]] + w[1..][..k - 1] == u + w[..k];
        }
      }
    }
  }

  lemma {:induction false} NotLeft(u: seq<byte>)
    ensures !PlaceOf(u).Left?
  {
  }

  lemma {:induction false} PlaceNowhere()
    ensures PlaceOf([]) == Verbatim && PlaceOf("</") == Closing([])
  {
    assert "</"[..1] == "<" && "<"[..0] == "";
    assert Angled("<") && !InClosing("<");
  }

  /** When a block ends: exactly at a `>` behind `</` and a text that is empty or begins with the remembered
      name, spaces gone. The `/` must stand behind an odd number of `<`. */
  lemma {:induction false} LeavesIff(name: seq<byte>, u: seq<byte>, c: byte)
    requires !BlockRun(name, Verbatim, u).st.Left?
    ensures var r := BlockRun(name, Verbatim, u + [c]);
            && (r.st.Left? <==> c == '>' && Closes(name, u))
            && (r.st.Left? ==> r.st.kept == (Tight(Collected(u)) == []))
  {
    hide BlockNext, Closes, InClosing, Angled, Collected, Tight, BlockRun, PlaceOf;
    PlaceNowhere();
    BlockPlace(name, [], u);
    assert [] + u == u;
    BlockAppend(name, Verbatim, u, [c]);
    PlaceNext(name, u, c);
    NotLeft(u);
    NotLeft(u + [c]);
    BlockOne(name, PlaceOf(u), [c]);
    var n := BlockNext(name, PlaceOf(u), c);
    assert [c][1..] == [];
    BlockNone(name, n.0, []);
  }

  /** So a `<` directly before a closing tag hides it: `<<` is taken as a pair, and the block goes on. */
  lemma {:induction false} ClosingTagOverlooked(name: seq<byte>, x: seq<byte>)
    requires Lacks(x, '<', '/')
    ensures var r := BlockRun(name, Verbatim, "<<" + x); !r.st.Left? && r.out + Pending(r.st) == "<<" + x
  {
    hide BlockRun, Lacks;
    BlockTwo(name, "<<" + x);
    assert ("<<" + x)[2..] == x && Pending(Verbatim) + x == x;
    BlockVerbatim(name, Verbatim, x);
    var t := BlockRun(name, Verbatim, x);
    assert ("<<" + t.out) + Pending(t.st) == "<<" + (t.out + Pending(t.st));
  }
}
