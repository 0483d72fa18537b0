/** What the CSS minifier writes for each construct, byte for byte and in the bytes' own names. */
module CssExact {
  import opened Bytes
  import opened CssMachine
  import R = Reference
  import S = CssStreams

  // ---------- white space ----------

  /** The register is the byte before: so it is outside strings and comments, and a block with a comment in it. */
  predicate Follows(s: Css) {
    s.mode == Plain && !s.stale && (s.last == None || s.last == Some(s.pre))
  }

  lemma {:induction false} RunNone(s: Css)
    ensures Run(s, []) == Step(s, [])
  {
  }

  /** Where no blank is written, no white space is. */
  lemma {:induction false} NoBlanks(s: Css, w: seq<byte>)
    requires Follows(s) && !s.brace
    requires forall i :: 0 <= i < |w| ==>
      || w[i] == '\n' || w[i] == '\r'
      || ((s.pre == ' ' || s.pre == '\t') && (w[i] == ' ' || w[i] == '\t'))
    ensures Run(s, w) == Step(s, [])
    decreases |w|
  {
    if w != [] {
      assert w[0] == '\n' || w[0] == '\r' || s.pre == ' ' || s.pre == '\t';
      assert Next(s, w[0]) == Step(s, []);
      NoBlanks(s, w[1..]);
    }
  }

  lemma {:induction false} FirstBlank(s: Css, w: seq<byte>)
    requires Follows(s) && !s.brace && w != [] && (w[0] == ' ' || w[0] == '\t') && s.pre != ' ' && s.pre != '\t'
    ensures Run(s, w) == After([w[0]], Run(s.(pre := w[0], last := Some(w[0])), w[1..]))
  {
    RunOne(s, w);
  }

  /** A run of white space outside blocks, up to its first blank only newlines and returns `r`. It becomes
      its first blank, or nothing behind another blank; newlines and returns are never written. */
  lemma {:induction false} TextWhite(s: Css, r: seq<byte>, x: seq<byte>)
    requires Follows(s) && !s.brace && forall i :: 0 <= i < |r| ==> r[i] == '\n' || r[i] == '\r'
    requires forall i :: 0 <= i < |x| ==> x[i] == ' ' || x[i] == '\t' || x[i] == '\n' || x[i] == '\r'
    requires x != [] ==> x[0] == ' ' || x[0] == '\t'
    ensures Run(s, r + x) == if x != [] && s.pre != ' ' && s.pre != '\t'
                             then Step(s.(pre := x[0], last := Some(x[0])), [x[0]])
                             else Step(s, [])
  {
    hide Next, Run;
    NoBlanks(s, r);
    RunAppend(s, r, x);
    RunNone(s);
    if s.pre == ' ' || s.pre == '\t' {
      NoBlanks(s, x);
    } else if x != [] {
      FirstBlank(s, x);
      NoBlanks(s.(pre := x[0], last := Some(x[0])), x[1..]);
    }
  }

  /** One white byte outside blocks, whatever the register holds: behind a block with a comment in it that is
      not the `}` but an older byte, until the next turn. */
  lemma {:induction false} TextWhiteByte(s: Css, b: byte)
    requires s.mode == Plain && !s.brace && !s.stale && (b == ' ' || b == '\t' || b == '\n' || b == '\r')
    ensures Run(s, [b]) == if (b == ' ' || b == '\t') && s.pre != ' ' && s.pre != '\t'
                           then Step(s.(pre := b, last := Some(b)), [b])
                           else Step(s.(pre := if s.last == None then s.pre else s.last.value), [])
  {
    RunOne(s, [b]);
    assert [b][1..] == [];
  }

  lemma {:induction false} BlockMove(s: Css, w: seq<byte>)
    requires s.mode == Plain && s.brace && (s.stale || Follows(s)) && w != []
    ensures w[0] == '\t' || w[0] == '\n' || w[0] == '\r' || (w[0] == ' ' && s.pre == ' ') ==>
              Run(s, w) == Run(s, w[1..])
    ensures w[0] == ' ' && s.pre != ' ' ==>
              Run(s, w) == After([' '], Run(s.(pre := if s.stale then s.pre else ' ', last := Some(' ')), w[1..]))
  {
    RunOne(s, w);
  }

  /** Inside a block without a comment so far, a run of white space becomes one space if it has a space,
      and nothing behind a space or without one. */
  lemma {:induction false} BlockWhite(s: Css, w: seq<byte>)
    requires Follows(s) && s.brace
    requires forall i :: 0 <= i < |w| ==> w[i] == ' ' || w[i] == '\t' || w[i] == '\n' || w[i] == '\r'
    ensures Run(s, w) == if ' ' in w && s.pre != ' ' then Step(s.(pre := ' ', last := Some(' ')), [' '])
                         else Step(s, [])
    decreases |w|
  {
    hide Next, Run;
    RunNone(s);
    if w != [] {
      BlockMove(s, w);
      assert w == [w[0]] + w[1..];
      assert w[0] == ' ' || w[0] == '\t' || w[0] == '\n' || w[0] == '\r';
      if w[0] == ' ' && s.pre != ' ' {
        BlockWhite(s.(pre := ' ', last := Some(' ')), w[1..]);
      } else {
        BlockWhite(s, w[1..]);
      }
    }
  }

  /** Behind a comment in a block, all its spaces are written or none, by the byte before the comment. */
  lemma {:induction false} StaleWhite(s: Css, w: seq<byte>)
    requires s.mode == Plain && s.brace && s.stale
    requires forall i :: 0 <= i < |w| ==> w[i] == ' ' || w[i] == '\t' || w[i] == '\n' || w[i] == '\r'
    ensures var t := Run(s, w);
            && |t.out| == (if s.pre == ' ' then 0 else multiset(w)[' '])
            && (forall i :: 0 <= i < |t.out| ==> t.out[i] == ' ')
            && t.st == s.(last := if t.out == [] then s.last else Some(' '))
    decreases |w|
  {
    hide Next, Run;
    RunNone(s);
    if w != [] {
      BlockMove(s, w);
      assert w == [w[0]] + w[1..];
      assert w[0] == ' ' || w[0] == '\t' || w[0] == '\n' || w[0] == '\r';
      if w[0] == ' ' && s.pre != ' ' {
        StaleWhite(s.(last := Some(' ')), w[1..]);
      } else {
        StaleWhite(s, w[1..]);
      }
    }
  }

  // ---------- text ----------

  /** Any other byte is written, outside a block and inside; `{` begins a block and `}` ends it. */
  lemma {:induction false} TextByte(s: Css, b: byte)
    requires s.mode == Plain && b !in {' ', '\t', '\n', '\r', '/', '"', '\''} && (s.brace || !s.stale)
    ensures Run(s, [b]) == Step(s.(pre := if s.stale then s.pre else b,
                                   last := Some(b),
                                   brace := if s.brace then b != '}' else b == '{',
                                   stale := s.stale && b != '}'),
                                [b])
  {
    RunOne(s, [b]);
    assert [b][1..] == [];
  }

  /** A slash that opens no comment is written with the byte behind it, whatever that is. */
  lemma {:induction false} SlashPair(s: Css, b: byte)
    requires s.mode == Plain && b != '*'
    ensures Run(s, ['/', b]) == Step(s.(pre := if s.stale then s.pre else b, last := Some(b)), ['/', b])
  {
    RunTwo(s, ['/', b]);
    assert ['/', b][1..][1..] == [];
  }

  // ---------- strings ----------

  lemma {:induction false} StringMoves(s: Css, w: seq<byte>)
    requires s.mode == Quote && w != []
    ensures w[0] != '\\' ==>
              Run(s, w) == After([w[0]], Run(s.(pre := if s.brace && !s.stale then w[0] else s.pre, last := Some(w[0]),
                                                mode := if w[0] == s.quote then Plain else Quote), w[1..]))
    ensures w[0] == '\\' && |w| >= 2 ==>
              Run(s, w) == After(['\\', w[1]], Run(s.(pre := if s.brace && !s.stale then w[1] else s.pre,
                                                      last := Some(w[1])), w[2..]))
  {
    RunOne(s, w);
    if |w| >= 2 {
      RunTwo(s, w);
      assert w[1..][1..] == w[2..];
    }
  }

  lemma {:induction false} StringRest(s: Css, w: seq<byte>)
    requires s.mode == Quote && Inner(w, s.quote) && s.quote != '\\'
    ensures Run(s, w + [s.quote]) == Step(s.(mode := Plain, pre := if s.brace && !s.stale then s.quote else s.pre,
                                             last := Some(s.quote)), w + [s.quote])
    decreases |w|
  {
    hide Next;
    var v := w + [s.quote];
    StringMoves(s, v);
    if w == [] {
      assert v[1..] == [];
    } else if w[0] == '\\' {
      assert v[2..] == w[2..] + [s.quote];
      assert ['\\', w[1]] + v[2..] == v;
      StringRest(s.(pre := if s.brace && !s.stale then w[1] else s.pre, last := Some(w[1])), w[2..]);
    } else {
      assert v[1..] == w[1..] + [s.quote];
      assert [w[0]] + v[1..] == v;
      StringRest(s.(pre := if s.brace && !s.stale then w[0] else s.pre, last := Some(w[0])), w[1..]);
    }
  }

  lemma {:induction false} StringOpens(s: Css, q: byte, v: seq<byte>)
    requires s.mode == Plain && (q == '"' || q == '\'')
    ensures Run(s, [q] + v) == After([q], Run(s.(mode := Quote, quote := q, pre := if s.stale then s.pre else q,
                                                 last := Some(q)), v))
  {
    RunOne(s, [q] + v);
    assert ([q] + v)[1..] == v;
  }

  /** A string is copied as it is. */
  lemma {:induction false} StringCopied(s: Css, q: byte, w: seq<byte>)
    requires s.mode == Plain && Inner(w, q) && (q == '"' || q == '\'')
    ensures Run(s, [q] + w + [q]) ==
              Step(s.(quote := q, pre := if s.stale then s.pre else q, last := Some(q)), [q] + w + [q])
  {
    hide Next, Run;
    StringOpens(s, q, w + [q]);
    StringRest(s.(mode := Quote, quote := q, pre := if s.stale then s.pre else q, last := Some(q)), w);
    assert [q] + (w + [q]) == [q] + w + [q];
  }

  // ---------- comments ----------

  lemma {:induction false} NoteRest(s: Css, w: seq<byte>)
    requires s.mode == Comment || (s.mode == Star && (w != [] ==> w[0] != '/'))
    requires Lacks(w, '*', '/')
    ensures Run(s, w + "*/") == Step(s.(mode := Plain, stale := s.brace), [])
    decreases |w|
  {
    var v := w + "*/";
    if w == [] {
      assert v == ['*', '/'];
      RunTwo(s, v);
      assert v[1..][1..] == [];
    } else {
      RunOne(s, v);
      assert v[1..] == w[1..] + "*/";
      LacksSuffix(w, 1, '*', '/');
      assert |w| > 1 && w[0] == '*' ==> w[1] != '/';
      NoteRest(Next(s, w[0]).st, w[1..]);
    }
  }

  /** A comment up to its first closing mark is left out; inside a block it freezes the register. */
  lemma {:induction false} NoteVanishes(s: Css, w: seq<byte>)
    requires s.mode == Plain
    requires forall i, j :: 0 <= i < |w| && 0 <= j < |w| && j == i + 1 ==> !(w[i] == '*' && w[j] == '/')
    ensures Run(s, "/*" + w + "*/") ==
              Step(s.(pre := if s.stale || s.last == None then s.pre else s.last.value, stale := s.brace), [])
  {
    var v := "/*" + w + "*/";
    RunTwo(s, v);
    assert v[1..][1..] == w + "*/";
    NoteRest(s.(mode := Comment, pre := if s.stale then s.pre else s.last.GetOr(s.pre)), w);
  }

  // ---------- whole inputs ----------

  /** The machine is in the text, or in a block, exactly where the token reference says so. */
  lemma {:induction false} TextIff(u: seq<byte>)
    ensures var s, x := Run(START, u).st, R.Parse(R.CssRules, u);
            (s.mode == Plain <==> x.tail == R.Done) && s.brace == S.Braced(x.tokens)
  {
    hide Run, R.Parse;
    R.ParseNothing(R.CssRules);
    S.RunFollows(START, [], [], u);
    assert [] + u == u;
  }

  /** Without slashes and quotes, an input is text and, from a `{` to the next `}`, blocks. */
  lemma {:induction false} AllPlain(s: Css, y: seq<byte>)
    requires Follows(s) && '/' !in y && '"' !in y && '\'' !in y
    ensures Follows(Run(s, y).st)
    ensures !s.brace && '{' !in y ==> !Run(s, y).st.brace
    ensures s.brace && '}' !in y ==> Run(s, y).st.brace
    decreases |y|
  {
    if y != [] {
      var v, b := y[..|y| - 1], y[|y| - 1];
      assert y == v + [b];
      AllPlain(s, v);
      RunAppend(s, v, [b]);
      RunOne(Run(s, v).st, [b]);
      assert [b][1..] == [];
    }
  }

  /** Outside blocks, a run of white space behind a written byte is written as its first blank alone, and so is
      one that the response begins with. */
  lemma {:induction false} FirstBlankAlone(u: seq<byte>, c: byte, r: seq<byte>, x: seq<byte>)
    requires var s := Run(START, u).st; s.mode == Plain && !s.brace && !s.stale
    requires c !in {' ', '\t', '\n', '\r', '/', '"', '\'', '{'}
    requires forall i :: 0 <= i < |r| ==> r[i] == '\n' || r[i] == '\r'
    requires forall i :: 0 <= i < |x| ==> x[i] == ' ' || x[i] == '\t' || x[i] == '\n' || x[i] == '\r'
    requires x != [] ==> x[0] == ' ' || x[0] == '\t'
    ensures Run(START, u + [c] + (r + x)).out == Run(START, u).out + [c] + (if x == [] then [] else [x[0]])
    ensures Run(START, r + x).out == if x == [] then [] else [x[0]]
  {
    hide Next, Run;
    var s := Run(START, u).st;
    TextByte(s, c);
    RunAppend(START, u, [c]);
    TextWhite(s.(pre := c, last := Some(c)), r, x);
    TextWhite(START, r, x);
    RunAppend(START, u + [c], r + x);
  }

  /** Inside a block, a run of white space behind a written byte is written as one space or not at all. */
  lemma {:induction false} OneSpace(u: seq<byte>, y: seq<byte>, c: byte, w: seq<byte>)
    requires var s := Run(START, u).st; s.mode == Plain && !s.brace && !s.stale
    requires '/' !in y && '"' !in y && '\'' !in y && '}' !in y
    requires c !in {' ', '\t', '\n', '\r', '/', '"', '\'', '}'}
    requires forall i :: 0 <= i < |w| ==> w[i] == ' ' || w[i] == '\t' || w[i] == '\n' || w[i] == '\r'
    ensures Run(START, u + "{" + y + [c] + w).out ==
              Run(START, u + "{" + y).out + [c] + (if ' ' in w then [' '] else [])
  {
    hide Next, Run;
    var s := Run(START, u).st;
    TextByte(s, '{');
    RunAppend(START, u, "{");
    var t := s.(pre := '{', last := Some('{'), brace := true);
    AllPlain(t, y);
    RunAppend(START, u + "{", y);
    var b := Run(t, y).st;
    TextByte(b, c);
    RunAppend(START, u + "{" + y, [c]);
    BlockWhite(b.(pre := c, last := Some(c)), w);
    RunAppend(START, u + "{" + y + [c], w);
  }

  /** A new buffer: nothing is written in it yet, and one that begins in a string in a block freezes the register. */
  lemma {:induction false} BufferBegins(s: Css, w: seq<byte>)
    requires w != [] && (s.mode == Star ==> s.stale == s.brace)
    ensures Chunk(s, w) ==
              Run(s.(last := None, stale := s.stale || (s.brace && (s.mode == Quote || s.mode == Escape))), w)
  {
    var c := Carry(s);
    if c != [] {
      RunOne(Freeze(Uncarried(s.(last := None))), c + w);
      assert (c + w)[1..] == w;
    } else {
      assert c + w == w;
    }
  }
}
