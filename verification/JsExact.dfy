/** What the JavaScript minifier writes for each construct, byte for byte and in the bytes' own names. */
module JsExact {
  import opened Bytes
  import opened JsMachine
  import R = Reference
  import S = JsStreams

  // ---------- white space ----------

  /** Spaces, tabs, newlines and returns. */
  predicate Spaced(w: seq<byte>) {
    forall i :: 0 <= i < |w| ==> w[i] == ' ' || w[i] == '\t' || w[i] == '\n' || w[i] == '\r'
  }

  lemma {:induction false} BehindLine(s: Js, w: seq<byte>)
    requires s.mode == Plain && s.pre == '\n' && Spaced(w)
    ensures Run(s, w) == Step(s, [])
    decreases |w|
  {
    if w != [] {
      assert w[0] == ' ' || w[0] == '\t' || w[0] == '\n' || w[0] == '\r';
      BehindLine(s, w[1..]);
    }
  }

  /** Where no blank is written, only the first newline of a run can be. */
  lemma {:induction false} NoBlanks(s: Js, w: seq<byte>)
    requires s.mode == Plain && Spaced(w)
    requires s.last == None || s.pre == ' ' || s.pre == '\t' || s.pre == '\n'
    ensures var line := '\n' in w && s.pre !in {'\0', '\n', ';', ':', '{', '}'};
            Run(s, w) == Step(s.(pre := if '\n' in w then '\n' else s.pre,
                                 last := if line then Some('\n') else s.last),
                              if line then ['\n'] else [])
    decreases |w|
  {
    if w != [] {
      assert w[0] == ' ' || w[0] == '\t' || w[0] == '\n' || w[0] == '\r';
      assert w == [w[0]] + w[1..];
      if w[0] == '\n' {
        BehindLine(Next(s, w[0]).st, w[1..]);
      } else {
        NoBlanks(s, w[1..]);
      }
    }
  }

  lemma {:induction false} RunNone(s: Js)
    ensures Run(s, []) == Step(s, [])
  {
  }

  lemma {:induction false} InFirst(w: seq<byte>, c: byte)
    requires w != []
    ensures c in w <==> w[0] == c || c in w[1..]
  {
    assert w == [w[0]] + w[1..];
  }

  lemma {:induction false} FirstWhite(s: Js, w: seq<byte>)
    requires s.mode == Plain && s.last != None && s.pre != ' ' && s.pre != '\t' && s.pre != '\n' && w != []
    ensures w[0] == ' ' || w[0] == '\t' ==> Run(s, w) == After([w[0]], Run(s.(pre := w[0], last := Some(w[0])), w[1..]))
    ensures w[0] == '\n' && s.pre in {'\0', ';', ':', '{', '}'} ==> Run(s, w) == After([], Run(s.(pre := '\n'), w[1..]))
    ensures w[0] == '\n' && s.pre !in {'\0', ';', ':', '{', '}'} ==>
              Run(s, w) == After(['\n'], Run(s.(pre := '\n', last := Some('\n')), w[1..]))
  {
    RunOne(s, w);
  }

  lemma {:induction false} Returns(s: Js, w: seq<byte>)
    requires s.mode == Plain && forall i :: 0 <= i < |w| ==> w[i] == '\r'
    ensures Run(s, w) == Step(s, [])
    decreases |w|
  {
    if w != [] {
      assert w[0] == '\r';
      Returns(s, w[1..]);
    }
  }

  /** A run of white space in the text, carriage returns `r` first. Returns are never written. A blank
      is written only if the run begins with it, behind a byte that is no blank and no newline. One
      newline is written if the run has one, unless it comes directly behind the beginning of the
      response, a newline, `;`, `:`, `{` or `}`. */
  lemma {:induction false} WhiteRun(s: Js, r: seq<byte>, x: seq<byte>)
    requires s.mode == Plain && (forall i :: 0 <= i < |r| ==> r[i] == '\r')
    requires forall i :: 0 <= i < |x| ==> x[i] == ' ' || x[i] == '\t' || x[i] == '\n' || x[i] == '\r'
    requires x != [] ==> x[0] != '\r'
    ensures var p := s.pre;
            var blank := x != [] && x[0] != '\n' && s.last != None && p != ' ' && p != '\t' && p != '\n';
            var line := '\n' in x && (blank || p !in {'\0', '\n', ';', ':', '{', '}'});
            Run(s, r + x) == Step(s.(pre := if '\n' in x then '\n' else if blank then x[0] else p,
                                     last := if line then Some('\n') else if blank then Some(x[0]) else s.last),
                                  (if blank then [x[0]] else []) + (if line then ['\n'] else []))
  {
    hide Next, Run;
    Returns(s, r);
    RunAppend(s, r, x);
    RunNone(s);
    if x != [] {
      InFirst(x, '\n');
      if s.last == None || s.pre == ' ' || s.pre == '\t' || s.pre == '\n' {
        NoBlanks(s, x);
      } else {
        FirstWhite(s, x);
        if x[0] == '\n' {
          BehindLine(s.(pre := '\n'), x[1..]);
          BehindLine(s.(pre := '\n', last := Some('\n')), x[1..]);
        } else {
          NoBlanks(s.(pre := x[0], last := Some(x[0])), x[1..]);
        }
      }
    }
  }

  // ---------- text ----------

  /** Any other byte of the text is written. */
  lemma {:induction false} TextByte(s: Js, b: byte)
    requires s.mode == Plain && b !in {' ', '\t', '\n', '\r', '/', '"', '\'', '['}
    ensures Run(s, [b]) == Step(s.(pre := b, last := Some(b)), [b])
  {
    RunOne(s, [b]);
    assert [b][1..] == [];
  }

  /** A slash that opens no comment is written with the byte behind it, whatever that is. */
  lemma {:induction false} SlashPair(s: Js, b: byte)
    requires s.mode == Plain && b != '/' && b != '*'
    ensures Run(s, ['/', b]) == Step(s.(pre := b, last := Some(b)), ['/', b])
  {
    RunTwo(s, ['/', b]);
    assert ['/', b][1..][1..] == [];
  }

  // ---------- strings ----------

  lemma {:induction false} StringMoves(s: Js, w: seq<byte>)
    requires s.mode == Quote && w != []
    ensures w[0] != '\\' ==>
              Run(s, w) == After([w[0]], Run(s.(mode := if w[0] == s.quote then Plain else Quote, last := Some(w[0])),
                                             w[1..]))
    ensures w[0] == '\\' && |w| >= 2 ==>
              Run(s, w) == After(['\\', w[1]], Run(s.(last := Some(w[1])), w[2..]))
  {
    RunOne(s, w);
    if |w| >= 2 {
      RunTwo(s, w);
      assert w[1..][1..] == w[2..];
    }
  }

  lemma {:induction false} StringRest(s: Js, w: seq<byte>)
    requires s.mode == Quote && Inner(w, s.quote) && s.quote != '\\'
    ensures Run(s, w + [s.quote]) == Step(s.(mode := Plain, last := Some(s.quote)), w + [s.quote])
    decreases |w|
  {
    hide Next;
    var v := w + [s.quote];
    StringMoves(s, v);
    if w == [] {
      assert v[1..] == [];
    } else if w[0] == '\\' {
      assert v[2..] == w[2..] + [s.quote];
      assert ['\\', w[1]] + v[2..] == v;
      StringRest(s.(last := Some(w[1])), w[2..]);
    } else {
      assert v[1..] == w[1..] + [s.quote];
      assert [w[0]] + v[1..] == v;
      StringRest(s.(last := Some(w[0])), w[1..]);
    }
  }

  lemma {:induction false} StringOpens(s: Js, open: byte, v: seq<byte>, close: byte)
    requires s.mode == Plain
    requires (open == '"' && close == '"') || (open == '\'' && close == '\'') || (open == '[' && close == ']')
    ensures Run(s, [open] + v) == After([open], Run(s.(mode := Quote, quote := close, last := Some(open)), v))
  {
    RunOne(s, [open] + v);
    assert ([open] + v)[1..] == v;
  }

  /** A string, and a bracket as well, is copied as it is; what decides on the white space behind it
      is the byte before it. */
  lemma {:induction false} StringCopied(s: Js, open: byte, w: seq<byte>, close: byte)
    requires s.mode == Plain && Inner(w, close)
    requires (open == '"' && close == '"') || (open == '\'' && close == '\'') || (open == '[' && close == ']')
    ensures Run(s, [open] + w + [close]) == Step(s.(quote := close, last := Some(close)), [open] + w + [close])
  {
    hide Next, Run;
    StringOpens(s, open, w + [close], close);
    StringRest(s.(mode := Quote, quote := close, last := Some(open)), w);
    assert [open] + (w + [close]) == [open] + w + [close];
  }

  // ---------- comments ----------

  lemma {:induction false} NoteRest(s: Js, w: seq<byte>)
    requires s.mode == Comment || (s.mode == Star && (w != [] ==> w[0] != '/'))
    requires Lacks(w, '*', '/')
    ensures Run(s, w + "*/") == Step(s.(mode := Plain), [])
    decreases |w|
  {
    var v := w + "*/";
    if w == [] {
      assert v == ['*', '/'];
      RunTwo(s, v);
      assert v[1..][1..] == [];
    } else {
      RunOne(s, v);
      assert v[1..] == w[1..] + "*/";
      LacksSuffix(w, 1, '*', '/');
      assert |w| > 1 && w[0] == '*' ==> w[1] != '/';
      NoteRest(Next(s, w[0]).st, w[1..]);
    }
  }

  /** A comment up to its first closing mark is left out. */
  lemma {:induction false} NoteVanishes(s: Js, w: seq<byte>)
    requires s.mode == Plain
    requires forall i, j :: 0 <= i < |w| && 0 <= j < |w| && j == i + 1 ==> !(w[i] == '*' && w[j] == '/')
    ensures Run(s, "/*" + w + "*/") == Step(s.(pre := if s.last == None then s.pre else s.last.value), [])
  {
    var v := "/*" + w + "*/";
    RunTwo(s, v);
    assert v[1..][1..] == w + "*/";
    NoteRest(s.(mode := Comment, pre := s.last.GetOr(s.pre)), w);
  }

  lemma {:induction false} LineRest(s: Js, w: seq<byte>)
    requires s.mode == Line && '\n' !in w
    ensures Run(s, w + ['\n']) == Step(s.(mode := Plain, pre := '\n', last := Some(' ')), [' '])
    decreases |w|
  {
    var v := w + ['\n'];
    RunOne(s, v);
    if w == [] {
      assert v[1..] == [];
    } else {
      assert v[1..] == w[1..] + ['\n'];
      assert w[0] != '\n';
      LineRest(s, w[1..]);
    }
  }

  /** A line comment and its newline become one space, behind which white space goes as behind a newline. */
  lemma {:induction false} LineBecomesSpace(s: Js, w: seq<byte>)
    requires s.mode == Plain && '\n' !in w
    ensures Run(s, "//" + w + "\n") == Step(s.(pre := '\n', last := Some(' ')), " ")
  {
    var v := "//" + w + "\n";
    RunTwo(s, v);
    assert v[1..][1..] == w + ['\n'];
    LineRest(s.(mode := Line, pre := s.last.GetOr(s.pre)), w);
  }

  // ---------- whole inputs ----------

  /** The machine is in the text exactly where the token reference says so. */
  lemma {:induction false} TextIff(u: seq<byte>)
    ensures Run(START, u).st.mode == Plain <==> R.Parse(R.JsRules, u).tail == R.Done
  {
    R.ParseNothing(R.JsRules);
    S.RunHides(START, [], u);
    assert [] + u == u;
  }

  /** Without slashes, quotes and brackets, all of an input is text. */
  lemma {:induction false} AllText(u: seq<byte>)
    requires '/' !in u && '"' !in u && '\'' !in u && '[' !in u
    ensures Run(START, u).st.mode == Plain
    decreases |u|
  {
    if u != [] {
      var v, b := u[..|u| - 1], u[|u| - 1];
      assert u == v + [b];
      AllText(v);
      RunAppend(START, v, [b]);
      RunOne(Run(START, v).st, [b]);
      assert [b][1..] == [];
    }
  }

  /** A newline behind a byte `c` of the text is written unless `c` is NUL, `;`, `:`, `{` or `}`: wherever
      the input stands, `f()` and the line after it stay apart. */
  lemma {:induction false} NewlineKeptIff(u: seq<byte>, c: byte, w: seq<byte>)
    requires Run(START, u).st.mode == Plain
    requires c !in {' ', '\t', '\n', '\r', '/', '"', '\'', '['}
    ensures Run(START, u + [c] + "\n").out ==
              Run(START, u).out + [c] + (if c in {'\0', ';', ':', '{', '}'} then "" else "\n")
    ensures Run(START, u + [c] + "\n").out <= Run(START, u + [c] + "\n" + w).out
  {
    var s := Run(START, u).st;
    TextByte(s, c);
    RunAppend(START, u, [c]);
    WhiteRun(s.(pre := c, last := Some(c)), [], "\n");
    assert [] + "\n" == "\n";
    RunAppend(START, u + [c], "\n");
    RunAppend(START, u + [c] + "\n", w);
  }

  /** Of blanks behind a byte of the text the first is written, and none of a run's later ones. */
  lemma {:induction false} FirstBlankAlone(u: seq<byte>, c: byte, blanks: seq<byte>)
    requires Run(START, u).st.mode == Plain
    requires c !in {' ', '\t', '\n', '\r', '/', '"', '\'', '['}
    requires blanks != [] && forall i :: 0 <= i < |blanks| ==> blanks[i] == ' ' || blanks[i] == '\t'
    ensures Run(START, u + [c] + blanks).out == Run(START, u).out + [c, blanks[0]]
  {
    hide Next, Run;
    var s := Run(START, u).st;
    TextByte(s, c);
    RunAppend(START, u, [c]);
    WhiteRun(s.(pre := c, last := Some(c)), [], blanks);
    assert [] + blanks == blanks;
    assert '\n' !in blanks;
    RunAppend(START, u + [c], blanks);
  }

  /** White space at the beginning of the response, and behind a newline of the text, is not written. */
  lemma {:induction false} BeginningsVanish(u: seq<byte>, white: seq<byte>)
    requires Run(START, u).st.mode == Plain
    requires Spaced(white)
    ensures Run(START, white).out == []
    ensures Run(START, u + "\n" + white).out == Run(START, u + "\n").out
  {
    hide Next, Run;
    NoBlanks(START, white);
    var s := Run(START, u).st;
    assert [] + "\n" == "\n";
    WhiteRun(s, [], "\n");
    RunAppend(START, u, "\n");
    RunAppend(START, u + "\n", white);
    BehindLine(Run(START, u + "\n").st, white);
  }

  /** A new buffer: nothing is written in it yet, and nothing else changes. */
  lemma {:induction false} BufferBegins(s: Js, w: seq<byte>)
    ensures Chunk(s, w) == Run(s.(last := None), w)
  {
    ChunkEnters(s, w);
  }
}
