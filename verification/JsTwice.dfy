/** Minifying JavaScript a second time. */
module JsTwice {
  import opened Bytes
  import opened JsMachine
  import opened JsStreams
  import R = Reference

  /** A fresh context and one buffer. */
  function Minify(w: seq<byte>): seq<byte> {
    Run(START, w).out
  }

  /** `a` is the first pass, `b` the second, which has read what the first has written. */
  predicate Twin(a: Js, b: Js) {
    && b.mode == (if a.mode == Quote || a.mode == Escape then Quote else Plain)
    && (b.mode == Quote ==> b.quote == a.quote)
  }

  /** In the text, `b` drops the white byte `c`. */
  predicate Drops(b: Js, c: byte) {
    (Blank(c) && (b.pre == '\n' || b.last == None || Blank(b.pre))) || (c == '\n' && EndsLine(b.pre))
  }

  /** At `c` the first pass writes a white byte that the second drops. */
  predicate Loses(a: Js, b: Js, c: byte) {
    (a.mode == Plain || a.mode == Line) && Next(a, c).out != [] && Drops(b, Next(a, c).out[0])
  }

  /** How many bytes the second pass drops. */
  function Lost(a: Js, b: Js, w: seq<byte>): nat
    decreases |w|
  {
    if w == [] then 0
    else
      var t := Next(a, w[0]);
      (if Loses(a, b, w[0]) then 1 else 0) + Lost(t.st, Run(b, t.out).st, w[1..])
  }

  lemma {:induction false} NextOne(a: Js, b: Js, c: byte)
    requires Twin(a, b) && (a.mode == Plain || a.mode == Line || a.mode == Quote)
    ensures var t := Next(a, c);
            && |t.out| <= 1
            && (t.out != [] ==>
                  var u := Next(b, t.out[0]);
                  Twin(t.st, u.st) && u.out == if Loses(a, b, c) then [] else t.out)
            && (t.out == [] ==> Twin(t.st, b) && !Loses(a, b, c))
  {
  }

  lemma {:induction false} NextTwo(a: Js, b: Js, c: byte)
    requires Twin(a, b) && a.mode != Plain && a.mode != Line && a.mode != Quote && Next(a, c).out != []
    ensures var t := Next(a, c);
            && |t.out| == 2
            && var u := Next(b, t.out[0]);
            var v := Next(u.st, t.out[1]);
            Twin(t.st, v.st) && u.out + v.out == t.out && u.st.mode != Comment && u.st.mode != Line && u.st.mode != Star
  {
  }

  lemma {:induction false} RunShort(s: Js, w: seq<byte>)
    ensures |w| == 1 ==> Run(s, w) == Next(s, w[0])
    ensures |w| == 2 ==>
      var t := Next(s, w[0]);
      Run(s, w) == After(t.out, Next(t.st, w[1]))
  {
    RunNothing(s);
    if |w| == 1 {
      RunOne(s, w);
      assert w[1..] == [];
    } else if |w| == 2 {
      RunOne(s, w);
      RunOne(Next(s, w[0]).st, w[1..]);
      assert w[1..][1..] == [] && w[1..][0] == w[1];
    }
  }

  lemma {:induction false} NextAgain(a: Js, b: Js, c: byte)
    requires Twin(a, b)
    ensures var t := Next(a, c);
            var u := Run(b, t.out);
            Twin(t.st, u.st) && u.out == (if Loses(a, b, c) then [] else t.out) && (Loses(a, b, c) ==> |t.out| == 1)
  {
    var out := Next(a, c).out;
    RunNothing(b);
    RunShort(b, out);
    if a.mode == Plain || a.mode == Line || a.mode == Quote {
      NextOne(a, b, c);
    } else if out != [] {
      NextTwo(a, b, c);
    }
  }

  /** The second pass drops exactly those bytes. */
  lemma {:induction false} RunAgain(a: Js, b: Js, w: seq<byte>)
    requires Twin(a, b)
    ensures var t := Run(a, w);
            var u := Run(b, t.out);
            |u.out| == |t.out| - Lost(a, b, w) && (Lost(a, b, w) == 0 ==> u.out == t.out)
    decreases |w|
  {
    hide Twin, Loses, Next;
    if w == [] {
      RunNothing(b);
    } else {
      var t := Next(a, w[0]);
      var u := Run(b, t.out);
      NextAgain(a, b, w[0]);
      RunAgain(t.st, u.st, w[1..]);
      RunAppend(b, t.out, Run(t.st, w[1..]).out);
    }
  }

  /** Minifying is idempotent on an input if and only if the first pass writes no white byte that the second
      drops. */
  lemma {:induction false} IdempotentIff(w: seq<byte>)
    ensures Minify(Minify(w)) == Minify(w) <==> Lost(START, START, w) == 0
  {
    RunAgain(START, START, w);
  }

  // ---------- inputs without comments ----------

  predicate Noted(m: Mode) {
    m == Comment || m == Star || m == Line
  }

  /** No comment along the run. */
  ghost predicate NeverNotes(s: Js, w: seq<byte>)
    decreases |w|
  {
    !Noted(s.mode) && (w != [] ==> NeverNotes(Next(s, w[0]).st, w[1..]))
  }

  /** Without comments the second pass is the first, but that a dropped newline is not seen. */
  predicate Close(a: Js, b: Js) {
    && Twin(a, b) && a.last == b.last
    && (a.mode == Slash || a.pre == b.pre || (a.pre == '\n' && EndsLine(b.pre)))
  }

  lemma {:induction false} NextClose(a: Js, b: Js, c: byte)
    requires Close(a, b) && !Noted(a.mode) && !Noted(Next(a, c).st.mode)
    ensures !Loses(a, b, c) && Close(Next(a, c).st, Run(b, Next(a, c).out).st)
  {
    RunNothing(b);
    RunShort(b, Next(a, c).out);
  }

  lemma {:induction false} CloseLosesNothing(a: Js, b: Js, w: seq<byte>)
    requires Close(a, b) && NeverNotes(a, w)
    ensures Lost(a, b, w) == 0
    decreases |w|
  {
    hide Close, Loses, Next, Run;
    if w != [] {
      NextClose(a, b, w[0]);
      CloseLosesNothing(Next(a, w[0]).st, Run(b, Next(a, w[0]).out).st, w[1..]);
    }
  }

  /** Without comments, minifying is idempotent. */
  lemma {:induction false} IdempotentRun(w: seq<byte>)
    requires NeverNotes(START, w)
    ensures Minify(Minify(w)) == Minify(w)
  {
    CloseLosesNothing(START, START, w);
    IdempotentIff(w);
  }

  lemma {:induction false} NeverNotesAppend(s: Js, v: seq<byte>, w: seq<byte>)
    requires NeverNotes(s, v) && NeverNotes(Run(s, v).st, w)
    ensures NeverNotes(s, v + w)
    decreases |v|
  {
    hide Next;
    if v == [] {
      assert v + w == w;
    } else {
      assert (v + w)[1..] == v[1..] + w;
      NeverNotesAppend(Next(s, v[0]).st, v[1..], w);
    }
  }

  lemma {:induction false} NextLeavesNoNote(a: Js, b: Js, c: byte)
    requires Twin(a, b)
    ensures NeverNotes(b, Next(a, c).out)
  {
    var out := Next(a, c).out;
    NextAgain(a, b, c);
    if a.mode == Plain || a.mode == Line || a.mode == Quote {
      NextOne(a, b, c);
      if out != [] {
        assert out[1..] == [];
        assert NeverNotes(Next(b, out[0]).st, []);
      }
    } else if out != [] {
      NextTwo(a, b, c);
      var u := Next(b, out[0]).st;
      assert out[1..][0] == out[1] && out[1..][1..] == [];
      assert NeverNotes(Next(u, out[1]).st, []);
      assert NeverNotes(u, out[1..]);
    }
  }

  /** What a pass writes has no comments. */
  lemma {:induction false} LeavesNoNotes(a: Js, b: Js, w: seq<byte>)
    requires Twin(a, b)
    ensures NeverNotes(b, Run(a, w).out)
    decreases |w|
  {
    hide Twin, Loses, Next;
    if w == [] {
      TwinPlain(a, b);
      RunNothing(a);
    } else {
      var t := Next(a, w[0]);
      NextAgain(a, b, w[0]);
      NextLeavesNoNote(a, b, w[0]);
      LeavesNoNotes(t.st, Run(b, t.out).st, w[1..]);
      NeverNotesAppend(b, t.out, Run(t.st, w[1..]).out);
    }
  }

  lemma {:induction false} TwinPlain(a: Js, b: Js)
    requires Twin(a, b)
    ensures !Noted(b.mode)
  {
  }

  /** A third pass changes nothing, for every input. */
  lemma {:induction false} TwoPassesAreEnough(w: seq<byte>)
    ensures Minify(Minify(Minify(w))) == Minify(Minify(w))
  {
    LeavesNoNotes(START, START, w);
    IdempotentRun(Minify(w));
  }

  /** No comment is open behind any beginning of `w`, read behind `v`. */
  ghost predicate NoNote(v: seq<byte>, w: seq<byte>)
    decreases |w|
  {
    var t := R.Parse(R.JsRules, v).tail;
    !t.OpenNote? && !t.OpenLine? && (w != [] ==> NoNote(v + [w[0]], w[1..]))
  }

  lemma {:induction false} NoNoteNeverNotes(s: Js, v: seq<byte>, w: seq<byte>)
    requires Tracks(s, R.Parse(R.JsRules, v)) && NoNote(v, w)
    ensures NeverNotes(s, w)
    decreases |w|
  {
    hide R.Parse, Next;
    if w != [] {
      R.ParseSpells(R.JsRules, v);
      R.ParseSnoc(R.JsRules, v, w[0]);
      NextTracks(s, R.Parse(R.JsRules, v), w[0]);
      NoNoteNeverNotes(Next(s, w[0]).st, v + [w[0]], w[1..]);
    }
  }

  /** In terms of the input: without comments in it, minifying is idempotent. */
  lemma {:induction false} Idempotent(w: seq<byte>)
    requires NoNote([], w)
    ensures Minify(Minify(w)) == Minify(w)
  {
    R.ParseNothing(R.JsRules);
    NoNoteNeverNotes(START, [], w);
    IdempotentRun(w);
  }

  // ---------- inputs that a second pass changes ----------

  lemma {:induction false} LostOne(a: Js, b: Js, w: seq<byte>)
    requires w != []
    ensures var t := Next(a, w[0]);
            Lost(a, b, w) == (if Loses(a, b, w[0]) then 1 else 0) + Lost(t.st, Run(b, t.out).st, w[1..])
  {
  }

  /** The space for a line comment is dropped if it begins the output. */
  lemma {:induction false} NotIdempotent()
    ensures Minify(Minify("//\n")) != Minify("//\n")
  {
    hide Lost;
    var w := "//\n";
    assert w[1..] == "/\n" && w[1..][1..] == "\n";
    LostOne(START, START, w);
    RunNothing(START);
    var s := Js(Slash, '\0', '\0', None);
    LostOne(s, START, w[1..]);
    LostOne(s.(mode := Line), START, w[1..][1..]);
    IdempotentIff(w);
  }

  /** Behind a string that a newline comes before and a comment after. */
  lemma {:induction false} NewlineLost(a: Js)
    requires a == Js(Plain, '"', '\n', Some('"'))
    ensures Lost(a, a, "/**/\nx") > 0
  {
    hide Lost, Run;
    var w := "/**/\nx";
    var v1, v2, v3, v4 := "**/\nx", "*/\nx", "/\nx", "\nx";
    assert w[1..] == v1 && v1[1..] == v2 && v2[1..] == v3 && v3[1..] == v4;
    RunNothing(a);
    LostOne(a, a, w);
    LostOne(a.(mode := Slash, pre := '"'), a, v1);
    LostOne(a.(mode := Comment, pre := '"'), a, v2);
    LostOne(a.(mode := Star, pre := '"'), a, v3);
    LostOne(a.(pre := '"'), a, v4);
  }

  lemma {:induction false} KeptByBoth(s: Js, w: seq<byte>, t: Js)
    requires w != [] && Next(s, w[0]) == Step(t, [w[0]]) && !Loses(s, s, w[0])
    ensures Lost(s, s, w) == Lost(t, t, w[1..])
  {
    hide Lost, Next;
    RunShort(s, [w[0]]);
    LostOne(s, s, w);
  }

  /** The second pass can join two lines. */
  lemma {:induction false} LinesJoined()
    ensures Minify(Minify("a\n\"\"/**/\nx")) != Minify("a\n\"\"/**/\nx")
  {
    hide Lost, Run, Minify;
    var w := "a\n\"\"/**/\nx";
    var v1, v2, v3, v4 := "\n\"\"/**/\nx", "\"\"/**/\nx", "\"/**/\nx", "/**/\nx";
    assert w[1..] == v1 && v1[1..] == v2 && v2[1..] == v3 && v3[1..] == v4;
    var s1 := Js(Plain, '\0', 'a', Some('a'));
    var s2 := Js(Plain, '\0', '\n', Some('\n'));
    var s3 := Js(Quote, '"', '\n', Some('"'));
    KeptByBoth(START, w, s1);
    KeptByBoth(s1, v1, s2);
    KeptByBoth(s2, v2, s3);
    KeptByBoth(s3, v3, s3.(mode := Plain));
    NewlineLost(s3.(mode := Plain));
    IdempotentIff(w);
  }
}
