/** Minifying CSS a second time. */
module CssTwice {
  import opened Bytes
  import opened CssMachine
  import opened CssStreams
  import R = Reference
  import C = CssCuts

  /** A fresh context and one buffer. */
  function Minify(w: seq<byte>): seq<byte> {
    Run(START, w).out
  }

  /** Reachable within one buffer: only comments make `pre` stale, and before the first byte is
      written it is still zero. */
  ghost predicate FirstPass(s: Css) {
    Reachable(s) && (s.last.None? ==> s.pre == '\0' && !InString(s.mode))
  }

  /** Where the second pass is once it has read what the first has written: it has met no comment,
      so nothing is stale, and an undecided byte has not been written yet. */
  function Again(s: Css): Css {
    var mode := if s.mode == Quote || s.mode == Escape then Quote else Plain;
    Css(mode, s.brace, s.quote,
        if !s.brace && mode == Quote then s.quote else s.last.GetOr('\0'), false, s.last)
  }

  /** In a block whose `pre_char` is stale, `b` is a space that is kept right after a space that was kept. */
  predicate Doubles(s: Css, b: byte) {
    s.mode == Plain && s.brace && s.stale && b == ' ' && s.pre != ' ' && s.last == Some(' ')
  }

  /** How often the first pass keeps a space right after a space. */
  function Doubled(s: Css, w: seq<byte>): nat
    decreases |w|
  {
    if w == [] then 0
    else (if Doubles(s, w[0]) then 1 else 0) + Doubled(Next(s, w[0]).st, w[1..])
  }

  ghost predicate AgainHolds(s: Css, t: Step, drops: bool) {
    && Run(Again(s), t.out) == Step(Again(t.st), if drops then [] else t.out)
    && Doubled(Again(s), t.out) == 0
  }

  lemma {:induction false} AgainOne(s: Css, t: Step)
    requires |t.out| == 1
    ensures Run(Again(s), t.out) == Next(Again(s), t.out[0])
    ensures Doubled(Again(s), t.out) == 0
  {
    RunOne(Again(s), t.out);
    assert t.out[1..] == [];
  }

  lemma {:induction false} AgainTwo(s: Css, t: Step)
    requires |t.out| == 2
    ensures var u := Next(Again(s), t.out[0]);
            var u' := Next(u.st, t.out[1]);
            Run(Again(s), t.out) == Step(u'.st, u.out + u'.out)
            && Doubled(Again(s), t.out) == if Doubles(u.st, t.out[1]) then 1 else 0
  {
    RunTwo(Again(s), t.out);
    assert t.out[1..] == [t.out[1]] && t.out[1..][1..] == [];
    var u := Next(Again(s), t.out[0]);
    assert Doubled(u.st, t.out[1..]) == if Doubles(u.st, t.out[1]) then 1 else 0;
  }

  lemma {:induction false} AgainPlain(s: Css, b: byte)
    requires FirstPass(s) && s.mode == Plain
    ensures AgainHolds(s, Next(s, b), Doubles(s, b))
    ensures Doubles(s, b) ==> |Next(s, b).out| == 1
  {
    var t := Next(s, b);
    if t.out != [] {
      assert t.out == [b];
      hide Run, Doubled;
      AgainOne(s, t);
    }
  }

  lemma {:induction false} AgainOther(s: Css, b: byte)
    requires FirstPass(s) && s.mode != Plain
    ensures AgainHolds(s, Next(s, b), false)
  {
    var t := Next(s, b);
    if t.out != [] {
      hide Run, Doubled;
      if |t.out| == 1 {
        AgainOne(s, t);
      } else {
        AgainTwo(s, t);
      }
    }
  }

  lemma {:induction false} FirstPassNext(s: Css, b: byte)
    requires FirstPass(s)
    ensures FirstPass(Next(s, b).st)
  {
    NextReachable(s, b);
    hide Reachable;
  }

  lemma {:induction false} NextAgain(s: Css, b: byte)
    requires FirstPass(s)
    ensures FirstPass(Next(s, b).st) && AgainHolds(s, Next(s, b), Doubles(s, b))
    ensures Doubles(s, b) ==> |Next(s, b).out| == 1
  {
    hide FirstPass, AgainHolds, Next;
    FirstPassNext(s, b);
    if s.mode == Plain {
      AgainPlain(s, b);
    } else {
      AgainOther(s, b);
    }
  }

  /** The second pass drops exactly the doubled blanks of the first. */
  lemma {:induction false} RunAgain(s: Css, w: seq<byte>)
    requires FirstPass(s)
    ensures var t := Run(s, w);
            && Run(Again(s), t.out).st == Again(t.st)
            && |Run(Again(s), t.out).out| == |t.out| - Doubled(s, w)
            && (Doubled(s, w) == 0 ==> Run(Again(s), t.out).out == t.out)
            && Doubled(Again(s), t.out) == 0
    decreases |w|
  {
    if w != [] {
      hide FirstPass, Again, Doubles, Next;
      var t := Next(s, w[0]);
      NextAgain(s, w[0]);
      RunAgain(t.st, w[1..]);
      RunAppend(Again(s), t.out, Run(t.st, w[1..]).out);
      DoubledAppend(Again(s), t.out, Run(t.st, w[1..]).out);
    }
  }

  lemma {:induction false} DoubledAppend(s: Css, v: seq<byte>, w: seq<byte>)
    ensures Doubled(s, v + w) == Doubled(s, v) + Doubled(Run(s, v).st, w)
    decreases |v|
  {
    if v == [] {
      assert v + w == w;
    } else {
      assert (v + w)[1..] == v[1..] + w;
      DoubledAppend(Next(s, v[0]).st, v[1..], w);
    }
  }

  /** Minifying is idempotent on an input if and only if the first pass never keeps a blank
      right after a blank. */
  lemma {:induction false} IdempotentIff(w: seq<byte>)
    ensures Minify(Minify(w)) == Minify(w) <==> Doubled(START, w) == 0
  {
    assert Again(START) == START;
    RunAgain(START, w);
  }

  /** A third pass changes nothing, for every input. */
  lemma {:induction false} TwoPassesAreEnough(w: seq<byte>)
    ensures Minify(Minify(Minify(w))) == Minify(Minify(w))
  {
    assert Again(START) == START;
    RunAgain(START, w);
    IdempotentIff(Minify(w));
  }

  lemma {:induction false} FreshNeverDoubles(s: Css, v: seq<byte>, w: seq<byte>)
    requires C.Fresh(s) && Tracks(s, R.Parse(R.CssRules, v)) && C.NoBracedNote(v, w)
    ensures Doubled(s, w) == 0
    decreases |w|
  {
    if w != [] {
      hide R.Parse, Tracks, C.BracedNote, Next;
      C.NextFresh(s, v, w[0]);
      FreshNeverDoubles(Next(s, w[0]).st, v + [w[0]], w[1..]);
    }
  }

  /** Without a comment inside a brace block, minifying is idempotent. */
  lemma {:induction false} Idempotent(w: seq<byte>)
    requires C.NoBracedNote([], w)
    ensures Minify(Minify(w)) == Minify(w)
  {
    R.ParseNothing(R.CssRules);
    FreshNeverDoubles(START, [], w);
    IdempotentIff(w);
  }

  lemma {:induction false} DoubledFrom(s: Css, w: seq<byte>, k: nat)
    requires k < |w|
    ensures Doubled(s, w[k..])
         == (if Doubles(s, w[k]) then 1 else 0) + Doubled(Next(s, w[k]).st, w[k + 1..])
  {
    assert w[k..][1..] == w[k + 1..];
  }

  /** A comment leaves `pre_char` at `{` for the rest of the block. */
  lemma {:induction false} StaleBlockDoubles(w: seq<byte>)
    requires |w| == 8 && w[0] == '{' && w[1] == '/' && w[2] == '*' && w[3] == '*' && w[4] == '/'
    requires w[5] == ' ' && w[6] == ' '
    ensures Doubled(START, w) > 0
  {
    hide Doubled;
    assert w[0..] == w;
    var in1 := Css(Plain, true, '\0', '{', false, Some('{'));
    var in2 := in1.(stale := true);
    DoubledFrom(START, w, 0);
    DoubledFrom(in1, w, 1);
    DoubledFrom(in1.(mode := Slash), w, 2);
    DoubledFrom(in1.(mode := Comment), w, 3);
    DoubledFrom(in2.(mode := Star), w, 4);
    DoubledFrom(in2, w, 5);
    DoubledFrom(in2.(last := Some(' ')), w, 6);
  }

  /** With one it need not be. */
  lemma {:induction false} NotIdempotent()
    ensures Minify(Minify("{/**/  }")) != Minify("{/**/  }")
  {
    hide Doubled, Minify;
    StaleBlockDoubles("{/**/  }");
    IdempotentIff("{/**/  }");
  }
}
