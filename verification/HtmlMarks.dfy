/** Where a comment, a conditional comment and a CDATA section end: the minifier compares with the end mark
    byte by byte, but takes a mismatch as a whole. */
module HtmlMarks {
  import opened Bytes
  import opened HtmlMachine

  datatype Find = Find(used: nat, found: bool)

  /** The search for `mark`: how many bytes it takes, and whether it finds it. A mismatch that begins like the
      mark is taken in its whole length. */
  function Search(w: seq<byte>, mark: seq<byte>): (f: Find)
    requires mark != []
    ensures f.used <= |w| && (f.found ==> |mark| <= f.used)
    decreases |w|
  {
    if w == [] then Find(0, false)
    else if w[0] != mark[0] then
      var f := Search(w[1..], mark);
      f.(used := f.used + 1)
    else if |w| < |mark| then Find(0, false)
    else if w[..|mark|] == mark then Find(|mark|, true)
    else
      var f := Search(w[|mark|..], mark);
      f.(used := f.used + |mark|)
  }

  /** The steps of the search come out at the end of `body`. */
  predicate Scans(body: seq<byte>, mark: seq<byte>)
    requires mark != []
    decreases |body|
  {
    || body == []
    || (body[0] != mark[0] && Scans(body[1..], mark))
    || (body[0] == mark[0] && |body| >= |mark| && Scans(body[|mark|..], mark))
  }

  predicate Free(w: seq<byte>, mark: seq<byte>) {
    forall i :: 0 <= i <= |w| - |mark| ==> w[i..][..|mark|] != mark
  }

  lemma {:induction false} FreeFrom(w: seq<byte>, k: nat, mark: seq<byte>)
    requires k <= |w| && Free(w, mark)
    ensures Free(w[k..], mark)
    ensures |mark| <= |w| ==> w[..|mark|] != mark
  {
    var u := w[k..];
    forall i | 0 <= i <= |u| - |mark| ensures u[i..][..|mark|] != mark {
      assert w[k + i..] == u[i..];
      assert w[k + i..][..|mark|] != mark;
    }
    if |mark| <= |w| {
      assert w[0..][..|mark|] != mark && w[0..] == w;
    }
  }

  predicate Mark(mark: seq<byte>) {
    mark == "-->" || mark == "]-->" || mark == "]]>"
  }

  /** A text shorter than the mark, with the mark behind it, does not begin with the mark. */
  lemma {:induction false} NoOverlap(body: seq<byte>, mark: seq<byte>)
    requires Mark(mark) && 0 < |body| < |mark|
    ensures (body + mark)[..|mark|] != mark
  {
    var n := |mark|;
    assert (body + mark)[..n][n - 1] == mark[n - 1 - |body|] != '>' == mark[n - 1];
  }

  lemma {:induction false} ShortSearch(w: seq<byte>, mark: seq<byte>)
    requires mark != [] && |w| < |mark|
    ensures !Search(w, mark).found
    decreases |w|
  {
    if w != [] && w[0] != mark[0] {
      ShortSearch(w[1..], mark);
    }
  }

  /** One step of the search that does not find the mark. */
  lemma {:induction false} SearchStep(w: seq<byte>, mark: seq<byte>, k: nat)
    requires mark != [] && w != []
    requires if w[0] != mark[0] then k == 1 else k == |mark| <= |w| && w[..|mark|] != mark
    ensures k <= |w| && Search(w, mark) == Find(Search(w[k..], mark).used + k, Search(w[k..], mark).found)
  {
  }

  lemma {:induction false} ScansStep(body: seq<byte>, mark: seq<byte>)
    requires mark != [] && body != []
    ensures body[0] != mark[0] ==> (Scans(body, mark) <==> Scans(body[1..], mark))
    ensures body[0] == mark[0] && |body| >= |mark| ==> (Scans(body, mark) <==> Scans(body[|mark|..], mark))
    ensures body[0] == mark[0] && |body| < |mark| ==> !Scans(body, mark)
  {
  }

  lemma {:induction false} Found(mark: seq<byte>, rest: seq<byte>)
    requires mark != []
    ensures Search(mark + rest, mark) == Find(|mark|, true)
  {
    assert (mark + rest)[..|mark|] == mark;
  }

  lemma {:induction false} Behind(body: seq<byte>, x: seq<byte>, k: nat)
    requires k <= |body|
    ensures (body + x)[k..] == body[k..] + x && (body + x)[..k] == body[..k] && (k > 0 ==> (body + x)[0] == body[0])
  {
  }

  /** A text that does not contain the mark is ended by it exactly if the steps of the search come out. */
  lemma {:induction false} FoundIff(body: seq<byte>, mark: seq<byte>, rest: seq<byte>)
    requires Mark(mark) && Free(body, mark)
    ensures Scans(body, mark) ==> Search(body + (mark + rest), mark) == Find(|body| + |mark|, true)
    ensures !Scans(body, mark) ==> !Search(body + mark, mark).found
    decreases |body|
  {
    hide Search, Scans, Free;
    var n := |mark|;
    if body == [] {
      Found(mark, rest);
      assert [] + (mark + rest) == mark + rest;
      ScansNothing(mark);
    } else {
      ScansStep(body, mark);
      if body[0] == mark[0] && |body| < n {
        NoOverlap(body, mark);
        SearchStep(body + mark, mark, n);
        ShortSearch((body + mark)[n..], mark);
      } else {
        var k := if body[0] == mark[0] then n else 1;
        FreeFrom(body, k, mark);
        FoundIff(body[k..], mark, rest);
        Behind(body, mark + rest, k);
        Behind(body, mark, k);
        SearchStep(body + (mark + rest), mark, k);
        SearchStep(body + mark, mark, k);
      }
    }
  }

  lemma {:induction false} ScansNothing(mark: seq<byte>)
    requires mark != []
    ensures Scans([], mark)
  {
  }

  // ---------- the machine searches ----------

  /** The mark that ends a mode, and what the mode writes of `w`. */
  function MarkOf(m: Mode): seq<byte> {
    match m
    case CommentSkip => "-->"
    case CommentIe => "]-->"
    case _ => "]]>"
  }

  predicate Searches(m: Mode) {
    m == CommentSkip || m == CommentIe || m == Cdata
  }

  function Written(m: Mode, w: seq<byte>): seq<byte> {
    if m == CommentSkip then [] else w
  }

  /** The machine after it has taken `w`, in mode `m`. */
  function Took(s: Html, w: seq<byte>, m: Mode): Html
    requires w != []
  {
    var b := w[|w| - 1];
    match s.mode
    case CommentSkip => s.(mode := m)
    case CommentIe => s.(mode := m, last := Some(b))
    case _ => s.(mode := m, last := Some(b), pre := if m == Text then b else '\0')
  }

  lemma {:induction false} SearchMoves(s: Html, w: seq<byte>)
    requires Searches(s.mode) && s.carry == [] && w != []
    ensures var mark, m := MarkOf(s.mode), Next(s, w);
            && (w[0] != mark[0] ==> m == Move(Took(s, w[..1], s.mode), 1, Written(s.mode, w[..1])))
            && (w[0] == mark[0] && |w| >= |mark| ==>
                  m == Move(Took(s, w[..|mark|], if w[..|mark|] == mark then Text else s.mode), |mark|,
                            Written(s.mode, w[..|mark|])))
            && (w[0] == mark[0] && |w| < |mark| ==> m.st.mode == s.mode && m.used > 0)
  {
    hide Begins;
  }

  lemma {:induction false} TookMore(s: Html, a: seq<byte>, b: seq<byte>, m: Mode)
    requires Searches(s.mode) && a != [] && b != []
    ensures Took(Took(s, a, s.mode), b, m) == Took(s, a + b, m)
    ensures Written(s.mode, a) + Written(s.mode, b) == Written(s.mode, a + b)
  {
  }

  /** One move of the machine is one step of the search. */
  lemma {:induction false} SliceTwo<T>(w: seq<T>, k: nat, n: nat)
    requires k + n <= |w|
    ensures w[..k] + w[k..][..n] == w[..k + n] && w[k..][n..] == w[k + n..] && w[..k] + w[k..] == w
    ensures w[k..][..n] == w[k..k + n]
  {
  }

  lemma {:induction false} RunStep(s: Html, w: seq<byte>, k: nat)
    requires Searches(s.mode) && s.carry == [] && w != []
    requires var mark := MarkOf(s.mode);
             if w[0] != mark[0] then k == 1 else k == |mark| <= |w| && w[..|mark|] != mark
    ensures k <= |w| && Run(s, w) == After(Written(s.mode, w[..k]), Run(Took(s, w[..k], s.mode), w[k..]))
  {
    hide Run, Next;
    SearchMoves(s, w);
    RunMove(s, w);
  }

  /** If the search finds the mark, the machine is back in the text behind it; otherwise it stays in its mode. */
  lemma {:induction false} RunSearches(s: Html, w: seq<byte>)
    requires Searches(s.mode) && s.carry == []
    ensures var f := Search(w, MarkOf(s.mode));
            if f.found then
              f.used > 0 && Run(s, w) == After(Written(s.mode, w[..f.used]), Run(Took(s, w[..f.used], Text), w[f.used..]))
            else
              Run(s, w).st.mode == s.mode && (s.mode == CommentSkip ==> Run(s, w).out == [])
    decreases |w|
  {
    hide Run, Next, Search, Took, Written;
    var mark := MarkOf(s.mode);
    if w == [] {
      NothingSearched(s, mark);
    } else if w[0] != mark[0] || (|w| >= |mark| && w[..|mark|] != mark) {
      var k := if w[0] != mark[0] then 1 else |mark|;
      SearchStep(w, mark, k);
      RunStep(s, w, k);
      var t := Took(s, w[..k], s.mode);
      TookIs(s, w[..k], s.mode);
      RunSearches(t, w[k..]);
      var f := Search(w[k..], mark);
      if f.found {
        TookMore(s, w[..k], w[k..][..f.used], Text);
        TookIs(t, w[k..][..f.used], Text);
        SliceTwo(w, k, f.used);
        AfterAfter(Written(s.mode, w[..k]), Written(s.mode, w[k..][..f.used]),
                   Run(Took(t, w[k..][..f.used], Text), w[k + f.used..]));
      }
    } else if |w| >= |mark| {
      SearchMoves(s, w);
      RunMove(s, w);
      Found(mark, w[|mark|..]);
      SliceTwo(w, |mark|, 0);
    } else {
      ShortSearch(w, mark);
      ShortRun(s, w);
    }
  }

  lemma {:induction false} NothingSearched(s: Html, mark: seq<byte>)
    requires Ready(s, []) && mark != []
    ensures Search([], mark) == Find(0, false) && Run(s, []) == Step(s, [])
  {
  }

  lemma {:induction false} TookIs(s: Html, w: seq<byte>, m: Mode)
    requires Searches(s.mode) && w != []
    ensures var t := Took(s, w, m); t.mode == m && t.carry == s.carry
    ensures s.mode == CommentSkip ==> Written(s.mode, w) == []
  {
  }

  lemma {:induction false} ShortMove(s: Html, w: seq<byte>)
    requires Searches(s.mode) && s.carry == [] && 0 < |w| < |MarkOf(s.mode)|
    ensures var m := Next(s, w);
            m.st.mode == s.mode && 0 < m.used <= |w| && (s.mode == CommentSkip ==> m.out == [])
  {
    hide Begins;
  }

  lemma {:induction false} ShortRun(s: Html, w: seq<byte>)
    requires Searches(s.mode) && Ready(s, w) && |w| < |MarkOf(s.mode)|
    ensures Run(s, w).st.mode == s.mode && (s.mode == CommentSkip ==> Run(s, w).out == [])
    decreases |w|
  {
    hide Next;
    if w != [] {
      ShortMove(s, w);
      RunMove(s, w);
      ShortRun(Next(s, w).st, w[Next(s, w).used..]);
    }
  }

  // ---------- comments and sections of a text ----------

  lemma {:induction false} OpeningBang(s: Html, w: seq<byte>)
    requires s.mode == Text && s.carry == [] && |w| >= 3 && w[0] == '<' && w[1] == '!'
    ensures var b := Sync(s).(mode := TagBang); Ready(b, w) && Run(s, w) == Run(b, w)
  {
    hide Run;
    assert w[0..] == w;
    RunMove(s, w);
    NothingBefore(Run(Sync(s).(mode := TagBang), w));
  }

  lemma {:induction false} OpeningComment(s: Html, w: seq<byte>)
    requires s.mode == Text && s.carry == [] && |w| >= 7 && "<!--" <= w
    ensures w[..7] != "<!--[if" ==> Run(s, w) == Run(Sync(s).(mode := CommentSkip), w[4..])
    ensures "<!--[if" <= w ==> Run(s, w) == Run(Sync(s).(mode := CommentIe), w)
  {
    hide Run, Next, Sync;
    var t := Sync(s);
    SyncIs(s);
    assert w[0..] == w && w[..2] == w[..4][..2];
    assert w[0] == w[..4][0] && w[1] == w[..4][1];
    OpeningBang(s, w);
    BangToComment(t, w);
    RunMove(t.(mode := TagBang), w);
    RunMove(t.(mode := Comment), w);
    NothingBefore(Run(t.(mode := Comment), w));
    if "<!--[if" <= w {
      NothingBefore(Run(t.(mode := CommentIe), w));
    }
    if w[..7] != "<!--[if" {
      NothingBefore(Run(t.(mode := CommentSkip), w[4..]));
    }
  }

  lemma {:induction false} OpeningCdata(s: Html, w: seq<byte>)
    requires s.mode == Text && s.carry == [] && "<![CDATA[" <= w
    ensures Run(s, w) == After("<![CDATA[", Run(s.(mode := Cdata, last := Some('['), pre := '\0'), w[9..]))
  {
    hide Run, Next, Sync;
    SyncIs(s);
    assert w[0] == w[..9][0] && w[1] == w[..9][1];
    OpeningBang(s, w);
    BangToCdata(Sync(s), w);
    RunMove(Sync(s).(mode := TagBang), w);
  }

  lemma {:induction false} NothingBefore(t: Step)
    ensures After([], t) == t
  {
  }

  lemma {:induction false} BangToComment(t: Html, w: seq<byte>)
    requires t.mode == Text && t.carry == [] && |w| >= 7 && "<!--" <= w
    ensures Next(t.(mode := TagBang), w) == Move(t.(mode := Comment), 0, [])
    ensures Ready(t.(mode := Comment), w)
    ensures w[..7] != "<!--[if" ==> Next(t.(mode := Comment), w) == Move(t.(mode := CommentSkip), 4, [])
    ensures "<!--[if" <= w ==> Next(t.(mode := Comment), w) == Move(t.(mode := CommentIe), 0, [])
  {
    assert w[..4] == "<!--";
    assert "<!--[if" <= w ==> w[..7] == "<!--[if";
  }

  lemma {:induction false} BangToCdata(t: Html, w: seq<byte>)
    requires t.mode == Text && t.carry == [] && |w| >= 9 && "<![CDATA[" <= w
    ensures Next(t.(mode := TagBang), w) ==
            Move(t.(mode := Cdata, last := Some('['), pre := '\0'), 9, "<![CDATA[")
  {
    assert w[..9] == "<![CDATA[";
  }

  lemma {:induction false} SkipsTo(t: Html, body: seq<byte>, rest: seq<byte>)
    requires t.mode == CommentSkip && t.carry == [] && Free(body, "-->")
    ensures Scans(body, "-->") ==> Run(t, body + ("-->" + rest)) == Run(t.(mode := Text), rest)
    ensures !Scans(body, "-->") ==> var u := Run(t, body + "-->"); u.st.mode == CommentSkip && u.out == []
  {
    hide Run, Scans, Search, Free;
    var m := "-->";
    var x := body + (m + rest);
    FoundIff(body, m, rest);
    if Scans(body, m) {
      RunSearches(t, x);
      assert x[|body| + 3..] == rest;
      NothingBefore(Run(t.(mode := Text), rest));
    } else {
      RunSearches(t, body + m);
    }
  }

  /** When a comment ends at its first `-->`: if its text comes out in the steps of the search, and then it leaves
      no trace. Otherwise the mark is overlooked, and what follows is dropped too. */
  lemma {:induction false} CommentEndsIff(s: Html, body: seq<byte>, rest: seq<byte>)
    requires s.mode == Text && s.carry == [] && Free(body, "-->") && !("[if" <= body)
    ensures Scans(body, "-->") ==>
      Run(s, "<!--" + (body + ("-->" + rest))) == Run(s.(pre := if s.last == None then s.pre else s.last.value), rest)
    ensures !Scans(body, "-->") ==>
      var t := Run(s, "<!--" + (body + "-->")); t.st.mode == CommentSkip && t.out == []
  {
    hide Run, Scans, Search, Free, Sync;
    var m := "-->";
    var x, y := body + (m + rest), body + m;
    SyncIs(s);
    SkipsTo(Sync(s).(mode := CommentSkip), body, rest);
    NotConditional(body, m + rest);
    NotConditional(body, m);
    OpeningComment(s, "<!--" + x);
    OpeningComment(s, "<!--" + y);
    assert ("<!--" + x)[4..] == x && ("<!--" + y)[4..] == y;
  }

  lemma {:induction false} SyncIs(s: Html)
    ensures Sync(s) == s.(pre := if s.last == None then s.pre else s.last.value)
  {
  }

  lemma {:induction false} NotConditional(body: seq<byte>, x: seq<byte>)
    requires !("[if" <= body) && "-->" <= x
    ensures "<!--" <= "<!--" + (body + x) && ("<!--" + (body + x))[..7] != "<!--[if"
  {
    var w, k := "<!--" + (body + x), |body|;
    if k >= 3 {
      assert w[4] == body[0] && w[5] == body[1] && w[6] == body[2];
      assert body[..3] == [body[0], body[1], body[2]];
    } else {
      assert w[4 + k] == x[0] == '-';
    }
    assert w[..7][4] == w[4] && w[..7][5] == w[5] && w[..7][6] == w[6];
    assert w[4] != '[' || w[5] != 'i' || w[6] != 'f';
  }

  lemma {:induction false} ScansPlain(u: seq<byte>, body: seq<byte>, mark: seq<byte>)
    requires mark != [] && mark[0] !in u
    ensures Scans(u + body, mark) <==> Scans(body, mark)
    decreases |u|
  {
    if u == [] {
      assert u + body == body;
    } else {
      assert (u + body)[1..] == u[1..] + body && u[0] in u;
      ScansPlain(u[1..], body, mark);
    }
  }

  lemma {:induction false} FreePlain(u: seq<byte>, body: seq<byte>, mark: seq<byte>)
    requires mark != [] && mark[0] !in u && Free(body, mark)
    ensures Free(u + body, mark)
  {
    var w := u + body;
    forall i | 0 <= i <= |w| - |mark| ensures w[i..][..|mark|] != mark {
      if i < |u| {
        assert w[i..][..|mark|][0] == u[i] && u[i] in u;
      } else {
        assert w[i..] == body[i - |u|..];
      }
    }
  }

  /** When a conditional comment ends at its first `]-->`: it is copied. */
  lemma {:induction false} ConditionalEndsIff(s: Html, body: seq<byte>, rest: seq<byte>)
    requires s.mode == Text && s.carry == [] && Free(body, "]-->")
    ensures Scans(body, "]-->") ==>
      Run(s, "<!--[if" + body + ("]-->" + rest)) ==
      After("<!--[if" + body + "]-->",
            Run(s.(pre := if s.last == None then s.pre else s.last.value, last := Some('>')), rest))
    ensures !Scans(body, "]-->") ==> Run(s, "<!--[if" + body + "]-->").st.mode == CommentIe
  {
    hide Run, Scans, Search, Free, Sync;
    var m, t, b := "]-->", Sync(s).(mode := CommentIe), "<!--[if" + body;
    var x, y := b + (m + rest), b + m;
    ScansPlain("<!--[if", body, m);
    FreePlain("<!--[if", body, m);
    FoundIff(b, m, rest);
    SyncIs(s);
    if Scans(b, m) {
      OpeningComment(s, x);
      RunSearches(t, x);
      var k := |b| + 4;
      assert x[k..] == rest && x[..k] == y && y[k - 1] == m[3];
      assert Took(t, y, Text) == Sync(s).(last := Some('>'));
    } else {
      OpeningComment(s, y);
      RunSearches(t, y);
    }
  }

  /** When a CDATA section ends at its first `]]>`: it is copied. */
  lemma {:induction false} CdataEndsIff(s: Html, body: seq<byte>, rest: seq<byte>)
    requires s.mode == Text && s.carry == [] && Free(body, "]]>")
    ensures Scans(body, "]]>") ==>
      Run(s, "<![CDATA[" + (body + ("]]>" + rest))) ==
      After("<![CDATA[" + (body + "]]>"), Run(s.(last := Some('>'), pre := '>'), rest))
    ensures !Scans(body, "]]>") ==> Run(s, "<![CDATA[" + (body + "]]>")).st.mode == Cdata
  {
    hide Run, Scans, Search, Free;
    var o, m, t := "<![CDATA[", "]]>", s.(mode := Cdata, last := Some('['), pre := '\0');
    var x, y := body + (m + rest), body + m;
    FoundIff(body, m, rest);
    assert (o + x)[9..] == x && (o + y)[9..] == y && o <= o + x && o <= o + y;
    if Scans(body, m) {
      OpeningCdata(s, o + x);
      RunSearches(t, x);
      var k := |body| + 3;
      assert x[k..] == rest && x[..k] == y && y[k - 1] == m[2];
      assert Took(t, y, Text) == s.(last := Some('>'), pre := '>');
      AfterAfter(o, y, Run(s.(last := Some('>'), pre := '>'), rest));
    } else {
      OpeningCdata(s, o + y);
      RunSearches(t, y);
    }
  }

  /** Three that are not ended by their marks. */
  lemma {:induction false} MarksOverlooked()
    ensures Run(START, "<!--a--->").st.mode == CommentSkip
    ensures Run(START, "<!--[if]]-->").st.mode == CommentIe
    ensures Run(START, "<![CDATA[x]]]>").st.mode == Cdata
  {
    hide Run;
    assert "a-"[1..] == "-" && "x]"[1..] == "]";
    assert !Scans("-", "-->") && !Scans("]", "]-->") && !Scans("]", "]]>");
    assert "<!--" + ("a-" + "-->") == "<!--a--->" && "<!--[if" + "]" + "]-->" == "<!--[if]]-->";
    assert "<![CDATA[" + ("x]" + "]]>") == "<![CDATA[x]]]>";
    CommentEndsIff(START, "a-", []);
    ConditionalEndsIff(START, "]", []);
    CdataEndsIff(START, "x]", []);
  }
}
