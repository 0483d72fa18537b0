/** What every run of mod_strip keeps. */
module StripStreams {
  import opened Bytes
  import opened Thinning
  import opened StripMachine

  /** The missing break makes the bracket states, and the CDATA states behind them, unreachable. */
  predicate Reachable(s: State) {
    && s != TagBangBracket && s != TagBangBracketC && s != TagBangBracketCd && s != TagBangBracketCda
    && s != TagBangBracketCdat && s != TagBangBracketCdata
    && s != Cdata && s != CdataBracket && s != CdataBracketBracket
  }

  /** A byte is kept as it is, or it is white and dropped without a trace. */
  lemma {:induction false} NextOut(s: State, b: byte)
    requires Reachable(s)
    ensures Reachable(Next(s, b).st)
    ensures Next(s, b).out == [b] || (White(b) && Next(s, b) == Step(s, []))
  {
  }

  lemma {:induction false} RunReachable(s: State, w: seq<byte>)
    requires Reachable(s)
    ensures Reachable(Run(s, w).st)
    decreases |w|
  {
    hide Next, Reachable;
    if w != [] {
      NextOut(s, w[0]);
      RunReachable(Next(s, w[0]).st, w[1..]);
    }
  }

  // ---------- buffers ----------

  function Chunks(s: State, chunks: seq<seq<byte>>): Step
    decreases |chunks|
  {
    if chunks == [] then Step(s, [])
    else
      var t := Run(s, chunks[0]);
      var u := Chunks(t.st, chunks[1..]);
      u.(out := t.out + u.out)
  }

  /** Exact chunk independence, from every state and for every cutting. */
  lemma {:induction false} ChunkIndependence(s: State, chunks: seq<seq<byte>>)
    ensures Chunks(s, chunks) == Run(s, Concat(chunks))
    decreases |chunks|
  {
    if chunks != [] {
      ChunkIndependence(Run(s, chunks[0]).st, chunks[1..]);
      RunAppend(s, chunks[0], Concat(chunks[1..]));
    }
  }

  // ---------- stripping twice ----------

  /** What is dropped leaves the state alone, and what is kept is kept again. */
  lemma {:induction false} NextTwice(s: State, b: byte)
    requires Reachable(s)
    ensures Run(s, Next(s, b).out) == Next(s, b)
  {
    hide Next, Reachable;
    NextOut(s, b);
    if Next(s, b).out == [] {
      RunNothing(s);
    } else {
      RunSnoc(s, [], b);
      RunNothing(s);
      assert [] + [b] == [b];
    }
  }

  /** Stripping the output again, from the same state, changes nothing. */
  lemma {:induction false} Idempotent(s: State, w: seq<byte>)
    requires Reachable(s)
    ensures Run(s, Run(s, w).out) == Run(s, w)
    decreases |w|
  {
    hide Next, Reachable;
    if w != [] {
      var n := Next(s, w[0]);
      var u := Run(n.st, w[1..]);
      NextOut(s, w[0]);
      NextTwice(s, w[0]);
      Idempotent(n.st, w[1..]);
      RunAppend(s, n.out, u.out);
    }
  }

  // ---------- content ----------

  function Items(w: seq<byte>): seq<Item> {
    if w == [] then [] else [Item(w[0], White(w[0]))] + Items(w[1..])
  }

  /** The output is the input with nothing but white bytes left out. */
  lemma {:induction false} KeepsContent(s: State, w: seq<byte>)
    requires Reachable(s)
    ensures Thins(Items(w), Run(s, w).out)
    decreases |w|
  {
    hide Next, Reachable, White;
    if w != [] {
      var n := Next(s, w[0]);
      assert Items(w)[1..] == Items(w[1..]) && Items(w)[0] == Item(w[0], White(w[0]));
      NextOut(s, w[0]);
      KeepsContent(n.st, w[1..]);
      if n.out == [w[0]] {
        assert Run(s, w).out[1..] == Run(n.st, w[1..]).out;
      } else {
        assert Run(s, w).out == Run(n.st, w[1..]).out;
      }
    }
  }

  // ---------- what is stripped ----------

  lemma {:induction false} WhitesAfterSpace(w: seq<byte>)
    requires forall i :: 0 <= i < |w| ==> w[i] == ' ' || w[i] == '\t' || w[i] == '\n' || w[i] == '\r'
    ensures Run(TextWhitespace, w) == Step(TextWhitespace, [])
    decreases |w|
  {
    if w != [] {
      assert w[0] == ' ' || w[0] == '\t' || w[0] == '\n' || w[0] == '\r';
      WhitesAfterSpace(w[1..]);
    }
  }

  /** In the text, a run of white bytes becomes one space if there is a space in it, and nothing
      otherwise. */
  lemma {:induction false} WhiteRun(w: seq<byte>)
    requires forall i :: 0 <= i < |w| ==> w[i] == ' ' || w[i] == '\t' || w[i] == '\n' || w[i] == '\r'
    ensures Run(Text, w) == if ' ' in w then Step(TextWhitespace, [' ']) else Step(Text, [])
    ensures Run(TextWhitespace, w) == Step(TextWhitespace, [])
    decreases |w|
  {
    WhitesAfterSpace(w);
    if w != [] {
      assert w[0] == ' ' || w[0] == '\t' || w[0] == '\n' || w[0] == '\r';
      assert w == [w[0]] + w[1..];
      if w[0] == ' ' {
        WhitesAfterSpace(w[1..]);
      } else {
        WhiteRun(w[1..]);
      }
    }
  }

  // ---------- regions ----------

  predicate InPre(s: State) {
    || s == Preformatted || s == PreformattedAngle || s == PreformattedAngleSlash
    || s == PreformattedAngleSlashP || s == PreformattedAngleSlashPr || s == PreformattedAngleSlashPre
  }

  predicate InComment(s: State) {
    s == Comment || s == CommentDash || s == CommentDashDash
  }

  /** `u` ends with `tail`, in either case. */
  predicate Ends(u: seq<byte>, tail: seq<byte>) {
    |tail| <= |u| && SameNoCase(u[|u| - |tail|..], tail)
  }

  /** A `<` and then spaces. */
  predicate Opens(u: seq<byte>) {
    u != [] && (u[|u| - 1] == '<' || (u[|u| - 1] == ' ' && Opens(u[..|u| - 1])))
  }

  predicate OpensWith(u: seq<byte>, tail: seq<byte>) {
    |tail| <= |u| && SameNoCase(u[|u| - |tail|..], tail) && Opens(u[..|u| - |tail|])
  }

  /** What the bytes read so far end with, in each state that remembers it. */
  predicate History(s: State, u: seq<byte>) {
    match s
    case Tag => Opens(u)
    case TagNameP => OpensWith(u, "p")
    case TagNamePr => OpensWith(u, "pr")
    case TagNamePre => OpensWith(u, "pre")
    case TagBang => OpensWith(u, "!")
    case TagBangDash => OpensWith(u, "!-")
    case PreformattedAngle => Ends(u, "<")
    case PreformattedAngleSlash => Ends(u, "</")
    case PreformattedAngleSlashP => Ends(u, "</p")
    case PreformattedAngleSlashPr => Ends(u, "</pr")
    case PreformattedAngleSlashPre => Ends(u, "</pre")
    case CommentDash => Ends(u, "-")
    case CommentDashDash => Ends(u, "--")
    case _ => true
  }

  lemma {:induction false} EndsMore(u: seq<byte>, tail: seq<byte>, b: byte, c: byte, tail': seq<byte>)
    requires Ends(u, tail) && Lower(b) == Lower(c) && tail' == tail + [c]
    ensures Ends(u + [b], tail')
  {
    assert (u + [b])[|u + [b]| - |tail'|..] == u[|u| - |tail|..] + [b];
  }

  lemma {:induction false} OpensMore(u: seq<byte>, tail: seq<byte>, b: byte, c: byte, tail': seq<byte>)
    requires OpensWith(u, tail) && Lower(b) == Lower(c) && tail' == tail + [c]
    ensures OpensWith(u + [b], tail')
  {
    EndsMore(u, tail, b, c, tail');
    assert (u + [b])[..|u + [b]| - |tail'|] == u[..|u| - |tail|];
  }

  /** Entering and leaving a region: what has been read when it happens. */
  ghost predicate Moves(s: State, t: State, u: seq<byte>) {
    && (!InPre(s) && InPre(t) ==> OpensWith(u, "pre ") || OpensWith(u, "pre>"))
    && (!InComment(s) && InComment(t) ==> OpensWith(u, "!--"))
    && (InPre(s) && !InPre(t) ==> t == Text && Ends(u, "</pre>"))
    && (InComment(s) && !InComment(t) ==> t == Text && Ends(u, "-->"))
  }

  lemma {:induction false} TagHistory(s: State, u: seq<byte>, b: byte)
    requires History(s, u) && (s == Text || s == TextWhitespace || s == Tag)
    ensures History(Next(s, b).st, u + [b])
    ensures Moves(s, Next(s, b).st, u + [b])
  {
    hide Ends, Opens, OpensWith;
    OpensNext(u, b);
  }

  lemma {:induction false} OpensNext(u: seq<byte>, b: byte)
    ensures b == '<' || (b == ' ' && Opens(u)) ==> Opens(u + [b])
    ensures Opens(u) && (b == 'p' || b == 'P') ==> OpensWith(u + [b], "p")
    ensures Opens(u) && b == '!' ==> OpensWith(u + [b], "!")
  {
    var v := u + [b];
    assert v[..|v| - 1] == u && v[|v| - 1..] == [b];
  }

  lemma {:induction false} NameHistory(s: State, u: seq<byte>, b: byte)
    requires History(s, u)
    requires s == TagNameP || s == TagNamePr || s == TagNamePre || s == TagBang || s == TagBangDash
    ensures History(Next(s, b).st, u + [b])
    ensures Moves(s, Next(s, b).st, u + [b])
  {
    hide Ends, Opens, OpensWith;
    var t := Next(s, b).st;
    if s == TagNameP && t == TagNamePr {
      OpensMore(u, "p", b, 'r', "pr");
    } else if s == TagNamePr && t == TagNamePre {
      OpensMore(u, "pr", b, 'e', "pre");
    } else if s == TagNamePre && t == Preformatted {
      OpensMore(u, "pre", b, b, "pre" + [b]);
      assert "pre" + [' '] == "pre " && "pre" + ['>'] == "pre>";
    } else if s == TagBang && t == TagBangDash {
      OpensMore(u, "!", b, '-', "!-");
    } else if s == TagBangDash && t == Comment {
      OpensMore(u, "!-", b, '-', "!--");
    }
  }

  lemma {:induction false} EndsOne(u: seq<byte>, b: byte)
    ensures b == '<' ==> Ends(u + [b], "<")
    ensures b == '-' ==> Ends(u + [b], "-")
  {
    assert (u + [b])[|u + [b]| - 1..] == [b];
  }

  /** How the machine goes on inside the two regions. */
  lemma {:induction false} InPreNext(s: State, b: byte)
    requires InPre(s)
    ensures var t := Next(s, b).st;
            || t == Preformatted
            || (s == Preformatted && t == PreformattedAngle && b == '<')
            || (s == PreformattedAngle && t == PreformattedAngleSlash && b == '/')
            || (s == PreformattedAngleSlash && t == PreformattedAngleSlashP && Lower(b) == 'p')
            || (s == PreformattedAngleSlashP && t == PreformattedAngleSlashPr && Lower(b) == 'r')
            || (s == PreformattedAngleSlashPr && t == PreformattedAngleSlashPre && Lower(b) == 'e')
            || (s == PreformattedAngleSlashPre && t == Text && b == '>')
  {
  }

  lemma {:induction false} InCommentNext(s: State, b: byte)
    requires InComment(s)
    ensures var t := Next(s, b).st;
            || t == Comment
            || (s == Comment && t == CommentDash && b == '-')
            || (s == CommentDash && t == CommentDashDash && b == '-')
            || (s == CommentDashDash && t == Text && b == '>')
  {
  }

  lemma {:induction false} PreRemembers(u: seq<byte>)
    ensures History(Preformatted, u) && History(Text, u)
    ensures History(PreformattedAngle, u) <==> Ends(u, "<")
    ensures History(PreformattedAngleSlash, u) <==> Ends(u, "</")
    ensures History(PreformattedAngleSlashP, u) <==> Ends(u, "</p")
    ensures History(PreformattedAngleSlashPr, u) <==> Ends(u, "</pr")
    ensures History(PreformattedAngleSlashPre, u) <==> Ends(u, "</pre")
  {
    hide Ends, Opens, OpensWith;
  }

  lemma {:induction false} CommentRemembers(u: seq<byte>)
    ensures History(Comment, u) && History(Text, u)
    ensures History(CommentDash, u) <==> Ends(u, "-")
    ensures History(CommentDashDash, u) <==> Ends(u, "--")
  {
    hide Ends, Opens, OpensWith;
  }

  /** Within a region, and out of one. */
  lemma {:induction false} MovesWithin(s: State, t: State, u: seq<byte>)
    requires InPre(s) == InPre(t) && InComment(s) == InComment(t)
    ensures Moves(s, t, u)
  {
    hide Ends, OpensWith;
  }

  lemma {:induction false} MovesOut(s: State, u: seq<byte>)
    ensures InPre(s) && Ends(u, "</pre>") ==> Moves(s, Text, u)
    ensures InComment(s) && Ends(u, "-->") ==> Moves(s, Text, u)
  {
    hide Ends, OpensWith;
  }

  lemma {:induction false} PreEnds(u: seq<byte>, b: byte)
    ensures b == '<' ==> Ends(u + [b], "<")
    ensures Ends(u, "<") && b == '/' ==> Ends(u + [b], "</")
    ensures Ends(u, "</") && Lower(b) == 'p' ==> Ends(u + [b], "</p")
    ensures Ends(u, "</p") && Lower(b) == 'r' ==> Ends(u + [b], "</pr")
  {
    hide Ends;
    EndsOne(u, b);
    if Ends(u, "<") && b == '/' {
      EndsMore(u, "<", b, '/', "</");
    }
    if Ends(u, "</") && Lower(b) == 'p' {
      EndsMore(u, "</", b, 'p', "</p");
    }
    if Ends(u, "</p") && Lower(b) == 'r' {
      EndsMore(u, "</p", b, 'r', "</pr");
    }
  }

  lemma {:induction false} PreEndsLater(u: seq<byte>, b: byte)
    ensures Ends(u, "</pr") && Lower(b) == 'e' ==> Ends(u + [b], "</pre")
    ensures Ends(u, "</pre") && b == '>' ==> Ends(u + [b], "</pre>")
  {
    hide Ends;
    if Ends(u, "</pr") && Lower(b) == 'e' {
      EndsMore(u, "</pr", b, 'e', "</pre");
    }
    if Ends(u, "</pre") && b == '>' {
      EndsMore(u, "</pre", b, '>', "</pre>");
    }
  }

  lemma {:induction false} CommentEnds(u: seq<byte>, b: byte)
    ensures b == '-' ==> Ends(u + [b], "-")
    ensures Ends(u, "-") && b == '-' ==> Ends(u + [b], "--")
    ensures Ends(u, "--") && b == '>' ==> Ends(u + [b], "-->")
  {
    hide Ends;
    EndsOne(u, b);
    if Ends(u, "-") && b == '-' {
      EndsMore(u, "-", b, '-', "--");
    }
    if Ends(u, "--") && b == '>' {
      EndsMore(u, "--", b, '>', "-->");
    }
  }

  lemma {:induction false} PreHistory(s: State, u: seq<byte>, b: byte)
    requires History(s, u) && InPre(s)
    ensures History(Next(s, b).st, u + [b])
    ensures Moves(s, Next(s, b).st, u + [b])
  {
    hide Next, History, Moves, Ends, Lower;
    InPreNext(s, b);
    PreRemembers(u);
    PreRemembers(u + [b]);
    PreEnds(u, b);
    PreEndsLater(u, b);
    if Next(s, b).st == Text {
      MovesOut(s, u + [b]);
    } else {
      MovesWithin(s, Next(s, b).st, u + [b]);
    }
  }

  lemma {:induction false} CommentHistory(s: State, u: seq<byte>, b: byte)
    requires History(s, u) && InComment(s)
    ensures History(Next(s, b).st, u + [b])
    ensures Moves(s, Next(s, b).st, u + [b])
  {
    hide Next, History, Moves, Ends;
    InCommentNext(s, b);
    CommentRemembers(u);
    CommentRemembers(u + [b]);
    CommentEnds(u, b);
    if Next(s, b).st == Text {
      MovesOut(s, u + [b]);
    } else {
      MovesWithin(s, Next(s, b).st, u + [b]);
    }
  }

  lemma {:induction false} OtherHistory(s: State, u: seq<byte>, b: byte)
    requires Reachable(s) && !InPre(s) && !InComment(s) && s != Text && s != TextWhitespace && s != Tag
    requires s != TagNameP && s != TagNamePr && s != TagNamePre && s != TagBang && s != TagBangDash
    ensures History(Next(s, b).st, u + [b])
    ensures Moves(s, Next(s, b).st, u + [b])
  {
    hide Ends, Opens, OpensWith;
  }

  lemma {:induction false} NextHistory(s: State, u: seq<byte>, b: byte)
    requires Reachable(s) && History(s, u)
    ensures History(Next(s, b).st, u + [b])
    ensures Moves(s, Next(s, b).st, u + [b])
  {
    hide History, Moves, Next;
    if s == Text || s == TextWhitespace || s == Tag {
      TagHistory(s, u, b);
    } else if s == TagNameP || s == TagNamePr || s == TagNamePre || s == TagBang || s == TagBangDash {
      NameHistory(s, u, b);
    } else if InPre(s) {
      PreHistory(s, u, b);
    } else if InComment(s) {
      CommentHistory(s, u, b);
    } else {
      OtherHistory(s, u, b);
    }
  }

  lemma {:induction false} RunHistory(u: seq<byte>)
    ensures Reachable(Run(Text, u).st) && History(Run(Text, u).st, u)
    decreases |u|
  {
    hide Next;
    if u == [] {
      RunNothing(Text);
    } else {
      var v, b := u[..|u| - 1], u[|u| - 1];
      assert u == v + [b];
      RunHistory(v);
      RunSnoc(Text, v, b);
      RunReachable(Text, u);
      NextHistory(Run(Text, v).st, v, b);
    }
  }

  /** The history invariant, over the whole stream: a preformatted region begins only right after
      `<`, spaces and `pre`, and ends only right after `</pre>`, in either case; a comment begins
      only right after `<`, spaces and `!--`, and ends only right after `-->`. */
  lemma {:induction false} RegionsByHistory(u: seq<byte>, b: byte)
    ensures Moves(Run(Text, u).st, Run(Text, u + [b]).st, u + [b])
  {
    hide *;
    RunHistory(u);
    RunSnoc(Text, u, b);
    NextHistory(Run(Text, u).st, u, b);
  }

  /** The whole run over `w` stays inside preformatted regions and comments. */
  predicate StaysInRegions(s: State, w: seq<byte>)
    decreases |w|
  {
    (InPre(s) || InComment(s)) && (w != [] ==> StaysInRegions(Next(s, w[0]).st, w[1..]))
  }

  lemma {:induction false} RegionNext(s: State, b: byte)
    requires InPre(s) || InComment(s)
    ensures Next(s, b).out == [b]
  {
  }

  /** Both regions are written byte for byte. */
  lemma {:induction false} RegionsAreVerbatim(s: State, w: seq<byte>)
    requires StaysInRegions(s, w)
    ensures Run(s, w).out == w
    decreases |w|
  {
    hide Next, InPre, InComment;
    if w != [] {
      RegionNext(s, w[0]);
      RegionsAreVerbatim(Next(s, w[0]).st, w[1..]);
      assert w == [w[0]] + w[1..];
    }
  }

  // ---------- exactly when a comment ends ----------

  /** How many dashes `u` ends with. */
  function Dashes(u: seq<byte>): nat {
    if u == [] || u[|u| - 1] != '-' then 0 else 1 + Dashes(u[..|u| - 1])
  }

  function CommentState(dashes: nat): State {
    if dashes % 3 == 0 then Comment else if dashes % 3 == 1 then CommentDash else CommentDashDash
  }

  lemma {:induction false} CommentNext(d: nat, b: byte)
    ensures var t := Next(CommentState(d), b).st;
            t == CommentState(if b == '-' then d + 1 else 0) || (t == Text && b == '>')
    ensures Next(CommentState(d), '>').st == Text <==> d % 3 == 2
  {
  }

  lemma {:induction false} DashesSnoc(u: seq<byte>, b: byte)
    ensures Dashes(u + [b]) == if b == '-' then Dashes(u) + 1 else 0
  {
    assert (u + [b])[..|u|] == u;
  }

  lemma {:induction false} NoDashes()
    ensures Run(Comment, []).st == CommentState(Dashes([]))
  {
  }

  /** Inside a comment the state counts the dashes read last, but only modulo three. */
  lemma {:induction false} DashesByThree(u: seq<byte>)
    requires StaysInRegions(Comment, u)
    ensures Run(Comment, u).st == CommentState(Dashes(u))
    decreases |u|
  {
    hide Run, StaysInRegions, Next, Dashes, CommentState;
    if u == [] {
      NoDashes();
    } else {
      var v, b := u[..|u| - 1], u[|u| - 1];
      assert u == v + [b];
      StaysPrefix(Comment, v, [b]);
      DashesByThree(v);
      RunSnoc(Comment, v, b);
      StaysRun(Comment, u);
      DashesSnoc(v, b);
      CommentNext(Dashes(v), b);
    }
  }

  lemma {:induction false} StaysPrefix(s: State, v: seq<byte>, w: seq<byte>)
    requires StaysInRegions(s, v + w)
    ensures StaysInRegions(s, v)
    decreases |v|
  {
    hide Next;
    if v != [] {
      assert (v + w)[1..] == v[1..] + w;
      StaysPrefix(Next(s, v[0]).st, v[1..], w);
    }
  }

  lemma {:induction false} StaysRun(s: State, w: seq<byte>)
    requires StaysInRegions(s, w)
    ensures InPre(Run(s, w).st) || InComment(Run(s, w).st)
    decreases |w|
  {
    hide Next;
    if w != [] {
      StaysRun(Next(s, w[0]).st, w[1..]);
    }
  }

  /** A `>` ends a comment if and only if the number of dashes right before it leaves the remainder
      two when divided by three; so `--->` does not end one. */
  lemma {:induction false} CommentEndsIff(u: seq<byte>)
    requires StaysInRegions(Comment, u)
    ensures Run(Comment, u + ['>']).st == Text <==> Dashes(u) % 3 == 2
  {
    hide *;
    DashesByThree(u);
    RunSnoc(Comment, u, '>');
    CommentNext(Dashes(u), '>');
  }
}
