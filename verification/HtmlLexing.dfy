/** The machine on a whole text keeps what the lexer says, but for soft bytes, and carries its undecided end. */
module HtmlLexing {
  import opened Bytes
  import opened Thinning
  import opened HtmlMachine
  import opened HtmlStreams
  import opened HtmlBlocks
  import opened HtmlMarks
  import opened HtmlCuts
  import opened HtmlContent
  import opened HtmlRegions
  import X = HtmlReference
  import R = Reference

  /** Unless it falters, the run reads `w` as `l` says; back in the text, it remembers the same name. */
  ghost predicate Is(s: Html, w: seq<byte>, l: X.Lexed, kept: seq<byte>) {
    && Ready(s, w)
    && var k := Follow(s, w);
       k.falters || (&& k.items == X.ItemsOf(l.tokens) && k.st.carry == l.rest
                     && (k.st.mode == Text ==> k.st.name == X.Remembered(l.tokens, kept)))
  }

  lemma {:induction false} IsBefore(s: Html, w: seq<byte>, tok: X.Token, n: nat, t: Html, l: X.Lexed, kept: seq<byte>)
    requires Leads(s, w, tok.items, n, t) && Is(t, w[n..], l, X.NameAfter(tok.kind, kept))
    ensures Is(s, w, X.Before(tok, l), kept)
  {
    hide Follow, Ready, Names;
    var ts := [tok] + l.tokens;
    assert ts[0] == tok && ts[1..] == l.tokens;
  }

  lemma {:induction false} OneItems(t: X.Token)
    ensures X.ItemsOf([t]) == t.items
  {
    assert [t][1..] == [] && t.items + [] == t.items;
  }

  lemma {:induction false} IsOnly(s: Html, w: seq<byte>, kind: X.Kind, text: seq<byte>, items: seq<Item>, rest: seq<byte>,
                                  kept: seq<byte>)
    requires Finishes(s, w, items, rest)
    ensures Is(s, w, X.Only(kind, text, items, rest), kept)
  {
    hide Follow, Ready;
    OneItems(X.Token(kind, text, items));
  }

  /** A move that reads nothing comes first. */
  lemma {:induction false} LeadsFirst(s: Html, w: seq<byte>, t: Html, j: seq<Item>, n: nat, u: Html)
    requires Leads(s, w, [], 0, t) && Leads(t, w, j, n, u)
    ensures Leads(s, w, j, n, u)
  {
    hide Leads;
    assert w[0..] == w && [] + j == j;
    LeadsOn(s, w, [], 0, t, j, n, u);
  }

  // ---------- what a `<` opens ----------

  /** The moves from the text to a `<!` and to a comment read nothing. */
  lemma {:induction false} BangLeads(s: Html, w: seq<byte>) returns (t: Html)
    requires s.mode == Text && s.carry == [] && Names(s) && |w| >= 3 && w[0] == '<' && w[1] == '!'
    ensures Leads(s, w, [], 0, t) && t.mode == TagBang && t.name == s.name
  {
    hide Follow;
    OneMove(s, w);
    t := Next(s, w).st;
    HardNone(w);
  }

  lemma {:induction false} CommentLeads(s: Html, w: seq<byte>) returns (t: Html)
    requires s.mode == Text && s.carry == [] && Names(s) && |w| >= 4 && w[..4] == "<!--"
    ensures Leads(s, w, [], 0, t) && t.mode == Comment && t.name == s.name
  {
    hide Follow, Leads;
    var b := BangLeads(s, w);
    LeadsNames(s, w, [], 0, b);
    assert w[0..] == w;
    OneMove(b, w);
    t := Next(b, w).st;
    HardNone(w);
    LeadsFirst(s, w, b, [], 0, t);
  }

  lemma {:induction false} UndecidedMeans(w: seq<byte>)
    requires X.Undecided(w)
    ensures w[0] == '<' && (|w| >= 2 ==> w[1] == '!') && |w| < 9
    ensures |w| >= 3 ==> w[2] == '-' || w[2] == '['
    ensures |w| >= 3 && w[2] == '[' ==> Begins(w, "<![CDATA[")
    ensures |w| >= 3 && w[2] == '-' ==> Begins(w, "<!--[if") && (|w| >= 4 ==> w[3] == '-')
  {
    if Begins(w, "<!--[if") {
      LiteralBegins(w, "<!--[if");
    } else {
      LiteralBegins(w, "<![CDATA[");
    }
  }

  lemma {:induction false} LiteralBegins(w: seq<byte>, c: seq<byte>)
    requires Begins(w, c)
    ensures forall k :: 0 <= k < |w| ==> Lower(w[k]) == Lower(c[k])
    ensures forall k :: 0 <= k < |w| && !('A' <= c[k] <= 'Z') && !('a' <= c[k] <= 'z') ==> w[k] == c[k]
  {
    forall k | 0 <= k < |w| ensures Lower(w[k]) == Lower(c[k]) {
      assert c[..|w|][k] == c[k];
    }
  }

  lemma {:induction false} KeepIs(s: Html, t: Html, w: seq<byte>)
    requires Leads(s, w, [], 0, t) && w != [] && Ready(t, w) && !Falters(t, w)
    requires Next(t, w) == Move(Next(t, w).st, |w|, []) && Next(t, w).st.carry == w && Next(t, w).st.name == s.name
    ensures Is(s, w, X.Lexed([], w), s.name)
  {
    hide Falters;
    FollowOne(t, w);
    assert w[0..] == w && w[|w|..] == [];
  }

  lemma {:induction false} UndecidedIs(s: Html, w: seq<byte>)
    requires s.mode == Text && s.carry == [] && Names(s) && X.Undecided(w)
    ensures Is(s, w, X.Lexed([], w), s.name)
  {
    hide Follow, Leads, Is, Names;
    UndecidedMeans(w);
    assert w[0..] == w;
    if |w| < 3 {
      LeadsNowhere(s, w);
      KeepIs(s, s, w);
    } else if w[2] == '[' || |w| == 3 {
      var t := BangLeads(s, w);
      LeadsNames(s, w, [], 0, t);
      KeepIs(s, t, w);
    } else {
      assert w[..4] == "<!--";
      var t := CommentLeads(s, w);
      LeadsNames(s, w, [], 0, t);
      LongComment(w);
      KeepIs(s, t, w);
    }
  }

  lemma {:induction false} LongComment(w: seq<byte>)
    requires Begins(w, "<!--[if")
    ensures |w| < 7 && (|w| >= 5 ==> w[4] == '[')
  {
    LiteralBegins(w, "<!--[if");
  }

  lemma {:induction false} Prefixes()
    ensures X.Undecided("<") && X.Undecided("<!") && X.Undecided("<!-") && X.Undecided("<!--")
  {
    var c := "<!--[if";
    assert c[..1] == "<" && c[..2] == "<!" && c[..3] == "<!-" && c[..4] == "<!--";
  }

  lemma {:induction false} NotThese(w: seq<byte>)
    requires w != "<" && w != "<!" && w != "<!-" && w != "<!--" && w != [] && w[0] == '<'
    ensures |w| >= 2 && (w[1] == '!' ==> |w| >= 3)
    ensures |w| >= 3 && w[1] == '!' && w[2] == '-' ==> |w| >= 4
    ensures "<!--" <= w ==> |w| >= 5
  {
  }

  lemma {:induction false} NotUndecided(w: seq<byte>)
    requires !X.Undecided(w) && w != [] && w[0] == '<'
    ensures |w| >= 2 && (w[1] == '!' ==> |w| >= 3)
    ensures |w| >= 3 && w[1] == '!' && w[2] == '-' ==> |w| >= 4
    ensures "<!--" <= w ==> |w| >= 5
  {
    Prefixes();
    hide X.Undecided;
    NotThese(w);
  }

  lemma {:induction false} ConditionalLeads(s: Html, w: seq<byte>) returns (t: Html)
    requires s.mode == Text && s.carry == [] && Names(s) && "<!--[if" <= w
    ensures Leads(s, w, [], 0, t) && t.mode == CommentIe && t.name == s.name
  {
    hide Follow, Leads;
    assert w[..4] == "<!--" && w[..7] == "<!--[if" && w[0..] == w;
    var c := CommentLeads(s, w);
    LeadsNames(s, w, [], 0, c);
    OneMove(c, w);
    t := Next(c, w).st;
    HardNone(w);
    LeadsFirst(s, w, c, [], 0, t);
  }

  lemma {:induction false} SkippedLeads(s: Html, w: seq<byte>) returns (t: Html)
    requires s.mode == Text && s.carry == [] && Names(s) && "<!--" <= w && !("<!--[if" <= w) && !X.Undecided(w)
    ensures Leads(s, w, [], 4, t) && t.mode == CommentSkip && t.name == s.name
  {
    hide Follow, Leads;
    assert w[..4] == "<!--" && w[0..] == w;
    NotUndecided(w);
    var c := CommentLeads(s, w);
    LeadsNames(s, w, [], 0, c);
    OneMove(c, w);
    t := Next(c, w).st;
    LeadsFirst(s, w, c, [], 4, t);
  }

  /** What begins with `<![` and is decided: a CDATA section, or nine bytes that are copied. */
  lemma {:induction false} BracketLeads(s: Html, w: seq<byte>) returns (t: Html)
    requires s.mode == Text && s.carry == [] && Names(s) && "<![" <= w && |w| >= 9
    ensures Leads(s, w, R.Hard(w[..9]), 9, t) && t.name == s.name
    ensures t.mode == if w[..9] == "<![CDATA[" then Cdata else Text
  {
    hide Follow, Leads;
    assert w[..3] == "<![" && w[0..] == w;
    var b := BangLeads(s, w);
    LeadsNames(s, w, [], 0, b);
    OneMove(b, w);
    t := Next(b, w).st;
    LeadsFirst(s, w, b, R.Hard(w[..9]), 9, t);
  }

  lemma {:induction false} BracketFalters(s: Html, w: seq<byte>)
    requires s.mode == Text && s.carry == [] && Names(s) && "<![" <= w && |w| < 9 && !X.Undecided(w)
    ensures Ready(s, w) && Follow(s, w).falters
  {
    hide Begins, Leads;
    assert w[..3] == "<![" && w[0..] == w;
    var b := BangLeads(s, w);
    LeadsNames(s, w, [], 0, b);
    OneMove(b, w);
    LeadsFollow(s, w, [], 0, b);
  }

  lemma {:induction false} LeadsFollow(s: Html, w: seq<byte>, i: seq<Item>, n: nat, t: Html)
    requires Leads(s, w, i, n, t)
    ensures Ready(s, w) && n <= |w| && Ready(t, w[n..]) && Follow(s, w) == Plus(i, Follow(t, w[n..]))
  {
  }

  lemma {:induction false} OpeningLeads(s: Html, w: seq<byte>) returns (t: Html)
    requires s.mode == Text && s.carry == [] && Names(s) && w != [] && w[0] == '<' && !X.Undecided(w)
    requires !("<!--" <= w) && !("<![" <= w)
    ensures var k := X.Lead(w); Leads(s, w, R.Hard(w[..k]), k, t) && t.mode == Tag && t.name == s.name
  {
    hide Follow, Leads, Begins;
    NotUndecided(w);
    assert w[0..] == w;
    if w[1] != '!' {
      OneMove(s, w);
      t := Next(s, w).st;
      HardOne(w);
    } else {
      assert w[..3] == ['<', '!', w[2]];
      assert w[2] == '-' ==> w[..4] == ['<', '!', '-', w[3]];
      var b := BangLeads(s, w);
      LeadsNames(s, w, [], 0, b);
      OneMove(b, w);
      t := Next(b, w).st;
      var k := X.Lead(w);
      LeadsFirst(s, w, b, R.Hard(w[..k]), k, t);
    }
  }

  // ---------- text ----------

  lemma {:induction false} CharLeads(s: Html, w: seq<byte>) returns (t: Html)
    requires s.mode == Text && s.carry == [] && Names(s) && w != [] && w[0] != '<'
    ensures Leads(s, w, [Item(w[0], White(w[0]))], 1, t) && t.mode == Text && t.name == s.name
  {
    hide Follow;
    OneMove(s, w);
    t := Next(s, w).st;
  }

  lemma {:induction false} EmptyIs(s: Html)
    requires s.carry == [] && Ready(s, [])
    ensures Is(s, [], X.Lexed([], []), s.name)
  {
  }

  lemma {:induction false} FaltersIs(s: Html, w: seq<byte>, l: X.Lexed, kept: seq<byte>)
    requires Ready(s, w) && Follow(s, w).falters
    ensures Is(s, w, l, kept)
  {
  }

  /** For every text: the machine reads it as the lexer does. */
  lemma {:induction false} TextIs(s: Html, w: seq<byte>)
    requires s.mode == Text && s.carry == [] && Names(s)
    ensures Is(s, w, X.LexText(w, s.name), s.name)
    decreases |w|, 5
  {
    hide Follow, Leads, Finishes, Is, Names, X.Undecided, X.LexMarked, X.LexTag, R.Hard;
    var kept := s.name;
    if w == [] {
      EmptyIs(s);
    } else if X.Undecided(w) {
      UndecidedIs(s, w);
    } else if w[0] != '<' {
      var t := CharLeads(s, w);
      LeadsNames(s, w, [Item(w[0], White(w[0]))], 1, t);
      TextIs(t, w[1..]);
      IsBefore(s, w, X.Token(X.Char, w[..1], [Item(w[0], White(w[0]))]), 1, t, X.LexText(w[1..], kept), kept);
    } else if "<!--[if" <= w {
      var t := ConditionalLeads(s, w);
      HardNone(w);
      MarkedIs(s, w, X.Conditional, 0, t);
    } else if "<!--" <= w {
      var t := SkippedLeads(s, w);
      MarkedIs(s, w, X.Comment, 4, t);
    } else if "<![" <= w && |w| < 9 {
      BracketFalters(s, w);
      FaltersIs(s, w, X.LexText(w, kept), kept);
    } else if "<![" <= w {
      var t := BracketLeads(s, w);
      if w[..9] == "<![CDATA[" {
        assert "<![CDATA[" <= w;
        MarkedIs(s, w, X.Section, 9, t);
      } else {
        NotPrefix(w, "<![CDATA[");
        LeadsNames(s, w, R.Hard(w[..9]), 9, t);
        TextIs(t, w[9..]);
        IsBefore(s, w, X.Token(X.Bracket, w[..9], R.Hard(w[..9])), 9, t, X.LexText(w[9..], kept), kept);
      }
    } else {
      NotLonger(w);
      var t := OpeningLeads(s, w);
      TagIs(s, w, X.Lead(w), t);
    }
  }

  lemma {:induction false} NotPrefix(w: seq<byte>, c: seq<byte>)
    requires |c| <= |w| && w[..|c|] != c
    ensures !(c <= w)
  {
  }

  lemma {:induction false} NotLonger(w: seq<byte>)
    requires !("<![" <= w)
    ensures !("<![CDATA[" <= w)
  {
  }

  function KindMode(kind: X.Kind): Mode {
    match kind
    case Comment => CommentSkip
    case Conditional => CommentIe
    case _ => Cdata
  }

  /** A comment, a conditional comment or a section, from `i` on. */
  lemma {:induction false} MarkedIs(s: Html, w: seq<byte>, kind: X.Kind, i: nat, t: Html)
    requires s.mode == Text && i <= |w| && w != [] && (kind.Comment? || kind.Conditional? || kind.Section?)
    requires Leads(s, w, if kind.Comment? then [] else R.Hard(w[..i]), i, t)
    requires t.mode == KindMode(kind) && t.name == s.name
    ensures Is(s, w, X.LexMarked(kind, w, i, MarkOf(t.mode), s.name), s.name)
    decreases |w|, 4
  {
    hide Follow, Leads, Finishes, Is, Names, R.Hard, Search, X.LexText;
    var head := if kind.Comment? then [] else R.Hard(w[..i]);
    LeadsNames(s, w, head, i, t);
    var u := SearchLeads(t, w[i..]);
    var f := Search(w[i..], MarkOf(t.mode));
    var n := i + f.used;
    var items := MarkedItems(t.mode, w[i..][..f.used]);
    Joined(w, i, f.used);
    assert head + items == if kind.Comment? then [] else R.Hard(w[..n]);
    if f.found {
      LeadsOn(s, w, head, i, t, items, f.used, u);
      LeadsNames(s, w, head + items, n, u);
      TextIs(u, w[n..]);
      IsBefore(s, w, X.Token(kind, w[..n], head + items), n, u, X.LexText(w[n..], s.name), s.name);
    } else {
      FinishesOn(s, w, head, i, t, items, w[i..][f.used..]);
      IsOnly(s, w, kind, w[..n], head + items, w[n..], s.name);
    }
  }

  // ---------- tags ----------

  lemma {:induction false} TagEnds(t: Html)
    requires t.mode != Text && Names(t) && t.carry == [] && Ready(t, [])
    ensures Finishes(t, [], [], [])
  {
  }

  lemma {:induction false} SlashLeads(t: Html, w: seq<byte>) returns (u: Html)
    requires t.mode == Tag && t.carry == [] && Names(t) && w != [] && w[0] == '/'
    ensures Leads(t, w, R.Hard(w[..1]), 1, u) && u.mode == TagNameEnd && u.name == t.name && u.col == [] && u.carry == []
    ensures t.name != [] ==> InBlock(u, Closing([]))
  {
    hide Follow, SkipName;
    OneMove(t, w);
    HardOne(w);
    u := Next(t, w).st;
  }

  lemma {:induction false} NameStarts(t: Html, w: seq<byte>) returns (u: Html)
    requires t.mode == Tag && t.carry == [] && Names(t) && w != [] && w[0] != '/' && w[0] != ' '
    ensures Leads(t, w, [], 0, u) && u.mode == TagName && u.name == []
  {
    hide Follow;
    OneMove(t, w);
    HardNone(w);
    u := Next(t, w).st;
  }

  lemma {:induction false} NameEndsLead(t: Html, w: seq<byte>) returns (u: Html)
    requires t.mode == TagName && t.carry == [] && Names(t) && w != [] && w[0] in {'>', ' ', '/'}
    ensures Leads(t, w, R.Hard(w[..1]), 1, u) && u.carry == []
    ensures u.name == if SkipName(t.name) then t.name else []
    ensures u.mode == if w[0] != '>' then TagAtt else if u.name != [] then Skip else Text
  {
    hide Follow, SkipName;
    OneMove(t, w);
    HardOne(w);
    u := Next(t, w).st;
  }

  lemma {:induction false} SliceIs(w: seq<byte>, i: nat, n: nat)
    requires i + n <= |w|
    ensures w[i..][..n] == w[i..i + n] && w[i..][n..] == w[i + n..]
  {
  }

  /** A tag of which `k` bytes are read. */
  lemma {:induction false} TagIs(s: Html, w: seq<byte>, k: nat, t: Html)
    requires s.mode == Text && 0 < k <= |w| && Leads(s, w, R.Hard(w[..k]), k, t) && t.mode == Tag && t.name == s.name
    ensures Is(s, w, X.LexTag(w, k, s.name), s.name)
    decreases |w|, 4
  {
    hide Follow, Leads, Finishes, Is, Names, R.Hard, X.Softs, X.LexText, X.LexOpenTag, X.LexBlock, InBlock, X.Until, PlaceOf;
    LeadsNames(s, w, R.Hard(w[..k]), k, t);
    var g := X.Spaces(w[k..]);
    var i := k + g;
    var u := SpacesLead(t, w[k..]);
    SliceIs(w, k, g);
    var head := R.Hard(w[..k]) + X.Softs(w[k..i]);
    LeadsOn(s, w, R.Hard(w[..k]), k, t, X.Softs(w[k..i]), g, u);
    LeadsNames(s, w, head, i, u);
    if i == |w| {
      assert w[i..] == [] && head + [] == head;
      TagEnds(u);
      FinishesOn(s, w, head, i, u, [], []);
      IsOnly(s, w, X.Cut, w, head, [], s.name);
    } else if w[i] == '/' {
      SlashIs(s, w, i, head, u);
    } else {
      assert w[i..][0] == w[i];
      var c := NameStarts(u, w[i..]);
      LeadsOn(s, w, head, i, u, [], 0, c);
      assert head + [] == head;
      OpenTagIs(s, w, i, head, c);
    }
  }

  lemma {:induction false} SlashIs(s: Html, w: seq<byte>, i: nat, head: seq<Item>, u: Html)
    requires s.mode == Text && i < |w| && w[i] == '/' && Leads(s, w, head, i, u) && u.mode == Tag && u.name == s.name
    ensures var h, n := head + R.Hard(w[i..i + 1]), i + 1 + X.Until(w[i + 1..]);
            Is(s, w, if s.name != [] then X.LexBlock(s.name, "</", w, i + 1, h, true)
                     else if n == |w| then X.Only(X.Cut, w, h + X.Softs(w[i + 1..]), [])
                     else X.Before(X.Token(X.ClosingTag([]), w[..n + 1], h + X.Softs(w[i + 1..n + 1])),
                                   X.LexText(w[n + 1..], [])), s.name)
    decreases |w|, 3
  {
    hide Follow, Leads, Finishes, Is, Names, R.Hard, X.Softs, X.LexText, X.LexBlock, InBlock, X.Until, PlaceOf;
    LeadsNames(s, w, head, i, u);
    assert w[i..][0] == w[i];
    var c := SlashLeads(u, w[i..]);
    SliceIs(w, i, 1);
    LeadsOn(s, w, head, i, u, R.Hard(w[i..i + 1]), 1, c);
    PlaceNowhere();
    var h := head + R.Hard(w[i..i + 1]);
    if s.name != [] {
      BlockIs(s, w, i + 1, h, c, "</", true, s.name);
    } else {
      ClosingIs(s, w, i, h, c);
    }
  }

  lemma {:induction false} ClosingIs(s: Html, w: seq<byte>, i: nat, head: seq<Item>, c: Html)
    requires s.mode == Text && s.name == [] && i < |w| && Leads(s, w, head, i + 1, c)
    requires c.mode == TagNameEnd && c.name == []
    ensures var n := i + 1 + X.Until(w[i + 1..]);
            Is(s, w, if n == |w| then X.Only(X.Cut, w, head + X.Softs(w[i + 1..]), [])
                     else X.Before(X.Token(X.ClosingTag([]), w[..n + 1], head + X.Softs(w[i + 1..n + 1])),
                                   X.LexText(w[n + 1..], [])), [])
    decreases |w|, 2
  {
    hide Follow, Leads, Finishes, Is, Names, X.Softs, X.LexText, X.Until;
    LeadsNames(s, w, head, i + 1, c);
    var m := X.Until(w[i + 1..]);
    var n := i + 1 + m;
    var u := CloseLeads(c, w[i + 1..]);
    if n == |w| {
      FinishesOn(s, w, head, i + 1, c, X.Softs(w[i + 1..]), []);
      IsOnly(s, w, X.Cut, w, head + X.Softs(w[i + 1..]), [], []);
    } else {
      SliceIs(w, i + 1, m + 1);
      LeadsOn(s, w, head, i + 1, c, X.Softs(w[i + 1..n + 1]), m + 1, u);
      LeadsNames(s, w, head + X.Softs(w[i + 1..n + 1]), n + 1, u);
      TextIs(u, w[n + 1..]);
      IsBefore(s, w, X.Token(X.ClosingTag([]), w[..n + 1], head + X.Softs(w[i + 1..n + 1])), n + 1, u,
               X.LexText(w[n + 1..], []), []);
    }
  }

  lemma {:induction false} OpenTagIs(s: Html, w: seq<byte>, i: nat, head: seq<Item>, c: Html)
    requires s.mode == Text && 0 < i < |w| && Leads(s, w, head, i, c) && c.mode == TagName && c.name == []
    ensures Is(s, w, X.LexOpenTag(w, i, head), s.name)
    decreases |w|, 2
  {
    hide Follow, Leads, Finishes, Is, Names, R.Hard, X.LexText, X.LexBehind, X.LexAtts, X.NameLen, SkipName;
    LeadsNames(s, w, head, i, c);
    var n := X.NameLen(w[i..]);
    var j := i + n;
    var d := NameLeads(c, w[i..]);
    SliceIs(w, i, n);
    assert [] + w[i..j] == w[i..j];
    LeadsOn(s, w, head, i, c, R.Hard(w[i..j]), n, d);
    LeadsNames(s, w, head + R.Hard(w[i..j]), j, d);
    if j == |w| {
      assert w[j..] == [] && w[i..j] == w[i..] && (head + R.Hard(w[i..j])) + [] == head + R.Hard(w[i..j]);
      TagEnds(d);
      FinishesOn(s, w, head + R.Hard(w[i..j]), j, d, [], []);
      IsOnly(s, w, X.Cut, w, head + R.Hard(w[i..]), [], s.name);
    } else {
      assert w[j..][0] == w[j];
      var e := NameEndsLead(d, w[j..]);
      SliceIs(w, j, 1);
      LeadsOn(s, w, head + R.Hard(w[i..j]), j, d, R.Hard(w[j..j + 1]), 1, e);
      HardTwo(w, i, j);
      var items := head + R.Hard(w[i..j + 1]);
      assert (head + R.Hard(w[i..j])) + R.Hard(w[j..j + 1]) == items;
      if w[j] == '>' {
        BehindIs(s, w, j + 1, items, e);
      } else {
        AttsIs(s, w, j + 1, items, e);
      }
    }
  }

  lemma {:induction false} HardTwo(w: seq<byte>, i: nat, j: nat)
    requires i <= j < |w|
    ensures R.Hard(w[i..j]) + R.Hard(w[j..j + 1]) == R.Hard(w[i..j + 1])
  {
  }

  /** Behind the `>` of an opening tag. */
  lemma {:induction false} BehindIs(s: Html, w: seq<byte>, n: nat, items: seq<Item>, e: Html)
    requires s.mode == Text && 0 < n <= |w| && Leads(s, w, items, n, e)
    requires (e.mode == Text && e.name == []) || (e.mode == Skip && e.name != [])
    ensures Is(s, w, X.Before(X.Token(X.OpenTag(e.name), w[..n], items), X.LexBehind(e.name, w[n..])), s.name)
    decreases |w|, 0
  {
    hide Follow, Leads, Is, X.LexText, X.LexBlock, InBlock, Names, PlaceOf;
    LeadsNames(s, w, items, n, e);
    var v := w[n..];
    if e.mode == Text {
      TextIs(e, v);
    } else if v == [] {
      EmptyIs(e);
    } else {
      SkipInBlock(e);
      PlaceNowhere();
      LeadsNowhere(e, v);
      BlockIs(e, v, 0, [], e, [], false, e.name);
    }
    IsBefore(s, w, X.Token(X.OpenTag(e.name), w[..n], items), n, e, X.LexBehind(e.name, v), s.name);
  }

  lemma {:induction false} SkipInBlock(e: Html)
    requires e.mode == Skip && Names(e) && e.carry == []
    ensures InBlock(e, Verbatim)
  {
  }

  lemma {:induction false} AttsIs(s: Html, w: seq<byte>, j: nat, head: seq<Item>, e: Html)
    requires s.mode == Text && 0 < j <= |w| && Leads(s, w, head, j, e) && e.mode == TagAtt
    ensures var a := X.LexAtts(w[j..]);
            var n, items := j + a.used, head + a.items;
            match a.end
            case Open => Is(s, w, X.Only(X.Cut, w[..n], items, w[n..]), s.name)
            case Closed => Is(s, w, X.Before(X.Token(X.OpenTag(e.name), w[..n], items), X.LexBehind(e.name, w[n..])), s.name)
            case Void => Is(s, w, X.Before(X.Token(X.OpenTag([]), w[..n], items), X.LexText(w[n..], [])), s.name)
    decreases |w|, 1
  {
    hide Follow, Leads, Finishes, Is, Names, X.LexText, X.LexAtts;
    LeadsNames(s, w, head, j, e);
    var a := X.LexAtts(w[j..]);
    var n, items := j + a.used, head + a.items;
    var u := AttsLead(e, w[j..]);
    SliceIs(w, j, a.used);
    match a.end
    case Open =>
      FinishesOn(s, w, head, j, e, a.items, w[n..]);
      IsOnly(s, w, X.Cut, w[..n], items, w[n..], s.name);
    case Closed =>
      LeadsOn(s, w, head, j, e, a.items, a.used, u);
      BehindIs(s, w, n, items, u);
    case Void =>
      LeadsOn(s, w, head, j, e, a.items, a.used, u);
      BehindIs(s, w, n, items, u);
  }

  // ---------- blocks ----------

  /** The block from `i` on, entered behind its bytes `u`. */
  lemma {:induction false} BlockIs(s: Html, w: seq<byte>, i: nat, head: seq<Item>, t: Html, u: seq<byte>, tag: bool,
                                   kept: seq<byte>)
    requires i <= |w| && w != [] && Leads(s, w, head, i, t) && InBlock(t, PlaceOf(u)) && !PlaceOf(u).Angle?
    ensures Is(s, w, X.LexBlock(t.name, u, w, i, head, tag), kept)
    decreases |w|, 2
  {
    hide Follow, Leads, Finishes, Is, Names, X.LexText, InBlock, PlaceOf, BlockRun, Items, LeftState, Ready, X.BlockUsed;
    LeadsNames(s, w, head, i, t);
    InBlockReachable(t, PlaceOf(u), w[i..]);
    BlockLeads(t, u, w[i..]);
    BlockPlace(t.name, u, w[i..]);
    var r := BlockRun(t.name, PlaceOf(u), w[i..]);
    var n := X.BlockUsed(r, w[i..]);
    var x := Items(u, w[i..][..n]);
    SliceIs(w, i, n);
    if r.st.Left? {
      UsedSome(r, w[i..]);
      LeadsOn(s, w, head, i, t, x, n, LeftState(t.name, r.st.kept));
      BlockLeft(s, w, i + n, head + x, t.name, r.st.kept, tag, kept);
    } else {
      FinishesOn(s, w, head, i, t, x, w[i..][n..]);
      IsOnly(s, w, X.Cut, w[..i + n], head + x, w[i + n..], kept);
    }
  }

  lemma {:induction false} BlockLeft(s: Html, w: seq<byte>, n: nat, items: seq<Item>, name: seq<byte>, keeps: bool,
                                     tag: bool, kept: seq<byte>)
    requires 0 < n <= |w| && Leads(s, w, items, n, LeftState(name, keeps))
    ensures var left := if keeps then name else [];
            Is(s, w, X.Before(X.Token(if tag then X.ClosingTag(left) else X.Content(left), w[..n], items),
                              X.LexText(w[n..], left)), kept)
    decreases |w|, 1
  {
    hide Follow, Leads, Finishes, Is, Names, X.LexText, LeftState, Ready;
    var l, left := LeftState(name, keeps), if keeps then name else [];
    LeadsNames(s, w, items, n, l);
    LeftIs(name, keeps);
    TextIs(l, w[n..]);
    IsBefore(s, w, X.Token(if tag then X.ClosingTag(left) else X.Content(left), w[..n], items), n, l,
             X.LexText(w[n..], left), kept);
  }

  lemma {:induction false} LeftIs(name: seq<byte>, keeps: bool)
    ensures var l := LeftState(name, keeps); l.mode == Text && l.name == if keeps then name else []
  {
  }

  lemma {:induction false} UsedSome(r: BlockStep, w: seq<byte>)
    requires r.st.Left? && |r.rest| < |w|
    ensures X.BlockUsed(r, w) > 0
  {
  }

  // ---------- the whole text ----------

  /** For every text on which the machine does not falter: it reads what the lexer keeps, carries the undecided
      end, and remembers the name that the tags leave. */
  lemma {:induction false} ReadsAsLexed(w: seq<byte>)
    requires !Faltering(START, w)
    ensures var l, t := X.LexText(w, []), Run(START, w);
            && Follow(START, w).items == X.ItemsOf(l.tokens) && t.st.carry == l.rest
            && (t.st.mode == Text ==> t.st.name == X.Remembered(l.tokens, []))
  {
    hide X.LexText, Follow, Run, Faltering;
    TextIs(START, w);
    FollowsRun(START, w);
  }

  /** And so for every chain: if no buffer falters, what the buffers write together is what the lexer keeps of the
      whole text, with nothing left out but soft bytes. */
  lemma {:induction false} LexedChunks(chunks: seq<seq<byte>>)
    requires GoodCuts(START, chunks) && !Faltering(START, Concat(chunks))
    ensures var l, t := X.LexText(Concat(chunks), []), Chunks(START, chunks);
            && Thins(X.ItemsOf(l.tokens), t.out) && t.st.carry == l.rest
            && (t.st.mode == Text ==> t.st.name == X.Remembered(l.tokens, []))
  {
    hide X.LexText, Follow, Run, Faltering, Chunks, GoodCuts, Chunk, Concat;
    var w := Concat(chunks);
    ReadsAsLexed(w);
    StartOpens(w);
    if chunks == [] {
      NoChunks();
    } else {
      ChunksThin(START, chunks);
      var n := |chunks| - 1;
      GoodPrefix(START, chunks, n, chunks[n]);
      assert chunks[..n] + [chunks[n]] == chunks;
    }
  }

  lemma {:induction false} StartOpens(w: seq<byte>)
    ensures START.carry + w == w && Open(START) == START && Chunk(START, w) == Run(START, w)
  {
  }

  lemma {:induction false} NoChunks()
    ensures Concat<byte>([]) == [] && Chunks(START, []) == Step(START, []) && Run(START, []) == Step(START, [])
    ensures X.LexText([], []) == X.Lexed([], []) && Thins(X.ItemsOf([]), [])
  {
  }
}
