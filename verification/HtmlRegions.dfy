/** The machine reads a text as the lexer does: region by region. */
module HtmlRegions {
  import opened Bytes
  import opened Thinning
  import opened HtmlMachine
  import opened HtmlBlocks
  import opened HtmlMarks
  import opened HtmlCuts
  import opened HtmlContent
  import X = HtmlReference
  import R = Reference

  /** From `s` the machine reads the first `n` bytes of `w`, as `items`, and comes to `t`. */
  ghost predicate Leads(s: Html, w: seq<byte>, items: seq<Item>, n: nat, t: Html) {
    && Ready(s, w) && n <= |w| && Ready(t, w[n..]) && Names(t) && t.carry == []
    && Follow(s, w) == Plus(items, Follow(t, w[n..]))
  }

  /** It reads `w` to its end outside the text, or falters; `rest` is carried. */
  ghost predicate Finishes(s: Html, w: seq<byte>, items: seq<Item>, rest: seq<byte>) {
    && Ready(s, w)
    && var k := Follow(s, w);
       k.falters || (k.items == items && k.st.carry == rest && k.st.mode != Text)
  }

  lemma {:induction false} LeadsNowhere(s: Html, w: seq<byte>)
    requires Ready(s, w) && Names(s) && s.carry == []
    ensures Leads(s, w, [], 0, s)
  {
    assert w[0..] == w && [] + Follow(s, w).items == Follow(s, w).items;
  }

  lemma {:induction false} LeadsOn(s: Html, w: seq<byte>, i: seq<Item>, m: nat, t: Html, j: seq<Item>, n: nat, u: Html)
    requires Leads(s, w, i, m, t) && Leads(t, w[m..], j, n, u)
    ensures Leads(s, w, i + j, m + n, u)
  {
    hide Follow, Ready, Names;
    assert w[m..][n..] == w[m + n..];
    var k := Follow(u, w[m + n..]).items;
    assert i + (j + k) == (i + j) + k;
  }

  lemma {:induction false} FinishesOn(s: Html, w: seq<byte>, i: seq<Item>, m: nat, t: Html, j: seq<Item>, rest: seq<byte>)
    requires Leads(s, w, i, m, t) && Finishes(t, w[m..], j, rest)
    ensures Finishes(s, w, i + j, rest)
  {
    hide Follow, Ready, Names;
  }

  /** One move. */
  lemma {:induction false} OneMove(s: Html, w: seq<byte>)
    requires w != [] && Names(s) && Ready(s, w)
    ensures Next(s, w).st.carry == [] && !Falters(s, w) ==> Leads(s, w, MoveItems(s, w), Next(s, w).used, Next(s, w).st)
    ensures Falters(s, w) ==> Follow(s, w).falters
  {
    hide Next, Follow, Names, Falters, MoveItems;
    FollowOne(s, w);
    NextNames(s, w);
  }

  lemma {:induction false} HardNone(w: seq<byte>)
    ensures R.Hard(w[..0]) == [] && X.Softs(w[..0]) == []
  {
  }

  lemma {:induction false} HardOne(w: seq<byte>)
    requires w != []
    ensures R.Hard(w[..1]) == [Item(w[0], false)] && X.Softs(w[..1]) == [Item(w[0], w[0] == ' ')]
  {
  }

  lemma {:induction false} Joined(w: seq<byte>, k: nat, n: nat)
    requires k + n <= |w|
    ensures w[..k] + w[k..][..n] == w[..k + n] && w[k..][n..] == w[k + n..]
    ensures R.Hard(w[..k]) + R.Hard(w[k..][..n]) == R.Hard(w[..k + n])
    ensures X.Softs(w[..k]) + X.Softs(w[k..][..n]) == X.Softs(w[..k + n])
  {
  }

  // ---------- up to a mark ----------

  function MarkedItems(m: Mode, w: seq<byte>): seq<Item> {
    if m == CommentSkip then [] else R.Hard(w)
  }

  lemma {:induction false} MarkedNone(m: Mode, w: seq<byte>)
    ensures MarkedItems(m, w[..0]) == [] && w[0..] == w
  {
    HardNone(w);
  }

  lemma {:induction false} MarkedJoined(m: Mode, w: seq<byte>, k: nat, n: nat)
    requires k + n <= |w|
    ensures MarkedItems(m, w[..k]) + MarkedItems(m, w[k..][..n]) == MarkedItems(m, w[..k + n])
    ensures w[k..][n..] == w[k + n..]
  {
    Joined(w, k, n);
  }

  lemma {:induction false} SearchOneLeads(s: Html, w: seq<byte>, k: nat)
    requires Searches(s.mode) && s.carry == [] && Names(s) && w != []
    requires var mark := MarkOf(s.mode);
             if w[0] != mark[0] then k == 1 else k == |mark| <= |w|
    ensures var t := Took(s, w[..k], if w[..k] == MarkOf(s.mode) then Text else s.mode);
            k <= |w| && Leads(s, w, MarkedItems(s.mode, w[..k]), k, t)
  {
    hide Begins, Follow;
    SearchMoves(s, w);
    OneMove(s, w);
    HardOne(w);
  }

  lemma {:induction false} ShortFinishes(s: Html, w: seq<byte>)
    requires Searches(s.mode) && s.carry == [] && Names(s)
    requires |w| < |MarkOf(s.mode)| && (w != [] ==> w[0] == MarkOf(s.mode)[0])
    ensures Finishes(s, w, [], w)
  {
    if w != [] {
      hide Begins, Names;
      FollowOne(s, w);
      if !Falters(s, w) {
        assert Next(s, w) == Move(s.(carry := w), |w|, []);
        assert w[|w|..] == [];
      }
    }
  }

  lemma {:induction false} SearchLeads(s: Html, w: seq<byte>) returns (t: Html)
    requires Searches(s.mode) && s.carry == [] && Names(s)
    ensures var f := Search(w, MarkOf(s.mode));
            if f.found then Leads(s, w, MarkedItems(s.mode, w[..f.used]), f.used, t) && t.mode == Text && t.name == s.name
            else Finishes(s, w, MarkedItems(s.mode, w[..f.used]), w[f.used..])
    decreases |w|
  {
    hide Follow, Search, Took, Names, Leads, Finishes, MarkedItems;
    var mark := MarkOf(s.mode);
    t := s;
    if w == [] || (w[0] == mark[0] && |w| < |mark|) {
      ShortFinishes(s, w);
      SearchEnds(w, mark);
      MarkedNone(s.mode, w);
    } else {
      var k := if w[0] != mark[0] then 1 else |mark|;
      SearchOneLeads(s, w, k);
      TookNamed(s, w[..k]);
      if w[..k] == mark {
        t := Took(s, w[..k], Text);
        Found(mark, w[k..]);
        assert mark + w[k..] == w;
      } else {
        var u := Took(s, w[..k], s.mode);
        LeadsNames(s, w, MarkedItems(s.mode, w[..k]), k, u);
        SearchStep(w, mark, k);
        t := SearchLeads(u, w[k..]);
        var f := Search(w[k..], mark);
        MarkedJoined(s.mode, w, k, f.used);
        if f.found {
          LeadsOn(s, w, MarkedItems(s.mode, w[..k]), k, u, MarkedItems(s.mode, w[k..][..f.used]), f.used, t);
        } else {
          FinishesOn(s, w, MarkedItems(s.mode, w[..k]), k, u, MarkedItems(s.mode, w[k..][..f.used]), w[k..][f.used..]);
        }
      }
    }
  }

  lemma {:induction false} SearchEnds(w: seq<byte>, mark: seq<byte>)
    requires mark != [] && (w == [] || (w[0] == mark[0] && |w| < |mark|))
    ensures Search(w, mark) == Find(0, false)
  {
  }

  lemma {:induction false} TookNamed(s: Html, w: seq<byte>)
    requires Searches(s.mode) && w != []
    ensures forall m :: var t := Took(s, w, m); t.mode == m && t.name == s.name && t.carry == s.carry
  {
  }

  lemma {:induction false} LeadsNames(s: Html, w: seq<byte>, i: seq<Item>, n: nat, t: Html)
    requires Leads(s, w, i, n, t)
    ensures n <= |w| && Names(t) && t.carry == [] && Ready(t, w[n..])
  {
  }

  // ---------- tags ----------

  lemma {:induction false} SpacesLead(s: Html, w: seq<byte>) returns (t: Html)
    requires s.mode == Tag && s.carry == [] && Names(s)
    ensures var g := X.Spaces(w);
            Leads(s, w, X.Softs(w[..g]), g, t) && t.mode == Tag && t.name == s.name
    ensures X.Spaces(w) < |w| ==> w[X.Spaces(w)] != ' '
    decreases |w|
  {
    hide Follow, Leads, Names;
    t := s;
    if w == [] || w[0] != ' ' {
      LeadsNowhere(s, w);
      HardNone(w);
    } else {
      SpaceDropped(s, w);
      HardOne(w);
      OneMove(s, w);
      var u := Next(s, w).st;
      LeadsNames(s, w, X.Softs(w[..1]), 1, u);
      t := SpacesLead(u, w[1..]);
      var g := X.Spaces(w[1..]);
      LeadsOn(s, w, X.Softs(w[..1]), 1, u, X.Softs(w[1..][..g]), g, t);
      Joined(w, 1, g);
      assert w[1..][..g] == w[1..1 + g];
    }
  }

  lemma {:induction false} SpaceDropped(s: Html, w: seq<byte>)
    requires s.mode == Tag && s.carry == [] && w != [] && w[0] == ' '
    ensures var m := Next(s, w);
            && m.used == 1 && m.st.carry == [] && m.st.mode == Tag && m.st.name == s.name && !Falters(s, w)
            && MoveItems(s, w) == [Item(' ', true)]
  {
  }

  lemma {:induction false} NameJoined(name: seq<byte>, w: seq<byte>, n: nat)
    requires 1 + n <= |w|
    ensures (name + [w[0]]) + w[1..][..n] == name + w[..1 + n]
  {
  }

  lemma {:induction false} NameLeads(s: Html, w: seq<byte>) returns (t: Html)
    requires s.mode == TagName && s.carry == [] && Names(s)
    ensures var n := X.NameLen(w);
            Leads(s, w, R.Hard(w[..n]), n, t) && t.mode == TagName && t.name == s.name + w[..n]
    ensures X.NameLen(w) < |w| ==> w[X.NameLen(w)] in {'>', ' ', '/'}
    decreases |w|
  {
    hide Follow, Leads, Names, Next, MoveItems, Falters, R.Hard;
    t := s;
    if w == [] || w[0] in {'>', ' ', '/'} {
      LeadsNowhere(s, w);
      HardNone(w);
      assert w[..0] == [] && s.name + [] == s.name;
    } else {
      NameKept(s, w);
      HardOne(w);
      OneMove(s, w);
      var u := Next(s, w).st;
      LeadsNames(s, w, R.Hard(w[..1]), 1, u);
      t := NameLeads(u, w[1..]);
      var n := X.NameLen(w[1..]);
      LeadsOn(s, w, R.Hard(w[..1]), 1, u, R.Hard(w[1..][..n]), n, t);
      Joined(w, 1, n);
      NameJoined(s.name, w, n);
    }
  }

  lemma {:induction false} NameKept(s: Html, w: seq<byte>)
    requires s.mode == TagName && s.carry == [] && w != [] && w[0] !in {'>', ' ', '/'}
    ensures var m := Next(s, w);
            && m.used == 1 && m.st.carry == [] && m.st.mode == TagName && m.st.name == s.name + [w[0]]
            && !Falters(s, w) && MoveItems(s, w) == [Item(w[0], false)]
  {
    hide SkipName;
  }

  /** One move among attributes. */
  lemma {:induction false} AttMoves(s: Html, w: seq<byte>)
    requires s.mode == TagAtt && s.carry == [] && w != []
    ensures !Falters(s, w)
    ensures var m := Next(s, w);
            if w == ['/'] then m == Move(s.(carry := w), 1, [])
            else
              && m.st.carry == []
              && (if w[0] == '>' then
                    m.used == 1 && MoveItems(s, w) == R.Hard(w[..1]) && m.st.name == s.name
                    && m.st.mode == if s.name != [] then Skip else Text
                  else if w[0] == '/' && w[1] != '>' then
                    m.used == 2 && MoveItems(s, w) == R.Hard(w[..2]) && m.st.name == s.name && m.st.mode == TagAtt
                  else
                    m.used == 1 && MoveItems(s, w) == X.Softs(w[..1]) && m.st.mode == TagAtt
                    && m.st.name == if w[0] == '/' then [] else s.name)
  {
  }

  lemma {:induction false} AttsLead(s: Html, w: seq<byte>) returns (t: Html)
    requires s.mode == TagAtt && s.carry == [] && Names(s)
    ensures var a := X.LexAtts(w);
            match a.end
            case Open => Finishes(s, w, a.items, w[a.used..])
            case Closed =>
              Leads(s, w, a.items, a.used, t) && t.name == s.name && t.mode == if s.name != [] then Skip else Text
            case Void => Leads(s, w, a.items, a.used, t) && t.name == [] && t.mode == Text
    decreases |w|
  {
    hide Follow, Leads, Finishes, Names, Next, MoveItems, Falters;
    t := s;
    if w == [] {
      AttsEnd(s, w);
    } else {
      AttMoves(s, w);
      OneMove(s, w);
      if w == ['/'] {
        AttsEnd(s, w);
      } else {
        var m := Next(s, w);
        t := m.st;
        LeadsNames(s, w, MoveItems(s, w), m.used, t);
        if w[0] == '/' && w[1] == '>' {
          VoidLeads(t, w);
          t := Next(m.st, w[1..]).st;
          LeadsOn(s, w, X.Softs(w[..1]), 1, m.st, R.Hard(w[1..][..1]), 1, t);
          assert X.Softs(w[..1]) + R.Hard(w[1..][..1]) == R.Hard(w[..2]);
        } else if w[0] != '>' {
          t := AttsLead(m.st, w[m.used..]);
          var a := X.LexAtts(w[m.used..]);
          Joined(w, m.used, a.used);
          assert w[m.used..][a.used..] == w[m.used + a.used..];
          if a.end.Open? {
            FinishesOn(s, w, MoveItems(s, w), m.used, m.st, a.items, w[m.used..][a.used..]);
          } else {
            LeadsOn(s, w, MoveItems(s, w), m.used, m.st, a.items, a.used, t);
          }
        }
      }
    }
  }

  lemma {:induction false} AttsEnd(s: Html, w: seq<byte>)
    requires s.mode == TagAtt && s.carry == [] && (w == [] || w == ['/'])
    ensures Finishes(s, w, [], w[0..])
  {
    assert w[0..] == w;
    if w != [] {
      FollowOne(s, w);
      assert w[1..] == [];
    }
  }

  lemma {:induction false} VoidLeads(s: Html, w: seq<byte>)
    requires s.mode == TagAtt && s.carry == [] && s.name == [] && Names(s) && |w| > 1 && w[1] == '>'
    ensures var m := Next(s, w[1..]);
            && Leads(s, w[1..], R.Hard(w[1..][..1]), 1, m.st) && m.st.name == [] && m.st.mode == Text
  {
    hide Follow;
    AttMoves(s, w[1..]);
    OneMove(s, w[1..]);
  }

  /** A closing tag, while no name is remembered. */
  lemma {:induction false} CloseLeads(s: Html, w: seq<byte>) returns (t: Html)
    requires s.mode == TagNameEnd && s.carry == [] && s.name == [] && Names(s)
    ensures var n := X.Until(w);
            if n == |w| then Finishes(s, w, X.Softs(w), [])
            else Leads(s, w, X.Softs(w[..n + 1]), n + 1, t) && t.mode == Text && t.name == []
    decreases |w|
  {
    hide Follow, Leads, Finishes, Names, Next, MoveItems, Falters;
    t := s;
    if w == [] {
      CloseEnds(s);
    } else {
      CloseMoves(s, w);
      OneMove(s, w);
      HardOne(w);
      t := Next(s, w).st;
      LeadsNames(s, w, X.Softs(w[..1]), 1, t);
      if w[0] != '>' {
        var u := t;
        t := CloseLeads(u, w[1..]);
        var n := X.Until(w[1..]);
        if n == |w[1..]| {
          FinishesOn(s, w, X.Softs(w[..1]), 1, u, X.Softs(w[1..]), []);
          assert X.Softs(w[..1]) + X.Softs(w[1..]) == X.Softs(w);
        } else {
          LeadsOn(s, w, X.Softs(w[..1]), 1, u, X.Softs(w[1..][..n + 1]), n + 1, t);
          Joined(w, 1, n + 1);
        }
      }
    }
  }

  lemma {:induction false} CloseMoves(s: Html, w: seq<byte>)
    requires s.mode == TagNameEnd && s.carry == [] && s.name == [] && Names(s) && w != []
    ensures var m := Next(s, w);
            && m.used == 1 && m.st.carry == [] && !Falters(s, w) && m.st.name == []
            && m.st.mode == (if w[0] == '>' then Text else TagNameEnd) && MoveItems(s, w) == [Item(w[0], w[0] == ' ')]
  {
  }

  lemma {:induction false} CloseEnds(s: Html)
    requires s.mode == TagNameEnd && s.carry == []
    ensures Finishes(s, [], X.Softs([]), [])
  {
  }

  // ---------- blocks ----------

  /** The reference goes through the first `k` bytes of `w`. */
  lemma {:induction false} BlockJoined(name: seq<byte>, u: seq<byte>, w: seq<byte>, k: nat)
    requires k <= |w| && BlockRun(name, PlaceOf(u), w[..k]).st == PlaceOf(u + w[..k]) && !PlaceOf(u + w[..k]).Angle?
    ensures var r, t := BlockRun(name, PlaceOf(u), w), BlockRun(name, PlaceOf(u + w[..k]), w[k..]);
            var n := X.BlockUsed(t, w[k..]);
            && t.st == r.st && X.BlockUsed(r, w) == k + n
            && Items(u, w[..k + n]) == Items(u, w[..k]) + Items(u + w[..k], w[k..][..n])
            && w[k..][n..] == w[k + n..]
  {
    hide BlockRun, PlaceOf, Items;
    var v, x := w[..k], w[k..];
    assert v + x == w;
    NotLeft(u + v);
    BlockAppend(name, PlaceOf(u), v, x);
    var t := BlockRun(name, PlaceOf(u + v), x);
    BlockPlace(name, u + v, x);
    BlockPlace(name, u, w);
    if x == [] {
      BlockNone(name, PlaceOf(u + v), x);
    }
    var n := X.BlockUsed(t, x);
    ItemsAppend(u, v, x[..n]);
    assert v + x[..n] == w[..k + n];
  }

  lemma {:induction false} ItemsAppend(u: seq<byte>, v: seq<byte>, x: seq<byte>)
    ensures Items(u, v + x) == Items(u, v) + Items(u + v, x)
    decreases |v|
  {
    if v == [] {
      assert v + x == x && u + v == u;
    } else {
      assert (v + x)[1..] == v[1..] + x && (u + [v[0]]) + v[1..] == u + v;
      ItemsAppend(u + [v[0]], v[1..], x);
    }
  }

  lemma {:induction false} ItemsOne(u: seq<byte>, c: byte)
    ensures Items(u, [c]) == [Item(c, c == ' ' && InClosing(u))]
  {
    assert [c][1..] == [];
  }

  lemma {:induction false} RunOneByte(name: seq<byte>, u: seq<byte>, c: byte)
    ensures BlockRun(name, PlaceOf(u), [c]).st == BlockNext(name, PlaceOf(u), c).0
  {
    hide PlaceOf, BlockNext, BlockRun;
    NotLeft(u);
    BlockOne(name, PlaceOf(u), [c]);
    assert [c][1..] == [];
    BlockNone(name, BlockNext(name, PlaceOf(u), c).0, []);
  }

  /** A byte of a block, read by itself. */
  lemma {:induction false} ByteLeads(s: Html, u: seq<byte>, w: seq<byte>)
    requires InBlock(s, PlaceOf(u)) && Reachable(s, w) && w != []
    requires PlaceOf(u).Closing? || (PlaceOf(u).Verbatim? && w[0] != '<')
    ensures var m, n := Next(s, w), BlockNext(s.name, PlaceOf(u), w[0]).0;
            && Leads(s, w, Items(u, w[..1]), 1, m.st)
            && (if n.Left? then m.st == LeftState(s.name, n.kept) else InBlock(m.st, n) && m.st.name == s.name)
  {
    hide Follow, BlockNext, Falters;
    OneByte(s, PlaceOf(u), w);
    OneMove(s, w);
    assert w[..1] == [w[0]];
    ItemsOne(u, w[0]);
    ByteItems(s, u, w);
  }

  lemma {:induction false} ByteItems(s: Html, u: seq<byte>, w: seq<byte>)
    requires InBlock(s, PlaceOf(u)) && Reachable(s, w) && w != []
    requires PlaceOf(u).Closing? || (PlaceOf(u).Verbatim? && w[0] != '<')
    ensures MoveItems(s, w) == [Item(w[0], w[0] == ' ' && InClosing(u))] && !Falters(s, w) && Next(s, w).st.carry == []
  {
    hide SkipName, Collected, Tight;
  }

  /** Two bytes: a `<` and the byte behind it. */
  lemma {:induction false} PairLeads(s: Html, u: seq<byte>, w: seq<byte>) returns (t: Html)
    requires PlaceOf(u).Verbatim? && InBlock(s, Verbatim) && Reachable(s, w) && |w| >= 2 && w[0] == '<'
    ensures var u' := u + w[..2];
            && PlaceOf(u') == (if w[1] == '/' then Closing([]) else Verbatim)
            && BlockRun(s.name, PlaceOf(u), w[..2]).st == PlaceOf(u')
            && Leads(s, w, Items(u, w[..2]), 2, t) && InBlock(t, PlaceOf(u')) && t.name == s.name
  {
    hide Follow, BlockRun, PlaceOf, InBlock, Leads;
    var v := w[..2];
    PairPlace(s.name, u, w[1]);
    assert v == ['<', w[1]];
    if w[1] == '/' {
      t := ClosingLeads(s, w);
    } else {
      t := OnePairLeads(s, w);
    }
  }

  lemma {:induction false} AngleNotClosing(u: seq<byte>)
    requires PlaceOf(u).Angle?
    ensures !InClosing(u)
  {
  }

  lemma {:induction false} PairPlace(name: seq<byte>, u: seq<byte>, c: byte)
    requires PlaceOf(u).Verbatim?
    ensures PlaceOf(u + ['<', c]) == if c == '/' then Closing([]) else Verbatim
    ensures BlockRun(name, PlaceOf(u), ['<', c]).st == PlaceOf(u + ['<', c])
    ensures Items(u, ['<', c]) == R.Hard(['<', c])
  {
    hide PlaceOf, InClosing, Closes, BlockRun, Items;
    var v := u + ['<'];
    assert v + [c] == u + ['<', c] && ['<'] + [c] == ['<', c];
    PlaceNext(name, u, '<');
    PlaceNext(name, v, c);
    AngleNotClosing(v);
    BlockAppend(name, PlaceOf(u), ['<'], [c]);
    RunOneByte(name, u, '<');
    RunOneByte(name, v, c);
    ItemsAppend(u, ['<'], [c]);
    ItemsOne(u, '<');
    ItemsOne(v, c);
  }

  lemma {:induction false} OnePairLeads(s: Html, w: seq<byte>) returns (t: Html)
    requires InBlock(s, Verbatim) && Reachable(s, w) && |w| >= 2 && w[0] == '<' && w[1] != '/'
    ensures Leads(s, w, R.Hard(w[..2]), 2, t) && InBlock(t, Verbatim) && t.name == s.name
  {
    hide Follow, SkipName;
    PairRead(s, w);
    OneMove(s, w);
    t := Next(s, w).st;
  }

  lemma {:induction false} ClosingLeads(s: Html, w: seq<byte>) returns (t: Html)
    requires InBlock(s, Verbatim) && Reachable(s, w) && |w| >= 2 && w[0] == '<' && w[1] == '/'
    ensures Leads(s, w, R.Hard(w[..2]), 2, t) && InBlock(t, Closing([])) && t.name == s.name
  {
    hide Follow, SkipName, Leads;
    ClosingMoves(s, w);
    var m := Next(s, w);
    OneMove(s, w);
    LeadsNames(s, w, MoveItems(s, w), 1, m.st);
    t := Next(m.st, w[1..]).st;
    OneMove(m.st, w[1..]);
    LeadsOn(s, w, MoveItems(s, w), 1, m.st, MoveItems(m.st, w[1..]), 1, t);
    assert MoveItems(s, w) + MoveItems(m.st, w[1..]) == R.Hard(w[..2]);
  }

  lemma {:induction false} BlockEnds(s: Html, u: seq<byte>, w: seq<byte>)
    requires InBlock(s, PlaceOf(u)) && !PlaceOf(u).Angle? && Reachable(s, w)
    requires w == [] || (PlaceOf(u).Verbatim? && w == "<")
    ensures var r := BlockRun(s.name, PlaceOf(u), w);
            !r.st.Left? && X.BlockUsed(r, w) == 0 && Items(u, w[..0]) == [] && Finishes(s, w, [], w[0..])
  {
    hide SkipName, PlaceOf;
    assert w[0..] == w;
    if w == "<" {
      LoneAngle(s, w);
      assert BlockRun(s.name, Verbatim, w).st == Angle by {
        BlockOne(s.name, Verbatim, w);
        assert w[1..] == [];
      }
      FollowOne(s, w);
    }
  }

  /** The machine reads `w` as the block reference does. */
  ghost predicate BlockRead(s: Html, u: seq<byte>, w: seq<byte>) {
    var r := BlockRun(s.name, PlaceOf(u), w);
    var n := X.BlockUsed(r, w);
    if r.st.Left? then Leads(s, w, Items(u, w[..n]), n, LeftState(s.name, r.st.kept))
    else Finishes(s, w, Items(u, w[..n]), w[n..])
  }

  lemma {:induction false} BlockReadOn(s: Html, u: seq<byte>, w: seq<byte>, k: nat, t: Html)
    requires k <= |w| && Leads(s, w, Items(u, w[..k]), k, t) && t.name == s.name
    requires BlockRun(s.name, PlaceOf(u), w[..k]).st == PlaceOf(u + w[..k]) && !PlaceOf(u + w[..k]).Angle?
    requires BlockRead(t, u + w[..k], w[k..])
    ensures BlockRead(s, u, w)
  {
    hide Follow, BlockRun, PlaceOf, Leads, Finishes, Items, LeftState, X.BlockUsed;
    BlockJoined(s.name, u, w, k);
    var r := BlockRun(s.name, PlaceOf(u + w[..k]), w[k..]);
    var n := X.BlockUsed(r, w[k..]);
    if r.st.Left? {
      LeadsOn(s, w, Items(u, w[..k]), k, t, Items(u + w[..k], w[k..][..n]), n, LeftState(s.name, r.st.kept));
    } else {
      FinishesOn(s, w, Items(u, w[..k]), k, t, Items(u + w[..k], w[k..][..n]), w[k..][n..]);
    }
  }

  lemma {:induction false} BlockReadNone(s: Html, u: seq<byte>, w: seq<byte>)
    requires InBlock(s, PlaceOf(u)) && !PlaceOf(u).Angle? && Reachable(s, w)
    requires w == [] || (PlaceOf(u).Verbatim? && w == "<")
    ensures BlockRead(s, u, w)
  {
    hide Follow, BlockRun, PlaceOf, InBlock, Leads, Finishes, Items, LeftState, X.BlockUsed, Names, Ready;
    BlockEnds(s, u, w);
  }

  lemma {:induction false} BlockReadLeft(s: Html, u: seq<byte>, w: seq<byte>)
    requires w != [] && Ready(s, w) && BlockNext(s.name, PlaceOf(u), w[0]).0.Left?
    requires Leads(s, w, Items(u, w[..1]), 1, LeftState(s.name, BlockNext(s.name, PlaceOf(u), w[0]).0.kept))
    ensures BlockRead(s, u, w)
  {
    hide Follow, BlockRun, PlaceOf, Leads, Finishes, Items, LeftState, X.BlockUsed, BlockNext;
    LeftHere(s.name, u, w);
  }

  /** In a block the machine reads what the reference reads. */
  lemma {:induction false} BlockLeads(s: Html, u: seq<byte>, w: seq<byte>)
    requires InBlock(s, PlaceOf(u)) && !PlaceOf(u).Angle? && Reachable(s, w)
    ensures BlockRead(s, u, w)
    decreases |w|
  {
    hide Follow, BlockRun, PlaceOf, InBlock, Leads, BlockRead, Names, Items, BlockNext, Next, Ready, LeftState;
    if w == [] || (PlaceOf(u).Verbatim? && w == "<") {
      BlockReadNone(s, u, w);
    } else if PlaceOf(u).Verbatim? && w[0] == '<' {
      var t := PairLeads(s, u, w);
      LeadsNames(s, w, Items(u, w[..2]), 2, t);
      InBlockReachable(t, PlaceOf(u + w[..2]), w[2..]);
      BlockLeads(t, u + w[..2], w[2..]);
      BlockReadOn(s, u, w, 2, t);
    } else {
      PlaceCases(u);
      ByteLeads(s, u, w);
      var t := Next(s, w).st;
      assert w[..1] == [w[0]];
      if BlockNext(s.name, PlaceOf(u), w[0]).0.Left? {
        BlockReadLeft(s, u, w);
      } else {
        RunOneByte(s.name, u, w[0]);
        PlaceNext(s.name, u, w[0]);
        NotLeft(u + [w[0]]);
        NotAngled(u, w[0]);
        LeadsNames(s, w, Items(u, w[..1]), 1, t);
        InBlockReachable(t, PlaceOf(u + w[..1]), w[1..]);
        BlockLeads(t, u + w[..1], w[1..]);
        BlockReadOn(s, u, w, 1, t);
      }
    }
  }

  lemma {:induction false} PlaceCases(u: seq<byte>)
    ensures PlaceOf(u).Closing? || PlaceOf(u).Angle? || PlaceOf(u).Verbatim?
  {
  }

  lemma {:induction false} NotAngled(u: seq<byte>, c: byte)
    requires PlaceOf(u).Closing? || c != '<'
    ensures !PlaceOf(u + [c]).Angle?
  {
    assert (u + [c])[..|u|] == u;
  }

  lemma {:induction false} InBlockReachable(s: Html, b: Block, w: seq<byte>)
    requires InBlock(s, b) && !b.Angle? && Names(s) && Ready(s, w)
    ensures Reachable(s, w)
  {
  }

  lemma {:induction false} LeftHere(name: seq<byte>, u: seq<byte>, w: seq<byte>)
    requires w != [] && BlockNext(name, PlaceOf(u), w[0]).0.Left?
    ensures var r := BlockRun(name, PlaceOf(u), w);
            r.st == BlockNext(name, PlaceOf(u), w[0]).0 && X.BlockUsed(r, w) == 1
  {
    hide PlaceOf, BlockNext, BlockRun;
    NotLeft(u);
    BlockOne(name, PlaceOf(u), w);
    BlockNone(name, BlockNext(name, PlaceOf(u), w[0]).0, w[1..]);
  }
}
