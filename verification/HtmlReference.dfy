/** A lexer for whole HTML texts: what comments, sections, tags and skipped blocks are, by the minifier's own
    rules, and which bytes it may leave out. It knows nothing of buffers. */
module HtmlReference {
  import opened Bytes
  import opened Thinning
  import opened HtmlMarks
  import M = HtmlMachine
  import B = HtmlBlocks
  import R = Reference

  /** Tags and blocks come with the name that is remembered behind them; `Cut` is an unfinished tag or block. */
  datatype Kind =
    | Char | Comment | Conditional | Section | Bracket
    | OpenTag(name: seq<byte>) | ClosingTag(name: seq<byte>) | Content(name: seq<byte>)
    | Cut

  /** A piece of the text, and what is kept of it. */
  datatype Token = Token(kind: Kind, text: seq<byte>, items: seq<Item>)

  /** `rest` is the undecided end. */
  datatype Lexed = Lexed(tokens: seq<Token>, rest: seq<byte>)

  function Before(t: Token, l: Lexed): Lexed {
    l.(tokens := [t] + l.tokens)
  }

  function Only(kind: Kind, text: seq<byte>, items: seq<Item>, rest: seq<byte>): Lexed {
    Lexed([Token(kind, text, items)], rest)
  }

  /** Spaces are soft. */
  function Softs(w: seq<byte>): seq<Item> {
    seq(|w|, i requires 0 <= i < |w| => Item(w[i], w[i] == ' '))
  }

  /** How many spaces `w` begins with. */
  function Spaces(w: seq<byte>): (n: nat)
    ensures n <= |w|
  {
    if w == [] || w[0] != ' ' then 0 else 1 + Spaces(w[1..])
  }

  /** How long the tag name is that `w` begins with. */
  function NameLen(w: seq<byte>): (n: nat)
    ensures n <= |w|
  {
    if w == [] || w[0] in {'>', ' ', '/'} then 0 else 1 + NameLen(w[1..])
  }

  /** How many bytes come before the next `>`. */
  function Until(w: seq<byte>): (n: nat)
    ensures n <= |w|
  {
    if w == [] || w[0] == '>' then 0 else 1 + Until(w[1..])
  }

  datatype Ending = Closed | Void | Open

  /** The attributes and the `>` behind them. A byte behind a slash is kept with it. */
  datatype Atts = Atts(used: nat, items: seq<Item>, end: Ending)

  function LexAtts(w: seq<byte>): (a: Atts)
    ensures a.used <= |w|
    decreases |w|
  {
    if w == [] || w == ['/'] then Atts(0, [], Open)
    else if w[0] == '>' then Atts(1, R.Hard(w[..1]), Closed)
    else if w[0] == '/' && w[1] == '>' then Atts(2, R.Hard(w[..2]), Void)
    else if w[0] == '/' then
      var a := LexAtts(w[2..]);
      Atts(a.used + 2, R.Hard(w[..2]) + a.items, a.end)
    else
      var a := LexAtts(w[1..]);
      Atts(a.used + 1, Softs(w[..1]) + a.items, a.end)
  }

  /** Too little to tell what the `<` opens. */
  predicate Undecided(w: seq<byte>) {
    w != [] && (M.Begins(w, "<!--[if") || M.Begins(w, "<![CDATA["))
  }

  function Lead(w: seq<byte>): (k: nat)
    requires w != []
    ensures 0 < k <= |w|
  {
    if |w| < 3 || w[1] != '!' then 1 else if w[2] == '-' then 3 else 2
  }

  /** What stands behind some text, while `kept` is remembered. */
  function LexText(w: seq<byte>, kept: seq<byte>): Lexed
    decreases |w|, 3
  {
    if w == [] || Undecided(w) then Lexed([], w)
    else if w[0] != '<' then
      Before(Token(Char, w[..1], [Item(w[0], White(w[0]))]), LexText(w[1..], kept))
    else if "<!--[if" <= w then LexMarked(Conditional, w, 0, "]-->", kept)
    else if "<!--" <= w then LexMarked(Comment, w, 4, "-->", kept)
    else if "<![CDATA[" <= w then LexMarked(Section, w, 9, "]]>", kept)
    else if "<![" <= w then
      var n := if |w| < 9 then |w| else 9;
      Before(Token(Bracket, w[..n], R.Hard(w[..n])), LexText(w[n..], kept))
    else LexTag(w, Lead(w), kept)
  }

  /** What ends with a mark; the search for it begins at `i`. */
  function LexMarked(kind: Kind, w: seq<byte>, i: nat, mark: seq<byte>, kept: seq<byte>): Lexed
    requires mark != [] && i <= |w|
    decreases |w|, 2
  {
    var f := Search(w[i..], mark);
    var n := i + f.used;
    var items := if kind == Comment then [] else R.Hard(w[..n]);
    if f.found then Before(Token(kind, w[..n], items), LexText(w[n..], kept)) else Only(kind, w[..n], items, w[n..])
  }

  /** A tag; `k` bytes open it. */
  function LexTag(w: seq<byte>, k: nat, kept: seq<byte>): Lexed
    requires 0 < k <= |w|
    decreases |w|, 2
  {
    var i := k + Spaces(w[k..]);
    var head := R.Hard(w[..k]) + Softs(w[k..i]);
    if i == |w| then Only(Cut, w, head, [])
    else if w[i] == '/' then
      if kept != [] then LexBlock(kept, "</", w, i + 1, head + R.Hard(w[i..i + 1]), true)
      else
        var n := i + 1 + Until(w[i + 1..]);
        if n == |w| then Only(Cut, w, head + R.Hard(w[i..i + 1]) + Softs(w[i + 1..]), [])
        else
          Before(Token(ClosingTag([]), w[..n + 1], head + R.Hard(w[i..i + 1]) + Softs(w[i + 1..n + 1])),
                 LexText(w[n + 1..], []))
    else LexOpenTag(w, i, head)
  }

  function LexOpenTag(w: seq<byte>, i: nat, head: seq<Item>): Lexed
    requires 0 < i < |w|
    decreases |w|, 1
  {
    var j := i + NameLen(w[i..]);
    var name := if M.SkipName(w[i..j]) then w[i..j] else [];
    if j == |w| then Only(Cut, w, head + R.Hard(w[i..]), [])
    else if w[j] == '>' then
      Before(Token(OpenTag(name), w[..j + 1], head + R.Hard(w[i..j + 1])), LexBehind(name, w[j + 1..]))
    else
      var a := LexAtts(w[j + 1..]);
      var n, items := j + 1 + a.used, head + R.Hard(w[i..j + 1]) + a.items;
      match a.end
      case Open => Only(Cut, w[..n], items, w[n..])
      case Closed => Before(Token(OpenTag(name), w[..n], items), LexBehind(name, w[n..]))
      case Void => Before(Token(OpenTag([]), w[..n], items), LexText(w[n..], []))
  }

  /** Behind an opening tag: the content of a block, if `name` says so. */
  function LexBehind(name: seq<byte>, w: seq<byte>): Lexed
    decreases |w|, 4
  {
    if name == [] then LexText(w, [])
    else if w == [] then Lexed([], [])
    else LexBlock(name, [], w, 0, [], false)
  }

  /** The block of `name` from `i` on, entered behind its bytes `u`. */
  function LexBlock(name: seq<byte>, u: seq<byte>, w: seq<byte>, i: nat, head: seq<Item>, tag: bool): Lexed
    requires i <= |w| && w != []
    decreases |w|, 1
  {
    var r := B.BlockRun(name, B.PlaceOf(u), w[i..]);
    var n := BlockUsed(r, w[i..]);
    var items := head + B.Items(u, w[i..][..n]);
    match r.st
    case Left(kept) =>
      B.BlockPlace(name, u, w[i..]);
      var name' := if kept then name else [];
      Before(Token(if tag then ClosingTag(name') else Content(name'), w[..i + n], items), LexText(w[i + n..], name'))
    case _ => Only(Cut, w[..i + n], items, w[i + n..])
  }

  /** What a block takes of `w`; a pending `<` is left. */
  function BlockUsed(r: B.BlockStep, w: seq<byte>): (n: nat)
    ensures n <= |w|
  {
    var k := |r.rest| + |B.Pending(r.st)|;
    if k <= |w| then |w| - k else 0
  }

  function ItemsOf(ts: seq<Token>): seq<Item> {
    if ts == [] then [] else ts[0].items + ItemsOf(ts[1..])
  }

  function Spell(ts: seq<Token>): seq<byte> {
    if ts == [] then [] else ts[0].text + Spell(ts[1..])
  }

  function NameAfter(k: Kind, kept: seq<byte>): seq<byte> {
    match k
    case OpenTag(name) => name
    case ClosingTag(name) => name
    case Content(name) => name
    case _ => kept
  }

  /** The name that is remembered behind the tokens. */
  function Remembered(ts: seq<Token>, kept: seq<byte>): seq<byte> {
    if ts == [] then kept else Remembered(ts[1..], NameAfter(ts[0].kind, kept))
  }

  // ---------- the lexer loses nothing ----------

  /** A skipped comment keeps nothing; every other token keeps its bytes, and only white ones are soft. */
  ghost predicate Sound(t: Token) {
    if t.kind.Comment? then "<!--" <= t.text && t.items == [] else Bare(t.items) == t.text && SoftIsWhite(t.items)
  }

  ghost predicate Spells(l: Lexed, w: seq<byte>) {
    Spell(l.tokens) + l.rest == w && forall t :: t in l.tokens ==> Sound(t)
  }

  lemma {:induction false} SpellsBefore(t: Token, n: nat, l: Lexed, w: seq<byte>)
    requires n <= |w| && t.text == w[..n] && Sound(t) && Spells(l, w[n..])
    ensures Spells(Before(t, l), w)
  {
    hide Sound;
    var ts := [t] + l.tokens;
    assert ts[1..] == l.tokens;
    assert (t.text + Spell(l.tokens)) + l.rest == t.text + (Spell(l.tokens) + l.rest);
  }

  lemma {:induction false} SpellsOnly(kind: Kind, n: nat, items: seq<Item>, w: seq<byte>)
    requires n <= |w| && Sound(Token(kind, w[..n], items))
    ensures Spells(Only(kind, w[..n], items, w[n..]), w)
  {
    hide Sound;
    var t := Token(kind, w[..n], items);
    assert [t][0] == t && [t][1..] == [] && Spell([]) == [];
    assert w[..n] + [] == w[..n] && w[..n] + w[n..] == w;
    assert Spell([t]) == w[..n];
  }

  /** The items `i` are the bytes `w`. */
  ghost predicate Bears(i: seq<Item>, w: seq<byte>) {
    Bare(i) == w && SoftIsWhite(i)
  }

  lemma {:induction false} BearsMore(i: seq<Item>, v: seq<byte>, j: seq<Item>, w: seq<byte>)
    requires Bears(i, v) && Bears(j, w)
    ensures Bears(i + j, v + w)
    decreases |i|
  {
    if i == [] {
      assert i + j == j && v + w == w;
    } else {
      assert (i + j)[1..] == i[1..] + j && v[1..] == Bare(i[1..]) && (v + w)[1..] == v[1..] + w;
      BearsMore(i[1..], v[1..], j, w);
    }
  }

  lemma {:induction false} HardBears(w: seq<byte>)
    ensures Bears(R.Hard(w), w)
  {
    if w != [] {
      HardBears(w[1..]);
      assert R.Hard(w)[1..] == R.Hard(w[1..]);
    }
  }

  lemma {:induction false} SoftsBear(w: seq<byte>)
    ensures Bears(Softs(w), w)
  {
    if w != [] {
      SoftsBear(w[1..]);
      assert Softs(w)[1..] == Softs(w[1..]);
    }
  }

  lemma {:induction false} ItemsBear(u: seq<byte>, w: seq<byte>)
    ensures Bears(B.Items(u, w), w)
    decreases |w|
  {
    if w != [] {
      ItemsBear(u + [w[0]], w[1..]);
    }
  }

  lemma {:induction false} AttsBear(w: seq<byte>)
    ensures var a := LexAtts(w); Bears(a.items, w[..a.used])
    decreases |w|
  {
    hide Bears, Softs, R.Hard;
    if w == [] || w == ['/'] {
      NothingBears(w);
    } else if w[0] == '>' {
      HardBears(w[..1]);
    } else if w[0] == '/' {
      HardBears(w[..2]);
      if w[1] != '>' {
        var a := LexAtts(w[2..]);
        AttsBear(w[2..]);
        BearsMore(R.Hard(w[..2]), w[..2], a.items, w[2..][..a.used]);
        assert w[..2] + w[2..][..a.used] == w[..a.used + 2];
      }
    } else {
      var a := LexAtts(w[1..]);
      AttsBear(w[1..]);
      SoftsBear(w[..1]);
      BearsMore(Softs(w[..1]), w[..1], a.items, w[1..][..a.used]);
      assert w[..1] + w[1..][..a.used] == w[..a.used + 1];
    }
  }

  lemma {:induction false} NothingBears(w: seq<byte>)
    ensures Bears([], w[..0])
  {
  }

  lemma {:induction false} SoundTag(kind: Kind, text: seq<byte>, items: seq<Item>)
    requires Bears(items, text) && !kind.Comment?
    ensures Sound(Token(kind, text, items))
  {
  }

  /** The tokens and the rest spell the text. */
  lemma {:induction false} LexSpells(w: seq<byte>, kept: seq<byte>)
    ensures Spells(LexText(w, kept), w)
    decreases |w|, 3
  {
    hide Spells, Undecided, Search, LexTag, LexMarked, R.Hard;
    if w == [] || Undecided(w) {
      NothingSpelled(w);
    } else if w[0] != '<' {
      var t := Token(Char, w[..1], [Item(w[0], White(w[0]))]);
      CharSound(w);
      LexSpells(w[1..], kept);
      SpellsBefore(t, 1, LexText(w[1..], kept), w);
    } else if "<!--[if" <= w {
      MarkedSpells(Conditional, w, 0, "]-->", kept);
    } else if "<!--" <= w {
      MarkedSpells(Comment, w, 4, "-->", kept);
    } else if "<![CDATA[" <= w {
      MarkedSpells(Section, w, 9, "]]>", kept);
    } else if "<![" <= w {
      var n := if |w| < 9 then |w| else 9;
      HardBears(w[..n]);
      SoundTag(Bracket, w[..n], R.Hard(w[..n]));
      LexSpells(w[n..], kept);
      SpellsBefore(Token(Bracket, w[..n], R.Hard(w[..n])), n, LexText(w[n..], kept), w);
    } else {
      TagSpells(w, Lead(w), kept);
    }
  }

  lemma {:induction false} NothingSpelled(w: seq<byte>)
    ensures Spells(Lexed([], w), w)
  {
    assert [] + w == w;
  }

  lemma {:induction false} CharSound(w: seq<byte>)
    requires w != []
    ensures Sound(Token(Char, w[..1], [Item(w[0], White(w[0]))]))
  {
    var i := [Item(w[0], White(w[0]))];
    assert i[1..] == [] && w[..1] == [w[0]];
  }

  lemma {:induction false} MarkedSpells(kind: Kind, w: seq<byte>, i: nat, mark: seq<byte>, kept: seq<byte>)
    requires mark != [] && i <= |w| && (kind.Comment? ==> i == 4 && "<!--" <= w)
    ensures Spells(LexMarked(kind, w, i, mark, kept), w)
    decreases |w|, 2
  {
    hide Spells, Search, LexText, Sound, R.Hard;
    var f := Search(w[i..], mark);
    var n := i + f.used;
    var items := if kind == Comment then [] else R.Hard(w[..n]);
    if kind.Comment? {
      CommentSound(w, n);
    } else {
      HardBears(w[..n]);
      SoundTag(kind, w[..n], items);
    }
    if f.found {
      LexSpells(w[n..], kept);
      SpellsBefore(Token(kind, w[..n], items), n, LexText(w[n..], kept), w);
    } else {
      SpellsOnly(kind, n, items, w);
    }
  }

  lemma {:induction false} CommentSound(w: seq<byte>, n: nat)
    requires "<!--" <= w && 4 <= n <= |w|
    ensures Sound(Token(Comment, w[..n], []))
  {
    assert w[..n][..4] == w[..4];
  }

  lemma {:induction false} HeadBears(w: seq<byte>, k: nat, i: nat)
    requires k <= i <= |w|
    ensures Bears(R.Hard(w[..k]) + Softs(w[k..i]), w[..i])
  {
    hide Bears, R.Hard, Softs;
    HardBears(w[..k]);
    SoftsBear(w[k..i]);
    BearsMore(R.Hard(w[..k]), w[..k], Softs(w[k..i]), w[k..i]);
    assert w[..k] + w[k..i] == w[..i];
  }

  lemma {:induction false} SlashBears(w: seq<byte>, i: nat, head: seq<Item>)
    requires i < |w| && Bears(head, w[..i])
    ensures Bears(head + R.Hard(w[i..i + 1]), w[..i + 1])
  {
    hide Bears, R.Hard;
    HardBears(w[i..i + 1]);
    BearsMore(head, w[..i], R.Hard(w[i..i + 1]), w[i..i + 1]);
    assert w[..i] + w[i..i + 1] == w[..i + 1];
  }

  lemma {:induction false} AllSpelled(w: seq<byte>, items: seq<Item>)
    requires Bears(items, w)
    ensures Spells(Only(Cut, w, items, []), w)
  {
    hide Bears, Spells, Sound;
    SoundTag(Cut, w, items);
    assert w[..|w|] == w && w[|w|..] == [];
    SpellsOnly(Cut, |w|, items, w);
  }

  lemma {:induction false} TagSpells(w: seq<byte>, k: nat, kept: seq<byte>)
    requires 0 < k <= |w|
    ensures Spells(LexTag(w, k, kept), w)
    decreases |w|, 2
  {
    hide Spells, LexText, Sound, R.Hard, Softs, LexBlock, LexOpenTag, Bears, Spaces, Until;
    var i := k + Spaces(w[k..]);
    var head := R.Hard(w[..k]) + Softs(w[k..i]);
    HeadBears(w, k, i);
    if i == |w| {
      assert w[..i] == w;
      AllSpelled(w, head);
    } else if w[i] == '/' {
      SlashBears(w, i, head);
      if kept != [] {
        BlockSpells(kept, "</", w, i + 1, head + R.Hard(w[i..i + 1]), true);
      } else {
        ClosingSpells(w, i + 1, head + R.Hard(w[i..i + 1]));
      }
    } else {
      OpenTagSpells(w, i, head);
    }
  }

  lemma {:induction false} ClosingSpells(w: seq<byte>, i: nat, head: seq<Item>)
    requires 0 < i <= |w| && Bears(head, w[..i])
    ensures var n := i + Until(w[i..]);
            Spells(if n == |w| then Only(Cut, w, head + Softs(w[i..]), [])
                   else Before(Token(ClosingTag([]), w[..n + 1], head + Softs(w[i..n + 1])), LexText(w[n + 1..], [])), w)
    decreases |w|, 1
  {
    hide Spells, LexText, Sound, Softs, Bears;
    var n := i + Until(w[i..]);
    if n == |w| {
      SoftsBear(w[i..]);
      BearsMore(head, w[..i], Softs(w[i..]), w[i..]);
      assert w[..i] + w[i..] == w && w[..|w|] == w && w[|w|..] == [];
      SoundTag(Cut, w, head + Softs(w[i..]));
      SpellsOnly(Cut, |w|, head + Softs(w[i..]), w);
    } else {
      SoftsBear(w[i..n + 1]);
      BearsMore(head, w[..i], Softs(w[i..n + 1]), w[i..n + 1]);
      assert w[..i] + w[i..n + 1] == w[..n + 1];
      SoundTag(ClosingTag([]), w[..n + 1], head + Softs(w[i..n + 1]));
      LexSpells(w[n + 1..], []);
      SpellsBefore(Token(ClosingTag([]), w[..n + 1], head + Softs(w[i..n + 1])), n + 1, LexText(w[n + 1..], []), w);
    }
  }

  lemma {:induction false} OpenTagSpells(w: seq<byte>, i: nat, head: seq<Item>)
    requires 0 < i < |w| && Bears(head, w[..i])
    ensures Spells(LexOpenTag(w, i, head), w)
    decreases |w|, 1
  {
    hide Spells, LexText, Sound, R.Hard, Softs, LexBehind, LexAtts, Bears, M.SkipName;
    var j := i + NameLen(w[i..]);
    var name := if M.SkipName(w[i..j]) then w[i..j] else [];
    if j == |w| {
      HardBears(w[i..]);
      BearsMore(head, w[..i], R.Hard(w[i..]), w[i..]);
      assert w[..i] + w[i..] == w && w[..|w|] == w && w[|w|..] == [];
      SoundTag(Cut, w, head + R.Hard(w[i..]));
      SpellsOnly(Cut, |w|, head + R.Hard(w[i..]), w);
    } else {
      var items := head + R.Hard(w[i..j + 1]);
      HardBears(w[i..j + 1]);
      BearsMore(head, w[..i], R.Hard(w[i..j + 1]), w[i..j + 1]);
      assert w[..i] + w[i..j + 1] == w[..j + 1];
      if w[j] == '>' {
        BehindSpells(name, w, j + 1, items);
      } else {
        var a := LexAtts(w[j + 1..]);
        var n := j + 1 + a.used;
        AttsBear(w[j + 1..]);
        BearsMore(items, w[..j + 1], a.items, w[j + 1..][..a.used]);
        assert w[..j + 1] + w[j + 1..][..a.used] == w[..n];
        match a.end
        case Open =>
          SoundTag(Cut, w[..n], items + a.items);
          SpellsOnly(Cut, n, items + a.items, w);
        case Closed => BehindSpells(name, w, n, items + a.items);
        case Void =>
          SoundTag(OpenTag([]), w[..n], items + a.items);
          LexSpells(w[n..], []);
          SpellsBefore(Token(OpenTag([]), w[..n], items + a.items), n, LexText(w[n..], []), w);
      }
    }
  }

  lemma {:induction false} BehindSpells(name: seq<byte>, w: seq<byte>, n: nat, items: seq<Item>)
    requires 0 < n <= |w| && Bears(items, w[..n])
    ensures Spells(Before(Token(OpenTag(name), w[..n], items), LexBehind(name, w[n..])), w)
    decreases |w|, 0
  {
    hide Spells, LexText, Sound, LexBlock, Bears;
    var v := w[n..];
    if name == [] {
      LexSpells(v, []);
    } else if v == [] {
      NothingSpelled(v);
    } else {
      NothingBears(v);
      BlockSpells(name, [], v, 0, [], false);
    }
    SoundTag(OpenTag(name), w[..n], items);
    SpellsBefore(Token(OpenTag(name), w[..n], items), n, LexBehind(name, v), w);
  }

  lemma {:induction false} BlockSpells(name: seq<byte>, u: seq<byte>, w: seq<byte>, i: nat, head: seq<Item>, tag: bool)
    requires i <= |w| && w != [] && Bears(head, w[..i])
    ensures Spells(LexBlock(name, u, w, i, head, tag), w)
    decreases |w|, 1
  {
    hide Spells, LexText, Sound, Bears, B.BlockRun, B.PlaceOf, B.Items;
    var r := B.BlockRun(name, B.PlaceOf(u), w[i..]);
    B.BlockPlace(name, u, w[i..]);
    var n := BlockUsed(r, w[i..]);
    var x := w[i..][..n];
    var items := head + B.Items(u, x);
    ItemsBear(u, x);
    BearsMore(head, w[..i], B.Items(u, x), x);
    assert w[..i] + x == w[..i + n];
    match r.st
    case Left(keeps) =>
      var name' := if keeps then name else [];
      var kind := if tag then ClosingTag(name') else Content(name');
      SoundTag(kind, w[..i + n], items);
      LexSpells(w[i + n..], name');
      SpellsBefore(Token(kind, w[..i + n], items), i + n, LexText(w[i + n..], name'), w);
    case _ =>
      SoundTag(Cut, w[..i + n], items);
      SpellsOnly(Cut, i + n, items, w);
  }

  /** What is kept of tokens none of which is a comment: their bytes. */
  lemma {:induction false} KeptBytes(ts: seq<Token>)
    requires forall t :: t in ts ==> Sound(t) && !t.kind.Comment?
    ensures Bears(ItemsOf(ts), Spell(ts))
  {
    if ts != [] {
      var t := ts[0];
      assert t in ts && Sound(t);
      forall u | u in ts[1..] ensures Sound(u) && !u.kind.Comment? {
        assert u in ts;
      }
      KeptBytes(ts[1..]);
      BearsMore(t.items, t.text, ItemsOf(ts[1..]), Spell(ts[1..]));
    }
  }

  /** A comment among the tokens stands in the text. */
  lemma {:induction false} CommentAt(ts: seq<Token>, w: seq<byte>) returns (i: nat)
    requires Spell(ts) <= w && exists t :: t in ts && t.kind.Comment?
    requires forall t :: t in ts ==> Sound(t)
    ensures i + 4 <= |w| && w[i..][..4] == "<!--"
  {
    var t, n := ts[0], |ts[0].text|;
    assert t in ts && Sound(t);
    assert w[..|Spell(ts)|] == Spell(ts);
    assert w[..n] == t.text;
    if t.kind.Comment? {
      i := 0;
      assert w[0..] == w && w[..4] == t.text[..4];
    } else {
      forall u | u in ts[1..] ensures Sound(u) {
        assert u in ts;
      }
      assert w[n..][..|Spell(ts[1..])|] == w[..|Spell(ts)|][n..];
      i := CommentAt(ts[1..], w[n..]);
      assert w[n..][i..] == w[n + i..];
      i := n + i;
    }
  }
}
