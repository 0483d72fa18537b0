/** What the HTML minifier writes for each construct, byte for byte and in the bytes' own names. */
module HtmlExact {
  import opened Bytes
  import opened HtmlMachine
  import opened HtmlBlocks
  import opened HtmlMarks

  // ---------- moves ----------

  /** One move, which reads `x`. */
  lemma {:induction false} Reads(s: Html, x: seq<byte>, rest: seq<byte>, t: Html, out: seq<byte>)
    requires x + rest != [] && Ready(s, x + rest) && Next(s, x + rest) == Move(t, |x|, out)
    ensures Ready(t, rest) && Run(s, x + rest) == After(out, Run(t, rest))
  {
    hide Next, Run, Ready;
    RunMove(s, x + rest);
    assert (x + rest)[|x|..] == rest;
  }

  lemma {:induction false} First(b: byte, rest: seq<byte>)
    ensures ([b] + rest)[0] == b && ([b] + rest)[..1] == [b]
  {
  }

  lemma {:induction false} RunNone(s: Html)
    requires Ready(s, [])
    ensures Run(s, []) == Step(s, [])
  {
  }

  // ---------- text ----------

  /** A byte of the text other than `<`. Newlines, returns and tabs are dropped, and so is a space
      if the register holds a space; a dropped byte leaves in the register what was written last. */
  lemma {:induction false} TextByte(s: Html, b: byte, rest: seq<byte>)
    requires s.mode == Text && s.carry == [] && b != '<'
    ensures Run(s, [b] + rest) ==
              if b == '\n' || b == '\r' || b == '\t' || (b == ' ' && s.pre == ' ')
              then Run(s.(pre := if s.last == None then s.pre else s.last.value), rest)
              else After([b], Run(s.(pre := b, last := Some(b)), rest))
  {
    First(b, rest);
    var drops := b == '\n' || b == '\r' || b == '\t' || (b == ' ' && s.pre == ' ');
    if drops {
      Reads(s, [b], rest, s.(pre := s.last.GetOr(s.pre)), []);
      NothingBefore(Run(s.(pre := s.last.GetOr(s.pre)), rest));
    } else {
      Reads(s, [b], rest, s.(pre := b, last := Some(b)), [b]);
    }
  }

  /** A run of white bytes becomes one space if it has a space in it, and nothing behind a space or without one. */
  lemma {:induction false} TextWhite(s: Html, w: seq<byte>, rest: seq<byte>)
    requires s.mode == Text && s.carry == [] && (s.last == None || s.last == Some(s.pre))
    requires forall i :: 0 <= i < |w| ==> w[i] == ' ' || w[i] == '\t' || w[i] == '\n' || w[i] == '\r'
    ensures Run(s, w + rest) ==
              if ' ' in w && s.pre != ' ' then After(" ", Run(s.(pre := ' ', last := Some(' ')), rest)) else Run(s, rest)
    decreases |w|
  {
    hide Run, Next;
    if w == [] {
      assert w + rest == rest;
    } else {
      var b, v := w[0], w[1..];
      assert w == [b] + v && w + rest == [b] + (v + rest);
      TextByte(s, b, v + rest);
      TextWhite(s, v, rest);
      TextWhite(s.(pre := ' ', last := Some(' ')), v, rest);
    }
  }

  /** So it is with the white bytes that a response begins with. */
  lemma {:induction false} LeadingWhite(w: seq<byte>)
    requires forall i :: 0 <= i < |w| ==> w[i] == ' ' || w[i] == '\t' || w[i] == '\n' || w[i] == '\r'
    ensures Run(START, w).out == if ' ' in w then " " else ""
  {
    hide Run, Next;
    TextWhite(START, w, []);
    assert w + [] == w;
    RunNone(START);
    RunNone(START.(pre := ' ', last := Some(' ')));
  }

  /** Bytes of the text that are neither white nor `<` are copied. */
  lemma {:induction false} TextCopied(s: Html, w: seq<byte>, c: byte, rest: seq<byte>)
    requires s.mode == Text && s.carry == []
    requires forall i :: 0 <= i < |w + [c]| ==> (w + [c])[i] !in {' ', '\t', '\n', '\r', '<'}
    ensures Run(s, w + [c] + rest) == After(w + [c], Run(s.(pre := c, last := Some(c)), rest))
    decreases |w|
  {
    hide Run, Next;
    if w == [] {
      assert (w + [c])[0] == c && w + [c] == [c];
      TextByte(s, c, rest);
    } else {
      var b, v := w[0], w[1..];
      assert (w + [c])[0] == b && v + [c] == (w + [c])[1..] && w + [c] + rest == [b] + (v + [c] + rest);
      TextByte(s, b, v + [c] + rest);
      TextCopied(s.(pre := b, last := Some(b)), v, c, rest);
      AfterAfter([b], v + [c], Run(s.(pre := c, last := Some(c)), rest));
      assert [b] + (v + [c]) == w + [c];
    }
  }

  // ---------- opening tags ----------

  /** Bytes that a tag's name is made of. */
  predicate Nameable(n: seq<byte>) {
    '>' !in n && ' ' !in n && '/' !in n
  }

  lemma {:induction false} TagOpens(s: Html, rest: seq<byte>)
    requires s.mode == Text && s.carry == [] && rest != [] && rest[0] != '!'
    ensures Run(s, "<" + rest) == After("<", Run(Html(Tag, '\0', Some('<'), s.name, s.col, []), rest))
  {
    First('<', rest);
    assert ("<" + rest)[1] == rest[0];
    Reads(s, "<", rest, Html(Tag, '\0', Some('<'), s.name, s.col, []), "<");
  }

  lemma {:induction false} SpacesDropped(s: Html, n: nat, rest: seq<byte>)
    requires (s.mode == Tag || s.mode == TagNameEnd) && s.pre == '\0' && s.carry == []
    ensures Run(s, Spaces(n) + rest) == Run(s, rest)
    decreases n
  {
    hide Run;
    if n == 0 {
      assert Spaces(n) + rest == rest;
    } else {
      assert Spaces(n) + rest == " " + (Spaces(n - 1) + rest);
      First(' ', Spaces(n - 1) + rest);
      Reads(s, " ", Spaces(n - 1) + rest, s, []);
      NothingBefore(Run(s, Spaces(n - 1) + rest));
      SpacesDropped(s, n - 1, rest);
    }
  }

  lemma {:induction false} NameRead(s: Html, n: seq<byte>, rest: seq<byte>)
    requires s.mode == TagName && s.pre == '\0' && s.carry == [] && Nameable(n)
    ensures Run(s, n + rest) ==
              After(n, Run(s.(name := s.name + n, last := if n == [] then s.last else Some(n[|n| - 1])), rest))
    decreases |n|
  {
    hide Run, SkipName;
    if n == [] {
      assert n + rest == rest && s.name + n == s.name;
      NothingBefore(Run(s, rest));
    } else {
      var b, v := n[0], n[1..];
      assert n == [b] + v && b in n && n + rest == [b] + (v + rest);
      First(b, v + rest);
      var t := s.(name := s.name + [b], last := Some(b));
      Reads(s, [b], v + rest, t, [b]);
      NameRead(t, v, rest);
      var u := s.(name := s.name + n, last := Some(n[|n| - 1]));
      assert s.name + [b] + v == s.name + n;
      AfterAfter([b], v, Run(u, rest));
    }
  }

  /** Behind `<`, `<!` or `<!-`: spaces are dropped and a name is collected. */
  lemma {:induction false} TagRead(s: Html, lead: nat, n: seq<byte>, rest: seq<byte>)
    requires s.mode == Tag && s.pre == '\0' && s.carry == [] && n != [] && Nameable(n)
    ensures Run(s, Spaces(lead) + (n + rest)) ==
              After(n, Run(Html(TagName, '\0', Some(n[|n| - 1]), n, [], []), rest))
  {
    hide Run, SkipName;
    var t := s.(mode := TagName, name := [], col := []);
    SpacesDropped(s, lead, n + rest);
    assert n[0] in n && (n + rest)[0] == n[0] && [] + (n + rest) == n + rest;
    Reads(s, [], n + rest, t, []);
    NothingBefore(Run(t, n + rest));
    NameRead(t, n, rest);
    assert [] + n == n;
  }

  /** The tag of a block that is copied as it is. */
  predicate Kept(n: seq<byte>) {
    SameNoCase(n, "pre") || SameNoCase(n, "script") || SameNoCase(n, "style")
  }

  lemma {:induction false} NameEnds(s: Html, b: byte, rest: seq<byte>)
    requires s.mode == TagName && s.carry == [] && s.col == [] && (b == '>' || b == ' ' || b == '/')
    ensures var name := if Kept(s.name) then s.name else [];
            Run(s, [b] + rest) ==
              After([b], Run(if b != '>' then Html(TagAtt, '\0', Some(b), name, [], [])
                             else if name != [] then Html(Skip, '\0', Some('>'), name, [], [])
                             else Html(Text, '>', Some('>'), [], [], []), rest))
  {
    hide Run, SameNoCase;
    var name := if Kept(s.name) then s.name else [];
    First(b, rest);
    KeptNotEmpty(s.name);
    Reads(s, [b], rest, if b != '>' then Html(TagAtt, '\0', Some(b), name, [], [])
                        else if name != [] then Html(Skip, '\0', Some('>'), name, [], [])
                        else Html(Text, '>', Some('>'), [], [], []), [b]);
  }

  lemma {:induction false} KeptNotEmpty(n: seq<byte>)
    ensures Kept(n) ==> n != []
  {
  }

  // ---------- attributes ----------

  /** What is left of the attributes `a` behind the byte `p`: of every run of spaces the first. */
  function Squeezed(p: byte, a: seq<byte>): seq<byte>
    decreases |a|
  {
    if a == [] then []
    else if a[0] == ' ' && p == ' ' then Squeezed(p, a[1..])
    else [a[0]] + Squeezed(a[0], a[1..])
  }

  lemma {:induction false} AttByte(s: Html, b: byte, rest: seq<byte>)
    requires s.mode == TagAtt && s.pre == '\0' && s.carry == [] && s.last.Some? && b != '>' && b != '/'
    ensures Run(s, [b] + rest) == if b == ' ' && s.last.value == ' ' then Run(s, rest)
                                  else After([b], Run(s.(last := Some(b)), rest))
  {
    First(b, rest);
    if b == ' ' && s.last.value == ' ' {
      Reads(s, [b], rest, s, []);
      NothingBefore(Run(s, rest));
    } else {
      Reads(s, [b], rest, s.(last := Some(b)), [b]);
    }
  }

  lemma {:induction false} AttsRead(s: Html, a: seq<byte>, rest: seq<byte>) returns (c: byte)
    requires s.mode == TagAtt && s.pre == '\0' && s.carry == [] && s.last.Some? && '>' !in a && '/' !in a
    ensures Run(s, a + rest) == After(Squeezed(s.last.value, a), Run(s.(last := Some(c)), rest))
    ensures c == if a == [] then s.last.value else a[|a| - 1]
    decreases |a|
  {
    hide Run, Next;
    c := s.last.value;
    if a == [] {
      assert a + rest == rest && s.(last := Some(c)) == s;
      NothingBefore(Run(s, rest));
    } else {
      var b, v := a[0], a[1..];
      assert a == [b] + v && b in a && a + rest == [b] + (v + rest);
      AttByte(s, b, v + rest);
      if b == ' ' && s.last.value == ' ' {
        c := AttsRead(s, v, rest);
      } else {
        c := AttsRead(s.(last := Some(b)), v, rest);
        AfterAfter([b], Squeezed(b, v), Run(s.(last := Some(c)), rest));
      }
    }
  }

  /** The `>` behind attributes closes the tag; a `/` before it takes back that a block begins. */
  lemma {:induction false} AttsEnd(s: Html, rest: seq<byte>)
    requires s.mode == TagAtt && s.pre == '\0' && s.carry == []
    ensures Run(s, ">" + rest) ==
              After(">", Run(if s.name != [] then Html(Skip, '\0', Some('>'), s.name, s.col, [])
                             else Html(Text, '>', Some('>'), [], s.col, []), rest))
    ensures Run(s, "/>" + rest) == After("/>", Run(Html(Text, '>', Some('>'), [], s.col, []), rest))
  {
    hide Run;
    First('>', rest);
    var t := s.(name := [], last := Some('/'));
    var z := Html(Text, '>', Some('>'), [], s.col, []);
    Reads(s, ">", rest, if s.name != [] then Html(Skip, '\0', Some('>'), s.name, s.col, []) else z, ">");
    First('/', ">" + rest);
    assert "/" + (">" + rest) == "/>" + rest && ("/>" + rest)[1] == '>';
    Reads(s, "/", ">" + rest, t, "/");
    Reads(t, ">", rest, z, ">");
    AfterAfter("/", ">", Run(z, rest));
  }

  /** Any other `/` is copied with the byte behind it, a space also. */
  lemma {:induction false} AttSlash(s: Html, b: byte, rest: seq<byte>)
    requires s.mode == TagAtt && s.pre == '\0' && s.carry == [] && b != '>'
    ensures Run(s, ['/', b] + rest) == After(['/', b], Run(s.(last := Some(b)), rest))
  {
    hide Run;
    var w := ['/', b] + rest;
    assert w[0] == '/' && w[1] == b && w[..2] == ['/', b];
    Reads(s, ['/', b], rest, s.(last := Some(b)), ['/', b]);
  }

  // ---------- whole tags ----------

  /** The place right behind a tag: in its block, or in the text. */
  function Behind(name: seq<byte>, kept: bool): Html {
    if kept then Html(Skip, '\0', Some('>'), name, [], []) else Html(Text, '>', Some('>'), [], [], [])
  }

  /** A tag without attributes. It loses the spaces before its name, and it begins a block exactly for the
      three names. */
  lemma {:induction false} BareTag(s: Html, lead: nat, n: seq<byte>, rest: seq<byte>)
    requires s.mode == Text && s.carry == [] && n != [] && Nameable(n) && (lead == 0 ==> n[0] != '!')
    ensures Run(s, "<" + (Spaces(lead) + (n + (">" + rest)))) ==
              After("<" + n + ">",
                    Run(Behind(n, SameNoCase(n, "pre") || SameNoCase(n, "script") || SameNoCase(n, "style")), rest))
  {
    hide Run, SameNoCase;
    TagReadOpen(s, lead, n, ">" + rest);
    NameEnds(Html(TagName, '\0', Some(n[|n| - 1]), n, [], []), '>', rest);
    KeptNotEmpty(n);
    AfterAfter("<" + n, ">", Run(Behind(n, Kept(n)), rest));
  }

  lemma {:induction false} TagReadOpen(s: Html, lead: nat, n: seq<byte>, rest: seq<byte>)
    requires s.mode == Text && s.carry == [] && n != [] && Nameable(n) && (lead == 0 ==> n[0] != '!')
    ensures Run(s, "<" + (Spaces(lead) + (n + rest))) ==
              After("<" + n, Run(Html(TagName, '\0', Some(n[|n| - 1]), n, [], []), rest))
  {
    hide Run;
    var x := Spaces(lead) + (n + rest);
    assert x[0] == if lead == 0 then n[0] else ' ';
    TagOpens(s, x);
    TagRead(Html(Tag, '\0', Some('<'), s.name, s.col, []), lead, n, rest);
    AfterAfter("<", n, Run(Html(TagName, '\0', Some(n[|n| - 1]), n, [], []), rest));
  }

  /** A tag with attributes: of every run of spaces the first is kept, in quotes too, and all else is. With
      a `/` before its `>` it begins no block; the `/` counts only if it is not the one that ends the name. */
  lemma {:induction false} TagWithAttributes(s: Html, lead: nat, n: seq<byte>, sep: byte, a: seq<byte>,
                                              slash: bool, rest: seq<byte>)
    requires s.mode == Text && s.carry == [] && n != [] && Nameable(n) && (lead == 0 ==> n[0] != '!')
    requires (sep == ' ' || sep == '/') && '>' !in a && '/' !in a
    ensures var end := if slash then "/>" else ">";
            Run(s, "<" + (Spaces(lead) + (n + ([sep] + (a + (end + rest)))))) ==
              After("<" + n + [sep] + Squeezed(sep, a) + end,
                    Run(Behind(n, && !slash
                                  && (SameNoCase(n, "pre") || SameNoCase(n, "script") || SameNoCase(n, "style"))),
                        rest))
  {
    hide Run, Next, SameNoCase, Squeezed;
    var end := if slash then "/>" else ">";
    var t := Html(TagAtt, '\0', Some(sep), if Kept(n) then n else [], [], []);
    TagReadOpen(s, lead, n, [sep] + (a + (end + rest)));
    NameEnds(Html(TagName, '\0', Some(n[|n| - 1]), n, [], []), sep, a + (end + rest));
    var c := AttsRead(t, a, end + rest);
    AttsEnd(t.(last := Some(c)), rest);
    KeptNotEmpty(n);
    var u := Run(Behind(n, !slash && Kept(n)), rest);
    AfterAfter(Squeezed(sep, a), end, u);
    AfterAfter([sep], Squeezed(sep, a) + end, u);
    AfterAfter("<" + n, [sep] + (Squeezed(sep, a) + end), u);
    assert "<" + n + ([sep] + (Squeezed(sep, a) + end)) == "<" + n + [sep] + Squeezed(sep, a) + end;
  }

  // ---------- blocks ----------

  lemma {:induction false} SkipsIn(n: seq<byte>, w: seq<byte>)
    requires Kept(n)
    ensures InBlock(Behind(n, true), Verbatim) && Reachable(Behind(n, true), w) && Behind(n, true).name == n
  {
    hide SameNoCase;
    KeptNotEmpty(n);
  }

  /** The content of a block is copied up to its first `</`, whatever follows; a `<` that ends the input
      waits for the byte behind it. */
  lemma {:induction false} BlockCopied(n: seq<byte>, x: seq<byte>, rest: seq<byte>)
    requires SameNoCase(n, "pre") || SameNoCase(n, "script") || SameNoCase(n, "style")
    requires forall i, j :: 0 <= i < |x| && 0 <= j < |x| && j == i + 1 ==> !(x[i] == '<' && x[j] == '/')
    ensures var t := Run(Behind(n, true), x + rest);
            x <= t.out + t.st.carry && (rest == [] ==> t.out + t.st.carry == x && t.st.mode == Skip)
  {
    hide Run, BlockRun, SameNoCase, Reachable;
    var s := Behind(n, true);
    SkipsIn(n, x + rest);
    assert Pending(Verbatim) + x == x;
    RunBlock(s, Verbatim, x + rest);
    BlockVerbatim(n, Verbatim, x);
    BlockAppend(n, Verbatim, x, rest);
    var r := BlockRun(n, Verbatim, x);
    PendingComes(n, r.st, rest);
    var u := BlockRun(n, r.st, rest);
    assert r.out + (u.out + Pending(u.st)) == r.out + u.out + Pending(u.st);
    if rest == [] {
      BlockNone(n, r.st, rest);
      assert x + rest == x;
    }
  }

  /** A pending `<` is written before what follows it. */
  lemma {:induction false} PendingComes(n: seq<byte>, b: Block, w: seq<byte>)
    requires b == Verbatim || b == Angle
    ensures var r := BlockRun(n, b, w); Pending(b) <= r.out + Pending(r.st)
  {
    hide BlockRun;
    if w == [] {
      BlockNone(n, b, w);
    } else {
      BlockOne(n, b, w);
    }
  }

  lemma {:induction false} SkipByte(s: Html, b: byte, c: byte, rest: seq<byte>)
    requires s.mode == Skip && s.pre == '\0' && s.carry == []
    ensures b != '<' ==> Run(s, [b] + rest) == After([b], Run(s.(last := Some(b)), rest))
    ensures b == '<' && c != '/' ==> Run(s, [b, c] + rest) == After([b, c], Run(s.(last := Some(c)), rest))
  {
    hide Run;
    First(b, rest);
    if b != '<' {
      Reads(s, [b], rest, s.(last := Some(b)), [b]);
    } else if c != '/' {
      var w := [b, c] + rest;
      assert w[0] == b && w[1] == c && w[..2] == [b, c];
      Reads(s, [b, c], rest, s.(last := Some(c)), [b, c]);
    }
  }

  lemma {:induction false} SkipRead(s: Html, x: seq<byte>, rest: seq<byte>) returns (c: Option<byte>)
    requires s.mode == Skip && s.pre == '\0' && s.carry == []
    requires Lacks(x, '<', '/') && (x != [] ==> x[|x| - 1] != '<')
    ensures Run(s, x + rest) == After(x, Run(s.(last := c), rest))
    decreases |x|
  {
    hide Run;
    c := s.last;
    if x == [] {
      assert x + rest == rest && s.(last := c) == s;
      NothingBefore(Run(s, rest));
    } else {
      var k := if x[0] == '<' then 2 else 1;
      assert x[0] == '<' ==> |x| >= 2 && x[1] != '/';
      var v := x[k..];
      LacksSuffix(x, k, '<', '/');
      assert x == x[..k] + v && x + rest == x[..k] + (v + rest);
      assert x[..k] == if k == 1 then [x[0]] else [x[0], x[1]];
      SkipByte(s, x[0], if k == 2 then x[1] else '/', v + rest);
      c := SkipRead(s.(last := Some(x[k - 1])), v, rest);
      AfterAfter(x[..k], v, Run(s.(last := c), rest));
    }
  }

  lemma {:induction false} ClosingBegins(s: Html, rest: seq<byte>)
    requires (s.mode == Skip || s.mode == Text) && s.col == [] && s.carry == [] && (s.mode == Skip ==> s.pre == '\0')
    ensures Run(s, "</" + rest) == After("</", Run(Html(TagNameEnd, '\0', Some('/'), s.name, [], []), rest))
  {
    hide Run;
    var t, u := Html(Tag, '\0', Some('<'), s.name, [], []), Html(TagNameEnd, '\0', Some('/'), s.name, [], []);
    First('<', "/" + rest);
    First('/', rest);
    assert "<" + ("/" + rest) == "</" + rest && ("</" + rest)[1] == '/';
    Reads(s, "<", "/" + rest, t, "<");
    Reads(t, "/", rest, u, "/");
    AfterAfter("<", "/", Run(u, rest));
  }

  lemma {:induction false} ClosingRead(s: Html, t: seq<byte>, rest: seq<byte>) returns (c: Option<byte>)
    requires s.mode == TagNameEnd && s.pre == '\0' && s.carry == [] && '>' !in t
    ensures Run(s, t + rest) ==
              After(Tight(t), Run(s.(col := if s.name == [] then s.col else s.col + Tight(t), last := c), rest))
    decreases |t|
  {
    hide Run;
    c := s.last;
    if t == [] {
      assert t + rest == rest && s.col + Tight(t) == s.col;
      NothingBefore(Run(s, rest));
    } else {
      var b, v := t[0], t[1..];
      assert t == [b] + v && b in t && t + rest == [b] + (v + rest);
      First(b, v + rest);
      if b == ' ' {
        Reads(s, [b], v + rest, s, []);
        NothingBefore(Run(s, v + rest));
        c := ClosingRead(s, v, rest);
        assert Tight(t) == Tight(v);
      } else {
        var u := s.(col := if s.name == [] then s.col else s.col + [b], last := Some(b));
        Reads(s, [b], v + rest, u, [b]);
        c := ClosingRead(u, v, rest);
        assert s.col + [b] + Tight(v) == s.col + ([b] + Tight(v));
        AfterAfter([b], Tight(v), Run(s.(col := if s.name == [] then s.col else s.col + Tight(t), last := c), rest));
      }
    }
  }

  lemma {:induction false} ClosingEnds(s: Html, rest: seq<byte>)
    requires s.mode == TagNameEnd && s.pre == '\0' && s.carry == [] && (s.col != [] ==> s.name != [])
    ensures Run(s, ">" + rest) ==
              After(">", Run(if s.col == [] then Html(Text, '>', Some('>'), s.name, [], [])
                             else if s.name <= s.col then Html(Text, '>', Some('>'), [], [], [])
                             else Html(Skip, '\0', Some('>'), s.name, [], []), rest))
  {
    First('>', rest);
    Reads(s, ">", rest, if s.col == [] then Html(Text, '>', Some('>'), s.name, [], [])
                        else if s.name <= s.col then Html(Text, '>', Some('>'), [], [], [])
                        else Html(Skip, '\0', Some('>'), s.name, [], []), ">");
  }

  /** A closing tag in the text, or behind the content `x` of a block, is copied without its spaces. It ends
      the block if it is empty or begins with the block's name in the same case; behind any other the block goes on. */
  lemma {:induction false} ClosingTag(s: Html, x: seq<byte>, t: seq<byte>, rest: seq<byte>)
    requires (s.mode == Skip || (s.mode == Text && x == [])) && s.col == [] && s.carry == []
    requires s.mode == Skip ==> s.pre == '\0'
    requires forall i, j :: 0 <= i < |x| && 0 <= j < |x| && j == i + 1 ==> !(x[i] == '<' && x[j] == '/')
    requires (x != [] ==> x[|x| - 1] != '<') && '>' !in t
    ensures Run(s, x + ("</" + (t + (">" + rest)))) ==
              After(x + "</" + Tight(t) + ">",
                    Run(if s.name == [] || Tight(t) == [] then Html(Text, '>', Some('>'), s.name, [], [])
                        else if s.name <= Tight(t) then Html(Text, '>', Some('>'), [], [], [])
                        else Html(Skip, '\0', Some('>'), s.name, [], []), rest))
  {
    hide Run, Next, Tight;
    var y := "</" + (t + (">" + rest));
    var c := s.last;
    if s.mode == Skip {
      c := SkipRead(s, x, y);
    } else {
      assert x + y == y && s.(last := c) == s;
      NothingBefore(Run(s, y));
    }
    ClosingBegins(s.(last := c), t + (">" + rest));
    var b := Html(TagNameEnd, '\0', Some('/'), s.name, [], []);
    var d := ClosingRead(b, t, ">" + rest);
    assert [] + Tight(t) == Tight(t);
    ClosingEnds(b.(col := if s.name == [] then [] else Tight(t), last := d), rest);
    var z := Run(if s.name == [] || Tight(t) == [] then Html(Text, '>', Some('>'), s.name, [], [])
                 else if s.name <= Tight(t) then Html(Text, '>', Some('>'), [], [], [])
                 else Html(Skip, '\0', Some('>'), s.name, [], []), rest);
    AfterAfter(Tight(t), ">", z);
    AfterAfter("</", Tight(t) + ">", z);
    AfterAfter(x, "</" + (Tight(t) + ">"), z);
    assert x + ("</" + (Tight(t) + ">")) == x + "</" + Tight(t) + ">";
  }

  /** From the beginning of a response: behind a `pre`, `script` or `style` tag in either case, with or without
      attributes, all is copied up to the first `</`, newlines too; behind a tag of any other name a newline
      is dropped. */
  lemma {:induction false} BlockIff(n: seq<byte>, a: seq<byte>, x: seq<byte>, rest: seq<byte>)
    requires n != [] && Nameable(n) && n[0] != '!' && '>' !in a && '/' !in a
    requires forall i, j :: 0 <= i < |x| && 0 <= j < |x| && j == i + 1 ==> !(x[i] == '<' && x[j] == '/')
    ensures var tag := "<" + n + (if a == [] then "" else " " + a) + ">";
            var out := Run(START, tag).out;
            if SameNoCase(n, "pre") || SameNoCase(n, "script") || SameNoCase(n, "style") then
              var t := Run(START, tag + (x + rest));
              out + x <= t.out + t.st.carry
            else
              Run(START, tag + "\n").out == out
  {
    hide Run, SameNoCase, Next;
    var tag := "<" + n + (if a == [] then "" else " " + a) + ">";
    var out := TagThen(n, a, []);
    var out2 := TagThen(n, a, x + rest);
    var out3 := TagThen(n, a, "\n");
    assert tag + [] == tag;
    RunNone(Behind(n, Kept(n)));
    if Kept(n) {
      BlockCopied(n, x, rest);
    } else {
      TextWhite(Behind(n, false), "\n", []);
      assert "\n" + [] == "\n";
    }
  }

  lemma {:induction false} TagThen(n: seq<byte>, a: seq<byte>, rest: seq<byte>) returns (out: seq<byte>)
    requires n != [] && Nameable(n) && n[0] != '!' && '>' !in a && '/' !in a
    ensures out == "<" + n + (if a == [] then "" else " " + Squeezed(' ', a)) + ">"
    ensures Run(START, "<" + n + (if a == [] then "" else " " + a) + ">" + rest) ==
              After(out, Run(Behind(n, Kept(n)), rest))
  {
    hide Run, SameNoCase, Next, Squeezed;
    out := "<" + n + (if a == [] then "" else " " + Squeezed(' ', a)) + ">";
    SpacesNone();
    if a == [] {
      BareTag(START, 0, n, rest);
      assert "<" + (Spaces(0) + (n + (">" + rest))) == "<" + n + "" + ">" + rest;
      assert "<" + n + "" + ">" == "<" + n + ">";
    } else {
      TagWithAttributes(START, 0, n, ' ', a, false, rest);
      assert "<" + (Spaces(0) + (n + ([' '] + (a + (">" + rest))))) == "<" + n + (" " + a) + ">" + rest;
      assert "<" + n + [' '] + Squeezed(' ', a) + ">" == out;
    }
  }

  // ---------- openings with an exclamation mark ----------

  /** `<!` and a byte that begins no comment and no bracket: the name behind it is read as a tag's. `<!-` likewise. */
  lemma {:induction false} BangTag(s: Html, b: byte, rest: seq<byte>)
    requires s.mode == Text && s.carry == []
    ensures b != '-' && b != '[' ==>
              Run(s, "<!" + ([b] + rest)) == After("<!", Run(Html(Tag, '\0', Some('!'), s.name, s.col, []), [b] + rest))
    ensures b != '-' ==>
              Run(s, "<!-" + ([b] + rest)) ==
              After("<!-", Run(Html(Tag, '\0', Some('-'), s.name, s.col, []), [b] + rest))
  {
    hide Run, Sync;
    var x, y := "<!" + ([b] + rest), "<!-" + ([b] + rest);
    assert x[0] == '<' && x[1] == '!' && x[2] == b && x[..2] == "<!";
    assert y[0] == '<' && y[1] == '!' && y[2] == '-' && y[3] == b && y[..3] == "<!-";
    SyncIs(s);
    var t := Sync(s).(mode := TagBang);
    OpeningBang(s, x);
    OpeningBang(s, y);
    if b != '-' && b != '[' {
      Reads(t, "<!", [b] + rest, Html(Tag, '\0', Some('!'), s.name, s.col, []), "<!");
    }
    if b != '-' {
      Reads(t, "<!-", [b] + rest, Html(Tag, '\0', Some('-'), s.name, s.col, []), "<!-");
    }
  }

  lemma {:induction false} AbortRun(s: Html, w: seq<byte>)
    requires s.mode == Abort && s.pre == '\0' && s.carry == []
    ensures Run(s, w) == Step(s.(last := if w == [] then s.last else Some(w[|w| - 1])), w)
    decreases |w|
  {
    hide Run;
    if w == [] {
      RunNone(s);
    } else {
      assert w == [w[0]] + w[1..];
      First(w[0], w[1..]);
      Reads(s, [w[0]], w[1..], s.(last := Some(w[0])), [w[0]]);
      AbortRun(s.(last := Some(w[0])), w[1..]);
    }
  }

  lemma {:induction false} BeginsIff(u: seq<byte>)
    requires |u| < 6
    ensures Begins("<![" + u, "<![CDATA[") <==> SameNoCase(u, "CDATA["[..|u|])
  {
    var w, c := "<![" + u, "<![CDATA["[..|u| + 3];
    var d := "CDATA["[..|u|];
    assert c == "<![" + d;
    if SameNoCase(u, d) {
      forall i | 0 <= i < |w| ensures Lower(c[i]) == Lower(w[i]) {
        if i >= 3 {
          assert w[i] == u[i - 3] && c[i] == d[i - 3];
        }
      }
    }
    if SameNoCase(c, w) {
      forall i | 0 <= i < |u| ensures Lower(u[i]) == Lower(d[i]) {
        assert w[i + 3] == u[i] && c[i + 3] == d[i];
      }
    }
  }

  /** `<![` and six bytes that do not make it a CDATA section are copied, and the text goes on. With fewer
      bytes in sight, unless they could begin one in either case, the rest of the response is copied. */
  lemma {:induction false} BracketCopied(s: Html, u: seq<byte>, rest: seq<byte>)
    requires s.mode == Text && s.carry == []
    ensures |u| == 6 && u != "CDATA[" ==>
              Run(s, "<![" + u + rest) == After("<![" + u, Run(s.(pre := u[5], last := Some(u[5])), rest))
    ensures |u| < 6 && !SameNoCase(u, "CDATA["[..|u|]) ==>
              Run(s, "<![" + u) == Step(Html(Abort, '\0', Some(("<![" + u)[|u| + 2]), s.name, s.col, []), "<![" + u)
  {
    hide Run, Sync, Begins, SameNoCase;
    var w, v, t := "<![" + u + rest, "<![" + u, Sync(s).(mode := TagBang);
    SyncIs(s);
    if |u| == 6 && u != "CDATA[" {
      OpeningBang(s, w);
      assert w[..9] == "<![" + u && ("<![" + u)[3..] == u && "<![CDATA["[3..] == "CDATA[" && w[8] == u[5];
      Reads(t, v, rest, s.(pre := u[5], last := Some(u[5])), v);
    } else if |u| < 6 && !SameNoCase(u, "CDATA["[..|u|]) {
      BeginsIff(u);
      OpeningBang(s, v);
      var a := Html(Abort, '\0', t.last, s.name, s.col, []);
      assert [] + v == v;
      Reads(t, [], v, a, []);
      NothingBefore(Run(a, v));
      AbortRun(a, v);
    }
  }

  // ---------- the end of a buffer ----------

  lemma {:induction false} Waits(s: Html, x: seq<byte>, t: Html)
    requires x != [] && Ready(s, x) && Next(s, x) == Move(t.(carry := x), |x|, [])
    ensures Run(s, x) == Step(t.(carry := x), [])
  {
    hide Next, Run;
    RunMove(s, x);
    assert x[|x|..] == [];
    RunNone(t.(carry := x));
  }

  lemma {:induction false} BeginsSame(x: seq<byte>, c: seq<byte>)
    requires |x| < |c|
    ensures Begins(x, c) <==> SameNoCase(x, c[..|x|])
  {
  }

  /** A lone `<` of the text or a block and a lone `/` of a tag wait for the next buffer. */
  lemma {:induction false} ByteWaits(s: Html)
    requires s.carry == []
    ensures s.mode == Skip ==> Run(s, "<") == Step(s.(carry := "<"), [])
    ensures s.mode == TagAtt ==> Run(s, "/") == Step(s.(carry := "/"), [])
    ensures s.mode == Text ==>
              Run(s, "<") == Step(s.(pre := if s.last == None then s.pre else s.last.value, carry := "<"), [])
  {
    hide Run;
    if s.mode == Skip {
      Waits(s, "<", s);
    } else if s.mode == TagAtt {
      Waits(s, "/", s);
    } else if s.mode == Text {
      Waits(s, "<", Sync(s));
    }
  }

  /** So does, in either case, every beginning of a CDATA section or a conditional comment. */
  lemma {:induction false} OpeningWaits(s: Html, x: seq<byte>)
    requires s.mode == Text && s.carry == [] && x != []
    requires (|x| < 9 && SameNoCase(x, "<![CDATA["[..|x|])) || (|x| < 7 && SameNoCase(x, "<!--[if"[..|x|]))
    ensures Run(s, x).out == [] && Run(s, x).st.carry == x
  {
    hide Run, Next, Begins, SameNoCase;
    var bracket := |x| < 9 && SameNoCase(x, "<![CDATA["[..|x|]);
    var c := if bracket then "<![CDATA["[..|x|] else "<!--[if"[..|x|];
    PunctuationSame(x, c);
    assert c[0] == '<' && (|x| >= 2 ==> c[1] == '!');
    if |x| == 1 {
      assert x == "<";
      ByteWaits(s);
    } else if |x| == 2 {
      assert x == "<!";
      TwoWait(s);
    } else {
      OpeningBang(s, x);
      SyncIs(s);
      var t := Sync(s).(mode := TagBang);
      if bracket {
        BeginsSame(x, "<![CDATA[");
        BracketWaits(t, x);
      } else {
        BeginsSame(x, "<!--[if");
        CommentWaits(t, x);
      }
    }
  }

  lemma {:induction false} TwoWait(s: Html)
    requires s.mode == Text && s.carry == []
    ensures Run(s, "<!") == Step(s.(pre := if s.last == None then s.pre else s.last.value, carry := "<!"), [])
  {
    hide Run;
    Waits(s, "<!", Sync(s));
  }

  /** Up to the letters, both openings are the same in either case. */
  lemma {:induction false} PunctuationSame(x: seq<byte>, c: seq<byte>)
    ensures SameNoCase(x, c) ==>
              && |x| == |c|
              && forall i :: 0 <= i < |c| && c[i] in {'<', '!', '-', '[', ']', '>'} ==> x[i] == c[i]
  {
    SameNoCaseIff(x, c);
  }

  lemma {:induction false} BracketWaits(t: Html, x: seq<byte>)
    requires t.mode == TagBang && t.carry == [] && 3 <= |x| < 9 && x[..3] == "<![" && Begins(x, "<![CDATA[")
    ensures Ready(t, x) && Run(t, x) == Step(t.(carry := x), [])
  {
    hide Run, Begins;
    assert x[0] == x[..3][0] && x[1] == x[..3][1] && x[2] == x[..3][2];
    Waits(t, x, t);
  }

  lemma {:induction false} CommentWaits(t: Html, x: seq<byte>)
    requires t.mode == TagBang && t.carry == [] && 3 <= |x| < 7 && x[..3] == "<!-" && (|x| >= 4 ==> x[3] == '-')
    requires |x| >= 5 ==> x[4] == '[' && Begins(x, "<!--[if")
    ensures Ready(t, x) && Run(t, x).out == [] && Run(t, x).st.carry == x
  {
    hide Run, Begins;
    assert x[0] == x[..3][0] && x[1] == x[..3][1] && x[2] == x[..3][2];
    if |x| == 3 {
      Waits(t, x, t);
    } else {
      var u := t.(mode := Comment);
      assert [] + x == x && x[..4] == "<!--";
      Reads(t, [], x, u, []);
      Waits(u, x, u);
    }
  }

  /** With too few bytes to tell, what cannot begin a conditional comment is dropped as a comment. */
  lemma {:induction false} ShortComment(s: Html, y: seq<byte>)
    requires s.mode == Text && s.carry == [] && 0 < |y| < 3 && !SameNoCase(y, "[if"[..|y|])
    ensures Run(s, "<!--" + y) ==
              Run(s.(mode := CommentSkip, pre := if s.last == None then s.pre else s.last.value), y)
  {
    hide Run, Begins, SameNoCase;
    var x, t := "<!--" + y, Sync(s).(mode := TagBang);
    OpeningBang(s, x);
    SyncIs(s);
    assert [] + x == x && x[..4] == "<!--" && x[4] == y[0];
    NotBegun(y);
    Reads(t, [], x, t.(mode := Comment), []);
    Reads(t.(mode := Comment), "<!--", y, t.(mode := CommentSkip), []);
    NothingBefore(Run(t.(mode := Comment), x));
    NothingBefore(Run(t.(mode := CommentSkip), y));
  }

  lemma {:induction false} NotBegun(y: seq<byte>)
    requires |y| < 3 && !SameNoCase(y, "[if"[..|y|])
    ensures !Begins("<!--" + y, "<!--[if")
  {
    var x, c, d := "<!--" + y, "<!--[if"[..|y| + 4], "[if"[..|y|];
    assert c == "<!--" + d;
    if SameNoCase(c, x) {
      forall i | 0 <= i < |y| ensures Lower(y[i]) == Lower(d[i]) {
        assert x[i + 4] == y[i] && c[i + 4] == d[i];
      }
    }
  }

  /** The beginning of an end mark waits for the next buffer. Where it cannot be one, its first byte goes as the
      section does, but that of a conditional comment is lost. */
  lemma {:induction false} MarkWaits(s: Html, mark: seq<byte>, x: seq<byte>)
    requires s.carry == [] && 0 < |x| < |mark| && x[0] == mark[0] && (s.mode == Cdata ==> s.pre == '\0')
    requires || (s.mode == CommentSkip && mark == "-->") || (s.mode == CommentIe && mark == "]-->")
             || (s.mode == Cdata && mark == "]]>")
    ensures Run(s, x) ==
              if x == mark[..|x|] then Step(s.(carry := x), [])
              else if s.mode == Cdata then After([x[0]], Run(s.(last := Some(x[0])), x[1..]))
              else Run(s, x[1..])
  {
    hide Run, Begins, SameNoCase;
    var c := mark[..|x|];
    BeginsSame(x, mark);
    SameNoCaseIff(x, c);
    PunctuationSame(x, c);
    assert Begins(x, mark) <==> x == c;
    if x == c {
      Waits(s, x, s);
    } else {
      assert [x[0]] + x[1..] == x && x[..1] == [x[0]];
      if s.mode == Cdata {
        Reads(s, [x[0]], x[1..], s.(last := Some(x[0])), [x[0]]);
      } else {
        Reads(s, [x[0]], x[1..], s, []);
        NothingBefore(Run(s, x[1..]));
      }
    }
  }
}
