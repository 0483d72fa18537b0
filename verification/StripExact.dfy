/** What mod_strip writes for each construct, byte for byte and in the bytes' own names. */
module StripExact {
  import opened Bytes
  import opened StripMachine
  import opened StripStreams

  // ---------- runs ----------

  lemma {:induction false} RunByte(s: State, b: byte)
    ensures Run(s, [b]) == Next(s, b)
  {
    RunSnoc(s, [], b);
    RunNothing(s);
    assert [] + [b] == [b];
  }

  lemma {:induction false} RunCons(s: State, b: byte, w: seq<byte>)
    ensures var t := Next(s, b);
            var u := Run(t.st, w);
            Run(s, [b] + w) == Step(u.st, t.out + u.out)
  {
    RunAppend(s, [b], w);
    RunByte(s, b);
  }

  /** Bytes that are copied without a change of state. */
  lemma {:induction false} Copied(s: State, w: seq<byte>)
    requires forall i :: 0 <= i < |w| ==> Next(s, w[i]) == Step(s, [w[i]])
    ensures Run(s, w) == Step(s, w)
    decreases |w|
  {
    hide Next;
    if w != [] {
      assert w == [w[0]] + w[1..];
      Copied(s, w[1..]);
    }
  }

  // ---------- text ----------

  /** A byte of the text that is neither white nor `<` is written, and so is the `<` that opens a tag. */
  lemma {:induction false} TextByte(s: State, b: byte)
    requires (s == Text || s == TextWhitespace) && b !in {' ', '\t', '\n', '\r'}
    ensures Run(s, [b]) == Step(if b == '<' then Tag else Text, [b])
  {
    RunByte(s, b);
  }

  // ---------- tags ----------

  datatype Value = NoValue | Bare(text: seq<byte>) | Quoted(quote: byte, text: seq<byte>, more: seq<byte>)

  /** An attribute of a tag, behind `gap` spaces. */
  datatype Attr = Attr(gap: nat, name: seq<byte>, value: Value)

  /** No space and no `>`. */
  predicate Solid(w: seq<byte>) {
    ' ' !in w && '>' !in w
  }

  /** Behind the equals sign one byte is taken as it comes, and a quote opens a string. */
  predicate ValueOk(v: Value) {
    match v
    case NoValue => true
    case Bare(t) => t != [] && t[0] != '"' && t[0] != '\'' && Solid(t[1..])
    case Quoted(q, t, more) => (q == '"' || q == '\'') && q !in t && Solid(more)
  }

  predicate AttrOk(a: Attr) {
    a.gap >= 1 && a.name != [] && Solid(a.name) && '=' !in a.name[1..] && ValueOk(a.value)
  }

  function SpellValue(v: Value): seq<byte> {
    match v
    case NoValue => []
    case Bare(t) => ['='] + t
    case Quoted(q, t, more) => ['=', q] + t + [q] + more
  }

  /** The attributes as they stand in the input, or with one space before each. */
  function SpellAttrs(attrs: seq<Attr>, tight: bool): seq<byte> {
    if attrs == [] then []
    else
      var a := attrs[0];
      Spaces(if tight then 1 else a.gap) + a.name + SpellValue(a.value) + SpellAttrs(attrs[1..], tight)
  }

  /** Where a space separates and `>` ends the tag. */
  predicate Separates(s: State) {
    || s == TagName || s == TagNameP || s == TagNamePr || s == TagAttributeName || s == TagAttributeValue
  }

  lemma {:induction false} Gap(s: State, n: nat)
    requires Separates(s) && n >= 1
    ensures Run(s, Spaces(n)) == Step(TagWhitespace, " ")
    decreases n
  {
    hide Run, Next, Separates, Spaces;
    SpacesSnoc(n - 1);
    SpaceSeparates(s);
    if n == 1 {
      assert Spaces(n) == [' '];
      RunByte(s, ' ');
    } else {
      Gap(s, n - 1);
      RunSnoc(s, Spaces(n - 1), ' ');
    }
  }

  lemma {:induction false} SpaceSeparates(s: State)
    requires Separates(s)
    ensures Next(s, ' ') == Step(TagWhitespace, [' ']) && Next(TagWhitespace, ' ') == Step(TagWhitespace, [])
    ensures Next(s, '\n').out == ['\n']
  {
  }

  lemma {:induction false} SpacesSnoc(n: nat)
    ensures Spaces(n + 1) == Spaces(n) + [' '] && (n == 0 ==> Spaces(n + 1) == [' '])
  {
  }

  lemma {:induction false} SolidCopied(s: State, w: seq<byte>)
    requires Solid(w)
    requires s == TagName || s == TagAttributeValue || (s == TagAttributeName && '=' !in w)
    ensures Run(s, w) == Step(s, w)
  {
    hide Run;
    forall i | 0 <= i < |w| ensures Next(s, w[i]) == Step(s, [w[i]]) {
      assert w[i] in w;
    }
    Copied(s, w);
  }

  /** A quoted value is copied up to its closing quote, and the tag goes on behind it. */
  lemma {:induction false} QuotedCopied(q: byte, w: seq<byte>)
    requires (q == '"' || q == '\'') && q !in w
    ensures Run(TagAttributeEquals, [q] + w + [q]) == Step(TagAttributeValue, [q] + w + [q])
  {
    hide Run;
    var s := if q == '"' then TagAttributeValueDoubleQuote else TagAttributeValueSingleQuote;
    forall i | 0 <= i < |w| ensures Next(s, w[i]) == Step(s, [w[i]]) {
      assert w[i] in w;
    }
    Copied(s, w);
    RunSnoc(s, w, q);
    RunCons(TagAttributeEquals, q, w + [q]);
    assert [q] + (w + [q]) == [q] + w + [q];
  }

  lemma {:induction false} ValueCopied(v: Value)
    requires ValueOk(v)
    ensures Run(TagAttributeName, SpellValue(v)) ==
              Step(if v.NoValue? then TagAttributeName else TagAttributeValue, SpellValue(v))
  {
    hide Run;
    match v
    case NoValue =>
      RunNothing(TagAttributeName);
    case Bare(t) =>
      SolidCopied(TagAttributeValue, t[1..]);
      RunCons(TagAttributeEquals, t[0], t[1..]);
      assert t == [t[0]] + t[1..];
      RunCons(TagAttributeName, '=', t);
    case Quoted(q, t, more) =>
      var x := [q] + t + [q];
      QuotedCopied(q, t);
      SolidCopied(TagAttributeValue, more);
      RunAppend(TagAttributeEquals, x, more);
      RunCons(TagAttributeName, '=', x + more);
      assert ['='] + (x + more) == SpellValue(v);
  }

  lemma {:induction false} AttrCopied(s: State, a: Attr)
    requires Separates(s) && AttrOk(a)
    ensures var t := Run(s, Spaces(a.gap) + a.name + SpellValue(a.value));
            t.out == Spaces(1) + a.name + SpellValue(a.value) && Separates(t.st)
  {
    hide Run, SpellValue, ValueOk, Spaces;
    Gap(s, a.gap);
    var c, rest := a.name[0], a.name[1..];
    assert a.name == [c] + rest;
    assert c in a.name && Solid(rest);
    SolidCopied(TagAttributeName, rest);
    RunCons(TagWhitespace, c, rest);
    ValueCopied(a.value);
    RunAppend(s, Spaces(a.gap), a.name);
    RunAppend(s, Spaces(a.gap) + a.name, SpellValue(a.value));
    OneSpace();
  }

  lemma {:induction false} OneSpace()
    ensures Spaces(1) == " "
  {
  }

  lemma {:induction false} AttrsCopied(s: State, attrs: seq<Attr>)
    requires Separates(s) && forall i :: 0 <= i < |attrs| ==> AttrOk(attrs[i])
    ensures var t := Run(s, SpellAttrs(attrs, false));
            t.out == SpellAttrs(attrs, true) && Separates(t.st)
    decreases |attrs|
  {
    hide Run, SpellValue, AttrOk, Spaces, Separates;
    if attrs == [] {
      RunNothing(s);
    } else {
      var a := attrs[0];
      var x := Spaces(a.gap) + a.name + SpellValue(a.value);
      AttrOkGap(a);
      AttrCopied(s, a);
      AttrsCopied(Run(s, x).st, attrs[1..]);
      RunAppend(s, x, SpellAttrs(attrs[1..], false));
    }
  }

  lemma {:induction false} AttrOkGap(a: Attr)
    requires AttrOk(a)
    ensures a.gap >= 1
  {
  }

  function NameState(k: nat): State
    requires 1 <= k <= 3
  {
    if k == 1 then TagNameP else if k == 2 then TagNamePr else TagNamePre
  }

  lemma {:induction false} NameMoves(k: nat, b: byte)
    requires 1 <= k <= 3 && b != ' ' && b != '>'
    ensures Next(NameState(k), b) ==
              Step(if k < 3 && Lower(b) == "pre"[k] then NameState(k + 1) else TagName, [b])
  {
  }

  lemma {:induction false} Peel(w: seq<byte>, x: seq<byte>)
    requires w != [] && x != []
    ensures SameNoCase(w, x) <==> Lower(w[0]) == Lower(x[0]) && SameNoCase(w[1..], x[1..])
  {
    if SameNoCase(w[1..], x[1..]) && Lower(w[0]) == Lower(x[0]) {
      forall i | 0 <= i < |w| ensures Lower(w[i]) == Lower(x[i]) {
        if i > 0 {
          assert Lower(w[1..][i - 1]) == Lower(x[1..][i - 1]);
        }
      }
    }
  }

  lemma {:induction false} NameFrom(k: nat, w: seq<byte>)
    requires 1 <= k <= 3 && Solid(w)
    ensures var t := Run(NameState(k), w);
            && t.out == w
            && if SameNoCase(w, "pre"[k..]) then t.st == TagNamePre else Separates(t.st)
    decreases |w|
  {
    hide Run, Next, SameNoCase;
    if w == [] {
      RunNothing(NameState(k));
      assert SameNoCase(w, "pre"[k..]) <==> k == 3 by {
        SameNoCaseIff(w, "pre"[k..]);
      }
    } else {
      var b, rest := w[0], w[1..];
      assert w == [b] + rest && b in w;
      NameMoves(k, b);
      RunCons(NameState(k), b, rest);
      if k < 3 {
        Peel(w, "pre"[k..]);
        assert "pre"[k..][1..] == "pre"[k + 1..];
      } else {
        SameNoCaseIff(w, "pre"[k..]);
      }
      if k < 3 && Lower(b) == "pre"[k] {
        NameFrom(k + 1, rest);
      } else {
        SolidCopied(TagName, rest);
      }
    }
  }

  /** A tag's name: it begins with a letter. */
  predicate NameOk(name: seq<byte>) {
    name != [] && ('a' <= name[0] <= 'z' || 'A' <= name[0] <= 'Z') && Solid(name)
  }

  lemma {:induction false} NameCopied(name: seq<byte>)
    requires NameOk(name)
    ensures var t := Run(Tag, name);
            && t.out == name
            && if SameNoCase(name, "pre") then t.st == TagNamePre else Separates(t.st)
  {
    hide Run, SameNoCase;
    var b, rest := name[0], name[1..];
    assert name == [b] + rest && Solid(rest);
    RunCons(Tag, b, rest);
    Peel(name, "pre");
    assert "pre"[1..] == "re" && "pre"[1..] == "pre"[1..];
    if b == 'p' || b == 'P' {
      NameFrom(1, rest);
    } else {
      SolidCopied(TagName, rest);
    }
  }

  lemma {:induction false} TagOpens(s: State, lead: nat)
    requires s == Text || s == TextWhitespace
    ensures Run(s, ['<'] + Spaces(lead)) == Step(Tag, ['<'] + Spaces(lead))
  {
    hide Run;
    Copied(Tag, Spaces(lead));
    RunCons(s, '<', Spaces(lead));
  }

  lemma {:induction false} TagCloses(s: State, end: nat)
    requires Separates(s)
    ensures Run(s, Spaces(end) + ['>']) == Step(Text, (if end == 0 then [] else [' ']) + ['>'])
  {
    hide Run, Separates;
    if end == 0 {
      assert Spaces(end) + ['>'] == ['>'] && [] + ['>'] == ['>'];
      RunByte(s, '>');
      AngleCloses(s);
    } else {
      Gap(s, end);
      RunSnoc(s, Spaces(end), '>');
    }
  }

  lemma {:induction false} AngleCloses(s: State)
    requires Separates(s)
    ensures Next(s, '>') == Step(Text, ['>'])
  {
  }

  /** Exactly what is dropped from a tag: of the spaces before an attribute and before the `>`, all but one.
      The spaces behind `<`, the names, the values and all that stands in quotes are copied. */
  lemma {:induction false} TagTightened(s: State, lead: nat, name: seq<byte>, attrs: seq<Attr>, end: nat)
    requires s == Text || s == TextWhitespace
    requires NameOk(name) && !SameNoCase(name, "pre") && forall i :: 0 <= i < |attrs| ==> AttrOk(attrs[i])
    ensures Run(s, ['<'] + Spaces(lead) + name + SpellAttrs(attrs, false) + (Spaces(end) + ['>'])) ==
              Step(Text, ['<'] + Spaces(lead) + name + SpellAttrs(attrs, true)
                         + ((if end == 0 then [] else [' ']) + ['>']))
  {
    hide Run, Spaces, SpellAttrs, Separates, SameNoCase, NameOk, AttrOk;
    var a := ['<'] + Spaces(lead);
    TagOpens(s, lead);
    NameCopied(name);
    RunAppend(s, a, name);
    var n := Run(s, a + name).st;
    AttrsCopied(n, attrs);
    RunAppend(s, a + name, SpellAttrs(attrs, false));
    var x := a + name + SpellAttrs(attrs, false);
    TagCloses(Run(s, x).st, end);
    RunAppend(s, x, Spaces(end) + ['>']);
  }

  /** A quoted value in a tag that is still open: the value is copied with its quotes, and so is a newline
      behind it, which the text would drop. */
  lemma {:induction false} QuotedValueCopied(name: seq<byte>, attr: seq<byte>, q: byte, w: seq<byte>)
    requires NameOk(name) && !SameNoCase(name, "pre") && attr != [] && Solid(attr) && '=' !in attr
    requires (q == '"' || q == '\'') && q !in w
    ensures var x := "<" + name + " " + attr + "=" + ([q] + w + [q]);
            Run(Text, x).out == x && Run(Text, x + "\n").out == x + "\n"
  {
    hide Run, Next, Separates, SameNoCase, NameOk, Spaces;
    TagOpens(Text, 0);
    assert ['<'] + Spaces(0) == "<" by {
      SpacesNone();
    }
    NameCopied(name);
    RunAppend(Text, "<", name);
    OneSpace();
    var y := "<" + name;
    var s := Run(Text, y).st;
    AttrCopied(s, Attr(1, attr, Quoted(q, w, [])));
    var z := " " + attr + "=" + ([q] + w + [q]);
    assert " " + attr + (['=', q] + w + [q] + []) == z;
    RunAppend(Text, y, z);
    assert y + z == "<" + name + " " + attr + "=" + ([q] + w + [q]);
    RunSnoc(Text, y + z, '\n');
    SpaceSeparates(Run(s, z).st);
  }

  /** An end tag loses the spaces behind its slash and nothing else; its first byte may be any, `>` included. */
  lemma {:induction false} EndTagTightened(s: State, lead: nat, gap: nat, c: byte, t: seq<byte>)
    requires (s == Text || s == TextWhitespace) && c != ' ' && '>' !in t
    ensures Run(s, ['<'] + Spaces(lead) + (['/'] + Spaces(gap)) + ([c] + t + ['>'])) ==
              Step(Text, ['<'] + Spaces(lead) + ['/'] + ([c] + t + ['>']))
  {
    hide Run;
    var a := ['<'] + Spaces(lead);
    TagOpens(s, lead);
    Dropped(EndTag, gap);
    RunCons(Tag, '/', Spaces(gap));
    RunAppend(s, a, ['/'] + Spaces(gap));
    forall i | 0 <= i < |t| ensures Next(EndTagName, t[i]) == Step(EndTagName, [t[i]]) {
      assert t[i] in t;
    }
    Copied(EndTagName, t);
    RunCons(EndTag, c, t);
    RunSnoc(EndTag, [c] + t, '>');
    RunAppend(s, a + (['/'] + Spaces(gap)), [c] + t + ['>']);
  }

  lemma {:induction false} Dropped(s: State, n: nat)
    requires s == EndTag
    ensures Run(s, Spaces(n)) == Step(s, [])
    decreases n
  {
    if n == 0 {
      RunNothing(s);
      assert Spaces(0) == [];
    } else {
      Dropped(s, n - 1);
      RunSnoc(s, Spaces(n - 1), ' ');
      assert Spaces(n) == Spaces(n - 1) + [' '];
    }
  }

  /** Behind `<` and a byte that no tag begins with, the rest of the response is copied. */
  lemma {:induction false} NoTagNoStripping(s: State, lead: nat, b: byte, w: seq<byte>)
    requires s == Text || s == TextWhitespace
    requires !('a' <= b <= 'z') && !('A' <= b <= 'Z') && b != '!' && b != '/' && b != ' '
    ensures Run(s, ['<'] + Spaces(lead) + ([b] + w)).out == ['<'] + Spaces(lead) + ([b] + w)
  {
    hide Run;
    TagOpens(s, lead);
    Copied(Abort, w);
    RunCons(Tag, b, w);
    RunAppend(s, ['<'] + Spaces(lead), [b] + w);
  }

  // ---------- regions ----------

  /** A declaration is copied up to its `>`; its first byte, and the one behind a first dash, never end it. */
  lemma {:induction false} DeclarationCopied(s: State, lead: nat, head: seq<byte>, w: seq<byte>)
    requires (s == Text || s == TextWhitespace) && '>' !in w
    requires (|head| == 1 && head[0] != '-') || (|head| == 2 && head[0] == '-' && head[1] != '-')
    ensures var x := ['<'] + Spaces(lead) + (['!'] + (head + (w + ['>'])));
            Run(s, x) == Step(Text, x)
  {
    hide Run, Next;
    TagOpens(s, lead);
    forall i | 0 <= i < |w| ensures Next(TagBangStuff, w[i]) == Step(TagBangStuff, [w[i]]) {
      assert w[i] in w;
      BangMoves(w[i]);
    }
    Copied(TagBangStuff, w);
    BangMoves('>');
    RunSnoc(TagBangStuff, w, '>');
    var v := w + ['>'];
    if |head| == 1 {
      assert head == [head[0]];
      BangMoves(head[0]);
      RunByte(TagBang, head[0]);
    } else {
      assert head == ['-', head[1]] && ['-'] + [head[1]] == head;
      BangMoves(head[1]);
      RunByte(TagBangDash, head[1]);
      RunCons(TagBang, '-', [head[1]]);
    }
    RunAppend(TagBang, head, v);
    RunCons(Tag, '!', head + v);
    RunAppend(s, ['<'] + Spaces(lead), ['!'] + (head + v));
  }

  lemma {:induction false} BangMoves(b: byte)
    ensures Next(Tag, '!') == Step(TagBang, ['!']) && Next(TagBang, '-') == Step(TagBangDash, ['-'])
    ensures b != '-' ==> Next(TagBang, b) == Step(TagBangStuff, [b])
    ensures Next(TagBangDash, b) == Step(if b == '-' then Comment else TagBangStuff, [b])
    ensures Next(TagBangStuff, b) == Step(if b == '>' then Text else TagBangStuff, [b])
  {
  }

  lemma {:induction false} CommentMoves(d: nat, b: byte)
    requires b != '>'
    ensures Next(CommentState(d), b) == Step(CommentState(if b == '-' then d + 1 else 0), [b])
  {
  }

  lemma {:induction false} CommentRuns(w: seq<byte>)
    requires '>' !in w
    ensures Run(Comment, w) == Step(CommentState(Dashes(w)), w)
    decreases |w|
  {
    hide Next, Run, CommentState, Dashes;
    if w == [] {
      NoDashes();
      RunNothing(Comment);
    } else {
      var v, b := w[..|w| - 1], w[|w| - 1];
      assert w == v + [b] && b in w;
      CommentRuns(v);
      RunSnoc(Comment, v, b);
      DashesSnoc(v, b);
      CommentMoves(Dashes(v), b);
    }
  }

  /** A comment is entered and copied, and a `>` ends it if and only if the dashes before it, behind the
      opening, are two modulo three; else the comment goes on. */
  lemma {:induction false} CommentCopied(s: State, lead: nat, w: seq<byte>)
    requires (s == Text || s == TextWhitespace) && '>' !in w
    ensures var x := ['<'] + Spaces(lead) + ("!--" + (w + ['>']));
            Run(s, x) == Step(if Dashes(w) % 3 == 2 then Text else Comment, x)
  {
    hide Run, Dashes, Next;
    TagOpens(s, lead);
    BangMoves('-');
    RunByte(TagBangDash, '-');
    RunCons(TagBang, '-', ['-']);
    RunCons(Tag, '!', ['-'] + ['-']);
    assert "!--" == ['!'] + (['-'] + ['-']);
    CommentRuns(w);
    CommentCloses(Dashes(w));
    RunSnoc(Comment, w, '>');
    RunAppend(Tag, "!--", w + ['>']);
    RunAppend(s, ['<'] + Spaces(lead), "!--" + (w + ['>']));
  }

  lemma {:induction false} CommentCloses(d: nat)
    ensures Next(CommentState(d), '>') == Step(if d % 3 == 2 then Text else Comment, ['>'])
  {
  }

  // ---------- preformatted text ----------

  /** Bytes that begin like `</pre>`, in either case, but for the last of them. */
  predicate Missed(w: seq<byte>) {
    var k := |w| - 1;
    0 <= k < 6 && SameNoCase(w[..k], "</pre>"[..k]) && !SameNoCase(w, "</pre>"[..k + 1])
  }

  function PreState(k: nat): State
    requires k < 6
  {
    match k
    case 0 => Preformatted
    case 1 => PreformattedAngle
    case 2 => PreformattedAngleSlash
    case 3 => PreformattedAngleSlashP
    case 4 => PreformattedAngleSlashPr
    case _ => PreformattedAngleSlashPre
  }

  lemma {:induction false} PreMoves(k: nat, b: byte)
    requires k < 6
    ensures Next(PreState(k), b) ==
              Step(if Lower(b) != "</pre>"[k] then Preformatted else if k == 5 then Text else PreState(k + 1), [b])
  {
  }

  lemma {:induction false} PreMatches(w: seq<byte>)
    requires |w| <= 6 && SameNoCase(w, "</pre>"[..|w|])
    ensures Run(Preformatted, w) == Step(if |w| == 6 then Text else PreState(|w|), w)
    decreases |w|
  {
    hide Run, Next, PreState;
    if w == [] {
      RunNothing(Preformatted);
      PreNone();
    } else {
      var k := |w| - 1;
      var v, b := w[..k], w[k];
      assert w == v + [b];
      assert Lower(b) == Lower("</pre>"[..k + 1][k]);
      assert forall i :: 0 <= i < k ==> Lower(w[i]) == Lower("</pre>"[..k + 1][i]);
      PreMatches(v);
      PreMoves(k, b);
      RunSnoc(Preformatted, v, b);
    }
  }

  lemma {:induction false} MatchIff(w: seq<byte>, k: nat)
    requires k < |w| && k < 6
    ensures SameNoCase(w[..k + 1], "</pre>"[..k + 1]) <==>
              SameNoCase(w[..k], "</pre>"[..k]) && Lower(w[k]) == "</pre>"[k]
  {
    var a, b := w[..k + 1], "</pre>"[..k + 1];
    assert a[k] == w[k] && b[k] == "</pre>"[k];
    assert forall i :: 0 <= i < k ==> a[i] == w[..k][i] && b[i] == "</pre>"[..k][i];
  }

  lemma {:induction false} PreNone()
    ensures PreState(0) == Preformatted
  {
  }

  lemma {:induction false} PreMisses(w: seq<byte>)
    requires Missed(w)
    ensures Run(Preformatted, w) == Step(Preformatted, w)
  {
    hide Run, Next, PreState;
    var k := |w| - 1;
    var v, b := w[..k], w[k];
    assert w == v + [b];
    MatchIff(w, k);
    assert w[..k + 1] == w;
    PreMatches(v);
    PreMoves(k, b);
    RunSnoc(Preformatted, v, b);
  }

  lemma {:induction false} PiecesCopied(pieces: seq<seq<byte>>)
    requires forall i :: 0 <= i < |pieces| ==> Missed(pieces[i])
    ensures Run(Preformatted, Concat(pieces)) == Step(Preformatted, Concat(pieces))
    decreases |pieces|
  {
    hide Run, Missed;
    if pieces == [] {
      RunNothing(Preformatted);
    } else {
      PreMisses(pieces[0]);
      PiecesCopied(pieces[1..]);
      RunAppend(Preformatted, pieces[0], Concat(pieces[1..]));
    }
  }

  /** A `pre` block is entered and copied up to its end, in either case. A byte that fails the end's match
      is passed over with the match, so that `<</pre>` ends no block. */
  lemma {:induction false} PreCopied(s: State, lead: nat, name: seq<byte>, b: byte, pieces: seq<seq<byte>>,
                                      end: seq<byte>)
    requires (s == Text || s == TextWhitespace) && SameNoCase(name, "pre") && (b == ' ' || b == '>')
    requires (forall i :: 0 <= i < |pieces| ==> Missed(pieces[i])) && SameNoCase(end, "</pre>")
    ensures var x := ['<'] + Spaces(lead) + (name + ([b] + Concat(pieces)));
            Run(s, x) == Step(Preformatted, x) && Run(s, x + end) == Step(Text, x + end)
  {
    hide Run, Missed;
    TagOpens(s, lead);
    SameNoCaseIff(name, "pre");
    assert Solid(name) && NameOk(name);
    NameCopied(name);
    PiecesCopied(pieces);
    RunCons(TagNamePre, b, Concat(pieces));
    RunAppend(Tag, name, [b] + Concat(pieces));
    var x := ['<'] + Spaces(lead) + (name + ([b] + Concat(pieces)));
    RunAppend(s, ['<'] + Spaces(lead), name + ([b] + Concat(pieces)));
    assert "</pre>"[..6] == "</pre>";
    PreMatches(end);
    RunAppend(s, x, end);
  }

  /** Every text is such pieces and then the end of a block, or the beginning of one. */
  lemma {:induction false} PreReads(w: seq<byte>) returns (pieces: seq<seq<byte>>, rest: seq<byte>)
    ensures (forall i :: 0 <= i < |pieces| ==> Missed(pieces[i])) && w == Concat(pieces) + rest
    ensures var k := if |rest| < 6 then |rest| else 6;
            SameNoCase(rest[..k], "</pre>"[..k])
    decreases |w|
  {
    hide SameNoCase;
    var k := 0;
    SameNoCaseIff(w[..0], "</pre>"[..0]);
    while k < |w| && k < 6 && Lower(w[k]) == "</pre>"[k]
      invariant 0 <= k <= |w| && k <= 6 && SameNoCase(w[..k], "</pre>"[..k])
    {
      MatchIff(w, k);
      k := k + 1;
    }
    if k == |w| || k == 6 {
      pieces, rest := [], w;
    } else {
      MatchIff(w, k);
      var u := w[..k + 1];
      assert u[..k] == w[..k] && u[..k + 1] == u;
      var more;
      more, rest := PreReads(w[k + 1..]);
      pieces := [u] + more;
      assert pieces[1..] == more && w == u + w[k + 1..];
    }
  }

  // ---------- all that is dropped ----------

  /** An end tag has been opened, and nothing but spaces came since. */
  predicate EndOpened(u: seq<byte>) {
    var n := |u| - 1;
    u != [] && ((u[n] == '/' && Opens(u[..n])) || (u[n] == ' ' && EndOpened(u[..n])))
  }

  lemma {:induction false} DropMoves(s: State, b: byte)
    requires StripStreams.Reachable(s)
    ensures Next(s, b).out == [] <==>
              || (s == Text && b in {'\t', '\n', '\r'})
              || (s == TextWhitespace && b in {' ', '\t', '\n', '\r'})
              || ((s == TagWhitespace || s == EndTag) && b == ' ')
    ensures Next(s, b).st == TagWhitespace ==> b == ' '
    ensures Next(s, b).st == TextWhitespace ==> b == ' ' || (s == TextWhitespace && b in {'\t', '\n', '\r'})
    ensures Next(s, b).st == EndTag ==> (s == Tag && b == '/') || (s == EndTag && b == ' ')
  {
  }

  /** A space in the text, and nothing but white bytes since. */
  predicate Blanked(u: seq<byte>) {
    var n := |u| - 1;
    u != [] && (u[n] == ' ' || (u[n] in {'\t', '\n', '\r'} && Blanked(u[..n])))
  }

  /** Over every input: a byte is dropped if and only if it is white space of the text, a lone space aside, or
      a space directly behind a space of a tag outside its quotes, or a space behind `</` and spaces. */
  lemma {:induction false} DroppedIff(u: seq<byte>, b: byte)
    ensures var s := Run(Text, u).st;
            && (Run(Text, u + [b]).out == Run(Text, u).out <==>
                  || (s == Text && b in {'\t', '\n', '\r'})
                  || (s == TextWhitespace && b in {' ', '\t', '\n', '\r'})
                  || ((s == TagWhitespace || s == EndTag) && b == ' '))
            && (s == TextWhitespace ==> Blanked(u))
            && (s == TagWhitespace ==> u != [] && u[|u| - 1] == ' ')
            && (s == EndTag ==> EndOpened(u))
    decreases |u|
  {
    hide Next, Run, Opens, History, StripStreams.Reachable;
    RunHistory(u);
    DropMoves(Run(Text, u).st, b);
    RunSnoc(Text, u, b);
    if u == [] {
      RunNothing(Text);
    } else {
      var v, c := u[..|u| - 1], u[|u| - 1];
      assert u == v + [c];
      RunHistory(v);
      DroppedIff(v, b);
      DropMoves(Run(Text, v).st, c);
      RunSnoc(Text, v, c);
      TagRemembers(v);
    }
  }

  lemma {:induction false} TagRemembers(u: seq<byte>)
    ensures History(Tag, u) ==> Opens(u)
  {
    hide Opens;
  }
}
