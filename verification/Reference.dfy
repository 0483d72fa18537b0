/** The reference for the CSS and JavaScript minifiers: split the text into tokens and delete the
    comments.

    The lexical rules are the program's own (`/x` is one token whatever `x` is, JavaScript treats
    `[...]` as a string and knows no regular expressions); they approximate section 4.1.9 of
    CSS 2.1 and section 7.4 of ECMA-262 5.1. */
module Reference {
  import opened Bytes
  import opened Thinning

  datatype Rules = CssRules | JsRules

  datatype Part = Chr(b: byte) | Esc(b: byte)

  datatype Token =
    | Byte(b: byte)
    | Pair(b: byte)
    | Str(q: byte, body: seq<Part>)
    | Note(text: seq<byte>)
    | Line(text: seq<byte>)

  predicate IsQuote(r: Rules, b: byte) {
    b == '"' || b == '\'' || (r == JsRules && b == '[')
  }

  function Closer(q: byte): byte {
    if q == '[' then ']' else q
  }

  predicate PartOk(q: byte, p: Part) {
    p.Chr? ==> p.b != Closer(q) && p.b != '\\'
  }

  ghost predicate TokenOk(r: Rules, t: Token) {
    match t
    case Byte(b) => b != '/' && !IsQuote(r, b)
    case Pair(b) => b != '*' && (r == JsRules ==> b != '/')
    case Str(q, body) => IsQuote(r, q) && forall i :: 0 <= i < |body| ==> PartOk(q, body[i])
    case Note(text) => Lacks(text, '*', '/')
    case Line(text) => r == JsRules && '\n' !in text
  }

  function SpellParts(body: seq<Part>): seq<byte> {
    if body == [] then [] else SpellParts(body[..|body| - 1]) + SpellPart(body[|body| - 1])
  }

  function SpellPart(p: Part): seq<byte> {
    if p.Chr? then [p.b] else ['\\', p.b]
  }

  function Spell(t: Token): seq<byte> {
    match t
    case Byte(b) => [b]
    case Pair(b) => ['/', b]
    case Str(q, body) => [q] + SpellParts(body) + [Closer(q)]
    case Note(text) => "/*" + text + "*/"
    case Line(text) => "//" + text + "\n"
  }

  function Hard(w: seq<byte>): seq<Item> {
    seq(|w|, i requires 0 <= i < |w| => Item(w[i], false))
  }

  /** What is left of a token: a comment vanishes, a line comment becomes a space, a lone white
      byte is soft, all else is kept. */
  function Meaning(t: Token): seq<Item> {
    match t
    case Byte(b) => [Item(b, White(b))]
    case Note(_) => []
    case Line(_) => [Item(' ', false)]
    case _ => Hard(Spell(t))
  }

  /** The unfinished end of a text. */
  datatype Tail =
    | Done
    | HalfPair
    | OpenStr(q: byte, body: seq<Part>, escape: bool)
    | OpenNote(text: seq<byte>)
    | OpenLine(text: seq<byte>)

  ghost predicate TailOk(r: Rules, t: Tail) {
    match t
    case OpenStr(q, body, _) => IsQuote(r, q) && forall i :: 0 <= i < |body| ==> PartOk(q, body[i])
    case OpenNote(text) => Lacks(text, '*', '/')
    case OpenLine(text) => r == JsRules && '\n' !in text
    case _ => true
  }

  function SpellTail(t: Tail): seq<byte> {
    match t
    case Done => []
    case HalfPair => ['/']
    case OpenStr(q, body, escape) => [q] + SpellParts(body) + if escape then ['\\'] else []
    case OpenNote(text) => "/*" + text
    case OpenLine(text) => "//" + text
  }

  function TailMeaning(t: Tail): seq<Item> {
    match t
    case OpenStr(q, body, _) => Hard([q] + SpellParts(body))
    case _ => []
  }

  /** The byte that a buffer's end leaves undecided. */
  function TailCarry(t: Tail): seq<byte> {
    match t
    case HalfPair => ['/']
    case OpenStr(_, _, true) => ['\\']
    case OpenNote(text) => if text != [] && text[|text| - 1] == '*' then ['*'] else []
    case _ => []
  }

  datatype Text = Text(tokens: seq<Token>, tail: Tail)

  ghost predicate TextOk(r: Rules, x: Text) {
    TailOk(r, x.tail) && forall i :: 0 <= i < |x.tokens| ==> TokenOk(r, x.tokens[i])
  }

  function SpellAll(ts: seq<Token>): seq<byte> {
    if ts == [] then [] else SpellAll(ts[..|ts| - 1]) + Spell(ts[|ts| - 1])
  }

  function MeaningAll(ts: seq<Token>): seq<Item> {
    if ts == [] then [] else MeaningAll(ts[..|ts| - 1]) + Meaning(ts[|ts| - 1])
  }

  function Spelling(x: Text): seq<byte> {
    SpellAll(x.tokens) + SpellTail(x.tail)
  }

  /** The uncommented text, less the undecided byte at its end. */
  function Uncommented(x: Text): seq<Item> {
    MeaningAll(x.tokens) + TailMeaning(x.tail)
  }

  /** One more byte. */
  function Extend(r: Rules, x: Text, b: byte): Text {
    match x.tail
    case Done =>
      if b == '/' then x.(tail := HalfPair)
      else if IsQuote(r, b) then x.(tail := OpenStr(b, [], false))
      else Text(x.tokens + [Byte(b)], Done)
    case HalfPair =>
      if b == '*' then x.(tail := OpenNote([]))
      else if r == JsRules && b == '/' then x.(tail := OpenLine([]))
      else Text(x.tokens + [Pair(b)], Done)
    case OpenStr(q, body, true) => x.(tail := OpenStr(q, body + [Esc(b)], false))
    case OpenStr(q, body, false) =>
      if b == '\\' then x.(tail := OpenStr(q, body, true))
      else if b == Closer(q) then Text(x.tokens + [Str(q, body)], Done)
      else x.(tail := OpenStr(q, body + [Chr(b)], false))
    case OpenNote(text) =>
      if b == '/' && text != [] && text[|text| - 1] == '*'
      then Text(x.tokens + [Note(text[..|text| - 1])], Done)
      else x.(tail := OpenNote(text + [b]))
    case OpenLine(text) =>
      if b == '\n' then Text(x.tokens + [Line(text)], Done) else x.(tail := OpenLine(text + [b]))
  }

  /** The tokens of a text. */
  function Parse(r: Rules, w: seq<byte>): Text {
    if w == [] then Text([], Done) else Extend(r, Parse(r, w[..|w| - 1]), w[|w| - 1])
  }

  lemma {:induction false} PartsSnoc(body: seq<Part>, p: Part)
    ensures SpellParts(body + [p]) == SpellParts(body) + SpellPart(p)
  {
    assert (body + [p])[..|body|] == body;
  }

  lemma {:induction false} HardAppend(a: seq<byte>, b: seq<byte>)
    ensures Hard(a + b) == Hard(a) + Hard(b)
  {
  }

  lemma {:induction false} TokensSnoc(ts: seq<Token>, t: Token)
    ensures SpellAll(ts + [t]) == SpellAll(ts) + Spell(t)
    ensures MeaningAll(ts + [t]) == MeaningAll(ts) + Meaning(t)
  {
    assert (ts + [t])[..|ts|] == ts;
  }

  lemma {:induction false} ParseSnoc(r: Rules, w: seq<byte>, b: byte)
    ensures Parse(r, w + [b]) == Extend(r, Parse(r, w), b)
  {
    assert (w + [b])[..|w|] == w;
  }

  /** What `b` adds to the uncommented text. */
  function Gain(r: Rules, x: Text, b: byte): seq<Item> {
    match x.tail
    case Done => if b == '/' then [] else [Item(b, White(b))]
    case HalfPair => if b == '*' || (r == JsRules && b == '/') then [] else Hard(['/', b])
    case OpenStr(_, _, true) => Hard(['\\', b])
    case OpenStr(_, _, false) => if b == '\\' then [] else Hard([b])
    case OpenNote(_) => []
    case OpenLine(_) => if b == '\n' then [Item(' ', false)] else []
  }

  lemma {:induction false} Rejoin<T>(a: seq<T>, t: seq<T>, s: seq<T>, g: seq<T>)
    requires t == s + g
    ensures (a + t) + [] == (a + s) + g
  {
  }

  lemma {:induction false} TextIs(x: Text)
    ensures Spelling(x) == SpellAll(x.tokens) + SpellTail(x.tail)
    ensures Uncommented(x) == MeaningAll(x.tokens) + TailMeaning(x.tail)
    ensures SpellTail(Done) == [] && TailMeaning(Done) == []
  {
  }

  /** A byte that finishes a token. */
  lemma {:induction false} Finishes(r: Rules, x: Text, t: Token, b: byte)
    requires Spell(t) == SpellTail(x.tail) + [b]
    requires Meaning(t) == TailMeaning(x.tail) + Gain(r, x, b)
    ensures var x' := Text(x.tokens + [t], Done);
            Spelling(x') == Spelling(x) + [b] && Uncommented(x') == Uncommented(x) + Gain(r, x, b)
  {
    hide *;
    TokensSnoc(x.tokens, t);
    TextIs(x);
    TextIs(Text(x.tokens + [t], Done));
    Rejoin(SpellAll(x.tokens), Spell(t), SpellTail(x.tail), [b]);
    Rejoin(MeaningAll(x.tokens), Meaning(t), TailMeaning(x.tail), Gain(r, x, b));
  }

  /** A byte that does not. */
  lemma {:induction false} GoesOn(r: Rules, x: Text, tail: Tail, b: byte)
    requires SpellTail(tail) == SpellTail(x.tail) + [b]
    requires TailMeaning(tail) == TailMeaning(x.tail) + Gain(r, x, b)
    ensures var x' := x.(tail := tail);
            Spelling(x') == Spelling(x) + [b] && Uncommented(x') == Uncommented(x) + Gain(r, x, b)
  {
  }

  lemma {:induction false} ExtendString(r: Rules, x: Text, b: byte)
    requires TextOk(r, x) && x.tail.OpenStr?
    ensures var x' := Extend(r, x, b);
            && TextOk(r, x') && Spelling(x') == Spelling(x) + [b]
            && Uncommented(x') == Uncommented(x) + Gain(r, x, b)
  {
    hide Spelling, Uncommented;
    var OpenStr(q, body, escape) := x.tail;
    if escape || (b != '\\' && b != Closer(q)) {
      ExtendBody(r, x, if escape then Esc(b) else Chr(b));
    } else if b == '\\' {
      GoesOn(r, x, OpenStr(q, body, true), b);
    } else {
      Finishes(r, x, Str(q, body), b);
    }
  }

  lemma {:induction false} ExtendBody(r: Rules, x: Text, p: Part)
    requires TextOk(r, x) && x.tail.OpenStr? && PartOk(x.tail.q, p) && p.Esc? == x.tail.escape
    ensures var x' := Extend(r, x, p.b);
            && x' == x.(tail := OpenStr(x.tail.q, x.tail.body + [p], false)) && TextOk(r, x')
            && Spelling(x') == Spelling(x) + [p.b]
            && Uncommented(x') == Uncommented(x) + Gain(r, x, p.b)
  {
    hide Spelling, Uncommented, Hard, SpellParts;
    var OpenStr(q, body, escape) := x.tail;
    PartsSnoc(body, p);
    assert [q] + SpellParts(body + [p]) == [q] + SpellParts(body) + SpellPart(p);
    HardAppend([q] + SpellParts(body), SpellPart(p));
    GoesOn(r, x, OpenStr(x.tail.q, x.tail.body + [p], false), p.b);
  }

  lemma {:induction false} ExtendNote(r: Rules, x: Text, b: byte)
    requires TextOk(r, x) && x.tail.OpenNote?
    ensures var x' := Extend(r, x, b);
            && TextOk(r, x') && Spelling(x') == Spelling(x) + [b]
            && Uncommented(x') == Uncommented(x) + Gain(r, x, b)
  {
    hide Spelling, Uncommented;
    var text := x.tail.text;
    var x' := Extend(r, x, b);
    if x'.tail.Done? {
      assert text == text[..|text| - 1] + ['*'];
      assert Spell(Note(text[..|text| - 1])) == SpellTail(x.tail) + [b];
      Finishes(r, x, Note(text[..|text| - 1]), b);
    } else {
      assert SpellTail(x'.tail) == SpellTail(x.tail) + [b];
      GoesOn(r, x, x'.tail, b);
    }
  }

  lemma {:induction false} ExtendLine(r: Rules, x: Text, b: byte)
    requires TextOk(r, x) && x.tail.OpenLine?
    ensures var x' := Extend(r, x, b);
            && TextOk(r, x') && Spelling(x') == Spelling(x) + [b]
            && Uncommented(x') == Uncommented(x) + Gain(r, x, b)
  {
    hide Spelling, Uncommented;
    var text := x.tail.text;
    if b == '\n' {
      assert Spell(Line(text)) == SpellTail(x.tail) + [b];
      Finishes(r, x, Line(text), b);
    } else {
      assert SpellTail(OpenLine(text + [b])) == SpellTail(x.tail) + [b];
      GoesOn(r, x, OpenLine(text + [b]), b);
    }
  }

  lemma {:induction false} ExtendOk(r: Rules, x: Text, b: byte)
    requires TextOk(r, x)
    ensures var x' := Extend(r, x, b);
            && TextOk(r, x') && Spelling(x') == Spelling(x) + [b]
            && Uncommented(x') == Uncommented(x) + Gain(r, x, b)
  {
    hide Spelling, Uncommented;
    match x.tail {
      case OpenStr(_, _, _) => ExtendString(r, x, b);
      case OpenNote(_) => ExtendNote(r, x, b);
      case OpenLine(_) => ExtendLine(r, x, b);
      case Done =>
        if b == '/' || IsQuote(r, b) {
          GoesOn(r, x, Extend(r, x, b).tail, b);
        } else {
          Finishes(r, x, Byte(b), b);
        }
      case HalfPair =>
        if b == '*' || (r == JsRules && b == '/') {
          GoesOn(r, x, Extend(r, x, b).tail, b);
        } else {
          Finishes(r, x, Pair(b), b);
        }
    }
  }

  lemma {:induction false} ParseOk(r: Rules, v: seq<byte>, b: byte)
    requires TextOk(r, Parse(r, v)) && Spelling(Parse(r, v)) == v
    ensures TextOk(r, Parse(r, v + [b])) && Spelling(Parse(r, v + [b])) == v + [b]
    ensures Uncommented(Parse(r, v + [b])) == Uncommented(Parse(r, v)) + Gain(r, Parse(r, v), b)
  {
    ParseSnoc(r, v, b);
    hide Parse, TextOk, Extend, Spelling, Uncommented;
    ExtendOk(r, Parse(r, v), b);
  }

  lemma {:induction false} ParseNothing(r: Rules)
    ensures TextOk(r, Parse(r, [])) && Spelling(Parse(r, [])) == [] && Uncommented(Parse(r, [])) == []
  {
  }

  /** Every text is a sequence of tokens and one unfinished end. */
  lemma {:induction false} ParseSpells(r: Rules, w: seq<byte>)
    ensures TextOk(r, Parse(r, w)) && Spelling(Parse(r, w)) == w
    decreases |w|
  {
    hide Parse, TextOk, Spelling;
    if w == [] {
      ParseNothing(r);
    } else {
      var v, b := w[..|w| - 1], w[|w| - 1];
      ParseSpells(r, v);
      ParseOk(r, v, b);
      assert w == v + [b];
    }
  }

  lemma {:induction false} SoftTokens(ts: seq<Token>)
    ensures SoftIsWhite(MeaningAll(ts))
    decreases |ts|
  {
    if ts != [] {
      SoftTokens(ts[..|ts| - 1]);
      assert SoftIsWhite(Meaning(ts[|ts| - 1]));
    }
  }

  lemma {:induction false} SoftItems(x: Text)
    ensures SoftIsWhite(Uncommented(x))
  {
    SoftTokens(x.tokens);
    assert SoftIsWhite(TailMeaning(x.tail));
  }

  // ---------- the tokens of a text are unique ----------

  lemma {:induction false} ParseOpenString(r: Rules, ts: seq<Token>, q: byte, body: seq<Part>, escape: bool)
    requires Parse(r, SpellAll(ts)) == Text(ts, Done) && TailOk(r, OpenStr(q, body, escape))
    ensures Parse(r, SpellAll(ts) + SpellTail(OpenStr(q, body, escape))) == Text(ts, OpenStr(q, body, escape))
    decreases |body|, escape
  {
    hide Parse, SpellAll;
    var w, tail := SpellAll(ts), OpenStr(q, body, escape);
    if escape {
      ParseOpenString(r, ts, q, body, false);
      ParseLast(r, w, SpellTail(OpenStr(q, body, false)), '\\', SpellTail(tail));
    } else if body == [] {
      ParseSnoc(r, w, q);
      assert SpellTail(tail) == [q];
    } else {
      var rest, p := body[..|body| - 1], body[|body| - 1];
      assert PartOk(q, p) && rest + [p] == body;
      ParseOpenString(r, ts, q, rest, p.Esc?);
      ParseLast(r, w, SpellTail(OpenStr(q, rest, p.Esc?)), p.b, SpellTail(tail));
    }
  }

  lemma {:induction false} ParseOpenNote(r: Rules, ts: seq<Token>, text: seq<byte>)
    requires Parse(r, SpellAll(ts)) == Text(ts, Done) && Lacks(text, '*', '/')
    ensures Parse(r, SpellAll(ts) + SpellTail(OpenNote(text))) == Text(ts, OpenNote(text))
    decreases |text|
  {
    hide Parse, SpellAll;
    var w := SpellAll(ts);
    if text == [] {
      ParseSnoc(r, w, '/');
      ParseLast(r, w, ['/'], '*', SpellTail(OpenNote(text)));
    } else {
      var rest, b := text[..|text| - 1], text[|text| - 1];
      assert rest + [b] == text;
      ParseOpenNote(r, ts, rest);
      ParseLast(r, w, SpellTail(OpenNote(rest)), b, SpellTail(OpenNote(text)));
    }
  }

  lemma {:induction false} ParseOpenLine(ts: seq<Token>, text: seq<byte>)
    requires Parse(JsRules, SpellAll(ts)) == Text(ts, Done) && '\n' !in text
    ensures Parse(JsRules, SpellAll(ts) + SpellTail(OpenLine(text))) == Text(ts, OpenLine(text))
    decreases |text|
  {
    hide Parse, SpellAll;
    var w := SpellAll(ts);
    if text == [] {
      ParseSnoc(JsRules, w, '/');
      ParseLast(JsRules, w, ['/'], '/', SpellTail(OpenLine(text)));
    } else {
      var rest, b := text[..|text| - 1], text[|text| - 1];
      assert rest + [b] == text;
      ParseOpenLine(ts, rest);
      ParseLast(JsRules, w, SpellTail(OpenLine(rest)), b, SpellTail(OpenLine(text)));
    }
  }

  /** An unfinished end is parsed as itself. */
  lemma {:induction false} ParseTail(r: Rules, ts: seq<Token>, tail: Tail)
    requires Parse(r, SpellAll(ts)) == Text(ts, Done) && TailOk(r, tail)
    ensures Parse(r, SpellAll(ts) + SpellTail(tail)) == Text(ts, tail)
  {
    hide Parse, SpellAll;
    match tail {
      case Done => assert SpellAll(ts) + [] == SpellAll(ts);
      case HalfPair => ParseSnoc(r, SpellAll(ts), '/');
      case OpenStr(q, body, escape) => ParseOpenString(r, ts, q, body, escape);
      case OpenNote(text) => ParseOpenNote(r, ts, text);
      case OpenLine(text) => ParseOpenLine(ts, text);
    }
  }

  lemma {:induction false} ParseLast(r: Rules, w: seq<byte>, v: seq<byte>, b: byte, v': seq<byte>)
    requires v' == v + [b]
    ensures Parse(r, w + v') == Extend(r, Parse(r, w + v), b)
  {
    assert w + v' == (w + v) + [b];
    ParseSnoc(r, w + v, b);
  }

  /** The unfinished token before its last byte. */
  function Before(t: Token): Tail {
    match t
    case Byte(_) => Done
    case Pair(_) => HalfPair
    case Str(q, body) => OpenStr(q, body, false)
    case Note(text) => OpenNote(text + ['*'])
    case Line(text) => OpenLine(text)
  }

  /** Its last byte finishes a token. */
  lemma {:induction false} LastByte(r: Rules, ts: seq<Token>, t: Token)
    requires TokenOk(r, t)
    ensures var b := Spell(t)[|Spell(t)| - 1];
            && TailOk(r, Before(t)) && Spell(t) == SpellTail(Before(t)) + [b]
            && Extend(r, Text(ts, Before(t)), b) == Text(ts + [t], Done)
  {
    hide SpellParts;
    if t.Note? {
      assert (t.text + ['*'])[..|t.text|] == t.text;
      assert Spell(t) == SpellTail(Before(t)) + ['/'];
    } else if t.Line? {
      assert Spell(t) == SpellTail(Before(t)) + ['\n'];
    }
  }

  lemma {:induction false} ParseToken(r: Rules, ts: seq<Token>, t: Token)
    requires Parse(r, SpellAll(ts)) == Text(ts, Done) && TokenOk(r, t)
    ensures Parse(r, SpellAll(ts + [t])) == Text(ts + [t], Done)
  {
    hide Parse, SpellAll, Spell, SpellTail, Extend, TailOk;
    LastByte(r, ts, t);
    TokensSnoc(ts, t);
    ParseTail(r, ts, Before(t));
    ParseLast(r, SpellAll(ts), SpellTail(Before(t)), Spell(t)[|Spell(t)| - 1], Spell(t));
  }

  lemma {:induction false} ParseTokens(r: Rules, ts: seq<Token>)
    requires forall i :: 0 <= i < |ts| ==> TokenOk(r, ts[i])
    ensures Parse(r, SpellAll(ts)) == Text(ts, Done)
    decreases |ts|
  {
    if ts != [] {
      hide Parse, SpellAll;
      var rest, t := ts[..|ts| - 1], ts[|ts| - 1];
      assert TokenOk(r, t) && rest + [t] == ts;
      ParseTokens(r, rest);
      ParseToken(r, rest, t);
    }
  }

  /** Parsing undoes spelling: the split into tokens is the only one. */
  lemma {:induction false} ParseInverts(r: Rules, x: Text)
    requires TextOk(r, x)
    ensures Parse(r, Spelling(x)) == x
  {
    ParseTokens(r, x.tokens);
    ParseTail(r, x.tokens, x.tail);
  }
}
