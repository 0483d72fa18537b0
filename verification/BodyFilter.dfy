/** The body filter: every buffer of a chain is put behind the carry and minified in place. */
module BodyFilter {
  import opened Bytes
  import opened Buffers
  import opened MinifyContext
  import opened Thinning
  import R = Reference
  import CM = CssMachine
  import CS = CssStreams
  import Css = CssMinify
  import JM = JsMachine
  import JS = JsStreams
  import Js = JsMinify
  import HM = HtmlMachine
  import HS = HtmlStreams
  import HC = HtmlCuts
  import HL = HtmlLexing
  import X = HtmlReference
  import HP = HtmlPlain
  import Html = HtmlMinify

  datatype Machine = CssM(css: CM.Css) | JsM(js: JM.Js) | HtmlM(html: HM.Html)

  datatype Fed = Fed(m: Machine, out: seq<byte>)

  function Start(t: FileType): Machine {
    match t
    case CssFile => CssM(CM.START)
    case JsFile => JsM(JM.START)
    case HtmlFile => HtmlM(HM.START)
  }

  predicate Steady(m: Machine) {
    m.HtmlM? ==> HS.AtEnd(m.html)
  }

  ghost predicate Sound(m: Machine) {
    match m
    case CssM(s) => CS.Reachable(s)
    case JsM(s) => true
    case HtmlM(s) => HS.AtEnd(s)
  }

  /** One buffer. */
  function Feed(m: Machine, w: seq<byte>): (f: Fed)
    requires Steady(m)
    ensures Steady(f.m)
  {
    match m
    case CssM(s) => var t := CM.Chunk(s, w); Fed(CssM(t.st), t.out)
    case JsM(s) => var t := JM.Chunk(s, w); Fed(JsM(t.st), t.out)
    case HtmlM(s) => var t := HS.Chunk(s, w); Fed(HtmlM(t.st), t.out)
  }

  datatype Chain = Chain(m: Machine, outs: seq<seq<byte>>)

  /** The buffers of a chain, one by one. */
  function FeedAll(m: Machine, chunks: seq<seq<byte>>): (c: Chain)
    requires Steady(m)
    ensures |c.outs| == |chunks| && Steady(c.m)
    decreases |chunks|
  {
    if chunks == [] then Chain(m, [])
    else
      var f := Feed(m, chunks[0]);
      var c := FeedAll(f.m, chunks[1..]);
      c.(outs := [f.out] + c.outs)
  }

  /** HTML tag names and the text of closing tags stay shorter than the caches of the context. */
  ghost predicate ShortNames(m: Machine, chunks: seq<seq<byte>>)
    requires Steady(m)
  {
    m.HtmlM? ==> HS.ChunksFit(m.html, chunks)
  }

  // ---------- a context between buffers ----------

  ghost function MachineOf(t: FileType, v: Live): Machine {
    match t
    case CssFile => CssM(Css.Abs(v))
    case JsFile => JsM(Js.Abs(v))
    case HtmlFile => HtmlM(Html.Abs(v))
  }

  ghost predicate Between(t: FileType, v: Live) {
    && v.rest == [] && Sound(MachineOf(t, v))
    && match t
       case CssFile => Css.Ok(v) && Css.Synced(v)
       case JsFile => Js.Ok(v)
       case HtmlFile => Html.Main(v)
  }

  lemma {:induction false} FreshContext(t: FileType, v: Live)
    requires v.stack == [Text] && v.rest == v.out == v.cache == [] && v.pre == v.quote == '\0'
    requires !v.nochange && |v.tag| == |v.end| == CTX_CACHE_BUFLEN && v.tagLen == v.endLen == 0
    ensures Between(t, v) && MachineOf(t, v) == Start(t)
  {
  }

  ghost function Uncached(v: Live): (v': Live)
    ensures v'.View?
  {
    v.(cache := [])
  }

  /** The carry is taken out of the context; in front of the bytes it stands for the pending mode. */
  lemma {:induction false} CssTaken(v: Live, w: seq<byte>)
    requires Between(CssFile, v)
    ensures var v' := Uncached(v); Css.Ok(v') && Css.Synced(v') && v'.cache == []
    ensures CM.Buffer(Css.Abs(Uncached(v).(out := [])), v.cache + w) == CM.Chunk(Css.Abs(v), w)
  {
    assert Css.Abs(v.(cache := [], out := [])) == CM.Uncarried(Css.Abs(v).(last := None));
  }

  lemma {:induction false} JsTaken(v: Live, w: seq<byte>)
    requires Between(JsFile, v)
    ensures Js.Ok(Uncached(v)) && Uncached(v).cache == []
    ensures JM.Run(JM.Enter(Js.Abs(Uncached(v))), v.cache + w) == JM.Chunk(Js.Abs(v), w)
  {
    assert JM.Enter(Js.Abs(Uncached(v))) == JM.Uncarried(JM.Enter(Js.Abs(v)));
  }

  lemma {:induction false} HtmlTaken(v: Live, w: seq<byte>)
    requires Between(HtmlFile, v) && HS.ChunksFit(Html.Abs(v), [w])
    ensures var s := Html.Begun(Html.Abs(Uncached(v)));
            && Html.Framed(Uncached(v)) && Uncached(v).cache == []
            && HM.Reachable(s, v.cache + w) && HM.Fits(s, v.cache + w)
            && HM.Run(s, v.cache + w) == HS.Chunk(Html.Abs(v), w)
  {
    HS.Opens(Html.Abs(v), w);
    assert Html.Begun(Html.Abs(Uncached(v))) == HS.Open(Html.Abs(v));
    assert [w][0] == w;
  }

  // ---------- the filter ----------

  /** Put the carry in front of the buffer's bytes, in a new array. */
  method Prepend(b: Buf, ctx: Context)
    requires b.Valid() && ctx.V().View?
    modifies b, ctx`cachelen
    ensures b.Valid() && fresh(b.data)
    ensures b.Bytes() == old(ctx.V().cache + b.Bytes())
    ensures ctx.V() == Uncached(old(ctx.V()))
  {
    ghost var bytes := b.Bytes();
    var newbuf := new byte[ctx.cachelen + b.last];
    forall i | 0 <= i < ctx.cachelen {
      newbuf[i] := ctx.cache[i];
    }
    forall i | 0 <= i < b.last {
      newbuf[ctx.cachelen + i] := b.data[i];
    }
    assert newbuf[..] == old(ctx.V()).cache + bytes;
    b.last := newbuf.Length;
    b.data := newbuf;
    ctx.cachelen := 0;
    assert b.data[..b.last] == newbuf[..];
    assert ctx.cache[..0] == [];
  }

  ghost function Now(ctx: Context): Machine
    requires ctx.V().View?
    reads ctx, ctx.state, ctx.cache, ctx.tagcache, ctx.tagendcache, ctx.src, ctx.dst
  {
    MachineOf(ctx.fileType, ctx.V())
  }

  /** The minifier of the context's file type, in place. */
  method Process(b: Buf, ctx: Context, ghost v: Live, ghost w: seq<byte>)
    requires b.Valid() && ctx.Apart(b.data)
    requires Between(ctx.fileType, v) && ShortNames(MachineOf(ctx.fileType, v), [w])
    requires ctx.V() == Uncached(v) && b.Bytes() == v.cache + w
    modifies b`last, b.data, ctx, ctx.state, ctx.cache, ctx.tagcache, ctx.tagendcache
    ensures b.Valid() && ctx.V().View? && Between(ctx.fileType, ctx.V())
    ensures Fed(Now(ctx), b.Bytes()) == Feed(MachineOf(ctx.fileType, v), w)
    ensures ctx.dst == b.data && ctx.src == b.data
  {
    hide Context.V, Css.Abs, Js.Abs, Html.Abs, Css.Ok, Js.Ok, Html.Main, Css.Synced, Html.Framed,
      CM.Buffer, CM.Chunk, JM.Run, JM.Chunk, HM.Run, HS.Chunk, HM.Reachable, HM.Fits, Uncached, CS.Reachable;
    match ctx.fileType {
      case CssFile =>
        CssTaken(v, w);
        CS.ChunkEnters(Css.Abs(v), w);
        Css.StripBuffer(b.data, b.last, b.data, ctx);
      case JsFile =>
        JsTaken(v, w);
        Js.StripBuffer(b.data, b.last, b.data, ctx);
      case HtmlFile =>
        HtmlTaken(v, w);
        Html.StripBuffer(b.data, b.last, b.data, ctx);
    }
    ctx.Written();
    b.last := ctx.Dstlen();
  }

  /** One turn of the filter's loop. */
  method OneBuffer(b: Buf, ctx: Context)
    requires b.Valid() && ctx.Apart(b.data) && ctx.V().View?
    requires Between(ctx.fileType, ctx.V()) && ShortNames(Now(ctx), [b.Bytes()])
    modifies b, b.data, ctx, ctx.state, ctx.cache, ctx.tagcache, ctx.tagendcache
    ensures b.Valid() && ctx.V().View? && Between(ctx.fileType, ctx.V())
    ensures b.data == old(b.data) || fresh(b.data)
    ensures Fed(Now(ctx), b.Bytes()) == Feed(old(Now(ctx)), old(b.Bytes()))
    ensures ctx.dst == b.data && ctx.src == b.data && Steady(Now(ctx))
  {
    hide Context.V, Between, ShortNames, MachineOf, Feed;
    ghost var v: Live := ctx.V();
    ghost var w := b.Bytes();
    if ctx.CacheLen() != 0 {
      Prepend(b, ctx);
    } else {
      assert v.cache + w == w;
      NothingCached(v);
    }
    Process(b, ctx, v, w);
    BetweenSteady(ctx);
  }

  lemma {:induction false} BetweenSteady(ctx: Context)
    requires ctx.V().View? && Between(ctx.fileType, ctx.V())
    ensures Steady(Now(ctx))
  {
  }

  lemma {:induction false} NothingCached(v: Live)
    requires v.cache == []
    ensures Uncached(v) == v
  {
  }

  /** The buffers of a chain and their arrays are all different. */
  ghost predicate Separate(chain: seq<Buf>)
    reads set i | 0 <= i < |chain| :: chain[i]
  {
    && (forall i, j :: 0 <= i < j < |chain| ==> chain[i] != chain[j])
    && (forall i, j :: 0 <= i < j < |chain| ==> chain[i].data != chain[j].data)
  }

  lemma {:induction false} FeedOne(m: Machine, chunks: seq<seq<byte>>)
    requires chunks != [] && Steady(m) && ShortNames(m, chunks)
    ensures ShortNames(m, [chunks[0]])
    ensures var f := Feed(m, chunks[0]);
            var c := FeedAll(f.m, chunks[1..]);
            && ShortNames(f.m, chunks[1..])
            && FeedAll(m, chunks) == Chain(c.m, [f.out] + c.outs)
  {
    if m.HtmlM? {
      assert [chunks[0]][0] == chunks[0];
    }
  }

  /** Buffer by buffer: the array, which is none of the context's, and the bytes. */
  ghost predicate Holds(chain: seq<Buf>, ctx: Context, arrays: seq<array<byte>>, texts: seq<seq<byte>>)
    reads chain, arrays
  {
    && |chain| == |arrays| == |texts|
    && forall i :: 0 <= i < |chain| ==>
         && chain[i].data == arrays[i] && ctx.Apart(arrays[i])
         && chain[i].Valid() && chain[i].Bytes() == texts[i]
  }

  lemma {:induction false} Arrays(chain: seq<Buf>, ctx: Context, texts: seq<seq<byte>>) returns (arrays: seq<array<byte>>)
    requires Separate(chain) && |texts| == |chain|
    requires forall i :: 0 <= i < |chain| ==>
               chain[i].Valid() && ctx.Apart(chain[i].data) && chain[i].Bytes() == texts[i]
    ensures Distinct(chain) && Distinct(arrays) && Holds(chain, ctx, arrays, texts)
    ensures |arrays| == |chain| && forall i :: 0 <= i < |chain| ==> arrays[i] == chain[i].data
  {
    if chain == [] {
      arrays := [];
    } else {
      var k := |chain| - 1;
      var rest := Arrays(chain[..k], ctx, texts[..k]);
      arrays := rest + [chain[k].data];
    }
  }

  lemma {:induction false} HeldBy(chain: seq<Buf>, ctx: Context, arrays: seq<array<byte>>, texts: seq<seq<byte>>)
    requires Holds(chain, ctx, arrays, texts)
    ensures |texts| == |chain| && forall i :: 0 <= i < |chain| ==> chain[i].Valid() && chain[i].Bytes() == texts[i]
  {
  }

  /** One turn of the filter's loop, seen from the whole chain. */
  method Turn(chain: seq<Buf>, k: nat, ctx: Context, ghost arrays: seq<array<byte>>, ghost texts: seq<seq<byte>>)
    returns (ghost arrays': seq<array<byte>>)
    requires k < |chain| && Distinct(chain) && Distinct(arrays) && Holds(chain, ctx, arrays, texts)
    requires ctx.V().View? && Between(ctx.fileType, ctx.V()) && ShortNames(Now(ctx), [texts[k]])
    modifies chain[k], arrays[k], ctx, ctx.state, ctx.cache, ctx.tagcache, ctx.tagendcache
    ensures ctx.V().View? && Between(ctx.fileType, ctx.V()) && Steady(Now(ctx))
    ensures var f := Feed(old(Now(ctx)), texts[k]);
            Now(ctx) == f.m && Holds(chain, ctx, arrays', texts[k := f.out])
    ensures |arrays'| == |arrays| && Distinct(arrays')
    ensures forall i :: 0 <= i < |arrays| && i != k ==> arrays'[i] == arrays[i]
  {
    hide Context.V, Between, ShortNames, MachineOf, Feed, Steady, Now, Buf.Bytes, Buf.Valid;
    OneBuffer(chain[k], ctx);
    arrays' := arrays[k := chain[k].data];
  }

  /** The machine `m` has taken `k` of the buffers; `texts` is what the buffers hold, `all` what they will. */
  ghost predicate HasTaken(m: Machine, chunks: seq<seq<byte>>, k: nat, texts: seq<seq<byte>>, all: Chain) {
    && k <= |chunks| == |all.outs| && Steady(m) && ShortNames(m, chunks[k..])
    && FeedAll(m, chunks[k..]) == Chain(all.m, all.outs[k..]) && texts == all.outs[..k] + chunks[k..]
  }

  lemma {:induction false} TakesFirst(m: Machine, chunks: seq<seq<byte>>)
    requires Steady(m) && ShortNames(m, chunks)
    ensures HasTaken(m, chunks, 0, chunks, FeedAll(m, chunks))
  {
    hide ShortNames, FeedAll;
    assert chunks[0..] == chunks;
  }

  lemma {:induction false} TakesNext(m: Machine, chunks: seq<seq<byte>>, k: nat, texts: seq<seq<byte>>, all: Chain)
    requires HasTaken(m, chunks, k, texts, all) && k < |chunks|
    ensures |texts| == |chunks| && Steady(m) && ShortNames(m, [texts[k]])
    ensures var f := Feed(m, texts[k]);
            Steady(f.m) ==> HasTaken(f.m, chunks, k + 1, texts[k := f.out], all)
  {
    hide ShortNames, Steady, FeedAll, Feed;
    FeedOne(m, chunks[k..]);
    assert chunks[k..][1..] == chunks[k + 1..];
    var out := Feed(m, texts[k]).out;
    assert all.outs[k..] == [out] + all.outs[k + 1..];
  }

  lemma {:induction false} TakenAll(m: Machine, chunks: seq<seq<byte>>, texts: seq<seq<byte>>, all: Chain)
    requires HasTaken(m, chunks, |chunks|, texts, all)
    ensures m == all.m && texts == all.outs
  {
    hide ShortNames;
    assert chunks[|chunks|..] == [];
    NothingFed(m);
  }

  /** `ngx_http_minify_body_filter`: every buffer of the chain in turn. */
  method Filter(chain: seq<Buf>, ctx: Context, ghost chunks: seq<seq<byte>>)
    requires ctx.V().View? && Between(ctx.fileType, ctx.V())
    requires Separate(chain) && |chunks| == |chain|
    requires forall i :: 0 <= i < |chain| ==>
               chain[i].Valid() && ctx.Apart(chain[i].data) && chain[i].Bytes() == chunks[i]
    requires ShortNames(Now(ctx), chunks)
    modifies ctx, ctx.state, ctx.cache, ctx.tagcache, ctx.tagendcache
    modifies set i | 0 <= i < |chain| :: chain[i]
    modifies set i | 0 <= i < |chain| :: chain[i].data
    ensures ctx.V().View? && Between(ctx.fileType, ctx.V())
    ensures var c := FeedAll(old(Now(ctx)), chunks);
            && Now(ctx) == c.m
            && forall i :: 0 <= i < |chain| ==> chain[i].Valid() && chain[i].Bytes() == c.outs[i]
  {
    hide Context.V, Between, ShortNames, MachineOf, Feed, FeedAll, Steady, Now, Buf.Bytes, Buf.Valid, Separate, Distinct,
         Holds, HasTaken;
    BetweenSteady(ctx);
    ghost var all := FeedAll(Now(ctx), chunks);
    ghost var arrays: seq<array<byte>> := Arrays(chain, ctx, chunks);
    ghost var texts := chunks;
    TakesFirst(Now(ctx), chunks);
    var k := 0;
    while k < |chain|
      invariant 0 <= k <= |chain| == |arrays| == |texts|
      invariant ctx.V().View? && Between(ctx.fileType, ctx.V()) && HasTaken(Now(ctx), chunks, k, texts, all)
      invariant Distinct(chain) && Distinct(arrays) && Holds(chain, ctx, arrays, texts)
      invariant forall i :: k <= i < |chain| ==> arrays[i] == old(chain[i].data)
    {
      TakesNext(Now(ctx), chunks, k, texts, all);
      ghost var out := Feed(Now(ctx), texts[k]).out;
      arrays := Turn(chain, k, ctx, arrays, texts);
      texts := texts[k := out];
      k := k + 1;
    }
    TakenAll(Now(ctx), chunks, texts, all);
    HeldBy(chain, ctx, arrays, texts);
  }

  lemma {:induction false} NothingFed(m: Machine)
    requires Steady(m)
    ensures FeedAll(m, []) == Chain(m, [])
  {
  }

  // ---------- what the filter's output means ----------

  lemma {:induction false} CssFed(s: CM.Css, chunks: seq<seq<byte>>)
    ensures var c, t := FeedAll(CssM(s), chunks), CM.Chunks(s, chunks);
            c.m == CssM(t.st) && Concat(c.outs) == t.out
    decreases |chunks|
  {
    if chunks != [] {
      var t := CM.Chunk(s, chunks[0]);
      CssFed(t.st, chunks[1..]);
      ConcatMore(t.out, FeedAll(CssM(t.st), chunks[1..]).outs);
    }
  }

  lemma {:induction false} JsFed(s: JM.Js, chunks: seq<seq<byte>>)
    ensures var c, t := FeedAll(JsM(s), chunks), JM.Chunks(s, chunks);
            c.m == JsM(t.st) && Concat(c.outs) == t.out
    decreases |chunks|
  {
    if chunks != [] {
      var t := JM.Chunk(s, chunks[0]);
      JsFed(t.st, chunks[1..]);
      ConcatMore(t.out, FeedAll(JsM(t.st), chunks[1..]).outs);
    }
  }

  lemma {:induction false} HtmlFed(s: HM.Html, chunks: seq<seq<byte>>)
    requires HS.AtEnd(s)
    ensures var c, t := FeedAll(HtmlM(s), chunks), HS.Chunks(s, chunks);
            c.m == HtmlM(t.st) && Concat(c.outs) == t.out
    decreases |chunks|
  {
    if chunks != [] {
      hide HS.AtEnd, HS.Chunk;
      var t := HS.Chunk(s, chunks[0]);
      HtmlFed(t.st, chunks[1..]);
      ConcatMore(t.out, FeedAll(HtmlM(t.st), chunks[1..]).outs);
    }
  }

  lemma {:induction false} ConcatMore(out: seq<byte>, outs: seq<seq<byte>>)
    ensures Concat([out] + outs) == out + Concat(outs)
  {
    assert ([out] + outs)[1..] == outs;
  }

  /** The text of CSS and JavaScript. */
  function RulesOf(t: FileType): R.Rules {
    if t == JsFile then R.JsRules else R.CssRules
  }

  function CarryOf(m: Machine): seq<byte> {
    match m
    case CssM(s) => CM.Carry(s)
    case JsM(s) => JM.Carry(s)
    case HtmlM(s) => s.carry
  }

  /** From a fresh context, what the filter leaves in the buffers of a CSS or JavaScript response is
      the uncommented text with nothing but soft white space left out, and the context carries
      exactly the undecided byte at its end. */
  lemma {:induction false} FilteredText(t: FileType, chunks: seq<seq<byte>>)
    requires t != HtmlFile
    ensures var c := FeedAll(Start(t), chunks);
            var x := R.Parse(RulesOf(t), Concat(chunks));
            Thins(R.Uncommented(x), Concat(c.outs)) && CarryOf(c.m) == R.TailCarry(x.tail)
  {
    if t == CssFile {
      CssFed(CM.START, chunks);
      CS.Streaming(chunks);
    } else {
      JsFed(JM.START, chunks);
      JS.Streaming(chunks);
    }
  }

  /** What the filter leaves of an HTML response. If no buffer but the last makes the machine falter: what it leaves
      of the whole response in one buffer, white space apart. If none does: what the lexer keeps of the whole, with
      nothing left out but soft bytes. Without `<!-` and `<![` none does, and the lexer keeps all. */
  ghost predicate HtmlLeft(chunks: seq<seq<byte>>, out: seq<byte>, carry: seq<byte>) {
    var w := Concat(chunks);
    var r, l := HM.Run(HM.START, w), X.LexText(w, []);
    && (HC.GoodCuts(HM.START, chunks) ==> Solid(out) == Solid(r.out) && carry == r.st.carry)
    && (HC.GoodCuts(HM.START, chunks) && !HC.Faltering(HM.START, w) ==>
          Thins(X.ItemsOf(l.tokens), out) && carry == l.rest)
    && X.Spells(l, w)
    && (HP.Unmarked(w) ==>
          && HC.GoodCuts(HM.START, chunks) && !HC.Faltering(HM.START, w)
          && X.Bears(X.ItemsOf(l.tokens), X.Spell(l.tokens)))
  }

  lemma {:induction false} HtmlWhole(w: seq<byte>)
    ensures HS.Chunk(HM.START, w) == HM.Run(HM.START, w)
  {
    assert HM.START.carry + w == w;
  }

  /** HTML, for every chain. */
  lemma {:induction false} FilteredHtml(chunks: seq<seq<byte>>)
    ensures var c := FeedAll(Start(HtmlFile), chunks); HtmlLeft(chunks, Concat(c.outs), CarryOf(c.m))
  {
    hide HS.Chunks, HM.Run, Solid, HC.GoodCuts, HC.Faltering, HP.Unmarked, FeedAll, X.LexText, X.Spells, X.Bears, Thins;
    var w := Concat(chunks);
    HtmlFed(HM.START, chunks);
    X.LexSpells(w, []);
    if HP.Unmarked(w) {
      HP.Streaming(chunks);
    }
    if HC.GoodCuts(HM.START, chunks) {
      HtmlLike(chunks);
      if !HC.Faltering(HM.START, w) {
        HL.LexedChunks(chunks);
      }
    }
  }

  lemma {:induction false} HtmlLike(chunks: seq<seq<byte>>)
    requires HC.GoodCuts(HM.START, chunks)
    ensures var t, r := HS.Chunks(HM.START, chunks), HM.Run(HM.START, Concat(chunks));
            Solid(t.out) == Solid(r.out) && HC.Reads(t.st, r.st)
  {
    hide HS.Chunks, HM.Run, Solid, HC.GoodCuts, HS.Chunk, Concat;
    if chunks == [] {
      HL.NoChunks();
    } else {
      var n := |chunks| - 1;
      HC.GoodPrefix(HM.START, chunks, n, chunks[n]);
      assert chunks[..n] + [chunks[n]] == chunks;
      HtmlWhole(Concat(chunks));
    }
  }

  /** A whole response: `ngx_http_minify_header_filter` makes a context, and the body filter takes the
      buffers. What is left in them, put together, is the minified text. */
  method Respond(t: FileType, chain: seq<Buf>, ghost chunks: seq<seq<byte>>) returns (ctx: Context)
    requires Separate(chain) && |chunks| == |chain|
    requires forall i :: 0 <= i < |chain| ==> chain[i].Valid() && chain[i].Bytes() == chunks[i]
    requires ShortNames(Start(t), chunks)
    modifies set i | 0 <= i < |chain| :: chain[i]
    modifies set i | 0 <= i < |chain| :: chain[i].data
    ensures ctx.V().View?
    ensures var c := FeedAll(Start(t), chunks);
            && (forall i :: 0 <= i < |chain| ==> chain[i].Valid() && chain[i].Bytes() == c.outs[i])
            && ctx.V().cache == CarryOf(c.m)
            && (t != HtmlFile ==>
                  Thins(R.Uncommented(R.Parse(RulesOf(t), Concat(chunks))), Concat(c.outs)))
            && (t == HtmlFile ==> HtmlLeft(chunks, Concat(c.outs), CarryOf(c.m)))
  {
    hide Context.V, Between, ShortNames, FeedAll, Buf.Bytes, Buf.Valid, HtmlLeft, R.Parse, R.Uncommented;
    ctx := new Context(t);
    FreshContext(t, ctx.V());
    Filter(chain, ctx, chunks);
    CarriedIs(ctx.fileType, ctx.V());
    if t != HtmlFile {
      FilteredText(t, chunks);
    } else {
      FilteredHtml(chunks);
    }
  }

  /** The carry of the machine is what the context has in its cache. */
  lemma {:induction false} CarriedIs(t: FileType, v: Live)
    requires Between(t, v)
    ensures v.cache == CarryOf(MachineOf(t, v))
  {
  }
}
