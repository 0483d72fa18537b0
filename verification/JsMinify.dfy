/** The JavaScript minifier, in place: nested loops over one buffer. */
module JsMinify {
  import opened Bytes
  import opened MinifyContext
  import M = JsMachine

  ghost predicate Shape(stack: seq<State>) {
    || stack == [Text] || stack == [Text, JsQuote]
    || stack == [Text, JsComment] || stack == [Text, JsCommentLine]
  }

  /** The machine state that a context stands for. */
  ghost function Abs(v: Live): M.Js {
    var mode :=
      if Top(v) == JsQuote then if v.cache == [] then M.Quote else M.Escape
      else if Top(v) == JsComment then if v.cache == [] then M.Comment else M.Star
      else if Top(v) == JsCommentLine then M.Line
      else if v.cache == [] then M.Plain else M.Slash;
    M.Js(mode, v.quote, v.pre, Last(v.out))
  }

  /** The carry is exactly the undecided byte, and there is one only when the buffer is used up. */
  ghost predicate Carried(v: Live) {
    && v.cache == M.Carry(Abs(v))
    && (v.rest != [] ==> v.cache == [])
  }

  ghost predicate Ok(v: Live) {
    Shape(v.stack) && Carried(v)
  }

  /** What will have been written, and the final state, if the machine goes on from here. */
  ghost function Ahead(v: Live): M.Step {
    M.After(v.out, M.Run(Abs(v), v.rest))
  }

  lemma {:induction false} One(v: Live, v': Live)
    requires Ok(v) && Ok(v') && v.rest != [] && v'.rest == v.rest[1..]
    requires var t := M.Next(Abs(v), v.rest[0]); Abs(v') == t.st && v'.out == v.out + t.out
    ensures Ahead(v') == Ahead(v)
  {
    var t := M.Next(Abs(v), v.rest[0]);
    M.RunOne(Abs(v), v.rest);
    M.AfterAfter(v.out, t.out, M.Run(Abs(v'), v'.rest));
  }

  lemma {:induction false} Two(v: Live, v': Live)
    requires Ok(v) && Ok(v') && |v.rest| >= 2 && v'.rest == v.rest[1..][1..]
    requires var t := M.Next(Abs(v), v.rest[0]);
             var u := M.Next(t.st, v.rest[1]);
             Abs(v') == u.st && v'.out == v.out + t.out + u.out
    ensures Ahead(v') == Ahead(v)
  {
    hide Abs, Ok, M.Next, M.Run;
    var t := M.Next(Abs(v), v.rest[0]);
    var u := M.Next(t.st, v.rest[1]);
    M.RunTwo(Abs(v), v.rest);
    assert v'.out == v.out + (t.out + u.out);
    M.AfterAfter(v.out, t.out + u.out, M.Run(Abs(v'), v'.rest));
  }

  lemma {:induction false} OkStack(v: Live)
    requires Ok(v)
    ensures 0 < |v.stack| <= 2 && (Top(v) == Text ==> |v.stack| == 1)
    ensures Top(v) == Text || Top(v) == JsQuote || Top(v) == JsComment || Top(v) == JsCommentLine
    ensures v.rest != [] ==> v.cache == []
  {
  }

  lemma {:induction false} CachesOne(v: Live, c: byte)
    requires Ok(v) && v.rest == [c]
    ensures SameNoCase([c][..|v.rest|], v.rest) && v.cache == []
  {
  }

  /** A turn of a small machine: what lies ahead stays, and `nochange_pre` stays set. */
  ghost predicate Goes(v: Live, v': Live) {
    Ok(v') && Ahead(v') == Ahead(v) && v'.nochange
  }

  // ---------- comments ----------

  ghost predicate AtNote(v: Live, top: State) {
    Ok(v) && Top(v) == top && v.nochange && v.rest != []
  }

  lemma {:induction false} NoteEnds(v: Live)
    requires AtNote(v, JsComment) && |v.rest| >= 2 && v.rest[0] == '*' && v.rest[1] == '/'
    ensures |v.stack| > 1 && Goes(v, Popped(Ate(Ate(v)))) && Top(Popped(Ate(Ate(v)))) == Text
  {
    Two(v, Popped(Ate(Ate(v))));
  }

  /** A star that does not close the comment is dropped alone; the next byte is looked at again. */
  lemma {:induction false} NoteStar(v: Live)
    requires AtNote(v, JsComment) && |v.rest| >= 2 && v.rest[0] == '*' && v.rest[1] != '/'
    ensures Goes(v, Ate(v))
  {
    var s := Abs(v);
    assert M.Next(M.Next(s, '*').st, v.rest[1]) == M.Next(s, v.rest[1]);
    M.RunTwo(s, v.rest);
    M.RunOne(s, v.rest[1..]);
  }

  lemma {:induction false} NoteCarry(v: Live)
    requires AtNote(v, JsComment) && v.rest == ['*']
    ensures Goes(v, Ate(Cached(v)))
  {
    One(v, Ate(Cached(v)));
  }

  lemma {:induction false} NoteByte(v: Live)
    requires AtNote(v, JsComment) && v.rest[0] != '*'
    ensures Goes(v, Ate(v))
  {
    One(v, Ate(v));
  }

  /** The newline that ends a line comment becomes a space; `pre_char` becomes the newline. */
  lemma {:induction false} LineEnds(v: Live)
    requires AtNote(v, JsCommentLine) && v.rest[0] == '\n'
    ensures |v.stack| > 1
    ensures var v' := WithPre(Popped(Wrote(v, ' ')), '\n'); Goes(v, v') && Top(v') == Text
  {
    One(v, WithPre(Popped(Wrote(v, ' ')), '\n'));
  }

  lemma {:induction false} LineByte(v: Live)
    requires AtNote(v, JsCommentLine) && v.rest[0] != '\n'
    ensures Goes(v, Ate(v))
  {
    One(v, Ate(v));
  }

  method StripComment(ctx: Context)
    requires ctx.V().View? && (AtNote(ctx.V(), JsComment) || AtNote(ctx.V(), JsCommentLine))
    modifies ctx`sspos, ctx`rpos, ctx`count, ctx`wpos, ctx`dstlen, ctx.dst, ctx`cachelen, ctx.cache
    modifies ctx`preChar
    ensures ctx.V().View? && Goes(old(ctx.V()), ctx.V())
    ensures |ctx.V().rest| < |old(ctx.V()).rest|
  {
    hide Context.V, Ok, Ahead, Ate, Wrote, Copied, Pushed, Popped, Cached, WithPre;
    ghost var v0: Live := ctx.V();
    ghost var v: Live := v0;
    while ctx.Count() != 0
      invariant ctx.V() == v && Goes(v0, v)
      invariant |v.rest| < |v0.rest| || v == v0
      decreases |v.rest|
    {
      if ctx.State() == JsComment {
        if ctx.At(0) == '*' {
          if ctx.Count() >= 2 {
            if ctx.At(1) == '/' {
              NoteEnds(v);
              ctx.IncRpos();
              ctx.IncRpos();
              ctx.PopState();
            } else {
              NoteStar(v);
              ctx.IncRpos();
            }
          } else {
            NoteCarry(v);
            CachesOne(v, '*');
            var _ := ctx.CacheRest("*");
            ctx.IncRpos();
          }
        } else {
          NoteByte(v);
          ctx.IncRpos();
        }
      } else if ctx.State() == JsCommentLine {
        if ctx.At(0) == '\n' {
          LineEnds(v);
          ctx.CopyChar(' ');
          ctx.PopState();
          ctx.SetPre('\n');
        } else {
          LineByte(v);
          ctx.IncRpos();
        }
      } else {
        break;
      }
      v := ctx.V();
    }
  }

  // ---------- strings ----------

  ghost predicate AtQuote(v: Live) {
    Ok(v) && Top(v) == JsQuote && v.nochange && v.rest != []
  }

  lemma {:induction false} QuotePair(v: Live)
    requires AtQuote(v) && |v.rest| >= 2 && v.rest[0] == '\\'
    ensures Goes(v, Copied(Copied(v)))
  {
    Two(v, Copied(Copied(v)));
  }

  lemma {:induction false} QuoteCarry(v: Live)
    requires AtQuote(v) && v.rest == ['\\']
    ensures Goes(v, Ate(Cached(v)))
  {
    One(v, Ate(Cached(v)));
  }

  lemma {:induction false} QuoteEnds(v: Live)
    requires AtQuote(v) && v.rest[0] == v.quote != '\\'
    ensures |v.stack| > 1 && Goes(v, Popped(Copied(v))) && Top(Popped(Copied(v))) == Text
  {
    One(v, Popped(Copied(v)));
  }

  lemma {:induction false} QuoteByte(v: Live)
    requires AtQuote(v) && v.rest[0] != v.quote && v.rest[0] != '\\'
    ensures Goes(v, Copied(v))
  {
    One(v, Copied(v));
  }

  method StripQuote(ctx: Context)
    requires ctx.V().View? && AtQuote(ctx.V())
    modifies ctx`sspos, ctx`rpos, ctx`count, ctx`wpos, ctx`dstlen, ctx.dst, ctx`cachelen, ctx.cache
    ensures ctx.V().View? && Goes(old(ctx.V()), ctx.V())
    ensures |ctx.V().rest| < |old(ctx.V()).rest|
  {
    hide Context.V, Ok, Ahead, Ate, Wrote, Copied, Pushed, Popped, Cached;
    ghost var v0: Live := ctx.V();
    ghost var v: Live := v0;
    while ctx.Count() != 0
      invariant ctx.V() == v && Goes(v0, v)
      invariant |v.rest| < |v0.rest| || v == v0
      decreases |v.rest|
    {
      if ctx.State() == JsQuote {
        if ctx.At(0) == '\\' {
          if ctx.Count() > 1 {
            QuotePair(v);
            ctx.CopyRpos();
            ctx.CopyRpos();
          } else if ctx.Count() == 1 {
            QuoteCarry(v);
            CachesOne(v, '\\');
            var _ := ctx.CacheRest("\\");
            ctx.IncRpos();
          }
        } else if ctx.At(0) == ctx.Quote() {
          QuoteEnds(v);
          ctx.CopyRpos();
          ctx.PopState();
        } else {
          QuoteByte(v);
          ctx.CopyRpos();
        }
      } else {
        break;
      }
      v := ctx.V();
    }
  }

  // ---------- the main loop ----------

  ghost predicate AtText(v: Live) {
    Ok(v) && Top(v) == Text && v.rest != []
  }

  /** A turn of the main loop, before `pre_char` is recorded. */
  ghost predicate MainGoes(v: Live, w: Live) {
    Ok(Recorded(w)) && Ahead(Recorded(w)) == Ahead(v)
  }

  ghost function Begun(v: Live): Live {
    WithNochange(v, false)
  }

  ghost function Held(v: Live): Live {
    WithNochange(WithNochange(v, false), true)
  }

  lemma {:induction false} TextBlankDropped(v: Live)
    requires AtText(v) && Blank(v.rest[0])
    requires v.pre == '\n' || v.out == [] || Blank(v.pre)
    ensures MainGoes(v, Ate(Held(v)))
  {
    One(v, Recorded(Ate(Held(v))));
  }

  lemma {:induction false} TextNote(v: Live)
    requires AtText(v) && |v.rest| >= 2 && v.rest[0] == '/' && v.rest[1] == '*'
    ensures |v.stack| < 3 && MainGoes(v, Pushed(Ate(Ate(Begun(v))), JsComment))
  {
    Two(v, Recorded(Pushed(Ate(Ate(Begun(v))), JsComment)));
  }

  lemma {:induction false} TextLine(v: Live)
    requires AtText(v) && |v.rest| >= 2 && v.rest[0] == '/' && v.rest[1] == '/'
    ensures |v.stack| < 3 && MainGoes(v, Pushed(Ate(Ate(Begun(v))), JsCommentLine))
  {
    Two(v, Recorded(Pushed(Ate(Ate(Begun(v))), JsCommentLine)));
  }

  lemma {:induction false} TextPair(v: Live)
    requires AtText(v) && |v.rest| >= 2 && v.rest[0] == '/' && v.rest[1] != '*' && v.rest[1] != '/'
    ensures MainGoes(v, Copied(Copied(Begun(v))))
  {
    Two(v, Recorded(Copied(Copied(Begun(v)))));
  }

  lemma {:induction false} TextCarry(v: Live)
    requires AtText(v) && v.rest == ['/']
    ensures MainGoes(v, Ate(Cached(Begun(v))))
  {
    One(v, Recorded(Ate(Cached(Begun(v)))));
  }

  lemma {:induction false} TextQuote(v: Live, c: byte)
    requires AtText(v) && v.rest[0] in {'"', '\'', '['}
    requires c == if v.rest[0] == '[' then ']' else v.rest[0]
    ensures |v.stack| < 3 && MainGoes(v, Pushed(Copied(WithQuote(Held(v), c)), JsQuote))
  {
    One(v, Recorded(Pushed(Copied(WithQuote(Held(v), c)), JsQuote)));
  }

  lemma {:induction false} TextNewlineDropped(v: Live)
    requires AtText(v) && v.rest[0] == '\n' && M.EndsLine(v.pre)
    ensures MainGoes(v, WithNochange(WithPre(Ate(Begun(v)), '\n'), true))
  {
    One(v, Recorded(WithNochange(WithPre(Ate(Begun(v)), '\n'), true)));
  }

  lemma {:induction false} TextReturn(v: Live)
    requires AtText(v) && v.rest[0] == '\r'
    ensures MainGoes(v, WithNochange(Ate(Begun(v)), true))
  {
    One(v, Recorded(WithNochange(Ate(Begun(v)), true)));
  }

  lemma {:induction false} TextByte(v: Live)
    requires AtText(v) && v.rest[0] !in {'/', '"', '\'', '[', '\r'}
    requires Blank(v.rest[0]) ==> v.pre != '\n' && v.out != [] && !Blank(v.pre)
    requires v.rest[0] == '\n' ==> !M.EndsLine(v.pre)
    ensures MainGoes(v, Copied(Begun(v)))
  {
    One(v, Recorded(Copied(Begun(v))));
  }

  lemma {:induction false} MainReturns(v: Live, w: Live)
    requires Goes(v, w)
    ensures MainGoes(v, w)
  {
    assert Recorded(w) == w;
  }

  lemma {:induction false} MainSetsNochange(v: Live)
    requires Ok(v) && v.rest != []
    ensures var v' := WithNochange(v, true); Ok(v') && Ahead(v') == Ahead(v) && v'.nochange
  {
    assert Abs(WithNochange(v, true)) == Abs(v);
  }

  /** `case minify_state_text`. */
  method TextTurn(ctx: Context)
    requires ctx.V().View? && AtText(ctx.V())
    modifies ctx`sspos, ctx.state, ctx`rpos, ctx`count, ctx`wpos, ctx`dstlen, ctx.dst
    modifies ctx`cachelen, ctx.cache, ctx`quoteChar, ctx`nochangePre, ctx`preChar
    ensures ctx.V().View? && MainGoes(old(ctx.V()), ctx.V())
    ensures |ctx.V().rest| < |old(ctx.V()).rest|
  {
    hide Context.V, Ok, Ahead, Ate, Wrote, Copied, Pushed, Popped, Cached, Recorded, WithNochange, WithQuote,
      WithPre;
    ghost var v: Live := ctx.V();
    OkStack(v);
    ctx.SetNochange(false);
    if (ctx.At(0) == ' ' && ctx.Pre() == '\n') || (ctx.At(0) == '\t' && ctx.Pre() == '\n')
       || (ctx.Dstlen() == 0 && (ctx.At(0) == ' ' || ctx.At(0) == '\t')) {
      TextBlankDropped(v);
      ctx.SetNochange(true);
      ctx.IncRpos();
    } else if (ctx.At(0) == ' ' || ctx.At(0) == '\t') && (ctx.Pre() == ' ' || ctx.Pre() == '\t') {
      TextBlankDropped(v);
      ctx.SetNochange(true);
      ctx.IncRpos();
    } else if ctx.At(0) == '/' {
      if ctx.Count() >= 2 {
        if ctx.At(1) == '*' {
          TextNote(v);
          ctx.IncRpos();
          ctx.IncRpos();
          ctx.PushState(JsComment);
        } else if ctx.At(1) == '/' {
          TextLine(v);
          ctx.IncRpos();
          ctx.IncRpos();
          ctx.PushState(JsCommentLine);
        } else {
          TextPair(v);
          ctx.CopyRpos();
          ctx.CopyRpos();
        }
      } else {
        TextCarry(v);
        CachesOne(v, '/');
        var _ := ctx.CacheRest("/");
        ctx.IncRpos();
      }
    } else if ctx.At(0) == '"' || ctx.At(0) == '\'' || ctx.At(0) == '[' {
      TextQuote(v, if ctx.At(0) == '[' then ']' else ctx.At(0));
      ctx.SetNochange(true);
      if ctx.At(0) == '[' {
        ctx.SetQuote(']');
      } else {
        ctx.SetQuote(ctx.At(0));
      }
      ctx.CopyRpos();
      ctx.PushState(JsQuote);
    } else if ctx.At(0) == '\n' {
      if ctx.Pre() != '\0' && ctx.Pre() != '\n' && ctx.Pre() != ';' && ctx.Pre() != ':'
         && ctx.Pre() != '{' && ctx.Pre() != '}' {
        TextByte(v);
        ctx.CopyRpos();
      } else {
        TextNewlineDropped(v);
        ctx.IncRpos();
        ctx.SetPre('\n');
        ctx.SetNochange(true);
      }
    } else if ctx.At(0) == '\r' {
      TextReturn(v);
      ctx.IncRpos();
      ctx.SetNochange(true);
    } else {
      TextByte(v);
      ctx.CopyRpos();
    }
  }

  /** A turn of the main loop. Its `default` case cannot be reached. */
  method MainTurn(ctx: Context)
    requires ctx.V().View? && Ok(ctx.V()) && ctx.V().rest != []
    modifies ctx`sspos, ctx.state, ctx`rpos, ctx`count, ctx`wpos, ctx`dstlen, ctx.dst
    modifies ctx`cachelen, ctx.cache, ctx`quoteChar, ctx`nochangePre, ctx`preChar
    ensures ctx.V().View? && Ok(ctx.V()) && Ahead(ctx.V()) == Ahead(old(ctx.V()))
    ensures |ctx.V().rest| < |old(ctx.V()).rest|
  {
    hide Context.V, Ok, Ahead, Ate, Wrote, Copied, Pushed, Popped, Cached, Recorded, WithNochange, WithQuote,
      WithPre;
    ghost var v: Live := ctx.V();
    OkStack(v);
    if ctx.State() == Text {
      TextTurn(ctx);
    } else if ctx.State() == JsComment || ctx.State() == JsCommentLine {
      MainSetsNochange(v);
      ctx.SetNochange(true);
      StripComment(ctx);
      MainReturns(v, ctx.V());
    } else if ctx.State() == JsQuote {
      MainSetsNochange(v);
      ctx.SetNochange(true);
      StripQuote(ctx);
      MainReturns(v, ctx.V());
    } else {
      assert false;
    }
    ctx.RecordPre();
  }

  /** `ngx_minify_js_strip_buffer`: one buffer, from `src` to `dst`, which may be one array. */
  method StripBuffer(src: array<byte>, srclen: nat, dst: array<byte>, ctx: Context)
    requires ctx.V().View? && Ok(ctx.V()) && ctx.V().cache == []
    requires srclen <= src.Length && srclen <= dst.Length
    requires ctx.Apart(src) && ctx.Apart(dst)
    modifies ctx, ctx.state, ctx.cache, dst
    ensures ctx.V().View? && Ok(ctx.V()) && ctx.V().rest == []
    ensures ctx.dst == dst && ctx.src == src
    ensures M.Step(Abs(ctx.V()), ctx.V().out)
         == M.Run(M.Enter(Abs(old(ctx.V()))), old(src[..srclen]))
  {
    hide Context.V, Ok, Ahead, Ate, Wrote, Copied, Pushed, Popped, Cached, Recorded, WithNochange, WithQuote,
      WithPre;
    Opens(ctx.V(), src[..srclen]);
    ctx.Open(src, srclen, dst);
    ghost var v0: Live := ctx.V();
    ghost var v: Live := v0;
    while ctx.Count() > 0
      invariant ctx.V() == v && Ok(v) && Ahead(v) == Ahead(v0)
      invariant ctx.dst == dst && ctx.src == src
      decreases |v.rest|
    {
      MainTurn(ctx);
      v := ctx.V();
    }
    Finishes(v);
  }

  lemma {:induction false} Opens(v: Live, bytes: seq<byte>)
    requires Ok(v) && v.cache == []
    ensures var v' := v.(rest := bytes, out := []);
            Ok(v') && Ahead(v') == M.Run(M.Enter(Abs(v)), bytes)
  {
    var r := M.Run(M.Enter(Abs(v)), bytes);
    assert [] + r.out == r.out;
  }

  lemma {:induction false} Finishes(v: Live)
    requires v.rest == []
    ensures Ahead(v) == M.Step(Abs(v), v.out)
  {
  }
}
