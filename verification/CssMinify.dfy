/** The CSS minifier, in place: three nested loops over one buffer. */
module CssMinify {
  import opened Bytes
  import opened MinifyContext
  import M = CssMachine

  ghost predicate Shape(stack: seq<State>) {
    || stack == [Text] || stack == [Text, CssQuote] || stack == [Text, CssComment]
    || stack == [Text, CssBrace] || stack == [Text, CssBrace, CssQuote]
    || stack == [Text, CssBrace, CssComment]
  }

  /** The machine state that a context stands for. */
  ghost function Abs(v: Live): M.Css {
    var brace := InBrace(v);
    var mode :=
      if Top(v) == CssQuote then if v.cache == [] then M.Quote else M.Escape
      else if Top(v) == CssComment then if v.cache == [] then M.Comment else M.Star
      else if v.cache == [] then M.Plain else M.Slash;
    M.Css(mode, brace, v.quote,
          if !v.nochange && v.out != [] then v.out[|v.out| - 1] else v.pre,
          brace && v.nochange, Last(v.out))
  }

  /** `pre_char` is up to date: so it is after every turn of the main and the brace loop. */
  ghost predicate Synced(v: Live) {
    !v.nochange && v.out != [] ==> v.pre == v.out[|v.out| - 1]
  }

  /** The carry is exactly the undecided byte, and there is one only when the buffer is used up. */
  ghost predicate Carried(v: Live) {
    && v.cache == M.Carry(Abs(v))
    && (v.rest != [] ==> v.cache == [])
  }

  ghost predicate Ok(v: Live) {
    Shape(v.stack) && Carried(v)
  }

  /** What will have been written, and the final state, if the machine goes on from here. */
  ghost function Ahead(v: Live): M.Step {
    M.After(v.out, M.Run(Abs(v), v.rest))
  }

  ghost function AheadMain(v: Live): M.Step {
    M.After(v.out, M.Buffer(Abs(v), v.rest))
  }

  ghost predicate InBrace(v: Live) {
    |v.stack| >= 2 && v.stack[1] == CssBrace
  }

  lemma {:induction false} One(v: Live, v': Live)
    requires Ok(v) && Ok(v') && v.rest != [] && v'.rest == v.rest[1..]
    requires var t := M.Next(Abs(v), v.rest[0]); Abs(v') == t.st && v'.out == v.out + t.out
    ensures Ahead(v') == Ahead(v)
  {
    var t := M.Next(Abs(v), v.rest[0]);
    M.RunOne(Abs(v), v.rest);
    M.AfterAfter(v.out, t.out, M.Run(Abs(v'), v'.rest));
  }

  lemma {:induction false} Two(v: Live, v': Live)
    requires Ok(v) && Ok(v') && |v.rest| >= 2 && v'.rest == v.rest[1..][1..]
    requires var t := M.Next(Abs(v), v.rest[0]);
             var u := M.Next(t.st, v.rest[1]);
             Abs(v') == u.st && v'.out == v.out + t.out + u.out
    ensures Ahead(v') == Ahead(v)
  {
    hide Abs, Ok, M.Next, M.Run;
    var t := M.Next(Abs(v), v.rest[0]);
    var u := M.Next(t.st, v.rest[1]);
    M.RunTwo(Abs(v), v.rest);
    assert v'.out == v.out + (t.out + u.out);
    M.AfterAfter(v.out, t.out + u.out, M.Run(Abs(v'), v'.rest));
  }

  lemma {:induction false} OkStack(v: Live)
    requires Ok(v)
    ensures 0 < |v.stack| <= 3 && (Top(v) == Text ==> v.stack == [Text])
    ensures Top(v) == CssBrace ==> v.stack == [Text, CssBrace] && InBrace(v)
    ensures Top(v) != Text && Top(v) != CssBrace ==>
              |v.stack| > 1 && (Top(v) == CssQuote || Top(v) == CssComment)
    ensures v.rest != [] ==> v.cache == []
  {
  }

  lemma {:induction false} CachesOne(v: Live, c: byte)
    requires Ok(v) && v.rest == [c]
    ensures SameNoCase([c][..|v.rest|], v.rest) && v.cache == []
  {
  }

  /** A turn of a small machine: the view moves on, what lies ahead stays, and so do the
      registers that only the larger loops may change. */
  ghost predicate Goes(v: Live, v': Live) {
    && Ok(v') && Ahead(v') == Ahead(v)
    && InBrace(v') == InBrace(v) && v'.nochange == v.nochange && v'.pre == v.pre
  }

  /** A small machine has popped its state. */
  ghost predicate Settled(v: Live) {
    Top(v) == Text || Top(v) == CssBrace
  }

  // ---------- comments ----------

  ghost predicate AtComment(v: Live) {
    Ok(v) && Top(v) == CssComment && v.nochange && v.rest != []
  }

  lemma {:induction false} CommentEnds(v: Live)
    requires AtComment(v) && |v.rest| >= 2 && v.rest[0] == '*' && v.rest[1] == '/'
    ensures |v.stack| > 1 && Goes(v, Popped(Ate(Ate(v)))) && Settled(Popped(Ate(Ate(v))))
  {
    Two(v, Popped(Ate(Ate(v))));
  }

  /** A star that does not close the comment is dropped alone; the next byte is looked at again. */
  lemma {:induction false} CommentStar(v: Live)
    requires AtComment(v) && |v.rest| >= 2 && v.rest[0] == '*' && v.rest[1] != '/'
    ensures Goes(v, Ate(v))
  {
    var s := Abs(v);
    assert M.Next(M.Next(s, '*').st, v.rest[1]) == M.Next(s, v.rest[1]);
    M.RunTwo(s, v.rest);
    M.RunOne(s, v.rest[1..]);
  }

  lemma {:induction false} CommentCarry(v: Live)
    requires AtComment(v) && v.rest == ['*']
    ensures Goes(v, Ate(Cached(v)))
  {
    One(v, Ate(Cached(v)));
  }

  lemma {:induction false} CommentByte(v: Live)
    requires AtComment(v) && v.rest[0] != '*'
    ensures Goes(v, Ate(v))
  {
    One(v, Ate(v));
  }

  method StripComment(ctx: Context)
    requires ctx.V().View? && AtComment(ctx.V())
    modifies ctx`sspos, ctx`rpos, ctx`count, ctx`cachelen, ctx.cache
    ensures ctx.V().View? && Goes(old(ctx.V()), ctx.V())
    ensures ctx.V().rest == [] || Settled(ctx.V())
    ensures |ctx.V().rest| < |old(ctx.V()).rest|
  {
    hide Context.V, Ok, Ahead, Ate, Wrote, Copied, Pushed, Popped, Reset, Cached, Recorded;
    ghost var v0: Live := ctx.V();
    ghost var v: Live := v0;
    while ctx.Count() != 0
      invariant ctx.V() == v && Goes(v0, v)
      invariant Top(v) == CssComment || Settled(v)
      invariant |v.rest| < |v0.rest| || v == v0
      decreases |v.rest|
    {
      if ctx.State() == CssComment {
        if ctx.At(0) == '*' {
          if ctx.Count() >= 2 {
            if ctx.At(1) == '/' {
              CommentEnds(v);
              ctx.IncRpos();
              ctx.IncRpos();
              ctx.PopState();
            } else {
              CommentStar(v);
              ctx.IncRpos();
            }
          } else {
            CommentCarry(v);
            CachesOne(v, '*');
            var _ := ctx.CacheRest("*");
            ctx.IncRpos();
          }
        } else {
          CommentByte(v);
          ctx.IncRpos();
        }
      } else {
        break;
      }
      v := ctx.V();
    }
  }

  // ---------- strings ----------

  /** Outside braces a string is read with `nochange_pre` set. */
  ghost predicate AtQuote(v: Live) {
    Ok(v) && Top(v) == CssQuote && (InBrace(v) || v.nochange) && v.rest != []
  }

  lemma {:induction false} QuotePair(v: Live)
    requires AtQuote(v) && |v.rest| >= 2 && v.rest[0] == '\\'
    ensures Goes(v, Copied(Copied(v)))
  {
    Two(v, Copied(Copied(v)));
  }

  lemma {:induction false} QuoteCarry(v: Live)
    requires AtQuote(v) && v.rest == ['\\']
    ensures Goes(v, Ate(Cached(v)))
  {
    One(v, Ate(Cached(v)));
  }

  lemma {:induction false} QuoteEnds(v: Live)
    requires AtQuote(v) && v.rest[0] == v.quote != '\\'
    ensures |v.stack| > 1 && Goes(v, Popped(Copied(v))) && Settled(Popped(Copied(v)))
  {
    One(v, Popped(Copied(v)));
  }

  lemma {:induction false} QuoteByte(v: Live)
    requires AtQuote(v) && v.rest[0] != v.quote && v.rest[0] != '\\'
    ensures Goes(v, Copied(v))
  {
    One(v, Copied(v));
  }

  method StripQuote(ctx: Context)
    requires ctx.V().View? && AtQuote(ctx.V())
    modifies ctx`sspos, ctx`rpos, ctx`count, ctx`wpos, ctx`dstlen, ctx.dst, ctx`cachelen, ctx.cache
    ensures ctx.V().View? && Goes(old(ctx.V()), ctx.V())
    ensures ctx.V().rest == [] || Settled(ctx.V())
    ensures |ctx.V().rest| < |old(ctx.V()).rest|
  {
    hide Context.V, Ok, Ahead, Ate, Wrote, Copied, Pushed, Popped, Reset, Cached, Recorded;
    ghost var v0: Live := ctx.V();
    ghost var v: Live := v0;
    while ctx.Count() != 0
      invariant ctx.V() == v && Goes(v0, v)
      invariant Top(v) == CssQuote || Settled(v)
      invariant |v.rest| < |v0.rest| || v == v0
      decreases |v.rest|
    {
      if ctx.State() == CssQuote {
        if ctx.At(0) == '\\' {
          if ctx.Count() > 1 {
            QuotePair(v);
            ctx.CopyRpos();
            ctx.CopyRpos();
          } else if ctx.Count() == 1 {
            QuoteCarry(v);
            CachesOne(v, '\\');
            var _ := ctx.CacheRest("\\");
            ctx.IncRpos();
          }
        } else if ctx.At(0) == ctx.Quote() {
          QuoteEnds(v);
          ctx.CopyRpos();
          ctx.PopState();
        } else {
          QuoteByte(v);
          ctx.CopyRpos();
        }
      } else {
        break;
      }
      v := ctx.V();
    }
  }

  // ---------- brace blocks ----------

  ghost predicate AtBrace(v: Live) {
    Ok(v) && Synced(v) && Top(v) == CssBrace && v.rest != []
  }

  /** A turn inside or out of a brace block, before `pre_char` is recorded. */
  ghost predicate BraceGoes(v: Live, v': Live) {
    Ok(v') && Ahead(v') == Ahead(v) && (InBrace(v') || Top(v') == Text)
  }

  lemma {:induction false} BraceEnds(v: Live)
    requires AtBrace(v) && v.rest[0] == '}'
    ensures BraceGoes(v, Reset(Copied(v), Text))
  {
    One(v, Reset(Copied(v), Text));
  }

  lemma {:induction false} BraceBlank(v: Live)
    requires AtBrace(v)
    requires (v.rest[0] == ' ' && v.pre == ' ')
          || v.rest[0] == '\n' || v.rest[0] == '\r' || v.rest[0] == '\t'
    ensures BraceGoes(v, Ate(v))
  {
    One(v, Ate(v));
  }

  lemma {:induction false} BraceComment(v: Live)
    requires AtBrace(v) && |v.rest| >= 2 && v.rest[0] == '/' && v.rest[1] == '*'
    ensures |v.stack| < 3 && BraceGoes(v, Pushed(Ate(Ate(v)), CssComment))
  {
    Two(v, Pushed(Ate(Ate(v)), CssComment));
  }

  lemma {:induction false} BracePair(v: Live)
    requires AtBrace(v) && |v.rest| >= 2 && v.rest[0] == '/' && v.rest[1] != '*'
    ensures BraceGoes(v, Copied(Copied(v)))
  {
    Two(v, Copied(Copied(v)));
  }

  lemma {:induction false} BraceCarry(v: Live)
    requires AtBrace(v) && v.rest == ['/']
    ensures BraceGoes(v, Ate(Cached(v)))
  {
    One(v, Ate(Cached(v)));
  }

  lemma {:induction false} BraceQuote(v: Live)
    requires AtBrace(v) && (v.rest[0] == '"' || v.rest[0] == '\'')
    ensures |v.stack| < 3 && BraceGoes(v, Pushed(Copied(WithQuote(v, v.rest[0])), CssQuote))
  {
    One(v, Pushed(Copied(WithQuote(v, v.rest[0])), CssQuote));
  }

  lemma {:induction false} BraceByte(v: Live)
    requires AtBrace(v) && v.rest[0] !in {'}', '\n', '\r', '\t', '/', '"', '\''}
    requires !(v.rest[0] == ' ' && v.pre == ' ')
    ensures BraceGoes(v, Copied(v))
  {
    One(v, Copied(v));
  }

  /** With its first byte, a comment inside braces makes `pre_char` stale for the block. */
  lemma {:induction false} CommentSetsNochange(v: Live)
    requires Ok(v) && Synced(v) && Top(v) == CssComment && v.rest != []
    ensures var v' := WithNochange(v, true);
            AtComment(v') && Ahead(v') == Ahead(v) && InBrace(v') == InBrace(v)
  {
    M.RunOne(Abs(v), v.rest);
    M.RunOne(Abs(WithNochange(v, true)), v.rest);
  }

  lemma {:induction false} RecordKeeps(v: Live)
    requires Ok(v)
    ensures var v' := Recorded(v);
            Ok(v') && Synced(v') && Ahead(v') == Ahead(v) && InBrace(v') == InBrace(v)
  {
    assert Abs(Recorded(v)) == Abs(v);
  }

  /** `case css_state_brace`. */
  method BraceTurn(ctx: Context)
    requires ctx.V().View? && AtBrace(ctx.V())
    modifies ctx`sspos, ctx.state, ctx`rpos, ctx`count, ctx`wpos, ctx`dstlen, ctx.dst
    modifies ctx`cachelen, ctx.cache, ctx`quoteChar
    ensures ctx.V().View? && BraceGoes(old(ctx.V()), ctx.V())
    ensures |ctx.V().rest| < |old(ctx.V()).rest|
  {
    hide Context.V, Ok, Ahead, InBrace, Synced, Ate, Wrote, Copied, Pushed, Popped, Reset, Cached,
      Recorded, WithNochange, WithQuote;
    ghost var v: Live := ctx.V();
    OkStack(v);
    if ctx.At(0) == '}' {
      BraceEnds(v);
      ctx.CopyRpos();
      ctx.SetState(Text);
    } else if (ctx.At(0) == ' ' && ctx.Pre() == ' ')
           || ctx.At(0) == '\n' || ctx.At(0) == '\r' || ctx.At(0) == '\t' {
      BraceBlank(v);
      ctx.IncRpos();
    } else if ctx.At(0) == '/' {
      if ctx.Count() >= 2 {
        if ctx.At(1) == '*' {
          BraceComment(v);
          ctx.IncRpos();
          ctx.IncRpos();
          ctx.PushState(CssComment);
        } else {
          BracePair(v);
          ctx.CopyRpos();
          ctx.CopyRpos();
        }
      } else if ctx.Count() == 1 {
        BraceCarry(v);
        CachesOne(v, '/');
        var _ := ctx.CacheRest("/");
        ctx.IncRpos();
      }
    } else if ctx.At(0) == '"' || ctx.At(0) == '\'' {
      BraceQuote(v);
      ctx.SetQuote(ctx.At(0));
      ctx.CopyRpos();
      ctx.PushState(CssQuote);
    } else {
      BraceByte(v);
      ctx.CopyRpos();
    }
  }

  method StripBrace(ctx: Context)
    requires ctx.V().View? && AtBrace(ctx.V())
    modifies ctx`sspos, ctx.state, ctx`rpos, ctx`count, ctx`wpos, ctx`dstlen, ctx.dst
    modifies ctx`cachelen, ctx.cache, ctx`preChar, ctx`nochangePre, ctx`quoteChar
    ensures ctx.V().View? && Synced(ctx.V()) && BraceGoes(old(ctx.V()), ctx.V())
    ensures ctx.V().rest == [] || Top(ctx.V()) == Text
    ensures |ctx.V().rest| < |old(ctx.V()).rest|
  {
    hide Context.V, Ok, Ahead, InBrace, Synced, Ate, Wrote, Copied, Pushed, Popped, Reset, Cached,
      Recorded, WithNochange, WithQuote;
    ghost var v0: Live := ctx.V();
    ghost var v: Live := v0;
    OkStack(v0);
    while ctx.Count() != 0
      invariant ctx.V() == v && BraceGoes(v0, v) && Synced(v)
      invariant |v.rest| < |v0.rest| || v == v0
      decreases |v.rest|
    {
      OkStack(v);
      if ctx.State() == CssBrace {
        BraceTurn(ctx);
      } else if ctx.State() == CssQuote {
        StripQuote(ctx);
      } else if ctx.State() == CssComment {
        CommentSetsNochange(v);
        ctx.SetNochange(true);
        StripComment(ctx);
      } else {
        break;
      }
      RecordKeeps(ctx.V());
      ctx.RecordPre();
      v := ctx.V();
    }
  }

  // ---------- the main loop ----------

  ghost predicate AtText(v: Live) {
    Ok(v) && Synced(v) && Top(v) == Text && v.rest != []
  }

  /** A turn of the main loop, before `pre_char` is recorded. */
  ghost predicate MainGoes(v: Live, w: Live) {
    Ok(w) && AheadMain(Recorded(w)) == AheadMain(v)
  }

  /** A buffer that does not begin inside a string inside braces needs no freezing. */
  lemma {:induction false} NoFreeze(v: Live)
    requires Ok(v) && (v.rest == [] || !InBrace(v) || Top(v) != CssQuote)
    ensures AheadMain(v) == Ahead(v)
  {
  }

  lemma {:induction false} TextGoes(v: Live, w: Live)
    requires AtText(v) && Ok(w) && (w.rest == [] || !InBrace(w) || Top(w) != CssQuote)
    requires Ahead(Recorded(w)) == Ahead(v)
    ensures MainGoes(v, w)
  {
    NoFreeze(v);
    NoFreeze(Recorded(w));
  }

  lemma {:induction false} TextBlankDropped(v: Live)
    requires AtText(v) && Blank(v.rest[0]) && Blank(v.pre)
    ensures MainGoes(v, Ate(WithNochange(v, false)))
  {
    var w := Ate(WithNochange(v, false));
    One(v, Recorded(w));
    TextGoes(v, w);
  }

  lemma {:induction false} TextComment(v: Live)
    requires AtText(v) && |v.rest| >= 2 && v.rest[0] == '/' && v.rest[1] == '*'
    ensures |v.stack| < 3 && MainGoes(v, Pushed(Ate(Ate(WithNochange(v, false))), CssComment))
  {
    var w := Pushed(Ate(Ate(WithNochange(v, false))), CssComment);
    Two(v, Recorded(w));
    TextGoes(v, w);
  }

  lemma {:induction false} TextPair(v: Live)
    requires AtText(v) && |v.rest| >= 2 && v.rest[0] == '/' && v.rest[1] != '*'
    ensures MainGoes(v, Copied(Copied(WithNochange(v, false))))
  {
    var w := Copied(Copied(WithNochange(v, false)));
    Two(v, Recorded(w));
    TextGoes(v, w);
  }

  lemma {:induction false} TextCarry(v: Live)
    requires AtText(v) && v.rest == ['/']
    ensures MainGoes(v, Ate(Cached(WithNochange(v, false))))
  {
    var w := Ate(Cached(WithNochange(v, false)));
    One(v, Recorded(w));
    TextGoes(v, w);
  }

  lemma {:induction false} TextQuote(v: Live)
    requires AtText(v) && (v.rest[0] == '"' || v.rest[0] == '\'')
    ensures |v.stack| < 3 && MainGoes(v, Pushed(Copied(WithQuote(WithNochange(v, false), v.rest[0])), CssQuote))
  {
    var w := Pushed(Copied(WithQuote(WithNochange(v, false), v.rest[0])), CssQuote);
    One(v, Recorded(w));
    TextGoes(v, w);
  }

  lemma {:induction false} TextOpens(v: Live)
    requires AtText(v) && v.rest[0] == '{'
    ensures |v.stack| < 3 && MainGoes(v, Pushed(Copied(WithNochange(v, false)), CssBrace))
  {
    var w := Pushed(Copied(WithNochange(v, false)), CssBrace);
    One(v, Recorded(w));
    TextGoes(v, w);
  }

  lemma {:induction false} TextNewline(v: Live)
    requires AtText(v) && (v.rest[0] == '\n' || v.rest[0] == '\r')
    ensures MainGoes(v, Ate(WithNochange(v, false)))
  {
    var w := Ate(WithNochange(v, false));
    One(v, Recorded(w));
    TextGoes(v, w);
  }

  lemma {:induction false} TextByte(v: Live)
    requires AtText(v) && v.rest[0] !in {'/', '"', '\'', '{', '\n', '\r'}
    requires !(Blank(v.rest[0]) && Blank(v.pre))
    ensures MainGoes(v, Copied(WithNochange(v, false)))
  {
    var w := Copied(WithNochange(v, false));
    One(v, Recorded(w));
    TextGoes(v, w);
  }

  /** A buffer that begins in a comment or a string: `nochange_pre` is set first. */
  lemma {:induction false} MainSetsNochange(v: Live)
    requires Ok(v) && Synced(v) && v.rest != [] && (Top(v) == CssComment || Top(v) == CssQuote)
    ensures var v' := WithNochange(v, true);
            && Ok(v') && Ahead(v') == AheadMain(v)
            && (if Top(v) == CssComment then AtComment(v') else AtQuote(v'))
  {
    if Top(v) == CssComment {
      CommentSetsNochange(v);
      NoFreeze(v);
    }
  }

  /** A nested machine gives control back to the main loop. */
  lemma {:induction false} MainReturns(v: Live, w: Live)
    requires Ok(w) && Ahead(w) == AheadMain(v)
    requires w.rest == [] || Top(w) != CssQuote
    ensures MainGoes(v, w)
  {
    RecordKeeps(w);
    NoFreeze(Recorded(w));
  }

  /** `case minify_state_text`. */
  method TextTurn(ctx: Context)
    requires ctx.V().View? && AtText(ctx.V())
    modifies ctx`sspos, ctx.state, ctx`rpos, ctx`count, ctx`wpos, ctx`dstlen, ctx.dst
    modifies ctx`cachelen, ctx.cache, ctx`quoteChar, ctx`nochangePre
    ensures ctx.V().View? && MainGoes(old(ctx.V()), ctx.V())
    ensures |ctx.V().rest| < |old(ctx.V()).rest|
  {
    hide Context.V, Ok, Ahead, AheadMain, InBrace, Synced, Ate, Wrote, Copied, Pushed, Popped, Reset, Cached,
      Recorded, WithNochange, WithQuote;
    ghost var v: Live := ctx.V();
    OkStack(v);
    ctx.SetNochange(false);
    if ctx.At(0) == ' ' || ctx.At(0) == '\t' {
      if ctx.Pre() == ' ' || ctx.Pre() == '\t' {
        TextBlankDropped(v);
        ctx.IncRpos();
      } else {
        TextByte(v);
        ctx.CopyRpos();
      }
    } else if ctx.At(0) == '/' {
      if ctx.Count() >= 2 {
        if ctx.At(1) == '*' {
          TextComment(v);
          ctx.IncRpos();
          ctx.IncRpos();
          ctx.PushState(CssComment);
        } else {
          TextPair(v);
          ctx.CopyRpos();
          ctx.CopyRpos();
        }
      } else {
        TextCarry(v);
        CachesOne(v, '/');
        var _ := ctx.CacheRest("/");
        ctx.IncRpos();
      }
    } else if ctx.At(0) == '"' || ctx.At(0) == '\'' {
      TextQuote(v);
      ctx.SetQuote(ctx.At(0));
      ctx.CopyRpos();
      ctx.PushState(CssQuote);
    } else if ctx.At(0) == '{' {
      TextOpens(v);
      ctx.CopyRpos();
      ctx.PushState(CssBrace);
    } else if ctx.At(0) == '\n' || ctx.At(0) == '\r' {
      TextNewline(v);
      ctx.IncRpos();
    } else {
      TextByte(v);
      ctx.CopyRpos();
    }
  }

  /** A turn of the main loop. Its `default` case cannot be reached. */
  method MainTurn(ctx: Context)
    requires ctx.V().View? && Ok(ctx.V()) && Synced(ctx.V()) && ctx.V().rest != []
    modifies ctx`sspos, ctx.state, ctx`rpos, ctx`count, ctx`wpos, ctx`dstlen, ctx.dst
    modifies ctx`cachelen, ctx.cache, ctx`quoteChar, ctx`nochangePre, ctx`preChar
    ensures ctx.V().View? && Ok(ctx.V()) && Synced(ctx.V())
    ensures AheadMain(ctx.V()) == AheadMain(old(ctx.V()))
    ensures |ctx.V().rest| < |old(ctx.V()).rest|
  {
    hide Context.V, Ok, Ahead, AheadMain, InBrace, Synced, Ate, Wrote, Copied, Pushed, Popped, Reset, Cached,
      Recorded, WithNochange, WithQuote;
    ghost var v: Live := ctx.V();
    OkStack(v);
    if ctx.State() == Text {
      TextTurn(ctx);
    } else if ctx.State() == CssComment {
      MainSetsNochange(v);
      ctx.SetNochange(true);
      StripComment(ctx);
      MainReturns(v, ctx.V());
    } else if ctx.State() == CssQuote {
      MainSetsNochange(v);
      ctx.SetNochange(true);
      StripQuote(ctx);
      MainReturns(v, ctx.V());
    } else if ctx.State() == CssBrace {
      NoFreeze(v);
      StripBrace(ctx);
      MainReturns(v, ctx.V());
    } else {
      assert false;
    }
    RecordKeeps(ctx.V());
    ctx.RecordPre();
  }

  /** `ngx_minify_css_strip_buffer`: one buffer, from `src` to `dst`, which may be one array. */
  method StripBuffer(src: array<byte>, srclen: nat, dst: array<byte>, ctx: Context)
    requires ctx.V().View? && Ok(ctx.V()) && Synced(ctx.V()) && ctx.V().cache == []
    requires srclen <= src.Length && srclen <= dst.Length
    requires ctx.Apart(src) && ctx.Apart(dst)
    modifies ctx, ctx.state, ctx.cache, dst
    ensures ctx.V().View? && Ok(ctx.V()) && Synced(ctx.V()) && ctx.V().rest == []
    ensures ctx.dst == dst && ctx.src == src
    ensures M.Step(Abs(ctx.V()), ctx.V().out)
         == M.Buffer(Abs(old(ctx.V()).(out := [])), old(src[..srclen]))
  {
    hide Context.V, Ok, Ahead, AheadMain, InBrace, Synced, Ate, Wrote, Copied, Pushed, Popped, Reset, Cached,
      Recorded, WithNochange, WithQuote;
    Opens(ctx.V(), src[..srclen]);
    ctx.Open(src, srclen, dst);
    ghost var v0: Live := ctx.V();
    ghost var v: Live := v0;
    while ctx.Count() > 0
      invariant ctx.V() == v && Ok(v) && Synced(v) && AheadMain(v) == AheadMain(v0)
      invariant ctx.dst == dst && ctx.src == src
      decreases |v.rest|
    {
      MainTurn(ctx);
      v := ctx.V();
    }
    Finishes(v);
  }

  lemma {:induction false} Opens(v: Live, bytes: seq<byte>)
    requires Ok(v) && Synced(v) && v.cache == []
    ensures var v' := v.(rest := bytes, out := []);
            Ok(v') && Synced(v') && AheadMain(v') == M.Buffer(Abs(v.(out := [])), bytes)
  {
  }

  lemma {:induction false} Finishes(v: Live)
    requires v.rest == []
    ensures AheadMain(v) == M.Step(Abs(v), v.out)
  {
  }
}
