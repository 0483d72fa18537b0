/** The HTML minifier, in place: four nested loops over one buffer. */
module HtmlMinify {
  import opened Bytes
  import opened MinifyContext
  import M = HtmlMachine

  ghost predicate Shape(stack: seq<State>) {
    || stack == [Text] || stack == [HtmlSkip] || stack == [Abort]
    || stack == [Text, HtmlTag] || stack == [Text, HtmlTagBang] || stack == [Text, HtmlCdata]
    || stack == [Text, HtmlTag, HtmlTagName] || stack == [Text, HtmlTag, HtmlTagAtt]
    || stack == [Text, HtmlTag, HtmlTagNameEnd] || stack == [Text, HtmlTagBang, HtmlComment]
    || stack == [Text, HtmlTagBang, HtmlCommentIe] || stack == [Text, HtmlTagBang, HtmlCommentSkip]
  }

  ghost function ModeOf(top: State): M.Mode {
    match top
    case Text => M.Text
    case HtmlSkip => M.Skip
    case HtmlTag => M.Tag
    case HtmlTagBang => M.TagBang
    case HtmlComment => M.Comment
    case HtmlCommentIe => M.CommentIe
    case HtmlCommentSkip => M.CommentSkip
    case HtmlTagName => M.TagName
    case HtmlTagAtt => M.TagAtt
    case HtmlTagNameEnd => M.TagNameEnd
    case HtmlCdata => M.Cdata
    case _ => M.Abort
  }

  ghost function Taken(a: seq<byte>, n: nat): seq<byte> {
    if n <= |a| then a[..n] else []
  }

  /** The machine state that a context stands for. */
  ghost function Abs(v: Live): M.Html {
    var mode := ModeOf(Top(v));
    M.Html(mode, if M.HoldsPre(mode) then v.pre else '\0', Last(v.out),
           Taken(v.tag, v.tagLen), Taken(v.end, v.endLen), v.cache)
  }

  /** In a tag `pre_char` is recorded, in a comment it is not. */
  ghost predicate Calm(v: Live) {
    match Top(v)
    case HtmlTag => !v.nochange
    case HtmlTagBang => !v.nochange
    case HtmlTagName => !v.nochange
    case HtmlTagAtt => !v.nochange
    case HtmlTagNameEnd => !v.nochange
    case HtmlCdata => !v.nochange
    case HtmlComment => v.nochange
    case HtmlCommentIe => v.nochange
    case HtmlCommentSkip => v.nochange
    case _ => true
  }

  ghost predicate Framed(v: Live) {
    && Shape(v.stack) && Calm(v)
    && |v.tag| == |v.end| == CTX_CACHE_BUFLEN && v.tagLen <= |v.tag| && v.endLen <= |v.end|
  }

  ghost predicate Ok(v: Live) {
    Framed(v) && M.Reachable(Abs(v), v.rest) && M.Fits(Abs(v), v.rest)
  }

  /** What will have been written, and the final state, if the machine goes on from here. */
  ghost function Ahead(v: Live): M.Step {
    if M.Ready(Abs(v), v.rest) then M.After(v.out, M.Run(Abs(v), v.rest)) else M.Step(Abs(v), v.out)
  }

  lemma {:induction false} Moves(v: Live, v': Live)
    requires Ok(v) && v.rest != [] && Framed(v')
    requires var m := M.Next(Abs(v), v.rest);
             && Abs(v') == m.st && v'.out == v.out + m.out
             && m.used <= |v.rest| && v'.rest == v.rest[m.used..]
    ensures Ok(v') && Ahead(v') == Ahead(v)
  {
    hide Framed, Abs, M.Next;
    var m := M.Next(Abs(v), v.rest);
    M.NextProgress(Abs(v), v.rest);
    M.NextReachable(Abs(v), v.rest);
    M.AfterAfter(v.out, m.out, M.Run(Abs(v'), v'.rest));
  }

  lemma {:induction false} OkStack(v: Live)
    requires Ok(v)
    ensures 0 < |v.stack| <= 3 && v.tagLen < |v.tag| && v.endLen < |v.end|
    ensures Top(v) != Text && Top(v) != HtmlSkip && Top(v) != Abort ==> |v.stack| > 1
    ensures v.rest != [] ==> v.cache == []
  {
  }

  /** A turn: the view moves on, what lies ahead stays. */
  ghost predicate Goes(v: Live, v': Live) {
    Ok(v') && Ahead(v') == Ahead(v)
  }

  /** Recording `pre_char` now would not change the machine state. */
  ghost predicate Settled(v: Live) {
    Abs(Recorded(v)) == Abs(v)
  }

  ghost predicate At(v: Live, top: State) {
    Ok(v) && Top(v) == top && v.rest != []
  }

  lemma {:induction false} CachesRest(v: Live, c: seq<byte>)
    requires Ok(v) && v.rest != [] && |v.rest| < |c| <= 9
    ensures SameNoCase(c[..|v.rest|], v.rest) == M.Begins(v.rest, c) && v.cache == []
    ensures c[..|v.rest|] == v.rest ==> M.Begins(v.rest, c)
  {
  }

  lemma {:induction false} CachesOne(v: Live, c: byte)
    requires Ok(v) && v.rest == [c]
    ensures SameNoCase([c][..|v.rest|], v.rest) && v.cache == []
  {
  }

  // ---------- tag names and attributes ----------

  const SKIP_TAGS := ["pre", "script", "style"]

  /** The place in the table of the collected name, if it is the name of a block whose content is
      skipped. */
  method GetSkipTagname(ctx: Context) returns (r: int)
    requires ctx.V().View? && ctx.V().tagLen <= |ctx.V().tag|
    ensures var name := ctx.V().tag[..ctx.V().tagLen];
            r == if SameNoCase(name, "pre") then 0
                 else if SameNoCase(name, "script") then 1
                 else if SameNoCase(name, "style") then 2
                 else -1
    ensures r >= 0 <==> M.SkipName(ctx.V().tag[..ctx.V().tagLen])
  {
    var i := 0;
    assert SKIP_TAGS[0] == "pre" && SKIP_TAGS[1] == "script" && SKIP_TAGS[2] == "style";
    while i < |SKIP_TAGS|
      invariant 0 <= i <= |SKIP_TAGS|
      invariant forall j :: 0 <= j < i ==> !SameNoCase(ctx.V().tag[..ctx.V().tagLen], SKIP_TAGS[j])
    {
      if ctx.TagIs(SKIP_TAGS[i]) {
        return i;
      }
      i := i + 1;
    }
    return -1;
  }

  /** In an attribute `pre_char` is the byte written last in this buffer, or zero. */
  ghost predicate TagPre(v: Live) {
    Top(v) == HtmlTagAtt ==> v.pre == Last(v.out).GetOr('\0')
  }

  lemma {:induction false} NameEndsSkip(v: Live)
    requires At(v, HtmlTagName) && v.rest[0] == '>' && M.SkipName(v.tag[..v.tagLen])
    ensures v.tagLen < |v.tag|
    ensures Goes(v, Recorded(Reset(TagClosed(Copied(v)), HtmlSkip)))
    ensures Settled(Recorded(Reset(TagClosed(Copied(v)), HtmlSkip)))
  {
    Moves(v, Recorded(Reset(TagClosed(Copied(v)), HtmlSkip)));
  }

  lemma {:induction false} NameEndsText(v: Live)
    requires At(v, HtmlTagName) && v.rest[0] == '>' && !M.SkipName(v.tag[..v.tagLen])
    ensures v.tagLen < |v.tag|
    ensures Goes(v, Recorded(Reset(TagCleared(TagClosed(Copied(v))), Text)))
  {
    Moves(v, Recorded(Reset(TagCleared(TagClosed(Copied(v))), Text)));
  }

  lemma {:induction false} NameThenAttSkip(v: Live)
    requires At(v, HtmlTagName) && (v.rest[0] == ' ' || v.rest[0] == '/') && M.SkipName(v.tag[..v.tagLen])
    ensures v.tagLen < |v.tag| && |v.stack| > 1
    ensures Goes(v, Recorded(Pushed(Popped(TagClosed(Copied(v))), HtmlTagAtt)))
    ensures TagPre(Recorded(Pushed(Popped(TagClosed(Copied(v))), HtmlTagAtt)))
  {
    Moves(v, Recorded(Pushed(Popped(TagClosed(Copied(v))), HtmlTagAtt)));
  }

  lemma {:induction false} NameThenAtt(v: Live)
    requires At(v, HtmlTagName) && (v.rest[0] == ' ' || v.rest[0] == '/') && !M.SkipName(v.tag[..v.tagLen])
    ensures v.tagLen < |v.tag| && |v.stack| > 1
    ensures Goes(v, Recorded(Pushed(Popped(TagCleared(TagClosed(Copied(v)))), HtmlTagAtt)))
    ensures TagPre(Recorded(Pushed(Popped(TagCleared(TagClosed(Copied(v)))), HtmlTagAtt)))
  {
    Moves(v, Recorded(Pushed(Popped(TagCleared(TagClosed(Copied(v)))), HtmlTagAtt)));
  }

  lemma {:induction false} NameByte(v: Live)
    requires At(v, HtmlTagName) && v.rest[0] !in {'>', ' ', '/'}
    ensures v.tagLen < |v.tag|
    ensures Goes(v, Recorded(Copied(TagAdded(v, v.rest[0]))))
  {
    var v' := Recorded(Copied(TagAdded(v, v.rest[0])));
    assert v'.tag[..v'.tagLen] == v.tag[..v.tagLen] + [v.rest[0]];
    NameFits(v);
    Moves(v, v');
  }

  lemma {:induction false} AttSpace(v: Live)
    requires At(v, HtmlTagAtt) && TagPre(v) && v.rest[0] == ' ' && v.pre == ' '
    ensures Goes(v, Recorded(Ate(v)))
    ensures TagPre(Recorded(Ate(v)))
  {
    Moves(v, Recorded(Ate(v)));
  }

  lemma {:induction false} AttEndsSkip(v: Live)
    requires At(v, HtmlTagAtt) && TagPre(v) && v.rest[0] == '>' && v.tagLen != 0
    ensures Goes(v, Recorded(Reset(Copied(v), HtmlSkip)))
  {
    Moves(v, Recorded(Reset(Copied(v), HtmlSkip)));
  }

  lemma {:induction false} AttEndsText(v: Live)
    requires At(v, HtmlTagAtt) && TagPre(v) && v.rest[0] == '>' && v.tagLen == 0
    ensures Goes(v, Recorded(Reset(Copied(v), Text)))
  {
    Moves(v, Recorded(Reset(Copied(v), Text)));
  }

  lemma {:induction false} AttSlashEnd(v: Live)
    requires At(v, HtmlTagAtt) && TagPre(v) && |v.rest| >= 2 && v.rest[0] == '/' && v.rest[1] == '>'
    ensures Goes(v, Recorded(TagCleared(Copied(v))))
    ensures TagPre(Recorded(TagCleared(Copied(v))))
  {
    Moves(v, Recorded(TagCleared(Copied(v))));
  }

  lemma {:induction false} AttPair(v: Live)
    requires At(v, HtmlTagAtt) && TagPre(v) && |v.rest| >= 2 && v.rest[0] == '/' && v.rest[1] != '>'
    ensures Goes(v, Recorded(Copied(Copied(v))))
    ensures TagPre(Recorded(Copied(Copied(v))))
  {
    var v' := Recorded(Copied(Copied(v)));
    assert v.rest[1..][1..] == v.rest[2..];
    assert v.out + [v.rest[0]] + [v.rest[1..][0]] == v.out + v.rest[..2];
    Moves(v, v');
  }

  lemma {:induction false} AttCarry(v: Live)
    requires At(v, HtmlTagAtt) && TagPre(v) && v.rest == ['/']
    ensures Goes(v, Recorded(Ate(Cached(v))))
    ensures TagPre(Recorded(Ate(Cached(v))))
  {
    assert v.cache + v.rest == v.rest;
    Moves(v, Recorded(Ate(Cached(v))));
  }

  lemma {:induction false} AttByte(v: Live)
    requires At(v, HtmlTagAtt) && TagPre(v) && v.rest[0] !in {'>', '/'}
    requires v.rest[0] == ' ' ==> v.pre != ' '
    ensures Goes(v, Recorded(Copied(v)))
    ensures TagPre(Recorded(Copied(v)))
  {
    Moves(v, Recorded(Copied(v)));
  }

  lemma {:induction false} EndSpace(v: Live)
    requires At(v, HtmlTagNameEnd) && v.rest[0] == ' '
    ensures Goes(v, Recorded(Ate(v)))
  {
    Moves(v, Recorded(Ate(v)));
  }

  lemma {:induction false} EndByteNamed(v: Live)
    requires At(v, HtmlTagNameEnd) && v.rest[0] !in {' ', '>'} && v.tagLen != 0
    ensures v.endLen < |v.end|
    ensures Goes(v, Recorded(Copied(EndAdded(v, v.rest[0]))))
  {
    var v' := Recorded(Copied(EndAdded(v, v.rest[0])));
    assert v'.end[..v'.endLen] == v.end[..v.endLen] + [v.rest[0]];
    EndFits(v);
    Moves(v, v');
  }

  lemma {:induction false} EndByte(v: Live)
    requires At(v, HtmlTagNameEnd) && v.rest[0] !in {' ', '>'} && v.tagLen == 0
    ensures Goes(v, Recorded(Copied(v)))
  {
    Moves(v, Recorded(Copied(v)));
  }

  lemma {:induction false} EndPlain(v: Live)
    requires At(v, HtmlTagNameEnd) && v.rest[0] == '>' && v.endLen == 0
    ensures Goes(v, Recorded(Reset(Copied(v), Text)))
  {
    Moves(v, Recorded(Reset(Copied(v), Text)));
  }

  /** `memcmp` against the closed cache finds the remembered name exactly when it begins the
      collected text: what is left in the cache from earlier tags cannot match. */
  lemma {:induction false} MatchIsPrefix(v: Live)
    requires Ok(v) && Top(v) == HtmlTagNameEnd && v.endLen != 0
    ensures v.endLen < |v.end| && v.tagLen <= |v.tag| && v.tagLen <= |v.end|
    ensures (v.tag[..v.tagLen] == EndClosed(v).end[..v.tagLen]) == (v.tag[..v.tagLen] <= v.end[..v.endLen])
  {
    var name, closed := v.tag[..v.tagLen], EndClosed(v).end;
    SkipNameHasNoNul(name);
    if v.tagLen <= v.endLen {
      assert closed[..v.tagLen] == v.end[..v.endLen][..v.tagLen];
    } else {
      assert closed[..v.tagLen][v.endLen] == '\0' != name[v.endLen];
    }
  }

  lemma {:induction false} SkipNameHasNoNul(name: seq<byte>)
    requires M.SkipName(name)
    ensures '\0' !in name
  {
    forall i | 0 <= i < |name| ensures name[i] != '\0' {
      assert 'a' <= Lower(name[i]) <= 'z';
    }
  }

  lemma {:induction false} EndMatches(v: Live)
    requires At(v, HtmlTagNameEnd) && v.rest[0] == '>' && v.endLen != 0
    requires v.tag[..v.tagLen] <= v.end[..v.endLen]
    ensures v.endLen < |v.end|
    ensures Goes(v, Recorded(EndCleared(TagCleared(Reset(EndClosed(Copied(v)), Text)))))
  {
    Moves(v, Recorded(EndCleared(TagCleared(Reset(EndClosed(Copied(v)), Text)))));
  }

  lemma {:induction false} EndDiffers(v: Live)
    requires At(v, HtmlTagNameEnd) && v.rest[0] == '>' && v.endLen != 0
    requires !(v.tag[..v.tagLen] <= v.end[..v.endLen])
    ensures v.endLen < |v.end|
    ensures Goes(v, Recorded(EndCleared(Reset(EndClosed(Copied(v)), HtmlSkip))))
  {
    Moves(v, Recorded(EndCleared(Reset(EndClosed(Copied(v)), HtmlSkip))));
  }

  lemma {:induction false} NameFits(v: Live)
    requires At(v, HtmlTagName) && v.rest[0] !in {'>', ' ', '/'}
    ensures v.tagLen + 1 < |v.tag|
  {
    M.FitsNext(Abs(v), v.rest);
  }

  lemma {:induction false} EndFits(v: Live)
    requires At(v, HtmlTagNameEnd) && v.rest[0] !in {'>', ' '} && v.tagLen != 0
    ensures v.endLen + 1 < |v.end|
  {
    M.FitsNext(Abs(v), v.rest);
  }

  lemma {:induction false} CopyKeeps(v: Live)
    requires Ok(v) && v.rest != []
    ensures var c := Copied(v);
            && c.tag == v.tag && c.tagLen == v.tagLen && c.end == v.end && c.endLen == v.endLen
            && c.tagLen < |c.tag| && c.endLen < |c.end|
  {
  }

  lemma {:induction false} CloseKeeps(v: Live)
    requires v.tagLen < |v.tag|
    ensures var c := TagClosed(v);
            && c.tagLen == v.tagLen && |c.tag| == |v.tag| && c.tag[..c.tagLen] == v.tag[..v.tagLen]
  {
  }

  lemma {:induction false} EndCloseKeeps(v: Live)
    requires Ok(v) && v.rest != []
    ensures v.endLen < |v.end|
    ensures var c := EndClosed(Copied(v));
            c.tag == v.tag && c.tagLen == v.tagLen && c.end == EndClosed(v).end
  {
  }

  ghost predicate InTagName(v: Live) {
    Top(v) == HtmlTagName || Top(v) == HtmlTagAtt || Top(v) == HtmlTagNameEnd
  }

  /** The `>` behind a tag's name. */
  method NameClosed(ctx: Context)
    requires ctx.V().View? && At(ctx.V(), HtmlTagName) && ctx.V().rest[0] == '>'
    modifies ctx`sspos, ctx.state, ctx`rpos, ctx`count, ctx`wpos, ctx`dstlen, ctx.dst
    modifies ctx`cachelen, ctx.cache, ctx`nochangePre, ctx`preChar
    modifies ctx`tagcachelen, ctx.tagcache, ctx`tagendcachelen, ctx.tagendcache
    ensures ctx.V().View? && Goes(old(ctx.V()), Recorded(ctx.V())) && TagPre(Recorded(ctx.V()))
    ensures Top(ctx.V()) == Text || Top(ctx.V()) == HtmlSkip
    ensures |ctx.V().rest| < |old(ctx.V()).rest|
  {
    hide Context.V, Ok, Ahead, Ate, Wrote, Copied, Pushed, Popped, Reset, Cached, Recorded,
      WithNochange, WithPre, AteN, CopiedN, TagAdded, TagClosed, TagCleared, EndAdded, EndClosed,
      EndCleared, M.Begins, M.SkipName, SameNoCase;
    ghost var v: Live := ctx.V();
    OkStack(v);
    CopyKeeps(v);
    CloseKeeps(Copied(v));
    ctx.CopyRpos();
    ctx.TagClose();
    var r := GetSkipTagname(ctx);
    if r >= 0 {
      NameEndsSkip(v);
      ctx.SetState(HtmlSkip);
    } else {
      NameEndsText(v);
      ctx.TagClear();
      ctx.SetState(Text);
    }
  }

  /** The space or the slash behind it. */
  method NameSeparated(ctx: Context)
    requires ctx.V().View? && At(ctx.V(), HtmlTagName) && (ctx.V().rest[0] == ' ' || ctx.V().rest[0] == '/')
    modifies ctx`sspos, ctx.state, ctx`rpos, ctx`count, ctx`wpos, ctx`dstlen, ctx.dst
    modifies ctx`cachelen, ctx.cache, ctx`nochangePre, ctx`preChar
    modifies ctx`tagcachelen, ctx.tagcache, ctx`tagendcachelen, ctx.tagendcache
    ensures ctx.V().View? && Goes(old(ctx.V()), Recorded(ctx.V())) && TagPre(Recorded(ctx.V()))
    ensures InTagName(ctx.V())
    ensures |ctx.V().rest| < |old(ctx.V()).rest|
  {
    hide Context.V, Ok, Ahead, Ate, Wrote, Copied, Pushed, Popped, Reset, Cached, Recorded,
      WithNochange, WithPre, AteN, CopiedN, TagAdded, TagClosed, TagCleared, EndAdded, EndClosed,
      EndCleared, M.Begins, M.SkipName, SameNoCase;
    ghost var v: Live := ctx.V();
    OkStack(v);
    CopyKeeps(v);
    CloseKeeps(Copied(v));
    ctx.CopyRpos();
    ctx.TagClose();
    var r := GetSkipTagname(ctx);
    if r < 0 {
      NameThenAtt(v);
      ctx.TagClear();
    } else {
      NameThenAttSkip(v);
    }
    ctx.PopState();
    ctx.PushState(HtmlTagAtt);
  }

  /** `case html_state_tagname`. */
  method NameTurn(ctx: Context)
    requires ctx.V().View? && At(ctx.V(), HtmlTagName)
    modifies ctx`sspos, ctx.state, ctx`rpos, ctx`count, ctx`wpos, ctx`dstlen, ctx.dst
    modifies ctx`cachelen, ctx.cache, ctx`nochangePre, ctx`preChar
    modifies ctx`tagcachelen, ctx.tagcache, ctx`tagendcachelen, ctx.tagendcache
    ensures ctx.V().View? && Goes(old(ctx.V()), Recorded(ctx.V())) && TagPre(Recorded(ctx.V()))
    ensures InTagName(ctx.V()) || Top(ctx.V()) == Text || Top(ctx.V()) == HtmlSkip
    ensures |ctx.V().rest| < |old(ctx.V()).rest|
  {
    hide Context.V, Ok, Ahead, Ate, Wrote, Copied, Pushed, Popped, Reset, Cached, Recorded,
      WithNochange, WithPre, AteN, CopiedN, TagAdded, TagClosed, TagCleared, EndAdded, EndClosed,
      EndCleared, M.Begins, M.SkipName, SameNoCase;
    ghost var v: Live := ctx.V();
    OkStack(v);
    CopyKeeps(v);
    if ctx.At(0) == '>' {
      NameClosed(ctx);
    } else if ctx.At(0) == ' ' || ctx.At(0) == '/' {
      NameSeparated(ctx);
    } else {
      NameByte(v);
      ctx.TagAdd(ctx.At(0));
      ctx.CopyRpos();
    }
  }

  /** `case html_state_tagatt`. */
  method AttTurn(ctx: Context)
    requires ctx.V().View? && At(ctx.V(), HtmlTagAtt) && TagPre(ctx.V())
    modifies ctx`sspos, ctx.state, ctx`rpos, ctx`count, ctx`wpos, ctx`dstlen, ctx.dst
    modifies ctx`cachelen, ctx.cache, ctx`nochangePre, ctx`preChar
    modifies ctx`tagcachelen, ctx.tagcache, ctx`tagendcachelen, ctx.tagendcache
    ensures ctx.V().View? && Goes(old(ctx.V()), Recorded(ctx.V())) && TagPre(Recorded(ctx.V()))
    ensures InTagName(ctx.V()) || Top(ctx.V()) == Text || Top(ctx.V()) == HtmlSkip
    ensures |ctx.V().rest| < |old(ctx.V()).rest|
  {
    hide Context.V, Ok, Ahead, Ate, Wrote, Copied, Pushed, Popped, Reset, Cached, Recorded,
      WithNochange, WithPre, AteN, CopiedN, TagAdded, TagClosed, TagCleared, EndAdded, EndClosed,
      EndCleared, M.Begins, M.SkipName;
    ghost var v: Live := ctx.V();
    OkStack(v);
    CopyKeeps(v);
    if ctx.At(0) == ' ' && ctx.Pre() == ' ' {
      AttSpace(v);
      ctx.IncRpos();
    } else if ctx.At(0) == '>' {
      ctx.CopyRpos();
      if ctx.TagLen() != 0 {
        AttEndsSkip(v);
        ctx.SetState(HtmlSkip);
      } else {
        AttEndsText(v);
        ctx.SetState(Text);
      }
    } else if ctx.At(0) == '/' {
      if ctx.Count() >= 2 {
        if ctx.At(1) == '>' {
          AttSlashEnd(v);
          ctx.CopyRpos();
          ctx.TagClear();
        } else {
          AttPair(v);
          ctx.CopyRpos();
          ctx.CopyRpos();
        }
      } else {
        AttCarry(v);
        CachesOne(v, '/');
        var _ := ctx.CacheRest("/");
        ctx.IncRpos();
      }
    } else {
      AttByte(v);
      ctx.CopyRpos();
    }
  }

  /** `case html_state_tagname_end`. */
  method EndTurn(ctx: Context)
    requires ctx.V().View? && At(ctx.V(), HtmlTagNameEnd)
    modifies ctx`sspos, ctx.state, ctx`rpos, ctx`count, ctx`wpos, ctx`dstlen, ctx.dst
    modifies ctx`cachelen, ctx.cache, ctx`nochangePre, ctx`preChar
    modifies ctx`tagcachelen, ctx.tagcache, ctx`tagendcachelen, ctx.tagendcache
    ensures ctx.V().View? && Goes(old(ctx.V()), Recorded(ctx.V())) && TagPre(Recorded(ctx.V()))
    ensures InTagName(ctx.V()) || Top(ctx.V()) == Text || Top(ctx.V()) == HtmlSkip
    ensures |ctx.V().rest| < |old(ctx.V()).rest|
  {
    hide Context.V, Ok, Ahead, Ate, Wrote, Copied, Pushed, Popped, Reset, Cached, Recorded,
      WithNochange, WithPre, AteN, CopiedN, TagAdded, TagClosed, TagCleared, EndAdded, EndClosed,
      EndCleared, M.Begins, M.SkipName;
    ghost var v: Live := ctx.V();
    OkStack(v);
    CopyKeeps(v);
    EndCloseKeeps(v);
    if ctx.At(0) == ' ' {
      EndSpace(v);
      ctx.IncRpos();
    } else if ctx.At(0) == '>' {
      ctx.CopyRpos();
      if ctx.EndLen() != 0 {
        MatchIsPrefix(v);
        ctx.EndClose();
        if ctx.TagMatches() {
          EndMatches(v);
          ctx.SetState(Text);
          ctx.TagClear();
        } else {
          EndDiffers(v);
          ctx.SetState(HtmlSkip);
        }
        ctx.EndClear();
      } else {
        EndPlain(v);
        ctx.SetState(Text);
      }
    } else {
      if ctx.TagLen() != 0 {
        EndByteNamed(v);
        ctx.EndAdd(ctx.At(0));
      } else {
        EndByte(v);
      }
      ctx.CopyRpos();
    }
  }

  lemma {:induction false} RecordedSettled(w: Live)
    ensures Settled(Recorded(w))
  {
  }

  /** Entering the tag-name machine. */
  lemma {:induction false} PreCleared(v: Live)
    requires Ok(v) && InTagName(v) && (Top(v) == HtmlTagAtt ==> v.out == [])
    ensures var w := WithPre(v, '\0'); Goes(v, w) && TagPre(w) && Settled(w)
  {
    assert Abs(WithPre(v, '\0')) == Abs(v);
  }

  lemma {:induction false} SkipSetsNochange(v: Live)
    requires Ok(v) && Top(v) == HtmlSkip
    ensures Goes(v, WithNochange(v, true)) && Settled(WithNochange(v, true))
  {
    assert Abs(WithNochange(v, true)) == Abs(v);
  }

  /** The three cases. */
  method TagNameTurn(ctx: Context)
    requires ctx.V().View? && Ok(ctx.V()) && InTagName(ctx.V()) && ctx.V().rest != [] && TagPre(ctx.V())
    modifies ctx`sspos, ctx.state, ctx`rpos, ctx`count, ctx`wpos, ctx`dstlen, ctx.dst
    modifies ctx`cachelen, ctx.cache, ctx`nochangePre, ctx`preChar
    modifies ctx`tagcachelen, ctx.tagcache, ctx`tagendcachelen, ctx.tagendcache
    ensures ctx.V().View? && Goes(old(ctx.V()), Recorded(ctx.V())) && TagPre(Recorded(ctx.V()))
    ensures InTagName(ctx.V()) || Top(ctx.V()) == Text || Top(ctx.V()) == HtmlSkip
    ensures |ctx.V().rest| < |old(ctx.V()).rest|
  {
    hide Context.V, Ok, Goes, Recorded, TagPre;
    if ctx.State() == HtmlTagName {
      NameTurn(ctx);
    } else if ctx.State() == HtmlTagAtt {
      AttTurn(ctx);
    } else {
      EndTurn(ctx);
    }
  }

  lemma {:induction false} GoesThrough(v0: Live, v: Live, w: Live)
    requires Goes(v0, v) && Goes(v, w)
    ensures Goes(v0, w) && Ok(w)
  {
    hide Ok, Ahead;
  }

  lemma {:induction false} GoesOk(v: Live, w: Live)
    requires Goes(v, w)
    ensures Ok(w)
  {
    hide Ok, Ahead;
  }

  method StripTagName(ctx: Context)
    requires ctx.V().View? && Ok(ctx.V()) && InTagName(ctx.V()) && ctx.V().rest != []
    requires Top(ctx.V()) == HtmlTagAtt ==> ctx.V().out == []
    modifies ctx`sspos, ctx.state, ctx`rpos, ctx`count, ctx`wpos, ctx`dstlen, ctx.dst
    modifies ctx`cachelen, ctx.cache, ctx`nochangePre, ctx`preChar
    modifies ctx`tagcachelen, ctx.tagcache, ctx`tagendcachelen, ctx.tagendcache
    ensures ctx.V().View? && Goes(old(ctx.V()), ctx.V()) && Settled(ctx.V())
    ensures ctx.V().rest == [] || Top(ctx.V()) == Text || Top(ctx.V()) == HtmlSkip
    ensures |ctx.V().rest| < |old(ctx.V()).rest|
  {
    hide Context.V, Ok, Ahead, Ate, Wrote, Copied, Pushed, Popped, Reset, Cached, Recorded,
      WithNochange, WithPre, AteN, CopiedN, TagAdded, TagClosed, TagCleared, EndAdded, EndClosed,
      EndCleared, M.Begins, M.SkipName, Settled, Goes, TagPre;
    ghost var v0: Live := ctx.V();
    PreCleared(v0);
    ctx.SetPre('\0');
    ghost var v: Live := ctx.V();
    GoesOk(v0, v);
    while ctx.Count() != 0
      invariant ctx.V() == v && Ok(v) && Goes(v0, v) && TagPre(v) && Settled(v)
      invariant InTagName(v) || Top(v) == Text || Top(v) == HtmlSkip
      invariant |v.rest| < |v0.rest| || (v.rest == v0.rest && InTagName(v))
      decreases |v.rest|
    {
      if ctx.State() == HtmlTagName || ctx.State() == HtmlTagAtt || ctx.State() == HtmlTagNameEnd {
        TagNameTurn(ctx);
      } else {
        if ctx.State() == HtmlSkip {
          SkipSetsNochange(v);
          ctx.SetNochange(true);
          GoesThrough(v0, v, ctx.V());
        }
        break;
      }
      RecordedSettled(ctx.V());
      ctx.RecordPre();
      GoesThrough(v0, v, ctx.V());
      v := ctx.V();
    }
  }

  // ---------- comments ----------

  ghost predicate InComment(v: Live) {
    Top(v) == HtmlComment || Top(v) == HtmlCommentIe || Top(v) == HtmlCommentSkip
  }

  /** A turn of the comment machine: `nochange_pre` stays set. */
  ghost predicate NoteGoes(v: Live, w: Live) {
    Goes(v, w) && w.nochange && (InComment(w) || Top(w) == Text)
  }

  /** An opened comment begins with `<!--`. */
  lemma {:induction false} NoteReady(v: Live)
    requires At(v, HtmlComment)
    ensures |v.rest| >= 4 && v.rest[..4] == "<!--" && |v.stack| > 1
  {
  }

  lemma {:induction false} NoteCarry(v: Live)
    requires At(v, HtmlComment) && |v.rest| == 4
    ensures SameNoCase("<!--"[..|v.rest|], v.rest)
    ensures NoteGoes(v, AteN(Cached(v), 4))
  {
    assert v.rest[..4] == v.rest;
    assert v.cache + v.rest == v.rest;
    assert v.rest[|v.rest|..] == [];
    Moves(v, AteN(Cached(v), 4));
  }

  lemma {:induction false} NoteIsIe(v: Live)
    requires At(v, HtmlComment) && |v.rest| >= 7 && v.rest[..7] == "<!--[if"
    ensures |v.stack| > 1
    ensures NoteGoes(v, Pushed(Popped(v), HtmlCommentIe))
  {
    assert v.rest[0..] == v.rest && v.rest[..7][4] == '[';
    assert v.out + [] == v.out;
    Moves(v, Pushed(Popped(v), HtmlCommentIe));
  }

  lemma {:induction false} NoteIsPlain(v: Live)
    requires At(v, HtmlComment) && |v.rest| >= 5
    requires v.rest[4] == '[' ==>
               if |v.rest| >= 7 then v.rest[..7] != "<!--[if" else !M.Begins(v.rest, "<!--[if")
    ensures |v.stack| > 1
    ensures NoteGoes(v, Pushed(Popped(AteN(v, 4)), HtmlCommentSkip))
  {
    Moves(v, Pushed(Popped(AteN(v, 4)), HtmlCommentSkip));
  }

  lemma {:induction false} NoteCarryIe(v: Live)
    requires At(v, HtmlComment) && |v.rest| < 7 && |v.rest| > 4 && v.rest[4] == '[' && M.Begins(v.rest, "<!--[if")
    ensures NoteGoes(v, AteN(Cached(v), |v.rest|))
  {
    assert v.cache + v.rest == v.rest;
    assert v.rest[|v.rest|..] == [];
    Moves(v, AteN(Cached(v), |v.rest|));
  }

  lemma {:induction false} IeEnds(v: Live)
    requires At(v, HtmlCommentIe) && v.rest[0] == ']' && |v.rest| >= 4 && v.rest[..4] == "]-->"
    ensures NoteGoes(v, Reset(CopiedN(v, 4), Text))
  {
    assert v.rest[..4][3] == v.rest[3];
    Moves(v, Reset(CopiedN(v, 4), Text));
  }

  lemma {:induction false} IeFour(v: Live)
    requires At(v, HtmlCommentIe) && v.rest[0] == ']' && |v.rest| >= 4 && v.rest[..4] != "]-->"
    ensures NoteGoes(v, CopiedN(v, 4))
  {
    Moves(v, CopiedN(v, 4));
  }

  lemma {:induction false} IeCarry(v: Live)
    requires At(v, HtmlCommentIe) && v.rest[0] == ']' && |v.rest| < 4 && M.Begins(v.rest, "]-->")
    ensures NoteGoes(v, AteN(Cached(v), |v.rest|))
  {
    assert v.cache + v.rest == v.rest;
    assert v.rest[|v.rest|..] == [];
    Moves(v, AteN(Cached(v), |v.rest|));
  }

  /** Near the end of a buffer a bracket that does not begin `]-->` is lost. */
  lemma {:induction false} IeDrops(v: Live)
    requires At(v, HtmlCommentIe) && v.rest[0] == ']' && |v.rest| < 4 && !M.Begins(v.rest, "]-->")
    ensures NoteGoes(v, Ate(v))
  {
    Moves(v, Ate(v));
  }

  lemma {:induction false} IeByte(v: Live)
    requires At(v, HtmlCommentIe) && v.rest[0] != ']'
    ensures NoteGoes(v, Copied(v))
  {
    Moves(v, Copied(v));
  }

  lemma {:induction false} SkipEnds(v: Live)
    requires At(v, HtmlCommentSkip) && v.rest[0] == '-' && |v.rest| >= 3 && v.rest[..3] == "-->"
    ensures NoteGoes(v, Reset(AteN(v, 3), Text))
  {
    Moves(v, Reset(AteN(v, 3), Text));
  }

  lemma {:induction false} SkipThree(v: Live)
    requires At(v, HtmlCommentSkip) && v.rest[0] == '-' && |v.rest| >= 3 && v.rest[..3] != "-->"
    ensures NoteGoes(v, AteN(v, 3))
  {
    Moves(v, AteN(v, 3));
  }

  lemma {:induction false} SkipCarry(v: Live)
    requires At(v, HtmlCommentSkip) && v.rest[0] == '-' && |v.rest| < 3 && M.Begins(v.rest, "-->")
    ensures NoteGoes(v, AteN(Cached(v), |v.rest|))
  {
    assert v.cache + v.rest == v.rest;
    assert v.rest[|v.rest|..] == [];
    Moves(v, AteN(Cached(v), |v.rest|));
  }

  lemma {:induction false} SkipDrops(v: Live)
    requires At(v, HtmlCommentSkip) && v.rest[0] == '-' && |v.rest| < 3 && !M.Begins(v.rest, "-->")
    ensures NoteGoes(v, Ate(v))
  {
    Moves(v, Ate(v));
  }

  lemma {:induction false} SkipByte(v: Live)
    requires At(v, HtmlCommentSkip) && v.rest[0] != '-'
    ensures NoteGoes(v, Ate(v))
  {
    Moves(v, Ate(v));
  }

  /** `case html_state_comment`. */
  method NoteTurn(ctx: Context)
    requires ctx.V().View? && At(ctx.V(), HtmlComment)
    modifies ctx`sspos, ctx.state, ctx`rpos, ctx`count, ctx`wpos, ctx`dstlen, ctx.dst
    modifies ctx`cachelen, ctx.cache
    ensures ctx.V().View? && NoteGoes(old(ctx.V()), ctx.V())
    ensures Top(ctx.V()) == HtmlCommentIe || |ctx.V().rest| < |old(ctx.V()).rest|
    ensures |ctx.V().rest| <= |old(ctx.V()).rest|
  {
    hide Context.V, Ok, Ahead, Ate, Wrote, Copied, Pushed, Popped, Reset, Cached, Recorded,
      WithNochange, WithPre, AteN, CopiedN, TagAdded, TagClosed, TagCleared, EndAdded, EndClosed,
      EndCleared, M.Begins, M.SkipName;
    ghost var v: Live := ctx.V();
    OkStack(v);
    NoteReady(v);
    if ctx.Count() == 4 {
      NoteCarry(v);
      var cached := ctx.CacheRest("<!--");
      ctx.IncRposN(cached);
    } else if ctx.At(4) == '[' {
      if ctx.Count() >= 7 {
        if ctx.Starts("<!--[if") {
          NoteIsIe(v);
          ctx.PopState();
          ctx.PushState(HtmlCommentIe);
        } else {
          NoteIsPlain(v);
          ctx.IncRposN(4);
          ctx.PopState();
          ctx.PushState(HtmlCommentSkip);
        }
      } else {
        CachesRest(v, "<!--[if");
        var cached := ctx.CacheRest("<!--[if");
        if cached == -1 {
          NoteIsPlain(v);
          ctx.IncRposN(4);
          ctx.PopState();
          ctx.PushState(HtmlCommentSkip);
        } else {
          NoteCarryIe(v);
          ctx.IncRposN(cached);
        }
      }
    } else {
      NoteIsPlain(v);
      ctx.IncRposN(4);
      ctx.PopState();
      ctx.PushState(HtmlCommentSkip);
    }
  }

  /** `case html_state_comment_ie`. */
  method IeTurn(ctx: Context)
    requires ctx.V().View? && At(ctx.V(), HtmlCommentIe)
    modifies ctx`sspos, ctx.state, ctx`rpos, ctx`count, ctx`wpos, ctx`dstlen, ctx.dst
    modifies ctx`cachelen, ctx.cache
    ensures ctx.V().View? && NoteGoes(old(ctx.V()), ctx.V())
    ensures |ctx.V().rest| < |old(ctx.V()).rest|
  {
    hide Context.V, Ok, Ahead, Ate, Wrote, Copied, Pushed, Popped, Reset, Cached, Recorded,
      WithNochange, WithPre, AteN, CopiedN, TagAdded, TagClosed, TagCleared, EndAdded, EndClosed,
      EndCleared, M.Begins, M.SkipName;
    ghost var v: Live := ctx.V();
    OkStack(v);
    if ctx.At(0) == ']' {
      if ctx.Count() >= 4 {
        if ctx.Starts("]-->") {
          IeEnds(v);
          ctx.CopyRposN(4);
          ctx.SetState(Text);
        } else {
          IeFour(v);
          ctx.CopyRposN(4);
        }
      } else {
        CachesRest(v, "]-->");
        var cached := ctx.CacheRest("]-->");
        if cached == -1 {
          IeDrops(v);
          ctx.IncRpos();
        } else {
          IeCarry(v);
          ctx.IncRposN(cached);
        }
      }
    } else {
      IeByte(v);
      ctx.CopyRpos();
    }
  }

  /** `case html_state_comment_skip`. */
  method SkipTurn(ctx: Context)
    requires ctx.V().View? && At(ctx.V(), HtmlCommentSkip)
    modifies ctx`sspos, ctx.state, ctx`rpos, ctx`count, ctx`wpos, ctx`dstlen, ctx.dst
    modifies ctx`cachelen, ctx.cache
    ensures ctx.V().View? && NoteGoes(old(ctx.V()), ctx.V())
    ensures |ctx.V().rest| < |old(ctx.V()).rest|
  {
    hide Context.V, Ok, Ahead, Ate, Wrote, Copied, Pushed, Popped, Reset, Cached, Recorded,
      WithNochange, WithPre, AteN, CopiedN, TagAdded, TagClosed, TagCleared, EndAdded, EndClosed,
      EndCleared, M.Begins, M.SkipName;
    ghost var v: Live := ctx.V();
    OkStack(v);
    if ctx.At(0) == '-' {
      if ctx.Count() >= 3 {
        if ctx.Starts("-->") {
          SkipEnds(v);
          ctx.IncRposN(3);
          ctx.SetState(Text);
        } else {
          SkipThree(v);
          ctx.IncRposN(3);
        }
      } else {
        CachesRest(v, "-->");
        var cached := ctx.CacheRest("-->");
        if cached == -1 {
          SkipDrops(v);
          ctx.IncRpos();
        } else {
          SkipCarry(v);
          ctx.IncRposN(cached);
        }
      }
    } else {
      SkipByte(v);
      ctx.IncRpos();
    }
  }

  method StripComment(ctx: Context)
    requires ctx.V().View? && Ok(ctx.V()) && InComment(ctx.V()) && ctx.V().rest != [] && ctx.V().nochange
    modifies ctx`sspos, ctx.state, ctx`rpos, ctx`count, ctx`wpos, ctx`dstlen, ctx.dst
    modifies ctx`cachelen, ctx.cache
    ensures ctx.V().View? && NoteGoes(old(ctx.V()), ctx.V())
    ensures ctx.V().rest == [] || Top(ctx.V()) == Text
    ensures |ctx.V().rest| < |old(ctx.V()).rest|
  {
    hide Context.V, Ok, Ahead, Ate, Wrote, Copied, Pushed, Popped, Reset, Cached, Recorded,
      WithNochange, WithPre, AteN, CopiedN, TagAdded, TagClosed, TagCleared, EndAdded, EndClosed,
      EndCleared, M.Begins, M.SkipName;
    ghost var v0: Live := ctx.V();
    ghost var v: Live := v0;
    while ctx.Count() != 0
      invariant ctx.V() == v && NoteGoes(v0, v)
      invariant |v.rest| < |v0.rest| || (|v.rest| == |v0.rest| && InComment(v))
      decreases |v.rest|, if Top(v) == HtmlComment then 1 else 0
    {
      if ctx.State() == HtmlComment {
        NoteTurn(ctx);
      } else if ctx.State() == HtmlCommentIe {
        IeTurn(ctx);
      } else if ctx.State() == HtmlCommentSkip {
        SkipTurn(ctx);
      } else {
        break;
      }
      v := ctx.V();
    }
  }

  // ---------- tags, declarations and CDATA ----------

  lemma {:induction false} TagSpace(v: Live)
    requires At(v, HtmlTag) && v.rest[0] == ' '
    ensures Goes(v, Recorded(Ate(v)))
    ensures Settled(Ate(v))
  {
    Moves(v, Recorded(Ate(v)));
  }

  lemma {:induction false} TagCloses(v: Live)
    requires At(v, HtmlTag) && v.rest[0] == '/'
    ensures |v.stack| < 3
    ensures Goes(v, Recorded(Pushed(Copied(v), HtmlTagNameEnd)))
    ensures Settled(Pushed(Copied(v), HtmlTagNameEnd))
  {
    Moves(v, Recorded(Pushed(Copied(v), HtmlTagNameEnd)));
  }

  lemma {:induction false} TagNamed(v: Live)
    requires At(v, HtmlTag) && v.rest[0] != ' ' && v.rest[0] != '/'
    ensures |v.stack| < 3
    ensures Goes(v, Recorded(EndCleared(TagCleared(Pushed(v, HtmlTagName)))))
    ensures Settled(EndCleared(TagCleared(Pushed(v, HtmlTagName))))
  {
    Moves(v, Recorded(EndCleared(TagCleared(Pushed(v, HtmlTagName)))));
  }

  /** `<!` is only looked at with a third byte in sight, so `count <= 2` cannot be. */
  lemma {:induction false} BangReady(v: Live)
    requires At(v, HtmlTagBang)
    ensures |v.rest| >= 3 && v.rest[0] == '<' && v.rest[1] == '!'
  {
  }

  lemma {:induction false} BangDoctype(v: Live)
    requires At(v, HtmlTagBang) && Settled(v) && |v.rest| >= 3 && v.rest[2] != '-' && v.rest[2] != '['
    ensures |v.stack| > 1
    ensures Goes(v, Recorded(Pushed(Popped(Copied(Copied(v))), HtmlTag)))
    ensures Settled(Pushed(Popped(Copied(Copied(v))), HtmlTag))
  {
    CopyTwice(v);
    Moves(v, Recorded(Pushed(Popped(Copied(Copied(v))), HtmlTag)));
  }

  lemma {:induction false} BangComment(v: Live)
    requires At(v, HtmlTagBang) && Settled(v) && |v.rest| >= 4 && v.rest[..4] == "<!--"
    ensures |v.stack| < 3
    ensures Goes(v, Recorded(WithNochange(Pushed(v, HtmlComment), true)))
    ensures Settled(WithNochange(Pushed(v, HtmlComment), true))
    ensures (WithNochange(Pushed(v, HtmlComment), true)).nochange
  {
    assert v.rest[..4][2] == v.rest[2] && v.rest[..4][3] == v.rest[3];
    assert v.rest[0..] == v.rest && v.out + [] == v.out;
    Moves(v, Recorded(WithNochange(Pushed(v, HtmlComment), true)));
  }

  lemma {:induction false} BangDash(v: Live)
    requires At(v, HtmlTagBang) && Settled(v) && |v.rest| >= 4 && v.rest[2] == '-' && v.rest[..4] != "<!--"
    ensures |v.stack| > 1
    ensures Goes(v, Recorded(Pushed(Popped(Copied(Copied(Copied(v)))), HtmlTag)))
    ensures Settled(Pushed(Popped(Copied(Copied(Copied(v)))), HtmlTag))
  {
    BangReady(v);
    CopyTwice(v);
    CopyThrice(v);
    Moves(v, Recorded(Pushed(Popped(Copied(Copied(Copied(v)))), HtmlTag)));
  }

  lemma {:induction false} BangCarryDash(v: Live)
    requires At(v, HtmlTagBang) && Settled(v) && |v.rest| == 3 && v.rest[2] == '-'
    ensures SameNoCase("<!--"[..|v.rest|], v.rest)
    ensures Goes(v, Recorded(AteN(Cached(v), |v.rest|)))
    ensures Settled(AteN(Cached(v), |v.rest|))
  {
    BangReady(v);
    assert v.rest == "<!-";
    assert "<!--"[..3] == "<!-";
    assert v.cache + v.rest == v.rest;
    assert v.rest[|v.rest|..] == [];
    Moves(v, Recorded(AteN(Cached(v), |v.rest|)));
  }

  lemma {:induction false} BangCdata(v: Live)
    requires At(v, HtmlTagBang) && Settled(v) && |v.rest| >= 9 && v.rest[2] == '[' && v.rest[..9] == "<![CDATA["
    ensures |v.stack| > 1
    ensures Goes(v, Recorded(Pushed(Popped(CopiedN(v, 9)), HtmlCdata)))
    ensures Settled(Pushed(Popped(CopiedN(v, 9)), HtmlCdata))
  {
    Moves(v, Recorded(Pushed(Popped(CopiedN(v, 9)), HtmlCdata)));
  }

  lemma {:induction false} BangNine(v: Live)
    requires At(v, HtmlTagBang) && Settled(v) && |v.rest| >= 9 && v.rest[2] == '[' && v.rest[..9] != "<![CDATA["
    ensures Goes(v, Recorded(Reset(CopiedN(v, 9), Text)))
  {
    Moves(v, Recorded(Reset(CopiedN(v, 9), Text)));
  }

  lemma {:induction false} BangCarryBracket(v: Live)
    requires At(v, HtmlTagBang) && Settled(v) && |v.rest| < 9 && |v.rest| >= 3 && v.rest[2] == '['
    requires M.Begins(v.rest, "<![CDATA[")
    ensures Goes(v, Recorded(AteN(Cached(v), |v.rest|)))
    ensures Settled(AteN(Cached(v), |v.rest|))
  {
    assert v.cache + v.rest == v.rest;
    assert v.rest[|v.rest|..] == [];
    Moves(v, Recorded(AteN(Cached(v), |v.rest|)));
  }

  lemma {:induction false} BangAborts(v: Live)
    requires At(v, HtmlTagBang) && Settled(v) && |v.rest| < 9 && |v.rest| >= 3 && v.rest[2] == '['
    requires !M.Begins(v.rest, "<![CDATA[")
    ensures Goes(v, Recorded(Reset(v, Abort)))
    ensures Settled(Reset(v, Abort))
  {
    assert v.rest[0..] == v.rest && v.out + [] == v.out;
    Moves(v, Recorded(Reset(v, Abort)));
  }

  lemma {:induction false} CdataEnds(v: Live)
    requires At(v, HtmlCdata) && v.rest[0] == ']' && |v.rest| >= 3 && v.rest[..3] == "]]>"
    ensures Goes(v, Recorded(Reset(CopiedN(v, 3), Text)))
  {
    Moves(v, Recorded(Reset(CopiedN(v, 3), Text)));
  }

  lemma {:induction false} CdataThree(v: Live)
    requires At(v, HtmlCdata) && v.rest[0] == ']' && |v.rest| >= 3 && v.rest[..3] != "]]>"
    ensures Goes(v, Recorded(Copied(Copied(Copied(v)))))
    ensures Settled(Copied(Copied(Copied(v))))
  {
    CopyTwice(v);
    CopyThrice(v);
    Moves(v, Recorded(Copied(Copied(Copied(v)))));
  }

  lemma {:induction false} CdataCarry(v: Live)
    requires At(v, HtmlCdata) && v.rest[0] == ']' && |v.rest| < 3 && M.Begins(v.rest, "]]>")
    ensures Goes(v, Recorded(AteN(Cached(v), |v.rest|)))
    ensures Settled(AteN(Cached(v), |v.rest|))
  {
    assert v.cache + v.rest == v.rest;
    assert v.rest[|v.rest|..] == [];
    Moves(v, Recorded(AteN(Cached(v), |v.rest|)));
  }

  lemma {:induction false} CdataByte(v: Live)
    requires At(v, HtmlCdata) && (v.rest[0] != ']' || (|v.rest| < 3 && !M.Begins(v.rest, "]]>")))
    ensures Goes(v, Recorded(Copied(v)))
    ensures Settled(Copied(v))
  {
    Moves(v, Recorded(Copied(v)));
  }

  lemma {:induction false} CopyTwice(v: Live)
    requires |v.rest| >= 2
    ensures Copied(Copied(v)) == CopiedN(v, 2)
  {
    assert v.rest[1..][1..] == v.rest[2..];
    assert v.out + [v.rest[0]] + [v.rest[1..][0]] == v.out + v.rest[..2];
  }

  lemma {:induction false} CopyThrice(v: Live)
    requires |v.rest| >= 3
    ensures Copied(Copied(Copied(v))) == CopiedN(v, 3)
  {
    CopyTwice(v);
    assert v.rest[2..][1..] == v.rest[3..];
    assert v.out + v.rest[..2] + [v.rest[2..][0]] == v.out + v.rest[..3];
  }

  /** A turn of the tag machine, before `pre_char` is recorded. */
  ghost predicate TagGoes(v: Live, w: Live) {
    Goes(v, Recorded(w)) && (Top(w) == Text || Settled(w))
  }

  /** `case html_state_tag`. */
  method TagTurn(ctx: Context)
    requires ctx.V().View? && At(ctx.V(), HtmlTag)
    modifies ctx`sspos, ctx.state, ctx`rpos, ctx`count, ctx`wpos, ctx`dstlen, ctx.dst
    modifies ctx`cachelen, ctx.cache, ctx`nochangePre, ctx`preChar
    modifies ctx`tagcachelen, ctx.tagcache, ctx`tagendcachelen, ctx.tagendcache
    ensures ctx.V().View? && TagGoes(old(ctx.V()), ctx.V())
    ensures |ctx.V().rest| <= |old(ctx.V()).rest|
    ensures if |ctx.V().rest| == |old(ctx.V()).rest| then Top(ctx.V()) == HtmlTagName
            else Top(ctx.V()) == HtmlTag || Top(ctx.V()) == HtmlTagNameEnd
  {
    hide Context.V, Ok, Ahead, Ate, Wrote, Copied, Pushed, Popped, Reset, Cached, Recorded,
      WithNochange, WithPre, AteN, CopiedN, TagAdded, TagClosed, TagCleared, EndAdded, EndClosed,
      EndCleared, M.Begins, M.SkipName, Settled;
    ghost var v: Live := ctx.V();
    OkStack(v);
    if ctx.At(0) == ' ' {
      TagSpace(v);
      ctx.IncRpos();
    } else if ctx.At(0) == '/' {
      TagCloses(v);
      ctx.CopyRpos();
      ctx.PushState(HtmlTagNameEnd);
    } else {
      TagNamed(v);
      ctx.PushState(HtmlTagName);
      ctx.TagClear();
      ctx.EndClear();
    }
  }

  /** Where `<!` leads: to a comment or to the end of the machine without a byte consumed. */
  ghost predicate BangLeads(v: Live, w: Live) {
    if |w.rest| == |v.rest| then
      (Top(w) == HtmlComment && w.nochange) || Top(w) == Abort
    else
      w.rest == [] || Top(w) == HtmlTag || Top(w) == HtmlCdata || Top(w) == Text
  }

  /** `<![`. */
  method BangBracket(ctx: Context)
    requires ctx.V().View? && At(ctx.V(), HtmlTagBang) && Settled(ctx.V())
    requires |ctx.V().rest| >= 3 && ctx.V().rest[2] == '['
    modifies ctx`sspos, ctx.state, ctx`rpos, ctx`count, ctx`wpos, ctx`dstlen, ctx.dst
    modifies ctx`cachelen, ctx.cache, ctx`nochangePre, ctx`preChar
    modifies ctx`tagcachelen, ctx.tagcache, ctx`tagendcachelen, ctx.tagendcache
    ensures ctx.V().View? && TagGoes(old(ctx.V()), ctx.V())
    ensures |ctx.V().rest| <= |old(ctx.V()).rest|
    ensures BangLeads(old(ctx.V()), ctx.V())
  {
    hide Context.V, Ok, Ahead, Ate, Wrote, Copied, Pushed, Popped, Reset, Cached, Recorded,
      WithNochange, WithPre, AteN, CopiedN, TagAdded, TagClosed, TagCleared, EndAdded, EndClosed,
      EndCleared, M.Begins, M.SkipName, Settled;
    ghost var v: Live := ctx.V();
    OkStack(v);
    if ctx.Count() >= 9 {
      if ctx.Starts("<![CDATA[") {
        BangCdata(v);
        ctx.CopyRposN(9);
        ctx.PopState();
        ctx.PushState(HtmlCdata);
      } else {
        BangNine(v);
        ctx.CopyRposN(9);
        ctx.SetState(Text);
      }
    } else {
      CachesRest(v, "<![CDATA[");
      var cached := ctx.CacheRest("<![CDATA[");
      if cached == -1 {
        BangAborts(v);
        ctx.SetState(Abort);
      } else {
        BangCarryBracket(v);
        ctx.IncRposN(cached);
      }
    }
  }

  /** `case html_state_tag_bang`. */
  method BangTurn(ctx: Context)
    requires ctx.V().View? && At(ctx.V(), HtmlTagBang) && Settled(ctx.V())
    modifies ctx`sspos, ctx.state, ctx`rpos, ctx`count, ctx`wpos, ctx`dstlen, ctx.dst
    modifies ctx`cachelen, ctx.cache, ctx`nochangePre, ctx`preChar
    modifies ctx`tagcachelen, ctx.tagcache, ctx`tagendcachelen, ctx.tagendcache
    ensures ctx.V().View? && TagGoes(old(ctx.V()), ctx.V())
    ensures |ctx.V().rest| <= |old(ctx.V()).rest|
    ensures BangLeads(old(ctx.V()), ctx.V())
  {
    hide Context.V, Ok, Ahead, Ate, Wrote, Copied, Pushed, Popped, Reset, Cached, Recorded,
      WithNochange, WithPre, AteN, CopiedN, TagAdded, TagClosed, TagCleared, EndAdded, EndClosed,
      EndCleared, M.Begins, M.SkipName, Settled;
    ghost var v: Live := ctx.V();
    OkStack(v);
    BangReady(v);
    if ctx.Count() <= 2 {
      assert false;
    } else if ctx.At(2) != '-' && ctx.At(2) != '[' {
      BangDoctype(v);
      ctx.CopyRpos();
      ctx.CopyRpos();
      ctx.PopState();
      ctx.PushState(HtmlTag);
    } else if ctx.At(2) == '-' {
      if ctx.Count() >= 4 {
        if ctx.Starts("<!--") {
          BangComment(v);
          ctx.PushState(HtmlComment);
          ctx.SetNochange(true);
        } else {
          BangDash(v);
          ctx.CopyRpos();
          ctx.CopyRpos();
          ctx.CopyRpos();
          ctx.PopState();
          ctx.PushState(HtmlTag);
        }
      } else {
        BangCarryDash(v);
        var cached := ctx.CacheRest("<!--");
        if cached == -1 {
          assert false;
        } else {
          ctx.IncRposN(cached);
        }
      }
    } else {
      BangBracket(ctx);
    }
  }

  /** `case html_state_cdata`. */
  method CdataTurn(ctx: Context)
    requires ctx.V().View? && At(ctx.V(), HtmlCdata)
    modifies ctx`sspos, ctx.state, ctx`rpos, ctx`count, ctx`wpos, ctx`dstlen, ctx.dst
    modifies ctx`cachelen, ctx.cache, ctx`nochangePre, ctx`preChar
    modifies ctx`tagcachelen, ctx.tagcache, ctx`tagendcachelen, ctx.tagendcache
    ensures ctx.V().View? && TagGoes(old(ctx.V()), ctx.V())
    ensures |ctx.V().rest| < |old(ctx.V()).rest|
    ensures Top(ctx.V()) == HtmlCdata || Top(ctx.V()) == Text
  {
    hide Context.V, Ok, Ahead, Ate, Wrote, Copied, Pushed, Popped, Reset, Cached, Recorded,
      WithNochange, WithPre, AteN, CopiedN, TagAdded, TagClosed, TagCleared, EndAdded, EndClosed,
      EndCleared, M.Begins, M.SkipName, Settled;
    ghost var v: Live := ctx.V();
    OkStack(v);
    if ctx.At(0) == ']' {
      if ctx.Count() >= 3 {
        if ctx.Starts("]]>") {
          CdataEnds(v);
          ctx.CopyRposN(3);
          ctx.SetState(Text);
        } else {
          CdataThree(v);
          ctx.CopyRpos();
          ctx.CopyRpos();
          ctx.CopyRpos();
        }
      } else {
        CachesRest(v, "]]>");
        var cached := ctx.CacheRest("]]>");
        if cached == -1 {
          CdataByte(v);
          ctx.CopyRpos();
        } else {
          CdataCarry(v);
          ctx.IncRposN(cached);
        }
      }
    } else {
      CdataByte(v);
      ctx.CopyRpos();
    }
  }

  lemma {:induction false} SettledOk(v: Live)
    requires Settled(v)
    ensures Ok(Recorded(v)) == Ok(v) && Ahead(Recorded(v)) == Ahead(v)
  {
  }

  lemma {:induction false} TagReturns(v: Live, w: Live)
    requires Goes(v, w) && (Settled(w) || w.nochange)
    ensures Settled(w) && Goes(v, Recorded(w))
  {
    SettledOk(w);
  }

  ghost predicate Outside(v: Live) {
    Top(v) == Text || Top(v) == HtmlSkip || Top(v) == Abort
  }

  /** The measure of the moves that consume nothing. */
  ghost function TagRank(top: State): nat {
    if top == HtmlTagBang then 2 else if top == HtmlTag then 1 else 0
  }

  /** What the tag machine may assume before each turn. */
  ghost predicate Enters(v: Live) {
    && Ok(v) && Settled(v) && !Outside(v) && v.rest != []
    && (Top(v) == HtmlTagAtt ==> v.out == [])
    && (InComment(v) ==> v.nochange)
  }

  /** What a turn leads to: another turn, the end of the buffer or the end of the machine. Only
      `<` before a name and `<!` lead on without consuming a byte. */
  ghost predicate Leads(v: Live, w: Live) {
    && TagGoes(v, w)
    && (w.rest == [] || Outside(w) || Enters(w))
    && (|w.rest| < |v.rest| ||
        (|w.rest| == |v.rest| && TagRank(Top(w)) < TagRank(Top(v))
         && (Outside(w) ==> Top(v) == HtmlTagBang && Top(w) == Abort)))
  }

  lemma {:induction false} TagTurnLeads(v: Live, w: Live)
    requires Enters(v) && TagGoes(v, w) && |w.rest| <= |v.rest|
    requires |w.rest| == |v.rest| ==>
               || (Top(v) == HtmlTag && Top(w) == HtmlTagName)
               || (Top(v) == HtmlTagBang && ((Top(w) == HtmlComment && w.nochange) || Top(w) == Abort))
    requires w.rest == [] || Outside(w) || Top(w) == HtmlTag || Top(w) == HtmlTagName
          || Top(w) == HtmlTagNameEnd || Top(w) == HtmlCdata || (Top(w) == HtmlComment && w.nochange)
    ensures Leads(v, w)
  {
    if Top(w) != Text {
      SettledOk(w);
    }
  }

  /** One turn of the tag machine, nested machines included. */
  method TagDispatch(ctx: Context)
    requires ctx.V().View? && Enters(ctx.V())
    modifies ctx`sspos, ctx.state, ctx`rpos, ctx`count, ctx`wpos, ctx`dstlen, ctx.dst
    modifies ctx`cachelen, ctx.cache, ctx`nochangePre, ctx`preChar
    modifies ctx`tagcachelen, ctx.tagcache, ctx`tagendcachelen, ctx.tagendcache
    ensures ctx.V().View? && Leads(old(ctx.V()), ctx.V())
  {
    hide Context.V, Ok, Ahead, Ate, Wrote, Copied, Pushed, Popped, Reset, Cached, Recorded,
      WithNochange, WithPre, AteN, CopiedN, TagAdded, TagClosed, TagCleared, EndAdded, EndClosed,
      EndCleared, M.Begins, M.SkipName, Settled;
    ghost var v: Live := ctx.V();
    if ctx.State() == HtmlTag {
      TagTurn(ctx);
      TagTurnLeads(v, ctx.V());
    } else if ctx.State() == HtmlTagBang {
      BangTurn(ctx);
      TagTurnLeads(v, ctx.V());
    } else if ctx.State() == HtmlCdata {
      CdataTurn(ctx);
      TagTurnLeads(v, ctx.V());
    } else if ctx.State() == HtmlTagName || ctx.State() == HtmlTagNameEnd || ctx.State() == HtmlTagAtt {
      StripTagName(ctx);
      TagReturns(v, ctx.V());
      TagTurnLeads(v, ctx.V());
    } else {
      OkTop(v);
      StripComment(ctx);
      TagReturns(v, ctx.V());
      TagTurnLeads(v, ctx.V());
    }
  }

  lemma {:induction false} OkTop(v: Live)
    requires Ok(v)
    ensures Outside(v) || InTagName(v) || InComment(v) || Top(v) == HtmlTag || Top(v) == HtmlTagBang
         || Top(v) == HtmlCdata
  {
  }

  ghost predicate Stayed(v0: Live, v: Live) {
    && TagGoes(v0, v)
    && (v.rest == [] || Outside(v) || Enters(v))
    && (|v.rest| < |v0.rest|
        || v == v0
        || (|v.rest| == |v0.rest| && TagRank(Top(v)) < TagRank(Top(v0))
            && (Outside(v) ==> Top(v0) == HtmlTagBang && Top(v) == Abort)))
  }

  lemma {:induction false} LeadsOn(v0: Live, v: Live, w: Live)
    requires Stayed(v0, v) && Enters(v) && Enters(v0) && Leads(v, w)
    ensures Stayed(v0, w)
  {
    SettledOk(v);
  }

  method StripTag(ctx: Context)
    requires ctx.V().View? && Enters(ctx.V())
    modifies ctx`sspos, ctx.state, ctx`rpos, ctx`count, ctx`wpos, ctx`dstlen, ctx.dst
    modifies ctx`cachelen, ctx.cache, ctx`nochangePre, ctx`preChar
    modifies ctx`tagcachelen, ctx.tagcache, ctx`tagendcachelen, ctx.tagendcache
    ensures ctx.V().View? && TagGoes(old(ctx.V()), ctx.V())
    ensures ctx.V().rest == [] || Outside(ctx.V())
    ensures |ctx.V().rest| <= |old(ctx.V()).rest|
    ensures |ctx.V().rest| == |old(ctx.V()).rest| ==>
              Top(old(ctx.V())) == HtmlTagBang && Top(ctx.V()) == Abort
  {
    hide Context.V, Ok, Ahead, Ate, Wrote, Copied, Pushed, Popped, Reset, Cached, Recorded,
      WithNochange, WithPre, AteN, CopiedN, TagAdded, TagClosed, TagCleared, EndAdded, EndClosed,
      EndCleared, M.Begins, M.SkipName, Settled;
    ghost var v0: Live := ctx.V();
    ghost var v: Live := v0;
    SettledOk(v0);
    while ctx.Count() != 0
      invariant ctx.V() == v && Stayed(v0, v)
      decreases |v.rest|, TagRank(Top(v))
    {
      if ctx.State() == Text || ctx.State() == HtmlSkip || ctx.State() == Abort {
        if ctx.State() == HtmlSkip {
          SkipKeeps(v0, v);
          ctx.SetNochange(true);
        }
        v := ctx.V();
        break;
      }
      TagDispatch(ctx);
      LeadsOn(v0, v, ctx.V());
      v := ctx.V();
    }
  }

  lemma {:induction false} SkipKeeps(v0: Live, v: Live)
    requires Stayed(v0, v) && Enters(v0) && Top(v) == HtmlSkip
    ensures Stayed(v0, WithNochange(v, true))
  {
    hide Ok, Ahead, Recorded, Settled, WithNochange;
    SettledOk(v);
    SkipSetsNochange(v);
    SettledOk(WithNochange(v, true));
  }

  // ---------- the main loop ----------

  lemma {:induction false} TextDropped(v: Live)
    requires At(v, Text) && (v.rest[0] in {'\n', '\r', '\t'} || (v.rest[0] == ' ' && v.pre == ' '))
    ensures Goes(v, Recorded(Ate(WithNochange(v, false))))
  {
    Moves(v, Recorded(Ate(WithNochange(v, false))));
  }

  lemma {:induction false} TextTag(v: Live)
    requires At(v, Text) && |v.rest| >= 2 && v.rest[0] == '<' && v.rest[1] != '!'
    ensures |v.stack| < 3
    ensures Goes(v, Recorded(Pushed(Copied(WithNochange(v, false)), HtmlTag)))
  {
    Moves(v, Recorded(Pushed(Copied(WithNochange(v, false)), HtmlTag)));
  }

  lemma {:induction false} TextBang(v: Live)
    requires At(v, Text) && |v.rest| > 2 && v.rest[0] == '<' && v.rest[1] == '!'
    ensures |v.stack| < 3
    ensures Goes(v, Recorded(Pushed(WithNochange(v, false), HtmlTagBang)))
  {
    assert v.rest[0..] == v.rest && v.out + [] == v.out;
    Moves(v, Recorded(Pushed(WithNochange(v, false), HtmlTagBang)));
  }

  lemma {:induction false} TextCarryBang(v: Live)
    requires At(v, Text) && |v.rest| == 2 && v.rest[0] == '<' && v.rest[1] == '!'
    ensures SameNoCase("<!"[..|v.rest|], v.rest)
    ensures Goes(v, Recorded(Ate(Ate(Cached(WithNochange(v, false))))))
  {
    hide M.NextTagBang, M.NextComment, M.NextTagName, M.NextTagAtt, M.NextTagNameEnd, M.Begins, M.SkipName;
    assert v.rest == "<!" && v.cache + v.rest == v.rest;
    assert v.rest[1..][1..] == [] == v.rest[2..];
    Moves(v, Recorded(Ate(Ate(Cached(WithNochange(v, false))))));
  }

  lemma {:induction false} TextCarry(v: Live)
    requires At(v, Text) && v.rest == ['<']
    ensures Goes(v, Recorded(Ate(Cached(WithNochange(v, false)))))
  {
    assert v.cache + v.rest == v.rest;
    Moves(v, Recorded(Ate(Cached(WithNochange(v, false)))));
  }

  lemma {:induction false} TextByte(v: Live)
    requires At(v, Text) && v.rest[0] !in {'\n', '\r', '\t', '<'} && (v.rest[0] == ' ' ==> v.pre != ' ')
    ensures Goes(v, Recorded(Copied(WithNochange(v, false))))
  {
    Moves(v, Recorded(Copied(WithNochange(v, false))));
  }

  /** `</` leaves the skipped block for the text, which at once goes on into the tag: the same as
      copying the `<` here. */
  lemma {:induction false} BlockLeft(v: Live)
    requires At(v, HtmlSkip) && |v.rest| >= 2 && v.rest[0] == '<' && v.rest[1] == '/'
    ensures Goes(v, Recorded(Reset(v, Text)))
  {
    var w := Recorded(Reset(v, Text));
    assert M.Next(Abs(w), w.rest) == M.Next(Abs(v), v.rest);
    M.NextProgress(Abs(v), v.rest);
  }

  lemma {:induction false} BlockPair(v: Live)
    requires At(v, HtmlSkip) && |v.rest| >= 2 && v.rest[0] == '<' && v.rest[1] != '/'
    ensures Goes(v, Recorded(Copied(Copied(v))))
  {
    CopyTwice(v);
    Moves(v, Recorded(Copied(Copied(v))));
  }

  lemma {:induction false} BlockCarry(v: Live)
    requires At(v, HtmlSkip) && v.rest == ['<']
    ensures Goes(v, Recorded(Ate(Cached(v))))
  {
    assert v.cache + v.rest == v.rest;
    Moves(v, Recorded(Ate(Cached(v))));
  }

  lemma {:induction false} BlockCopy(v: Live)
    requires At(v, HtmlSkip) && v.rest[0] != '<'
    ensures Goes(v, Recorded(Copied(v)))
  {
    Moves(v, Recorded(Copied(v)));
  }

  lemma {:induction false} AbortCopy(v: Live)
    requires At(v, Abort)
    ensures Goes(v, Recorded(Copied(v)))
  {
    Moves(v, Recorded(Copied(v)));
  }

  /** `case minify_state_text`. */
  method TextTurn(ctx: Context)
    requires ctx.V().View? && At(ctx.V(), Text)
    modifies ctx`sspos, ctx.state, ctx`rpos, ctx`count, ctx`wpos, ctx`dstlen, ctx.dst
    modifies ctx`cachelen, ctx.cache, ctx`nochangePre, ctx`preChar
    modifies ctx`tagcachelen, ctx.tagcache, ctx`tagendcachelen, ctx.tagendcache
    ensures ctx.V().View? && Goes(old(ctx.V()), Recorded(ctx.V()))
    ensures |ctx.V().rest| < |old(ctx.V()).rest|
         || (|ctx.V().rest| == |old(ctx.V()).rest| && Top(ctx.V()) == HtmlTagBang)
    ensures Top(ctx.V()) == Text || Top(ctx.V()) == HtmlTag || Top(ctx.V()) == HtmlTagBang
  {
    hide Context.V, Ok, Ahead, Ate, Wrote, Copied, Pushed, Popped, Reset, Cached, Recorded,
      WithNochange, WithPre, AteN, CopiedN, TagAdded, TagClosed, TagCleared, EndAdded, EndClosed,
      EndCleared, M.Begins, M.SkipName, Settled;
    ghost var v: Live := ctx.V();
    OkStack(v);
    ctx.SetNochange(false);
    if ctx.At(0) == '\n' || ctx.At(0) == '\r' || ctx.At(0) == '\t' {
      TextDropped(v);
      ctx.IncRpos();
    } else if ctx.At(0) == '<' {
      if ctx.Count() >= 2 {
        if ctx.At(1) != '!' {
          TextTag(v);
          ctx.CopyRpos();
          ctx.PushState(HtmlTag);
        } else {
          if ctx.Count() > 2 {
            TextBang(v);
            ctx.PushState(HtmlTagBang);
          } else if ctx.Count() == 2 {
            TextCarryBang(v);
            var _ := ctx.CacheRest("<!");
            ctx.IncRpos();
            ctx.IncRpos();
          }
        }
      } else {
        TextCarry(v);
        CachesOne(v, '<');
        var _ := ctx.CacheRest("<");
        ctx.IncRpos();
      }
    } else if ctx.At(0) == ' ' && ctx.Pre() == ' ' {
      TextDropped(v);
      ctx.IncRpos();
    } else if ctx.At(0) == ' ' && ctx.Pre() != ' ' {
      TextByte(v);
      ctx.CopyRpos();
    } else {
      TextByte(v);
      ctx.CopyRpos();
    }
  }

  /** `case html_state_skip`. */
  method BlockTurn(ctx: Context)
    requires ctx.V().View? && At(ctx.V(), HtmlSkip)
    modifies ctx`sspos, ctx.state, ctx`rpos, ctx`count, ctx`wpos, ctx`dstlen, ctx.dst
    modifies ctx`cachelen, ctx.cache, ctx`nochangePre, ctx`preChar
    modifies ctx`tagcachelen, ctx.tagcache, ctx`tagendcachelen, ctx.tagendcache
    ensures ctx.V().View? && Goes(old(ctx.V()), Recorded(ctx.V()))
    ensures |ctx.V().rest| < |old(ctx.V()).rest|
         || (|ctx.V().rest| == |old(ctx.V()).rest| && Top(ctx.V()) == Text)
    ensures Top(ctx.V()) == Text || Top(ctx.V()) == HtmlSkip
  {
    hide Context.V, Ok, Ahead, Ate, Wrote, Copied, Pushed, Popped, Reset, Cached, Recorded,
      WithNochange, WithPre, AteN, CopiedN, TagAdded, TagClosed, TagCleared, EndAdded, EndClosed,
      EndCleared, M.Begins, M.SkipName, Settled;
    ghost var v: Live := ctx.V();
    OkStack(v);
    if ctx.At(0) == '<' {
      if ctx.Count() >= 2 {
        if ctx.At(1) == '/' {
          BlockLeft(v);
          ctx.SetState(Text);
        } else {
          BlockPair(v);
          ctx.CopyRpos();
          ctx.CopyRpos();
        }
      } else {
        BlockCarry(v);
        CachesOne(v, '<');
        var _ := ctx.CacheRest("<");
        ctx.IncRpos();
      }
    } else {
      BlockCopy(v);
      ctx.CopyRpos();
    }
  }

  /** The measure of the main loop's moves that consume nothing: out of a skipped block, from the
      text to `<!`, and from there to the end of the machine. */
  ghost function MainRank(top: State): nat {
    if top == HtmlSkip then 3 else if top == Text then 2 else if top == Abort then 0 else 1
  }

  /** What the main loop keeps. */
  ghost predicate Main(v: Live) {
    Ok(v) && Settled(v) && (Top(v) == HtmlTagAtt && v.rest != [] ==> v.out == [])
  }

  lemma {:induction false} MainEnters(v: Live)
    requires Main(v) && !Outside(v) && v.rest != []
    ensures Enters(v)
  {
  }

  lemma {:induction false} MainRecords(v: Live, w: Live)
    requires Goes(v, Recorded(w))
    requires w.rest == [] || Top(w) != HtmlTagAtt
    ensures Main(Recorded(w)) && Ahead(Recorded(w)) == Ahead(v)
  {
    RecordedSettled(w);
  }

  /** A turn of the main loop. Its `default` case cannot be reached. */
  method MainTurn(ctx: Context)
    requires ctx.V().View? && Main(ctx.V()) && ctx.V().rest != []
    modifies ctx`sspos, ctx.state, ctx`rpos, ctx`count, ctx`wpos, ctx`dstlen, ctx.dst
    modifies ctx`cachelen, ctx.cache, ctx`nochangePre, ctx`preChar
    modifies ctx`tagcachelen, ctx.tagcache, ctx`tagendcachelen, ctx.tagendcache
    ensures ctx.V().View? && Main(ctx.V()) && Ahead(ctx.V()) == Ahead(old(ctx.V()))
    ensures |ctx.V().rest| <= |old(ctx.V()).rest|
    ensures |ctx.V().rest| == |old(ctx.V()).rest| ==> MainRank(Top(ctx.V())) < MainRank(Top(old(ctx.V())))
  {
    hide Context.V, Ok, Ahead, Ate, Wrote, Copied, Pushed, Popped, Reset, Cached, Recorded,
      WithNochange, WithPre, AteN, CopiedN, TagAdded, TagClosed, TagCleared, EndAdded, EndClosed,
      EndCleared, M.Begins, M.SkipName, Settled;
    ghost var v: Live := ctx.V();
    if ctx.State() == Abort {
      AbortCopy(v);
      ctx.CopyRpos();
    } else if ctx.State() == Text {
      TextTurn(ctx);
    } else if ctx.State() == HtmlSkip {
      BlockTurn(ctx);
    } else {
      MainEnters(v);
      StripTag(ctx);
    }
    MainRecords(v, ctx.V());
    ctx.RecordPre();
  }

  /** `ngx_minify_html_strip_buffer`: one buffer, from `src` to `dst`, which may be one array. */
  method StripBuffer(src: array<byte>, srclen: nat, dst: array<byte>, ctx: Context)
    requires ctx.V().View? && Framed(ctx.V()) && ctx.V().cache == []
    requires srclen <= src.Length && srclen <= dst.Length
    requires var s := Begun(Abs(ctx.V())); M.Reachable(s, src[..srclen]) && M.Fits(s, src[..srclen])
    requires ctx.Apart(src) && ctx.Apart(dst)
    modifies ctx, ctx.state, ctx.cache, ctx.tagcache, ctx.tagendcache, dst
    ensures ctx.V().View? && Main(ctx.V()) && ctx.V().rest == []
    ensures ctx.dst == dst && ctx.src == src
    ensures M.Step(Abs(ctx.V()), ctx.V().out) == old(M.Run(Begun(Abs(ctx.V())), src[..srclen]))
  {
    hide Context.V, Ok, Ahead, Ate, Wrote, Copied, Pushed, Popped, Reset, Cached, Recorded,
      WithNochange, WithPre, AteN, CopiedN, TagAdded, TagClosed, TagCleared, EndAdded, EndClosed,
      EndCleared, M.Begins, M.SkipName, Settled;
    Opens(ctx.V(), src[..srclen]);
    ctx.Open(src, srclen, dst);
    ghost var v0: Live := ctx.V();
    ghost var v: Live := v0;
    while ctx.Count() > 0
      invariant ctx.V() == v && Main(v) && Ahead(v) == Ahead(v0)
      invariant ctx.dst == dst && ctx.src == src
      decreases |v.rest|, MainRank(Top(v))
    {
      MainTurn(ctx);
      v := ctx.V();
    }
    Finishes(v);
  }

  /** Nothing is written in the new buffer yet. */
  ghost function Begun(s: M.Html): M.Html {
    s.(last := None)
  }

  lemma {:induction false} Opens(v: Live, bytes: seq<byte>)
    requires Framed(v) && v.cache == []
    requires var s := Begun(Abs(v)); M.Reachable(s, bytes) && M.Fits(s, bytes)
    ensures var v' := v.(rest := bytes, out := []);
            Main(v') && Ahead(v') == M.Run(Begun(Abs(v)), bytes)
  {
    var v' := v.(rest := bytes, out := []);
    assert Abs(v') == Begun(Abs(v));
    var r := M.Run(Begun(Abs(v)), bytes);
    assert [] + r.out == r.out;
  }

  lemma {:induction false} Finishes(v: Live)
    requires v.rest == []
    ensures Ahead(v) == M.Step(Abs(v), v.out)
  {
  }
}
