/** The context that a minifier keeps between buffers, with its state stack, its carry cache
    and the inline helpers every machine is written with. */
module MinifyContext {
  import opened Bytes

  datatype State =
    | Text | Abort
    | HtmlSkip | HtmlTag | HtmlTagBang | HtmlComment | HtmlCommentIe | HtmlCommentSkip
    | HtmlTagName | HtmlTagAtt | HtmlTagNameEnd | HtmlCdata
    | CssComment | CssQuote | CssBrace
    | JsComment | JsCommentLine | JsQuote

  datatype FileType = HtmlFile | CssFile | JsFile

  const CTX_CACHE_BUFLEN := 64
  const CTX_STATE_STACK := 8

  /** What a context means: the stack, the unread and the written bytes, the carry and the
      registers. The machines are specified on views; the heap is dealt with here, once. */
  datatype View =
    | Broken
    | View(
        stack: seq<State>, rest: seq<byte>, out: seq<byte>, cache: seq<byte>,
        quote: byte, pre: byte, nochange: bool,
        tag: seq<byte>, tagLen: nat, end: seq<byte>, endLen: nat)

  type Live = v: View | v.View?
    witness View([Text], [], [], [], '\0', '\0', false, [], 0, [], 0)

  /** What the helpers do to a view. */
  ghost function Ate(v: Live): (v': Live)
    requires v.rest != []
    ensures |v'.rest| == |v.rest| - 1 && v'.stack == v.stack
  {
    v.(rest := v.rest[1..])
  }

  ghost function Wrote(v: Live, c: byte): (v': Live)
    requires v.rest != []
    ensures |v'.rest| == |v.rest| - 1 && v'.stack == v.stack
  {
    v.(rest := v.rest[1..], out := v.out + [c])
  }

  ghost function Copied(v: Live): (v': Live)
    requires v.rest != []
    ensures |v'.rest| == |v.rest| - 1 && v'.stack == v.stack
  {
    Wrote(v, v.rest[0])
  }

  ghost function Pushed(v: Live, s: State): (v': Live)
    ensures |v'.stack| == |v.stack| + 1 && v'.rest == v.rest && Top(v') == s
  {
    v.(stack := v.stack + [s])
  }

  ghost function Popped(v: Live): (v': Live)
    requires |v.stack| > 1
    ensures |v'.stack| == |v.stack| - 1 && v'.rest == v.rest
  {
    v.(stack := v.stack[..|v.stack| - 1])
  }

  ghost function Reset(v: Live, s: State): (v': Live)
    ensures |v'.stack| == 1 && v'.rest == v.rest && Top(v') == s
  {
    v.(stack := [s])
  }

  ghost function Cached(v: Live): (v': Live)
    ensures v'.rest == v.rest && v'.stack == v.stack
  {
    v.(cache := v.cache + v.rest)
  }

  ghost function WithCache(v: Live, cache: seq<byte>): (v': Live)
    ensures v'.rest == v.rest && v'.stack == v.stack
  {
    v.(cache := cache)
  }

  ghost function WithNochange(v: Live, on: bool): (v': Live)
    ensures v'.rest == v.rest && v'.stack == v.stack && v'.pre == v.pre && v'.cache == v.cache && v'.out == v.out
  {
    v.(nochange := on)
  }

  ghost function WithQuote(v: Live, c: byte): (v': Live)
    ensures v'.rest == v.rest && v'.stack == v.stack
  {
    v.(quote := c)
  }

  ghost function WithPre(v: Live, c: byte): (v': Live)
    ensures v'.rest == v.rest && v'.stack == v.stack
  {
    v.(pre := c)
  }

  ghost function Recorded(v: Live): (v': Live)
    ensures v'.rest == v.rest && v'.stack == v.stack
  {
    v.(pre := if !v.nochange && v.out != [] then v.out[|v.out| - 1] else v.pre)
  }

  ghost function AteN(v: Live, n: nat): (v': Live)
    requires n <= |v.rest|
    ensures |v'.rest| == |v.rest| - n && v'.stack == v.stack
  {
    v.(rest := v.rest[n..])
  }

  ghost function CopiedN(v: Live, n: nat): (v': Live)
    requires n <= |v.rest|
    ensures |v'.rest| == |v.rest| - n && v'.stack == v.stack
  {
    v.(rest := v.rest[n..], out := v.out + v.rest[..n])
  }

  ghost function TagAdded(v: Live, b: byte): (v': Live)
    requires v.tagLen < |v.tag|
    ensures v'.rest == v.rest && v'.stack == v.stack
  {
    v.(tag := v.tag[v.tagLen := b], tagLen := v.tagLen + 1)
  }

  ghost function TagClosed(v: Live): (v': Live)
    requires v.tagLen < |v.tag|
    ensures v'.rest == v.rest && v'.stack == v.stack
  {
    v.(tag := v.tag[v.tagLen := '\0'])
  }

  ghost function TagCleared(v: Live): (v': Live)
    ensures v'.rest == v.rest && v'.stack == v.stack
  {
    v.(tagLen := 0)
  }

  ghost function EndAdded(v: Live, b: byte): (v': Live)
    requires v.endLen < |v.end|
    ensures v'.rest == v.rest && v'.stack == v.stack
  {
    v.(end := v.end[v.endLen := b], endLen := v.endLen + 1)
  }

  ghost function EndClosed(v: Live): (v': Live)
    requires v.endLen < |v.end|
    ensures v'.rest == v.rest && v'.stack == v.stack
  {
    v.(end := v.end[v.endLen := '\0'])
  }

  ghost function EndCleared(v: Live): (v': Live)
    ensures v'.rest == v.rest && v'.stack == v.stack
  {
    v.(endLen := 0)
  }

  ghost function Top(v: Live): State {
    if v.stack == [] then Abort else v.stack[|v.stack| - 1]
  }

  class Context {
    const fileType: FileType
    const state: array<State>
    var sspos: int
    var dstlen: int
    var count: int
    var src: array<byte>
    var rpos: int
    var dst: array<byte>
    var wpos: int
    var quoteChar: byte
    var preChar: byte
    var nochangePre: bool
    const cache: array<byte>
    var cachelen: int
    const tagcache: array<byte>
    var tagcachelen: int
    const tagendcache: array<byte>
    var tagendcachelen: int

    /** The write position never overtakes the read position, so `src` and `dst` may be the
        same array or two different ones. */
    ghost predicate Valid()
      reads this
    {
      && state.Length == CTX_STATE_STACK && 0 <= sspos < CTX_STATE_STACK
      && cache.Length == tagcache.Length == tagendcache.Length == CTX_CACHE_BUFLEN
      && 0 <= cachelen <= CTX_CACHE_BUFLEN
      && 0 <= tagcachelen <= CTX_CACHE_BUFLEN
      && 0 <= tagendcachelen <= CTX_CACHE_BUFLEN
      && cache != tagcache && cache != tagendcache && tagcache != tagendcache
      && Apart(src) && Apart(dst)
      && 0 <= dstlen == wpos <= rpos && 0 <= count
      && rpos + count <= src.Length && rpos + count <= dst.Length
    }

    ghost predicate Apart(a: array<byte>) {
      a != cache && a != tagcache && a != tagendcache
    }

    ghost function Repr(): set<object>
      reads this
    {
      {this, state, cache, tagcache, tagendcache, dst}
    }

    ghost function V(): (v: View)
      reads this, state, cache, tagcache, tagendcache, src, dst
    {
      if !Valid() then Broken else
      View(state[..sspos + 1], src[rpos..rpos + count], dst[..dstlen], cache[..cachelen],
           quoteChar, preChar, nochangePre,
           tagcache[..], tagcachelen, tagendcache[..], tagendcachelen)
    }

    /** `*(rpos + k)`. */
    function At(k: nat): (b: byte)
      requires V().View? && k < |V().rest|
      reads this, state, cache, tagcache, tagendcache, src, dst
      ensures b == V().rest[k]
    {
      src[rpos + k]
    }

    /** `count`. */
    function Count(): (n: nat)
      requires V().View?
      reads this, state, cache, tagcache, tagendcache, src, dst
      ensures n == |V().rest|
    {
      count
    }

    /** `CTX_STATE`: the state on top of the stack. */
    function State(): (s: State)
      requires V().View?
      reads this, state, cache, tagcache, tagendcache, src, dst
      ensures V().stack != [] && s == Top(V())
    {
      state[sspos]
    }

    /** Zeroed by `ngx_pcalloc`: one state, text, on the stack and nothing carried. */
    constructor (fileType: FileType)
      ensures V().View? && this.fileType == fileType
      ensures fresh(Repr()) && fresh(src)
      ensures V().stack == [Text] && V().rest == [] && V().out == [] && V().cache == []
      ensures V().pre == '\0' && V().quote == '\0' && !V().nochange
      ensures V().tagLen == 0 && V().endLen == 0 && |V().tag| == |V().end| == CTX_CACHE_BUFLEN
    {
      this.fileType := fileType;
      state := new State[CTX_STATE_STACK](_ => Text);
      sspos, dstlen, count, rpos, wpos := 0, 0, 0, 0, 0;
      src, dst := new byte[0], new byte[0];
      quoteChar, preChar, nochangePre := '\0', '\0', false;
      cache := new byte[CTX_CACHE_BUFLEN](_ => '\0');
      tagcache := new byte[CTX_CACHE_BUFLEN](_ => '\0');
      tagendcache := new byte[CTX_CACHE_BUFLEN](_ => '\0');
      cachelen, tagcachelen, tagendcachelen := 0, 0, 0;
      new;
      assert Valid();
      assert state[..1] == [Text];
    }

    /** `cachelen`. */
    function CacheLen(): (n: nat)
      requires V().View?
      reads this, state, cache, tagcache, tagendcache, src, dst
      ensures n == |V().cache|
    {
      cachelen
    }

    /** What is written stands at the start of `dst`. */
    lemma {:induction false} Written()
      requires V().View?
      ensures |V().out| <= dst.Length && dst[..|V().out|] == V().out
    {
    }

    /** `quote_char`. */
    function Quote(): (c: byte)
      requires V().View?
      reads this, state, cache, tagcache, tagendcache, src, dst
      ensures c == V().quote
    {
      quoteChar
    }

    /** `pre_char`. */
    function Pre(): (c: byte)
      requires V().View?
      reads this, state, cache, tagcache, tagendcache, src, dst
      ensures c == V().pre
    {
      preChar
    }

    /** `dstlen`. */
    function Dstlen(): (n: nat)
      requires V().View?
      reads this, state, cache, tagcache, tagendcache, src, dst
      ensures n == |V().out|
    {
      dstlen
    }

    /** `dstlen = 0`, and the pointers of `strip_buffer`: `src` and `dst` may be one array. */
    method Open(from: array<byte>, len: nat, to: array<byte>)
      requires V().View? && len <= from.Length && len <= to.Length
      requires Apart(from) && Apart(to)
      modifies this
      ensures src == from && dst == to
      ensures V() == old(V()).(rest := from[..len], out := [])
    {
      dstlen := 0;
      src, rpos, dst, wpos, count := from, 0, to, 0, len;
      assert from[0..len] == from[..len];
    }

    method PushState(s: State)
      requires V().View? && |V().stack| < CTX_STATE_STACK
      modifies this`sspos, state
      ensures V() == Pushed(old(V()), s)
    {
      sspos := sspos + 1;
      state[sspos] := s;
    }

    method PopState()
      requires V().View? && |V().stack| > 1
      modifies this`sspos
      ensures V() == Popped(old(V()))
    {
      sspos := sspos - 1;
      assert state[..sspos + 1] == old(V()).stack[..|old(V()).stack| - 1];
    }

    method SetState(s: State)
      requires V().View?
      modifies this`sspos, state
      ensures V() == Reset(old(V()), s)
    {
      sspos := 0;
      state[0] := s;
      assert state[..1] == [s];
    }

    method IncRpos()
      requires V().View? && V().rest != []
      modifies this`rpos, this`count
      ensures V() == Ate(old(V()))
    {
      rpos := rpos + 1;
      count := count - 1;
    }

    method CopyChar(c: byte)
      requires V().View? && V().rest != []
      modifies this`rpos, this`count, this`wpos, this`dstlen, dst
      ensures V() == Wrote(old(V()), c)
    {
      dst[wpos] := c;
      wpos := wpos + 1;
      dstlen := dstlen + 1;
      rpos := rpos + 1;
      count := count - 1;
      assert dst[..dstlen] == old(V()).out + [c];
      assert src[rpos..rpos + count] == old(V()).rest[1..];
    }

    method CopyRpos()
      requires V().View? && V().rest != []
      modifies this`rpos, this`count, this`wpos, this`dstlen, dst
      ensures V() == Copied(old(V()))
    {
      CopyChar(src[rpos]);
    }

    /** `inc_rpos` in a counted loop. */
    method IncRposN(n: nat)
      requires V().View? && n <= |V().rest|
      modifies this`rpos, this`count
      ensures V() == AteN(old(V()), n)
    {
      hide V;
      ghost var v: Live := V();
      for i := 0 to n
        invariant V() == AteN(v, i)
      {
        IncRpos();
        assert v.rest[i..][1..] == v.rest[i + 1..];
      }
    }

    /** `copy_rpos` in a counted loop. */
    method CopyRposN(n: nat)
      requires V().View? && n <= |V().rest|
      modifies this`rpos, this`count, this`wpos, this`dstlen, dst
      ensures V() == CopiedN(old(V()), n)
    {
      hide V;
      ghost var v: Live := V();
      for i := 0 to n
        invariant V() == CopiedN(v, i)
      {
        CopyRpos();
        assert v.rest[i..][1..] == v.rest[i + 1..];
        assert v.rest[..i + 1] == v.rest[..i] + [v.rest[i]];
      }
    }

    /** `!memcmp(rpos, c, strlen(c))`. */
    predicate Starts(c: seq<byte>)
      requires V().View? && |c| <= |V().rest|
      reads this, state, cache, tagcache, tagendcache, src, dst
      ensures Starts(c) == (V().rest[..|c|] == c)
    {
      assert src[rpos..rpos + |c|] == V().rest[..|c|];
      src[rpos..rpos + |c|] == c
    }

    /** One byte more, or `n` bytes less, in the cache. */
    method CacheByte(c: byte)
      requires V().View? && |V().cache| < CTX_CACHE_BUFLEN
      modifies this`cachelen, cache
      ensures V() == WithCache(old(V()), old(V()).cache + [c])
    {
      cache[cachelen] := c;
      cachelen := cachelen + 1;
    }

    method Uncache(n: nat)
      requires V().View? && n <= |V().cache|
      modifies this`cachelen
      ensures V() == WithCache(old(V()), old(V()).cache[..|old(V()).cache| - n])
    {
      cachelen := cachelen - n;
    }

    /** `ngx_minify_cache`: remember the whole unread rest if it is, up to case, a prefix of `c`. */
    method CacheRest(c: seq<byte>) returns (r: int)
      requires V().View? && |V().rest| <= |c| && |V().cache| + |V().rest| < CTX_CACHE_BUFLEN
      modifies this`cachelen, cache
      ensures r == if SameNoCase(c[..|old(V()).rest|], old(V()).rest) then |old(V()).rest| else -1
      ensures V() == if r == -1 then old(V()) else Cached(old(V()))
    {
      hide V, Lower;
      ghost var v: Live := V();
      var i := 0;
      while i < Count()
        invariant 0 <= i <= |v.rest|
        invariant V() == WithCache(v, v.cache + v.rest[..i])
        invariant forall j :: 0 <= j < i ==> Lower(c[j]) == Lower(v.rest[j])
      {
        if Lower(c[i]) == Lower(At(i)) {
          CacheByte(At(i));
          assert (v.cache + v.rest[..i]) + [v.rest[i]] == v.cache + v.rest[..i + 1];
        } else {
          Uncache(i);
          assert (v.cache + v.rest[..i])[..|v.cache|] == v.cache;
          assert c[..|v.rest|][i] == c[i];
          return -1;
        }
        if CacheLen() >= CTX_CACHE_BUFLEN {
          return -2;
        }
        i := i + 1;
      }
      assert v.rest[..i] == v.rest;
      return i;
    }

    method SetNochange(on: bool)
      requires V().View?
      modifies this`nochangePre
      ensures V() == WithNochange(old(V()), on)
    {
      nochangePre := on;
    }

    method SetQuote(c: byte)
      requires V().View?
      modifies this`quoteChar
      ensures V() == WithQuote(old(V()), c)
    {
      quoteChar := c;
    }

    method SetPre(c: byte)
      requires V().View?
      modifies this`preChar
      ensures V() == WithPre(old(V()), c)
    {
      preChar := c;
    }

    /** `CTX_TAGCACHE_ADD`, `_CLOSE` and `_CLEAR`, and the same for the closing tag. */
    method TagAdd(b: byte)
      requires V().View? && V().tagLen < |V().tag|
      modifies this`tagcachelen, tagcache
      ensures V() == TagAdded(old(V()), b)
    {
      tagcache[tagcachelen] := b;
      tagcachelen := tagcachelen + 1;
    }

    method TagClose()
      requires V().View? && V().tagLen < |V().tag|
      modifies tagcache
      ensures V() == TagClosed(old(V()))
    {
      tagcache[tagcachelen] := '\0';
    }

    method TagClear()
      requires V().View?
      modifies this`tagcachelen
      ensures V() == TagCleared(old(V()))
    {
      tagcachelen := 0;
    }

    method EndAdd(b: byte)
      requires V().View? && V().endLen < |V().end|
      modifies this`tagendcachelen, tagendcache
      ensures V() == EndAdded(old(V()), b)
    {
      tagendcache[tagendcachelen] := b;
      tagendcachelen := tagendcachelen + 1;
    }

    method EndClose()
      requires V().View? && V().endLen < |V().end|
      modifies tagendcache
      ensures V() == EndClosed(old(V()))
    {
      tagendcache[tagendcachelen] := '\0';
    }

    method EndClear()
      requires V().View?
      modifies this`tagendcachelen
      ensures V() == EndCleared(old(V()))
    {
      tagendcachelen := 0;
    }

    function TagLen(): (n: nat)
      requires V().View?
      reads this, state, cache, tagcache, tagendcache, src, dst
      ensures n == V().tagLen
    {
      tagcachelen
    }

    function EndLen(): (n: nat)
      requires V().View?
      reads this, state, cache, tagcache, tagendcache, src, dst
      ensures n == V().endLen
    {
      tagendcachelen
    }

    /** `memcmp(tagcache, tagendcache, tagcachelen)` finds no difference. */
    predicate TagMatches()
      requires V().View?
      reads this, state, cache, tagcache, tagendcache, src, dst
      ensures V().tagLen <= |V().tag| && V().tagLen <= |V().end|
      ensures TagMatches() == (V().tag[..V().tagLen] == V().end[..V().tagLen])
    {
      assert tagcache[..tagcachelen] == tagendcache[..tagcachelen] <==>
        forall i :: 0 <= i < tagcachelen ==> tagcache[i] == tagendcache[i];
      forall i :: 0 <= i < tagcachelen ==> tagcache[i] == tagendcache[i]
    }

    /** `strncasecmp(tagcache, name, n)` finds no difference, and the lengths agree. */
    predicate TagIs(name: seq<byte>)
      requires V().View?
      reads this, state, cache, tagcache, tagendcache, src, dst
      ensures V().tagLen <= |V().tag|
      ensures TagIs(name) == SameNoCase(V().tag[..V().tagLen], name)
    {
      tagcachelen == |name| && forall i :: 0 <= i < |name| ==> Lower(tagcache[i]) == Lower(name[i])
    }

    /** The end of a turn of a machine's loop: remember the byte written last. */
    method RecordPre()
      requires V().View?
      modifies this`preChar
      ensures V() == Recorded(old(V()))
    {
      if !nochangePre {
        if dstlen >= 1 {
          preChar := dst[wpos - 1];
        }
      }
    }
  }
}
