/** Setting and clearing response headers: one pass over the header list, and the commands that
    the filter runs in order. */
module OutputHeaders {
  import opened Bytes
  import opened HeaderSlices
  import opened HeaderList
  import opened HeaderTexts

  /** `ngx_http_headers_more_header_val_t`; a wildcard's key ends with '*'. */
  datatype HeaderVal = HeaderVal(hash: nat, key: seq<byte>, wildcard: bool) {
    predicate Matches(name: seq<byte>) {
      if !wildcard then SameNoCase(name, key)
      else |key| > 0 && |name| >= |key| - 1 && SameNoCase(name[..|key| - 1], key[..|key| - 1])
    }
  }

  /** What the pass makes of headers: the first match gets the value, the others are hidden; an
      empty value hides them all. */
  function Marked(hs: seq<Header>, hv: HeaderVal, value: seq<byte>, matched: bool): (gs: seq<Header>)
    ensures |gs| == |hs|
  {
    if hs == [] then [] else
      var h := hs[0];
      if !hv.Matches(h.key) then [h] + Marked(hs[1..], hv, value, matched)
      else
        [if value == [] || matched then h.(hash := 0, value := []) else h.(hash := hv.hash, value := value)]
        + Marked(hs[1..], hv, value, true)
  }

  predicate Any(hs: seq<Header>, hv: HeaderVal)
  {
    exists j :: 0 <= j < |hs| && hv.Matches(hs[j].key)
  }

  /** The header list after `ngx_http_set_header_helper`. */
  function Set(hs: seq<Header>, hv: HeaderVal, value: seq<byte>, noCreate: bool): seq<Header>
  {
    if Any(hs, hv) then Marked(hs, hv, value, false)
    else if (hv.wildcard || noCreate) && value == [] then hs
    else hs + [Header(if value == [] then 0 else hv.hash, hv.key, value)]
  }

  /** The values that a header of the given name is sent with. */
  function Visible(hs: seq<Header>, key: seq<byte>): seq<seq<byte>> {
    if hs == [] then [] else
      (if hs[0].hash != 0 && SameNoCase(hs[0].key, key) then [hs[0].value] else []) + Visible(hs[1..], key)
  }

  lemma {:induction false} VisibleAppend(hs: seq<Header>, gs: seq<Header>, key: seq<byte>)
    ensures Visible(hs + gs, key) == Visible(hs, key) + Visible(gs, key)
  {
    if hs == [] {
      assert hs + gs == gs;
    } else {
      assert (hs + gs)[1..] == hs[1..] + gs;
      VisibleAppend(hs[1..], gs, key);
    }
  }

  lemma {:induction false} AnyRest(hs: seq<Header>, hv: HeaderVal)
    requires hs != []
    ensures Any(hs, hv) <==> hv.Matches(hs[0].key) || Any(hs[1..], hv)
  {
    if j :| 0 <= j < |hs| && hv.Matches(hs[j].key) {
      assert j > 0 ==> hs[1..][j - 1] == hs[j];
    }
    if j :| 0 <= j < |hs[1..]| && hv.Matches(hs[1..][j].key) {
      assert hs[j + 1] == hs[1..][j];
    }
  }

  lemma {:induction false} MarkedMeans(hs: seq<Header>, hv: HeaderVal, value: seq<byte>, matched: bool, key: seq<byte>)
    requires !hv.wildcard && hv.hash != 0
    ensures !SameNoCase(hv.key, key) ==> Visible(Marked(hs, hv, value, matched), key) == Visible(hs, key)
    ensures SameNoCase(hv.key, key) ==>
      Visible(Marked(hs, hv, value, matched), key) == if value == [] || matched || !Any(hs, hv) then [] else [value]
  {
    if hs != [] {
      var h := hs[0];
      AnyRest(hs, hv);
      MarkedMeans(hs[1..], hv, value, matched, key);
      MarkedMeans(hs[1..], hv, value, true, key);
      assert Marked(hs, hv, value, matched)[1..] ==
             Marked(hs[1..], hv, value, matched || hv.Matches(h.key));
    }
  }

  lemma {:induction false} NoneVisible(hs: seq<Header>, hv: HeaderVal, key: seq<byte>)
    requires !hv.wildcard && !Any(hs, hv) && SameNoCase(hv.key, key)
    ensures Visible(hs, key) == []
  {
    if hs != [] {
      AnyRest(hs, hv);
      NoneVisible(hs[1..], hv, key);
    }
  }

  /** A header that is set is sent once, with the value, and not at all if the value is empty;
      headers of other names are sent as before. */
  lemma {:induction false} SetMeans(hs: seq<Header>, hv: HeaderVal, value: seq<byte>, key: seq<byte>)
    requires !hv.wildcard && hv.hash != 0
    ensures Visible(Set(hs, hv, value, false), key) ==
            if !SameNoCase(hv.key, key) then Visible(hs, key) else if value == [] then [] else [value]
  {
    MarkedMeans(hs, hv, value, false, key);
    if !Any(hs, hv) {
      var h := Header(if value == [] then 0 else hv.hash, hv.key, value);
      VisibleAppend(hs, [h], key);
      assert [h][1..] == [];
      if SameNoCase(hv.key, key) {
        NoneVisible(hs, hv, key);
      }
    }
  }

  /** Clearing hides the headers of the name, or by a wildcard those whose name begins with it, and changes no other. */
  lemma {:induction false} ClearHides(hs: seq<Header>, hv: HeaderVal, noCreate: bool, j: nat)
    requires j < |hs|
    ensures var gs := Set(hs, hv, [], noCreate);
            && |gs| >= |hs|
            && (var name, p := hs[j].key, if hv.wildcard && hv.key != [] then hv.key[..|hv.key| - 1] else hv.key;
                gs[j] == if || (!hv.wildcard && SameNoCase(name, p))
                            || (hv.wildcard && hv.key != [] && |name| >= |p| && SameNoCase(name[..|p|], p))
                         then Header(0, name, []) else hs[j])
            && forall m :: |hs| <= m < |gs| ==> gs[m].hash == 0
  {
    MarkedClear(hs, hv, false, j);
  }

  lemma {:induction false} MarkedClear(hs: seq<Header>, hv: HeaderVal, matched: bool, j: nat)
    requires j < |hs|
    ensures Marked(hs, hv, [], matched)[j] == if hv.Matches(hs[j].key) then hs[j].(hash := 0, value := []) else hs[j]
  {
    if j > 0 {
      MarkedClear(hs[1..], hv, matched || hv.Matches(hs[0].key), j - 1);
    }
  }

  lemma {:induction false} MarkedTwice(hs: seq<Header>, hv: HeaderVal, v: seq<byte>, w: seq<byte>, matched: bool)
    ensures Marked(Marked(hs, hv, v, matched), hv, w, matched) == Marked(hs, hv, w, matched)
    ensures Any(Marked(hs, hv, v, matched), hv) <==> Any(hs, hv)
  {
    if hs != [] {
      var gs := Marked(hs, hv, v, matched);
      var also := matched || hv.Matches(hs[0].key);
      AnyRest(hs, hv);
      AnyRest(gs, hv);
      assert gs[1..] == Marked(hs[1..], hv, v, also);
      MarkedTwice(hs[1..], hv, v, w, also);
    }
  }

  lemma {:induction false} MarkedBehind(hs: seq<Header>, hv: HeaderVal, h: Header, w: seq<byte>)
    requires !Any(hs, hv) && hv.Matches(h.key)
    ensures Any(hs + [h], hv)
    ensures Marked(hs + [h], hv, w, false) ==
            hs + [if w == [] then h.(hash := 0, value := []) else h.(hash := hv.hash, value := w)]
  {
    assert (hs + [h])[|hs|] == h;
    if hs == [] {
      assert hs + [h] == [h];
    } else {
      AnyRest(hs, hv);
      assert (hs + [h])[1..] == hs[1..] + [h];
      MarkedBehind(hs[1..], hv, h, w);
    }
  }

  lemma {:induction false} MatchesItself(hv: HeaderVal)
    requires hv.wildcard ==> |hv.key| > 0
    ensures hv.Matches(hv.key)
  {
  }

  /** What was set before leaves no trace: clearing and then setting is setting, and setting twice is
      setting once. The one exception is clearing, without the right to create a header, one that
      the first call had to create: it stays, hidden. */
  lemma {:induction false} SetTwice(hs: seq<Header>, hv: HeaderVal, v: seq<byte>, w: seq<byte>, noCreate: bool)
    requires hv.wildcard ==> |hv.key| > 0
    ensures Set(Set(hs, hv, v, noCreate), hv, w, noCreate) == Set(hs, hv, w, noCreate) <==>
            w != [] || v == [] || Any(hs, hv) || !(hv.wildcard || noCreate)
  {
    hide Marked, Any;
    if Any(hs, hv) {
      MarkedTwice(hs, hv, v, w, false);
    } else if !((hv.wildcard || noCreate) && v == []) {
      MatchesItself(hv);
      MarkedBehind(hs, hv, Header(if v == [] then 0 else hv.hash, hv.key, v), w);
      assert |Set(Set(hs, hv, v, noCreate), hv, w, noCreate)| == |hs| + 1;
    }
  }

  /** `ngx_http_headers_more_cmd_t`, with evaluated values; an absent array is `None`. */
  datatype Cmd = Cmd(headers: Option<seq<(HeaderVal, seq<byte>)>>, types: Option<seq<seq<byte>>>,
                     statuses: Option<seq<nat>>, isInput: bool)
  {
    /** The response has one of the types and one of the statuses that are asked for. */
    predicate Applies(contentType: seq<byte>, status: nat) {
      && !isInput && headers.Some?
      && (types.Some? ==> contentType in types.value)
      && (statuses.Some? ==> status in statuses.value)
    }
  }

  /** The value without the NUL that the directive parser appends. */
  function Trimmed(value: seq<byte>): seq<byte> {
    if value == [] then [] else value[..|value| - 1]
  }

  function SetAll(hs: seq<Header>, pairs: seq<(HeaderVal, seq<byte>)>): seq<Header>
  {
    if pairs == [] then hs
    else
      var n := |pairs| - 1;
      Set(SetAll(hs, pairs[..n]), pairs[n].0, Trimmed(pairs[n].1), false)
  }

  /** The pairs of the commands that apply, in order. */
  function Applied(cmds: seq<Cmd>, contentType: seq<byte>, status: nat): seq<(HeaderVal, seq<byte>)> {
    if cmds == [] then []
    else
      var n := |cmds| - 1;
      Applied(cmds[..n], contentType, status)
      + if cmds[n].Applies(contentType, status) then cmds[n].headers.value else []
  }

  lemma {:induction false} SetAllAppend(hs: seq<Header>, ps: seq<(HeaderVal, seq<byte>)>, qs: seq<(HeaderVal, seq<byte>)>)
    ensures SetAll(hs, ps + qs) == SetAll(SetAll(hs, ps), qs)
    decreases |qs|
  {
    hide Set, Trimmed;
    if qs == [] {
      assert ps + qs == ps;
    } else {
      var n := |qs| - 1;
      var rs := ps + qs;
      assert rs[..|rs| - 1] == ps + qs[..n] && rs[|rs| - 1] == qs[n];
      SetAllAppend(hs, ps, qs[..n]);
    }
  }

  /** The value that the last pair of a name has, if there is one. */
  function LastValue(pairs: seq<(HeaderVal, seq<byte>)>, key: seq<byte>): Option<seq<byte>> {
    if pairs == [] then None
    else
      var n := |pairs| - 1;
      if SameNoCase(pairs[n].0.key, key) then Some(Trimmed(pairs[n].1)) else LastValue(pairs[..n], key)
  }

  /** Over any list of pairs the last writer wins: a name that is written is sent once, with the last
      value, or not at all if that is empty; a name that is not written is sent as before. */
  lemma {:induction false} LastWriterWins(hs: seq<Header>, pairs: seq<(HeaderVal, seq<byte>)>, key: seq<byte>)
    requires forall j :: 0 <= j < |pairs| ==> !pairs[j].0.wildcard && pairs[j].0.hash != 0
    ensures Visible(SetAll(hs, pairs), key) ==
            match LastValue(pairs, key)
            case None => Visible(hs, key)
            case Some(value) => if value == [] then [] else [value]
  {
    if pairs != [] {
      var n := |pairs| - 1;
      LastWriterWins(hs, pairs[..n], key);
      SetMeans(SetAll(hs, pairs[..n]), pairs[n].0, Trimmed(pairs[n].1), key);
    }
  }

  lemma {:induction false} AnyAppend(hs: seq<Header>, gs: seq<Header>, hv: HeaderVal)
    ensures Any(hs + gs, hv) <==> Any(hs, hv) || Any(gs, hv)
  {
    hide HeaderVal.Matches;
    if j :| 0 <= j < |hs| && hv.Matches(hs[j].key) {
      assert (hs + gs)[j] == hs[j];
    }
    if j :| 0 <= j < |gs| && hv.Matches(gs[j].key) {
      assert (hs + gs)[|hs| + j] == gs[j];
    }
  }

  lemma {:induction false} MarkedAppend(hs: seq<Header>, gs: seq<Header>, hv: HeaderVal, value: seq<byte>, matched: bool)
    ensures Marked(hs + gs, hv, value, matched) ==
            Marked(hs, hv, value, matched) + Marked(gs, hv, value, matched || Any(hs, hv))
  {
    hide HeaderVal.Matches;
    if hs == [] {
      assert hs + gs == gs;
    } else {
      assert (hs + gs)[1..] == hs[1..] + gs;
      AnyRest(hs, hv);
      hide Any;
      MarkedAppend(hs[1..], gs, hv, value, matched || hv.Matches(hs[0].key));
    }
  }

  lemma {:induction false} MarkedOne(h: Header, hv: HeaderVal, value: seq<byte>, matched: bool)
    ensures Any([h], hv) <==> hv.Matches(h.key)
    ensures Marked([h], hv, value, matched) ==
            [if !hv.Matches(h.key) then h
             else if value == [] || matched then h.(hash := 0, value := [])
             else h.(hash := hv.hash, value := value)]
  {
    assert [h][1..] == [] && [h][0] == h;
  }

  /** One turn of the pass. */
  lemma {:induction false} MarkedNext(hs: seq<Header>, hv: HeaderVal, value: seq<byte>, n: nat)
    requires n < |hs|
    ensures Any(hs[..n + 1], hv) <==> Any(hs[..n], hv) || hv.Matches(hs[n].key)
    ensures Marked(hs[..n + 1], hv, value, false) == Marked(hs[..n], hv, value, false) +
            [if !hv.Matches(hs[n].key) then hs[n]
             else if value == [] || Any(hs[..n], hv) then hs[n].(hash := 0, value := [])
             else hs[n].(hash := hv.hash, value := value)]
  {
    AnyAppend(hs[..n], [hs[n]], hv);
    MarkedAppend(hs[..n], [hs[n]], hv, value, false);
    MarkedOne(hs[n], hv, value, Any(hs[..n], hv));
    assert hs[..n] + [hs[n]] == hs[..n + 1];
  }

  /** The headers when the pass has come to header `n`. */
  ghost predicate Passed(hs: seq<Header>, hv: HeaderVal, value: seq<byte>, n: nat, gs: seq<Header>, matched: bool) {
    n <= |hs| && matched == Any(hs[..n], hv) && gs == Marked(hs[..n], hv, value, false) + hs[n..]
  }

  lemma {:induction false} PassedNone(hs: seq<Header>, hv: HeaderVal, value: seq<byte>)
    ensures Passed(hs, hv, value, 0, hs, false)
  {
  }

  lemma {:induction false} PassedOne(hs: seq<Header>, hv: HeaderVal, value: seq<byte>, n: nat, gs: seq<Header>,
                                     matched: bool)
    requires Passed(hs, hv, value, n, gs, matched) && n < |hs|
    ensures |gs| == |hs| && gs[n] == hs[n]
    ensures !hv.Matches(hs[n].key) ==> Passed(hs, hv, value, n + 1, gs, matched)
    ensures hv.Matches(hs[n].key) && (value == [] || matched) ==>
      Passed(hs, hv, value, n + 1, gs[n := hs[n].(hash := 0, value := [])], true)
    ensures hv.Matches(hs[n].key) && value != [] && !matched ==>
      Passed(hs, hv, value, n + 1, gs[n := hs[n].(hash := hv.hash, value := value)], true)
  {
    hide Marked, Any;
    MarkedNext(hs, hv, value, n);
    var done := Marked(hs[..n], hv, value, false);
    assert gs == done + [hs[n]] + hs[n + 1..];
    forall h ensures gs[n := h] == done + [h] + hs[n + 1..] {
    }
  }

  lemma {:induction false} PassedAll(hs: seq<Header>, hv: HeaderVal, value: seq<byte>, gs: seq<Header>, matched: bool,
                                     noCreate: bool)
    requires Passed(hs, hv, value, |hs|, gs, matched)
    ensures |gs| == |hs|
    ensures var fs := Set(hs, hv, value, noCreate);
            if matched || ((hv.wildcard || noCreate) && value == []) then fs == gs
            else fs == gs + [Header(if value == [] then 0 else hv.hash, hv.key, value)]
  {
    assert hs[..|hs|] == hs;
    if !matched {
      MarkedNot(hs, hv, value, false);
    }
  }

  lemma {:induction false} MarkedNot(hs: seq<Header>, hv: HeaderVal, value: seq<byte>, matched: bool)
    requires !Any(hs, hv)
    ensures Marked(hs, hv, value, matched) == hs
  {
    if hs != [] {
      AnyRest(hs, hv);
      MarkedNot(hs[1..], hv, value, matched);
    }
  }

  /** Where the last match is; the length of the list if there is none. */
  function LastAt(hs: seq<Header>, hv: HeaderVal): (n: nat)
    ensures n <= |hs|
  {
    if hs == [] then 0
    else
      var n := |hs| - 1;
      if hv.Matches(hs[n].key) then n
      else
        var m := LastAt(hs[..n], hv);
        if m == n then |hs| else m
  }

  lemma {:induction false} LastAtMeans(hs: seq<Header>, hv: HeaderVal)
    ensures LastAt(hs, hv) < |hs| <==> Any(hs, hv)
    ensures LastAt(hs, hv) < |hs| ==> hv.Matches(hs[LastAt(hs, hv)].key)
    ensures forall j :: LastAt(hs, hv) < j < |hs| ==> !hv.Matches(hs[j].key)
  {
    if hs != [] {
      LastAtMeans(hs[..|hs| - 1], hv);
    }
  }

  /** The last of `xs` whose header matches. */
  function LastMatch<T>(xs: seq<T>, hs: seq<Header>, hv: HeaderVal, none: Option<T>): Option<T>
    requires |xs| == |hs|
  {
    if LastAt(hs, hv) < |hs| then Some(xs[LastAt(hs, hv)]) else none
  }

  lemma {:induction false} LastMatchNext<T>(xs: seq<T>, hs: seq<Header>, hv: HeaderVal, none: Option<T>, n: nat)
    requires n < |xs| == |hs|
    ensures LastMatch(xs[..n + 1], hs[..n + 1], hv, none) ==
            if hv.Matches(hs[n].key) then Some(xs[n]) else LastMatch(xs[..n], hs[..n], hv, none)
  {
    assert xs[..n + 1][..n] == xs[..n] && hs[..n + 1][..n] == hs[..n];
  }

  /** The pointer when the pass has come to header `n`: to the last match, or where it led before. */
  ghost predicate Tracks(cs: seq<Cell>, hs: seq<Header>, hv: HeaderVal, tracked: bool, slot: Option<Cell>, n: nat,
                         out: Option<Cell>)
  {
    n <= |cs| == |hs| && out == if tracked then LastMatch(cs[..n], hs[..n], hv, slot) else slot
  }

  lemma {:induction false} TracksNone(cs: seq<Cell>, hs: seq<Header>, hv: HeaderVal, tracked: bool, slot: Option<Cell>)
    requires |cs| == |hs|
    ensures Tracks(cs, hs, hv, tracked, slot, 0, slot)
  {
  }

  lemma {:induction false} TracksOne(cs: seq<Cell>, hs: seq<Header>, hv: HeaderVal, tracked: bool, slot: Option<Cell>,
                                     n: nat, out: Option<Cell>)
    requires Tracks(cs, hs, hv, tracked, slot, n, out) && n < |cs|
    ensures Tracks(cs, hs, hv, tracked, slot, n + 1, if tracked && hv.Matches(hs[n].key) then Some(cs[n]) else out)
  {
    LastMatchNext(cs, hs, hv, slot, n);
  }

  lemma {:induction false} TracksAll(cs: seq<Cell>, hs: seq<Header>, hv: HeaderVal, tracked: bool, slot: Option<Cell>,
                                     out: Option<Cell>)
    requires |cs| == |hs| && Tracks(cs, hs, hv, tracked, slot, |hs|, out)
    ensures out == if tracked then LastMatch(cs, hs, hv, slot) else slot
  {
    assert cs[..|hs|] == cs && hs[..|hs|] == hs;
  }

  /** The header in one cell, overwritten if it matches. */
  method Mark(l: List, a: array<Header>, m: nat, hv: HeaderVal, value: seq<byte>, tracked: bool, matched: bool,
              slot: Option<Cell>, ghost hs: seq<Header>, ghost none: Option<Cell>, ghost n: nat, ghost v: Snap)
    returns (now: bool, out: Option<Cell>, ghost w: Snap)
    requires Is(l, v) && Passed(hs, hv, value, n, v.texts, matched) && n < |hs| == |v.texts| == |v.Cells()|
    requires Tracks(v.Cells(), hs, hv, tracked, none, n, slot)
    requires v.Cells()[n] == Cell(a, m) && m < a.Length && a[m] == v.texts[n]
    modifies a
    ensures Is(l, w) && w == v.(texts := w.texts) && |w.texts| == |v.texts| && w.Cells() == v.Cells()
    ensures Passed(hs, hv, value, n + 1, w.texts, now) && Tracks(v.Cells(), hs, hv, tracked, none, n + 1, out)
  {
    hide *;
    PassedOne(hs, hv, value, n, v.texts, matched);
    TracksOne(v.Cells(), hs, hv, tracked, none, n, slot);
    now, out, w := matched, slot, v;
    if hv.Matches(a[m].key) {
      var h := if value == [] || matched then a[m].(hash := 0, value := []) else a[m].(hash := hv.hash, value := value);
      w := WriteAt(l, a, m, h, n, v);
      SameCells(v, w);
      if tracked {
        out := Some(Cell(a, m));
      }
      now := true;
    }
  }

  lemma {:induction false} SameCells(v: Snap, w: Snap)
    requires v.slices == w.slices
    ensures v.Cells() == w.Cells()
  {
  }

  /** The loop over the parts. */
  method Pass(l: List, hv: HeaderVal, value: seq<byte>, tracked: bool, slot: Option<Cell>, ghost v: Snap)
    returns (matched: bool, out: Option<Cell>, ghost w: Snap)
    requires Is(l, v) && v.Good()
    modifies l.repr
    ensures Is(l, w) && w == v.(texts := w.texts) && Passed(v.texts, hv, value, |v.texts|, w.texts, matched)
    ensures Tracks(v.Cells(), v.texts, hv, tracked, slot, |v.texts|, out)
    ensures l.repr == old(l.repr)
  {
    hide *;
    IsSo(l, v);
    WalkStart(l);
    ghost var ss, ps, hs, cs := v.slices, l.parts, v.texts, v.Cells();
    ghost var k: nat := 0;
    var cur, i := l.part, 0;
    matched, out, w := false, slot, v;
    PassedNone(hs, hv, value);
    TracksNone(cs, hs, hv, tracked, slot);
    while true
      invariant Is(l, w) && w == v.(texts := w.texts) && |w.texts| == |hs| && w.Cells() == cs
      invariant l.parts == ps && l.repr == old(l.repr)
      invariant k < |ps| && ps[k] == cur && ss[k] == Slice(cur.elts, cur.start, cur.nelts)
      invariant i <= cur.nelts && Place(ss, k, i) <= |hs| && Passed(hs, hv, value, Place(ss, k, i), w.texts, matched)
      invariant Tracks(cs, hs, hv, tracked, slot, Place(ss, k, i), out)
      decreases |ps| - k, cur.nelts - i
    {
      IsSo(l, w);
      if i >= cur.nelts {
        var next := cur.next;
        PartAt(l, k);
        PlaceNext(ss, k);
        if next == null {
          return;
        }
        cur, i, k := next, 0, k + 1;
        PartAt(l, k);
      }
      TextAt(l, k, i, cur);
      PlaceCell(ss, k, i);
      OwnedPart(l, k);
      matched, out, w := Mark(l, cur.elts, cur.start + i, hv, value, tracked, matched, out, hs, slot, Place(ss, k, i), w);
      i := i + 1;
    }
  }

  /** `ngx_http_set_header_helper`: one pass over the parts that overwrites what matches, and a new
      header if nothing does. The pointer, if there is one, comes to lead to the last match or to the
      new header. */
  method SetHeaderHelper(l: List, hv: HeaderVal, value: seq<byte>, tracked: bool, slot: Option<Cell>, noCreate: bool)
    returns (out: Option<Cell>)
    requires l.Valid()
    modifies l, l.repr
    ensures l.Valid() && l.Linked() && Shape(l.slices)
    ensures Texts(l) == Set(old(Texts(l)), hv, value, noCreate)
    ensures |l.Cells()| == |Texts(l)| && old(l.Cells()) <= l.Cells()
    ensures var cs, hs := old(l.Cells()), old(Texts(l));
            && |cs| == |hs|
            && out == if !tracked then slot
                      else if |l.Cells()| > |cs| then Some(l.Cells()[|cs|])
                      else LastMatch(cs, hs, hv, slot)
    ensures old(l.repr) <= l.repr && fresh(l.repr - old(l.repr))
  {
    hide *;
    ghost var v := ValidSnap(l);
    IsSo(l, v);
    var matched;
    ghost var w;
    matched, out, w := Pass(l, hv, value, tracked, slot, v);
    TracksAll(v.Cells(), v.texts, hv, tracked, slot, out);
    PassedAll(v.texts, hv, value, w.texts, matched, noCreate);
    StillGood(l, v.Cells(), w.texts, v, w);
    if matched || ((hv.wildcard || noCreate) && value == []) {
      return;
    }
    IsSo(l, w);
    var cell;
    cell, w := PushHeader(l, Header(if value == [] then 0 else hv.hash, hv.key, value), w);
    IsSo(l, w);
    if tracked {
      out := Some(cell);
    }
  }

  /** What a header becomes that is set through a pointer to it. */
  function Overwritten(h: Header, hv: HeaderVal, value: seq<byte>): Header {
    if value == [] then h.(hash := 0, value := []) else Header(hv.hash, hv.key, value)
  }

  lemma {:induction false} OverwrittenIs(h: Header, hv: HeaderVal, value: seq<byte>)
    ensures Overwritten(h, hv, value) == if value == [] then Header(0, h.key, []) else Header(hv.hash, hv.key, value)
  {
  }

  /** `ngx_http_set_builtin_header`: a header that the response points to is set where the pointer
      leads, whether or not that is in the list; otherwise the list is searched. */
  method SetBuiltinHeader(l: List, hv: HeaderVal, value: seq<byte>, slot: Option<Cell>) returns (out: Option<Cell>)
    requires l.Valid()
    requires slot.Some? ==> slot.value.a in l.repr && slot.value.i < slot.value.a.Length
    modifies l, l.repr
    ensures l.Valid() && l.Linked() && Shape(l.slices) && |l.Cells()| == |Texts(l)|
    ensures slot == None ==>
      var cs, hs := old(l.Cells()), old(Texts(l));
      && Texts(l) == Set(hs, hv, value, false) && |cs| == |hs| && cs <= l.Cells()
      && out == if |l.Cells()| > |cs| then Some(l.Cells()[|cs|]) else LastMatch(cs, hs, hv, None)
    ensures slot.Some? ==>
      var c := slot.value;
      && out == slot && l.Cells() == old(l.Cells())
      && c.a[c.i] == (if value == [] then Header(0, old(c.a[c.i]).key, []) else Header(hv.hash, hv.key, value))
      && Texts(l) == Put(old(l.Cells()), old(Texts(l)), c, c.a[c.i])
    ensures old(l.repr) <= l.repr && fresh(l.repr - old(l.repr))
  {
    hide *;
    if slot == None {
      out := SetHeaderHelper(l, hv, value, true, slot, false);
      return;
    }
    ghost var v := ValidSnap(l);
    IsSo(l, v);
    var Cell(a, i) := slot.value;
    OverwrittenIs(a[i], hv, value);
    ghost var w := Overwrite(l, a, i, Overwritten(a[i], hv, value), v);
    StillGood(l, v.Cells(), w.texts, v, w);
    out := slot;
  }

  /** No two headers match. */
  ghost predicate Single(hs: seq<Header>, hv: HeaderVal) {
    forall i, j :: 0 <= i < j < |hs| ==> !(hv.Matches(hs[i].key) && hv.Matches(hs[j].key))
  }

  /** The value as it is sent, or nothing. */
  function Sent(value: seq<byte>): seq<seq<byte>> {
    if value == [] then [] else [value]
  }

  lemma {:induction false} VisibleOne(h: Header, key: seq<byte>)
    ensures Visible([h], key) == if h.hash != 0 && SameNoCase(h.key, key) then [h.value] else []
  {
    assert [h][1..] == [];
  }

  /** A marked list in which the last match gets another value. */
  lemma {:induction false} LastReplaced(hs: seq<Header>, hv: HeaderVal, v: seq<byte>, w: seq<byte>, key: seq<byte>)
    requires !hv.wildcard && hv.hash != 0 && Any(hs, hv)
    ensures var p, gs := LastAt(hs, hv), Marked(hs, hv, v, false);
            && p < |hs|
            && Visible(gs[p := Overwritten(gs[p], hv, w)], key) ==
               if !SameNoCase(hv.key, key) then Visible(hs, key)
               else (if Single(hs, hv) then [] else Sent(v)) + Sent(w)
  {
    LastAtMeans(hs, hv);
    var p := LastAt(hs, hv);
    var a, x, b := hs[..p], hs[p], hs[p + 1..];
    assert hs == a + [x] + b;
    assert !Any(b, hv);
    assert Any(a, hv) <==> !Single(hs, hv) by {
      if j :| 0 <= j < |a| && hv.Matches(a[j].key) {
        assert hs[j] == a[j];
      }
      if !Single(hs, hv) {
        var i, j :| 0 <= i < j < |hs| && hv.Matches(hs[i].key) && hv.Matches(hs[j].key);
        assert a[i] == hs[i];
      }
    }
    LastReplacedIn(a, x, b, hv, v, w, key);
  }

  lemma {:induction false} LastReplacedIn(a: seq<Header>, x: Header, b: seq<Header>, hv: HeaderVal, v: seq<byte>,
                                          w: seq<byte>, key: seq<byte>)
    requires !hv.wildcard && hv.hash != 0 && hv.Matches(x.key) && !Any(b, hv)
    ensures var p, gs := |a|, Marked(a + [x] + b, hv, v, false);
            && p < |gs|
            && Visible(gs[p := Overwritten(gs[p], hv, w)], key) ==
               if !SameNoCase(hv.key, key) then Visible(a + [x] + b, key)
               else (if Any(a, hv) then Sent(v) else []) + Sent(w)
  {
    hide Any, HeaderVal.Matches;
    AnyAppend(a, [x], hv);
    MarkedAppend(a + [x], b, hv, v, false);
    MarkedAppend(a, [x], hv, v, false);
    MarkedNot(b, hv, v, Any(a + [x], hv));
    MarkedOne(x, hv, v, Any(a, hv));
    var gs, p := Marked(a + [x] + b, hv, v, false), |a|;
    var h := Overwritten(gs[p], hv, w);
    assert gs[p := h] == Marked(a, hv, v, false) + [h] + b;
    VisibleThree(Marked(a, hv, v, false), h, b, key);
    VisibleThree(a, x, b, key);
    MarkedMeans(a, hv, v, false, key);
    ReplacedNames(x, gs[p], hv, w, key);
    if SameNoCase(hv.key, key) {
      NoneVisible(b, hv, key);
    }
  }

  lemma {:induction false} VisibleThree(a: seq<Header>, x: Header, b: seq<Header>, key: seq<byte>)
    ensures Visible(a + [x] + b, key) ==
            Visible(a, key) + (if x.hash != 0 && SameNoCase(x.key, key) then [x.value] else []) + Visible(b, key)
  {
    VisibleAppend(a + [x], b, key);
    VisibleAppend(a, [x], key);
    VisibleOne(x, key);
  }

  lemma {:induction false} ReplacedNames(x: Header, g: Header, hv: HeaderVal, w: seq<byte>, key: seq<byte>)
    requires !hv.wildcard && hv.hash != 0 && hv.Matches(x.key) && g.key == x.key
    ensures SameNoCase(x.key, key) <==> SameNoCase(hv.key, key)
    ensures var h := Overwritten(g, hv, w);
            (if h.hash != 0 && SameNoCase(h.key, key) then [h.value] else []) ==
            if SameNoCase(hv.key, key) then Sent(w) else []
  {
  }

  /** Two calls, the first without a pointer, the second through the pointer that the first leaves. The
      second decides exactly if the first had nothing to send or at most one header matched: the pointer
      leads to the last match, but the first match holds the value. Other names are sent as before. */
  lemma {:induction false} BuiltinTwice(cs: seq<Cell>, hs: seq<Header>, hv: HeaderVal, v: seq<byte>, w: seq<byte>,
                                        ys: seq<Cell>, out: Option<Cell>, key: seq<byte>)
    requires !hv.wildcard && hv.hash != 0 && |cs| == |hs| && cs <= ys && Distinct(ys)
    requires |ys| == |Set(hs, hv, v, false)|
    requires out == if |ys| > |cs| then Some(ys[|cs|]) else LastMatch(cs, hs, hv, None)
    ensures var gs, p := Set(hs, hv, v, false), LastAt(hs, hv);
            && p < |gs| && out == Some(ys[p])
            && var fs := Put(ys, gs, ys[p], Overwritten(gs[p], hv, w));
            && (!SameNoCase(hv.key, key) ==> Visible(fs, key) == Visible(hs, key))
            && (SameNoCase(hv.key, key) ==>
                  && Visible(fs, key) == (if Single(hs, hv) then [] else Sent(v)) + Sent(w)
                  && (Visible(fs, key) == Sent(w) <==> v == [] || Single(hs, hv)))
  {
    LastAtMeans(hs, hv);
    var gs, p := Set(hs, hv, v, false), LastAt(hs, hv);
    PutAt(ys, gs, p, Overwritten(gs[p], hv, w));
    if Any(hs, hv) {
      LastReplaced(hs, hv, v, w, key);
    } else {
      var h := Overwritten(gs[p], hv, w);
      assert gs[p := h] == hs + [h];
      VisibleAppend(hs, [h], key);
      VisibleOne(h, key);
      ReplacedNames(gs[p], gs[p], hv, w, key);
      if SameNoCase(hv.key, key) {
        NoneVisible(hs, hv, key);
      }
    }
  }

  /** `ngx_http_headers_more_check_type`. */
  method CheckType(contentType: seq<byte>, types: seq<seq<byte>>) returns (found: bool)
    ensures found <==> contentType in types
  {
    for i := 0 to |types|
      invariant contentType !in types[..i]
    {
      if contentType == types[i] {
        return true;
      }
    }
    return false;
  }

  /** `ngx_http_headers_more_check_status`. */
  method CheckStatus(status: nat, statuses: seq<nat>) returns (found: bool)
    ensures found <==> status in statuses
  {
    for i := 0 to |statuses|
      invariant status !in statuses[..i]
    {
      if status == statuses[i] {
        return true;
      }
    }
    return false;
  }

  /** `ngx_http_headers_more_exec_cmd`, for headers whose handler is the generic one. */
  method ExecCmd(l: List, cmd: Cmd, contentType: seq<byte>, status: nat)
    requires l.Valid()
    modifies l, l.repr
    ensures l.Valid() && l.Linked() && Shape(l.slices) && fresh(l.repr - old(l.repr))
    ensures Texts(l) == if cmd.(isInput := false).Applies(contentType, status)
                        then SetAll(old(Texts(l)), cmd.headers.value) else old(Texts(l))
  {
    hide Set, Texts, List.Valid, List.Linked, Shape;
    ghost var v := ValidSnap(l);
    if cmd.headers == None {
      return;
    }
    if cmd.types.Some? {
      var listed := CheckType(contentType, cmd.types.value);
      if !listed {
        return;
      }
    }
    if cmd.statuses.Some? {
      var listed := CheckStatus(status, cmd.statuses.value);
      if !listed {
        return;
      }
    }
    var hs := cmd.headers.value;
    for i := 0 to |hs|
      invariant l.Valid() && l.Linked() && Shape(l.slices) && fresh(l.repr - old(l.repr))
      invariant Texts(l) == SetAll(v.texts, hs[..i])
    {
      assert hs[..i + 1][..i] == hs[..i];
      var _ := SetHeaderHelper(l, hs[i].0, Trimmed(hs[i].1), false, None, false);
    }
    assert hs[..|hs|] == hs;
  }

  lemma {:induction false} AppliedNext(hs: seq<Header>, cmds: seq<Cmd>, i: nat, contentType: seq<byte>, status: nat)
    requires i < |cmds|
    ensures var gs := SetAll(hs, Applied(cmds[..i], contentType, status));
            SetAll(hs, Applied(cmds[..i + 1], contentType, status)) ==
            if cmds[i].Applies(contentType, status) then SetAll(gs, cmds[i].headers.value) else gs
  {
    hide SetAll;
    var ps := Applied(cmds[..i], contentType, status);
    assert cmds[..i + 1][..i] == cmds[..i];
    assert ps + [] == ps;
    if cmds[i].Applies(contentType, status) {
      SetAllAppend(hs, ps, cmds[i].headers.value);
    }
  }

  /** The commands that the header filter runs. */
  method Filter(l: List, cmds: seq<Cmd>, contentType: seq<byte>, status: nat)
    requires l.Valid()
    modifies l, l.repr
    ensures l.Valid() && l.Linked() && Shape(l.slices) && fresh(l.repr - old(l.repr))
    ensures Texts(l) == SetAll(old(Texts(l)), Applied(cmds, contentType, status))
  {
    hide SetAll, Texts, List.Valid, List.Linked, Shape;
    ghost var v := ValidSnap(l);
    SetAllNone(v.texts);
    for i := 0 to |cmds|
      invariant l.Valid() && l.Linked() && Shape(l.slices) && fresh(l.repr - old(l.repr))
      invariant Texts(l) == SetAll(v.texts, Applied(cmds[..i], contentType, status))
    {
      AppliedNext(v.texts, cmds, i, contentType, status);
      if cmds[i].isInput {
        continue;
      }
      ExecCmd(l, cmds[i], contentType, status);
    }
    assert cmds[..|cmds|] == cmds;
  }

  lemma {:induction false} SetAllNone(hs: seq<Header>)
    ensures SetAll(hs, []) == hs
  {
  }
}
