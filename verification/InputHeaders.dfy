/** Setting and clearing request headers: the retry loop of headers_more over the header list. */
module InputHeaders {
  import opened Bytes
  import opened HeaderSlices
  import opened HeaderList
  import opened HeaderTexts
  import HeaderRuns

  /** `ngx_http_headers_more_header_val_t`, as far as the loop looks at it. */
  datatype HeaderVal = HeaderVal(hash: nat, key: seq<byte>, replace: bool)

  predicate Same(h: Header, key: seq<byte>) {
    SameNoCase(h.key, key)
  }

  /** Those of `xs` whose header has another name. */
  function Kept<T>(xs: seq<T>, hs: seq<Header>, key: seq<byte>): seq<T>
    requires |xs| == |hs|
  {
    if xs == [] then [] else (if Same(hs[0], key) then [] else [xs[0]]) + Kept(xs[1..], hs[1..], key)
  }

  ghost predicate Free(hs: seq<Header>, key: seq<byte>) {
    forall h :: h in hs ==> !Same(h, key)
  }

  ghost predicate FirstAt(hs: seq<Header>, key: seq<byte>, n: nat) {
    n < |hs| && Same(hs[n], key) && Free(hs[..n], key)
  }

  lemma {:induction false} KeptFree<T>(xs: seq<T>, hs: seq<Header>, key: seq<byte>)
    requires |xs| == |hs|
    ensures Free(hs, key) <==> |Kept(xs, hs, key)| == |xs|
    ensures Free(hs, key) ==> Kept(xs, hs, key) == xs
    ensures |Kept(xs, hs, key)| <= |xs|
  {
    if xs != [] {
      KeptFree(xs[1..], hs[1..], key);
      assert hs == [hs[0]] + hs[1..];
    }
  }

  lemma {:induction false} KeptWithout<T>(xs: seq<T>, hs: seq<Header>, key: seq<byte>, n: nat)
    requires |xs| == |hs| && n < |hs| && Same(hs[n], key)
    ensures Kept(Without(xs, n), Without(hs, n), key) == Kept(xs, hs, key)
  {
    if n == 0 {
      assert Without(xs, 0) == xs[1..] && Without(hs, 0) == hs[1..];
    } else {
      KeptWithout(xs[1..], hs[1..], key, n - 1);
      assert Without(xs, n)[1..] == Without(xs[1..], n - 1);
      assert Without(hs, n)[1..] == Without(hs[1..], n - 1);
    }
  }

  lemma {:induction false} KeptSkips<T>(xs: seq<T>, hs: seq<Header>, key: seq<byte>, m: nat)
    requires |xs| == |hs| && m <= |hs| && forall j :: 0 <= j < m ==> Same(hs[j], key)
    ensures Kept(xs, hs, key) == Kept(xs[m..], hs[m..], key)
  {
    if m > 0 {
      KeptSkips(xs[1..], hs[1..], key, m - 1);
      assert xs[1..][m - 1..] == xs[m..] && hs[1..][m - 1..] == hs[m..];
    } else {
      assert xs[0..] == xs && hs[0..] == hs;
    }
  }

  /** The first `m` headers, those of the head part, are some and all have the name. */
  ghost predicate Stuck(hs: seq<Header>, m: nat, key: seq<byte>) {
    0 < m <= |hs| && forall j :: 0 <= j < m ==> Same(hs[j], key)
  }

  /** What clearing leaves: the loop ends at the removal that empties the head. */
  ghost function Cleared<T>(xs: seq<T>, hs: seq<Header>, m: nat, key: seq<byte>): seq<T>
    requires |xs| == |hs|
  {
    if Stuck(hs, m, key) then xs[m..] else Kept(xs, hs, key)
  }

  /** Clearing removes every header of the name, and no other, exactly when the head part is empty
      or holds another name, or no other part holds the name. */
  lemma {:induction false} ClearsAllIff(hs: seq<Header>, m: nat, key: seq<byte>)
    requires m <= |hs|
    ensures Cleared(hs, hs, m, key) == Kept(hs, hs, key) <==>
            !Stuck(hs, m, key) || Free(hs[m..], key)
    ensures Free(Cleared(hs, hs, m, key), key) <==>
            !Stuck(hs, m, key) || Free(hs[m..], key)
  {
    KeptIsFree(hs, key);
    if Stuck(hs, m, key) {
      KeptSkips(hs, hs, key, m);
      KeptFree(hs[m..], hs[m..], key);
    }
  }

  lemma {:induction false} KeptIsFree(hs: seq<Header>, key: seq<byte>)
    ensures Free(Kept(hs, hs, key), key)
  {
    if hs != [] {
      KeptIsFree(hs[1..], key);
    }
  }

  /** How a list comes to such a state: headers X, A, X in one part, of which clearing A makes two
      parts. Before it X would have been cleared; after it the second X stays. */
  lemma {:induction false} SplitSticks(a: array<Header>, x: Header, other: Header, again: Header, key: seq<byte>)
    requires a.Length >= 3 && Same(x, key) && !Same(other, key) && Same(again, key)
    ensures var sh, step := HeaderRuns.Shelf([Slice(a, 0, 3)], a.Length), HeaderRuns.Remove(0, 1);
            && sh.Sound() && sh.TakesAll([step])
            && var hs, rs := [x, other, again], sh.After([step]).slices;
            && Place(sh.slices, 0, 1) == 1 && rs == [Slice(a, 0, 1), Slice(a, 2, 1)]
            && !Stuck(hs, sh.slices[0].len, key) && Cleared(hs, hs, sh.slices[0].len, key) == [other]
            && var gs := Without(hs, 1);
            && Stuck(gs, rs[0].len, key) && Cleared(gs, gs, rs[0].len, key) == [again]
  {
    var sh, step := HeaderRuns.Shelf([Slice(a, 0, 3)], a.Length), HeaderRuns.Remove(0, 1);
    assert sh.Takes(step);
    sh.StepSound(step);
    assert [step][1..] == [];
    assert sh.slices[..0] == [];
    var hs := [x, other, again];
    assert hs[1] == other;
    KeptThree(x, other, again, key);
    assert Without(hs, 1) == [x, again];
  }

  lemma {:induction false} KeptThree(x: Header, y: Header, z: Header, key: seq<byte>)
    requires Same(x, key) && !Same(y, key) && Same(z, key)
    ensures Kept([x, y, z], [x, y, z], key) == [y]
  {
    assert [x, y, z][1..] == [y, z] && [y, z][1..] == [z] && [z][1..] == [];
    assert Kept([z], [z], key) == [];
    assert Kept([y, z], [y, z], key) == [y];
  }

  /** Removing behind the head, or behind the first header of the head: the head begins with
      another name, before and after. */
  lemma {:induction false} ClearBehind<T>(xs: seq<T>, hs: seq<Header>, n: nat, m: nat, p: nat, key: seq<byte>)
    requires |xs| == |hs| && FirstAt(hs, key, n) && (m > 0 ==> n > 0) && (m == 0 <==> p == 0)
    ensures !Stuck(hs, m, key) && !Stuck(Without(hs, n), p, key)
    ensures Cleared(Without(xs, n), Without(hs, n), p, key) == Cleared(xs, hs, m, key)
  {
    KeptWithout(xs, hs, key, n);
    WithoutAt(hs, n);
    if m > 0 {
      assert hs[0] in hs[..n] && Without(hs, n)[0] == hs[0];
    }
  }

  /** Removing the first header of the head, one of several. */
  lemma {:induction false} ClearFront<T>(xs: seq<T>, hs: seq<Header>, m: nat, key: seq<byte>)
    requires |xs| == |hs| && FirstAt(hs, key, 0) && 1 < m <= |hs|
    ensures Stuck(Without(hs, 0), m - 1, key) <==> Stuck(hs, m, key)
    ensures Cleared(Without(xs, 0), Without(hs, 0), m - 1, key) == Cleared(xs, hs, m, key)
    ensures Without(xs, 0)[m - 2] == xs[m - 1]
  {
    var gs := Without(hs, 0);
    KeptWithout(xs, hs, key, 0);
    assert gs == hs[1..] && Without(xs, 0)[m - 1..] == xs[m..];
    if Stuck(gs, m - 1, key) {
      forall j | 0 <= j < m ensures Same(hs[j], key) {
        assert j > 0 ==> hs[j] == gs[j - 1];
      }
    }
  }

  /** From the cells `ys` with the headers `gs`, `p` of them in the head, clearing ends up like
      from `xs`, `hs` and `m`; if it gets stuck, then at the same cell. */
  ghost predicate Converges<T>(ys: seq<T>, gs: seq<Header>, p: nat, xs: seq<T>, hs: seq<Header>, m: nat, key: seq<byte>)
    requires |ys| == |gs| && |xs| == |hs|
  {
    && (Stuck(gs, p, key) <==> Stuck(hs, m, key))
    && Cleared(ys, gs, p, key) == Cleared(xs, hs, m, key)
    && Cleared(gs, gs, p, key) == Cleared(hs, hs, m, key)
    && (Stuck(hs, m, key) ==> ys[p - 1] == xs[m - 1])
  }

  /** One turn of the retry loop that does not empty the head. */
  lemma {:induction false} ClearStep<T>(ss: seq<Slice>, xs: seq<T>, hs: seq<Header>, k: nat, i: nat, key: seq<byte>)
    requires ss != [] && k < |ss| && i < ss[k].len && |xs| == |hs| == |CellsOf(ss)|
    requires FirstAt(hs, key, Place(ss, k, i)) && !(k == 0 && ss[0].len == 1)
    ensures var n, rs := Place(ss, k, i), Removed(ss, k, i);
            && rs != []
            && Converges(Without(xs, n), Without(hs, n), rs[0].len, xs, hs, ss[0].len, key)
  {
    var n, rs := Place(ss, k, i), Removed(ss, k, i);
    assert k > 0 ==> rs[0] == ss[0];
    assert k == 0 && i > 0 ==> rs[0].len > 0;
    HeadFirst(ss);
    if k > 0 {
      PlaceBehindHead(ss, k);
    }
    hide Cleared, Without;
    if k > 0 || i > 0 {
      ClearBehind(xs, hs, n, ss[0].len, rs[0].len, key);
      ClearBehind(hs, hs, n, ss[0].len, rs[0].len, key);
    } else {
      ClearFront(xs, hs, ss[0].len, key);
      ClearFront(hs, hs, ss[0].len, key);
    }
  }

  lemma {:induction false} ConvergesOn<T>(zs: seq<T>, fs: seq<Header>, q: nat, ys: seq<T>, gs: seq<Header>, p: nat,
                                          xs: seq<T>, hs: seq<Header>, m: nat, key: seq<byte>)
    requires |zs| == |fs| && |ys| == |gs| && |xs| == |hs|
    requires Converges(zs, fs, q, ys, gs, p, key) && Converges(ys, gs, p, xs, hs, m, key)
    ensures Converges(zs, fs, q, xs, hs, m, key)
  {
  }

  lemma {:induction false} HeadFirst(ss: seq<Slice>)
    requires ss != []
    ensures ss[0].len <= |CellsOf(ss)| && CellsOf(ss)[ss[0].len..] == CellsOf(ss[1..])
  {
  }

  lemma {:induction false} PlaceBehindHead(ss: seq<Slice>, k: nat)
    requires 0 < k < |ss|
    ensures |CellsOf(ss[..k])| >= ss[0].len
  {
    assert ss[..k][0] == ss[0];
  }

  /** A further header is not of the name. */
  lemma {:induction false} FreeNext(hs: seq<Header>, key: seq<byte>, n: nat)
    requires n < |hs| && Free(hs[..n], key) && !Same(hs[n], key)
    ensures Free(hs[..n + 1], key)
  {
    assert hs[..n + 1] == hs[..n] + [hs[n]];
  }

  lemma {:induction false} FreeNone(hs: seq<Header>, key: seq<byte>)
    ensures Free(hs[..0], key) && hs[..|hs|] == hs
  {
  }

  /** The loop over the parts, up to the first header of the name. */
  method Search(l: List, key: seq<byte>, ghost hs: seq<Header>) returns (found: bool, cur: Part, i: nat, ghost k: nat)
    requires l.Linked() && Shape(l.slices) && hs == Texts(l)
    ensures found ==> k < |l.parts| == |l.slices| && l.parts[k] == cur
    ensures found ==> i < cur.nelts && l.slices[k] == Slice(cur.elts, cur.start, cur.nelts)
    ensures found ==> FirstAt(hs, key, Place(l.slices, k, i))
    ensures !found ==> Free(hs, key)
  {
    hide Place, CellsOf, Texts, Same, Shape, List.Linked, Free;
    cur, i, k := l.part, 0, 0;
    ghost var ss, ps := l.slices, l.parts;
    WalkStart(l);
    FreeNone(hs, key);
    found := true;
    while true
      invariant l.Linked() && Shape(l.slices) && Texts(l) == hs
      invariant k < |ps| && ps[k] == cur && ss[k] == Slice(cur.elts, cur.start, cur.nelts)
      invariant i <= cur.nelts && Place(ss, k, i) <= |hs| && Free(hs[..Place(ss, k, i)], key)
      decreases |ps| - k, cur.nelts - i
    {
      if i >= cur.nelts {
        var next := cur.next;
        PartAt(l, k);
        PlaceNext(ss, k);
        if next == null {
          return false, cur, i, k;
        }
        cur, i, k := next, 0, k + 1;
        PartAt(l, k);
      }
      TextAt(l, k, i, cur);
      if Same(cur.elts[cur.start + i], key) {
        return;
      }
      FreeNext(hs, key, Place(ss, k, i));
      i := i + 1;
    }
  }

  /** A list that lost cell `n` holds the other headers, whatever became of that cell. */
  lemma {:induction false} TextsWithout(l: List, cs: seq<Cell>, hs: seq<Header>, n: nat)
    requires l.Linked() && Shape(l.slices) && n < |cs| == |hs| && Stored(cs)
    requires l.Cells() == Without(cs, n) && Holds(cs, hs, n)
    ensures Texts(l) == Without(hs, n)
  {
    hide Shape, CellsOf, Without, List.Linked, Texts;
    TextsHold(l);
    WithoutAt(cs, n);
    WithoutAt(hs, n);
    forall j | 0 <= j < |cs| - 1 ensures Texts(l)[j] == Without(hs, n)[j] {
      assert l.Cells()[j] == cs[if j < n then j else j + 1];
    }
  }

  lemma {:induction false} LeftOut<T>(s: seq<T>, n: nat)
    requires Distinct(s) && n < |s|
    ensures s[n] !in Without(s, n)
  {
    hide Without;
    WithoutAt(s, n);
    var r := Without(s, n);
    forall j | 0 <= j < |r| ensures r[j] != s[n] {
      assert r[j] == s[if j < n then j else j + 1];
    }
  }

  /** A header of the name leaves the list, its hash set to zero first. */
  method RemoveMatch(l: List, cur: Part, i: nat, ghost k: nat, ghost hs: seq<Header>) returns (ok: bool)
    requires l.Linked() && Shape(l.slices) && hs == Texts(l)
    requires k < |l.parts| && l.parts[k] == cur && i < cur.nelts && |l.slices| == |l.parts|
    requires l.slices[k] == Slice(cur.elts, cur.start, cur.nelts)
    modifies l, l.repr
    ensures l.Linked() && Shape(l.slices) && l.slices == Removed(old(l.slices), k, i)
    ensures Place(old(l.slices), k, i) < |hs|
    ensures l.Cells() == Without(old(l.Cells()), Place(old(l.slices), k, i))
    ensures Texts(l) == Without(hs, Place(old(l.slices), k, i))
    ensures ok == !(k == 0 && old(cur.nelts) == 1)
    ensures l.nalloc == if ok then Granted(old(l.slices), k, i, old(l.nalloc)) else old(l.nalloc)
    ensures old(l.repr) <= l.repr && fresh(l.repr - old(l.repr))
  {
    hide Place, CellsOf, Removed, Granted, Without, Shape, Distinct, Texts, List.Linked, Good;
    ghost var ss, cs, n := l.slices, l.Cells(), Place(l.slices, k, i);
    TextsHold(l);
    PlaceCell(ss, k, i);
    OwnedPart(l, k);
    var a, m := cur.elts, cur.start + i;
    Write(l, a, m, a[m].(hash := 0), cs, hs, n);
    ok := l.RemoveHelper(cur, i, k);
    TextsWithout(l, cs, hs, n);
  }

  /** The last turn: the head part holds one header, and it is of the name. */
  lemma {:induction false} ClearStops<T>(ss: seq<Slice>, ys: seq<T>, gs: seq<Header>, i: nat,
                                         xs: seq<T>, hs: seq<Header>, m: nat, key: seq<byte>)
    requires ss != [] && ss[0].len == 1 && i < 1 && |ys| == |gs| == |CellsOf(ss)| && |xs| == |hs|
    requires FirstAt(gs, key, Place(ss, 0, i)) && Converges(ys, gs, ss[0].len, xs, hs, m, key)
    ensures var n := Place(ss, 0, i);
            && Stuck(hs, m, key) && ys[n] == xs[m - 1]
            && Without(ys, n) == Cleared(xs, hs, m, key) && Without(gs, n) == Cleared(hs, hs, m, key)
  {
    assert ss[..0] == [];
  }

  /** Nothing left to do: no header of the name. */
  lemma {:induction false} ClearEnds<T>(ys: seq<T>, gs: seq<Header>, p: nat, xs: seq<T>, hs: seq<Header>, m: nat,
                                        key: seq<byte>)
    requires |ys| == |gs| && |xs| == |hs| && Free(gs, key) && Converges(ys, gs, p, xs, hs, m, key)
    ensures !Stuck(hs, m, key) && Cleared(xs, hs, m, key) == ys && Cleared(hs, hs, m, key) == gs
  {
    KeptFree(ys, gs, key);
    KeptFree(gs, gs, key);
  }

  lemma {:induction false} VisitSound(v: Snap, k: nat, i: nat)
    requires Shape(v.slices) && |v.texts| == |v.Cells()| && k < |v.slices| && i < v.slices[k].len
    ensures var n, rs := Place(v.slices, k, i), Removed(v.slices, k, i);
            && n < |v.texts| && CellsOf(rs) == Without(v.Cells(), n) && |CellsOf(rs)| == |Without(v.texts, n)|
            && CapacityLeft(v.slices, k, i, v.nalloc) ==
               (if k == 0 && v.slices[0].len == 1 then v.nalloc else Granted(v.slices, k, i, v.nalloc))
            && (v.Good() && !(k == 0 && v.slices[0].len == 1) ==>
                  Snap(rs, Without(v.texts, n), Granted(v.slices, k, i, v.nalloc)).Good())
  {
    RemovedSound(v.slices, k, i, v.nalloc);
  }

  /** The first header of the name is removed, or else it gets the value. It gets it also after a
      removal that failed, when its cell is no longer in the list. */
  method Visit(l: List, cur: Part, i: nat, ghost k: nat, value: seq<byte>, ghost v: Snap)
    returns (retry: bool, cell: Cell, ghost w: Snap)
    requires Is(l, v) && k < |l.parts| == |v.slices| && l.parts[k] == cur && i < cur.nelts
    requires v.slices[k] == Slice(cur.elts, cur.start, cur.nelts) && |v.texts| == |v.Cells()|
    modifies l, l.repr
    ensures Is(l, w) && |w.texts| == |w.Cells()|
    ensures Place(v.slices, k, i) < |v.texts| && cell == v.Cells()[Place(v.slices, k, i)]
    ensures retry <==> value == [] && !(k == 0 && v.slices[0].len == 1)
    ensures value == [] ==> w.slices == Removed(v.slices, k, i) && w.texts == Without(v.texts, Place(v.slices, k, i))
    ensures value == [] ==> w.Cells() == Without(v.Cells(), Place(v.slices, k, i))
    ensures value == [] ==> w.nalloc == CapacityLeft(v.slices, k, i, v.nalloc)
    ensures retry && v.Good() ==> w.Good()
    ensures value != [] ==> var n := Place(v.slices, k, i);
                            w == v.(texts := v.texts[n := v.texts[n].(value := value)])
    ensures old(l.repr) <= l.repr && fresh(l.repr - old(l.repr))
  {
    hide Place, CellsOf, Removed, Granted, CapacityLeft, Without, Stored, Distinct, Texts, List.Linked, Shape, Good, Is,
         Snap.Good;
    IsSo(l, v);
    OwnedPart(l, k);
    TextsHold(l);
    ghost var n := Place(v.slices, k, i);
    PlaceCell(v.slices, k, i);
    LeftOut(v.Cells(), n);
    VisitSound(v, k, i);
    var a, m := cur.elts, cur.start + i;
    cell := Cell(a, m);
    if value == [] {
      retry := RemoveMatch(l, cur, i, k, v.texts);
      if !retry {
        WriteOutside(l, a, m, a[m].(value := value));
      }
      w := Snap(l.slices, Texts(l), l.nalloc);
      SoIs(l, w);
    } else {
      w := WriteAt(l, a, m, a[m].(value := value), n, v);
      retry := false;
    }
  }

  lemma {:induction false} FreeBefore(hs: seq<Header>, key: seq<byte>, n: nat)
    requires n <= |hs| && Free(hs[..n], key)
    ensures forall j :: 0 <= j < n ==> !Same(hs[j], key)
  {
    forall j | 0 <= j < n ensures !Same(hs[j], key) {
      assert hs[j] in hs[..n];
    }
  }

  /** A call of the helper: what the list holds before, how many headers of it the head part has,
      and the arguments. */
  datatype Call = Call(cells: seq<Cell>, texts: seq<Header>, head: nat, hv: HeaderVal, value: seq<byte>,
                       tracked: bool, slot: Option<Cell>)
  {
    /** What the helper leaves: an empty value clears; another value goes to the first header of the
        name, or to a new one at the end. */
    ghost predicate Leaves(ys: seq<Cell>, gs: seq<Header>, out: Option<Cell>)
      requires Fits()
    {
      if value == [] then
        && ys == Cleared(cells, texts, head, hv.key)
        && gs == Cleared(texts, texts, head, hv.key)
        && out == if !tracked || Free(texts, hv.key) then slot
                  else if Stuck(texts, head, hv.key) then Some(cells[head - 1]) else None
      else if Free(texts, hv.key) then
        if hv.replace then ys == cells && gs == texts && out == slot
        else
          && |ys| == |cells| + 1 && ys == cells + [ys[|cells|]] && ys[|cells|] !in cells
          && gs == texts + [Header(hv.hash, hv.key, value)]
          && out == if tracked then Some(ys[|cells|]) else slot
      else
        && ys == cells
        && forall n: nat :: FirstAt(texts, hv.key, n) ==>
             && gs == texts[n := texts[n].(value := value)]
             && out == if tracked then Some(cells[n]) else slot
    }

    /** Before a turn of the loop. */
    ghost predicate Turning(ys: seq<Cell>, gs: seq<Header>, p: nat, out: Option<Cell>)
    {
      && Fits() && |ys| == |gs| <= |texts|
      && (if value == [] then Converges(ys, gs, p, cells, texts, head, hv.key) else ys == cells && gs == texts)
      && (|gs| < |texts| ==> !Free(texts, hv.key))
      && out == if tracked && |gs| < |texts| then None else slot
    }

    ghost predicate Fits() {
      |cells| == |texts|
    }

    /** Clearing ends at the removal that empties the head. */
    ghost predicate Sticks() {
      value == [] && Stuck(texts, head, hv.key)
    }

    lemma {:induction false} Begins()
      requires Fits()
      ensures Turning(cells, texts, head, slot)
    {
    }

    lemma {:induction false} TurnsOn(ss: seq<Slice>, ys: seq<Cell>, gs: seq<Header>, out: Option<Cell>, k: nat, i: nat)
      requires Fits() && value == [] && ss != [] && k < |ss| && i < ss[k].len && |ys| == |gs| == |CellsOf(ss)|
      requires Turning(ys, gs, ss[0].len, out) && FirstAt(gs, hv.key, Place(ss, k, i)) && !(k == 0 && ss[0].len == 1)
      ensures var n := Place(ss, k, i);
              && Removed(ss, k, i) != []
              && Turning(Without(ys, n), Without(gs, n), Removed(ss, k, i)[0].len, if tracked then None else out)
    {
      var n := Place(ss, k, i);
      ClearStep(ss, ys, gs, k, i, hv.key);
      WithoutAt(gs, n);
      WithoutAt(ys, n);
      KeptFree(gs, gs, hv.key);
      KeptFree(texts, texts, hv.key);
      assert gs[n] in gs;
      assert !Free(texts, hv.key);
      hide Converges, Without, Removed;
      ConvergesOn(Without(ys, n), Without(gs, n), Removed(ss, k, i)[0].len, ys, gs, ss[0].len, cells, texts, head, hv.key);
    }

    lemma {:induction false} EndsStuck(ss: seq<Slice>, ys: seq<Cell>, gs: seq<Header>, out: Option<Cell>, i: nat)
      requires Fits() && value == [] && ss != [] && ss[0].len == 1 && i < 1 && |ys| == |gs| == |CellsOf(ss)|
      requires Turning(ys, gs, ss[0].len, out) && FirstAt(gs, hv.key, Place(ss, 0, i))
      ensures Stuck(texts, head, hv.key)
      ensures var n := Place(ss, 0, i);
              Leaves(Without(ys, n), Without(gs, n), if tracked then Some(ys[n]) else out)
    {
      ClearStops(ss, ys, gs, i, cells, texts, head, hv.key);
      if Free(texts, hv.key) {
        assert texts[0] in texts;
      }
      hide Without, Cleared, Place;
    }

    lemma {:induction false} EndsSet(ys: seq<Cell>, gs: seq<Header>, p: nat, out: Option<Cell>, n: nat)
      requires Fits() && value != [] && Turning(ys, gs, p, out) && FirstAt(gs, hv.key, n)
      ensures Leaves(ys, gs[n := gs[n].(value := value)], if tracked then Some(ys[n]) else out)
    {
      assert gs[n] in gs;
      FreeBefore(texts, hv.key, n);
      forall m: nat | FirstAt(texts, hv.key, m) ensures m == n {
        FreeBefore(texts, hv.key, m);
      }
    }

    lemma {:induction false} EndsFree(ys: seq<Cell>, gs: seq<Header>, p: nat, out: Option<Cell>)
      requires Fits() && Turning(ys, gs, p, out) && Free(gs, hv.key)
      ensures value == [] || hv.replace ==> Leaves(ys, gs, out)
      ensures value == [] ==> !Stuck(texts, head, hv.key)
    {
      if value == [] {
        ClearEnds(ys, gs, p, cells, texts, head, hv.key);
        if |gs| == |texts| {
          KeptFree(texts, texts, hv.key);
        }
      }
    }

    lemma {:induction false} StillThere(ys: seq<Cell>, gs: seq<Header>, p: nat, out: Option<Cell>)
      requires Turning(ys, gs, p, out) && value != []
      ensures gs == texts
    {
    }

    lemma {:induction false} EndsPushed(ys: seq<Cell>, gs: seq<Header>, p: nat, out: Option<Cell>, c: Cell)
      requires Fits() && value != [] && !hv.replace && Turning(ys, gs, p, out) && Free(gs, hv.key) && c !in ys
      ensures Leaves(ys + [c], gs + [Header(hv.hash, hv.key, value)], if tracked then Some(c) else out)
    {
    }
  }

  /** A list that lost nothing but headers at the front of its head. */
  ghost predicate Shrunk(start: Snap, v: Snap) {
    && start.slices != [] && v.slices != []
    && var s, m := start.slices[0], v.slices[0].len;
    && m <= s.len && v.slices == start.slices[0 := Slice(s.a, s.start + s.len - m, m)]
    && v.nalloc == if |start.slices| > 1 || m == s.len || s.len == 1 then start.nalloc else if m == 0 then 1 else m
  }

  /** While the head holds nothing but headers of the name, the search ends at its first. */
  lemma {:induction false} StuckFirst(ss: seq<Slice>, hs: seq<Header>, k: nat, i: nat, key: seq<byte>)
    requires k < |ss| && i < ss[k].len && Stuck(hs, ss[0].len, key) && FirstAt(hs, key, Place(ss, k, i))
    ensures k == 0 && i == 0
  {
    assert Same(hs[0], key);
    FreeBefore(hs, key, Place(ss, k, i));
    if k > 0 {
      PlaceBehindHead(ss, k);
    }
  }

  lemma {:induction false} ShrinksOn(start: Snap, v: Snap, w: Snap)
    requires Shape(v.slices) && Shrunk(start, v) && v.slices[0].len > 0
    requires w.slices == Removed(v.slices, 0, 0) && w.nalloc == CapacityLeft(v.slices, 0, 0, v.nalloc)
    ensures Shrunk(start, w) && w.slices[0].len == v.slices[0].len - 1
  {
    RemovedFirst(v.slices, 0, v.nalloc);
    hide Shape, Removed, Granted;
  }

  /** When pushes are safe after a clear that emptied the head, on a list on which they were. */
  lemma {:induction false} RoomAfterStuck(start: Snap, v: Snap)
    requires start.Sound() && start.Roomy() && Shrunk(start, v) && start.slices[0].len > 0 && v.slices[0].len == 0
    ensures var s := start.slices[0];
            && (Room(v.slices, v.nalloc) <==> |start.slices| > 1 || s.start + s.len - 1 + v.nalloc < s.a.Length)
            && (Fits(v.slices, v.nalloc) <==> |start.slices| > 1 || s.start + s.len < s.a.Length)
  {
    var ss, rs := start.slices, v.slices;
    if |ss| == 1 {
      assert rs == [rs[0]];
      CellsOfOne(rs[0]);
    } else {
      forall j | 0 <= j < |rs| - 1 ensures Apart(rs[j], Slice(rs[|rs| - 1].a, rs[|rs| - 1].start, v.nalloc)) {
        assert Apart(ss[j], Slice(ss[|ss| - 1].a, ss[|ss| - 1].start, v.nalloc));
      }
      RoomFits(rs, v.nalloc);
    }
  }

  /** Before a turn of a call on the list `start`. */
  ghost predicate Before(start: Snap, call: Call, v: Snap, out: Option<Cell>): (b: bool)
    ensures b ==> call.Fits() && v.Sound()
  {
    && v.Sound() && call.Turning(v.Cells(), v.texts, v.slices[0].len, out)
    && (start.Good() ==> v.Good()) && (call.value != [] && start.Roomy() ==> v.Roomy())
    && (call.Sticks() ==> Shrunk(start, v))
  }

  ghost predicate After(start: Snap, call: Call, v: Snap, out: Option<Cell>) {
    && call.Fits() && call.Leaves(v.Cells(), v.texts, out)
    && (start.Good() && !call.Sticks() ==> v.Good())
    && (call.value != [] && start.Roomy() ==> v.Roomy())
    && (call.Sticks() ==> Shrunk(start, v) && v.slices[0].len == 0)
  }

  lemma {:induction false} SticksOn(start: Snap, call: Call, v: Snap, w: Snap, out: Option<Cell>, k: nat, i: nat)
    requires Before(start, call, v, out) && k < |v.slices| && i < v.slices[k].len
    requires call.value == [] && FirstAt(v.texts, call.hv.key, Place(v.slices, k, i))
    requires w.slices == Removed(v.slices, k, i) && w.nalloc == CapacityLeft(v.slices, k, i, v.nalloc)
    ensures call.Sticks() ==> Shrunk(start, w) && w.slices[0].len == v.slices[0].len - 1
  {
    if call.Sticks() {
      StuckFirst(v.slices, v.texts, k, i, call.hv.key);
      ShrinksOn(start, v, w);
    }
  }

  lemma {:induction false} BeforeSo(start: Snap, call: Call, v: Snap, out: Option<Cell>)
    requires Before(start, call, v, out)
    ensures v.Sound() && call.Turning(v.Cells(), v.texts, v.slices[0].len, out)
    ensures (start.Good() ==> v.Good()) && (call.value != [] && start.Roomy() ==> v.Roomy())
  {
  }

  lemma {:induction false} AfterSo(start: Snap, call: Call, v: Snap, out: Option<Cell>)
    requires After(start, call, v, out)
    ensures call.Fits() && call.Leaves(v.Cells(), v.texts, out)
    ensures start.Good() && !call.Sticks() ==> v.Good()
    ensures call.value != [] && start.Roomy() ==> v.Roomy()
    ensures call.Sticks() ==> Shrunk(start, v) && v.slices[0].len == 0
    ensures call.Sticks() <==> call.value == [] && Stuck(call.texts, call.head, call.hv.key)
  {
  }

  /** One turn: the search, and what becomes of the header that it finds. */
  method Turn(l: List, hv: HeaderVal, value: seq<byte>, tracked: bool, slot: Option<Cell>, ghost call: Call,
              ghost start: Snap, ghost v: Snap)
    returns (found: bool, retry: bool, out: Option<Cell>, ghost w: Snap)
    requires call.hv == hv && call.value == value && call.tracked == tracked
    requires Is(l, v) && Before(start, call, v, slot)
    modifies l, l.repr
    ensures Is(l, w) && old(l.repr) <= l.repr && fresh(l.repr - old(l.repr))
    ensures !found ==> w == v && Free(v.texts, hv.key) && out == slot
    ensures found && retry ==> Before(start, call, w, out) && |w.texts| < |v.texts|
    ensures found && !retry ==> After(start, call, w, out)
  {
    hide Call.Turning, Call.Leaves, FirstAt, Free, Place, Removed, Without, CellsOf, Texts, List.Linked,
         Shape, Stuck, Granted, CapacityLeft, Good, Is, Room, Shrunk;
    IsSo(l, v);
    ghost var ss, hs, cs := v.slices, v.texts, v.Cells();
    var cur, i;
    ghost var k, n;
    found, cur, i, k := Search(l, hv.key, hs);
    retry, out, w := false, slot, v;
    if !found {
      return;
    }
    n := Place(ss, k, i);
    var cell;
    retry, cell, w := Visit(l, cur, i, k, value, v);
    if retry {
      call.TurnsOn(ss, cs, hs, slot, k, i);
      SticksOn(start, call, v, w, slot, k, i);
      WithoutAt(hs, n);
      out := if tracked then None else slot;
      IsSo(l, w);
    } else {
      if value == [] {
        call.EndsStuck(ss, cs, hs, slot, i);
        SticksOn(start, call, v, w, slot, k, i);
      } else {
        call.EndsSet(cs, hs, ss[0].len, slot, n);
      }
      out := if tracked then Some(cell) else slot;
    }
  }

  lemma {:induction false} Starts(l: List, hv: HeaderVal, value: seq<byte>, tracked: bool, slot: Option<Cell>)
    returns (call: Call, v: Snap)
    requires l.Linked() && Shape(l.slices)
    ensures l.slices != []
    ensures call == Call(l.Cells(), Texts(l), l.slices[0].len, hv, value, tracked, slot) && call.Fits()
    ensures v == Snap(l.slices, Texts(l), l.nalloc) && Is(l, v) && Before(v, call, v, slot)
  {
    call := Call(l.Cells(), Texts(l), l.slices[0].len, hv, value, tracked, slot);
    v := Snap(l.slices, Texts(l), l.nalloc);
    call.Begins();
  }

  /** A call that finds nothing to set makes a new header. */
  ghost predicate Pushes(hs: seq<Header>, hv: HeaderVal, value: seq<byte>) {
    value != [] && !hv.replace && Free(hs, hv.key)
  }

  lemma {:induction false} PushesSo(hs: seq<Header>, hv: HeaderVal, value: seq<byte>)
    ensures Pushes(hs, hv, value) <==> value != [] && !hv.replace && Free(hs, hv.key)
  {
  }

  /** `ngx_http_set_header_helper`; `tracked` says that there is a pointer to the header, `slot`. */
  method SetHeaderHelper(l: List, hv: HeaderVal, value: seq<byte>, tracked: bool, slot: Option<Cell>)
    returns (out: Option<Cell>)
    requires l.Linked() && Shape(l.slices)
    requires Pushes(Texts(l), hv, value) ==> Room(l.slices, l.nalloc)
    modifies l, l.repr
    ensures l.Linked() && Shape(l.slices)
    ensures var call := Call(old(l.Cells()), old(Texts(l)), old(l.slices)[0].len, hv, value, tracked, slot);
            && call.Leaves(l.Cells(), Texts(l), out)
            && (old(l.Valid()) && (value != [] || !Stuck(call.texts, call.head, hv.key)) ==> l.Valid())
    ensures value != [] && old(Room(l.slices, l.nalloc)) ==> Room(l.slices, l.nalloc)
    ensures value == [] && Stuck(old(Texts(l)), old(l.slices)[0].len, hv.key) ==>
      && Shrunk(Snap(old(l.slices), old(Texts(l)), old(l.nalloc)), Snap(l.slices, Texts(l), l.nalloc))
      && l.slices[0].len == 0
    ensures old(l.repr) <= l.repr && fresh(l.repr - old(l.repr))
  {
    hide *;
    ghost var call, start := Starts(l, hv, value, tracked, slot);
    ghost var v := start;
    IsSo(l, v);
    PushesSo(v.texts, hv, value);
    out := slot;
    var found;
    while true
      invariant Is(l, v) && Before(start, call, v, out)
      invariant old(l.repr) <= l.repr && fresh(l.repr - old(l.repr))
      decreases |v.texts|
    {
      var retry;
      found, retry, out, v := Turn(l, hv, value, tracked, out, call, start, v);
      if !found || !retry {
        break;
      }
    }
    IsSo(l, v);
    if found {
      AfterSo(start, call, v, out);
      return;
    }
    BeforeSo(start, call, v, out);
    call.EndsFree(v.Cells(), v.texts, v.slices[0].len, out);
    if value == [] || hv.replace {
      return;
    }
    call.StillThere(v.Cells(), v.texts, v.slices[0].len, out);
    ghost var cs, hs, p := v.Cells(), v.texts, v.slices[0].len;
    var cell;
    cell, v := PushHeader(l, Header(hv.hash, hv.key, value), v);
    IsSo(l, v);
    call.EndsPushed(cs, hs, p, out, cell);
    if tracked {
      out := Some(cell);
    }
  }

  /** A pointer to a request header points into memory of the list, if not to a header of the list. */
  ghost predicate Points(l: List, slot: Option<Cell>)
    reads l
  {
    slot.Some? ==> slot.value.a in l.repr && slot.value.i < slot.value.a.Length
  }

  /** It leads to a header of its name. */
  ghost predicate Leads(l: List, key: seq<byte>, slot: Option<Cell>)
    requires l.Linked() && Shape(l.slices)
    reads l, l.repr
  {
    slot.Some? ==> exists n :: 0 <= n < |Texts(l)| && l.Cells()[n] == slot.value && Same(Texts(l)[n], key)
  }

  lemma {:induction false} CellsPoint(l: List)
    requires l.Linked() && Shape(l.slices)
    ensures forall c :: c in l.Cells() ==> c.a in l.repr && c.i < c.a.Length
  {
    CellsOwned(l);
  }

  /** Wherever the pointer led, it points into memory of the list afterwards. */
  lemma {:induction false} LeavesPoint(l: List, call: Call, out: Option<Cell>)
    requires l.Linked() && Shape(l.slices) && call.Fits() && call.Leaves(l.Cells(), Texts(l), out)
    requires Points(l, call.slot) && forall c :: c in call.cells ==> c.a in l.repr && c.i < c.a.Length
    ensures Points(l, out)
  {
    CellsPoint(l);
    if call.value != [] && !Free(call.texts, call.hv.key) {
      var n := SomeFirst(call.texts, call.hv.key);
      assert FirstAt(call.texts, call.hv.key, n);
    }
  }

  /** After a call that did not get stuck, the pointer is null or leads to a header of the name again. */
  lemma {:induction false} LeavesLead(l: List, call: Call, out: Option<Cell>)
    requires l.Linked() && Shape(l.slices) && call.Fits() && call.tracked && call.slot == None
    requires call.Leaves(l.Cells(), Texts(l), out)
    ensures call.value == [] && !Stuck(call.texts, call.head, call.hv.key) ==> out == None
    ensures call.value == [] && Stuck(call.texts, call.head, call.hv.key) ==>
      out == Some(call.cells[call.head - 1]) && l.Cells() == call.cells[call.head..]
    ensures call.value != [] ==> Leads(l, call.hv.key, out)
  {
    if call.value == [] {
      assert Stuck(call.texts, call.head, call.hv.key) ==> call.texts[0] in call.texts;
    } else {
      if Free(call.texts, call.hv.key) {
        if !call.hv.replace {
          assert Texts(l)[|call.texts|] == Header(call.hv.hash, call.hv.key, call.value);
        }
      } else {
        var n := SomeFirst(call.texts, call.hv.key);
        assert FirstAt(call.texts, call.hv.key, n);
        assert Texts(l)[n].key == call.texts[n].key;
      }
    }
  }

  ghost function SomeFirst(hs: seq<Header>, key: seq<byte>): (n: nat)
    requires !Free(hs, key)
    ensures FirstAt(hs, key, n)
  {
    if Same(hs[0], key) then 0 else
      assert hs == [hs[0]] + hs[1..];
      var n := SomeFirst(hs[1..], key);
      assert hs[..n + 1] == [hs[0]] + hs[1..][..n];
      n + 1
  }

  /** What a header becomes that is set through a pointer to it; its name stays. */
  function Overwritten(h: Header, hv: HeaderVal, value: seq<byte>): Header {
    h.(hash := if value == [] then 0 else hv.hash, value := value)
  }

  /** What a clear leaves does not depend on more than the names. */
  lemma {:induction false} NamesDecide<T>(xs: seq<T>, hs: seq<Header>, gs: seq<Header>, m: nat, key: seq<byte>)
    requires |xs| == |hs| == |gs| && forall j :: 0 <= j < |hs| ==> hs[j].key == gs[j].key
    ensures Free(gs, key) <==> Free(hs, key)
    ensures Stuck(gs, m, key) <==> Stuck(hs, m, key)
    ensures Kept(xs, gs, key) == Kept(xs, hs, key)
  {
    KeptByNames(xs, hs, gs, key);
    forall j | 0 <= j < |hs| ensures hs[j] in hs && gs[j] in gs && (Same(gs[j], key) <==> Same(hs[j], key)) {
    }
  }

  lemma {:induction false} KeptByNames<T>(xs: seq<T>, hs: seq<Header>, gs: seq<Header>, key: seq<byte>)
    requires |xs| == |hs| == |gs| && forall j :: 0 <= j < |hs| ==> hs[j].key == gs[j].key
    ensures Kept(xs, gs, key) == Kept(xs, hs, key)
  {
    if hs != [] {
      KeptByNames(xs[1..], hs[1..], gs[1..], key);
    }
  }

  /** Headers that only differ where they have the name leave the same when it is cleared. */
  lemma {:induction false} KeptOthers(hs: seq<Header>, gs: seq<Header>, key: seq<byte>)
    requires |hs| == |gs| && forall j :: 0 <= j < |hs| ==> hs[j].key == gs[j].key
    requires forall j :: 0 <= j < |hs| ==> gs[j] == hs[j] || Same(hs[j], key)
    ensures Kept(gs, gs, key) == Kept(hs, hs, key)
  {
    if hs != [] {
      KeptOthers(hs[1..], gs[1..], key);
    }
  }

  /** The headers when the cell pointed to has been overwritten. */
  lemma {:induction false} PointedTo(l: List, key: seq<byte>, c: Cell, h: Header)
    requires l.Linked() && Shape(l.slices) && c.i < c.a.Length && h.key == c.a[c.i].key
    ensures var cs, hs, gs := l.Cells(), Texts(l), Put(l.Cells(), Texts(l), c, h);
            && |gs| == |hs| == |cs| && (forall j :: 0 <= j < |hs| ==> hs[j].key == gs[j].key)
            && (c !in cs ==> gs == hs)
            && (Leads(l, key, Some(c)) ==>
                  && (forall j :: 0 <= j < |hs| ==> gs[j] == hs[j] || Same(hs[j], key))
                  && exists n :: 0 <= n < |gs| && cs[n] == c && Same(gs[n], key))
  {
    TextsHold(l);
    hide Shape, CellsOf, Distinct, Texts, List.Linked;
    if Leads(l, key, Some(c)) {
      var n :| 0 <= n < |Texts(l)| && l.Cells()[n] == c && Same(Texts(l)[n], key);
      assert Same(Put(l.Cells(), Texts(l), c, h)[n], key);
    }
  }

  /** What clearing leaves when the cell pointed to has been overwritten. */
  lemma {:induction false} PointedClears(cs: seq<Cell>, hs: seq<Header>, gs: seq<Header>, m: nat, hv: HeaderVal,
                                         slot: Option<Cell>, ys: seq<Cell>, fs: seq<Header>, out: Option<Cell>)
    requires |cs| == |hs| == |gs| && forall j :: 0 <= j < |hs| ==> hs[j].key == gs[j].key
    requires Call(cs, gs, m, hv, [], true, slot).Leaves(ys, fs, out)
    ensures Stuck(gs, m, hv.key) <==> Stuck(hs, m, hv.key)
    ensures !Stuck(hs, m, hv.key) ==> ys == Kept(cs, hs, hv.key)
    ensures Stuck(hs, m, hv.key) ==> out == Some(cs[m - 1]) && ys == cs[m..]
    ensures !Stuck(hs, m, hv.key) && !Free(hs, hv.key) ==> out == None
    ensures !Stuck(hs, m, hv.key) && (forall j :: 0 <= j < |hs| ==> gs[j] == hs[j] || Same(hs[j], hv.key)) ==>
      fs == Kept(hs, hs, hv.key)
  {
    NamesDecide(cs, hs, gs, m, hv.key);
    if Stuck(hs, m, hv.key) {
      assert gs[0] in gs;
    } else if forall j :: 0 <= j < |hs| ==> gs[j] == hs[j] || Same(hs[j], hv.key) {
      KeptOthers(hs, gs, hv.key);
    }
  }

  lemma {:induction false} LedBack(l: List, key: seq<byte>, slot: Option<Cell>)
    requires l.Linked() && Shape(l.slices) && slot.Some?
    requires exists n :: 0 <= n < |Texts(l)| && l.Cells()[n] == slot.value && Same(Texts(l)[n], key)
    ensures Leads(l, key, slot)
  {
  }

  lemma {:induction false} LedSomewhere(l: List, key: seq<byte>, slot: Option<Cell>)
    requires l.Linked() && Shape(l.slices) && slot.Some? && Leads(l, key, slot)
    ensures !Free(Texts(l), key)
  {
    var n :| 0 <= n < |Texts(l)| && l.Cells()[n] == slot.value && Same(Texts(l)[n], key);
    assert Texts(l)[n] in Texts(l);
  }

  lemma {:induction false} PointsTo(l: List, slot: Option<Cell>)
    requires Points(l, slot) && slot.Some?
    ensures slot.value.a in l.repr && slot.value.i < slot.value.a.Length
  {
  }

  lemma {:induction false} StillPoints(l: List, slot: Option<Cell>)
    requires slot.Some? ==> slot.value.a in l.repr && slot.value.i < slot.value.a.Length
    ensures Points(l, slot)
  {
  }

  lemma {:induction false} OverwrittenIs(h: Header, hv: HeaderVal, value: seq<byte>)
    ensures Overwritten(h, hv, value) == Header(if value == [] then 0 else hv.hash, h.key, value)
  {
  }

  /** Without a pointer, clearing leaves the headers of other names, and the pointer null. */
  lemma {:induction false} NoneClears(call: Call, ys: seq<Cell>, gs: seq<Header>, out: Option<Cell>)
    requires call.Fits() && call.value == [] && call.tracked && call.slot == None && call.Leaves(ys, gs, out)
    ensures !Stuck(call.texts, call.head, call.hv.key) ==>
      && out == None && ys == Kept(call.cells, call.texts, call.hv.key)
      && gs == Kept(call.texts, call.texts, call.hv.key)
  {
  }

  lemma {:induction false} DeadCell(l: List, m: nat, key: seq<byte>)
    requires l.Linked() && Shape(l.slices)
    ensures Stuck(Texts(l), m, key) ==> 0 < m <= |l.Cells()| && l.Cells()[m - 1] !in l.Cells()[m..]
  {
    TextsHold(l);
  }

  /** `ngx_http_set_builtin_header`: a header that the request points to is set in its place. After a
      clear that emptied the head the pointer leads to a dead cell: a later value goes there, unseen. */
  method SetBuiltinHeader(l: List, hv: HeaderVal, value: seq<byte>, slot: Option<Cell>) returns (out: Option<Cell>)
    requires l.Linked() && Shape(l.slices) && Points(l, slot)
    requires slot == None && Pushes(Texts(l), hv, value) ==> Room(l.slices, l.nalloc)
    modifies l, l.repr
    ensures l.Linked() && Shape(l.slices) && Points(l, out)
    ensures var cs, hs, m := old(l.Cells()), old(Texts(l)), old(l.slices)[0].len;
            && (old(l.Valid()) && (value != [] || !Stuck(hs, m, hv.key)) ==> l.Valid())
            && (slot == None ==> Call(cs, hs, m, hv, value, true, None).Leaves(l.Cells(), Texts(l), out))
            && (value == [] && !Stuck(hs, m, hv.key) ==> l.Cells() == Kept(cs, hs, hv.key))
            && (value == [] && Stuck(hs, m, hv.key) ==>
                  out == Some(cs[m - 1]) && l.Cells() == cs[m..] && out.value !in l.Cells())
    ensures slot.Some? ==>
      var c, cs, m := slot.value, old(l.Cells()), old(l.slices)[0].len;
      var h := Header(if value == [] then 0 else hv.hash, old(c.a[c.i]).key, value);
      var gs := Put(cs, old(Texts(l)), c, h);
      if value == [] then Call(cs, gs, m, hv, [], true, slot).Leaves(l.Cells(), Texts(l), out)
      else out == slot && c.a[c.i] == h && l.slices == old(l.slices) && l.nalloc == old(l.nalloc) && Texts(l) == gs
    ensures slot.Some? && value != [] && slot.value !in old(l.Cells()) ==> Texts(l) == old(Texts(l))
    ensures old(Leads(l, hv.key, slot)) ==>
      && (value == [] && !Stuck(old(Texts(l)), old(l.slices)[0].len, hv.key) ==>
            out == None && Texts(l) == Kept(old(Texts(l)), old(Texts(l)), hv.key))
      && (value != [] ==> Leads(l, hv.key, out))
    ensures old(l.repr) <= l.repr && fresh(l.repr - old(l.repr))
  {
    hide *;
    ghost var v0 := SoundSnap(l);
    ghost var cs, hs, m := l.Cells(), Texts(l), l.slices[0].len;
    CellsPoint(l);
    DeadCell(l, m, hv.key);
    if slot == None {
      PushesSo(hs, hv, value);
      out := SetHeaderHelper(l, hv, value, true, slot);
      ghost var call := Call(cs, hs, m, hv, value, true, slot);
      LeavesLead(l, call, out);
      StillPoints(l, slot);
      LeavesPoint(l, call, out);
      if value == [] {
        NoneClears(call, l.Cells(), Texts(l), out);
      }
      return;
    }
    PointsTo(l, slot);
    var Cell(a, i) := slot.value;
    var h := Overwritten(a[i], hv, value);
    OverwrittenIs(a[i], hv, value);
    PointedTo(l, hv.key, slot.value, h);
    ghost var gs, led := Put(cs, hs, slot.value, h), Leads(l, hv.key, slot);
    if led {
      LedSomewhere(l, hv.key, slot);
    }
    ghost var v := Overwrite(l, a, i, h, v0);
    StillGood(l, cs, gs, v0, v);
    StillPoints(l, slot);
    if value == [] {
      PushesSo(gs, hv, value);
      CellsPoint(l);
      out := SetHeaderHelper(l, hv, value, true, slot);
      PointedClears(cs, hs, gs, m, hv, slot, l.Cells(), Texts(l), out);
      LeavesPoint(l, Call(cs, gs, m, hv, value, true, slot), out);
    } else {
      out := slot;
      if led {
        LedBack(l, hv.key, slot);
      }
    }
  }
}
