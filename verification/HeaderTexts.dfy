/** What the cells of a header list hold, and how it is written through the list. */
module HeaderTexts {
  import opened Bytes
  import opened HeaderSlices
  import opened HeaderList

  ghost predicate Stored(cs: seq<Cell>) {
    forall c :: c in cs ==> c.i < c.a.Length
  }

  ghost function TextsOf(cs: seq<Cell>): (hs: seq<Header>)
    requires Stored(cs)
    reads set c | c in cs :: c.a
    ensures |hs| == |cs|
  {
    if cs == [] then [] else [cs[0].a[cs[0].i]] + TextsOf(cs[1..])
  }

  lemma {:induction false} TextsAt(cs: seq<Cell>)
    requires Stored(cs)
    ensures forall j :: 0 <= j < |cs| ==> TextsOf(cs)[j] == cs[j].a[cs[j].i]
  {
    if cs != [] {
      TextsAt(cs[1..]);
      forall j | 0 <= j < |cs| ensures TextsOf(cs)[j] == cs[j].a[cs[j].i] {
        assert j > 0 ==> TextsOf(cs)[j] == TextsOf(cs[1..])[j - 1];
      }
    }
  }

  lemma {:induction false} CellsStored(ss: seq<Slice>)
    requires Shape(ss)
    ensures Stored(CellsOf(ss))
  {
    forall c | c in CellsOf(ss) ensures c.i < c.a.Length {
      CellsIn(ss, c);
      var k :| 0 <= k < |ss| && c in ss[k].Cells();
      assert ss[k] in ss;
    }
  }

  lemma {:induction false} PlaceNext(ss: seq<Slice>, k: nat)
    requires k < |ss|
    ensures k < |ss| - 1 ==> Place(ss, k, ss[k].len) == Place(ss, k + 1, 0)
    ensures k == |ss| - 1 ==> Place(ss, k, ss[k].len) == |CellsOf(ss)|
  {
    assert ss[..k + 1] == ss[..k] + [ss[k]];
    CellsOfAppend(ss[..k], [ss[k]]);
    CellsOfOne(ss[k]);
    assert k == |ss| - 1 ==> ss[..k + 1] == ss;
  }

  lemma {:induction false} PlaceCell(ss: seq<Slice>, k: nat, i: nat)
    requires k < |ss| && i < ss[k].len
    ensures Place(ss, k, i + 1) == Place(ss, k, i) + 1
    ensures Place(ss, k, i) < |CellsOf(ss)| && CellsOf(ss)[Place(ss, k, i)] == Cell(ss[k].a, ss[k].start + i)
  {
    assert ss == ss[..k] + [ss[k]] + ss[k + 1..];
    CellsOfThree(ss, k, [ss[k]], k + 1);
    CellsOfOne(ss[k]);
  }

  lemma {:induction false} CellsOwned(l: List)
    requires l.Linked() && Shape(l.slices)
    ensures Stored(l.Cells()) && forall c :: c in l.Cells() ==> c.a in l.repr
  {
    CellsStored(l.slices);
    forall c | c in l.Cells() ensures c.a in l.repr {
      CellsIn(l.slices, c);
      var k :| 0 <= k < |l.slices| && c in l.slices[k].Cells();
      assert l.slices[k].a == l.parts[k].elts;
    }
  }

  /** The headers of a list, in order. */
  ghost function Texts(l: List): (hs: seq<Header>)
    requires l.Linked() && Shape(l.slices)
    reads l, l.repr
    ensures |hs| == |l.Cells()|
  {
    CellsOwned(l);
    TextsOf(l.Cells())
  }

  lemma {:induction false} OwnedPart(l: List, k: nat)
    requires l.Linked()
    ensures k < |l.parts| ==> l.parts[k].elts in l.repr
    ensures forall p :: p in l.parts ==> p in l.repr
    ensures l.last in l.repr && l.last.elts in l.repr
  {
    assert l.parts[|l.parts| - 1] == l.last;
  }

  lemma {:induction false} PartAt(l: List, k: nat)
    requires l.Linked() && k < |l.parts|
    ensures |l.slices| == |l.parts| && l.slices[k] == Slice(l.parts[k].elts, l.parts[k].start, l.parts[k].nelts)
    ensures l.parts[k].next == if k < |l.parts| - 1 then l.parts[k + 1] else null
    ensures l.part == l.parts[0]
  {
  }

  /** The cells `cs` other than `n` hold the headers `hs`. */
  ghost predicate Holds(cs: seq<Cell>, hs: seq<Header>, n: int)
    requires |cs| == |hs| && Stored(cs)
    reads set c | c in cs :: c.a
  {
    forall j :: 0 <= j < |cs| && j != n ==> cs[j].a[cs[j].i] == hs[j]
  }

  lemma {:induction false} TextsHold(l: List)
    requires l.Linked() && Shape(l.slices)
    ensures |Texts(l)| == |l.Cells()| && Stored(l.Cells()) && Distinct(l.Cells())
    ensures Holds(l.Cells(), Texts(l), -1)
    ensures forall j :: 0 <= j < |l.Cells()| ==> l.Cells()[j].a in l.repr
  {
    CellsOwned(l);
    CellsDistinct(l.slices);
    TextsAt(l.Cells());
  }

  lemma {:induction false} HoldTexts(l: List, hs: seq<Header>)
    requires l.Linked() && Shape(l.slices) && |hs| == |l.Cells()| && Stored(l.Cells()) && Holds(l.Cells(), hs, -1)
    ensures Texts(l) == hs
  {
    CellsOwned(l);
    TextsAt(l.Cells());
  }

  /** Where a walk over the parts begins; of the parts only the head may be empty. */
  lemma {:induction false} WalkStart(l: List)
    requires l.Linked() && Shape(l.slices)
    ensures var ss := l.slices;
            && |ss| == |l.parts| > 0 && l.parts[0] == l.part
            && ss[0] == Slice(l.part.elts, l.part.start, l.part.nelts)
            && Place(ss, 0, 0) == 0 && |Texts(l)| == |CellsOf(ss)|
            && forall m :: 1 <= m < |ss| ==> ss[m].len > 0
  {
    assert l.slices[..0] == [];
  }

  lemma {:induction false} TextAt(l: List, k: nat, i: nat, cur: Part)
    requires l.Linked() && Shape(l.slices) && k < |l.slices| && i < l.slices[k].len
    requires l.slices[k] == Slice(cur.elts, cur.start, cur.nelts)
    ensures var n := Place(l.slices, k, i);
            && n + 1 == Place(l.slices, k, i + 1)
            && n < |l.Cells()| && l.Cells()[n] == Cell(cur.elts, cur.start + i)
            && n < |Texts(l)| && cur.start + i < cur.elts.Length && Texts(l)[n] == cur.elts[cur.start + i]
  {
    PlaceCell(l.slices, k, i);
    TextsHold(l);
  }

  /** One cell is written; the others hold what they held. */
  method Write(l: List, a: array<Header>, m: nat, h: Header, ghost cs: seq<Cell>, ghost hs: seq<Header>, ghost n: nat)
    requires l.Linked()
    requires Stored(cs) && Distinct(cs) && n < |cs| == |hs| && cs[n] == Cell(a, m) && Holds(cs, hs, -1)
    modifies a
    ensures l.Linked() && m < a.Length && a[m] == h && Holds(cs, hs, n) && Holds(cs, hs[n := h], -1)
  {
    assert cs[n] in cs;
    a[m] := h;
  }

  method WriteInside(l: List, a: array<Header>, m: nat, h: Header, ghost n: nat, ghost hs: seq<Header>)
    requires l.Linked() && Shape(l.slices) && hs == Texts(l) && n < |hs| && n < |l.Cells()| && l.Cells()[n] == Cell(a, m)
    modifies a
    ensures l.Linked() && Shape(l.slices) && m < a.Length && a[m] == h && Texts(l) == hs[n := h]
  {
    hide Shape, CellsOf, Distinct, Holds, Stored, Texts, List.Linked;
    TextsHold(l);
    Write(l, a, m, h, l.Cells(), hs, n);
    HoldTexts(l, hs[n := h]);
  }

  method WriteOutside(l: List, a: array<Header>, m: nat, h: Header)
    requires l.Linked() && Shape(l.slices) && m < a.Length && Cell(a, m) !in l.Cells()
    modifies a
    ensures l.Linked() && Shape(l.slices) && a[m] == h && Texts(l) == old(Texts(l))
  {
    hide Shape, CellsOf, Distinct, Texts;
    ghost var hs := Texts(l);
    TextsHold(l);
    a[m] := h;
    HoldTexts(l, hs);
  }

  /** What a list is, at one moment. */
  datatype Snap = Snap(slices: seq<Slice>, texts: seq<Header>, nalloc: nat) {
    ghost function Cells(): seq<Cell> {
      CellsOf(slices)
    }

    ghost predicate Sound(): (sound: bool)
      ensures sound ==> slices != [] && |texts| == |Cells()|
    {
      Shape(slices) && |texts| == |Cells()|
    }

    ghost predicate Roomy() {
      slices != [] && Room(slices, nalloc)
    }

    ghost predicate Good(): (good: bool)
      ensures good ==> Sound() && Roomy()
    {
      HeaderSlices.Good(slices, nalloc) && |texts| == |Cells()|
    }
  }

  ghost predicate Is(l: List, v: Snap)
    reads l, l.repr
  {
    && l.Linked() && Shape(l.slices)
    && v.slices == l.slices && v.texts == Texts(l) && v.nalloc == l.nalloc
  }

  lemma {:induction false} IsSo(l: List, v: Snap)
    requires Is(l, v)
    ensures l.Linked() && Shape(l.slices) && v.slices == l.slices && v.texts == Texts(l) && v.nalloc == l.nalloc
    ensures l.Cells() == v.Cells() && |v.texts| == |v.Cells()|
    ensures v.Sound() && (v.Good() <==> l.Valid()) && (v.Roomy() <==> Room(l.slices, l.nalloc))
  {
  }

  lemma {:induction false} SoIs(l: List, v: Snap)
    requires l.Linked() && Shape(l.slices) && v.slices == l.slices && v.texts == Texts(l) && v.nalloc == l.nalloc
    ensures Is(l, v)
  {
  }

  /** Header `n` of the list is overwritten. */
  method WriteAt(l: List, a: array<Header>, m: nat, h: Header, ghost n: nat, ghost v: Snap) returns (ghost w: Snap)
    requires Is(l, v) && n < |v.texts| == |v.Cells()| && v.Cells()[n] == Cell(a, m)
    modifies a
    ensures w == v.(texts := v.texts[n := h]) && Is(l, w)
  {
    hide *;
    IsSo(l, v);
    WriteInside(l, a, m, h, n, v.texts);
    w := v.(texts := v.texts[n := h]);
    SoIs(l, w);
  }

  lemma {:induction false} TextsExtended(l: List, cs: seq<Cell>, hs: seq<Header>, c: Cell)
    requires l.Linked() && Shape(l.slices) && Stored(cs) && |cs| == |hs| && Holds(cs, hs, -1) && l.Cells() == cs + [c]
    ensures |Texts(l)| == |hs| + 1 && forall h :: Texts(l)[|hs| := h] == hs + [h]
  {
    hide Shape, CellsOf, List.Linked, Texts;
    TextsHold(l);
    forall j | 0 <= j < |cs| ensures Texts(l)[j] == hs[j] {
      assert l.Cells()[j] == cs[j];
    }
  }

  /** A header at the end. */
  method PushHeader(l: List, h: Header, ghost v: Snap) returns (cell: Cell, ghost w: Snap)
    requires Is(l, v) && v.Roomy()
    modifies l, l.repr
    ensures v.Good() ==> w.Good()
    ensures Is(l, w) && w.Sound() && w.Roomy() && w.Cells() == v.Cells() + [cell] && w.texts == v.texts + [h]
    ensures cell !in v.Cells() && cell.a in l.repr && cell.i < cell.a.Length
    ensures old(l.repr) <= l.repr && fresh(l.repr - old(l.repr))
  {
    hide Room, Headed, CellsOf, Texts, List.Linked, Is, Distinct;
    IsSo(l, v);
    OwnedPart(l, 0);
    TextsHold(l);
    var a, m := l.Push();
    cell := Cell(a, m);
    TextsExtended(l, v.Cells(), v.texts, cell);
    w := Snap(l.slices, Texts(l), l.nalloc);
    SoIs(l, w);
    w := WriteAt(l, a, m, h, |v.texts|, w);
  }

  /** A list in which only headers were overwritten. */
  lemma {:induction false} StillGood(l: List, cs: seq<Cell>, hs: seq<Header>, v0: Snap, v: Snap)
    requires Is(l, v) && v == v0.(texts := hs) && v0.Cells() == cs && |v0.texts| == |hs|
    ensures l.Linked() && Shape(l.slices) && l.slices == v0.slices && l.slices != [] && l.nalloc == v0.nalloc
    ensures l.Cells() == cs && Texts(l) == hs && v.Sound()
    ensures v0.Good() <==> l.Valid()
    ensures v0.Good() <==> v.Good()
    ensures v0.Roomy() <==> Room(l.slices, l.nalloc)
  {
  }

  lemma {:induction false} SoundSnap(l: List) returns (v: Snap)
    requires l.Linked() && Shape(l.slices)
    ensures l.slices != []
    ensures v == Snap(l.slices, Texts(l), l.nalloc) && Is(l, v) && v.Cells() == l.Cells()
    ensures v.Sound() && (v.Good() <==> l.Valid()) && (v.Roomy() <==> Room(l.slices, l.nalloc))
  {
    v := Snap(l.slices, Texts(l), l.nalloc);
  }

  lemma {:induction false} ValidSnap(l: List) returns (v: Snap)
    requires l.Valid()
    ensures l.Linked() && Shape(l.slices) && l.slices != []
    ensures v == Snap(l.slices, Texts(l), l.nalloc) && Is(l, v) && v.Cells() == l.Cells() && v.Good()
  {
    v := SoundSnap(l);
  }

  /** `hs` with `h` for what the cell `c` holds, if it is one of `cs`. */
  ghost function Put(cs: seq<Cell>, hs: seq<Header>, c: Cell, h: Header): (gs: seq<Header>)
    requires |cs| == |hs|
    ensures |gs| == |hs|
  {
    seq(|hs|, i requires 0 <= i < |hs| => if cs[i] == c then h else hs[i])
  }

  lemma {:induction false} PutAt(cs: seq<Cell>, hs: seq<Header>, n: nat, h: Header)
    requires Distinct(cs) && n < |cs| == |hs|
    ensures Put(cs, hs, cs[n], h) == hs[n := h]
  {
  }

  /** A cell is overwritten, of this list or not. */
  method Overwrite(l: List, a: array<Header>, m: nat, h: Header, ghost v: Snap) returns (ghost w: Snap)
    requires Is(l, v) && m < a.Length && |v.texts| == |v.Cells()|
    modifies a
    ensures w == v.(texts := Put(v.Cells(), v.texts, Cell(a, m), h)) && Is(l, w) && a[m] == h
  {
    hide Shape, CellsOf, Distinct, Texts;
    ghost var hs := Put(v.Cells(), v.texts, Cell(a, m), h);
    TextsHold(l);
    a[m] := h;
    HoldTexts(l, hs);
    w := v.(texts := hs);
  }
}
