/** Sequences of array slices, as the parts of a header list hold them, without the heap. */
module HeaderSlices {
  import opened Bytes

  /** `ngx_table_elt_t`; a header whose hash is zero is not sent. */
  datatype Header = Header(hash: nat, key: seq<byte>, value: seq<byte>)

  /** A place where a header is stored. */
  datatype Cell = Cell(a: array<Header>, i: nat)

  /** The cells `start` to `start + len` of an array. */
  datatype Slice = Slice(a: array<Header>, start: nat, len: nat) {
    ghost function Cells(): (cs: seq<Cell>)
      ensures |cs| == len
    {
      seq(len, (j: nat) => Cell(a, start + j))
    }
  }

  ghost function CellsOf(ss: seq<Slice>): seq<Cell> {
    if ss == [] then [] else ss[0].Cells() + CellsOf(ss[1..])
  }

  lemma {:induction false} CellsOfAppend(ss: seq<Slice>, ts: seq<Slice>)
    ensures CellsOf(ss + ts) == CellsOf(ss) + CellsOf(ts)
    decreases |ss|
  {
    if ss == [] {
      assert ss + ts == ts;
    } else {
      assert (ss + ts)[1..] == ss[1..] + ts;
      CellsOfAppend(ss[1..], ts);
    }
  }

  /** The slices before `k`, some slices, and the slices from `m` on. */
  lemma {:induction false} CellsOfThree(ss: seq<Slice>, k: nat, mid: seq<Slice>, m: nat)
    requires k <= m <= |ss|
    ensures CellsOf(ss[..k] + mid + ss[m..]) == CellsOf(ss[..k]) + CellsOf(mid) + CellsOf(ss[m..])
  {
    CellsOfAppend(ss[..k] + mid, ss[m..]);
    CellsOfAppend(ss[..k], mid);
  }

  lemma {:induction false} CellsOfOne(s: Slice)
    ensures CellsOf([s]) == s.Cells()
  {
    assert [s][1..] == [];
  }

  /** Two slices share no cell. */
  ghost predicate Apart(s: Slice, t: Slice) {
    s.a != t.a || s.start + s.len <= t.start || t.start + t.len <= s.start
  }

  /** Every slice lies in its array, no two share a cell, and only the first may be empty. */
  ghost predicate Shape(ss: seq<Slice>) {
    && ss != []
    && (forall i :: 0 <= i < |ss| ==> ss[i].start + ss[i].len <= ss[i].a.Length)
    && (forall i :: 1 <= i < |ss| ==> ss[i].len > 0)
    && (forall i, j :: 0 <= i < j < |ss| ==> Apart(ss[i], ss[j]))
  }

  /** A push may write the `nalloc` cells from the start of the last slice on: they exist, and
      those behind the slice hold no header of another. */
  ghost predicate Room(ss: seq<Slice>, nalloc: nat)
    requires ss != []
  {
    var s := ss[|ss| - 1];
    && 1 <= nalloc && s.len <= nalloc && s.start + nalloc <= s.a.Length
    && forall i :: 0 <= i < |ss| - 1 ==> Apart(ss[i], Slice(s.a, s.start, nalloc))
  }

  lemma {:induction false} RoomSize(ss: seq<Slice>, nalloc: nat)
    requires ss != [] && Room(ss, nalloc)
    ensures 1 <= nalloc && ss[|ss| - 1].len <= nalloc
  {
  }

  /** Only a list of one part may be without headers in its head. */
  ghost predicate Headed(ss: seq<Slice>)
    requires ss != []
  {
    |ss| > 1 ==> ss[0].len > 0
  }

  ghost predicate Good(ss: seq<Slice>, nalloc: nat) {
    Shape(ss) && Room(ss, nalloc) && Headed(ss)
  }

  /** The place in the flattened list of header `i` of part `k`. */
  ghost function Place(ss: seq<Slice>, k: nat, i: nat): nat
    requires k < |ss|
  {
    |CellsOf(ss[..k])| + i
  }

  ghost function Without<T>(s: seq<T>, n: nat): seq<T>
    requires n < |s|
  {
    s[..n] + s[n + 1..]
  }

  lemma {:induction false} WithoutAt<T>(s: seq<T>, n: nat)
    requires n < |s|
    ensures var r := Without(s, n);
            && |r| == |s| - 1
            && (forall j {:trigger r[j]} :: 0 <= j < n ==> r[j] == s[j])
            && (forall j {:trigger r[j]} :: n <= j < |r| ==> r[j] == s[j + 1])
  {
  }

  ghost function With<T>(s: seq<T>, n: nat, x: T): seq<T>
    requires n <= |s|
  {
    s[..n] + [x] + s[n..]
  }

  lemma {:induction false} WithAt<T>(s: seq<T>, n: nat, x: T)
    requires n <= |s|
    ensures var r := With(s, n, x);
            && |r| == |s| + 1 && r[n] == x
            && (forall j {:trigger r[j]} :: 0 <= j < n ==> r[j] == s[j])
            && (forall j {:trigger r[j]} :: n < j <= |s| ==> r[j] == s[j - 1])
  {
  }

  lemma {:induction false} WithDistinct<T>(s: seq<T>, n: nat, x: T)
    requires n <= |s| && x !in s && Distinct(s)
    ensures Distinct(With(s, n, x))
  {
    WithAt(s, n, x);
    hide With;
    var r := With(s, n, x);
    forall i, j | 0 <= i < j < |r| ensures r[i] != r[j] {
      if i != n && j != n {
        assert r[i] == s[if i < n then i else i - 1] && r[j] == s[if j < n then j else j - 1];
      }
    }
  }

  /** What becomes of part `k` when its header `i` is removed. */
  ghost function Remains(s: Slice, i: nat): seq<Slice>
    requires i < s.len
  {
    if i == 0 then [Slice(s.a, s.start + 1, s.len - 1)]
    else if i == s.len - 1 then [Slice(s.a, s.start, s.len - 1)]
    else [Slice(s.a, s.start, i), Slice(s.a, s.start + i + 1, s.len - i - 1)]
  }

  lemma {:induction false} RemainsCells(s: Slice, i: nat)
    requires i < s.len
    ensures CellsOf(Remains(s, i)) == Without(s.Cells(), i)
  {
    var r := Remains(s, i);
    if |r| == 1 {
      CellsOfOne(r[0]);
    } else {
      CellsOfAppend([r[0]], [r[1]]);
      assert [r[0]] + [r[1]] == r;
      CellsOfOne(r[0]);
      CellsOfOne(r[1]);
    }
  }

  /** The parts after the removal; a part other than the head is unlinked when it becomes empty. */
  ghost function Removed(ss: seq<Slice>, k: nat, i: nat): seq<Slice>
    requires k < |ss| && i < ss[k].len
  {
    ss[..k] + (if k > 0 && ss[k].len == 1 then [] else Remains(ss[k], i)) + ss[k + 1..]
  }

  lemma {:induction false} WithoutMiddle<T>(a: seq<T>, b: seq<T>, c: seq<T>, i: nat)
    requires i < |b|
    ensures Without(a + b + c, |a| + i) == a + Without(b, i) + c
  {
  }

  /** Removal refines deletion from the flattened list. */
  lemma {:induction false} RemovedCells(ss: seq<Slice>, k: nat, i: nat)
    requires k < |ss| && i < ss[k].len
    ensures Place(ss, k, i) < |CellsOf(ss)|
    ensures CellsOf(Removed(ss, k, i)) == Without(CellsOf(ss), Place(ss, k, i))
  {
    hide CellsOf, Remains, Without, Slice.Cells;
    var s := ss[k];
    assert ss == ss[..k] + [s] + ss[k + 1..];
    CellsOfThree(ss, k, [s], k + 1);
    CellsOfOne(s);
    RemainsCells(s, i);
    WithoutMiddle(CellsOf(ss[..k]), s.Cells(), CellsOf(ss[k + 1..]), i);
    if k > 0 && s.len == 1 {
      CellsOfThree(ss, k, [], k + 1);
      WithoutOnly(s.Cells());
      CellsOfNothing();
    } else {
      CellsOfThree(ss, k, Remains(s, i), k + 1);
    }
  }

  lemma {:induction false} WithoutOnly<T>(s: seq<T>)
    requires |s| == 1
    ensures Without(s, 0) == []
  {
  }

  lemma {:induction false} CellsOfNothing()
    ensures CellsOf([]) == []
  {
  }

  /** `t` lies within `s`. */
  ghost predicate Inside(t: Slice, s: Slice) {
    t.a == s.a && s.start <= t.start && t.start + t.len <= s.start + s.len
  }

  /** The part that slice `j` comes from when part `k` gives way to `n` parts. */
  function Origin(j: nat, k: nat, n: nat): int {
    if j < k then j else if j < k + n then k else j - n + 1
  }

  lemma {:induction false} RemovedInside(ss: seq<Slice>, k: nat, i: nat, j: nat)
    requires k < |ss| && i < ss[k].len && j < |Removed(ss, k, i)|
    ensures var n := |Removed(ss, k, i)| - |ss| + 1;
            && n >= 0 && 0 <= Origin(j, k, n) < |ss| && (j < k ==> Removed(ss, k, i)[j] == ss[j])
            && (j >= k + n ==> Removed(ss, k, i)[j] == ss[Origin(j, k, n)])
            && (k <= j < k + n ==> Removed(ss, k, i)[j] == Remains(ss[k], i)[j - k])
            && Inside(Removed(ss, k, i)[j], ss[Origin(j, k, n)])
  {
    var n := |Removed(ss, k, i)| - |ss| + 1;
    if k <= j < k + n {
      assert Removed(ss, k, i)[j] == Remains(ss[k], i)[j - k];
    }
  }

  lemma {:induction false} RemovedShape(ss: seq<Slice>, k: nat, i: nat)
    requires Shape(ss) && k < |ss| && i < ss[k].len
    ensures Shape(Removed(ss, k, i))
  {
    var rs := Removed(ss, k, i);
    var n := |rs| - |ss| + 1;
    forall j | 0 <= j < |rs|
      ensures rs[j].start + rs[j].len <= rs[j].a.Length && (1 <= j ==> rs[j].len > 0)
    {
      RemovedInside(ss, k, i, j);
    }
    forall j, m | 0 <= j < m < |rs| ensures Apart(rs[j], rs[m]) {
      RemovedInside(ss, k, i, j);
      RemovedInside(ss, k, i, m);
      hide Removed;
      if Origin(j, k, n) != Origin(m, k, n) {
        assert Apart(ss[Origin(j, k, n)], ss[Origin(m, k, n)]);
      }
    }
  }

  /** The capacity that is left: removal from the last part, or unlinking it, uses it up. */
  ghost function Granted(ss: seq<Slice>, k: nat, i: nat, nalloc: nat): nat
    requires Shape(ss) && k < |ss| && i < ss[k].len
  {
    var rs := Removed(ss, k, i);
    if k == |ss| - 1 && rs != [] then rs[|rs| - 1].len else nalloc
  }

  /** The parts after the first header of part `k` is gone. */
  lemma {:induction false} RemovedFirst(ss: seq<Slice>, k: nat, nalloc: nat)
    requires Shape(ss) && k < |ss| && ss[k].len > 0
    ensures var ts := ss[k := Slice(ss[k].a, ss[k].start + 1, ss[k].len - 1)];
            Removed(ss, k, 0) == if k > 0 && ss[k].len == 1 then Without(ts, k) else ts
    ensures Granted(ss, k, 0, nalloc) == if k < |ss| - 1 then nalloc
                                         else if k > 0 && ss[k].len == 1 then ss[k - 1].len
                                         else ss[k].len - 1
  {
    hide Shape;
  }

  /** The parts after the last header of part `k`, one of several, is gone. */
  lemma {:induction false} RemovedEnd(ss: seq<Slice>, k: nat, nalloc: nat)
    requires Shape(ss) && k < |ss| && ss[k].len > 1
    ensures var s := ss[k];
            && Removed(ss, k, s.len - 1) == ss[k := Slice(s.a, s.start, s.len - 1)]
            && Granted(ss, k, s.len - 1, nalloc) == if k == |ss| - 1 then s.len - 1 else nalloc
  {
    hide Shape;
  }

  /** The parts after a header of part `k` that is neither the first nor the last is gone. */
  lemma {:induction false} RemovedMiddle(ss: seq<Slice>, k: nat, i: nat, nalloc: nat)
    requires Shape(ss) && k < |ss| && 0 < i < ss[k].len - 1
    ensures var s := ss[k];
            && Removed(ss, k, i) == With(ss[k := Slice(s.a, s.start, i)], k + 1,
                                         Slice(s.a, s.start + i + 1, s.len - i - 1))
            && Granted(ss, k, i, nalloc) == if k == |ss| - 1 then s.len - i - 1 else nalloc
  {
    hide Shape;
  }

  /** The removal that fails: it has emptied the head and left `nalloc` as it was. */
  ghost predicate Fails(ss: seq<Slice>, k: nat) {
    k == 0 && ss != [] && ss[0].len == 1
  }

  ghost function CapacityLeft(ss: seq<Slice>, k: nat, i: nat, nalloc: nat): nat
    requires Shape(ss) && k < |ss| && i < ss[k].len
  {
    if Fails(ss, k) then nalloc else Granted(ss, k, i, nalloc)
  }

  /** Unlinking the only part behind an empty head leaves no capacity at all. */
  ghost predicate Bares(ss: seq<Slice>, k: nat) {
    |ss| == 2 && k == 1 && ss[0].len == 0 && ss[1].len == 1
  }

  lemma {:induction false} RoomStays(ss: seq<Slice>, k: nat, i: nat, nalloc: nat)
    requires Shape(ss) && Room(ss, nalloc) && k < |ss| && i < ss[k].len
    requires if Fails(ss, k) then |ss| > 1 else !Bares(ss, k)
    ensures Removed(ss, k, i) != [] && Room(Removed(ss, k, i), CapacityLeft(ss, k, i, nalloc))
  {
    var rs, m := Removed(ss, k, i), CapacityLeft(ss, k, i, nalloc);
    var n := |rs| - |ss| + 1;
    RemovedShape(ss, k, i);
    var l := rs[|rs| - 1];
    RemovedInside(ss, k, i, |rs| - 1);
    forall j | 0 <= j < |rs| - 1 ensures Apart(rs[j], Slice(l.a, l.start, m)) {
      RemovedInside(ss, k, i, j);
      assert Apart(rs[j], l);
    }
  }

  lemma {:induction false} RemovedGood(ss: seq<Slice>, k: nat, i: nat, nalloc: nat)
    requires Good(ss, nalloc) && k < |ss| && i < ss[k].len && !Fails(ss, k)
    ensures Good(Removed(ss, k, i), Granted(ss, k, i, nalloc))
  {
    RemovedShape(ss, k, i);
    RoomStays(ss, k, i, nalloc);
    if k > 0 {
      assert Removed(ss, k, i)[0] == ss[0];
    }
  }

  /** What one removal does to the list as a whole. */
  lemma {:induction false} RemovedSound(ss: seq<Slice>, k: nat, i: nat, nalloc: nat)
    requires Shape(ss) && k < |ss| && i < ss[k].len
    ensures Place(ss, k, i) < |CellsOf(ss)|
    ensures CellsOf(Removed(ss, k, i)) == Without(CellsOf(ss), Place(ss, k, i))
    ensures Shape(Removed(ss, k, i))
    ensures Good(ss, nalloc) && !(k == 0 && ss[k].len == 1) ==> Good(Removed(ss, k, i), Granted(ss, k, i, nalloc))
  {
    RemovedCells(ss, k, i);
    RemovedShape(ss, k, i);
    if Good(ss, nalloc) && !(k == 0 && ss[k].len == 1) {
      RemovedGood(ss, k, i, nalloc);
    }
  }

  lemma {:induction false} CellsIn(ss: seq<Slice>, c: Cell)
    ensures c in CellsOf(ss) <==> exists k :: 0 <= k < |ss| && c in ss[k].Cells()
  {
    if ss != [] {
      CellsIn(ss[1..], c);
      forall k | 0 <= k < |ss| && c in ss[k].Cells() ensures c in CellsOf(ss) {
        if k > 0 {
          assert ss[1..][k - 1] == ss[k];
        }
      }
      if c in CellsOf(ss) && c !in ss[0].Cells() {
        var k :| 0 <= k < |ss[1..]| && c in ss[1..][k].Cells();
        assert c in ss[k + 1].Cells();
      }
    }
  }

  /** No header is stored in two places of the list. */
  lemma {:induction false} CellsDistinct(ss: seq<Slice>)
    requires forall i, j :: 0 <= i < j < |ss| ==> Apart(ss[i], ss[j])
    ensures Distinct(CellsOf(ss))
  {
    if ss != [] {
      CellsDistinct(ss[1..]);
      var xs, ys := ss[0].Cells(), CellsOf(ss[1..]);
      assert forall k :: 0 <= k < |ss[1..]| ==> Apart(ss[0], ss[1..][k]);
      forall c | c in xs ensures c !in ys {
        CellsIn(ss[1..], c);
      }
      forall i, j | 0 <= i < j < |CellsOf(ss)| ensures CellsOf(ss)[i] != CellsOf(ss)[j] {
        if j >= |xs| && i < |xs| {
          assert xs[i] in xs && ys[j - |xs|] in ys;
        }
      }
    }
  }

  /** The cell behind the last slice is free. */
  lemma {:induction false} FreeCell(ss: seq<Slice>, nalloc: nat)
    requires ss != [] && Room(ss, nalloc) && ss[|ss| - 1].len < nalloc
    ensures var s := ss[|ss| - 1]; Cell(s.a, s.start + s.len) !in CellsOf(ss)
  {
    var s := ss[|ss| - 1];
    CellsIn(ss, Cell(s.a, s.start + s.len));
  }

  /** The last slice takes that cell in. */
  ghost function Grown(ss: seq<Slice>): seq<Slice>
    requires ss != []
  {
    var s := ss[|ss| - 1];
    ss[|ss| - 1 := Slice(s.a, s.start, s.len + 1)]
  }

  lemma {:induction false} GrownIs(ss: seq<Slice>)
    requires ss != []
    ensures var s := ss[|ss| - 1]; Grown(ss) == ss[|ss| - 1 := Slice(s.a, s.start, s.len + 1)]
  {
  }

  lemma {:induction false} GrownGood(ss: seq<Slice>, nalloc: nat)
    requires Shape(ss) && Room(ss, nalloc) && ss[|ss| - 1].len < nalloc
    ensures Shape(Grown(ss)) && Room(Grown(ss), nalloc) && (Headed(ss) ==> Headed(Grown(ss)))
  {
    var n, gs := |ss| - 1, Grown(ss);
    forall j | 0 <= j < n ensures Apart(gs[j], gs[n]) && gs[j] == ss[j] {
      assert Apart(ss[j], Slice(ss[n].a, ss[n].start, nalloc));
    }
  }

  lemma {:induction false} GrownCells(ss: seq<Slice>)
    requires ss != []
    ensures var s := ss[|ss| - 1]; CellsOf(Grown(ss)) == CellsOf(ss) + [Cell(s.a, s.start + s.len)]
  {
    var n := |ss| - 1;
    var s := ss[n];
    var g := Slice(s.a, s.start, s.len + 1);
    assert ss == ss[..n] + [s] && Grown(ss) == ss[..n] + [g];
    CellsOfAppend(ss[..n], [s]);
    CellsOfAppend(ss[..n], [g]);
    CellsOfOne(s);
    CellsOfOne(g);
    assert g.Cells() == s.Cells() + [Cell(s.a, s.start + s.len)];
  }

  /** A new last slice takes the first cell of an array of its own. */
  lemma {:induction false} AppendedGood(ss: seq<Slice>, nalloc: nat, a: array<Header>)
    requires Shape(ss) && nalloc > 0 && a.Length == nalloc
    requires ss[|ss| - 1].len > 0 && forall j :: 0 <= j < |ss| ==> ss[j].a != a
    ensures var gs := ss + [Slice(a, 0, 1)];
            && Shape(gs) && Room(gs, nalloc) && (Headed(ss) ==> Headed(gs))
            && CellsOf(gs) == CellsOf(ss) + [Cell(a, 0)]
    ensures Cell(a, 0) !in CellsOf(ss)
  {
    var g := Slice(a, 0, 1);
    CellsOfAppend(ss, [g]);
    CellsOfOne(g);
    assert g.Cells() == [Cell(a, 0)];
    CellsIn(ss, Cell(a, 0));
  }

  /** The next push is safe: the cell that it takes exists and holds no header. A full last part
      makes it take the first of `nalloc` new cells. */
  ghost predicate Fits(ss: seq<Slice>, nalloc: nat)
    requires ss != []
  {
    var s := ss[|ss| - 1];
    if s.len == nalloc then nalloc > 0 else s.start + s.len < s.a.Length && Cell(s.a, s.start + s.len) !in CellsOf(ss)
  }

  lemma {:induction false} RoomFits(ss: seq<Slice>, nalloc: nat)
    requires ss != [] && Room(ss, nalloc)
    ensures Fits(ss, nalloc)
  {
    if ss[|ss| - 1].len < nalloc {
      FreeCell(ss, nalloc);
    }
  }

  /** The last slice with `n` headers. */
  ghost function Filled(ss: seq<Slice>, n: nat): seq<Slice>
    requires ss != []
  {
    var s := ss[|ss| - 1];
    ss[|ss| - 1 := Slice(s.a, s.start, n)]
  }

  lemma {:induction false} NoRoomFor(ss: seq<Slice>, nalloc: nat, j: nat)
    requires Shape(ss) && Headed(ss) && j < |ss| - 1 && ss[|ss| - 1].len <= nalloc
    requires var s := ss[|ss| - 1]; !Apart(ss[j], Slice(s.a, s.start, nalloc))
    ensures exists n :: ss[|ss| - 1].len <= n < nalloc && !Fits(Filled(ss, n), nalloc)
  {
    var s := ss[|ss| - 1];
    assert Apart(ss[j], s);
    var n := ss[j].start - s.start;
    var fs := Filled(ss, n);
    assert fs[j] == ss[j] && ss[j].Cells()[0] == Cell(s.a, s.start + n);
    assert ss[j].Cells()[0] in fs[j].Cells();
    CellsIn(fs, Cell(s.a, s.start + n));
    assert !Fits(fs, nalloc);
  }

  /** There is room exactly if the next push and all that follow it into the last part are safe. */
  lemma {:induction false} RoomIff(ss: seq<Slice>, nalloc: nat)
    requires Shape(ss) && Headed(ss) && nalloc > 0 && ss[|ss| - 1].len <= nalloc
    ensures Room(ss, nalloc) <==> forall n :: ss[|ss| - 1].len <= n < nalloc ==> Fits(Filled(ss, n), nalloc)
  {
    var s := ss[|ss| - 1];
    if Room(ss, nalloc) {
      forall n | s.len <= n < nalloc ensures Fits(Filled(ss, n), nalloc) {
        assert Room(Filled(ss, n), nalloc);
        RoomFits(Filled(ss, n), nalloc);
      }
    } else if j :| 0 <= j < |ss| - 1 && !Apart(ss[j], Slice(s.a, s.start, nalloc)) {
      NoRoomFor(ss, nalloc, j);
    } else {
      assert s.start + nalloc > s.a.Length;
      assert s.len < nalloc;
      assert !Fits(Filled(ss, nalloc - 1), nalloc);
    }
  }

  /** When pushes are safe after a removal, failed ones included. */
  lemma {:induction false} RoomAfterRemoval(ss: seq<Slice>, k: nat, i: nat, nalloc: nat)
    requires Shape(ss) && Room(ss, nalloc) && k < |ss| && i < ss[k].len
    ensures var rs, n := Removed(ss, k, i), CapacityLeft(ss, k, i, nalloc);
            && rs != []
            && (Room(rs, n) <==> if Fails(ss, k) then |ss| > 1 || ss[0].start + nalloc < ss[0].a.Length
                                 else !Bares(ss, k))
            && (Fits(rs, n) <==> if Fails(ss, k) then |ss| > 1 || ss[0].start + 1 < ss[0].a.Length
                                 else !Bares(ss, k))
  {
    var rs, n := Removed(ss, k, i), CapacityLeft(ss, k, i, nalloc);
    RemovedShape(ss, k, i);
    if Fails(ss, k) && |ss| == 1 {
      assert rs == [Slice(ss[0].a, ss[0].start + 1, 0)];
      CellsOfOne(rs[0]);
    } else if !Bares(ss, k) {
      RoomStays(ss, k, i, nalloc);
      RoomFits(rs, n);
    }
  }
}
