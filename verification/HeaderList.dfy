/** The header list of nginx, a linked list of array slices, and the removal that headers_more
    adds to it. */
module HeaderList {
  import opened Bytes
  import opened HeaderSlices

  /** `ngx_list_part_t`: the slice of `nelts` cells from `start` on. */
  class Part {
    var elts: array<Header>
    var start: nat
    var nelts: nat
    var next: Part?

    constructor (elts: array<Header>, start: nat, nelts: nat, next: Part?)
      ensures this.elts == elts && this.start == start && this.nelts == nelts && this.next == next
    {
      this.elts, this.start, this.nelts, this.next := elts, start, nelts, next;
    }
  }

  /** The chain runs on through a part behind part `k`. */
  lemma {:induction false} ChainWith(ps: seq<Part>, k: nat, other: Part)
    requires k < |ps| && ps[k].next == other
    requires other.next == if k < |ps| - 1 then ps[k + 1] else null
    requires forall j :: 0 <= j < |ps| - 1 && j != k ==> ps[j].next == ps[j + 1]
    ensures var rs := With(ps, k + 1, other);
            |rs| == |ps| + 1 && forall j :: 0 <= j < |ps| ==> rs[j].next == rs[j + 1]
  {
    WithAt(ps, k + 1, other);
    hide With;
    var rs := With(ps, k + 1, other);
    forall j | 0 <= j < |ps| ensures rs[j].next == rs[j + 1] {
      if j != k + 1 {
        assert rs[j] == ps[if j <= k then j else j - 1];
      }
    }
  }

  lemma {:induction false} BackedWith(ps: seq<Part>, ss: seq<Slice>, k: nat, other: Part)
    requires k < |ps| == |ss|
    requires forall j :: 0 <= j < |ps| ==> ss[j] == Slice(ps[j].elts, ps[j].start, ps[j].nelts)
    ensures var rs, ts := With(ps, k + 1, other), With(ss, k + 1, Slice(other.elts, other.start, other.nelts));
            |rs| == |ts| && forall j :: 0 <= j < |rs| ==> ts[j] == Slice(rs[j].elts, rs[j].start, rs[j].nelts)
  {
    WithAt(ps, k + 1, other);
    WithAt(ss, k + 1, Slice(other.elts, other.start, other.nelts));
  }

  /** `ngx_list_t`. */
  class List {
    const part: Part
    var last: Part
    var nalloc: nat
    ghost var parts: seq<Part>
    ghost var slices: seq<Slice>
    ghost var repr: set<object>

    /** `parts` is the chain from the head to `last`, without a repetition; `slices` is what the
        parts hold; `repr` has the parts and the arrays. */
    ghost predicate Linked()
      reads this, repr
    {
      Inside() && Chain() && Backed()
    }

    ghost predicate Inside()
      reads this
    {
      forall i :: 0 <= i < |parts| ==> parts[i] in repr
    }

    ghost predicate Chain()
      requires Inside()
      reads this, repr
    {
      && parts != [] && parts[0] == part && parts[|parts| - 1] == last && last.next == null
      && (forall i :: 0 <= i < |parts| - 1 ==> parts[i].next == parts[i + 1])
      && Distinct(parts)
    }

    ghost predicate Backed()
      requires Inside()
      reads this, repr
    {
      && |slices| == |parts|
      && (forall i :: 0 <= i < |parts| ==>
            slices[i] == Slice(parts[i].elts, parts[i].start, parts[i].nelts) && parts[i].elts in repr)
    }

    ghost predicate Valid()
      reads this, repr
    {
      Linked() && Good(slices, nalloc)
    }

    lemma {:induction false} Counts()
      requires Linked()
      ensures |slices| == |parts| > 0 && parts[|parts| - 1] == last
      ensures forall j :: 0 <= j < |slices| ==> slices[j].a in repr
    {
    }

    lemma {:induction false} Facts(k: nat)
      requires Linked() && k < |parts|
      ensures |slices| == |parts| && parts[0] == part && parts[|parts| - 1] == last
      ensures slices[k] == Slice(parts[k].elts, parts[k].start, parts[k].nelts)
      ensures slices[|parts| - 1] == Slice(last.elts, last.start, last.nelts)
      ensures parts[k].elts in repr && parts[k] in repr
      ensures parts[k] == last <==> k == |parts| - 1
      ensures parts[k].next == if k < |parts| - 1 then parts[k + 1] else null
    {
    }

    /** The flattened list. */
    ghost function Cells(): seq<Cell>
      reads this
    {
      CellsOf(slices)
    }

    /** `ngx_list_init`: one part with room for `n` headers. */
    constructor (n: nat)
      requires n > 0
      ensures Valid() && Cells() == [] && fresh(repr)
    {
      var elts := new Header[n](_ => Header(0, [], []));
      var p := new Part(elts, 0, 0, null);
      part, last, nalloc, parts, slices, repr := p, p, n, [p], [Slice(elts, 0, 0)], {p, elts};
      new;
      CellsOfOne(slices[0]);
    }

    /** The walk from the head to the part before `cur`; there is none before the head. */
    method Previous(cur: Part, ghost k: nat) returns (p: Part?)
      requires Linked() && k < |parts| && parts[k] == cur
      ensures k == 0 ==> p == null
      ensures k > 0 ==> p == parts[k - 1]
    {
      var q := part;
      ghost var m := 0;
      while q.next != cur
        invariant 0 <= m < |parts| && q == parts[m] && (k > 0 ==> m < k)
        decreases |parts| - m
      {
        assert m < |parts| - 1 ==> q.next == parts[m + 1];
        if q.next == null {
          return null;
        }
        q := q.next;
        m := m + 1;
      }
      assert q.next == parts[m + 1];
      assert k > 0 && m + 1 == k;
      return q;
    }

    /** The part `cur` covers other cells. */
    method Resize(cur: Part, start: nat, nelts: nat, ghost k: nat)
      requires Linked() && k < |parts| && parts[k] == cur
      modifies cur`start, cur`nelts, this`slices
      ensures Linked() && cur.start == start && cur.nelts == nelts
      ensures slices == old(slices)[k := Slice(cur.elts, start, nelts)]
    {
      cur.start := start;
      cur.nelts := nelts;
      slices := slices[k := Slice(cur.elts, start, nelts)];
    }

    method Grant(n: nat)
      requires Linked()
      modifies this`nalloc
      ensures Linked() && nalloc == n
    {
      nalloc := n;
    }

    /** The last part, now empty, leaves the list. */
    method DropLast(cur: Part, ghost k: nat) returns (ok: bool)
      requires Linked() && cur == last && k == |parts| - 1
      modifies this, parts
      ensures ok == (k > 0)
      ensures Linked()
      ensures k == 0 ==> slices == old(slices) && nalloc == old(nalloc)
      ensures k > 0 ==> slices == Without(old(slices), k) && nalloc == old(slices)[k - 1].len
      ensures repr == old(repr)
    {
      var p := Previous(cur, k);
      if p == null {
        return false;
      }
      last := p;
      p.next := null;
      nalloc := p.nelts;
      parts := parts[..k];
      slices := slices[..k];
      return true;
    }

    /** A part before the last, now empty, is unlinked. */
    method Unlink(cur: Part, ghost k: nat) returns (ok: bool)
      requires Linked() && k < |parts| - 1 && parts[k] == cur
      modifies parts, this`parts, this`slices
      ensures ok == (k > 0)
      ensures Linked()
      ensures slices == if k == 0 then old(slices) else Without(old(slices), k)
    {
      hide Without;
      Facts(k);
      var p := Previous(cur, k);
      if p == null {
        return false;
      }
      ghost var ps := parts;
      WithoutAt(parts, k);
      WithoutAt(slices, k);
      p.next := cur.next;
      parts := Without(parts, k);
      slices := Without(slices, k);
      assert Chain() by {
        hide Backed;
        forall j | 0 <= j < |parts| - 1 ensures parts[j].next == parts[j + 1] {
          assert parts[j] == if j < k then ps[j] else ps[j + 1];
        }
      }
      assert Backed() by {
        hide Chain;
      }
      return true;
    }

    /** `i == 0`: the slice begins one cell later; a part that becomes empty is unlinked. */
    method RemoveFirst(cur: Part, ghost k: nat) returns (ok: bool)
      requires Linked() && Shape(slices) && k < |parts| && parts[k] == cur && cur.nelts > 0
      modifies this, parts
      ensures Linked() && slices == Removed(old(slices), k, 0)
      ensures ok == !(k == 0 && old(cur.nelts) == 1)
      ensures nalloc == if ok then Granted(old(slices), k, 0, old(nalloc)) else old(nalloc)
      ensures repr == old(repr)
    {
      hide Shape, Removed, Granted, Linked, Without;
      Facts(k);
      RemovedFirst(slices, k, nalloc);
      Resize(cur, cur.start + 1, cur.nelts - 1, k);
      ok := true;
      if cur == last {
        if cur.nelts == 0 {
          ok := DropLast(cur, k);
        } else {
          Grant(cur.nelts);
        }
      } else if cur.nelts == 0 {
        ok := Unlink(cur, k);
      }
    }

    /** `i == nelts - 1`, behind at least one other header: the slice ends one cell earlier. */
    method RemoveEnd(cur: Part, ghost k: nat)
      requires Linked() && Shape(slices) && k < |parts| && parts[k] == cur && cur.nelts > 1
      modifies this, cur
      ensures Linked() && slices == Removed(old(slices), k, old(cur.nelts) - 1)
      ensures nalloc == Granted(old(slices), k, old(cur.nelts) - 1, old(nalloc))
      ensures parts == old(parts) && repr == old(repr)
    {
      hide Shape, Removed, Granted, Linked;
      Facts(k);
      RemovedEnd(slices, k, nalloc);
      Resize(cur, cur.start, cur.nelts - 1, k);
      if cur == last {
        Grant(cur.nelts);
      }
    }

    /** A part that is not in the list comes behind `cur`. */
    method Insert(cur: Part, other: Part, ghost k: nat)
      requires Linked() && k < |parts| && parts[k] == cur && other !in parts && other.next == cur.next
      requires other.elts in repr
      modifies cur, this`last, this`nalloc, this`parts, this`slices, this`repr
      ensures Linked() && repr == old(repr) + {other}
      ensures parts == With(old(parts), k + 1, other)
      ensures slices == With(old(slices), k + 1, Slice(other.elts, other.start, other.nelts))
      ensures nalloc == if k == |old(parts)| - 1 then other.nelts else old(nalloc)
    {
      hide With;
      Facts(k);
      WithDistinct(parts, k + 1, other);
      WithAt(parts, k + 1, other);
      WithAt(slices, k + 1, Slice(other.elts, other.start, other.nelts));
      ghost var ps, ss := parts, slices;
      cur.next := other;
      if cur == last {
        last := other;
        nalloc := other.nelts;
      }
      parts := With(parts, k + 1, other);
      slices := With(slices, k + 1, Slice(other.elts, other.start, other.nelts));
      repr := repr + {other};
      ChainWith(ps, k, other);
      BackedWith(ps, ss, k, other);
    }

    /** A header between two others: the slice splits into two that share the array. */
    method Split(cur: Part, i: nat, ghost k: nat) returns (other: Part)
      requires Linked() && Shape(slices) && k < |parts| && parts[k] == cur && 0 < i < cur.nelts - 1
      modifies this, cur
      ensures Linked() && slices == Removed(old(slices), k, i)
      ensures nalloc == Granted(old(slices), k, i, old(nalloc))
      ensures fresh(other) && parts == With(old(parts), k + 1, other)
      ensures repr == old(repr) + {other}
    {
      hide *;
      Facts(k);
      ghost var ps := parts;
      var a, start, len := cur.elts, cur.start, cur.nelts;
      RemovedMiddle(slices, k, i, nalloc);
      other := new Part(a, start + i + 1, len - i - 1, cur.next);
      assert other !in ps;
      Resize(cur, start, i, k);
      Insert(cur, other, k);
    }

    /** `ngx_http_headers_more_rm_header_helper`: header `i` of the part `cur` leaves the list.
        It fails, after having changed the part, when it empties the head. */
    method RemoveHelper(cur: Part, i: nat, ghost k: nat) returns (ok: bool)
      requires Linked() && Shape(slices) && k < |parts| && parts[k] == cur && i < cur.nelts
      modifies this, parts
      ensures Linked() && slices == Removed(old(slices), k, i)
      ensures Place(old(slices), k, i) < |old(Cells())|
      ensures Cells() == Without(old(Cells()), Place(old(slices), k, i))
      ensures Shape(slices)
      ensures ok == !(k == 0 && old(cur.nelts) == 1)
      ensures nalloc == if ok then Granted(old(slices), k, i, old(nalloc)) else old(nalloc)
      ensures ok && old(Valid()) ==> Valid()
      ensures old(repr) <= repr && fresh(repr - old(repr))
    {
      hide Removed, Granted, Good, Without, Place, CellsOf, Linked, Shape;
      ghost var ss := slices;
      Facts(k);
      RemovedSound(ss, k, i, nalloc);
      ok := true;
      if i == 0 {
        ok := RemoveFirst(cur, k);
      } else if i == cur.nelts - 1 {
        RemoveEnd(cur, k);
      } else {
        var _ := Split(cur, i, k);
      }
      assert slices == Removed(ss, k, i);
    }

    /** A new part, of one header, at the end of the list. */
    method Extend() returns (elts: array<Header>)
      requires Linked()
      modifies this, last
      ensures Linked() && fresh(elts) && elts.Length == nalloc == old(nalloc)
      ensures slices == old(slices) + [Slice(elts, 0, 1)]
      ensures |parts| == |old(parts)| + 1 && parts == old(parts) + [last] && fresh(last)
      ensures repr == old(repr) + {last, elts}
    {
      elts := new Header[nalloc](_ => Header(0, [], []));
      var p := new Part(elts, 0, 1, null);
      last.next := p;
      last := p;
      parts := parts + [p];
      slices := slices + [Slice(elts, 0, 1)];
      repr := repr + {p, elts};
      assert Chain() by {
        hide Backed;
      }
      assert Backed() by {
        hide Chain;
      }
    }

    /** `ngx_list_push`: the cell for a further header, in the last part or in a new one. */
    method Push() returns (elts: array<Header>, i: nat)
      requires Linked() && Shape(slices) && Room(slices, nalloc)
      modifies this, last
      ensures Linked() && Shape(slices) && Room(slices, nalloc)
      ensures old(Valid()) ==> Valid()
      ensures i < elts.Length && Cells() == old(Cells()) + [Cell(elts, i)]
      ensures Cell(elts, i) !in old(Cells())
      ensures slices == if old(last.nelts) != nalloc then Grown(old(slices)) else old(slices) + [Slice(elts, 0, 1)]
      ensures if old(last.nelts) == nalloc then fresh(elts) else elts == old(last.elts)
      ensures nalloc == old(nalloc)
      ensures elts in repr && old(repr) <= repr && fresh(repr - old(repr))
    {
      hide Shape, Room, Headed, CellsOf, Linked, Grown;
      ghost var ss := slices;
      Counts();
      Facts(|parts| - 1);
      RoomSize(ss, nalloc);
      if last.nelts == nalloc {
        elts := Extend();
        i := 0;
        AppendedGood(ss, nalloc, elts);
        assert last in parts;
      } else {
        FreeCell(ss, nalloc);
        GrownIs(ss);
        GrownGood(ss, nalloc);
        GrownCells(ss);
        elts, i := last.elts, last.start + last.nelts;
        Resize(last, last.start, last.nelts + 1, |parts| - 1);
      }
    }
  }
}
