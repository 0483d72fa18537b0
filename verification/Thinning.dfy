/** The text a minifier starts from, comments gone, and what it may still leave out of it. */
module Thinning {
  import opened Bytes

  /** A byte of the uncommented text; the minifier may leave out the `soft` ones. */
  datatype Item = Item(b: byte, soft: bool)

  /** `out` is `items` with nothing but soft items left out. */
  ghost predicate Thins(items: seq<Item>, out: seq<byte>)
    decreases |items|
  {
    if items == [] then out == []
    else
      || (out != [] && out[0] == items[0].b && Thins(items[1..], out[1..]))
      || (items[0].soft && Thins(items[1..], out))
  }

  lemma {:induction false} ThinsAppend(i: seq<Item>, o: seq<byte>, i': seq<Item>, o': seq<byte>)
    requires Thins(i, o) && Thins(i', o')
    ensures Thins(i + i', o + o')
    decreases |i|
  {
    if i == [] {
      assert i + i' == i' && o + o' == o';
    } else {
      assert (i + i')[1..] == i[1..] + i';
      if o != [] && o[0] == i[0].b && Thins(i[1..], o[1..]) {
        assert (o + o')[1..] == o[1..] + o';
        ThinsAppend(i[1..], o[1..], i', o');
      } else {
        ThinsAppend(i[1..], o, i', o');
      }
    }
  }

  /** `a` without its white bytes. */
  function Solid(a: seq<byte>): seq<byte> {
    if a == [] then [] else (if White(a[0]) then [] else [a[0]]) + Solid(a[1..])
  }

  lemma {:induction false} SolidAppend(a: seq<byte>, b: seq<byte>)
    ensures Solid(a + b) == Solid(a) + Solid(b)
    decreases |a|
  {
    if a == [] {
      assert a + b == b;
    } else {
      assert (a + b)[1..] == a[1..] + b;
      SolidAppend(a[1..], b);
    }
  }

  function Bare(items: seq<Item>): seq<byte> {
    if items == [] then [] else [items[0].b] + Bare(items[1..])
  }

  ghost predicate SoftIsWhite(items: seq<Item>) {
    forall i :: 0 <= i < |items| && items[i].soft ==> White(items[i].b)
  }

  /** Thinning loses no byte that is not white. */
  lemma {:induction false} ThinsKeepsSolid(items: seq<Item>, out: seq<byte>)
    requires Thins(items, out) && SoftIsWhite(items)
    ensures Solid(out) == Solid(Bare(items))
    decreases |items|
  {
    if items != [] {
      assert Bare(items)[0] == items[0].b && Bare(items)[1..] == Bare(items[1..]);
      if out != [] && out[0] == items[0].b && Thins(items[1..], out[1..]) {
        ThinsKeepsSolid(items[1..], out[1..]);
      } else {
        ThinsKeepsSolid(items[1..], out);
      }
    }
  }
}
