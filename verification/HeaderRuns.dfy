/** Runs of a header list: any interleaving of the removals that succeed and of pushes. */
module HeaderRuns {
  import opened Bytes
  import opened HeaderSlices

  /** `Reuse` pushes into the last part, `Extend` into a new part with the array `a`. */
  datatype Step = Remove(k: nat, i: nat) | Reuse | Extend(a: array<Header>)

  /** The part slices of a list and its `nalloc`. */
  datatype Shelf = Shelf(slices: seq<Slice>, nalloc: nat) {
    ghost predicate Sound() {
      Good(slices, nalloc)
    }

    ghost function Cells(): seq<Cell> {
      CellsOf(slices)
    }

    ghost predicate Takes(st: Step)
      requires Sound()
    {
      match st
      case Remove(k, i) => k < |slices| && i < slices[k].len && !(k == 0 && slices[0].len == 1)
      case Reuse => slices[|slices| - 1].len != nalloc
      case Extend(a) =>
        slices[|slices| - 1].len == nalloc && a.Length == nalloc && forall j :: 0 <= j < |slices| ==> slices[j].a != a
    }

    ghost function Then(st: Step): Shelf
      requires Sound() && Takes(st)
    {
      match st
      case Remove(k, i) => Shelf(Removed(slices, k, i), Granted(slices, k, i, nalloc))
      case Reuse => Shelf(Grown(slices), nalloc)
      case Extend(a) => Shelf(slices + [Slice(a, 0, 1)], nalloc)
    }

    /** A step keeps the list sound; a removal deletes from the flattened list, and a push appends
        a cell that no live header is in. */
    lemma {:induction false} StepSound(st: Step)
      requires Sound() && Takes(st)
      ensures Then(st).Sound()
      ensures st.Remove? ==>
        && Place(slices, st.k, st.i) < |Cells()|
        && Then(st).Cells() == Without(Cells(), Place(slices, st.k, st.i))
      ensures !st.Remove? ==> exists c :: c !in Cells() && Then(st).Cells() == Cells() + [c]
    {
      var s := slices[|slices| - 1];
      match st
      case Remove(k, i) =>
        RemovedSound(slices, k, i, nalloc);
      case Reuse =>
        FreeCell(slices, nalloc);
        GrownGood(slices, nalloc);
        GrownCells(slices);
        var c := Cell(s.a, s.start + s.len);
        assert c !in Cells() && Then(st).Cells() == Cells() + [c];
      case Extend(a) =>
        AppendedGood(slices, nalloc, a);
        var c := Cell(a, 0);
        assert c !in Cells() && Then(st).Cells() == Cells() + [c];
    }

    ghost predicate TakesAll(steps: seq<Step>)
      requires Sound()
      decreases |steps|
    {
      steps == [] || (Takes(steps[0]) && (StepSound(steps[0]); Then(steps[0]).TakesAll(steps[1..])))
    }

    ghost function After(steps: seq<Step>): Shelf
      requires Sound() && TakesAll(steps)
      decreases |steps|
    {
      if steps == [] then this else
        StepSound(steps[0]);
        Then(steps[0]).After(steps[1..])
    }

    /** The cells that the removals of a run take out of the list. */
    ghost function Gone(steps: seq<Step>): set<Cell>
      requires Sound() && TakesAll(steps)
      decreases |steps|
    {
      if steps == [] then {} else
        StepSound(steps[0]);
        var rest := Then(steps[0]).Gone(steps[1..]);
        if steps[0].Remove? then rest + {Cells()[Place(slices, steps[0].k, steps[0].i)]} else rest
    }
  }

  ghost function Survivors(cs: seq<Cell>, gone: set<Cell>): seq<Cell> {
    if cs == [] then [] else (if cs[0] in gone then [] else [cs[0]]) + Survivors(cs[1..], gone)
  }

  lemma {:induction false} SurvivorsAppend(cs: seq<Cell>, ds: seq<Cell>, gone: set<Cell>)
    ensures Survivors(cs + ds, gone) == Survivors(cs, gone) + Survivors(ds, gone)
  {
    if cs == [] {
      assert cs + ds == ds;
    } else {
      assert (cs + ds)[1..] == cs[1..] + ds;
      SurvivorsAppend(cs[1..], ds, gone);
    }
  }

  lemma {:induction false} SurvivorsWithout(cs: seq<Cell>, n: nat, gone: set<Cell>)
    requires n < |cs| && Distinct(cs)
    ensures Survivors(cs, gone + {cs[n]}) == Survivors(Without(cs, n), gone)
  {
    assert cs == cs[..n] + [cs[n]] + cs[n + 1..];
    SurvivorsAppend(cs[..n] + [cs[n]], cs[n + 1..], gone + {cs[n]});
    SurvivorsAppend(cs[..n], [cs[n]], gone + {cs[n]});
    SurvivorsAppend(cs[..n], cs[n + 1..], gone);
    SurvivorsElsewhere(cs[..n], gone, cs[n]);
    SurvivorsElsewhere(cs[n + 1..], gone, cs[n]);
  }

  lemma {:induction false} SurvivorsElsewhere(cs: seq<Cell>, gone: set<Cell>, c: Cell)
    requires c !in cs
    ensures Survivors(cs, gone + {c}) == Survivors(cs, gone)
  {
    if cs != [] {
      SurvivorsElsewhere(cs[1..], gone, c);
    }
  }

  lemma {:induction false} SurvivorsAll(cs: seq<Cell>)
    ensures Survivors(cs, {}) == cs
  {
    if cs != [] {
      SurvivorsAll(cs[1..]);
    }
  }

  /** Over every run the list stays sound, no two headers share a cell, and the headers that were
      there and that no removal took out are still there: in their cells, in their order, before
      everything pushed since. */
  lemma {:induction false} RunSafe(sh: Shelf, steps: seq<Step>)
    requires sh.Sound() && sh.TakesAll(steps)
    ensures sh.After(steps).Sound() && Distinct(sh.After(steps).Cells())
    ensures Survivors(sh.Cells(), sh.Gone(steps)) <= sh.After(steps).Cells()
    decreases |steps|
  {
    hide CellsOf, Removed, Granted, Without;
    if steps == [] {
      CellsDistinct(sh.slices);
      SurvivorsAll(sh.Cells());
    } else {
      var st := steps[0];
      sh.StepSound(st);
      var next := sh.Then(st);
      RunSafe(next, steps[1..]);
      var gone := next.Gone(steps[1..]);
      CellsDistinct(sh.slices);
      if st.Remove? {
        SurvivorsWithout(sh.Cells(), Place(sh.slices, st.k, st.i), gone);
      } else {
        var c :| c !in sh.Cells() && next.Cells() == sh.Cells() + [c];
        SurvivorsAppend(sh.Cells(), [c], gone);
      }
    }
  }
}
