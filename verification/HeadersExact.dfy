/** Which headers a command means, in terms of their names alone. */
module HeadersExact {
  import opened Bytes
  import opened HeaderSlices
  import opened HeaderList
  import opened HeaderTexts
  import In = InputHeaders
  import Out = OutputHeaders

  // ---------- responses ----------

  /** The header is of the name `p`, or its name begins with `p`, up to case. */
  predicate Meant(h: Header, p: seq<byte>, wildcard: bool) {
    if wildcard then |h.key| >= |p| && SameNoCase(h.key[..|p|], p) else SameNoCase(h.key, p)
  }

  lemma {:induction false} MatchesIff(h: Header, hash: nat, p: seq<byte>, wildcard: bool)
    ensures Out.HeaderVal(hash, if wildcard then p + "*" else p, wildcard).Matches(h.key) <==> Meant(h, p, wildcard)
  {
    assert (p + "*")[..|p|] == p;
  }

  lemma {:induction false} MarkedAt(hs: seq<Header>, hv: Out.HeaderVal, value: seq<byte>, matched: bool, j: nat)
    requires j < |hs|
    ensures Out.Marked(hs, hv, value, matched)[j] ==
              if !hv.Matches(hs[j].key) then hs[j]
              else if value == [] || matched || Out.Any(hs[..j], hv) then hs[j].(hash := 0, value := [])
              else hs[j].(hash := hv.hash, value := value)
  {
    hide Out.HeaderVal.Matches;
    if j > 0 {
      MarkedAt(hs[1..], hv, value, matched || hv.Matches(hs[0].key), j - 1);
      Out.AnyRest(hs[..j], hv);
      assert hs[..j][1..] == hs[1..][..j - 1];
    }
  }

  /** What a call makes of a response's headers. Of those that are meant the first gets the value and the
      others are hidden, or all are hidden if the value is empty; no other header changes. If none is
      meant, a header is made, but none to be hidden for a wildcard or without the right to. */
  lemma {:induction false} SetExact(hs: seq<Header>, hash: nat, p: seq<byte>, wildcard: bool, value: seq<byte>,
                                     noCreate: bool)
    ensures var key := if wildcard then p + "*" else p;
            var gs := Out.Set(hs, Out.HeaderVal(hash, key, wildcard), value, noCreate);
            if exists i :: 0 <= i < |hs| && Meant(hs[i], p, wildcard) then
              && |gs| == |hs|
              && forall j :: 0 <= j < |hs| ==>
                   gs[j] == if !Meant(hs[j], p, wildcard) then hs[j]
                            else if value != [] && forall i :: 0 <= i < j ==> !Meant(hs[i], p, wildcard)
                                 then Header(hash, hs[j].key, value)
                                 else Header(0, hs[j].key, [])
            else
              gs == hs + if value != [] then [Header(hash, key, value)]
                         else if wildcard || noCreate then [] else [Header(0, key, [])]
  {
    hide Out.HeaderVal.Matches, Out.Marked, Meant;
    var hv := Out.HeaderVal(hash, if wildcard then p + "*" else p, wildcard);
    forall i | 0 <= i < |hs| ensures hv.Matches(hs[i].key) <==> Meant(hs[i], p, wildcard) {
      MatchesIff(hs[i], hash, p, wildcard);
    }
    if Out.Any(hs, hv) {
      forall j | 0 <= j < |hs|
        ensures Out.Marked(hs, hv, value, false)[j] ==
                  if !Meant(hs[j], p, wildcard) then hs[j]
                  else if value != [] && forall i :: 0 <= i < j ==> !Meant(hs[i], p, wildcard)
                       then Header(hash, hs[j].key, value)
                       else Header(0, hs[j].key, [])
      {
        MarkedAt(hs, hv, value, false, j);
        assert Out.Any(hs[..j], hv) <==> exists i :: 0 <= i < j && hv.Matches(hs[i].key);
      }
    }
  }

  /** Clearing by a wildcard hides a header if and only if its name begins with the wildcard's, up to case,
      and leaves every other as it is. */
  lemma {:induction false} WildcardHides(hs: seq<Header>, hash: nat, p: seq<byte>, noCreate: bool)
    ensures var gs := Out.Set(hs, Out.HeaderVal(hash, p + "*", true), [], noCreate);
            && |gs| == |hs|
            && forall j :: 0 <= j < |hs| ==>
                 gs[j] == if |hs[j].key| >= |p| && SameNoCase(hs[j].key[..|p|], p)
                          then Header(0, hs[j].key, []) else hs[j]
  {
    hide Out.Set;
    SetExact(hs, hash, p, true, [], noCreate);
  }

  /** When a command is run: on a response, not a request, with one of its types and one of its statuses. */
  lemma {:induction false} CommandRuns(pairs: seq<(Out.HeaderVal, seq<byte>)>, types: Option<seq<seq<byte>>>,
                                       statuses: Option<seq<nat>>, isInput: bool, contentType: seq<byte>, status: nat)
    ensures Out.Applied([Out.Cmd(Some(pairs), types, statuses, isInput)], contentType, status) ==
              if && !isInput
                 && (types == None || contentType in types.value) && (statuses == None || status in statuses.value)
              then pairs else []
    ensures Out.Applied([Out.Cmd(None, types, statuses, isInput)], contentType, status) == []
  {
    var cmd := Out.Cmd(Some(pairs), types, statuses, isInput);
    assert [cmd][..0] == [];
    var none := Out.Cmd(None, types, statuses, isInput);
    assert [none][..0] == [];
    assert Out.Applied([], contentType, status) == [];
  }

  /** A header is set to its value without the terminating byte, whatever that is; an empty value clears. */
  lemma {:induction false} ValueLosesEnd(hs: seq<Header>, hv: Out.HeaderVal, value: seq<byte>, end: byte)
    ensures Out.SetAll(hs, [(hv, value + [end])]) == Out.Set(hs, hv, value, false)
    ensures Out.SetAll(hs, [(hv, [])]) == Out.Set(hs, hv, [], false)
  {
    hide Out.Set;
    var ps: seq<(Out.HeaderVal, seq<byte>)> := [(hv, value + [end])];
    var qs: seq<(Out.HeaderVal, seq<byte>)> := [(hv, [])];
    assert ps[..0] == [] && qs[..0] == [];
    assert Out.SetAll(hs, []) == hs;
    assert (value + [end])[..|value|] == value;
  }

  // ---------- requests ----------

  /** What clearing keeps, unless it gets stuck: the headers whose name differs, in order. */
  lemma {:induction false} KeptExact<T>(xs: seq<T>, hs: seq<Header>, ys: seq<T>, gs: seq<Header>, x: T, h: Header,
                                        key: seq<byte>)
    requires |xs| == |hs| && |ys| == |gs|
    ensures In.Kept([x], [h], key) == if SameNoCase(h.key, key) then [] else [x]
    ensures In.Kept(xs + ys, hs + gs, key) == In.Kept(xs, hs, key) + In.Kept(ys, gs, key)
  {
    assert [x][1..] == [] && [h][1..] == [];
    if xs == [] {
      assert xs + ys == ys && hs + gs == gs;
    } else {
      assert (xs + ys)[1..] == xs[1..] + ys && (hs + gs)[1..] == hs[1..] + gs;
      KeptExact(xs[1..], hs[1..], ys, gs, x, h, key);
    }
  }

  lemma {:induction false} FreeFrom(hs: seq<Header>, k: nat, key: seq<byte>)
    requires k <= |hs|
    ensures In.Free(hs[k..], key) <==> forall j :: k <= j < |hs| ==> !SameNoCase(hs[j].key, key)
  {
    hide SameNoCase;
    if In.Free(hs[k..], key) {
      forall j | k <= j < |hs| ensures !SameNoCase(hs[j].key, key) {
        assert hs[k..][j - k] == hs[j] && hs[j] in hs[k..] && !In.Same(hs[j], key);
      }
    }
    if forall j :: k <= j < |hs| ==> !SameNoCase(hs[j].key, key) {
      forall h | h in hs[k..] ensures !In.Same(h, key) {
        var i :| 0 <= i < |hs[k..]| && hs[k..][i] == h;
        assert hs[k + i] == h;
      }
    }
  }

  /** What clearing leaves: all headers of other names if the first part of the list is empty or has one,
      and else all that is behind that part. */
  lemma {:induction false} ClearExact(hs: seq<Header>, head: nat, key: seq<byte>)
    ensures In.Cleared(hs, hs, head, key) ==
              if 0 < head <= |hs| && forall j :: 0 <= j < head ==> SameNoCase(hs[j].key, key)
              then hs[head..] else In.Kept(hs, hs, key)
    ensures head <= |hs| ==>
              ((forall h :: h in In.Cleared(hs, hs, head, key) ==> !SameNoCase(h.key, key)) <==>
               (|| head == 0
                || (exists j :: 0 <= j < head && !SameNoCase(hs[j].key, key))
                || (forall j :: head <= j < |hs| ==> !SameNoCase(hs[j].key, key))))
  {
    hide In.Kept, In.Free, SameNoCase;
    if head <= |hs| {
      In.ClearsAllIff(hs, head, key);
      FreeFrom(hs, head, key);
      FreeIs(In.Cleared(hs, hs, head, key), key);
    }
  }

  lemma {:induction false} FreeIs(hs: seq<Header>, key: seq<byte>)
    ensures In.Free(hs, key) <==> forall h :: h in hs ==> !SameNoCase(h.key, key)
  {
  }

  /** What setting leaves: the first header of the name gets the value; without one, a new header is the
      last, unless the command only replaces. */
  lemma {:induction false} InputSetExact(call: In.Call, ys: seq<Cell>, gs: seq<Header>, out: Option<Cell>, n: nat)
    requires call.Fits() && call.value != [] && call.Leaves(ys, gs, out) && n <= |call.texts|
    requires forall j :: 0 <= j < n ==> !SameNoCase(call.texts[j].key, call.hv.key)
    requires n < |call.texts| ==> SameNoCase(call.texts[n].key, call.hv.key)
    ensures gs == if n < |call.texts| then call.texts[n := call.texts[n].(value := call.value)]
                  else if call.hv.replace then call.texts
                  else call.texts + [Header(call.hv.hash, call.hv.key, call.value)]
  {
    var hs, key := call.texts, call.hv.key;
    if n < |hs| {
      assert hs[n] in hs;
      assert In.FirstAt(hs, key, n);
    }
  }
}
