/** Configuration inheritance: a location's commands are those of its parent and then its own. */
module ConfMerge {
  import opened OutputHeaders

  /** `ngx_array_t` of commands. */
  class CmdArray {
    var elts: array<Cmd>
    var nelts: nat

    constructor (cmds: seq<Cmd>)
      ensures Valid() && Contents() == cmds && fresh(elts)
    {
      elts := new Cmd[|cmds|](i requires 0 <= i < |cmds| => cmds[i]);
      nelts := |cmds|;
    }

    ghost predicate Valid()
      reads this
    {
      nelts <= elts.Length
    }

    ghost function Contents(): seq<Cmd>
      requires Valid()
      reads this, elts
    {
      elts[..nelts]
    }

    /** `ngx_array_push_n`: room for `n` more elements, in place or in a larger array. */
    method PushN(n: nat)
      requires Valid()
      modifies this
      ensures Valid() && nelts == old(nelts) + n && elts[..old(nelts)] == old(Contents())
      ensures elts == old(elts) || fresh(elts)
    {
      if nelts + n > elts.Length {
        var larger := new Cmd[2 * (if n >= elts.Length then n else elts.Length)];
        for i := 0 to nelts
          modifies larger
          invariant larger[..i] == elts[..i]
        {
          larger[i] := elts[i];
        }
        elts := larger;
      }
      nelts := nelts + n;
    }
  }

  /** `ngx_http_headers_more_loc_conf_t`. */
  class Conf {
    var cmds: CmdArray?

    constructor (cmds: CmdArray?)
      ensures this.cmds == cmds
    {
      this.cmds := cmds;
    }

    ghost predicate Valid()
      reads this, cmds
    {
      cmds != null ==> cmds.Valid()
    }

    /** The commands; a configuration without an array has none. */
    ghost function Cmds(): seq<Cmd>
      requires Valid()
      reads this, cmds, if cmds == null then {} else {cmds.elts}
    {
      if cmds == null then [] else cmds.Contents()
    }
  }

  /** Nothing that `c` stores its commands in is shared with `d`. */
  ghost predicate Apart(c: Conf, d: Conf)
    reads c, c.cmds, d, d.cmds
  {
    c.cmds != null && d.cmds != null ==> c.cmds != d.cmds && c.cmds.elts != d.cmds.elts
  }

  ghost function Footprint(c: Conf): set<object?>
    reads c, c.cmds
  {
    if c.cmds == null then {c} else {c, c.cmds, c.cmds.elts}
  }

  /** The commands of the child move to the end of their array, from the last to the first, as the
      stretches may overlap. */
  method ShiftRight(cmd: array<Cmd>, orig: nat, nelts: nat)
    requires orig <= nelts <= cmd.Length
    modifies cmd
    ensures cmd[nelts - orig..nelts] == old(cmd[..orig])
  {
    for i := 0 to orig
      invariant cmd[..nelts - i] == old(cmd[..nelts - i])
      invariant cmd[nelts - i..nelts] == old(cmd[orig - i..orig])
    {
      cmd[nelts - 1 - i] := cmd[orig - 1 - i];
      assert cmd[nelts - (i + 1)..nelts] == [cmd[nelts - 1 - i]] + cmd[nelts - i..nelts];
    }
  }

  method CopyFront(cmd: array<Cmd>, prevCmd: array<Cmd>, n: nat)
    requires cmd != prevCmd && n <= cmd.Length && n <= prevCmd.Length
    modifies cmd
    ensures cmd[..n] == prevCmd[..n] && cmd[n..] == old(cmd[n..])
  {
    for i := 0 to n
      invariant cmd[..i] == prevCmd[..i] && cmd[n..] == old(cmd[n..])
    {
      cmd[i] := prevCmd[i];
    }
  }

  /** The commands of `prev` come before those of `own`. */
  method Prepend(prev: CmdArray, own: CmdArray)
    requires prev.Valid() && own.Valid() && prev != own && prev.elts != own.elts
    modifies own, own.elts
    ensures own.Valid() && own.Contents() == old(prev.Contents()) + old(own.Contents())
    ensures own.elts == old(own.elts) || fresh(own.elts)
  {
    ghost var above, mine := prev.Contents(), own.Contents();
    var orig, n := own.nelts, prev.nelts;
    own.PushN(n);
    var cmd := own.elts;
    ShiftRight(cmd, orig, own.nelts);
    ghost var shifted := cmd[..];
    CopyFront(cmd, prev.elts, n);
    Joined(cmd[..], shifted, above, mine);
  }

  lemma {:induction false} Joined<T>(s: seq<T>, t: seq<T>, a: seq<T>, b: seq<T>)
    requires |a| + |b| <= |s| == |t| && s[..|a|] == a && s[|a|..] == t[|a|..] && t[|a|..|a| + |b|] == b
    ensures s[..|a| + |b|] == a + b
  {
    assert t[|a|..][..|b|] == b;
    assert s[..|a| + |b|] == s[..|a|] + s[|a|..][..|b|];
  }

  /** `ngx_http_headers_more_merge_loc_conf`. */
  method Merge(prev: Conf, conf: Conf)
    requires prev.Valid() && conf.Valid() && prev != conf && Apart(prev, conf)
    modifies Footprint(conf)
    ensures prev.Valid() && prev.Cmds() == old(prev.Cmds())
    ensures conf.Valid() && conf.Cmds() == old(prev.Cmds()) + old(conf.Cmds())
    ensures old(conf.Cmds()) == [] ==> conf.cmds == prev.cmds
    ensures old(conf.Cmds()) != [] ==>
      conf.cmds == old(conf.cmds) && (conf.cmds.elts == old(conf.cmds.elts) || fresh(conf.cmds.elts))
  {
    if conf.cmds == null || conf.cmds.nelts == 0 {
      conf.cmds := prev.cmds;
    } else if prev.cmds != null && prev.cmds.nelts > 0 {
      Prepend(prev.cmds, conf.cmds);
    }
  }

  /** The commands on the way from the root to node `i`. */
  ghost function Path(own: seq<seq<Cmd>>, parent: seq<nat>, i: nat): seq<Cmd>
    requires i < |own| == |parent| && forall j :: 0 < j < |parent| ==> parent[j] < j
  {
    if i == 0 then own[0] else Path(own, parent, parent[i]) + own[i]
  }

  /** A node of the tree: its array, if it has one, where that keeps its elements, and its commands. */
  datatype Node = Node(a: CmdArray?, e: array?<Cmd>, cmds: seq<Cmd>)

  ghost predicate Is(c: Conf, n: Node)
    reads c, n.a, n.e
  {
    && c.cmds == n.a
    && if n.a == null then n.e == null && n.cmds == []
       else n.a.elts == n.e && n.a.Valid() && n.a.elts[..n.a.nelts] == n.cmds
  }

  lemma {:induction false} IsMeans(c: Conf, n: Node)
    requires Is(c, n)
    ensures c.Valid() && c.Cmds() == n.cmds
    ensures c.cmds == n.a && (c.cmds != null ==> c.cmds.elts == n.e)
  {
  }

  lemma {:induction false} MeansIs(c: Conf) returns (n: Node)
    requires c.Valid()
    ensures Is(c, n) && n.a == c.cmds && n.cmds == c.Cmds() && (c.cmds != null ==> n.e == c.cmds.elts)
  {
    n := if c.cmds == null then Node(null, null, []) else Node(c.cmds, c.cmds.elts, c.Cmds());
  }

  lemma {:induction false} NodesOf(confs: seq<Conf>) returns (nodes: seq<Node>)
    requires forall j :: 0 <= j < |confs| ==> confs[j].Valid()
    ensures |nodes| == |confs|
    ensures forall j :: 0 <= j < |confs| ==>
      && Is(confs[j], nodes[j]) && nodes[j].a == confs[j].cmds && nodes[j].cmds == confs[j].Cmds()
      && (confs[j].cmds != null ==> nodes[j].e == confs[j].cmds.elts)
  {
    if confs == [] {
      nodes := [];
    } else {
      var k := |confs| - 1;
      var rest := NodesOf(confs[..k]);
      var n := MeansIs(confs[k]);
      nodes := rest + [n];
      forall j | 0 <= j < |confs|
        ensures Is(confs[j], nodes[j]) && nodes[j].a == confs[j].cmds && nodes[j].cmds == confs[j].Cmds()
        ensures confs[j].cmds != null ==> nodes[j].e == confs[j].cmds.elts
      {
        assert j < k ==> confs[..k][j] == confs[j];
      }
    }
  }

  ghost predicate Shares(n: Node, m: Node) {
    n.a != null && m.a != null && (n.a == m.a || n.e == m.e)
  }

  /** Before node `i` is merged, the nodes before it have the commands of their path, and the others
      their own, in arrays that no other node shares. */
  ghost predicate Merging(nodes: seq<Node>, parent: seq<nat>, own: seq<seq<Cmd>>, i: nat)
    requires |nodes| == |parent| == |own| && forall j :: 0 < j < |parent| ==> parent[j] < j
  {
    && (forall j :: 0 <= j < |nodes| ==> nodes[j].cmds == if j < i then Path(own, parent, j) else own[j])
    && (forall j, m :: 0 <= m < |nodes| && i <= j < |nodes| && m != j ==> !Shares(nodes[m], nodes[j]))
  }

  /** A merged node keeps its array, in its own elements or in elements that are new, or it shares its
      parent's array. */
  ghost predicate Stored(nodes: seq<Node>, p: nat, i: nat, n: Node)
    requires p < i < |nodes|
  {
    || (n.a == nodes[p].a && n.e == nodes[p].e)
    || (n.a == nodes[i].a && (n.e == nodes[i].e || forall j :: 0 <= j < |nodes| ==> nodes[j].e != n.e))
  }

  lemma {:induction false} MergingNext(nodes: seq<Node>, parent: seq<nat>, own: seq<seq<Cmd>>, i: nat, n: Node)
    requires |nodes| == |parent| == |own| && forall j :: 0 < j < |parent| ==> parent[j] < j
    requires 0 < i < |nodes| && Merging(nodes, parent, own, i)
    requires n.cmds == nodes[parent[i]].cmds + nodes[i].cmds && Stored(nodes, parent[i], i, n)
    ensures Merging(nodes[i := n], parent, own, i + 1)
  {
    var ns := nodes[i := n];
    forall j, m | 0 <= m < |ns| && i + 1 <= j < |ns| && m != j ensures !Shares(ns[m], ns[j]) {
      assert !Shares(nodes[m], nodes[j]) && !Shares(nodes[parent[i]], nodes[j]);
    }
  }

  /** One merge, in a tree. */
  method MergeNode(confs: seq<Conf>, p: nat, i: nat, ghost nodes: seq<Node>) returns (ghost n: Node)
    requires p < i < |confs| == |nodes|
    requires forall j :: 0 <= j < |confs| ==> Is(confs[j], nodes[j]) && (j != i ==> confs[j] != confs[i])
    requires forall j :: 0 <= j < |confs| && j != i ==> !Shares(nodes[j], nodes[i])
    modifies confs[i], nodes[i].a, nodes[i].e
    ensures forall j :: 0 <= j < |confs| ==> Is(confs[j], nodes[i := n][j])
    ensures n.cmds == nodes[p].cmds + nodes[i].cmds
    ensures Stored(nodes, p, i, n)
  {
    IsMeans(confs[p], nodes[p]);
    IsMeans(confs[i], nodes[i]);
    assert !Shares(nodes[p], nodes[i]);
    Merge(confs[p], confs[i]);
    n := MeansIs(confs[i]);
    forall j | 0 <= j < |confs| && j != i ensures Is(confs[j], nodes[j]) {
      assert !Shares(nodes[j], nodes[i]);
    }
  }

  ghost function FootprintOf(confs: seq<Conf>): set<object?>
    reads confs, set c | c in confs :: c.cmds
  {
    set c, o | c in confs && o in Footprint(c) :: o
  }

  lemma {:induction false} MergingStarts(confs: seq<Conf>, parent: seq<nat>, own: seq<seq<Cmd>>, nodes: seq<Node>,
                                          fp: set<object?>)
    requires |confs| == |nodes| == |parent| == |own| && forall j :: 0 < j < |parent| ==> parent[j] < j
    requires fp == FootprintOf(confs)
    requires forall j :: 0 <= j < |confs| ==>
      confs[j].Valid() && confs[j].Cmds() == own[j] == nodes[j].cmds && Is(confs[j], nodes[j])
    requires forall j, m :: 0 <= j < m < |confs| ==> Apart(confs[j], confs[m])
    ensures Merging(nodes, parent, own, 1)
    ensures forall j :: 0 <= j < |confs| ==>
      confs[j] in fp && (nodes[j].a != null ==> nodes[j].a in fp) && (nodes[j].e != null ==> nodes[j].e in fp)
  {
    forall j, m | 0 <= m < |nodes| && 1 <= j < |nodes| && m != j ensures !Shares(nodes[m], nodes[j]) {
      assert if m < j then Apart(confs[m], confs[j]) else Apart(confs[j], confs[m]);
    }
    forall j | 0 <= j < |confs|
      ensures confs[j] in fp && (nodes[j].a != null ==> nodes[j].a in fp) && (nodes[j].e != null ==> nodes[j].e in fp)
    {
      assert confs[j] in Footprint(confs[j]);
      assert nodes[j].a != null ==> nodes[j].a in Footprint(confs[j]) && nodes[j].e in Footprint(confs[j]);
    }
  }

  lemma {:induction false} MergingApart(nodes: seq<Node>, parent: seq<nat>, own: seq<seq<Cmd>>, i: nat)
    requires |nodes| == |parent| == |own| && forall j :: 0 < j < |parent| ==> parent[j] < j
    requires i < |nodes| && Merging(nodes, parent, own, i)
    ensures forall j :: 0 <= j < |nodes| && j != i ==> !Shares(nodes[j], nodes[i])
  {
  }

  lemma {:induction false} MergingEnds(confs: seq<Conf>, parent: seq<nat>, own: seq<seq<Cmd>>, nodes: seq<Node>, i: nat)
    requires |confs| == |nodes| == |parent| == |own| && forall j :: 0 < j < |parent| ==> parent[j] < j
    requires |confs| <= i && Merging(nodes, parent, own, i)
    requires forall j :: 0 <= j < |confs| ==> Is(confs[j], nodes[j])
    ensures forall j :: 0 <= j < |confs| ==> confs[j].Valid() && confs[j].Cmds() == Path(own, parent, j)
  {
    forall j | 0 <= j < |confs| ensures confs[j].Valid() && confs[j].Cmds() == Path(own, parent, j) {
      IsMeans(confs[j], nodes[j]);
      assert nodes[j].cmds == Path(own, parent, j);
    }
  }

  /** Merging a whole tree, every node after its parent: each node ends with the commands on its path
      from the root. So no merge disturbs a node merged before, although nodes without commands of
      their own share their parent's array. */
  method MergeTree(confs: seq<Conf>, parent: seq<nat>, ghost own: seq<seq<Cmd>>)
    requires |confs| == |parent| == |own| && forall j :: 0 < j < |parent| ==> parent[j] < j
    requires forall j :: 0 <= j < |confs| ==> confs[j].Valid() && confs[j].Cmds() == own[j]
    requires forall j, m :: 0 <= j < m < |confs| ==> confs[j] != confs[m] && Apart(confs[j], confs[m])
    modifies FootprintOf(confs)
    ensures forall j :: 0 <= j < |confs| ==> confs[j].Valid() && confs[j].Cmds() == Path(own, parent, j)
  {
    hide Is, Merging, Path, Footprint, FootprintOf;
    ghost var fp := FootprintOf(confs);
    ghost var nodes: seq<Node> := NodesOf(confs);
    MergingStarts(confs, parent, own, nodes, fp);
    var i := 1;
    while i < |confs|
      invariant 1 <= i && |nodes| == |confs| && Merging(nodes, parent, own, i)
      invariant forall j :: 0 <= j < |confs| ==> Is(confs[j], nodes[j])
      invariant forall j :: i <= j < |confs| ==>
        confs[j] in fp && (nodes[j].a != null ==> nodes[j].a in fp) && (nodes[j].e != null ==> nodes[j].e in fp)
    {
      MergingApart(nodes, parent, own, i);
      ghost var n := MergeNode(confs, parent[i], i, nodes);
      MergingNext(nodes, parent, own, i, n);
      nodes := nodes[i := n];
      i := i + 1;
    }
    MergingEnds(confs, parent, own, nodes, i);
  }
}
