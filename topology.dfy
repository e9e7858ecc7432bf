/**
 * The topology record the generators work on, its conversion to a TheoryGraph, the shard
 * paths the results are written to, and the category chosen by the spectral oracle.
 */
module Topologies {
  import opened Matrices
  import opened Text
  import opened Kinds
  import opened Gluing

  /** Block kinds of a linear topology: g nodes, L interior links, S side links, I instantons. */
  datatype LKind = G | L | S | I

  datatype Block = Block(kind: LKind, param: int)

  /** A connection (u, v): for l_connection two block indices; for s/i_connection a block and a decoration. */
  datatype Link = Link(u: int, v: int)

  /** The fields of a Topology the core reads; decorations are recorded by their parameters. */
  datatype Topology = Topology(
    blocks: seq<Block>,
    sideLinks: seq<int>,
    instantons: seq<int>,
    lConn: seq<Link>,
    sConn: seq<Link>,
    iConn: seq<Link>)

  /** addBlockRight: one more block at the right end. */
  function AddBlockRight(t: Topology, k: LKind, p: int): (r: Topology)
    ensures r.blocks == t.blocks + [Block(k, p)]
    ensures r.sideLinks == t.sideLinks && r.instantons == t.instantons
    ensures r.lConn == t.lConn && r.sConn == t.sConn && r.iConn == t.iConn
  {
    t.(blocks := t.blocks + [Block(k, p)])
  }

  /** addDecoration: a side link (S) or instanton (I) with parameter p attached to block u. */
  function AddDecoration(t: Topology, k: LKind, p: int, u: nat): (r: Topology)
    requires k == S || k == I
    ensures r.blocks == t.blocks
    ensures k == S ==> r.sideLinks == t.sideLinks + [p] && r.instantons == t.instantons
    ensures k == I ==> r.instantons == t.instantons + [p] && r.sideLinks == t.sideLinks
    ensures r.lConn == t.lConn
    ensures k == S ==> r.sConn == t.sConn + [Link(u, |t.sideLinks|)] && r.iConn == t.iConn
    ensures k == I ==> r.iConn == t.iConn + [Link(u, |t.instantons|)] && r.sConn == t.sConn
  {
    if k == S then t.(sideLinks := t.sideLinks + [p], sConn := t.sConn + [Link(u, |t.sideLinks|)])
    else t.(instantons := t.instantons + [p], iConn := t.iConn + [Link(u, |t.instantons|)])
  }

  // ---------------------------------------------------------------- shard paths

  function KindChar(k: LKind): char
  {
    match k
    case G => 'g'
    case L => 'L'
    case S => 'S'
    case I => 'I'
  }

  function Min(a: nat, b: nat): nat { if a < b then a else b }

  /** prefix_from: the kind letters of the first four blocks, or "empty" when there are none. */
  function PrefixFrom(t: Topology): (s: string)
    ensures |t.blocks| == 0 <==> s == "empty"
    ensures |t.blocks| > 0 ==> |s| == Min(4, |t.blocks|)
    ensures |t.blocks| > 0 ==> forall i :: 0 <= i < |s| ==> s[i] == KindChar(t.blocks[i].kind)
  {
    var n := Min(4, |t.blocks|);
    var p := seq(n, (i: int) requires 0 <= i < n => KindChar(t.blocks[i].kind));
    if |p| == 0 then "empty"
    else
      assert p[0] != 'e';
      p
  }

  /** shard_path: outdir/category/len-N/prefix.txt. */
  function ShardPath(t: Topology, outDir: string, category: string): (path: string)
    ensures var dir := outDir + "/" + category + "/len-" + IntToString(|t.blocks|);
      |dir| <= |path| && path[..|dir|] == dir && path[|dir|..] == "/" + PrefixFrom(t) + ".txt"
  {
    outDir + "/" + category + "/len-" + IntToString(|t.blocks|) + "/" + PrefixFrom(t) + ".txt"
  }

  /** Topologies of the same length whose first four blocks have the same kinds share a shard. */
  lemma {:induction false} ShardPathByHead(t1: Topology, t2: Topology, outDir: string, category: string)
    requires |t1.blocks| == |t2.blocks|
    requires forall i :: 0 <= i < Min(4, |t1.blocks|) ==> t1.blocks[i].kind == t2.blocks[i].kind
    ensures ShardPath(t1, outDir, category) == ShardPath(t2, outDir, category)
  {
    var p1, p2 := PrefixFrom(t1), PrefixFrom(t2);
    if |t1.blocks| > 0 {
      assert |p1| == |p2|;
      forall i | 0 <= i < |p1| ensures p1[i] == p2[i] {
      }
    }
  }

  // ---------------------------------------------------------------- classification

  datatype Category = Lst | Scft | Other

  /** What the spectral tests (eigenvalues with a tolerance) say about a composed matrix. */
  datatype Spectral = Spectral(isLST: bool, isSCFT: bool)

  function CategoryName(c: Category): string
  {
    match c
    case Lst => "LST"
    case Scft => "SCFT"
    case Other => "other"
  }

  /**
   * is_LST is tried before is_SCFT; both answer false for a 0x0 form.
   */
  function Classify(oracle: Matrix -> Spectral, m: Matrix): (c: Category)
    ensures c == Lst <==> |m| > 0 && oracle(m).isLST
    ensures c == Scft <==> |m| > 0 && !oracle(m).isLST && oracle(m).isSCFT
  {
    if |m| == 0 then Other
    else if oracle(m).isLST then Lst
    else if oracle(m).isSCFT then Scft
    else Other
  }

  /** The abstract collaborators of the generators: local forms, line serializer, spectral oracle. */
  datatype Env = Env(lf: LocalForm, serialize: Topology -> string, oracle: Matrix -> Spectral, outDir: string)

  // ---------------------------------------------------------------- topology to graph

  /** g -> n(p), L -> i(p), S and I blocks -> s(p). */
  function BlockSpec(b: Block): Spec
  {
    match b.kind
    case G => Spec(Node, b.param)
    case L => Spec(InteriorLink, b.param)
    case S => Spec(SideLink, b.param)
    case I => Spec(SideLink, b.param)
  }

  function BlockSpecs(bs: seq<Block>): (r: seq<Spec>)
    ensures |r| == |bs|
  {
    seq(|bs|, (k: int) requires 0 <= k < |bs| => BlockSpec(bs[k]))
  }

  function SideSpecs(ps: seq<int>): (r: seq<Spec>)
    ensures |r| == |ps|
  {
    seq(|ps|, (k: int) requires 0 <= k < |ps| => Spec(SideLink, ps[k]))
  }

  /** Node specs in id order: blocks, then side links, then instantons (an instanton is an s(p)). */
  function GenSpecs(t: Topology): seq<Spec>
  {
    BlockSpecs(t.blocks) + SideSpecs(t.sideLinks) + SideSpecs(t.instantons)
  }

  /** The l_connection pairs whose both ends are block indices, glued block u to block v. */
  function ChainGlues(links: seq<Link>, nb: nat): (r: seq<Glue>)
    ensures GluesInRange(nb, r)
    decreases |links|
  {
    if |links| == 0 then []
    else
      var c := links[|links| - 1];
      ChainGlues(links[..|links| - 1], nb)
        + (if 0 <= c.u < nb && 0 <= c.v < nb then [Glue(c.u, c.v)] else [])
  }

  /**
   * The s/i_connection pairs (block u, decoration v) with u a block and v a decoration
   * index, glued decoration-first: the decoration's id is base + v.
   */
  function DecoGlues(links: seq<Link>, nb: nat, base: nat, count: nat): (r: seq<Glue>)
    requires nb <= base
    ensures GluesInRange(base + count, r)
    decreases |links|
  {
    if |links| == 0 then []
    else
      var c := links[|links| - 1];
      DecoGlues(links[..|links| - 1], nb, base, count)
        + (if 0 <= c.u < nb && 0 <= c.v < count then [Glue(base + c.v, c.u)] else [])
  }

  /** An l_connection pair is glued exactly when both of its ends are block indices. */
  lemma {:induction false} ChainGluesExactly(links: seq<Link>, nb: nat, g: Glue)
    ensures g in ChainGlues(links, nb)
      <==> exists c :: c in links && 0 <= c.u < nb && 0 <= c.v < nb && g == Glue(c.u, c.v)
    decreases |links|
  {
    if |links| > 0 {
      var init := links[..|links| - 1];
      ChainGluesExactly(init, nb, g);
      assert links == init + [links[|links| - 1]];
    }
  }

  /** A decoration pair is glued exactly when its block and decoration indices are in range. */
  lemma {:induction false} DecoGluesExactly(links: seq<Link>, nb: nat, base: nat, count: nat, g: Glue)
    requires nb <= base
    ensures g in DecoGlues(links, nb, base, count)
      <==> exists c :: c in links && 0 <= c.u < nb && 0 <= c.v < count && g == Glue(base + c.v, c.u)
    decreases |links|
  {
    if |links| > 0 {
      var init := links[..|links| - 1];
      DecoGluesExactly(init, nb, base, count, g);
      assert links == init + [links[|links| - 1]];
    }
  }

  /** Gluing requests in connect order: chain, then side links, then instantons; none without blocks. */
  function GenGlues(t: Topology): (r: seq<Glue>)
    ensures GluesInRange(|GenNodes(t)|, r)
  {
    var nb, ns, ni := |t.blocks|, |t.sideLinks|, |t.instantons|;
    if nb == 0 then []
    else ChainGlues(t.lConn, nb) + DecoGlues(t.sConn, nb, nb, ns) + DecoGlues(t.iConn, nb, nb + ns, ni)
  }

  /** The specs topology_to_theory_graph adds: none at all when there are no blocks. */
  function GenNodes(t: Topology): seq<Spec>
  {
    if |t.blocks| == 0 then [] else GenSpecs(t)
  }

  /** Node ids: block k is node k, side link v is node nb+v, instanton v is node nb+ns+v. */
  lemma {:induction false} GenSpecsLayout(t: Topology)
    ensures var nb, ns := |t.blocks|, |t.sideLinks|;
      && |GenSpecs(t)| == nb + ns + |t.instantons|
      && (forall k :: 0 <= k < nb ==> GenSpecs(t)[k] == BlockSpec(t.blocks[k]))
      && (forall v :: 0 <= v < ns ==> GenSpecs(t)[nb + v] == Spec(SideLink, t.sideLinks[v]))
      && (forall v :: 0 <= v < |t.instantons| ==> GenSpecs(t)[nb + ns + v] == Spec(SideLink, t.instantons[v]))
  {
  }

  /** The composed form of the generators' graph, or None when building it throws. */
  function GraphOf(env: Env, t: Topology): Option<Matrix>
    requires WellFormedBuilder(env.lf)
  {
    GraphForm(env.lf, GenNodes(t), GenGlues(t))
  }

  /** A topology without blocks gives the empty graph, whose form is 0x0. */
  lemma {:induction false} NoBlocksNoGraph(env: Env, t: Topology)
    requires WellFormedBuilder(env.lf) && |t.blocks| == 0
    ensures GraphOf(env, t) == Some([])
  {
    var m := Compose(FormsOf(env.lf, []), DefaultEdges([]));
    assert |m| == Dim(FormsOf(env.lf, [])) == 0;
  }

  /** The outcome of one candidate: the graph throws, it is in no category, or it is kept. */
  datatype Verdict = Rejected | Unclassified | Keep(category: Category)

  function Judge(env: Env, t: Topology): (v: Verdict)
    requires WellFormedBuilder(env.lf)
    ensures v.Keep? ==> v.category != Other
  {
    match GraphOf(env, t)
    case None => Rejected
    case Some(m) => if Classify(env.oracle, m) == Other then Unclassified else Keep(Classify(env.oracle, m))
  }

  /** One appended line: the file it goes to and the text. */
  datatype Write = Write(path: string, line: string)

  /**
   * The body shared by the generators' try blocks: build the graph (a throw rejects the
   * candidate), compose its form, and classify it.
   */
  method JudgeTopology(env: Env, t: Topology) returns (v: Verdict)
    requires WellFormedBuilder(env.lf)
    ensures v == Judge(env, t)
  {
    var g, r := TopologyToTheoryGraph(env.lf, t);
    if r.Fail? {
      return Rejected;
    }
    var m := g.ComposeIFGluing();
    var c := Classify(env.oracle, m);
    v := if c == Other then Unclassified else Keep(c);
  }

  /** topology_to_theory_graph: adds every node, then connects every in-range pair. */
  method TopologyToTheoryGraph(lf: LocalForm, t: Topology) returns (g: TheoryGraph, r: Outcome)
    requires WellFormedBuilder(lf)
    ensures fresh(g) && g.Valid() && g.lf == lf
    ensures r.Pass? <==> AllBuild(GenNodes(t)) && AllAccepted(GenNodes(t), GenGlues(t))
    ensures r.Pass? ==> g.forms == FormsOf(lf, GenNodes(t)) && g.edges == DefaultEdges(GenGlues(t))
  {
    g := new TheoryGraph(lf);
    if |t.blocks| == 0 {
      assert FormsOf(lf, []) == [];
      return g, Pass;
    }
    var specs := NodeSpecsOf(t);
    assert GenNodes(t) == specs;
    r := AddAll(g, specs);
    if r.Fail? {
      return;
    }
    assert g.forms == FormsOf(lf, specs) && g.kinds == KindsOf(specs) && g.params == ParamsOf(specs);
    var nb, ns, ni := |t.blocks|, |t.sideLinks|, |t.instantons|;
    var glues := ChainOf(t.lConn, nb);
    var sg := DecorationsOf(t.sConn, nb, nb, ns);
    var ig := DecorationsOf(t.iConn, nb, nb + ns, ni);
    glues := glues + sg + ig;
    assert GenGlues(t) == glues;
    r := ConnectAll(g, specs, glues);
  }

  /** The node specs of topology_to_theory_graph, in id order. */
  method NodeSpecsOf(t: Topology) returns (specs: seq<Spec>)
    ensures specs == GenSpecs(t)
  {
    var nb, ns, ni := |t.blocks|, |t.sideLinks|, |t.instantons|;
    specs := [];
    for k := 0 to nb
      invariant specs == BlockSpecs(t.blocks[..k])
    {
      specs := specs + [BlockSpec(t.blocks[k])];
    }
    assert t.blocks[..nb] == t.blocks;
    var sides := [];
    for k := 0 to ns
      invariant sides == SideSpecs(t.sideLinks[..k])
    {
      sides := sides + [Spec(SideLink, t.sideLinks[k])];
    }
    assert t.sideLinks[..ns] == t.sideLinks;
    var insts := [];
    for k := 0 to ni
      invariant insts == SideSpecs(t.instantons[..k])
    {
      insts := insts + [Spec(SideLink, t.instantons[k])];
    }
    assert t.instantons[..ni] == t.instantons;
    specs := specs + sides + insts;
  }

  /** The chain pairs of topology_to_theory_graph, skipping any with an index out of range. */
  method ChainOf(links: seq<Link>, nb: nat) returns (glues: seq<Glue>)
    ensures glues == ChainGlues(links, nb)
  {
    glues := [];
    for k := 0 to |links|
      invariant glues == ChainGlues(links[..k], nb)
    {
      assert links[..k + 1][..k] == links[..k];
      var c := links[k];
      if 0 <= c.u < nb && 0 <= c.v < nb {
        glues := glues + [Glue(c.u, c.v)];
      }
    }
    assert links[..|links|] == links;
  }

  /** The decoration pairs of topology_to_theory_graph, skipping any with an index out of range. */
  method DecorationsOf(links: seq<Link>, nb: nat, base: nat, count: nat) returns (glues: seq<Glue>)
    requires nb <= base
    ensures glues == DecoGlues(links, nb, base, count)
  {
    glues := [];
    for k := 0 to |links|
      invariant glues == DecoGlues(links[..k], nb, base, count)
    {
      assert links[..k + 1][..k] == links[..k];
      var c := links[k];
      if 0 <= c.u < nb && 0 <= c.v < count {
        glues := glues + [Glue(base + c.v, c.u)];
      }
    }
    assert links[..|links|] == links;
  }
}
