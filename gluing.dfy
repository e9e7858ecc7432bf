/**
 * TheoryGraph of Theory.h: blocks with local forms, weighted port-to-port edges, and the
 * composed intersection form (block diagonal plus a symmetric +w per edge).
 */
module Gluing {
  import opened Matrices
  import opened Kinds
  import opened Rules

  /** EdgeW: node ids, their ports, and the gluing weight. */
  datatype Edge = Edge(u: nat, v: nat, pu: Port, pv: Port, w: int)

  /** A request to glue node a to node b with the default ports and weight. */
  datatype Glue = Glue(a: nat, b: nat)

  /** pickPortIndex: the row of a block's local form designated by a port, or -1. */
  function PickPortIndex(form: Matrix, which: Port): (r: int)
    ensures r == -1 <==> |form| == 0
    ensures |form| > 0 ==> 0 <= r < |form|
    ensures |form| > 0 && which == Left ==> r == 0
    ensures |form| > 0 && which == Right ==> r == |form| - 1
    ensures |form| >= 2 && which == Custom ==> r == 1
  {
    var sz := |form|;
    if sz <= 0 then -1
    else match which
      case Left => 0
      case Right => sz - 1
      case Custom => if sz >= 2 then 1 else 0
  }

  // ---------------------------------------------------------------- connect policy

  /** A side link with parameter s may not meet a node with parameter n at these ports. */
  predicate SideBanned(s: int, n: int, sp: Port, np: Port)
  {
    IsBannedPair(s, n) || IsBannedPortPair(s, n, sp, np)
  }

  /**
   * The table checks of both connect overloads, after the s-i ban: first the side-node
   * tables, then the interior-node param table, then the interior-node port table; the link
   * and the node are recognised whichever of a and b they are. Only a link meeting a node is
   * policed, and only with the three table errors.
   */
  function RoleRules(ka: Kind, xa: int, pa: Port, kb: Kind, xb: int, pb: Port): (r: Outcome)
    ensures !((ka == SideLink || ka == InteriorLink) && kb == Node) && !((kb == SideLink || kb == InteriorLink) && ka == Node)
      ==> r == Pass
    ensures r.Fail? ==> r.error == PortingRule || r.error == InteriorNodeRule || r.error == InteriorNodePortRule
  {
    if (ka == SideLink && kb == Node && SideBanned(xa, xb, pa, pb))
       || (kb == SideLink && ka == Node && SideBanned(xb, xa, pb, pa))
    then Fail(PortingRule)
    else if (ka == InteriorLink && kb == Node && IsBannedPairIN(xa, xb))
         || (kb == InteriorLink && ka == Node && IsBannedPairIN(xb, xa))
    then Fail(InteriorNodeRule)
    else if (ka == InteriorLink && kb == Node && IsBannedPortPairIN(xa, xb, pa, pb))
         || (kb == InteriorLink && ka == Node && IsBannedPortPairIN(xb, xa, pb, pa))
    then Fail(InteriorNodePortRule)
    else Pass
  }

  /** connect(a, b): the explicit connect with ports Right of a and Left of b, and weight 1. */
  function DefaultVerdict(ka: Kind, xa: int, kb: Kind, xb: int): (r: Outcome)
    ensures r == ExplicitVerdict(ka, xa, Right, kb, xb, Left, 1)
  {
    if Forbidden(ka, kb) then Fail(ForbiddenAdjacency)
    else RoleRules(ka, xa, Right, kb, xb, Left)
  }

  /**
   * connect(a, pa, b, pb, weight): the s-i ban, then the weight, then the tables; an s-i pair
   * or a non-positive weight is never accepted.
   */
  function ExplicitVerdict(ka: Kind, xa: int, pa: Port, kb: Kind, xb: int, pb: Port, weight: int): (r: Outcome)
    ensures Forbidden(ka, kb) ==> r == Fail(ForbiddenAdjacency)
    ensures !Forbidden(ka, kb) && weight <= 0 ==> r == Fail(NonPositiveWeight)
    ensures r.Pass? ==> !Forbidden(ka, kb) && weight > 0
  {
    if Forbidden(ka, kb) then Fail(ForbiddenAdjacency)
    else if weight <= 0 then Fail(NonPositiveWeight)
    else RoleRules(ka, xa, pa, kb, xb, pb)
  }

  /** A side link and an interior link are never glued, whatever the parameters and ports. */
  lemma {:induction false} SideInteriorAlwaysRejected(xa: int, pa: Port, xb: int, pb: Port, weight: int)
    ensures DefaultVerdict(SideLink, xa, InteriorLink, xb) == Fail(ForbiddenAdjacency)
    ensures DefaultVerdict(InteriorLink, xa, SideLink, xb) == Fail(ForbiddenAdjacency)
    ensures ExplicitVerdict(SideLink, xa, pa, InteriorLink, xb, pb, weight) == Fail(ForbiddenAdjacency)
    ensures ExplicitVerdict(InteriorLink, xa, pa, SideLink, xb, pb, weight) == Fail(ForbiddenAdjacency)
  {
  }

  /** Explicit connect judges a pair the same way whichever endpoint is passed first. */
  lemma {:induction false} ExplicitVerdictOrderFree(ka: Kind, xa: int, pa: Port, kb: Kind, xb: int, pb: Port, weight: int)
    ensures ExplicitVerdict(ka, xa, pa, kb, xb, pb, weight) == ExplicitVerdict(kb, xb, pb, ka, xa, pa, weight)
  {
  }

  /**
   * Only a link meeting a node is policed by the tables: any other pair that passes the s-i
   * ban and has a positive weight is accepted.
   */
  lemma {:induction false} OnlyLinkNodePairsPoliced(ka: Kind, xa: int, pa: Port, kb: Kind, xb: int, pb: Port, weight: int)
    requires !((ka == SideLink || ka == InteriorLink) && kb == Node)
    requires !((kb == SideLink || kb == InteriorLink) && ka == Node)
    requires !Forbidden(ka, kb) && weight > 0
    ensures ExplicitVerdict(ka, xa, pa, kb, xb, pb, weight) == Pass
  {
  }

  /**
   * A side-link/node pair is accepted exactly when neither side-node table bans it, with the
   * link's port and the node's port matched to the right roles in either argument order.
   */
  lemma {:induction false} SideNodeVerdict(xs: int, ps: Port, xn: int, pn: Port, weight: int)
    requires weight > 0
    ensures ExplicitVerdict(SideLink, xs, ps, Node, xn, pn, weight).Pass? <==> !SideBanned(xs, xn, ps, pn)
    ensures ExplicitVerdict(Node, xn, pn, SideLink, xs, ps, weight).Pass? <==> !SideBanned(xs, xn, ps, pn)
  {
  }

  /** The same for an interior-link/node pair and the two interior tables. */
  lemma {:induction false} InteriorNodeVerdict(xi: int, pi: Port, xn: int, pn: Port, weight: int)
    requires weight > 0
    ensures ExplicitVerdict(InteriorLink, xi, pi, Node, xn, pn, weight).Pass?
      <==> !IsBannedPairIN(xi, xn) && !IsBannedPortPairIN(xi, xn, pi, pn)
    ensures ExplicitVerdict(Node, xn, pn, InteriorLink, xi, pi, weight).Pass?
      <==> !IsBannedPairIN(xi, xn) && !IsBannedPortPairIN(xi, xn, pi, pn)
  {
  }

  /** Side link 11 cannot be glued to node 9, in either argument order. */
  lemma SideLink11RejectsNode9()
    ensures DefaultVerdict(SideLink, 11, Node, 9) == Fail(PortingRule)
    ensures DefaultVerdict(Node, 9, SideLink, 11) == Fail(PortingRule)
  {
  }

  // ---------------------------------------------------------------- composition

  predicate EdgesInRange(n: nat, edges: seq<Edge>)
  {
    forall k :: 0 <= k < |edges| ==> edges[k].u < n && edges[k].v < n
  }

  /** Both ports of the edge name a row inside their block's local form. */
  predicate Resolves(forms: seq<Matrix>, e: Edge)
    requires e.u < |forms| && e.v < |forms|
  {
    var iu := PickPortIndex(forms[e.u], e.pu);
    var iv := PickPortIndex(forms[e.v], e.pv);
    !(iu < 0 || iv < 0 || iu >= |forms[e.u]| || iv >= |forms[e.v]|)
  }

  /** Global row of the edge's u-port. */
  function CellU(forms: seq<Matrix>, e: Edge): nat
    requires e.u < |forms| && e.v < |forms| && Resolves(forms, e)
  {
    Offset(forms, e.u) + PickPortIndex(forms[e.u], e.pu)
  }

  /** Global row of the edge's v-port. */
  function CellV(forms: seq<Matrix>, e: Edge): nat
    requires e.u < |forms| && e.v < |forms| && Resolves(forms, e)
  {
    Offset(forms, e.v) + PickPortIndex(forms[e.v], e.pv)
  }

  lemma {:induction false} CellsInRange(forms: seq<Matrix>, e: Edge)
    requires e.u < |forms| && e.v < |forms| && Resolves(forms, e)
    ensures CellU(forms, e) < Dim(forms) && CellV(forms, e) < Dim(forms)
  {
    OffsetMonotone(forms, e.u + 1, |forms|);
    OffsetMonotone(forms, e.v + 1, |forms|);
  }

  function Bump(g: Matrix, i: nat, j: nat, w: int): Matrix
    requires i < |g| && j < |g[i]|
  {
    g[i := g[i][j := g[i][j] + w]]
  }

  /** G(I,J) += w; G(J,I) += w for one edge, or nothing when a port does not resolve. */
  function GlueEdge(g: Matrix, forms: seq<Matrix>, e: Edge): (r: Matrix)
    requires IsSquare(g, Dim(forms)) && e.u < |forms| && e.v < |forms|
    ensures IsSquare(r, Dim(forms))
  {
    if !Resolves(forms, e) then g
    else
      CellsInRange(forms, e);
      var i, j := CellU(forms, e), CellV(forms, e);
      Bump(Bump(g, i, j, e.w), j, i, e.w)
  }

  /** The edges glued in list order onto g. */
  function ApplyEdges(g: Matrix, forms: seq<Matrix>, edges: seq<Edge>): (r: Matrix)
    requires IsSquare(g, Dim(forms)) && EdgesInRange(|forms|, edges)
    ensures IsSquare(r, Dim(forms))
    decreases |edges|
  {
    if |edges| == 0 then g
    else GlueEdge(ApplyEdges(g, forms, edges[..|edges| - 1]), forms, edges[|edges| - 1])
  }

  /** The intersection form of a graph: local forms on the diagonal, then every edge glued. */
  function Compose(forms: seq<Matrix>, edges: seq<Edge>): (m: Matrix)
    requires AllSquare(forms) && EdgesInRange(|forms|, edges)
    ensures IsSquare(m, Dim(forms))
  {
    ApplyEdges(BlockDiag(forms), forms, edges)
  }

  /** What one edge adds at cell (a, b): w at its cell, w at the mirror cell. */
  function Contribution(forms: seq<Matrix>, e: Edge, a: nat, b: nat): int
    requires e.u < |forms| && e.v < |forms|
  {
    if !Resolves(forms, e) then 0
    else
      var i, j := CellU(forms, e), CellV(forms, e);
      (if a == i && b == j then e.w else 0) + (if a == j && b == i then e.w else 0)
  }

  /** Total weight the edges add at cell (a, b). */
  function EdgeSum(forms: seq<Matrix>, edges: seq<Edge>, a: nat, b: nat): int
    requires EdgesInRange(|forms|, edges)
    decreases |edges|
  {
    if |edges| == 0 then 0
    else EdgeSum(forms, edges[..|edges| - 1], a, b) + Contribution(forms, edges[|edges| - 1], a, b)
  }

  lemma {:induction false} GlueEdgeEntry(g: Matrix, forms: seq<Matrix>, e: Edge, a: nat, b: nat)
    requires IsSquare(g, Dim(forms)) && e.u < |forms| && e.v < |forms| && a < Dim(forms) && b < Dim(forms)
    ensures GlueEdge(g, forms, e)[a][b] == g[a][b] + Contribution(forms, e, a, b)
  {
    if Resolves(forms, e) {
      CellsInRange(forms, e);
    }
  }

  lemma {:induction false} ApplyEdgesEntry(g: Matrix, forms: seq<Matrix>, edges: seq<Edge>, a: nat, b: nat)
    requires IsSquare(g, Dim(forms)) && EdgesInRange(|forms|, edges) && a < Dim(forms) && b < Dim(forms)
    ensures ApplyEdges(g, forms, edges)[a][b] == g[a][b] + EdgeSum(forms, edges, a, b)
    decreases |edges|
  {
    if |edges| > 0 {
      ApplyEdgesEntry(g, forms, edges[..|edges| - 1], a, b);
      GlueEdgeEntry(ApplyEdges(g, forms, edges[..|edges| - 1]), forms, edges[|edges| - 1], a, b);
    }
  }

  /**
   * Every entry of the composed form is the block-diagonal entry plus the weights of the
   * edges whose resolved cell, or its mirror, is that entry.
   */
  lemma {:induction false} ComposeEntry(forms: seq<Matrix>, edges: seq<Edge>, a: nat, b: nat)
    requires AllSquare(forms) && EdgesInRange(|forms|, edges) && a < Dim(forms) && b < Dim(forms)
    ensures Compose(forms, edges)[a][b] == BlockDiag(forms)[a][b] + EdgeSum(forms, edges, a, b)
  {
    ApplyEdgesEntry(BlockDiag(forms), forms, edges, a, b);
  }

  lemma {:induction false} EdgeSumSymmetric(forms: seq<Matrix>, edges: seq<Edge>, a: nat, b: nat)
    requires EdgesInRange(|forms|, edges)
    ensures EdgeSum(forms, edges, a, b) == EdgeSum(forms, edges, b, a)
    decreases |edges|
  {
    if |edges| > 0 {
      EdgeSumSymmetric(forms, edges[..|edges| - 1], a, b);
    }
  }

  /** The composed form is symmetric whenever every local form is. */
  lemma {:induction false} ComposeSymmetric(forms: seq<Matrix>, edges: seq<Edge>)
    requires AllSquare(forms) && AllSymmetric(forms) && EdgesInRange(|forms|, edges)
    ensures Symmetric(Compose(forms, edges))
  {
    var m := Compose(forms, edges);
    BlockDiagSymmetric(forms);
    forall a, b | 0 <= a < |m| && 0 <= b < |m| ensures m[a][b] == m[b][a] {
      ComposeEntry(forms, edges, a, b);
      ComposeEntry(forms, edges, b, a);
      EdgeSumSymmetric(forms, edges, a, b);
    }
  }

  /** Without edges the composed form is the block-diagonal sum of the local forms. */
  lemma {:induction false} ComposeWithoutEdges(forms: seq<Matrix>)
    requires AllSquare(forms)
    ensures Compose(forms, []) == BlockDiag(forms)
    ensures |Compose(forms, [])| == Dim(forms)
  {
  }

  /** An edge whose port does not resolve (an empty local form) leaves the form unchanged. */
  lemma {:induction false} UnresolvedEdgeNoOp(forms: seq<Matrix>, edges: seq<Edge>, e: Edge)
    requires AllSquare(forms) && EdgesInRange(|forms|, edges) && e.u < |forms| && e.v < |forms|
    requires |forms[e.u]| == 0 || |forms[e.v]| == 0
    ensures EdgesInRange(|forms|, edges + [e])
    ensures Compose(forms, edges + [e]) == Compose(forms, edges)
  {
    assert (edges + [e])[..|edges|] == edges;
  }

  lemma TwoUnitDiag()
    ensures BlockDiag([[[-1]], [[-1]]]) == [[-1, 0], [0, -1]]
  {
    var forms: seq<Matrix> := [[[-1]], [[-1]]];
    assert Offset(forms, 1) == 1 && Dim(forms) == 2;
    var d := BlockDiag(forms);
    BlockDiagAt(forms, 0, 0, 0);
    BlockDiagAt(forms, 1, 0, 0);
    BlockDiagOffBlocks(forms, 0, 1);
    BlockDiagOffBlocks(forms, 1, 0);
    assert d[0] == [-1, 0];
    assert d[1] == [0, -1];
  }

  /** Two nodes n(1) glued with the default ports and weight compose to [[-1,1],[1,-1]]. */
  lemma TwoUnitNodesGlued()
    ensures AllSquare([[[-1]], [[-1]]]) && EdgesInRange(2, [Edge(0, 1, Right, Left, 1)])
    ensures Compose([[[-1]], [[-1]]], [Edge(0, 1, Right, Left, 1)]) == [[-1, 1], [1, -1]]
  {
    var forms: seq<Matrix> := [[[-1]], [[-1]]];
    var e := Edge(0, 1, Right, Left, 1);
    assert Offset(forms, 1) == 1 && Dim(forms) == 2;
    TwoUnitDiag();
    var d := BlockDiag(forms);
    assert [e][..0] == [];
    assert ApplyEdges(d, forms, [e]) == GlueEdge(d, forms, e);
    assert Resolves(forms, e) && CellU(forms, e) == 0 && CellV(forms, e) == 1;
    assert d == [[-1, 0], [0, -1]];
    assert d[0][1] == 0 && d[1][0] == 0;
    var g1 := Bump(d, 0, 1, 1);
    assert g1[0] == [-1, 1] && g1[1] == [0, -1];
    assert g1 == [[-1, 1], [0, -1]];
    var g2 := Bump(g1, 1, 0, 1);
    assert g2[0] == [-1, 1] && g2[1] == [1, -1];
    assert GlueEdge(d, forms, e) == g2 == [[-1, 1], [1, -1]];
  }

  // ---------------------------------------------------------------- building a graph from specs

  function FormsOf(lf: LocalForm, specs: seq<Spec>): (fs: seq<Matrix>)
    ensures |fs| == |specs|
  {
    seq(|specs|, (k: int) requires 0 <= k < |specs| => lf(specs[k]))
  }

  function KindsOf(specs: seq<Spec>): (ks: seq<Kind>)
    ensures |ks| == |specs|
  {
    seq(|specs|, (k: int) requires 0 <= k < |specs| => specs[k].kind)
  }

  function ParamsOf(specs: seq<Spec>): (ps: seq<int>)
    ensures |ps| == |specs|
  {
    seq(|specs|, (k: int) requires 0 <= k < |specs| => specs[k].param)
  }

  predicate GluesInRange(n: nat, glues: seq<Glue>)
  {
    forall k :: 0 <= k < |glues| ==> glues[k].a < n && glues[k].b < n
  }

  /** Every requested default gluing passes connect's checks. */
  predicate AllAccepted(specs: seq<Spec>, glues: seq<Glue>)
    requires GluesInRange(|specs|, glues)
  {
    forall k :: 0 <= k < |glues| ==>
      DefaultVerdict(specs[glues[k].a].kind, specs[glues[k].a].param,
                     specs[glues[k].b].kind, specs[glues[k].b].param) == Pass
  }

  function DefaultEdges(glues: seq<Glue>): (es: seq<Edge>)
    ensures |es| == |glues|
  {
    seq(|glues|, (k: int) requires 0 <= k < |glues| => Edge(glues[k].a, glues[k].b, Right, Left, 1))
  }

  /**
   * The intersection form of the graph that adds specs in order and then connects each
   * request with default ports, or None when an add or a connect throws.
   */
  function GraphForm(lf: LocalForm, specs: seq<Spec>, glues: seq<Glue>): Option<Matrix>
    requires WellFormedBuilder(lf) && GluesInRange(|specs|, glues)
  {
    if !AllBuild(specs) || !AllAccepted(specs, glues) then None
    else
      assert AllSquare(FormsOf(lf, specs));
      Some(Compose(FormsOf(lf, specs), DefaultEdges(glues)))
  }

  /** With symmetric local forms, the composed intersection form is symmetric. */
  lemma {:induction false} GraphFormSymmetric(lf: LocalForm, specs: seq<Spec>, glues: seq<Glue>)
    requires WellFormedBuilder(lf) && SymmetricBuilder(lf) && GluesInRange(|specs|, glues)
    ensures GraphForm(lf, specs, glues).Some? ==> Symmetric(GraphForm(lf, specs, glues).value)
  {
    if GraphForm(lf, specs, glues).Some? {
      var fs := FormsOf(lf, specs);
      assert AllSymmetric(fs) by {
        forall k | 0 <= k < |fs| ensures Square(fs[k]) && Symmetric(fs[k]) {
          assert fs[k] == lf(specs[k]);
        }
      }
      ComposeSymmetric(fs, DefaultEdges(glues));
    }
  }

  // ---------------------------------------------------------------- the graph object

  class TheoryGraph {
    const lf: LocalForm
    var forms: seq<Matrix>
    var kinds: seq<Kind>
    var params: seq<int>
    var edges: seq<Edge>

    ghost predicate Valid()
      reads this
    {
      && WellFormedBuilder(lf)
      && |forms| == |kinds| == |params|
      && (forall k :: 0 <= k < |forms| ==> forms[k] == lf(Spec(kinds[k], params[k])))
      && (forall k :: 0 <= k < |forms| ==> !BuildThrows(Spec(kinds[k], params[k])))
      && EdgesInRange(|forms|, edges)
      && (forall k :: 0 <= k < |edges| ==> edges[k].w > 0)
    }

    lemma FormsSquare()
      requires Valid()
      ensures AllSquare(forms)
    {
      forall k | 0 <= k < |forms| ensures Square(forms[k]) {
        assert forms[k] == lf(Spec(kinds[k], params[k]));
      }
    }

    constructor (lf: LocalForm)
      requires WellFormedBuilder(lf)
      ensures Valid() && this.lf == lf
      ensures forms == [] && kinds == [] && params == [] && edges == []
    {
      this.lf := lf;
      forms, kinds, params, edges := [], [], [], [];
    }

    /** add: ids are handed out in order; a throwing build leaves the graph unchanged. */
    method Add(sp: Spec) returns (r: Result<nat>)
      requires Valid()
      modifies this
      ensures Valid() && edges == old(edges)
      ensures BuildThrows(sp) ==> r == Err(InteriorParamDigits)
      ensures BuildThrows(sp) ==> forms == old(forms) && kinds == old(kinds) && params == old(params)
      ensures !BuildThrows(sp) ==> r == Ok(|old(forms)|)
      ensures !BuildThrows(sp) ==> forms == old(forms) + [lf(sp)]
      ensures !BuildThrows(sp) ==> kinds == old(kinds) + [sp.kind] && params == old(params) + [sp.param]
    {
      if BuildThrows(sp) {
        return Err(InteriorParamDigits);
      }
      var id := |forms|;
      forms := forms + [lf(sp)];
      kinds := kinds + [sp.kind];
      params := params + [sp.param];
      r := Ok(id);
    }

    /** The side-node and interior-node checks, with roles found in either order. */
    method CheckRoles(a: nat, pa: Port, b: nat, pb: Port) returns (r: Outcome)
      requires Valid() && a < |kinds| && b < |kinds|
      ensures r == RoleRules(kinds[a], params[a], pa, kinds[b], params[b], pb)
    {
      var sideIdx, nodeIdx, sideP, nodeP := -1, -1, pa, pb;
      if kinds[a] == SideLink && kinds[b] == Node {
        sideIdx, nodeIdx, sideP, nodeP := a, b, pa, pb;
      } else if kinds[b] == SideLink && kinds[a] == Node {
        sideIdx, nodeIdx, sideP, nodeP := b, a, pb, pa;
      }
      if sideIdx != -1 {
        var sideParam, nodeParam := params[sideIdx], params[nodeIdx];
        if IsBannedPair(sideParam, nodeParam) || IsBannedPortPair(sideParam, nodeParam, sideP, nodeP) {
          return Fail(PortingRule);
        }
      }
      var inIdx, nIdx, iP, nP := -1, -1, pa, pb;
      if kinds[a] == InteriorLink && kinds[b] == Node {
        inIdx, nIdx, iP, nP := a, b, pa, pb;
      } else if kinds[b] == InteriorLink && kinds[a] == Node {
        inIdx, nIdx, iP, nP := b, a, pb, pa;
      }
      if inIdx != -1 {
        var iParam, nParam := params[inIdx], params[nIdx];
        if IsBannedPairIN(iParam, nParam) {
          return Fail(InteriorNodeRule);
        }
        if IsBannedPortPairIN(iParam, nParam, iP, nP) {
          return Fail(InteriorNodePortRule);
        }
      }
      return Pass;
    }

    /** connect(a, b): on success exactly one edge {a, b, Right, Left, 1} is appended. */
    method Connect(a: nat, b: nat) returns (r: Outcome)
      requires Valid() && a < |kinds| && b < |kinds|
      modifies this
      ensures Valid() && forms == old(forms) && kinds == old(kinds) && params == old(params)
      ensures r == DefaultVerdict(kinds[a], params[a], kinds[b], params[b])
      ensures r.Pass? ==> edges == old(edges) + [Edge(a, b, Right, Left, 1)]
      ensures r.Fail? ==> edges == old(edges)
    {
      if Forbidden(kinds[a], kinds[b]) {
        return Fail(ForbiddenAdjacency);
      }
      r := CheckRoles(a, Right, b, Left);
      if r.Fail? {
        return;
      }
      edges := edges + [Edge(a, b, Right, Left, 1)];
    }

    /** connect(a, pa, b, pb, weight): on success exactly {a, b, pa, pb, weight} is appended. */
    method ConnectPorts(a: nat, pa: Port, b: nat, pb: Port, weight: int) returns (r: Outcome)
      requires Valid() && a < |kinds| && b < |kinds|
      modifies this
      ensures Valid() && forms == old(forms) && kinds == old(kinds) && params == old(params)
      ensures r == ExplicitVerdict(kinds[a], params[a], pa, kinds[b], params[b], pb, weight)
      ensures r.Pass? ==> edges == old(edges) + [Edge(a, b, pa, pb, weight)]
      ensures r.Fail? ==> edges == old(edges)
    {
      if Forbidden(kinds[a], kinds[b]) {
        return Fail(ForbiddenAdjacency);
      }
      if weight <= 0 {
        return Fail(NonPositiveWeight);
      }
      r := CheckRoles(a, pa, b, pb);
      if r.Fail? {
        return;
      }
      edges := edges + [Edge(a, b, pa, pb, weight)];
    }

    /** ComposeIF_Gluing: block diagonal, prefix offsets, then +w at each edge's cell and mirror. */
    method ComposeIFGluing() returns (g: Matrix)
      requires Valid()
      ensures AllSquare(forms) && g == Compose(forms, edges)
    {
      FormsSquare();
      g := ComposeOf(forms, edges);
    }
  }

  /** The body of ComposeIF_Gluing over the graph's current forms and edges. */
  method ComposeOf(forms: seq<Matrix>, edges: seq<Edge>) returns (g: Matrix)
    requires AllSquare(forms) && EdgesInRange(|forms|, edges)
    ensures g == Compose(forms, edges)
  {
    var n := |forms|;
    if n == 0 {
      return [];
    }
    var sz := [];
    for k := 0 to n
      invariant |sz| == k && forall t :: 0 <= t < k ==> sz[t] == |forms[t]|
    {
      sz := sz + [|forms[k]|];
    }
    g := BlockDiagOf(forms);
    var off := [0];
    for i := 0 to n
      invariant |off| == i + 1 && forall t :: 0 <= t <= i ==> off[t] == Offset(forms, t)
    {
      off := off + [off[i] + sz[i]];
    }
    for k := 0 to |edges|
      invariant g == ApplyEdges(BlockDiag(forms), forms, edges[..k])
    {
      assert edges[..k + 1][..k] == edges[..k];
      g := GlueOne(g, forms, off, sz, edges[k]);
    }
    assert edges[..|edges|] == edges;
  }

  /** One edge of ComposeIF_Gluing: skipped when a port index falls outside its block. */
  method GlueOne(g: Matrix, forms: seq<Matrix>, off: seq<nat>, sz: seq<nat>, e: Edge) returns (r: Matrix)
    requires IsSquare(g, Dim(forms)) && e.u < |forms| && e.v < |forms|
    requires |off| == |forms| + 1 && forall t :: 0 <= t <= |forms| ==> off[t] == Offset(forms, t)
    requires |sz| == |forms| && forall t :: 0 <= t < |forms| ==> sz[t] == |forms[t]|
    ensures r == GlueEdge(g, forms, e)
  {
    var iu := PickPortIndex(forms[e.u], e.pu);
    var iv := PickPortIndex(forms[e.v], e.pv);
    if iu < 0 || iv < 0 || iu >= sz[e.u] || iv >= sz[e.v] {
      return g;
    }
    CellsInRange(forms, e);
    var i, j := off[e.u] + iu, off[e.v] + iv;
    r := g[i := g[i][j := g[i][j] + e.w]];
    r := r[j := r[j][i := r[j][i] + e.w]];
  }

  /** Adds specs one by one; Pass exactly when no build throws. */
  method AddAll(g: TheoryGraph, specs: seq<Spec>) returns (r: Outcome)
    requires g.Valid()
    modifies g
    ensures g.Valid()
    ensures r.Pass? <==> AllBuild(specs)
    ensures r.Pass? ==> g.forms == old(g.forms) + FormsOf(g.lf, specs)
    ensures r.Pass? ==> g.kinds == old(g.kinds) + KindsOf(specs) && g.params == old(g.params) + ParamsOf(specs)
    ensures r.Pass? ==> g.edges == old(g.edges)
  {
    for k := 0 to |specs|
      invariant g.Valid()
      invariant AllBuild(specs[..k])
      invariant g.forms == old(g.forms) + FormsOf(g.lf, specs[..k])
      invariant g.kinds == old(g.kinds) + KindsOf(specs[..k])
      invariant g.params == old(g.params) + ParamsOf(specs[..k])
      invariant g.edges == old(g.edges)
    {
      var id := g.Add(specs[k]);
      if id.Err? {
        return Fail(id.error);
      }
      assert specs[..k + 1] == specs[..k] + [specs[k]];
    }
    assert specs[..|specs|] == specs;
    return Pass;
  }

  /** Connects each request with default ports, stopping at the first rejection. */
  method ConnectAll(g: TheoryGraph, specs: seq<Spec>, glues: seq<Glue>) returns (r: Outcome)
    requires g.Valid() && g.kinds == KindsOf(specs) && g.params == ParamsOf(specs)
    requires GluesInRange(|specs|, glues)
    modifies g
    ensures g.Valid() && g.forms == old(g.forms) && g.kinds == old(g.kinds) && g.params == old(g.params)
    ensures r.Pass? <==> AllAccepted(specs, glues)
    ensures r.Pass? ==> g.edges == old(g.edges) + DefaultEdges(glues)
  {
    for k := 0 to |glues|
      invariant g.Valid() && g.forms == old(g.forms) && g.kinds == old(g.kinds) && g.params == old(g.params)
      invariant AllAccepted(specs, glues[..k])
      invariant g.edges == old(g.edges) + DefaultEdges(glues[..k])
    {
      var a, b := glues[k].a, glues[k].b;
      assert g.kinds[a] == specs[a].kind && g.params[a] == specs[a].param;
      assert g.kinds[b] == specs[b].kind && g.params[b] == specs[b].param;
      r := g.Connect(a, b);
      if r.Fail? {
        return;
      }
      assert glues[..k + 1] == glues[..k] + [glues[k]];
      assert DefaultEdges(glues[..k + 1]) == DefaultEdges(glues[..k]) + [Edge(glues[k].a, glues[k].b, Right, Left, 1)];
    }
    assert glues[..|glues|] == glues;
    return Pass;
  }
}
