/**
 * The classifier: rebuild a TheoryGraph from a stored topology, compose its intersection
 * form once, and append the form as text to the SCFT or LST batch buffer, flushing the
 * buffers to their files every 2000 processed records.
 */
module ClassifyTopology {
  import opened Matrices
  import opened Text
  import opened Kinds
  import opened Gluing
  import opened Topologies

  // ---------------------------------------------------------------- the default chain

  /** The pairs (i-1, i) for i = 1 .. n-1: each block glued to the next one. */
  function DefaultChain(n: nat): (r: seq<Link>)
    ensures |r| == if n <= 1 then 0 else n - 1
    ensures forall k :: 0 <= k < |r| ==> r[k] == Link(k, k + 1)
    decreases n
  {
    if n <= 1 then [] else DefaultChain(n - 1) + [Link(n - 2, n - 1)]
  }

  /**
   * The chain the classifier glues: l_connection when it has entries; otherwise each block
   * glued to the next one.
   */
  function LinearChain(t: Topology): (r: seq<Link>)
    ensures |t.lConn| > 0 ==> r == t.lConn
    ensures |t.lConn| == 0 ==> |r| == (if |t.blocks| <= 1 then 0 else |t.blocks| - 1)
    ensures |t.lConn| == 0 ==> forall k :: 0 <= k < |r| ==> r[k] == Link(k, k + 1)
  {
    if |t.lConn| > 0 then t.lConn else DefaultChain(|t.blocks|)
  }

  /**
   * ensure_linear_chain: replaces the output by l_connection when that is non-empty;
   * otherwise appends the default chain, which is nothing for at most one block.
   */
  method EnsureLinearChain(t: Topology, outChain: seq<Link>) returns (chain: seq<Link>)
    ensures |t.lConn| > 0 ==> chain == t.lConn
    ensures |t.lConn| == 0 ==> chain == outChain + DefaultChain(|t.blocks|)
  {
    if |t.lConn| > 0 {
      return t.lConn;
    }
    var n := |t.blocks|;
    chain := outChain;
    if n <= 1 {
      return;
    }
    for i := 1 to n
      invariant chain == outChain + DefaultChain(i)
    {
      chain := chain + [Link(i - 1, i)];
    }
  }

  /** The default chain links every consecutive pair of blocks and nothing else. */
  lemma {:induction false} DefaultChainLinks(n: nat, c: Link)
    ensures c in DefaultChain(n) <==> 0 <= c.u && c.v == c.u + 1 && c.v < n
  {
    var r := DefaultChain(n);
    if 0 <= c.u && c.v == c.u + 1 && c.v < n {
      assert r[c.u] == c;
    }
  }

  // ---------------------------------------------------------------- matrix text

  /** One row: the entries in decimal, separated by single blanks. */
  function RowText(row: seq<int>): (s: string)
    ensures |s| == 0 <==> |row| == 0
    ensures '\n' !in s
    decreases |row|
  {
    if |row| == 0 then ""
    else if |row| == 1 then
      IntToStringNoSeparators(row[0]);
      IntToString(row[0])
    else
      IntToStringNoSeparators(row[|row| - 1]);
      RowText(row[..|row| - 1]) + " " + IntToString(row[|row| - 1])
  }

  /** Every row's text followed by a line break. */
  function RowsText(m: Matrix): (s: string)
    ensures |s| >= |m|
    decreases |m|
  {
    if |m| == 0 then "" else RowsText(m[..|m| - 1]) + RowText(m[|m| - 1]) + "\n"
  }

  /**
   * The text append_matrix_txt_batch writes for one matrix: its rows, then a blank line; it is
   * at least one character per row plus the closing line break.
   */
  function MatrixText(m: Matrix): (s: string)
    ensures |s| > |m| && s[|s| - 1] == '\n'
  {
    RowsText(m) + "\n"
  }

  /** The decimal texts of the entries of a row. */
  function Texts(row: seq<int>): (r: seq<string>)
    ensures |r| == |row|
  {
    seq(|row|, (k: int) requires 0 <= k < |row| => IntToString(row[k]))
  }

  function RowTexts(m: Matrix): (r: seq<string>)
    ensures |r| == |m|
  {
    seq(|m|, (k: int) requires 0 <= k < |m| => RowText(m[k]))
  }

  /** A reader's view of the text: the pieces between separator characters. */
  function Split(s: string, c: char): (r: seq<string>)
    ensures |r| >= 1
    ensures forall k :: 0 <= k < |r| ==> c !in r[k]
    decreases |s|
  {
    if |s| == 0 then [""]
    else
      var rest := Split(s[1..], c);
      if s[0] == c then [""] + rest
      else
        assert c !in [s[0]] + rest[0];
        [[s[0]] + rest[0]] + rest[1..]
  }

  lemma {:induction false} SplitNoSeparator(a: string, c: char)
    requires c !in a
    ensures Split(a, c) == [a]
    decreases |a|
  {
    if |a| > 0 {
      SplitNoSeparator(a[1..], c);
      assert [a[0]] + a[1..] == a;
    }
  }

  /** Splitting at a last separator: the pieces before it, then what follows. */
  lemma {:induction false} SplitSnoc(a: string, c: char, b: string)
    requires c !in b
    ensures Split(a + [c] + b, c) == Split(a, c) + [b]
    decreases |a|
  {
    var s := a + [c] + b;
    if |a| == 0 {
      assert s[1..] == b;
      SplitNoSeparator(b, c);
    } else {
      assert s[1..] == a[1..] + [c] + b;
      SplitSnoc(a[1..], c, b);
    }
  }

  lemma {:induction false} RowTextSnoc(row: seq<int>)
    requires |row| >= 2
    ensures RowText(row) == RowText(row[..|row| - 1]) + [' '] + IntToString(row[|row| - 1])
  {
  }

  lemma {:induction false} TextsSnoc(row: seq<int>)
    requires |row| >= 1
    ensures Texts(row) == Texts(row[..|row| - 1]) + [IntToString(row[|row| - 1])]
  {
  }

  /** A row's text splits at its blanks into the texts of its entries. */
  lemma {:induction false} RowTextSplit(row: seq<int>)
    requires |row| > 0
    ensures Split(RowText(row), ' ') == Texts(row)
    decreases |row|
  {
    IntToStringNoSeparators(row[|row| - 1]);
    if |row| == 1 {
      SplitNoSeparator(IntToString(row[0]), ' ');
    } else {
      var init, b := row[..|row| - 1], IntToString(row[|row| - 1]);
      RowTextSplit(init);
      RowTextSnoc(row);
      SplitSnoc(RowText(init), ' ', b);
      TextsSnoc(row);
    }
  }

  lemma {:induction false} RowsTextSplit(m: Matrix, b: string)
    requires '\n' !in b
    ensures Split(RowsText(m) + b, '\n') == RowTexts(m) + [b]
    decreases |m|
  {
    if |m| == 0 {
      assert RowsText(m) + b == b;
      SplitNoSeparator(b, '\n');
    } else {
      var init, last := m[..|m| - 1], m[|m| - 1];
      RowsTextSplit(init, RowText(last));
      assert RowsText(m) + b == (RowsText(init) + RowText(last)) + ['\n'] + b;
      SplitSnoc(RowsText(init) + RowText(last), '\n', b);
      RowTextsSnoc(m);
    }
  }

  lemma {:induction false} RowTextsSnoc(m: Matrix)
    requires |m| >= 1
    ensures RowTexts(m) == RowTexts(m[..|m| - 1]) + [RowText(m[|m| - 1])]
  {
    var a, b := RowTexts(m), RowTexts(m[..|m| - 1]) + [RowText(m[|m| - 1])];
    forall k | 0 <= k < |m| ensures a[k] == b[k] {
      if k < |m| - 1 {
        assert m[..|m| - 1][k] == m[k];
      }
    }
  }

  /** The matrix text splits at line breaks into one line per row and two empty pieces. */
  lemma {:induction false} MatrixTextLines(m: Matrix)
    ensures Split(MatrixText(m), '\n') == RowTexts(m) + ["", ""]
  {
    RowsTextSplit(m, "");
    assert RowsText(m) + "" == RowsText(m);
    SplitSnoc(RowsText(m), '\n', "");
    assert MatrixText(m) == RowsText(m) + ['\n'] + "";
  }

  /** A row is recovered from its text. */
  lemma {:induction false} RowTextInjective(r1: seq<int>, r2: seq<int>)
    ensures RowText(r1) == RowText(r2) ==> r1 == r2
  {
    if RowText(r1) == RowText(r2) && |r1| > 0 {
      RowTextSplit(r1);
      RowTextSplit(r2);
      assert Texts(r1) == Texts(r2);
      forall k | 0 <= k < |r1| ensures r1[k] == r2[k] {
        assert Texts(r1)[k] == Texts(r2)[k];
        IntToStringInjective(r1[k], r2[k]);
      }
    }
  }

  /** A matrix is recovered from the text append_matrix_txt_batch writes for it. */
  lemma {:induction false} MatrixTextInjective(m1: Matrix, m2: Matrix)
    ensures MatrixText(m1) == MatrixText(m2) ==> m1 == m2
  {
    if MatrixText(m1) == MatrixText(m2) {
      MatrixTextLines(m1);
      MatrixTextLines(m2);
      assert RowTexts(m1) + ["", ""] == RowTexts(m2) + ["", ""];
      assert |m1| == |m2|;
      forall k | 0 <= k < |m1| ensures m1[k] == m2[k] {
        assert (RowTexts(m1) + ["", ""])[k] == (RowTexts(m2) + ["", ""])[k];
        RowTextInjective(m1[k], m2[k]);
      }
    }
  }

  lemma {:induction false} RowsTextStep(buf: string, m: Matrix, i: nat, out: string, line: string)
    requires i < |m| && out == buf + RowsText(m[..i]) && line == "" + RowText(m[i])
    ensures out + line + "\n" == buf + RowsText(m[..i + 1])
  {
    var a, r := RowsText(m[..i]), RowText(m[i]);
    assert m[..i + 1][..i] == m[..i];
    assert RowsText(m[..i + 1]) == a + r + "\n";
    assert line == r;
    ConcatAssoc(buf, a, r);
    ConcatAssoc(buf, a + r, "\n");
  }

  /** append_matrix_txt_batch: appends the matrix text, keeping the buffer's contents as a prefix. */
  method AppendMatrixTxt(buf: string, m: Matrix) returns (out: string)
    ensures out == buf + MatrixText(m)
  {
    out := buf;
    for i := 0 to |m|
      invariant out == buf + RowsText(m[..i])
    {
      var line := AppendRowTxt("", m[i]);
      RowsTextStep(buf, m, i, out, line);
      out := out + line + "\n";
    }
    assert m[..|m|] == m;
    out := out + "\n";
  }

  /** The inner loop of append_matrix_txt_batch: a blank before every entry but the first. */
  method AppendRowTxt(buf: string, row: seq<int>) returns (out: string)
    ensures out == buf + RowText(row)
  {
    out := buf;
    for j := 0 to |row|
      invariant out == buf + RowText(row[..j])
    {
      var prefix := row[..j + 1];
      assert prefix[..j] == row[..j] && prefix[j] == row[j];
      if j > 0 {
        out := out + " ";
      }
      out := out + IntToString(row[j]);
    }
    assert row[..|row|] == row;
  }

  // ---------------------------------------------------------------- topology to graph

  /** Every chain pair names two blocks. */
  predicate ChainInRange(links: seq<Link>, nb: nat)
  {
    forall k :: 0 <= k < |links| ==> 0 <= links[k].u < nb && 0 <= links[k].v < nb
  }

  /** Every decoration pair names a block and one of count decorations. */
  predicate DecoInRange(links: seq<Link>, nb: nat, count: nat)
  {
    forall k :: 0 <= k < |links| ==> 0 <= links[k].u < nb && 0 <= links[k].v < count
  }

  /** No vector::at lookup of build_graph_from_topology is out of range. */
  predicate LinksInRange(t: Topology)
  {
    var nb, ns, ni := |t.blocks|, |t.sideLinks|, |t.instantons|;
    && ChainInRange(LinearChain(t), nb)
    && DecoInRange(t.sConn, nb, ns)
    && DecoInRange(t.iConn, nb, ni)
  }

  /** The classifier's connect requests: the chain, then side links, then instantons, decoration first. */
  function ClassifyGlues(t: Topology): (r: seq<Glue>)
    ensures GluesInRange(|GenSpecs(t)|, r)
  {
    var nb, ns, ni := |t.blocks|, |t.sideLinks|, |t.instantons|;
    ChainGlues(LinearChain(t), nb) + DecoGlues(t.sConn, nb, nb, ns) + DecoGlues(t.iConn, nb, nb + ns, ni)
  }

  /**
   * The form build_graph_from_topology and ComposeIF_Gluing produce, or None when either throws:
   * there is a form exactly when every lookup is in range, every spec builds and every connect
   * is accepted, and it is square over all the graph's local forms.
   */
  function ClassifyForm(lf: LocalForm, t: Topology): (r: Option<Matrix>)
    requires WellFormedBuilder(lf)
    ensures r.Some? <==> LinksInRange(t) && AllBuild(GenSpecs(t)) && AllAccepted(GenSpecs(t), ClassifyGlues(t))
    ensures r.Some? ==> IsSquare(r.value, Dim(FormsOf(lf, GenSpecs(t))))
  {
    if !LinksInRange(t) then None else GraphForm(lf, GenSpecs(t), ClassifyGlues(t))
  }

  /**
   * Without l_connection entries the classifier glues each block to the next one, so every
   * consecutive pair of blocks is requested.
   */
  lemma {:induction false} DefaultChainGlued(t: Topology, k: nat)
    requires |t.lConn| == 0 && k + 1 < |t.blocks|
    ensures Glue(k, k + 1) in ClassifyGlues(t)
    ensures ChainInRange(LinearChain(t), |t.blocks|)
  {
    var nb := |t.blocks|;
    DefaultChainLinks(nb, Link(k, k + 1));
    ChainGluesExactly(DefaultChain(nb), nb, Glue(k, k + 1));
  }

  /**
   * Where l_connection is filled in and every index is in range, the classifier and the
   * generator build the same graph; they differ only on out-of-range indices (skipped by
   * the generator, thrown by the classifier), on an empty l_connection, and on a topology
   * without blocks.
   */
  lemma {:induction false} BuildersAgree(env: Env, t: Topology)
    requires WellFormedBuilder(env.lf) && |t.blocks| > 0 && |t.lConn| > 0 && LinksInRange(t)
    ensures ClassifyForm(env.lf, t) == GraphOf(env, t)
  {
  }

  lemma {:induction false} AllAcceptedConcat(specs: seq<Spec>, a: seq<Glue>, b: seq<Glue>)
    requires GluesInRange(|specs|, a) && GluesInRange(|specs|, b)
    ensures GluesInRange(|specs|, a + b)
    ensures AllAccepted(specs, a + b) <==> AllAccepted(specs, a) && AllAccepted(specs, b)
  {
    var ab := a + b;
    if AllAccepted(specs, a) && AllAccepted(specs, b) {
      forall k | 0 <= k < |ab| ensures DefaultVerdict(specs[ab[k].a].kind, specs[ab[k].a].param,
                                                      specs[ab[k].b].kind, specs[ab[k].b].param) == Pass {
        if k >= |a| {
          assert ab[k] == b[k - |a|];
        }
      }
    }
    if AllAccepted(specs, ab) {
      forall k | 0 <= k < |a| ensures DefaultVerdict(specs[a[k].a].kind, specs[a[k].a].param,
                                                     specs[a[k].b].kind, specs[a[k].b].param) == Pass {
        assert ab[k] == a[k];
      }
      forall k | 0 <= k < |b| ensures DefaultVerdict(specs[b[k].a].kind, specs[b[k].a].param,
                                                     specs[b[k].b].kind, specs[b[k].b].param) == Pass {
        assert ab[|a| + k] == b[k];
      }
    }
  }

  lemma {:induction false} DefaultEdgesConcat(a: seq<Glue>, b: seq<Glue>)
    ensures DefaultEdges(a + b) == DefaultEdges(a) + DefaultEdges(b)
  {
  }

  lemma {:induction false} ChainGluesSnoc(links: seq<Link>, k: nat, nb: nat)
    requires k < |links| && 0 <= links[k].u < nb && 0 <= links[k].v < nb
    ensures ChainInRange(links[..k], nb) ==> ChainInRange(links[..k + 1], nb)
    ensures ChainGlues(links[..k + 1], nb) == ChainGlues(links[..k], nb) + [Glue(links[k].u, links[k].v)]
  {
    assert links[..k + 1][..k] == links[..k];
  }

  /** A chain pair in range whose default connection is refused makes the whole chain refused. */
  lemma {:induction false} ChainRejected(specs: seq<Spec>, links: seq<Link>, k: nat, nb: nat)
    requires nb <= |specs| && k < |links| && 0 <= links[k].u < nb && 0 <= links[k].v < nb
    requires DefaultVerdict(specs[links[k].u].kind, specs[links[k].u].param,
                            specs[links[k].v].kind, specs[links[k].v].param) != Pass
    ensures !AllAccepted(specs, ChainGlues(links, nb))
  {
    var glue := Glue(links[k].u, links[k].v);
    ChainGluesExactly(links, nb, glue);
    var all := ChainGlues(links, nb);
    var j :| 0 <= j < |all| && all[j] == glue;
  }

  /** One pass of the chain loop, on a pair already found in range: connect its two blocks. */
  method ConnectChainLink(g: TheoryGraph, specs: seq<Spec>, links: seq<Link>, k: nat, nb: nat) returns (r: Outcome)
    requires g.Valid() && g.kinds == KindsOf(specs) && g.params == ParamsOf(specs) && nb <= |specs|
    requires k < |links| && 0 <= links[k].u < nb && 0 <= links[k].v < nb
    requires ChainInRange(links[..k], nb) && AllAccepted(specs, ChainGlues(links[..k], nb))
    modifies g
    ensures g.Valid() && g.forms == old(g.forms) && g.kinds == old(g.kinds) && g.params == old(g.params)
    ensures r.Fail? ==> !AllAccepted(specs, ChainGlues(links, nb))
    ensures r.Pass? ==> ChainInRange(links[..k + 1], nb) && AllAccepted(specs, ChainGlues(links[..k + 1], nb))
    ensures DefaultEdges(ChainGlues(links[..k + 1], nb))
      == DefaultEdges(ChainGlues(links[..k], nb)) + [Edge(links[k].u, links[k].v, Right, Left, 1)]
    ensures r.Pass? ==> g.edges == old(g.edges) + [Edge(links[k].u, links[k].v, Right, Left, 1)]
  {
    var e := links[k];
    ChainGluesSnoc(links, k, nb);
    DefaultEdgesConcat(ChainGlues(links[..k], nb), [Glue(e.u, e.v)]);
    r := g.Connect(e.u, e.v);
    if r.Fail? {
      ChainRejected(specs, links, k, nb);
    }
  }

  /** The chain loop: each pair is looked up with vector::at (a bad index throws), then connected. */
  method ConnectChain(g: TheoryGraph, specs: seq<Spec>, links: seq<Link>, nb: nat) returns (r: Outcome)
    requires g.Valid() && g.kinds == KindsOf(specs) && g.params == ParamsOf(specs) && nb <= |specs|
    modifies g
    ensures g.Valid() && g.forms == old(g.forms) && g.kinds == old(g.kinds) && g.params == old(g.params)
    ensures GluesInRange(|specs|, ChainGlues(links, nb))
    ensures r.Pass? <==> ChainInRange(links, nb) && AllAccepted(specs, ChainGlues(links, nb))
    ensures r.Pass? ==> g.edges == old(g.edges) + DefaultEdges(ChainGlues(links, nb))
  {
    for k := 0 to |links|
      invariant g.Valid() && g.forms == old(g.forms) && g.kinds == old(g.kinds) && g.params == old(g.params)
      invariant ChainInRange(links[..k], nb) && AllAccepted(specs, ChainGlues(links[..k], nb))
      invariant g.edges == old(g.edges) + DefaultEdges(ChainGlues(links[..k], nb))
    {
      var e := links[k];
      if !(0 <= e.u < nb && 0 <= e.v < nb) {
        return Fail(IndexOutOfRange);
      }
      r := ConnectChainLink(g, specs, links, k, nb);
      if r.Fail? {
        return;
      }
      ConcatAssoc(old(g.edges), DefaultEdges(ChainGlues(links[..k], nb)), [Edge(e.u, e.v, Right, Left, 1)]);
    }
    assert links[..|links|] == links;
    return Pass;
  }

  lemma {:induction false} DecoGluesSnoc(links: seq<Link>, k: nat, nb: nat, base: nat, count: nat)
    requires nb <= base && k < |links| && 0 <= links[k].u < nb && 0 <= links[k].v < count
    ensures DecoInRange(links[..k], nb, count) ==> DecoInRange(links[..k + 1], nb, count)
    ensures DecoGlues(links[..k + 1], nb, base, count)
      == DecoGlues(links[..k], nb, base, count) + [Glue(base + links[k].v, links[k].u)]
  {
    assert links[..k + 1][..k] == links[..k];
  }

  /** A rejected decoration request is one of the requests, so not all of them are accepted. */
  lemma {:induction false} DecoRejected(specs: seq<Spec>, links: seq<Link>, k: nat, nb: nat, base: nat, count: nat)
    requires nb <= base && base + count <= |specs| && k < |links|
    requires 0 <= links[k].u < nb && 0 <= links[k].v < count
    requires DefaultVerdict(specs[base + links[k].v].kind, specs[base + links[k].v].param,
                            specs[links[k].u].kind, specs[links[k].u].param) != Pass
    ensures GluesInRange(|specs|, DecoGlues(links, nb, base, count))
    ensures !AllAccepted(specs, DecoGlues(links, nb, base, count))
  {
    var glue := Glue(base + links[k].v, links[k].u);
    DecoGluesExactly(links, nb, base, count, glue);
    var all := DecoGlues(links, nb, base, count);
    var j :| 0 <= j < |all| && all[j] == glue;
  }

  /** A decoration loop: connect(decoration, block), each index looked up with vector::at. */
  method ConnectDecorations(g: TheoryGraph, specs: seq<Spec>, links: seq<Link>, nb: nat, base: nat, count: nat)
    returns (r: Outcome)
    requires g.Valid() && g.kinds == KindsOf(specs) && g.params == ParamsOf(specs)
    requires nb <= base && base + count <= |specs|
    modifies g
    ensures g.Valid() && g.forms == old(g.forms) && g.kinds == old(g.kinds) && g.params == old(g.params)
    ensures GluesInRange(|specs|, DecoGlues(links, nb, base, count))
    ensures r.Pass? <==> DecoInRange(links, nb, count) && AllAccepted(specs, DecoGlues(links, nb, base, count))
    ensures r.Pass? ==> g.edges == old(g.edges) + DefaultEdges(DecoGlues(links, nb, base, count))
  {
    for k := 0 to |links|
      invariant g.Valid() && g.forms == old(g.forms) && g.kinds == old(g.kinds) && g.params == old(g.params)
      invariant DecoInRange(links[..k], nb, count) && AllAccepted(specs, DecoGlues(links[..k], nb, base, count))
      invariant g.edges == old(g.edges) + DefaultEdges(DecoGlues(links[..k], nb, base, count))
    {
      var e := links[k];
      if !(0 <= e.u < nb && 0 <= e.v < count) {
        return Fail(IndexOutOfRange);
      }
      r := ConnectDecoration(g, specs, links, k, nb, base, count);
      if r.Fail? {
        return;
      }
      ConcatAssoc(old(g.edges), DefaultEdges(DecoGlues(links[..k], nb, base, count)),
                  [Edge(base + e.v, e.u, Right, Left, 1)]);
    }
    assert links[..|links|] == links;
    return Pass;
  }

  /** One iteration of a decoration loop whose two indices are in range. */
  method ConnectDecoration(g: TheoryGraph, specs: seq<Spec>, links: seq<Link>, k: nat, nb: nat, base: nat, count: nat)
    returns (r: Outcome)
    requires g.Valid() && g.kinds == KindsOf(specs) && g.params == ParamsOf(specs)
    requires nb <= base && base + count <= |specs| && k < |links|
    requires 0 <= links[k].u < nb && 0 <= links[k].v < count
    requires DecoInRange(links[..k], nb, count) && AllAccepted(specs, DecoGlues(links[..k], nb, base, count))
    modifies g
    ensures g.Valid() && g.forms == old(g.forms) && g.kinds == old(g.kinds) && g.params == old(g.params)
    ensures r.Fail? ==> !AllAccepted(specs, DecoGlues(links, nb, base, count))
    ensures r.Pass? ==> DecoInRange(links[..k + 1], nb, count)
    ensures r.Pass? ==> AllAccepted(specs, DecoGlues(links[..k + 1], nb, base, count))
    ensures DefaultEdges(DecoGlues(links[..k + 1], nb, base, count))
      == DefaultEdges(DecoGlues(links[..k], nb, base, count)) + [Edge(base + links[k].v, links[k].u, Right, Left, 1)]
    ensures r.Pass? ==> g.edges == old(g.edges) + [Edge(base + links[k].v, links[k].u, Right, Left, 1)]
  {
    var e := links[k];
    var glue := Glue(base + e.v, e.u);
    DecoGluesSnoc(links, k, nb, base, count);
    DefaultEdgesConcat(DecoGlues(links[..k], nb, base, count), [glue]);
    r := g.Connect(base + e.v, e.u);
    if r.Fail? {
      DecoRejected(specs, links, k, nb, base, count);
    }
  }

  /** The classifier's requests pass exactly when each of its three loops passes. */
  lemma {:induction false} ClassifyGluesParts(specs: seq<Spec>, t: Topology)
    requires specs == GenSpecs(t)
    ensures var nb, ns, ni := |t.blocks|, |t.sideLinks|, |t.instantons|;
      var a, b, c := ChainGlues(LinearChain(t), nb), DecoGlues(t.sConn, nb, nb, ns), DecoGlues(t.iConn, nb, nb + ns, ni);
      && GluesInRange(|specs|, a) && GluesInRange(|specs|, b) && GluesInRange(|specs|, c)
      && (LinksInRange(t) && AllAccepted(specs, ClassifyGlues(t))
          <==> && ChainInRange(LinearChain(t), nb) && AllAccepted(specs, a)
               && DecoInRange(t.sConn, nb, ns) && AllAccepted(specs, b)
               && DecoInRange(t.iConn, nb, ni) && AllAccepted(specs, c))
      && DefaultEdges(ClassifyGlues(t)) == DefaultEdges(a) + DefaultEdges(b) + DefaultEdges(c)
  {
    var nb, ns, ni := |t.blocks|, |t.sideLinks|, |t.instantons|;
    var a, b, c := ChainGlues(LinearChain(t), nb), DecoGlues(t.sConn, nb, nb, ns), DecoGlues(t.iConn, nb, nb + ns, ni);
    assert ClassifyGlues(t) == a + b + c;
    AllAcceptedConcat(specs, a, b);
    AllAcceptedConcat(specs, a + b, c);
    DefaultEdgesConcat(a, b);
    DefaultEdgesConcat(a + b, c);
  }

  /** The three connect loops of build_graph_from_topology, in order. */
  method ConnectLinks(g: TheoryGraph, specs: seq<Spec>, t: Topology) returns (r: Outcome)
    requires g.Valid() && specs == GenSpecs(t) && g.kinds == KindsOf(specs) && g.params == ParamsOf(specs)
    requires g.edges == []
    modifies g
    ensures g.Valid() && g.forms == old(g.forms) && g.kinds == old(g.kinds) && g.params == old(g.params)
    ensures r.Pass? <==> LinksInRange(t) && AllAccepted(specs, ClassifyGlues(t))
    ensures r.Pass? ==> g.edges == DefaultEdges(ClassifyGlues(t))
  {
    var nb, ns, ni := |t.blocks|, |t.sideLinks|, |t.instantons|;
    ClassifyGluesParts(specs, t);
    var chain := EnsureLinearChain(t, []);
    assert chain == LinearChain(t);
    ghost var ea := DefaultEdges(ChainGlues(chain, nb));
    ghost var eb := DefaultEdges(DecoGlues(t.sConn, nb, nb, ns));
    ghost var ec := DefaultEdges(DecoGlues(t.iConn, nb, nb + ns, ni));
    assert DefaultEdges(ClassifyGlues(t)) == ea + eb + ec;
    r := ConnectChain(g, specs, chain, nb);
    if r.Fail? {
      return;
    }
    assert g.edges == [] + ea == ea;
    r := ConnectDecorations(g, specs, t.sConn, nb, nb, ns);
    if r.Fail? {
      return;
    }
    assert g.edges == ea + eb;
    r := ConnectDecorations(g, specs, t.iConn, nb, nb + ns, ni);
    assert r.Pass? ==> g.edges == ea + eb + ec;
  }

  /**
   * build_graph_from_topology: adds every block (g -> n(p), L -> i(p), S/I -> s(p)), then every
   * side link and every instanton as s(p), then connects the chain and the decorations.
   */
  method BuildGraphFromTopology(lf: LocalForm, t: Topology) returns (g: TheoryGraph, r: Outcome)
    requires WellFormedBuilder(lf)
    ensures fresh(g) && g.Valid() && g.lf == lf
    ensures r.Pass? <==> AllBuild(GenSpecs(t)) && LinksInRange(t) && AllAccepted(GenSpecs(t), ClassifyGlues(t))
    ensures r.Pass? ==> g.forms == FormsOf(lf, GenSpecs(t))
    ensures r.Pass? ==> g.kinds == KindsOf(GenSpecs(t)) && g.params == ParamsOf(GenSpecs(t))
    ensures r.Pass? ==> g.edges == DefaultEdges(ClassifyGlues(t))
  {
    g := new TheoryGraph(lf);
    var specs := NodeSpecsOf(t);
    r := AddAll(g, specs);
    if r.Pass? {
      r := ConnectLinks(g, specs, t);
    }
  }

  // ---------------------------------------------------------------- the consume loop

  /** Where one record goes: it throws, its form is written as SCFT or as LST, or it is dropped. */
  datatype Route = Thrown | ToScft(m: Matrix) | ToLst(m: Matrix) | Dropped

  /**
   * The consume lambda's decision: a throw while building the graph is caught; otherwise
   * the SCFT test comes first and the LST test is tried only when it fails.
   */
  function RouteOf(lf: LocalForm, fast: Matrix -> Spectral, t: Topology): (r: Route)
    requires WellFormedBuilder(lf)
    ensures r.Thrown? <==> ClassifyForm(lf, t).None?
    ensures r.ToScft? ==> ClassifyForm(lf, t) == Some(r.m) && fast(r.m).isSCFT
    ensures r.ToLst? ==> ClassifyForm(lf, t) == Some(r.m) && !fast(r.m).isSCFT && fast(r.m).isLST
    ensures r.Dropped? <==> (ClassifyForm(lf, t).Some? && !fast(ClassifyForm(lf, t).value).isSCFT
                             && !fast(ClassifyForm(lf, t).value).isLST)
  {
    match ClassifyForm(lf, t)
    case None => Thrown
    case Some(m) => if fast(m).isSCFT then ToScft(m) else if fast(m).isLST then ToLst(m) else Dropped
  }

  /** The buffers are flushed every 2000 processed records. */
  const FlushEvery: nat := 2000

  function ScftPath(outDir: string): string { outDir + "/IF_SCFT.txt" }

  function LstPath(outDir: string): string { outDir + "/IF_LST.txt" }

  lemma {:induction false} OutputPathsDiffer(outDir: string)
    ensures ScftPath(outDir) != LstPath(outDir)
  {
    assert |ScftPath(outDir)| == |outDir| + 12 && |LstPath(outDir)| == |outDir| + 11;
  }

  /** What a file holds: nothing when it does not exist yet. */
  function Contents(files: map<string, string>, path: string): string
  {
    if path in files then files[path] else ""
  }

  /** flush_to_file: appends a non-empty buffer to the file; an empty buffer leaves the files alone. */
  function AppendFile(files: map<string, string>, path: string, buf: string): (r: map<string, string>)
    ensures Contents(r, path) == Contents(files, path) + buf
    ensures forall q :: q != path ==> Contents(r, q) == Contents(files, q)
    ensures |buf| == 0 ==> r == files
  {
    if |buf| == 0 then files else files[path := Contents(files, path) + buf]
  }

  /** The consumer's state: its three counters, its two batch buffers and the output files. */
  datatype Tally = Tally(nproc: nat, nscft: nat, nlst: nat, bufScft: string, bufLst: string,
                         files: map<string, string>)

  /** flush_all: both buffers go to the end of their files and are cleared; the counters stay. */
  function Flushed(outDir: string, st: Tally): (r: Tally)
    ensures Contents(r.files, ScftPath(outDir)) == Contents(st.files, ScftPath(outDir)) + st.bufScft
    ensures Contents(r.files, LstPath(outDir)) == Contents(st.files, LstPath(outDir)) + st.bufLst
    ensures r.bufScft == "" && r.bufLst == ""
    ensures r.nproc == st.nproc && r.nscft == st.nscft && r.nlst == st.nlst
  {
    OutputPathsDiffer(outDir);
    st.(files := AppendFile(AppendFile(st.files, ScftPath(outDir), st.bufScft), LstPath(outDir), st.bufLst),
        bufScft := "", bufLst := "")
  }

  /**
   * Count one processed record and flush when the count reaches a multiple of 2000; between
   * those counts the files and the buffers are left as they are.
   */
  function Tick(outDir: string, st: Tally): (r: Tally)
    ensures r.nproc == st.nproc + 1 && r.nscft == st.nscft && r.nlst == st.nlst
    ensures (st.nproc + 1) % FlushEvery == 0 ==> r.bufScft == "" && r.bufLst == ""
    ensures (st.nproc + 1) % FlushEvery != 0 ==> r.files == st.files && r.bufScft == st.bufScft && r.bufLst == st.bufLst
  {
    var s := st.(nproc := st.nproc + 1);
    if s.nproc % FlushEvery == 0 then Flushed(outDir, s) else s
  }

  /** The try block before its count: the matrix text of an SCFT or LST form joins that batch buffer. */
  function Buffered(st: Tally, route: Route): (r: Tally)
    ensures r.nproc == st.nproc && r.files == st.files
  {
    match route
    case ToScft(m) => st.(nscft := st.nscft + 1, bufScft := st.bufScft + MatrixText(m))
    case ToLst(m) => st.(nlst := st.nlst + 1, bufLst := st.bufLst + MatrixText(m))
    case _ => st
  }

  /**
   * One call of consume: a throw is caught and changes nothing; otherwise the record is counted
   * as processed, and as SCFT or LST when it was routed there.
   */
  function Step(outDir: string, st: Tally, route: Route): (r: Tally)
    ensures route.Thrown? ==> r == st
    ensures r.nproc == st.nproc + (if route.Thrown? then 0 else 1)
    ensures r.nscft == st.nscft + (if route.ToScft? then 1 else 0)
    ensures r.nlst == st.nlst + (if route.ToLst? then 1 else 0)
  {
    if route.Thrown? then st else Tick(outDir, Buffered(st, route))
  }

  /** Everything written as SCFT so far: the file followed by what is still buffered. */
  function ScftOut(outDir: string, st: Tally): string
  {
    Contents(st.files, ScftPath(outDir)) + st.bufScft
  }

  function LstOut(outDir: string, st: Tally): string
  {
    Contents(st.files, LstPath(outDir)) + st.bufLst
  }

  /** Flushing loses nothing, empties both buffers and touches no other file. */
  lemma {:induction false} FlushedKeepsOutput(outDir: string, st: Tally)
    ensures var r := Flushed(outDir, st);
      && ScftOut(outDir, r) == ScftOut(outDir, st) && LstOut(outDir, r) == LstOut(outDir, st)
      && r.bufScft == "" && r.bufLst == ""
      && r.nproc == st.nproc && r.nscft == st.nscft && r.nlst == st.nlst
      && forall q :: q != ScftPath(outDir) && q != LstPath(outDir) ==> Contents(r.files, q) == Contents(st.files, q)
  {
    OutputPathsDiffer(outDir);
  }

  /** Counting a record keeps both outputs and the write counters. */
  lemma {:induction false} TickKeepsOutput(outDir: string, st: Tally)
    ensures var r := Tick(outDir, st);
      && r.nproc == st.nproc + 1 && r.nscft == st.nscft && r.nlst == st.nlst
      && ScftOut(outDir, r) == ScftOut(outDir, st) && LstOut(outDir, r) == LstOut(outDir, st)
  {
    FlushedKeepsOutput(outDir, st.(nproc := st.nproc + 1));
  }

  /**
   * One consume call: a throw changes nothing; otherwise the record is counted once, its
   * matrix text lands in at most one of the two outputs, and the SCFT counter or the LST
   * counter grows with it.
   */
  lemma {:induction false} StepAccounts(outDir: string, st: Tally, route: Route)
    ensures var r := Step(outDir, st, route);
      && (route.Thrown? ==> r == st)
      && r.nproc == st.nproc + (if route.Thrown? then 0 else 1)
      && r.nscft == st.nscft + (if route.ToScft? then 1 else 0)
      && r.nlst == st.nlst + (if route.ToLst? then 1 else 0)
      && ScftOut(outDir, r) == ScftOut(outDir, st) + (if route.ToScft? then MatrixText(route.m) else "")
      && LstOut(outDir, r) == LstOut(outDir, st) + (if route.ToLst? then MatrixText(route.m) else "")
  {
    ConcatEmpty(ScftOut(outDir, st));
    ConcatEmpty(LstOut(outDir, st));
    match route
    case Thrown =>
    case ToScft(m) =>
      TickKeepsOutput(outDir, Buffered(st, route));
      ConcatAssoc(Contents(st.files, ScftPath(outDir)), st.bufScft, MatrixText(m));
    case ToLst(m) =>
      TickKeepsOutput(outDir, Buffered(st, route));
      ConcatAssoc(Contents(st.files, LstPath(outDir)), st.bufLst, MatrixText(m));
    case Dropped =>
      TickKeepsOutput(outDir, st);
  }

  /** The buffers are empty right after the 2000th, 4000th, ... processed record, and untouched files otherwise. */
  lemma {:induction false} StepFlushes(outDir: string, st: Tally, route: Route)
    requires !route.Thrown?
    ensures var r := Step(outDir, st, route);
      && ((st.nproc + 1) % FlushEvery == 0 ==> r.bufScft == "" && r.bufLst == "")
      && ((st.nproc + 1) % FlushEvery != 0 ==> r.files == st.files)
  {
  }

  /** The consumer's counters never count more written matrices than processed records. */
  predicate Consistent(st: Tally)
  {
    st.nscft + st.nlst <= st.nproc
  }

  lemma {:induction false} StepKeepsConsistent(outDir: string, st: Tally, route: Route)
    requires Consistent(st)
    ensures Consistent(Step(outDir, st, route))
  {
    StepAccounts(outDir, st, route);
  }

  /** consume over a stream of records, in order. */
  function RunAll(outDir: string, st: Tally, routes: seq<Route>): Tally
    decreases |routes|
  {
    if |routes| == 0 then st else Step(outDir, RunAll(outDir, st, routes[..|routes| - 1]), routes[|routes| - 1])
  }

  /** The records that did not throw. */
  function Processed(routes: seq<Route>): nat
    decreases |routes|
  {
    if |routes| == 0 then 0
    else Processed(routes[..|routes| - 1]) + (if routes[|routes| - 1].Thrown? then 0 else 1)
  }

  /** The matrices routed to SCFT, in order. */
  function ScftForms(routes: seq<Route>): seq<Matrix>
    decreases |routes|
  {
    if |routes| == 0 then []
    else
      var last := routes[|routes| - 1];
      ScftForms(routes[..|routes| - 1]) + (if last.ToScft? then [last.m] else [])
  }

  function LstForms(routes: seq<Route>): seq<Matrix>
    decreases |routes|
  {
    if |routes| == 0 then []
    else
      var last := routes[|routes| - 1];
      LstForms(routes[..|routes| - 1]) + (if last.ToLst? then [last.m] else [])
  }

  /** The text of a list of matrices, one after the other. */
  function MatricesText(ms: seq<Matrix>): string
    decreases |ms|
  {
    if |ms| == 0 then "" else MatricesText(ms[..|ms| - 1]) + MatrixText(ms[|ms| - 1])
  }

  /**
   * Over a stream, Nproc counts the records that did not throw, Nscft and Nlst count the
   * matrices routed to each output, and each output receives exactly those matrices' text,
   * in order and after what was there before.
   */
  lemma {:induction false} RunAllAccounts(outDir: string, st: Tally, routes: seq<Route>)
    ensures var r := RunAll(outDir, st, routes);
      && r.nproc == st.nproc + Processed(routes)
      && r.nscft == st.nscft + |ScftForms(routes)|
      && r.nlst == st.nlst + |LstForms(routes)|
      && ScftOut(outDir, r) == ScftOut(outDir, st) + MatricesText(ScftForms(routes))
      && LstOut(outDir, r) == LstOut(outDir, st) + MatricesText(LstForms(routes))
    decreases |routes|
  {
    if |routes| > 0 {
      var init, last := routes[..|routes| - 1], routes[|routes| - 1];
      RunAllAccounts(outDir, st, init);
      var mid := RunAll(outDir, st, init);
      StepAccounts(outDir, mid, last);
      if last.ToScft? {
        ConcatAssoc(ScftOut(outDir, st), MatricesText(ScftForms(init)), MatrixText(last.m));
        assert ScftForms(routes) == ScftForms(init) + [last.m];
        assert ScftForms(routes)[..|ScftForms(routes)| - 1] == ScftForms(init);
      } else {
        assert ScftForms(routes) == ScftForms(init) + [];
        ConcatEmpty(ScftForms(init));
      }
      if last.ToLst? {
        ConcatAssoc(LstOut(outDir, st), MatricesText(LstForms(init)), MatrixText(last.m));
        assert LstForms(routes) == LstForms(init) + [last.m];
        assert LstForms(routes)[..|LstForms(routes)| - 1] == LstForms(init);
      } else {
        assert LstForms(routes) == LstForms(init) + [];
        ConcatEmpty(LstForms(init));
      }
    }
  }

  /** Each record is written at most once, so Nscft + Nlst <= Nproc holds throughout a run. */
  lemma {:induction false} RunAllConsistent(outDir: string, st: Tally, routes: seq<Route>)
    requires Consistent(st)
    ensures Consistent(RunAll(outDir, st, routes))
    decreases |routes|
  {
    if |routes| > 0 {
      RunAllConsistent(outDir, st, routes[..|routes| - 1]);
      StepKeepsConsistent(outDir, RunAll(outDir, st, routes[..|routes| - 1]), routes[|routes| - 1]);
    }
  }

  /** After the final flush_all the files hold everything, with nothing left in the buffers. */
  lemma {:induction false} FinalFlushWritesAll(outDir: string, st: Tally, routes: seq<Route>)
    requires st.bufScft == "" && st.bufLst == ""
    ensures var r := Flushed(outDir, RunAll(outDir, st, routes));
      && Contents(r.files, ScftPath(outDir)) == Contents(st.files, ScftPath(outDir)) + MatricesText(ScftForms(routes))
      && Contents(r.files, LstPath(outDir)) == Contents(st.files, LstPath(outDir)) + MatricesText(LstForms(routes))
      && r.bufScft == "" && r.bufLst == ""
  {
    var mid := RunAll(outDir, st, routes);
    RunAllAccounts(outDir, st, routes);
    FlushedKeepsOutput(outDir, mid);
    var r := Flushed(outDir, mid);
    ConcatEmpty(Contents(r.files, ScftPath(outDir)));
    ConcatEmpty(Contents(st.files, ScftPath(outDir)));
    ConcatEmpty(Contents(r.files, LstPath(outDir)));
    ConcatEmpty(Contents(st.files, LstPath(outDir)));
  }

  function RoutesOf(lf: LocalForm, fast: Matrix -> Spectral, ts: seq<Topology>): (r: seq<Route>)
    requires WellFormedBuilder(lf)
    ensures |r| == |ts|
    decreases |ts|
  {
    if |ts| == 0 then [] else RoutesOf(lf, fast, ts[..|ts| - 1]) + [RouteOf(lf, fast, ts[|ts| - 1])]
  }

  /** The classifier's main loop state: counters, the two batch buffers, and the files under outDir. */
  class Consumer {
    const lf: LocalForm
    const fast: Matrix -> Spectral
    const outDir: string
    var nproc: nat
    var nscft: nat
    var nlst: nat
    var bufScft: string
    var bufLst: string
    var files: map<string, string>

    function State(): Tally
      reads this
    {
      Tally(nproc, nscft, nlst, bufScft, bufLst, files)
    }

    ghost predicate Valid()
      reads this
    {
      WellFormedBuilder(lf) && Consistent(State())
    }

    /** Counters at zero, empty buffers; the files may already hold earlier output (append mode). */
    constructor (lf: LocalForm, fast: Matrix -> Spectral, outDir: string, files: map<string, string>)
      requires WellFormedBuilder(lf)
      ensures Valid() && this.lf == lf && this.fast == fast && this.outDir == outDir
      ensures State() == Tally(0, 0, 0, "", "", files)
    {
      this.lf, this.fast, this.outDir := lf, fast, outDir;
      nproc, nscft, nlst := 0, 0, 0;
      bufScft, bufLst := "", "";
      this.files := files;
    }

    /** flush_all: the SCFT buffer, then the LST buffer, each appended to its file and cleared. */
    method FlushAll()
      requires Valid()
      modifies this
      ensures Valid() && State() == Flushed(outDir, old(State()))
    {
      files := AppendFile(files, ScftPath(outDir), bufScft);
      bufScft := "";
      files := AppendFile(files, LstPath(outDir), bufLst);
      bufLst := "";
    }

    /** The try block of consume: build the graph and its form once, and decide where the record goes. */
    method RouteRecord(t: Topology) returns (route: Route)
      requires Valid()
      ensures route == RouteOf(lf, fast, t)
    {
      var g, r := BuildGraphFromTopology(lf, t);
      if r.Fail? {
        return Thrown;
      }
      var m := g.ComposeIFGluing();
      assert ClassifyForm(lf, t) == Some(m);
      if fast(m).isSCFT {
        route := ToScft(m);
      } else if fast(m).isLST {
        route := ToLst(m);
      } else {
        route := Dropped;
      }
    }

    /** The rest of consume: buffer the form under its category, count the record, flush periodically. */
    method Record(route: Route)
      requires Valid()
      modifies this
      ensures Valid() && State() == Step(outDir, old(State()), route)
    {
      StepKeepsConsistent(outDir, State(), route);
      if route.Thrown? {
        return;
      }
      if route.ToScft? {
        bufScft := AppendMatrixTxt(bufScft, route.m);
        nscft := nscft + 1;
      } else if route.ToLst? {
        bufLst := AppendMatrixTxt(bufLst, route.m);
        nlst := nlst + 1;
      }
      nproc := nproc + 1;
      if nproc % FlushEvery == 0 {
        FlushAll();
      }
    }

    /** consume: route the record, then record it. */
    method Consume(t: Topology)
      requires Valid()
      modifies this
      ensures Valid() && State() == Step(outDir, old(State()), RouteOf(lf, fast, t))
    {
      var route := RouteRecord(t);
      Record(route);
    }

    /** The records in order, then the last flush_all. */
    method ProcessAll(ts: seq<Topology>)
      requires Valid()
      modifies this
      ensures Valid() && State() == Flushed(outDir, RunAll(outDir, old(State()), RoutesOf(lf, fast, ts)))
    {
      ghost var st := State();
      for k := 0 to |ts|
        invariant Valid() && State() == RunAll(outDir, st, RoutesOf(lf, fast, ts[..k]))
      {
        assert ts[..k + 1][..k] == ts[..k];
        Consume(ts[k]);
      }
      assert ts[..|ts|] == ts;
      FlushAll();
    }
  }
}
