/**
 * The decoration pass: attach one side link (S) or one instanton (I) to a g block of a
 * topology, keep the candidates whose form is LST or SCFT, and buffer their lines per shard
 * file until the buffered bytes exceed a threshold.
 */
module Decorator {
  import opened Matrices
  import opened Text
  import opened Kinds
  import opened Topologies

  /** Buffered bytes above which the worker flushes: 64 MiB. */
  const BufferSize: nat := 67108864

  /** At most this many I decorations are tried (and not skipped as unclassified) per g block. */
  const MaxDecoPerNode: nat := 3

  datatype PrefixMode = NoPrefix | KindPrefix | HeadKindPrefix

  /** Which g blocks to decorate, with what, and how shard file names are tagged. */
  datatype TargetSpec = TargetSpec(allNodes: bool, nodes: set<int>, doS: bool, doI: bool, prefix: PrefixMode)

  /** allowed_S_params: the side-link parameters tried on a g block; some exactly on the g bank. */
  function AllowedS(g: int): (r: seq<int>)
    ensures r != [] <==> g == 4 || g == 6 || g == 7 || g == 8 || g == 12
  {
    if g == 4 then
      [1, 882, 883, 22, 32, 23, 33, 42, 991, 9920, 9902, 92, 93, 97, 98, 912, 915, 916, 917, 331, 43, 53,
       99910, 9913, 924, 925, 927, 928, 929, 934, 936, 937, 938, 940, 941, 942, 943, 956]
    else if g == 6 then
      [1, 882, 883, 884, 885, 22, 23, 33, 24, 993, 93, 96, 97, 98, 99, 911, 912, 913, 914, 915, 331, 43, 34,
       44, 53, 35, 54, 45, 55, 99910, 99920, 99930, 994, 995, 9910, 9912, 9913, 9914, 918, 920, 921, 922, 924,
       925, 926, 927, 928, 929, 933, 934, 935, 936, 937, 938, 939, 943, 944, 945, 9916, 9917, 947, 951, 952,
       955, 956, 957]
    else if g == 7 then
      [1, 882, 883, 884, 885, 886, 23, 33, 24, 993, 91, 93, 94, 95, 96, 97, 98, 99, 910, 911, 34, 44, 35, 45,
       54, 55, 99920, 99930, 995, 996, 997, 998, 9911, 9912, 9913, 9914, 918, 919, 920, 921, 922, 923, 924,
       925, 926, 927, 928, 929, 930, 931, 932, 933, 944, 945, 9915, 9916, 946, 947, 950, 951, 952, 953, 954]
    else if g == 8 then
      [1, 882, 883, 884, 885, 886, 887, 23, 33, 24, 993, 91, 93, 94, 95, 96, 97, 98, 99, 910, 911, 34, 44, 35,
       45, 54, 55, 99920, 99930, 995, 996, 997, 998, 9911, 9912, 9913, 9914, 918, 919, 920, 921, 922, 923, 924,
       925, 926, 927, 928, 929, 930, 931, 932, 933, 944, 945, 9915, 9916, 946, 947, 950, 951, 952, 953, 954]
    else if g == 12 then
      [1, 882, 883, 884, 885, 886, 887, 8881, 889, 8810, 8811, 24, 93, 94, 95, 96, 35, 45, 55, 99930, 996, 998,
       999, 9912, 918, 919, 920, 921, 922, 923, 945, 9915, 946, 947, 948, 949, 950]
    else []
  }

  /** allowed_I_params: the instanton parameters tried on a g block; some exactly on the g bank. */
  function AllowedI(g: int): (r: seq<int>)
    ensures r != [] <==> g == 4 || g == 6 || g == 7 || g == 8 || g == 12
  {
    if g == 4 then [1, 882, 883]
    else if g == 6 then [1, 882, 883, 884, 885]
    else if g == 7 then [1, 882, 883, 884, 885, 886]
    else if g == 8 then [1, 882, 883, 884, 885, 886, 887]
    else if g == 12 then [1, 882, 883, 884, 885, 886, 887, 8881, 889, 8810, 8811]
    else []
  }

  /** The instanton banks grow with g. */
  lemma InstantonBanksNested()
    ensures AllowedI(4) <= AllowedI(6) <= AllowedI(7) <= AllowedI(8) <= AllowedI(12)
  {
  }

  // ---------------------------------------------------------------- shard paths

  /** Whether the decoration kind letter is put in front of the prefix. */
  predicate Tagged(mode: PrefixMode, u: int)
  {
    mode == KindPrefix || (mode == HeadKindPrefix && u == 0)
  }

  /** shard_path_with_category: shard_path, with the file name tagged by the decoration kind. */
  function ShardPathWithCategory(t: Topology, outDir: string, mode: PrefixMode, kindTag: char,
                                 u: int, category: string): (path: string)
    ensures !Tagged(mode, u) ==> path == ShardPath(t, outDir, category)
  {
    var pref := if Tagged(mode, u) then [kindTag] + PrefixFrom(t) else PrefixFrom(t);
    outDir + "/" + category + "/len-" + IntToString(|t.blocks|) + "/" + pref + ".txt"
  }

  /** With tagging on, S and I decorations of a topology go to different shard files. */
  lemma {:induction false} TaggedShardsSeparate(t: Topology, outDir: string, mode: PrefixMode, u: int, category: string)
    requires Tagged(mode, u)
    ensures ShardPathWithCategory(t, outDir, mode, 'S', u, category)
      != ShardPathWithCategory(t, outDir, mode, 'I', u, category)
  {
    var dir := outDir + "/" + category + "/len-" + IntToString(|t.blocks|) + "/";
    var ps := ShardPathWithCategory(t, outDir, mode, 'S', u, category);
    var pi := ShardPathWithCategory(t, outDir, mode, 'I', u, category);
    assert ps[|dir|] == 'S' && pi[|dir|] == 'I';
  }

  /** With tagging on, the tagged name is the untagged one with the kind letter inserted before the prefix. */
  lemma {:induction false} TaggedShardPath(t: Topology, outDir: string, mode: PrefixMode, kindTag: char, u: int, category: string)
    requires Tagged(mode, u)
    ensures var plain := ShardPath(t, outDir, category);
      var cut := |plain| - |PrefixFrom(t)| - 4;
      0 <= cut && ShardPathWithCategory(t, outDir, mode, kindTag, u, category) == plain[..cut] + [kindTag] + plain[cut..]
  {
    var dir := outDir + "/" + category + "/len-" + IntToString(|t.blocks|) + "/";
    var plain := ShardPath(t, outDir, category);
    assert plain == dir + PrefixFrom(t) + ".txt";
    assert plain[..|dir|] == dir;
    assert plain[|dir|..] == PrefixFrom(t) + ".txt";
  }

  // ---------------------------------------------------------------- the output buffer

  function Get(m: map<string, string>, p: string): string
  {
    if p in m then m[p] else ""
  }

  /** The number of characters held in all buffers together. */
  ghost function TotalLength(m: map<string, string>): nat
    decreases m.Keys
  {
    if m.Keys == {} then 0
    else
      var k :| k in m.Keys;
      |m[k]| + TotalLength(m - {k})
  }

  lemma {:induction false} TotalLengthRemove(m: map<string, string>, k: string)
    requires k in m.Keys
    ensures TotalLength(m) == |m[k]| + TotalLength(m - {k})
    decreases m.Keys
  {
    var j :| j in m.Keys && TotalLength(m) == |m[j]| + TotalLength(m - {j});
    if j != k {
      var mj, mk := m - {j}, m - {k};
      assert mj.Keys == m.Keys - {j};
      assert mk.Keys == m.Keys - {k};
      TotalLengthRemove(mj, k);
      TotalLengthRemove(mk, j);
      assert mj - {k} == mk - {j};
    }
  }

  /** Replacing one buffer changes the total by the difference in its length. */
  lemma {:induction false} TotalLengthUpdate(m: map<string, string>, k: string, v: string)
    ensures TotalLength(m[k := v]) + |Get(m, k)| == TotalLength(m) + |v|
  {
    TotalLengthRemove(m[k := v], k);
    if k in m {
      TotalLengthRemove(m, k);
      assert m[k := v] - {k} == m - {k};
    } else {
      assert m[k := v] - {k} == m;
    }
  }

  /** append on the map alone: the line and a newline go to the end of the path's buffer. */
  function AppendLine(m: map<string, string>, w: Write): map<string, string>
  {
    m[w.path := Get(m, w.path) + w.line + "\n"]
  }

  function AppendAll(m: map<string, string>, ws: seq<Write>): map<string, string>
    decreases |ws|
  {
    if |ws| == 0 then m else AppendLine(AppendAll(m, ws[..|ws| - 1]), ws[|ws| - 1])
  }

  /** The lines of ws that go to path p, each followed by a newline, in order. */
  function LinesFor(ws: seq<Write>, p: string): string
    decreases |ws|
  {
    if |ws| == 0 then ""
    else LinesFor(ws[..|ws| - 1], p) + (if ws[|ws| - 1].path == p then ws[|ws| - 1].line + "\n" else "")
  }

  /** The characters a list of appends adds: each line and its newline. */
  function AppendedLength(ws: seq<Write>): nat
    decreases |ws|
  {
    if |ws| == 0 then 0 else AppendedLength(ws[..|ws| - 1]) + |ws[|ws| - 1].line| + 1
  }

  /** After a list of appends each buffer holds its old text followed by exactly its own lines, in order. */
  lemma {:induction false} AppendAllContents(m: map<string, string>, ws: seq<Write>, p: string)
    ensures Get(AppendAll(m, ws), p) == Get(m, p) + LinesFor(ws, p)
    decreases |ws|
  {
    if |ws| > 0 {
      var init, w := ws[..|ws| - 1], ws[|ws| - 1];
      AppendAllContents(m, init, p);
      if w.path == p {
        ConcatAssoc(Get(AppendAll(m, init), p), w.line, "\n");
        ConcatAssoc(Get(m, p), LinesFor(init, p), w.line + "\n");
      } else {
        ConcatEmpty(LinesFor(init, p));
      }
    }
  }

  /** A list of appends grows the buffered characters by the appended lines and newlines. */
  lemma {:induction false} AppendAllLength(m: map<string, string>, ws: seq<Write>)
    ensures TotalLength(AppendAll(m, ws)) == TotalLength(m) + AppendedLength(ws)
    decreases |ws|
  {
    if |ws| > 0 {
      var mid := AppendAll(m, ws[..|ws| - 1]);
      var w := ws[|ws| - 1];
      AppendAllLength(m, ws[..|ws| - 1]);
      TotalLengthUpdate(mid, w.path, Get(mid, w.path) + w.line + "\n");
    }
  }

  lemma {:induction false} AppendAllSnoc(m: map<string, string>, ws: seq<Write>, w: Write)
    ensures AppendAll(m, ws + [w]) == AppendLine(AppendAll(m, ws), w)
  {
    assert (ws + [w])[..|ws|] == ws;
  }

  /** The buffers flush_to_disk writes out: the non-empty ones. */
  function NonEmpty(m: map<string, string>): (r: map<string, string>)
    ensures forall p :: p in r <==> p in m && m[p] != ""
    ensures forall p :: p in r ==> r[p] == m[p]
  {
    map p | p in m && m[p] != "" :: m[p]
  }

  /** Buffered output per shard path, with the running count of buffered characters. */
  class OutputBuffer {
    var buffers: map<string, string>
    var totalSize: nat

    ghost predicate Valid()
      reads this
    {
      totalSize == TotalLength(buffers)
    }

    constructor()
      ensures Valid() && buffers == map[] && totalSize == 0
    {
      buffers := map[];
      totalSize := 0;
    }

    /** append: the line and a newline at the end of the path's buffer; the count grows by both. */
    method Append(path: string, line: string)
      requires Valid()
      modifies this
      ensures Valid()
      ensures buffers == AppendLine(old(buffers), Write(path, line))
      ensures totalSize == old(totalSize) + |line| + 1
    {
      var content := if path in buffers then buffers[path] else "";
      TotalLengthUpdate(buffers, path, content + line + "\n");
      buffers := buffers[path := content + line + "\n"];
      totalSize := totalSize + |line| + 1;
    }

    /** flush_to_disk: the non-empty buffers are appended to their files, then everything is cleared. */
    method FlushToDisk() returns (flushed: map<string, string>)
      modifies this
      ensures Valid() && buffers == map[] && totalSize == 0
      ensures flushed == NonEmpty(old(buffers))
    {
      flushed := map[];
      var paths := buffers.Keys;
      while paths != {}
        invariant paths <= buffers.Keys
        invariant forall p :: p in flushed <==> p in buffers && p !in paths && buffers[p] != ""
        invariant forall p :: p in flushed ==> flushed[p] == buffers[p]
        decreases paths
      {
        var p :| p in paths;
        if buffers[p] != "" {
          flushed := flushed[p := buffers[p]];
        }
        paths := paths - {p};
      }
      buffers := map[];
      totalSize := 0;
    }
  }

  // ---------------------------------------------------------------- one topology

  /**
   * What the decoration pass needs: the verdict on a candidate (graph, composition and
   * spectral tests), its serialized line, the output directory, the target selection, and
   * the S and I parameter banks of each g value.
   */
  datatype Setup = Setup(
    judge: Topology -> Verdict,
    serialize: Topology -> string,
    outDir: string,
    spec: TargetSpec,
    sBank: int -> seq<int>,
    iBank: int -> seq<int>)

  /** The line kept for a decorated candidate, if its form is LST or SCFT. */
  function Emit(s: Setup, t: Topology, tag: char, u: int): seq<Write>
  {
    match s.judge(t)
    case Keep(c) => [Write(ShardPathWithCategory(t, s.outDir, s.spec.prefix, tag, u, CategoryName(c)), s.serialize(t))]
    case _ => []
  }

  /** The line kept for a candidate with a known verdict. */
  lemma {:induction false} EmitOf(s: Setup, t: Topology, tag: char, u: int, v: Verdict)
    requires s.judge(t) == v
    ensures v.Keep? ==>
      Emit(s, t, tag, u) == [Write(ShardPathWithCategory(t, s.outDir, s.spec.prefix, tag, u, CategoryName(v.category)), s.serialize(t))]
    ensures !v.Keep? ==> Emit(s, t, tag, u) == []
  {
  }

  /** The S loop of process_one over a bank: every classified candidate is kept. */
  function SEmits(s: Setup, base: Topology, u: nat, bank: seq<int>): (ws: seq<Write>)
    ensures |ws| <= |bank|
    decreases |bank|
  {
    if |bank| == 0 then []
    else
      var t := AddDecoration(base, S, bank[|bank| - 1], u);
      SEmits(s, base, u, bank[..|bank| - 1]) + Emit(s, t, 'S', u)
  }

  lemma {:induction false} SEmitsStep(s: Setup, base: Topology, u: nat, bank: seq<int>, i: int)
    requires 0 <= i < |bank|
    ensures SEmits(s, base, u, bank[..i + 1]) == SEmits(s, base, u, bank[..i]) + Emit(s, AddDecoration(base, S, bank[i], u), 'S', u)
  {
    assert bank[..i + 1][..i] == bank[..i];
  }

  /**
   * The I loop of process_one over a bank: the count of tries and the kept lines. A try counts
   * when its candidate is kept or its graph throws, not when it is unclassified; no more
   * tries are made once the count reaches MaxDecoPerNode, so at most that many instanton
   * lines are kept per g block.
   */
  function IScan(s: Setup, base: Topology, u: nat, bank: seq<int>): (r: (nat, seq<Write>))
    ensures |r.1| <= r.0 <= MaxDecoPerNode
    decreases |bank|
  {
    if |bank| == 0 then (0, [])
    else
      var prev := IScan(s, base, u, bank[..|bank| - 1]);
      if prev.0 >= MaxDecoPerNode then prev
      else
        var t := AddDecoration(base, I, bank[|bank| - 1], u);
        if s.judge(t).Unclassified? then prev else (prev.0 + 1, prev.1 + Emit(s, t, 'I', u))
  }

  lemma {:induction false} IScanStep(s: Setup, base: Topology, u: nat, bank: seq<int>, i: int)
    requires 0 <= i < |bank| && IScan(s, base, u, bank[..i]).0 < MaxDecoPerNode
    ensures var prev := IScan(s, base, u, bank[..i]);
      var t := AddDecoration(base, I, bank[i], u);
      IScan(s, base, u, bank[..i + 1])
        == if s.judge(t).Unclassified? then prev else (prev.0 + 1, prev.1 + Emit(s, t, 'I', u))
  {
    assert bank[..i + 1][..i] == bank[..i];
  }

  /** Once the count reaches the cap, later bank entries change nothing. */
  lemma {:induction false} IScanSaturated(s: Setup, base: Topology, u: nat, bank: seq<int>, i: nat)
    requires i <= |bank| && IScan(s, base, u, bank[..i]).0 >= MaxDecoPerNode
    ensures IScan(s, base, u, bank) == IScan(s, base, u, bank[..i])
    decreases |bank| - i
  {
    if i < |bank| {
      assert bank[..i + 1][..i] == bank[..i];
      IScanSaturated(s, base, u, bank, i + 1);
    } else {
      assert bank[..i] == bank;
    }
  }

  /** Unclassified candidates do not use up the cap: if none is classified, none is counted. */
  lemma {:induction false} IScanSkipsUnclassified(s: Setup, base: Topology, u: nat, bank: seq<int>)
    requires forall p :: p in bank ==> s.judge(AddDecoration(base, I, p, u)).Unclassified?
    ensures IScan(s, base, u, bank) == (0, [])
    decreases |bank|
  {
    if |bank| > 0 {
      IScanSkipsUnclassified(s, base, u, bank[..|bank| - 1]);
      assert bank[|bank| - 1] in bank;
    }
  }

  /** Whether process_one decorates block u. */
  predicate Selected(spec: TargetSpec, base: Topology, u: int)
  {
    0 <= u < |base.blocks| && base.blocks[u].kind == G && (spec.allNodes || u in spec.nodes)
  }

  /** The lines process_one keeps for block u from the given banks: the S loop, then the I loop. */
  function NodeEmitsWith(s: Setup, base: Topology, u: nat, sbank: seq<int>, ibank: seq<int>): seq<Write>
  {
    (if s.spec.doS then SEmits(s, base, u, sbank) else []) + (if s.spec.doI then IScan(s, base, u, ibank).1 else [])
  }

  /** The lines process_one keeps for block u. */
  function NodeEmits(s: Setup, base: Topology, u: nat): seq<Write>
  {
    if !Selected(s.spec, base, u) then []
    else NodeEmitsWith(s, base, u, s.sBank(base.blocks[u].param), s.iBank(base.blocks[u].param))
  }

  /** The lines process_one keeps for blocks 0 .. n-1, in order. */
  function Emits(s: Setup, base: Topology, n: nat): seq<Write>
  {
    ConcatUpTo(u => NodeEmits(s, base, u), n)
  }

  lemma {:induction false} EmitsStep(s: Setup, base: Topology, n: nat)
    ensures Emits(s, base, n + 1) == Emits(s, base, n) + NodeEmits(s, base, n)
  {
  }

  /** w is the line of a candidate of decoration kind k, with a parameter of bank, that is kept. */
  predicate KeptFrom(s: Setup, base: Topology, u: nat, k: LKind, bank: seq<int>, w: Write)
    requires k == S || k == I
  {
    exists p :: p in bank && s.judge(AddDecoration(base, k, p, u)).Keep? && w.line == s.serialize(AddDecoration(base, k, p, u))
  }

  /** A kept line is the line of the base decorated once at a selected g block, with a bank parameter. */
  predicate Decorates(s: Setup, base: Topology, u: nat, w: Write)
  {
    && Selected(s.spec, base, u)
    && ((s.spec.doS && KeptFrom(s, base, u, S, s.sBank(base.blocks[u].param), w))
     || (s.spec.doI && KeptFrom(s, base, u, I, s.iBank(base.blocks[u].param), w)))
  }

  lemma {:induction false} SEmitsSound(s: Setup, base: Topology, u: nat, bank: seq<int>, j: int)
    requires 0 <= j < |SEmits(s, base, u, bank)|
    ensures KeptFrom(s, base, u, S, bank, SEmits(s, base, u, bank)[j])
    decreases |bank|
  {
    var init := bank[..|bank| - 1];
    var p := bank[|bank| - 1];
    var w := SEmits(s, base, u, bank)[j];
    if j < |SEmits(s, base, u, init)| {
      SEmitsSound(s, base, u, init, j);
      var q :| q in init && s.judge(AddDecoration(base, S, q, u)).Keep? && w.line == s.serialize(AddDecoration(base, S, q, u));
      assert q in bank;
    } else {
      assert p in bank;
    }
  }

  lemma {:induction false} IScanSound(s: Setup, base: Topology, u: nat, bank: seq<int>, j: int)
    requires 0 <= j < |IScan(s, base, u, bank).1|
    ensures KeptFrom(s, base, u, I, bank, IScan(s, base, u, bank).1[j])
    decreases |bank|
  {
    var init := bank[..|bank| - 1];
    var p := bank[|bank| - 1];
    var prev := IScan(s, base, u, init);
    var w := IScan(s, base, u, bank).1[j];
    if j < |prev.1| {
      IScanSound(s, base, u, init, j);
      assert w == prev.1[j];
      var q :| q in init && s.judge(AddDecoration(base, I, q, u)).Keep? && w.line == s.serialize(AddDecoration(base, I, q, u));
      assert q in bank;
    } else {
      assert p in bank;
    }
  }

  /** Every line kept for block u is from a candidate of the S bank (S loop) or the I bank (I loop). */
  lemma {:induction false} NodeEmitsWithSound(s: Setup, base: Topology, u: nat, sbank: seq<int>, ibank: seq<int>, j: int)
    requires 0 <= j < |NodeEmitsWith(s, base, u, sbank, ibank)|
    ensures var w := NodeEmitsWith(s, base, u, sbank, ibank)[j];
      (s.spec.doS && KeptFrom(s, base, u, S, sbank, w)) || (s.spec.doI && KeptFrom(s, base, u, I, ibank, w))
  {
    var sw := if s.spec.doS then SEmits(s, base, u, sbank) else [];
    var iw := if s.spec.doI then IScan(s, base, u, ibank).1 else [];
    assert NodeEmitsWith(s, base, u, sbank, ibank) == sw + iw;
    ConcatIndex(sw, iw, j);
    if j < |sw| {
      SEmitsSound(s, base, u, sbank, j);
    } else {
      IScanSound(s, base, u, ibank, j - |sw|);
    }
  }

  /** Every line kept for block u decorates u. */
  lemma {:induction false} NodeEmitsSound(s: Setup, base: Topology, u: nat, j: int)
    requires 0 <= j < |NodeEmits(s, base, u)|
    ensures Decorates(s, base, u, NodeEmits(s, base, u)[j])
  {
    var g := base.blocks[u].param;
    NodeEmitsWithSound(s, base, u, s.sBank(g), s.iBank(g), j);
  }

  /** Only selected g blocks are decorated, each line coming from a single decoration with a bank parameter. */
  lemma {:induction false} EmitsSound(s: Setup, base: Topology, n: nat, j: int)
    requires 0 <= j < |Emits(s, base, n)|
    ensures exists u: nat :: u < n && Decorates(s, base, u, Emits(s, base, n)[j])
  {
    var u, i := ConcatUpToOrigin(u => NodeEmits(s, base, u), n, j);
    NodeEmitsSound(s, base, u, i);
  }

  /** Every side-link candidate judged LST or SCFT is kept: the S loop has no cap. */
  lemma {:induction false} SEmitsComplete(s: Setup, base: Topology, u: nat, bank: seq<int>, p: int)
    requires p in bank && s.judge(AddDecoration(base, S, p, u)).Keep?
    ensures Emit(s, AddDecoration(base, S, p, u), 'S', u)[0] in SEmits(s, base, u, bank)
    decreases |bank|
  {
    var init := bank[..|bank| - 1];
    if p != bank[|bank| - 1] {
      assert bank == init + [bank[|bank| - 1]];
      SEmitsComplete(s, base, u, init, p);
    }
  }

  // ---------------------------------------------------------------- the worker

  /** The worker pool's shared state: its output buffer and the count of saved lines. */
  class Decorator {
    const env: Env
    const spec: TargetSpec
    const buffer: OutputBuffer
    ghost const setup: Setup
    var saved: nat
    var processed: nat

    /** The setup's verdicts are those of the graph pipeline, and its lines those of the serializer. */
    ghost predicate Valid()
      reads this, buffer
    {
      && WellFormedBuilder(env.lf)
      && buffer.Valid()
      && setup.serialize == env.serialize && setup.outDir == env.outDir && setup.spec == spec
      && (forall t :: setup.judge(t) == Judge(env, t))
      && (forall g :: setup.sBank(g) == AllowedS(g) && setup.iBank(g) == AllowedI(g))
    }

    constructor(env: Env, spec: TargetSpec)
      requires WellFormedBuilder(env.lf)
      ensures Valid() && fresh(buffer) && this.env == env && this.spec == spec
      ensures buffer.buffers == map[] && saved == 0 && processed == 0
    {
      this.env := env;
      this.spec := spec;
      buffer := new OutputBuffer();
      setup := Setup((t: Topology) => Judge(env, t), env.serialize, env.outDir, spec, AllowedS, AllowedI);
      saved := 0;
      processed := 0;
    }

    /**
     * The try block of process_one for one candidate: classify it and, when it is LST or SCFT,
     * append its line to its shard and count it.
     */
    method TryCandidate(t: Topology, tag: char, u: nat) returns (v: Verdict)
      requires Valid()
      modifies this, buffer
      ensures Valid() && processed == old(processed)
      ensures v == Judge(env, t)
      ensures buffer.buffers == AppendAll(old(buffer.buffers), Emit(setup, t, tag, u))
      ensures saved == old(saved) + |Emit(setup, t, tag, u)|
    {
      v := JudgeTopology(env, t);
      EmitOf(setup, t, tag, u, v);
      if v.Keep? {
        var path := ShardPathWithCategory(t, env.outDir, spec.prefix, tag, u, CategoryName(v.category));
        KeepLine(path, env.serialize(t));
      }
    }

    /** A kept candidate: its line goes to the buffer of its shard and is counted. */
    method KeepLine(path: string, line: string)
      requires Valid()
      modifies this, buffer
      ensures Valid() && processed == old(processed) && saved == old(saved) + 1
      ensures buffer.buffers == AppendAll(old(buffer.buffers), [Write(path, line)])
    {
      AppendAllSnoc(buffer.buffers, [], Write(path, line));
      buffer.Append(path, line);
      saved := saved + 1;
    }

    /** The S loop for block u: every candidate judged LST or SCFT is appended to its shard. */
    method DecorateS(base: Topology, u: nat, bank: seq<int>)
      requires Valid()
      modifies this, buffer
      ensures Valid() && processed == old(processed)
      ensures buffer.buffers == AppendAll(old(buffer.buffers), SEmits(setup, base, u, bank))
      ensures saved == old(saved) + |SEmits(setup, base, u, bank)|
    {
      ghost var m0 := buffer.buffers;
      ghost var done: seq<Write> := [];
      for i := 0 to |bank|
        invariant Valid() && processed == old(processed)
        invariant done == SEmits(setup, base, u, bank[..i])
        invariant buffer.buffers == AppendAll(m0, done)
        invariant saved == old(saved) + |done|
      {
        var t := AddDecoration(base, S, bank[i], u);
        SEmitsStep(setup, base, u, bank, i);
        ghost var e := Emit(setup, t, 'S', u);
        var _ := TryCandidate(t, 'S', u);
        AppendAllConcat(m0, done, e);
        done := done + e;
      }
      assert bank[..|bank|] == bank;
    }

    /** One try of the I loop below the cap: the i-th candidate is classified and, if LST or SCFT, kept. */
    method TryInstanton(base: Topology, u: nat, bank: seq<int>, i: nat, ghost m0: map<string, string>)
      returns (counted: bool)
      requires Valid() && i < |bank| && IScan(setup, base, u, bank[..i]).0 < MaxDecoPerNode
      requires buffer.buffers == AppendAll(m0, IScan(setup, base, u, bank[..i]).1)
      modifies this, buffer
      ensures Valid() && processed == old(processed)
      ensures counted == !Judge(env, AddDecoration(base, I, bank[i], u)).Unclassified?
      ensures IScan(setup, base, u, bank[..i + 1]).0 == IScan(setup, base, u, bank[..i]).0 + (if counted then 1 else 0)
      ensures buffer.buffers == AppendAll(m0, IScan(setup, base, u, bank[..i + 1]).1)
      ensures saved + |IScan(setup, base, u, bank[..i]).1| == old(saved) + |IScan(setup, base, u, bank[..i + 1]).1|
    {
      ghost var prev := IScan(setup, base, u, bank[..i]);
      var t := AddDecoration(base, I, bank[i], u);
      IScanStep(setup, base, u, bank, i);
      ghost var e := Emit(setup, t, 'I', u);
      var v := TryCandidate(t, 'I', u);
      AppendAllConcat(m0, prev.1, e);
      counted := !v.Unclassified?;
      if v.Unclassified? {
        assert e == [];
      }
    }

    /** The I loop for block u: like the S loop, but stops once MaxDecoPerNode tries have counted. */
    method DecorateI(base: Topology, u: nat, bank: seq<int>)
      requires Valid()
      modifies this, buffer
      ensures Valid() && processed == old(processed)
      ensures buffer.buffers == AppendAll(old(buffer.buffers), IScan(setup, base, u, bank).1)
      ensures saved == old(saved) + |IScan(setup, base, u, bank).1|
    {
      ghost var m0 := buffer.buffers;
      var decoCount := 0;
      var i := 0;
      while i < |bank|
        invariant 0 <= i <= |bank|
        invariant Valid() && processed == old(processed)
        invariant decoCount == IScan(setup, base, u, bank[..i]).0
        invariant buffer.buffers == AppendAll(m0, IScan(setup, base, u, bank[..i]).1)
        invariant saved == old(saved) + |IScan(setup, base, u, bank[..i]).1|
      {
        if decoCount >= MaxDecoPerNode {
          IScanSaturated(setup, base, u, bank, i);
          break;
        }
        var counted := TryInstanton(base, u, bank, i, m0);
        if counted {
          decoCount := decoCount + 1;
        }
        i := i + 1;
      }
      if i == |bank| {
        assert bank[..|bank|] == bank;
      }
    }

    /** One iteration of process_one's block loop: the S loop, then the I loop, on a selected g block. */
    method DecorateNode(base: Topology, u: nat)
      requires Valid() && u < |base.blocks|
      modifies this, buffer
      ensures Valid() && processed == old(processed)
      ensures buffer.buffers == AppendAll(old(buffer.buffers), NodeEmits(setup, base, u))
      ensures saved == old(saved) + |NodeEmits(setup, base, u)|
    {
      if base.blocks[u].kind != G || (!spec.allNodes && u !in spec.nodes) {
        return;
      }
      var g := base.blocks[u].param;
      var sbank, ibank := AllowedS(g), AllowedI(g);
      assert sbank == setup.sBank(g) && ibank == setup.iBank(g);
      ghost var m0 := buffer.buffers;
      ghost var sw := if spec.doS then SEmits(setup, base, u, sbank) else [];
      ghost var iw := if spec.doI then IScan(setup, base, u, ibank).1 else [];
      assert NodeEmits(setup, base, u) == NodeEmitsWith(setup, base, u, sbank, ibank) == sw + iw;
      if spec.doS {
        DecorateS(base, u, sbank);
      }
      if spec.doI {
        DecorateI(base, u, ibank);
      }
      AppendAllConcat(m0, sw, iw);
    }

    /** process_one: decorate each selected g block of the base, in block order. */
    method ProcessOne(base: Topology)
      requires Valid()
      modifies this, buffer
      ensures Valid() && processed == old(processed)
      ensures buffer.buffers == AppendAll(old(buffer.buffers), Emits(setup, base, |base.blocks|))
      ensures saved == old(saved) + |Emits(setup, base, |base.blocks|)|
    {
      ghost var m0 := buffer.buffers;
      for u := 0 to |base.blocks|
        invariant Valid() && processed == old(processed)
        invariant buffer.buffers == AppendAll(m0, Emits(setup, base, u))
        invariant saved == old(saved) + |Emits(setup, base, u)|
      {
        ghost var done := Emits(setup, base, u);
        ghost var e := NodeEmits(setup, base, u);
        DecorateNode(base, u);
        EmitsStep(setup, base, u);
        AppendAllConcat(m0, done, e);
      }
    }

    /** flush_if_needed: flush when more than BufferSize characters are buffered. */
    method FlushIfNeeded() returns (flushed: map<string, string>)
      requires Valid()
      modifies buffer
      ensures Valid()
      ensures old(buffer.totalSize) > BufferSize ==> buffer.buffers == map[] && flushed == NonEmpty(old(buffer.buffers))
      ensures old(buffer.totalSize) <= BufferSize ==> buffer.buffers == old(buffer.buffers) && flushed == map[]
    {
      flushed := map[];
      if buffer.totalSize > BufferSize {
        flushed := buffer.FlushToDisk();
      }
    }

    /** One batch of the worker loop: process each base, count the batch, flush if needed. */
    method ProcessBatch(batch: seq<Topology>) returns (flushed: map<string, string>)
      requires Valid()
      modifies this, buffer
      ensures Valid() && processed == old(processed) + |batch|
      ensures saved == old(saved) + |BatchEmits(setup, batch)|
      ensures var m := AppendAll(old(buffer.buffers), BatchEmits(setup, batch));
        if TotalLength(m) > BufferSize then buffer.buffers == map[] && flushed == NonEmpty(m)
        else buffer.buffers == m && flushed == map[]
    {
      ghost var m0 := buffer.buffers;
      for k := 0 to |batch|
        invariant Valid() && processed == old(processed)
        invariant buffer.buffers == AppendAll(m0, BatchEmits(setup, batch[..k]))
        invariant saved == old(saved) + |BatchEmits(setup, batch[..k])|
      {
        assert batch[..k + 1][..k] == batch[..k];
        ghost var done := BatchEmits(setup, batch[..k]);
        ProcessOne(batch[k]);
        AppendAllConcat(m0, done, Emits(setup, batch[k], |batch[k].blocks|));
      }
      assert batch[..|batch|] == batch;
      processed := processed + |batch|;
      flushed := FlushIfNeeded();
    }
  }

  lemma {:induction false} AppendAllConcat(m: map<string, string>, a: seq<Write>, b: seq<Write>)
    ensures AppendAll(m, a + b) == AppendAll(AppendAll(m, a), b)
    decreases |b|
  {
    if |b| > 0 {
      assert (a + b)[..|a + b| - 1] == a + b[..|b| - 1];
      AppendAllConcat(m, a, b[..|b| - 1]);
    } else {
      assert a + b == a;
    }
  }

  /** The lines a batch keeps, base after base. */
  function BatchEmits(s: Setup, batch: seq<Topology>): seq<Write>
    decreases |batch|
  {
    if |batch| == 0 then []
    else
      var base := batch[|batch| - 1];
      BatchEmits(s, batch[..|batch| - 1]) + Emits(s, base, |base.blocks|)
  }
}
