/**
 * One generation step of linear topologies: extend a topology by one block chosen from the
 * gluing-rule table, keep the g parameters unimodal, and save each new topology once, in the
 * LST or SCFT shard its intersection form falls into.
 */
module TopologyGenerator {
  import opened Matrices
  import opened Kinds
  import opened Gluing
  import opened Topologies

  const GBank: seq<int> := [4, 6, 7, 8, 12]
  const LBank: seq<int> := [11, 22, 33, 44, 55, 331, 32, 23, 42, 24, 43, 34, 53, 35, 54, 45]

  /**
   * allowed: the parameters that may follow a g or L block; nothing for other blocks. A g block
   * is followed by an L parameter of the bank and an L block by a g parameter.
   */
  function Allowed(k: LKind, p: int): (r: seq<int>)
    ensures k == G ==> forall j :: 0 <= j < |r| ==> r[j] in LBank
    ensures k == L ==> forall j :: 0 <= j < |r| ==> r[j] in GBank
    ensures k != G && k != L ==> r == []
  {
    if k == G then
      if p == 4 then [11, 22, 32, 23, 33, 24, 331, 34, 35]
      else if p == 6 then [22, 32, 33, 42, 331, 43, 34, 44, 53, 35, 45, 54, 55]
      else if p == 7 then [32, 33, 42, 43, 44, 53, 54, 45, 55]
      else if p == 8 then [32, 33, 42, 43, 44, 53, 54, 45, 55]
      else if p == 12 then [42, 53, 54, 55]
      else []
    else if k == L then
      if p == 11 then [4]
      else if p == 22 then [4, 6]
      else if p == 32 then [4]
      else if p == 23 then [4, 6, 7, 8]
      else if p == 33 then [4, 6, 7, 8]
      else if p == 42 then [4]
      else if p == 24 then [6, 7, 8, 12]
      else if p == 331 then [4, 6]
      else if p == 43 then [4, 6]
      else if p == 34 then [6, 7, 8]
      else if p == 44 then [6, 7, 8]
      else if p == 53 then [4, 6]
      else if p == 35 then [6, 7, 8, 12]
      else if p == 54 then [6, 7, 8]
      else if p == 45 then [6, 7, 8, 12]
      else if p == 55 then [6, 7, 8, 12]
      else []
    else []
  }

  /** The table has entries exactly for the bank parameters of g and L blocks. */
  lemma {:induction false} AllowedDefinedOnBanks(k: LKind, p: int)
    ensures |Allowed(k, p)| > 0 <==> (k == G && p in GBank) || (k == L && p in LBank)
  {
  }

  /** The table is not symmetric: g(4) may be followed by L(24), but L(24) not by g(4). */
  lemma AllowedNotSymmetric()
    ensures 24 in Allowed(G, 4) && 4 !in Allowed(L, 24)
  {
  }

  // ---------------------------------------------------------------- unimodality

  /** a rises (non-strictly) up to index p. */
  predicate RisesTo(a: seq<int>, p: int)
  {
    forall i :: 0 < i <= p && i < |a| ==> a[i - 1] <= a[i]
  }

  /** a falls (non-strictly) from index p on. */
  predicate FallsFrom(a: seq<int>, p: int)
  {
    forall i :: p < i < |a| && 0 < i ==> a[i] <= a[i - 1]
  }

  /** Non-strictly unimodal: some peak with a non-decreasing run before it and a non-increasing one after. */
  predicate Unimodal(a: seq<int>)
  {
    |a| == 0 || exists p :: 0 <= p < |a| && RisesTo(a, p) && FallsFrom(a, p)
  }

  /** is_unimodal_non_strict: climb while non-decreasing, descend while non-increasing. */
  method IsUnimodalNonStrict(a: seq<int>) returns (r: bool)
    ensures r == Unimodal(a)
  {
    var n := |a|;
    if n <= 2 {
      if n == 1 {
        assert RisesTo(a, 0) && FallsFrom(a, 0);
      } else if n == 2 {
        if a[0] <= a[1] {
          assert RisesTo(a, 1) && FallsFrom(a, 1);
        } else {
          assert RisesTo(a, 0) && FallsFrom(a, 0);
        }
      }
      return true;
    }
    var i := 1;
    while i < n && a[i] >= a[i - 1]
      invariant 1 <= i <= n
      invariant RisesTo(a, i - 1)
    {
      i := i + 1;
    }
    var top := i - 1;
    assert top + 1 < n ==> a[top + 1] < a[top];
    while i < n && a[i] <= a[i - 1]
      invariant top < i <= n
      invariant forall j :: top < j < i ==> a[j] <= a[j - 1]
    {
      i := i + 1;
    }
    r := i == n;
    if r {
      assert RisesTo(a, top) && FallsFrom(a, top);
    } else {
      forall p | 0 <= p < n
        ensures !(RisesTo(a, p) && FallsFrom(a, p))
      {
        if p < i {
          assert !FallsFrom(a, p) by {
            assert a[i] > a[i - 1];
          }
        } else {
          assert !RisesTo(a, p) by {
            assert a[top + 1] < a[top];
          }
        }
      }
    }
  }

  /** The parameters of the g blocks, left to right. */
  function GValues(bs: seq<Block>): (r: seq<int>)
    ensures |r| <= |bs|
    decreases |bs|
  {
    if |bs| == 0 then []
    else
      var b := bs[|bs| - 1];
      GValues(bs[..|bs| - 1]) + (if b.kind == G then [b.param] else [])
  }

  /** g_unimodal_prefix_ok: the g parameters form a unimodal sequence. */
  method GUnimodalPrefixOk(t: Topology) returns (r: bool)
    ensures r == Unimodal(GValues(t.blocks))
  {
    var gvals := [];
    for k := 0 to |t.blocks|
      invariant gvals == GValues(t.blocks[..k])
    {
      assert t.blocks[..k + 1][..k] == t.blocks[..k];
      if t.blocks[k].kind == G {
        gvals := gvals + [t.blocks[k].param];
      }
    }
    assert t.blocks[..|t.blocks|] == t.blocks;
    r := IsUnimodalNonStrict(gvals);
  }

  /** Appending a block adds its parameter to the g values exactly when it is a g block. */
  lemma {:induction false} GValuesSnoc(t: Topology, k: LKind, p: int)
    ensures GValues(AddBlockRight(t, k, p).blocks) == GValues(t.blocks) + (if k == G then [p] else [])
  {
    var bs := AddBlockRight(t, k, p).blocks;
    assert bs[..|bs| - 1] == t.blocks;
  }

  // ---------------------------------------------------------------- one step

  function Last(t: Topology): Block
    requires |t.blocks| > 0
  {
    t.blocks[|t.blocks| - 1]
  }

  /** g blocks are followed by L blocks and L blocks by g blocks. */
  function NextKind(k: LKind): LKind
  {
    if k == G then L else G
  }

  /** The parameters generate_one_step tries: none for an empty, non-unimodal or S/I-ended base. */
  function Options(base: Topology): seq<int>
  {
    if |base.blocks| == 0 || !Unimodal(GValues(base.blocks)) then []
    else Allowed(Last(base).kind, Last(base).param)
  }

  /** The extensions by each option, in table order, that keep the g values unimodal. */
  function Extensions(base: Topology, k: LKind, opts: seq<int>): (r: seq<Topology>)
    ensures |r| <= |opts|
    decreases |opts|
  {
    if |opts| == 0 then []
    else
      var t := AddBlockRight(base, k, opts[|opts| - 1]);
      Extensions(base, k, opts[..|opts| - 1]) + (if Unimodal(GValues(t.blocks)) then [t] else [])
  }

  lemma {:induction false} ExtensionsStep(base: Topology, k: LKind, opts: seq<int>, i: int)
    requires 0 <= i < |opts|
    ensures var t := AddBlockRight(base, k, opts[i]);
      Extensions(base, k, opts[..i + 1])
        == Extensions(base, k, opts[..i]) + (if Unimodal(GValues(t.blocks)) then [t] else [])
  {
    assert opts[..i + 1][..i] == opts[..i];
  }

  /** t is base with one more block at the right end, and nothing else changed. */
  predicate OneBlockMore(base: Topology, t: Topology)
  {
    |t.blocks| == |base.blocks| + 1 && t.blocks[..|base.blocks|] == base.blocks && t.(blocks := base.blocks) == base
  }

  /**
   * The topologies one step saves (or tries to save), in order: at most one per option, each
   * the base with one more block.
   */
  function Candidates(base: Topology): (r: seq<Topology>)
    ensures |r| <= |Options(base)|
    ensures forall j :: 0 <= j < |r| ==> OneBlockMore(base, r[j])
  {
    if |base.blocks| == 0 then []
    else
      ExtensionsOneBlockMore(base, NextKind(Last(base).kind), Options(base));
      Extensions(base, NextKind(Last(base).kind), Options(base))
  }

  lemma {:induction false} ExtensionsOneBlockMore(base: Topology, k: LKind, opts: seq<int>)
    ensures forall j :: 0 <= j < |Extensions(base, k, opts)| ==> OneBlockMore(base, Extensions(base, k, opts)[j])
  {
    forall j | 0 <= j < |Extensions(base, k, opts)|
      ensures OneBlockMore(base, Extensions(base, k, opts)[j])
    {
      ExtensionsShape(base, k, opts, j);
    }
  }

  /** Each extension adds one block of the given kind with a parameter of the options, and is unimodal. */
  lemma {:induction false} ExtensionsShape(base: Topology, k: LKind, opts: seq<int>, j: int)
    requires 0 <= j < |Extensions(base, k, opts)|
    ensures exists q :: q in opts && Extensions(base, k, opts)[j] == AddBlockRight(base, k, q)
    ensures Unimodal(GValues(Extensions(base, k, opts)[j].blocks))
    decreases |opts|
  {
    var init := opts[..|opts| - 1];
    var q := opts[|opts| - 1];
    if j < |Extensions(base, k, init)| {
      ExtensionsShape(base, k, init, j);
      var q' :| q' in init && Extensions(base, k, init)[j] == AddBlockRight(base, k, q');
      assert q' in opts;
    } else {
      assert Extensions(base, k, opts)[j] == AddBlockRight(base, k, q);
    }
  }

  /** Every option whose extension is unimodal gives a candidate. */
  lemma {:induction false} ExtensionsComplete(base: Topology, k: LKind, opts: seq<int>, q: int)
    requires q in opts && Unimodal(GValues(AddBlockRight(base, k, q).blocks))
    ensures AddBlockRight(base, k, q) in Extensions(base, k, opts)
    decreases |opts|
  {
    var init := opts[..|opts| - 1];
    if q != opts[|opts| - 1] {
      assert opts == init + [opts[|opts| - 1]];
      ExtensionsComplete(base, k, init, q);
    }
  }

  /**
   * The candidates of a step: one more block of the alternate kind whose parameter the table
   * allows after the last block, and unimodal g values.
   */
  lemma {:induction false} CandidatesShape(base: Topology, j: int)
    requires 0 <= j < |Candidates(base)|
    ensures |base.blocks| > 0 && (Last(base).kind == G || Last(base).kind == L)
    ensures Unimodal(GValues(base.blocks))
    ensures exists q :: (q in Allowed(Last(base).kind, Last(base).param)
      && Candidates(base)[j] == AddBlockRight(base, NextKind(Last(base).kind), q))
    ensures Unimodal(GValues(Candidates(base)[j].blocks))
  {
    ExtensionsShape(base, NextKind(Last(base).kind), Options(base), j);
  }

  /** From a unimodal base, every allowed extension that stays unimodal is a candidate. */
  lemma {:induction false} CandidatesComplete(base: Topology, q: int)
    requires |base.blocks| > 0 && Unimodal(GValues(base.blocks))
    requires q in Allowed(Last(base).kind, Last(base).param)
    requires Unimodal(GValues(AddBlockRight(base, NextKind(Last(base).kind), q).blocks))
    ensures AddBlockRight(base, NextKind(Last(base).kind), q) in Candidates(base)
  {
    ExtensionsComplete(base, NextKind(Last(base).kind), Options(base), q);
  }

  /** After a g block every allowed L extension is a candidate: an L block adds no g value. */
  lemma {:induction false} AfterNodeAllOptions(base: Topology, opts: seq<int>)
    requires Unimodal(GValues(base.blocks))
    ensures |Extensions(base, L, opts)| == |opts|
    decreases |opts|
  {
    if |opts| > 0 {
      var t := AddBlockRight(base, L, opts[|opts| - 1]);
      AfterNodeAllOptions(base, opts[..|opts| - 1]);
      GValuesSnoc(base, L, opts[|opts| - 1]);
      assert GValues(t.blocks) == GValues(base.blocks);
      assert Unimodal(GValues(t.blocks));
    }
  }

  /** A unimodal base ending in g(p) has exactly as many candidates as the table has entries for p. */
  lemma {:induction false} NodeEndedCandidates(base: Topology)
    requires |base.blocks| > 0 && Last(base).kind == G && Unimodal(GValues(base.blocks))
    ensures |Candidates(base)| == |Allowed(G, Last(base).param)|
  {
    AfterNodeAllOptions(base, Options(base));
  }

  // ---------------------------------------------------------------- saving

  /** The deduplication set and the log of appends made so far. */
  datatype Store = Store(seen: set<string>, written: seq<Write>)

  /** No line is written twice, and every written line has been seen. */
  predicate StoreOk(st: Store)
  {
    && (forall i, j :: 0 <= i < j < |st.written| ==> st.written[i].line != st.written[j].line)
    && (forall i :: 0 <= i < |st.written| ==> st.written[i].line in st.seen)
  }

  /**
   * save_one_compact_classified on the store: a new line is recorded, and written if LST or SCFT.
   * The line is recorded as seen whatever happens to it next, and the log is only appended to.
   */
  function SaveStep(env: Env, st: Store, t: Topology): (r: Store)
    requires WellFormedBuilder(env.lf)
    ensures r.seen == st.seen + {env.serialize(t)}
    ensures st.written <= r.written
  {
    var line := env.serialize(t);
    if line in st.seen then st
    else
      var st' := st.(seen := st.seen + {line});
      match Judge(env, t)
      case Keep(c) => st'.(written := st.written + [Write(ShardPath(t, env.outDir, CategoryName(c)), line)])
      case _ => st'
  }

  /** Saving keeps the store deduplicated. */
  lemma {:induction false} SaveStepKeepsStore(env: Env, st: Store, t: Topology)
    requires WellFormedBuilder(env.lf) && StoreOk(st)
    ensures StoreOk(SaveStep(env, st, t))
  {
    var line := env.serialize(t);
    var r := SaveStep(env, st, t);
    if line !in st.seen && Judge(env, t).Keep? {
      var w := Write(ShardPath(t, env.outDir, CategoryName(Judge(env, t).category)), line);
      assert r.written == st.written + [w] && r.seen == st.seen + {line};
      forall i, j | 0 <= i < j < |r.written| ensures r.written[i].line != r.written[j].line {
        if j == |st.written| {
          assert r.written[i] == st.written[i] && st.written[i].line in st.seen;
        } else {
          assert r.written[i] == st.written[i] && r.written[j] == st.written[j];
        }
      }
      forall i | 0 <= i < |r.written| ensures r.written[i].line in r.seen {
        if i < |st.written| {
          assert r.written[i] == st.written[i];
        }
      }
    }
  }

  /** A save writes one line exactly when the line is new and its form is LST or SCFT; it goes to that shard. */
  lemma {:induction false} SaveStepWrites(env: Env, st: Store, t: Topology)
    requires WellFormedBuilder(env.lf)
    ensures var r := SaveStep(env, st, t);
      |r.written| == |st.written| + (if env.serialize(t) !in st.seen && Judge(env, t).Keep? then 1 else 0)
    ensures var r := SaveStep(env, st, t);
      |r.written| > |st.written| ==>
        r.written[|st.written|] == Write(ShardPath(t, env.outDir, CategoryName(Judge(env, t).category)), env.serialize(t))
    ensures st.written <= SaveStep(env, st, t).written
  {
  }

  /** Saving the same topology twice is the same as saving it once. */
  lemma {:induction false} SaveStepIdempotent(env: Env, st: Store, t: Topology)
    requires WellFormedBuilder(env.lf)
    ensures SaveStep(env, SaveStep(env, st, t), t) == SaveStep(env, st, t)
  {
  }

  /** Saving a list of topologies in order. */
  function SaveAll(env: Env, st: Store, ts: seq<Topology>): Store
    requires WellFormedBuilder(env.lf)
    decreases |ts|
  {
    if |ts| == 0 then st else SaveStep(env, SaveAll(env, st, ts[..|ts| - 1]), ts[|ts| - 1])
  }

  lemma {:induction false} SaveAllSnoc(env: Env, st: Store, ts: seq<Topology>, t: Topology)
    requires WellFormedBuilder(env.lf)
    ensures SaveAll(env, st, ts + [t]) == SaveStep(env, SaveAll(env, st, ts), t)
  {
    assert (ts + [t])[..|ts|] == ts;
  }

  /** Saving a list keeps the store deduplicated. */
  lemma {:induction false} SaveAllKeepsStore(env: Env, st: Store, ts: seq<Topology>)
    requires WellFormedBuilder(env.lf) && StoreOk(st)
    ensures StoreOk(SaveAll(env, st, ts))
    decreases |ts|
  {
    if |ts| > 0 {
      SaveAllKeepsStore(env, st, ts[..|ts| - 1]);
      SaveStepKeepsStore(env, SaveAll(env, st, ts[..|ts| - 1]), ts[|ts| - 1]);
    }
  }

  /** Saving a list only appends, at most one line per topology. */
  lemma {:induction false} SaveAllAppends(env: Env, st: Store, ts: seq<Topology>)
    requires WellFormedBuilder(env.lf)
    ensures st.written <= SaveAll(env, st, ts).written
    ensures |SaveAll(env, st, ts).written| <= |st.written| + |ts|
    decreases |ts|
  {
    if |ts| > 0 {
      SaveAllAppends(env, st, ts[..|ts| - 1]);
      SaveStepWrites(env, SaveAll(env, st, ts[..|ts| - 1]), ts[|ts| - 1]);
    }
  }

  /** The lines of a list of topologies. */
  function Lines(env: Env, ts: seq<Topology>): set<string>
    decreases |ts|
  {
    if |ts| == 0 then {} else Lines(env, ts[..|ts| - 1]) + {env.serialize(ts[|ts| - 1])}
  }

  /**
   * How many lines a step over ts writes: the topologies whose line is neither in seen nor the
   * line of an earlier topology of ts, and whose form is LST or SCFT.
   */
  function NewKept(env: Env, seen: set<string>, ts: seq<Topology>): (n: nat)
    requires WellFormedBuilder(env.lf)
    ensures n <= |ts|
    decreases |ts|
  {
    if |ts| == 0 then 0
    else
      var init := ts[..|ts| - 1];
      var t := ts[|ts| - 1];
      NewKept(env, seen, init) + (if env.serialize(t) !in seen + Lines(env, init) && Judge(env, t).Keep? then 1 else 0)
  }

  /** After saving a list, the seen set holds exactly the old lines and the list's lines. */
  lemma {:induction false} SaveAllSeen(env: Env, st: Store, ts: seq<Topology>)
    requires WellFormedBuilder(env.lf)
    ensures SaveAll(env, st, ts).seen == st.seen + Lines(env, ts)
    decreases |ts|
  {
    if |ts| > 0 {
      SaveAllSeen(env, st, ts[..|ts| - 1]);
    }
  }

  /** Saving a list appends exactly NewKept lines. */
  lemma {:induction false} SaveAllWritesNewKept(env: Env, st: Store, ts: seq<Topology>)
    requires WellFormedBuilder(env.lf)
    ensures |SaveAll(env, st, ts).written| == |st.written| + NewKept(env, st.seen, ts)
    decreases |ts|
  {
    if |ts| > 0 {
      var init := ts[..|ts| - 1];
      SaveAllWritesNewKept(env, st, init);
      SaveAllSeen(env, st, init);
      SaveStepWrites(env, SaveAll(env, st, init), ts[|ts| - 1]);
    }
  }

  /**
   * The generator's state: the process-wide set of seen lines and the log of file appends.
   */
  class Generator {
    const env: Env
    var seen: set<string>
    var written: seq<Write>

    ghost predicate Valid()
      reads this
    {
      WellFormedBuilder(env.lf) && StoreOk(Store(seen, written))
    }

    function State(): Store
      reads this
    {
      Store(seen, written)
    }

    constructor(env: Env)
      requires WellFormedBuilder(env.lf)
      ensures Valid() && this.env == env && seen == {} && written == []
    {
      this.env := env;
      seen := {};
      written := [];
    }

    /** save_one_compact_classified: dedupe, build the graph, classify, append to the shard. */
    method SaveOneCompactClassified(t: Topology)
      requires Valid()
      modifies this
      ensures Valid() && State() == SaveStep(env, old(State()), t)
    {
      SaveStepKeepsStore(env, State(), t);
      var line := env.serialize(t);
      if line in seen {
        return;
      }
      seen := seen + {line};
      var v := JudgeTopology(env, t);
      if v.Keep? {
        written := written + [Write(ShardPath(t, env.outDir, CategoryName(v.category)), line)];
      }
    }

    /**
     * generate_one_step: save every candidate extension of base; the count returned is the
     * number of candidates, whether or not their lines were new or classified.
     */
    method GenerateOneStep(base: Topology) returns (saved: nat)
      requires Valid()
      modifies this
      ensures Valid() && State() == SaveAll(env, old(State()), Candidates(base))
      ensures saved == |Candidates(base)|
    {
      if |base.blocks| == 0 {
        return 0;
      }
      var ok := GUnimodalPrefixOk(base);
      if !ok {
        return 0;
      }
      var last := base.blocks[|base.blocks| - 1];
      if !(last.kind == G || last.kind == L) {
        return 0;
      }
      var opts := Allowed(last.kind, last.param);
      var next := NextKind(last.kind);
      assert Candidates(base) == Extensions(base, next, opts);
      saved := SaveExtensions(base, next, opts);
    }

    /** The loop over allowed options: each extension whose g parameters stay unimodal is saved. */
    method SaveExtensions(base: Topology, next: LKind, opts: seq<int>) returns (saved: nat)
      requires Valid()
      modifies this
      ensures Valid() && State() == SaveAll(env, old(State()), Extensions(base, next, opts))
      ensures saved == |Extensions(base, next, opts)|
    {
      ghost var st0 := State();
      ghost var done: seq<Topology> := [];
      saved := 0;
      for i := 0 to |opts|
        invariant Valid()
        invariant done == Extensions(base, next, opts[..i])
        invariant State() == SaveAll(env, st0, done)
        invariant saved == |done|
      {
        var t := AddBlockRight(base, next, opts[i]);
        ExtensionsStep(base, next, opts, i);
        var keep := SaveIfUnimodal(t, st0, done);
        if keep {
          done := done + [t];
          saved := saved + 1;
        }
      }
      assert opts[..|opts|] == opts;
    }

    /** One iteration of the option loop: the extension is saved when its g values stay unimodal. */
    method SaveIfUnimodal(t: Topology, ghost st0: Store, ghost done: seq<Topology>) returns (keep: bool)
      requires Valid() && State() == SaveAll(env, st0, done)
      modifies this
      ensures keep == Unimodal(GValues(t.blocks))
      ensures Valid() && State() == SaveAll(env, st0, if keep then done + [t] else done)
    {
      keep := GUnimodalPrefixOk(t);
      if keep {
        SaveAllSnoc(env, st0, done, t);
        SaveOneCompactClassified(t);
      }
    }

    /**
     * One step counting only the lines it wrote, which is what the "Generated N LST/SCFT
     * topologies" report means: the candidates with a new line and an LST or SCFT form.
     */
    method GenerateOneStepWritten(base: Topology) returns (saved: nat)
      requires Valid()
      modifies this
      ensures Valid() && State() == SaveAll(env, old(State()), Candidates(base))
      ensures saved == NewKept(env, old(seen), Candidates(base))
      ensures old(written) <= written
    {
      ghost var before := State();
      SaveAllAppends(env, before, Candidates(base));
      SaveAllWritesNewKept(env, before, Candidates(base));
      var n0 := |written|;
      var _ := GenerateOneStep(base);
      saved := |written| - n0;
    }
  }

  /** Repeating a step on the same base writes nothing new, yet generate_one_step's count is unchanged. */
  lemma {:induction false} RepeatedStepWritesNothing(env: Env, st: Store, ts: seq<Topology>)
    requires WellFormedBuilder(env.lf)
    requires forall k :: 0 <= k < |ts| ==> env.serialize(ts[k]) in st.seen
    ensures SaveAll(env, st, ts) == st
    decreases |ts|
  {
    if |ts| > 0 {
      RepeatedStepWritesNothing(env, st, ts[..|ts| - 1]);
    }
  }

  /** After one step every candidate's line has been seen. */
  lemma {:induction false} SaveAllSeesAll(env: Env, st: Store, ts: seq<Topology>)
    requires WellFormedBuilder(env.lf)
    ensures forall k :: 0 <= k < |ts| ==> env.serialize(ts[k]) in SaveAll(env, st, ts).seen
    ensures st.seen <= SaveAll(env, st, ts).seen
    decreases |ts|
  {
    if |ts| > 0 {
      var init := ts[..|ts| - 1];
      SaveAllSeesAll(env, st, init);
      forall k | 0 <= k < |ts|
        ensures env.serialize(ts[k]) in SaveAll(env, st, ts).seen
      {
        if k < |ts| - 1 {
          assert ts[k] == init[k];
        }
      }
    }
  }

  /**
   * Running generate_one_step twice on a base with candidates: the second call reports as
   * many topologies as the first (GenerateOneStep's count is the number of candidates), but
   * writes none, so its report is wrong.
   */
  lemma {:induction false} SecondStepOvercounts(env: Env, st: Store, base: Topology)
    requires WellFormedBuilder(env.lf) && |Candidates(base)| > 0
    ensures var once := SaveAll(env, st, Candidates(base));
      SaveAll(env, once, Candidates(base)) == once
    ensures var once := SaveAll(env, st, Candidates(base));
      NewKept(env, once.seen, Candidates(base)) == 0 < |Candidates(base)|
  {
    var ts := Candidates(base);
    SaveAllSeesAll(env, st, ts);
    RepeatedStepWritesNothing(env, SaveAll(env, st, ts), ts);
    SaveAllWritesNewKept(env, SaveAll(env, st, ts), ts);
  }

  /** The single block g(4): a step has nine candidates, and a repeated step writes none of them. */
  lemma {:induction false} OneNodeStepOvercounts(env: Env, st: Store)
    requires WellFormedBuilder(env.lf)
    ensures var base := Topology([Block(G, 4)], [], [], [], [], []);
      var once := SaveAll(env, st, Candidates(base));
      |Candidates(base)| == 9 && NewKept(env, once.seen, Candidates(base)) == 0
  {
    var base := Topology([Block(G, 4)], [], [], [], [], []);
    assert GValues(base.blocks) == [4] by {
      assert base.blocks[..0] == [];
    }
    assert RisesTo([4], 0) && FallsFrom([4], 0);
    NodeEndedCandidates(base);
    SecondStepOvercounts(env, st, base);
  }
}
