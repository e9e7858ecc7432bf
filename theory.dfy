/**
 * The sequential Theory of Theory.h: a list of segments of pieces, built from specs, where
 * no side link may sit next to an interior link, inside a segment or across a boundary.
 */
module LinearTheory {
  import opened Matrices
  import opened Kinds
  import opened Rules
  import opened Text

  /** A piece: its kind and the local intersection form of its tensor. */
  datatype Piece = Piece(kind: Kind, form: Matrix)

  type Segment = seq<Piece>

  /** The pieces of all segments, in order. */
  function Flatten(segs: seq<Segment>): seq<Piece>
    decreases |segs|
  {
    if |segs| == 0 then [] else Flatten(segs[..|segs| - 1]) + segs[|segs| - 1]
  }

  /** No two consecutive pieces form an s-i pair. */
  predicate ChainOk(ps: seq<Piece>)
  {
    forall k :: 1 <= k < |ps| ==> !Forbidden(ps[k - 1].kind, ps[k].kind)
  }

  function PieceForms(ps: seq<Piece>): (fs: seq<Matrix>)
    ensures |fs| == |ps|
  {
    seq(|ps|, (k: int) requires 0 <= k < |ps| => ps[k].form)
  }

  predicate SquarePieces(ps: seq<Piece>)
  {
    forall k :: 0 <= k < |ps| ==> Square(ps[k].form)
  }

  /** check_inside_: the first s-i pair inside the segment is an error; one piece never fails. */
  function InsideVerdict(seg: Segment): (r: Outcome)
    ensures r.Pass? || r == Fail(ForbiddenInsideSegment)
    ensures |seg| <= 1 ==> r == Pass
    ensures r.Pass? ==> forall k :: 1 <= k < |seg| ==> !Forbidden(seg[k - 1].kind, seg[k].kind)
  {
    if ChainOk(seg) then Pass else Fail(ForbiddenInsideSegment)
  }

  /**
   * check_boundary_, as intended: the first piece of the new segment is compared with the
   * last piece placed so far, and there is nothing to compare when no piece has been placed.
   * It fails only with the across-segments error, and only when both pieces exist.
   */
  function BoundaryVerdict(segs: seq<Segment>, seg: Segment): (r: Outcome)
    ensures r.Fail? ==> r == Fail(ForbiddenAcrossSegments) && |seg| > 0 && |Flatten(segs)| > 0
  {
    var placed := Flatten(segs);
    if |placed| == 0 || |seg| == 0 then Pass
    else if Forbidden(placed[|placed| - 1].kind, seg[0].kind) then Fail(ForbiddenAcrossSegments)
    else Pass
  }

  /** append: the inside check, then the boundary check; an inside fault is reported first. */
  function AppendVerdict(segs: seq<Segment>, seg: Segment): (r: Outcome)
    ensures !ChainOk(seg) ==> r == Fail(ForbiddenInsideSegment)
    ensures r.Fail? ==> r.error == ForbiddenInsideSegment || r.error == ForbiddenAcrossSegments
  {
    if InsideVerdict(seg).Fail? then InsideVerdict(seg) else BoundaryVerdict(segs, seg)
  }

  /** An append is accepted exactly when the placed pieces stay free of s-i neighbours. */
  lemma {:induction false} AppendKeepsChain(segs: seq<Segment>, seg: Segment)
    requires ChainOk(Flatten(segs))
    ensures AppendVerdict(segs, seg) == Pass <==> ChainOk(Flatten(segs) + seg)
  {
    var placed := Flatten(segs);
    var all := placed + seg;
    if AppendVerdict(segs, seg) == Pass {
      forall k | 1 <= k < |all| ensures !Forbidden(all[k - 1].kind, all[k].kind) {
        if k > |placed| {
          assert all[k - 1] == seg[k - 1 - |placed|] && all[k] == seg[k - |placed|];
        } else if k == |placed| {
          assert all[k] == seg[0];
        }
      }
    } else if InsideVerdict(seg).Fail? {
      var k :| 1 <= k < |seg| && Forbidden(seg[k - 1].kind, seg[k].kind);
      assert all[|placed| + k - 1] == seg[k - 1] && all[|placed| + k] == seg[k];
    } else {
      assert all[|placed| - 1] == placed[|placed| - 1] && all[|placed|] == seg[0];
    }
  }

  // ---------------------------------------------------------------- the undefined boundary

  /** check_boundary_ as written reads the last piece of the last segment, which must exist. */
  predicate BoundaryDefined(segs: seq<Segment>, seg: Segment)
  {
    |segs| == 0 || |seg| == 0 || |segs[|segs| - 1]| > 0
  }

  /** check_boundary_ as written: compares against segments_.back().back(). */
  function BoundaryAsWritten(segs: seq<Segment>, seg: Segment): (r: Outcome)
    requires BoundaryDefined(segs, seg)
    ensures |segs| > 0 && |segs[|segs| - 1]| > 0 ==> r == BoundaryVerdict(segs, seg)
  {
    if |segs| == 0 || |seg| == 0 then Pass
    else
      var last := segs[|segs| - 1];
      if Forbidden(last[|last| - 1].kind, seg[0].kind) then Fail(ForbiddenAcrossSegments) else Pass
  }

  /**
   * An empty segment is accepted into an empty theory; the next non-empty segment then makes
   * the written boundary check read the last piece of an empty segment.
   */
  lemma {:induction false} EmptySegmentBreaksBoundary(f: Matrix)
    ensures AppendVerdict([], []) == Pass
    ensures !BoundaryDefined([[]], [Piece(SideLink, f)])
    ensures BoundaryVerdict([[]], [Piece(SideLink, f)]) == Pass
  {
    assert Flatten([[]]) == Flatten([]) + [];
  }

  // ---------------------------------------------------------------- construction from specs

  function PiecesOf(lf: LocalForm, specs: seq<Spec>): (ps: seq<Piece>)
    ensures |ps| == |specs|
  {
    seq(|specs|, (k: int) requires 0 <= k < |specs| => Piece(specs[k].kind, lf(specs[k])))
  }

  lemma {:induction false} PiecesOfSnoc(lf: LocalForm, specs: seq<Spec>, n: nat)
    requires n < |specs|
    ensures PiecesOf(lf, specs[..n + 1]) == PiecesOf(lf, specs[..n]) + [Piece(specs[n].kind, lf(specs[n]))]
  {
    var a, b := PiecesOf(lf, specs[..n + 1]), PiecesOf(lf, specs[..n]) + [Piece(specs[n].kind, lf(specs[n]))];
    forall t | 0 <= t <= n ensures a[t] == b[t] {
    }
  }

  lemma {:induction false} PiecesSquare(lf: LocalForm, specs: seq<Spec>)
    requires WellFormedBuilder(lf)
    ensures SquarePieces(PiecesOf(lf, specs))
  {
    var ps := PiecesOf(lf, specs);
    forall k | 0 <= k < |ps| ensures Square(ps[k].form) {
      assert ps[k].form == lf(specs[k]);
    }
  }

  function SegmentsOf(lf: LocalForm, segs: seq<seq<Spec>>): (ss: seq<Segment>)
    ensures |ss| == |segs|
  {
    seq(|segs|, (k: int) requires 0 <= k < |segs| => PiecesOf(lf, segs[k]))
  }

  /**
   * Theory::from: segment by segment, every piece is built (an i(p) of the wrong width throws)
   * and the segment is then appended. It passes only when every spec builds, and fails only with
   * a build or an adjacency error.
   */
  function FromVerdict(lf: LocalForm, segs: seq<seq<Spec>>): (r: Outcome)
    ensures r.Pass? ==> AllSegmentsBuild(segs)
    ensures r.Fail? ==> r.error in {InteriorParamDigits, ForbiddenInsideSegment, ForbiddenAcrossSegments}
    decreases |segs|
  {
    if |segs| == 0 then Pass
    else
      var before := segs[..|segs| - 1];
      var last := segs[|segs| - 1];
      if FromVerdict(lf, before).Fail? then FromVerdict(lf, before)
      else if !AllBuild(last) then Fail(InteriorParamDigits)
      else AppendVerdict(SegmentsOf(lf, before), PiecesOf(lf, last))
  }

  /** Once a prefix of the segments fails, Theory::from fails with that error. */
  lemma {:induction false} FromFailPersists(lf: LocalForm, segs: seq<seq<Spec>>, m: nat)
    requires m <= |segs| && FromVerdict(lf, segs[..m]).Fail?
    ensures FromVerdict(lf, segs) == FromVerdict(lf, segs[..m])
    decreases |segs| - m
  {
    if m < |segs| {
      assert segs[..m + 1][..m] == segs[..m];
      FromFailPersists(lf, segs, m + 1);
    } else {
      assert segs[..m] == segs;
    }
  }

  /** No spec of any segment makes build_tensor throw; segments are taken in order, as Theory::from does. */
  predicate AllSegmentsBuild(segs: seq<seq<Spec>>)
    decreases |segs|
  {
    |segs| == 0 || (AllSegmentsBuild(segs[..|segs| - 1]) && AllBuild(segs[|segs| - 1]))
  }

  lemma {:induction false} SegmentsOfPrefix(lf: LocalForm, segs: seq<seq<Spec>>)
    requires |segs| > 0
    ensures SegmentsOf(lf, segs) == SegmentsOf(lf, segs[..|segs| - 1]) + [PiecesOf(lf, segs[|segs| - 1])]
  {
  }

  lemma {:induction false} FlattenSnoc(lf: LocalForm, segs: seq<seq<Spec>>)
    requires |segs| > 0
    ensures Flatten(SegmentsOf(lf, segs))
      == Flatten(SegmentsOf(lf, segs[..|segs| - 1])) + PiecesOf(lf, segs[|segs| - 1])
  {
    var ss := SegmentsOf(lf, segs);
    SegmentsOfPrefix(lf, segs);
    assert ss[..|ss| - 1] == SegmentsOf(lf, segs[..|segs| - 1]);
  }

  /**
   * Theory::from succeeds exactly when every spec builds and no two consecutive pieces of the
   * whole theory, across segment boundaries included, form an s-i pair.
   */
  lemma {:induction false} FromPassesIff(lf: LocalForm, segs: seq<seq<Spec>>)
    ensures FromVerdict(lf, segs) == Pass
      <==> AllSegmentsBuild(segs) && ChainOk(Flatten(SegmentsOf(lf, segs)))
    decreases |segs|
  {
    if |segs| > 0 {
      var before := segs[..|segs| - 1];
      var sb := SegmentsOf(lf, before);
      var pl := PiecesOf(lf, segs[|segs| - 1]);
      FromPassesIff(lf, before);
      FlattenSnoc(lf, segs);
      if ChainOk(Flatten(sb)) {
        AppendKeepsChain(sb, pl);
      }
      if ChainOk(Flatten(sb) + pl) {
        ChainPrefix(Flatten(sb), pl);
      }
    }
  }

  lemma {:induction false} ChainPrefix(a: seq<Piece>, b: seq<Piece>)
    requires ChainOk(a + b)
    ensures ChainOk(a)
  {
    forall k | 1 <= k < |a| ensures !Forbidden(a[k - 1].kind, a[k].kind) {
      assert (a + b)[k - 1] == a[k - 1] && (a + b)[k] == a[k];
    }
  }

  lemma {:induction false} ForbiddenBreaksChain(lf: LocalForm, segs: seq<seq<Spec>>, k: nat, j: nat)
    requires k < |segs| && 1 <= j < |segs[k]|
    requires Forbidden(segs[k][j - 1].kind, segs[k][j].kind)
    ensures !ChainOk(Flatten(SegmentsOf(lf, segs)))
  {
    var ss := SegmentsOf(lf, segs);
    FlattenContains(ss, k);
    var off := |Flatten(ss[..k])|;
    var flat := Flatten(ss);
    assert ss[k] == PiecesOf(lf, segs[k]);
    assert flat[off + j - 1] == ss[k][j - 1] && flat[off + j] == ss[k][j];
    assert ss[k][j - 1].kind == segs[k][j - 1].kind && ss[k][j].kind == segs[k][j].kind;
    assert Forbidden(flat[off + j - 1].kind, flat[off + j].kind);
  }

  /** A segment containing an adjacent s-i pair can never be part of a theory. */
  lemma {:induction false} ForbiddenSegmentRejected(lf: LocalForm, segs: seq<seq<Spec>>, k: nat, j: nat)
    requires k < |segs| && 1 <= j < |segs[k]|
    requires Forbidden(segs[k][j - 1].kind, segs[k][j].kind)
    ensures FromVerdict(lf, segs).Fail?
  {
    FromPassesIff(lf, segs);
    ForbiddenBreaksChain(lf, segs, k, j);
  }

  /** Segment k sits inside the flattened pieces right after the pieces of the segments before it. */
  lemma {:induction false} FlattenContains(segs: seq<Segment>, k: nat)
    requires k < |segs|
    ensures |Flatten(segs[..k])| + |segs[k]| <= |Flatten(segs)|
    ensures forall j :: 0 <= j < |segs[k]| ==> Flatten(segs)[|Flatten(segs[..k])| + j] == segs[k][j]
    decreases |segs|
  {
    var n := |segs|;
    var init := segs[..n - 1];
    assert Flatten(segs) == Flatten(init) + segs[n - 1];
    if k < n - 1 {
      FlattenContains(init, k);
      assert init[..k] == segs[..k] && init[k] == segs[k];
      var off := |Flatten(segs[..k])|;
      forall j | 0 <= j < |segs[k]| ensures Flatten(segs)[off + j] == segs[k][j] {
        ConcatIndex(Flatten(init), segs[n - 1], off + j);
      }
    } else {
      assert init == segs[..k];
      forall j | 0 <= j < |segs[k]| ensures Flatten(segs)[|Flatten(init)| + j] == segs[k][j] {
        ConcatIndex(Flatten(init), segs[n - 1], |Flatten(init)| + j);
      }
    }
  }

  // ---------------------------------------------------------------- the Theory object

  class Theory {
    var segments: seq<Segment>

    /** Every placed piece has a square form and no two consecutive pieces form an s-i pair. */
    ghost predicate Valid()
      reads this
    {
      ChainOk(Flatten(segments)) && SquarePieces(Flatten(segments))
    }

    constructor ()
      ensures Valid() && segments == []
    {
      segments := [];
    }

    /**
     * check_boundary_ with the intended reading: the last piece placed, if any. Where the last
     * segment is non-empty this is the written back().back() comparison (BoundaryAsWritten);
     * the scan past empty trailing segments is the correction, which the code does not have.
     */
    method CheckBoundary(seg: Segment) returns (r: Outcome)
      ensures r == BoundaryVerdict(segments, seg)
    {
      if |segments| == 0 || |seg| == 0 {
        assert Flatten(segments) == [] || |seg| == 0;
        return Pass;
      }
      var i := |segments|;
      assert segments[..i] == segments;
      while i > 0 && |segments[i - 1]| == 0
        invariant 0 <= i <= |segments|
        invariant Flatten(segments) == Flatten(segments[..i])
      {
        assert segments[..i][..i - 1] == segments[..i - 1];
        i := i - 1;
      }
      if i == 0 {
        return Pass;
      }
      assert segments[..i][..i - 1] == segments[..i - 1];
      var last := segments[i - 1];
      if Forbidden(last[|last| - 1].kind, seg[0].kind) {
        return Fail(ForbiddenAcrossSegments);
      }
      return Pass;
    }

    /** append: the new segment is added at the end when both checks pass, else nothing changes. */
    method Append(seg: Segment) returns (r: Outcome)
      requires Valid() && SquarePieces(seg)
      modifies this
      ensures Valid()
      ensures r == AppendVerdict(old(segments), seg)
      ensures r.Pass? ==> segments == old(segments) + [seg]
      ensures r.Fail? ==> segments == old(segments)
    {
      r := CheckInside(seg);
      if r.Fail? {
        return;
      }
      r := CheckBoundary(seg);
      if r.Fail? {
        return;
      }
      AppendKeepsChain(segments, seg);
      var placed := Flatten(segments);
      segments := segments + [seg];
      assert segments[..|segments| - 1] == old(segments);
      assert Flatten(segments) == placed + seg;
      forall k | 0 <= k < |placed + seg| ensures Square((placed + seg)[k].form) {
        if k >= |placed| {
          assert (placed + seg)[k] == seg[k - |placed|];
        }
      }
    }

    /** IF(seg, piece): the local form of one piece; an index out of range is an error. */
    function IF(seg: nat, piece: nat): (r: Result<Matrix>)
      reads this
      ensures r.Ok? <==> seg < |segments| && piece < |segments[seg]|
      ensures r.Ok? ==> r.value == segments[seg][piece].form
    {
      if seg < |segments| && piece < |segments[seg]| then Ok(segments[seg][piece].form)
      else Err(IndexOutOfRange)
    }

    /** TheoryIF_BlockDiag: the block-diagonal sum of every piece's form, segment by segment. */
    method TheoryIFBlockDiag() returns (m: Matrix)
      requires Valid()
      ensures AllSquare(PieceForms(Flatten(segments)))
      ensures m == BlockDiag(PieceForms(Flatten(segments)))
    {
      var blocks: seq<Matrix> := [];
      for si := 0 to |segments|
        invariant blocks == PieceForms(Flatten(segments[..si]))
      {
        var seg := segments[si];
        for pi := 0 to |seg|
          invariant blocks == PieceForms(Flatten(segments[..si]) + seg[..pi])
        {
          assert seg[..pi + 1] == seg[..pi] + [seg[pi]];
          blocks := blocks + [seg[pi].form];
        }
        assert segments[..si + 1][..si] == segments[..si];
        assert seg[..|seg|] == seg;
      }
      assert segments[..|segments|] == segments;
      m := BlockDiagOf(blocks);
    }
  }

  /** check_inside_: scans the consecutive pairs of the segment. */
  method CheckInside(seg: Segment) returns (r: Outcome)
    ensures r == InsideVerdict(seg)
  {
    var k := 1;
    while k < |seg|
      invariant 1 <= k
      invariant forall t :: 1 <= t < k && t < |seg| ==> !Forbidden(seg[t - 1].kind, seg[t].kind)
    {
      if Forbidden(seg[k - 1].kind, seg[k].kind) {
        return Fail(ForbiddenInsideSegment);
      }
      k := k + 1;
    }
    return Pass;
  }

  /** The pieces of one segment of Theory::from, built in order; a throwing build stops it. */
  method BuildSegment(lf: LocalForm, specs: seq<Spec>) returns (seg: Segment, r: Outcome)
    requires WellFormedBuilder(lf)
    ensures r == (if AllBuild(specs) then Pass else Fail(InteriorParamDigits))
    ensures r.Pass? ==> seg == PiecesOf(lf, specs) && SquarePieces(seg)
  {
    seg := [];
    for pi := 0 to |specs|
      invariant AllBuild(specs[..pi]) && seg == PiecesOf(lf, specs[..pi])
    {
      if BuildThrows(specs[pi]) {
        return seg, Fail(InteriorParamDigits);
      }
      PiecesOfSnoc(lf, specs, pi);
      seg := seg + [Piece(specs[pi].kind, lf(specs[pi]))];
      assert AllBuild(specs[..pi + 1]) by {
        assert specs[..pi + 1] == specs[..pi] + [specs[pi]];
      }
    }
    assert specs[..|specs|] == specs;
    PiecesSquare(lf, specs);
    r := Pass;
  }

  /** Theory::from: builds each segment's pieces, then appends the segment. */
  method From(lf: LocalForm, segs: seq<seq<Spec>>) returns (t: Theory, r: Outcome)
    requires WellFormedBuilder(lf)
    ensures fresh(t) && t.Valid()
    ensures r == FromVerdict(lf, segs)
    ensures r.Pass? ==> t.segments == SegmentsOf(lf, segs)
  {
    t := new Theory();
    for si := 0 to |segs|
      invariant fresh(t) && t.Valid()
      invariant FromVerdict(lf, segs[..si]) == Pass
      invariant t.segments == SegmentsOf(lf, segs[..si])
    {
      assert segs[..si + 1][..si] == segs[..si];
      assert segs[..si + 1][si] == segs[si];
      var seg;
      seg, r := BuildSegment(lf, segs[si]);
      if r.Pass? {
        r := t.Append(seg);
        if r.Pass? {
          SegmentsOfPrefix(lf, segs[..si + 1]);
        }
      }
      assert r == FromVerdict(lf, segs[..si + 1]);
      if r.Fail? {
        FromFailPersists(lf, segs, si + 1);
        return;
      }
    }
    assert segs[..|segs|] == segs;
    r := Pass;
  }
}
