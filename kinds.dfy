/**
 * Block kinds, specs, ports and the errors raised while building theories and graphs.
 * The local-matrix builder (build_tensor on top of Tensor.h) is a parameter of the model.
 */
module Kinds {
  import opened Matrices
  import opened Text

  datatype Kind = SideLink | InteriorLink | Node | External

  /** A typed numeric tag: s(p), i(p), n(p), e(p). */
  datatype Spec = Spec(kind: Kind, param: int)

  datatype Port = Left | Right | Custom

  /** The std::invalid_argument / std::out_of_range conditions of the core. */
  datatype Error =
    | ForbiddenAdjacency      // s-i pair in a graph
    | PortingRule             // side-node param or port table
    | InteriorNodeRule        // interior-node param table
    | InteriorNodePortRule    // interior-node port table
    | NonPositiveWeight
    | InteriorParamDigits     // i(p) with p not written with 2 or 3 characters
    | ForbiddenInsideSegment
    | ForbiddenAcrossSegments
    | IndexOutOfRange         // vector::at

  datatype Result<T> = Ok(value: T) | Err(error: Error)

  datatype Option<T> = None | Some(value: T)

  datatype Outcome = Pass | Fail(error: Error)

  /** The local intersection form of one block (build_tensor followed by GetIntersectionForm). */
  type LocalForm = Spec -> Matrix

  /** What every caller assumes of the builder: each local form is a square matrix. */
  ghost predicate WellFormedBuilder(lf: LocalForm)
  {
    forall sp: Spec :: Square(lf(sp))
  }

  /** What the symmetry results assume in addition: each local form is symmetric. */
  ghost predicate SymmetricBuilder(lf: LocalForm)
  {
    forall sp: Spec :: Square(lf(sp)) && Symmetric(lf(sp))
  }

  /**
   * build_tensor throws for an interior link whose parameter text is not 2 or 3 characters,
   * that is, whose parameter lies outside -99..-1 and 10..999.
   */
  function BuildThrows(sp: Spec): (b: bool)
    ensures b <==> sp.kind == InteriorLink && !(-99 <= sp.param <= -1 || 10 <= sp.param <= 999)
  {
    IntToStringTwoOrThree(sp.param);
    sp.kind == InteriorLink && !(|IntToString(sp.param)| == 2 || |IntToString(sp.param)| == 3)
  }

  /** No spec of the list makes build_tensor throw. */
  predicate AllBuild(specs: seq<Spec>)
  {
    forall k :: 0 <= k < |specs| ==> !BuildThrows(specs[k])
  }
}
