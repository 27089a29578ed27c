/** The per-resolution-level mask handling of the registration base component:
    which masks to erode, how a mask image becomes a mask spatial object, and
    the release of the image pyramids' output at the end of a level. */
module Registration {
  import opened Wrappers
  import opened Config

  // ---------------------------------------------------------------------------
  // Parameter names
  // ---------------------------------------------------------------------------

  /** Which of the two masks a call is about. */
  datatype Side = Fixed | Moving

  /** The word the parameter names use for a side. */
  function SideName(side: Side): string {
    match side
    case Fixed => "Fixed"
    case Moving => "Moving"
  }

  /** `ErodeFixedMask` or `ErodeMovingMask`: the name prefix of a side's parameters. */
  function ErodeMaskOption(side: Side): string {
    "Erode" + SideName(side) + "Mask"
  }

  /** The three kinds of parameter that decide mask erosion. */
  datatype ErosionParameter =
    | ErodeMask                                 // every mask of both sides
    | ErodeSideMask(side: Side)                 // every mask of one side
    | ErodeSideMaskOf(side: Side, index: nat)   // one mask of one side

  /** The name a parameter has in the parameter file: `ErodeMask`,
      `ErodeFixedMask`, `ErodeMovingMask3`, ... */
  function ParameterName(p: ErosionParameter): string {
    match p
    case ErodeMask => "ErodeMask"
    case ErodeSideMask(side) => ErodeMaskOption(side)
    case ErodeSideMaskOf(side, i) => ErodeMaskOption(side) + NatToString(i)
  }

  /** The value a read of parameter `p` for `level` finds: the parameter's
      entry for that level, or else its first entry, which the reads name as
      their default entry. */
  function Given(config: Configuration, p: ErosionParameter, level: nat): Option<bool> {
    config.Lookup(ParameterName(p), level, 0)
  }

  // ---------------------------------------------------------------------------
  // Resolution of the erosion flags
  // ---------------------------------------------------------------------------

  /** The erosion every mask of `side` gets unless it has its own parameter:
      `true`, overwritten by `ErodeMask`, then by `Erode<Side>Mask`. */
  function SideDefault(config: Configuration, side: Side, level: nat): bool {
    var erosionOrNot := config.ReadParameter(true, ParameterName(ErodeMask), level, 0);
    config.ReadParameter(erosionOrNot, ParameterName(ErodeSideMask(side)), level, 0)
  }

  /** The erosion wanted for mask `i` of `side` at `level`, computed the way the
      parameters are read: the side default, overwritten by `Erode<Side>Mask<i>`
      if present. The contract restates this as a precedence: the most specific
      parameter that is present decides, and `true` when none is. */
  function ResolveFlag(config: Configuration, side: Side, level: nat, i: nat): (b: bool)
    ensures b == Given(config, ErodeSideMaskOf(side, i), level).GetOr(
                   Given(config, ErodeSideMask(side), level).GetOr(
                     Given(config, ErodeMask, level).GetOr(true)))
  {
    config.ReadParameter(SideDefault(config, side, level), ParameterName(ErodeSideMaskOf(side, i)), level, 0)
  }

  /** The erosion flags of masks `0 .. n-1` of `side` at `level`, in order. */
  function ResolvedFlags(config: Configuration, side: Side, level: nat, n: nat): (flags: seq<bool>)
    ensures |flags| == n
  {
    if n == 0 then [] else ResolvedFlags(config, side, level, n - 1) + [ResolveFlag(config, side, level, n - 1)]
  }

  /** Entry `k` of the resolved flags is the resolution for mask `k`. */
  lemma {:induction false} ResolvedFlagsAt(config: Configuration, side: Side, level: nat, n: nat, k: nat)
    requires k < n
    ensures ResolvedFlags(config, side, level, n)[k] == ResolveFlag(config, side, level, k)
  {
    var prefix, last := ResolvedFlags(config, side, level, n - 1), ResolveFlag(config, side, level, n - 1);
    assert ResolvedFlags(config, side, level, n) == prefix + [last];
    if k < n - 1 {
      ResolvedFlagsAt(config, side, level, n - 1, k);
      assert (prefix + [last])[k] == prefix[k];
    }
  }

  /** Whether any flag is set: the `|=` accumulation over the flags in order. */
  function Disjunction(flags: seq<bool>): bool {
    if flags == [] then false else Disjunction(flags[..|flags| - 1]) || flags[|flags| - 1]
  }

  /** Appending a flag ORs it in. */
  lemma DisjunctionSnoc(flags: seq<bool>, x: bool)
    ensures Disjunction(flags + [x]) == (Disjunction(flags) || x)
  {
  }

  /** The accumulated OR is set exactly when some flag is. */
  lemma {:induction false} DisjunctionIsAny(flags: seq<bool>)
    ensures Disjunction(flags) <==> exists k :: 0 <= k < |flags| && flags[k]
  {
    if flags != [] {
      var prefix := flags[..|flags| - 1];
      DisjunctionIsAny(prefix);
      assert forall k :: 0 <= k < |prefix| ==> prefix[k] == flags[k];
    }
  }

  /** One step of the resolution loop: reading mask `i`'s parameter over the
      side default extends the resolved flags and their accumulated OR by that
      mask. */
  lemma ResolveStep(config: Configuration, side: Side, level: nat, i: nat,
                    resolved: seq<bool>, v: bool)
    requires resolved == ResolvedFlags(config, side, level, i)
    requires v == config.ReadParameter(SideDefault(config, side, level), ParameterName(ErodeSideMaskOf(side, i)), level, 0)
    ensures resolved + [v] == ResolvedFlags(config, side, level, i + 1)
    ensures Disjunction(resolved + [v]) == (Disjunction(resolved) || v)
  {
  }

  /** Overwriting entry `i` just past the prefix `done` of length `i` moves it
      into the prefix. */
  lemma UpdateAfterPrefix<T>(done: seq<T>, initial: seq<T>, i: nat, v: T)
    requires |done| == i < |initial|
    ensures (done + initial[i..])[i := v] == (done + [v]) + initial[i + 1..]
  {
  }

  /** The caller's array of per-mask erosion flags: a resizable vector that the
      resolution overwrites in place. */
  class MaskErosionArray {
    var elements: seq<bool>

    constructor (initial: seq<bool>)
      ensures elements == initial
    {
      elements := initial;
    }

    /** Keep the first `n` elements, appending `fill` when the array grows. */
    method Resize(n: nat, fill: bool)
      modifies this
      ensures elements == if n <= |old(elements)| then old(elements)[..n]
                          else old(elements) + seq(n - |old(elements)|, _ => fill)
    {
      if n <= |elements| {
        elements := elements[..n];
      } else {
        elements := elements + seq(n - |elements|, _ => fill);
      }
    }

    method Clear()
      modifies this
      ensures elements == []
    {
      elements := [];
    }

    method Set(i: nat, value: bool)
      requires i < |elements|
      modifies this
      ensures elements == old(elements)[i := value]
    {
      elements := elements[i := value];
    }
  }

  // ---------------------------------------------------------------------------
  // Masks, pyramids and mask spatial objects
  // ---------------------------------------------------------------------------

  /** A binary mask image. */
  datatype MaskImage = MaskImage(pixels: seq<bool>)

  /** A mask spatial object: the region of interest a metric samples in,
      defined by the image it wraps. */
  datatype MaskSpatialObject = MaskSpatialObject(image: MaskImage)

  /** An exception as the toolkit throws it: where it was raised and why. */
  datatype ExceptionObject = ExceptionObject(location: string, description: string)

  /** Everything the erosion filter is given: the mask, the pyramid's shrink
      schedule (one row of per-axis factors per level), which side the mask is
      on and the resolution level. */
  datatype ErosionRequest = ErosionRequest(
    input: MaskImage, schedule: seq<seq<nat>>, isMovingMask: bool, level: nat)

  /** What one level of a pyramid holds: its image data, or nothing once released. */
  datatype OutputData = Released | Buffer(pixels: seq<int>)

  /** A multi-resolution image pyramid: its schedule and one output per level. */
  class ImagePyramid {
    const schedule: seq<seq<nat>>
    var outputs: seq<OutputData>

    constructor (schedule: seq<seq<nat>>, outputs: seq<OutputData>)
      ensures this.schedule == schedule && this.outputs == outputs
    {
      this.schedule := schedule;
      this.outputs := outputs;
    }

    /** Free the image data of one level. */
    method ReleaseData(level: nat)
      requires level < |outputs|
      modifies this
      ensures outputs == old(outputs)[level := Released]
    {
      outputs := outputs[level := Released];
    }
  }

  /** The location every re-thrown erosion failure carries. */
  const UpdateMasksLocation: string := "RegistrationBase - UpdateMasks()"

  /** The text appended to an erosion failure's description. */
  function ErosionFailureSuffix(side: Side): string {
    match side
    case Fixed => "\nError while eroding the fixed mask.\n"
    case Moving => "\nError while eroding the moving mask.\n"
  }

  /** The request the erosion filter receives for `side`: the moving-mask flag
      is set exactly for the moving side. */
  function ErosionRequestFor(side: Side, maskImage: MaskImage, pyramid: ImagePyramid, level: nat): ErosionRequest {
    ErosionRequest(maskImage, pyramid.schedule, side == Moving, level)
  }

  /** The mask spatial object of one side for one level. `erode` is the erosion
      filter: it either produces the eroded mask or throws. */
  function GenerateMaskSpatialObject(
    side: Side, maskImage: Option<MaskImage>, useMaskErosion: bool,
    pyramid: ImagePyramid?, level: nat, erode: ErosionRequest -> Result<MaskImage, ExceptionObject>)
    : (r: Result<Option<MaskSpatialObject>, ExceptionObject>)
    // no mask image, and only then, gives no mask object
    ensures r == Success(None) <==> maskImage.None?
    // nothing to erode with: the input mask is wrapped unchanged
    ensures maskImage.Some? && (!useMaskErosion || pyramid == null) ==>
              r == Success(Some(MaskSpatialObject(maskImage.value)))
    // the call fails exactly when erosion was attempted and the filter threw
    ensures r.Failure? <==>
              maskImage.Some? && useMaskErosion && pyramid != null &&
              erode(ErosionRequestFor(side, maskImage.value, pyramid, level)).Failure?
    // a successful erosion's output is what the mask object wraps
    ensures maskImage.Some? && useMaskErosion && pyramid != null && r.Success? ==>
              r.value == Some(MaskSpatialObject(erode(ErosionRequestFor(side, maskImage.value, pyramid, level)).value))
    // a failure is re-raised from UpdateMasks, its description extended by the side's suffix
    ensures r.Failure? ==>
              var e := erode(ErosionRequestFor(side, maskImage.value, pyramid, level)).error;
              r.error.location == UpdateMasksLocation &&
              r.error.description == e.description + ErosionFailureSuffix(side)
  {
    match maskImage
    case None => Success(None)
    case Some(mask) =>
      if !useMaskErosion || pyramid == null then
        Success(Some(MaskSpatialObject(mask)))
      else
        match erode(ErosionRequestFor(side, mask, pyramid, level))
        case Success(eroded) => Success(Some(MaskSpatialObject(eroded)))
        case Failure(excp) =>
          Failure(ExceptionObject(UpdateMasksLocation, excp.description + ErosionFailureSuffix(side)))
  }

  /** The fixed mask spatial object: erosion is requested as not-moving and a
      failure mentions the fixed mask. */
  function GenerateFixedMaskSpatialObject(
    maskImage: Option<MaskImage>, useMaskErosion: bool,
    pyramid: ImagePyramid?, level: nat, erode: ErosionRequest -> Result<MaskImage, ExceptionObject>)
    : (r: Result<Option<MaskSpatialObject>, ExceptionObject>)
    ensures maskImage.None? ==> r == Success(None)
    ensures maskImage.Some? && (!useMaskErosion || pyramid == null) ==>
              r == Success(Some(MaskSpatialObject(maskImage.value)))
    ensures maskImage.Some? && useMaskErosion && pyramid != null ==>
              var out := erode(ErosionRequest(maskImage.value, pyramid.schedule, false, level));
              && (out.Success? ==> r == Success(Some(MaskSpatialObject(out.value))))
              && (out.Failure? ==> r == Failure(ExceptionObject(
                    "RegistrationBase - UpdateMasks()",
                    out.error.description + "\nError while eroding the fixed mask.\n")))
  {
    GenerateMaskSpatialObject(Fixed, maskImage, useMaskErosion, pyramid, level, erode)
  }

  /** The moving mask spatial object: erosion is requested as moving and a
      failure mentions the moving mask. */
  function GenerateMovingMaskSpatialObject(
    maskImage: Option<MaskImage>, useMaskErosion: bool,
    pyramid: ImagePyramid?, level: nat, erode: ErosionRequest -> Result<MaskImage, ExceptionObject>)
    : (r: Result<Option<MaskSpatialObject>, ExceptionObject>)
    ensures maskImage.None? ==> r == Success(None)
    ensures maskImage.Some? && (!useMaskErosion || pyramid == null) ==>
              r == Success(Some(MaskSpatialObject(maskImage.value)))
    ensures maskImage.Some? && useMaskErosion && pyramid != null ==>
              var out := erode(ErosionRequest(maskImage.value, pyramid.schedule, true, level));
              && (out.Success? ==> r == Success(Some(MaskSpatialObject(out.value))))
              && (out.Failure? ==> r == Failure(ExceptionObject(
                    "RegistrationBase - UpdateMasks()",
                    out.error.description + "\nError while eroding the moving mask.\n")))
  {
    GenerateMaskSpatialObject(Moving, maskImage, useMaskErosion, pyramid, level, erode)
  }

  // ---------------------------------------------------------------------------
  // The registration base component
  // ---------------------------------------------------------------------------

  class RegistrationBase {
    /** The parameter file, read-only for this component. */
    const configuration: Configuration
    /** The resolution level the registration method is at. */
    var currentLevel: nat
    const fixedPyramid: ImagePyramid
    const movingPyramid: ImagePyramid

    constructor (configuration: Configuration, fixedPyramid: ImagePyramid, movingPyramid: ImagePyramid)
      ensures this.configuration == configuration && currentLevel == 0
      ensures this.fixedPyramid == fixedPyramid && this.movingPyramid == movingPyramid
    {
      this.configuration := configuration;
      this.fixedPyramid := fixedPyramid;
      this.movingPyramid := movingPyramid;
      currentLevel := 0;
    }

    /** Fill `useMaskErosionArray` with the erosion flag of each of the
        `nrOfMasks` masks of `whichMask` at `level` and return whether any is
        set. */
    method ReadMaskParameters(useMaskErosionArray: MaskErosionArray, nrOfMasks: nat, whichMask: Side, level: nat)
      returns (useMaskErosion: bool)
      modifies useMaskErosionArray
      // exactly one entry per mask, each the resolved flag, whatever the array held before
      ensures useMaskErosionArray.elements == ResolvedFlags(configuration, whichMask, level, nrOfMasks)
      // the result is the OR of the entries
      ensures useMaskErosion <==> exists k :: 0 <= k < nrOfMasks && useMaskErosionArray.elements[k]
    {
      useMaskErosion := false;
      useMaskErosionArray.Resize(nrOfMasks, false);

      if nrOfMasks > 0 {
        // the default of every mask: ErodeMask, then Erode<Side>Mask, over true
        var erosionOrNot := true;
        erosionOrNot := configuration.ReadParameter(erosionOrNot, ParameterName(ErodeMask), level, 0);
        erosionOrNot := configuration.ReadParameter(erosionOrNot, ParameterName(ErodeSideMask(whichMask)), level, 0);
        if erosionOrNot {
          useMaskErosionArray.Clear();
          useMaskErosionArray.Resize(nrOfMasks, true);
        }
        useMaskErosion := ReadPerMaskParameters(useMaskErosionArray, nrOfMasks, whichMask, level, erosionOrNot);
      }
      DisjunctionIsAny(useMaskErosionArray.elements);
    }

    /** The loop of ReadMaskParameters: for every mask `i`, read
        `Erode<Side>Mask<i>` over the side's default `erosionOrNot`, write entry
        `i` and OR it into the result. */
    method ReadPerMaskParameters(
      useMaskErosionArray: MaskErosionArray, nrOfMasks: nat, whichMask: Side, level: nat, erosionOrNot: bool)
      returns (useMaskErosion: bool)
      requires |useMaskErosionArray.elements| == nrOfMasks
      requires erosionOrNot == SideDefault(configuration, whichMask, level)
      modifies useMaskErosionArray
      ensures useMaskErosionArray.elements == ResolvedFlags(configuration, whichMask, level, nrOfMasks)
      ensures useMaskErosion == Disjunction(useMaskErosionArray.elements)
    {
      useMaskErosion := false;
      ghost var initial := useMaskErosionArray.elements;
      ghost var resolved: seq<bool> := [];
      var i := 0;
      while i < nrOfMasks
        invariant 0 <= i <= nrOfMasks
        invariant resolved == ResolvedFlags(configuration, whichMask, level, i)
        invariant useMaskErosionArray.elements == resolved + initial[i..]
        invariant useMaskErosion == Disjunction(resolved)
      {
        var erosionOrNot_i := configuration.ReadParameter(erosionOrNot, ParameterName(ErodeSideMaskOf(whichMask, i)), level, 0);
        ResolveStep(configuration, whichMask, level, i, resolved, erosionOrNot_i);
        UpdateAfterPrefix(resolved, initial, i, erosionOrNot_i);
        if erosionOrNot_i {
          useMaskErosionArray.Set(i, true);
        } else {
          useMaskErosionArray.Set(i, false);
        }
        useMaskErosion := useMaskErosion || useMaskErosionArray.elements[i];
        resolved := resolved + [erosionOrNot_i];
        i := i + 1;
      }
      assert initial[nrOfMasks..] == [];
      assert useMaskErosionArray.elements == resolved;
    }

    /** At the end of a level, free the fixed and the moving pyramid's output
        for the current level; every other level keeps what it holds. */
    method AfterEachResolutionBase()
      requires currentLevel < |fixedPyramid.outputs| && currentLevel < |movingPyramid.outputs|
      modifies fixedPyramid, movingPyramid
      ensures fixedPyramid.outputs == old(fixedPyramid.outputs)[currentLevel := Released]
      ensures movingPyramid.outputs == old(movingPyramid.outputs)[currentLevel := Released]
    {
      var level := currentLevel;
      fixedPyramid.ReleaseData(level);
      movingPyramid.ReleaseData(level);
    }
  }
}
