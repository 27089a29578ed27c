/** Properties of the erosion-flag resolution that relate several calls or
    several configurations: distinct parameters have distinct names, a
    per-mask parameter affects only its own mask, and nothing but the three
    layers of the mask's own side at the mask's own level is consulted. */
module RegistrationProperties {
  import opened Wrappers
  import opened Config
  import opened Registration

  // ---------------------------------------------------------------------------
  // Parameter names
  // ---------------------------------------------------------------------------

  /** The shape of a parameter name: its length and the character that tells
      the sides apart (`ErodeMask` and `ErodeMovingMask…` have an `M` at index
      5, `ErodeFixedMask…` an `F`). */
  lemma NameShape(p: ErosionParameter)
    ensures p.ErodeMask? ==> |ParameterName(p)| == 9 && ParameterName(p)[5] == 'M'
    ensures p.ErodeSideMask? ==> ParameterName(p) == ErodeMaskOption(p.side)
    ensures p.ErodeSideMaskOf? ==>
              |ParameterName(p)| > |ErodeMaskOption(p.side)| &&
              ParameterName(p)[..|ErodeMaskOption(p.side)|] == ErodeMaskOption(p.side)
    ensures !p.ErodeMask? ==>
              |ParameterName(p)| >= 14 && (ParameterName(p)[5] == 'F' <==> p.side == Fixed)
  {
  }

  /** Different erosion parameters have different names, so setting one in
      the parameter file never sets another. */
  lemma ParameterNameInjective(p: ErosionParameter, q: ErosionParameter)
    requires ParameterName(p) == ParameterName(q)
    ensures p == q
  {
    NameShape(p);
    NameShape(q);
    if p.ErodeSideMaskOf? && q.ErodeSideMaskOf? {
      var prefix := ErodeMaskOption(p.side);
      assert p.side == q.side;
      assert ParameterName(p)[|prefix|..] == NatToString(p.index);
      assert ParameterName(q)[|prefix|..] == NatToString(q.index);
      NatToStringInjective(p.index, q.index);
    }
  }

  // ---------------------------------------------------------------------------
  // Which parameters matter
  // ---------------------------------------------------------------------------

  /** Two configurations agree on everything mask `0 .. n-1` of `side` can
      find when read for `level` (the level's own entry or the first entry).
      With no masks there is nothing to agree on. */
  predicate AgreeOnMasks(c1: Configuration, c2: Configuration, side: Side, level: nat, n: nat) {
    && (n > 0 ==> Given(c1, ErodeMask, level) == Given(c2, ErodeMask, level))
    && (n > 0 ==> Given(c1, ErodeSideMask(side), level) == Given(c2, ErodeSideMask(side), level))
    && forall k :: 0 <= k < n ==> Given(c1, ErodeSideMaskOf(side, k), level) == Given(c2, ErodeSideMaskOf(side, k), level)
  }

  /** The flags depend only on what `ErodeMask`, the side's parameter and the
      per-mask parameters of masks `0 .. n-1` give when read for `level`:
      configurations that agree on those resolve the same flags. With no
      masks, nothing is consulted at all. */
  lemma {:induction false} ResolvedFlagsDependOnlyOnOwnKeys(
    c1: Configuration, c2: Configuration, side: Side, level: nat, n: nat)
    requires AgreeOnMasks(c1, c2, side, level, n)
    ensures ResolvedFlags(c1, side, level, n) == ResolvedFlags(c2, side, level, n)
  {
    if n > 0 {
      assert Given(c1, ErodeSideMaskOf(side, n - 1), level) == Given(c2, ErodeSideMaskOf(side, n - 1), level);
      assert ResolveFlag(c1, side, level, n - 1) == ResolveFlag(c2, side, level, n - 1);
      ResolvedFlagsDependOnlyOnOwnKeys(c1, c2, side, level, n - 1);
    }
  }

  /** Changing a parameter's value for another resolution level changes no
      flag, as long as it is not the first entry, which every level without an
      entry of its own falls back on. */
  lemma {:induction false} OtherLevelsIgnored(config: Configuration, side: Side, level: nat, n: nat,
                                              name: string, entry: nat, value: bool)
    requires name in config.parameters && entry < |config.parameters[name]|
    requires entry != level && entry != 0
    ensures ResolvedFlags(config.With(name, config.parameters[name][entry := value]), side, level, n)
              == ResolvedFlags(config, side, level, n)
  {
    var c := config.With(name, config.parameters[name][entry := value]);
    assert c.Entry(name, level) == config.Entry(name, level);
    assert c.Entry(name, 0) == config.Entry(name, 0);
    ResolvedFlagsDependOnlyOnOwnKeys(c, config, side, level, n);
  }

  /** A single value given for `ErodeMask` is read at every resolution level:
      when the side has no parameter of its own, every mask of it gets that
      value, whatever the level. */
  lemma {:induction false} GlobalValueAppliesAtEveryLevel(config: Configuration, side: Side, level: nat,
                                                          n: nat, value: bool)
    requires Given(config, ErodeSideMask(side), level).None?
    requires forall k :: 0 <= k < n ==> Given(config, ErodeSideMaskOf(side, k), level).None?
    ensures forall k :: 0 <= k < n ==>
              ResolvedFlags(config.With(ParameterName(ErodeMask), [value]), side, level, n)[k] == value
  {
    var c := config.With(ParameterName(ErodeMask), [value]);
    NameShape(ErodeSideMask(side));
    assert Given(c, ErodeMask, level) == Some(value);
    assert Given(c, ErodeSideMask(side), level).None?;
    forall k | 0 <= k < n
      ensures ResolvedFlags(c, side, level, n)[k] == value
    {
      NameShape(ErodeSideMaskOf(side, k));
      assert Given(c, ErodeSideMaskOf(side, k), level).None?;
      ResolvedFlagsAt(c, side, level, n, k);
    }
  }

  /** The other side's parameters change no flag of this side. */
  lemma OtherSideIgnored(config: Configuration, side: Side, level: nat, n: nat,
                         p: ErosionParameter, values: seq<bool>)
    requires p.ErodeSideMask? || p.ErodeSideMaskOf?
    requires p.side != side
    ensures ResolvedFlags(config.With(ParameterName(p), values), side, level, n)
              == ResolvedFlags(config, side, level, n)
  {
    var c := config.With(ParameterName(p), values);
    forall q: ErosionParameter | q == ErodeMask || q == ErodeSideMask(side) || (q.ErodeSideMaskOf? && q.side == side)
      ensures Given(c, q, level) == Given(config, q, level)
    {
      if ParameterName(q) == ParameterName(p) {
        ParameterNameInjective(q, p);
      }
    }
    ResolvedFlagsDependOnlyOnOwnKeys(c, config, side, level, n);
  }

  /** Giving mask `j` its own parameter with a single value decides mask `j`
      and no other mask. */
  lemma PerMaskOverrideAt(config: Configuration, side: Side, level: nat, j: nat, value: bool, k: nat)
    ensures ResolveFlag(config.With(ParameterName(ErodeSideMaskOf(side, j)), [value]), side, level, k)
              == if k == j then value else ResolveFlag(config, side, level, k)
  {
    var key := ErodeSideMaskOf(side, j);
    var c := config.With(ParameterName(key), [value]);
    // the layers below the per-mask parameters are untouched
    if ParameterName(ErodeMask) == ParameterName(key) {
      ParameterNameInjective(ErodeMask, key);
    }
    if ParameterName(ErodeSideMask(side)) == ParameterName(key) {
      ParameterNameInjective(ErodeSideMask(side), key);
    }
    if k == j {
      assert Given(c, key, level) == Some(value);
    } else {
      if ParameterName(ErodeSideMaskOf(side, k)) == ParameterName(key) {
        ParameterNameInjective(ErodeSideMaskOf(side, k), key);
      }
      assert Given(c, ErodeSideMaskOf(side, k), level) == Given(config, ErodeSideMaskOf(side, k), level);
    }
  }

  /** Giving mask `j` its own parameter with a single value sets entry `j` to
      that value, at every level, and leaves every other entry as it was. */
  lemma PerMaskOverrideIsLocal(config: Configuration, side: Side, level: nat,
                               n: nat, j: nat, value: bool)
    requires j < n
    ensures ResolvedFlags(config.With(ParameterName(ErodeSideMaskOf(side, j)), [value]), side, level, n)
              == ResolvedFlags(config, side, level, n)[j := value]
  {
    var c := config.With(ParameterName(ErodeSideMaskOf(side, j)), [value]);
    var before, after := ResolvedFlags(config, side, level, n), ResolvedFlags(c, side, level, n);
    forall k | 0 <= k < n
      ensures after[k] == before[j := value][k]
    {
      ResolvedFlagsAt(config, side, level, n, k);
      ResolvedFlagsAt(c, side, level, n, k);
      PerMaskOverrideAt(config, side, level, j, value, k);
    }
  }

  // ---------------------------------------------------------------------------
  // Defaults and a worked case
  // ---------------------------------------------------------------------------

  /** When none of the erosion parameters gives a value for the level, nor a
      first entry to fall back on, every mask is eroded. */
  lemma {:induction false} UnconfiguredMasksAreEroded(config: Configuration, side: Side, level: nat, n: nat)
    requires Given(config, ErodeMask, level).None? && Given(config, ErodeSideMask(side), level).None?
    requires forall k :: 0 <= k < n ==> Given(config, ErodeSideMaskOf(side, k), level).None?
    ensures forall k :: 0 <= k < n ==> ResolvedFlags(config, side, level, n)[k]
    ensures Disjunction(ResolvedFlags(config, side, level, n)) <==> n > 0
  {
    var flags := ResolvedFlags(config, side, level, n);
    forall k | 0 <= k < n
      ensures flags[k]
    {
      ResolvedFlagsAt(config, side, level, n, k);
    }
    DisjunctionIsAny(flags);
  }

  /** The parameter file of the worked example: `(ErodeMask "false")`,
      `(ErodeFixedMask "true")` and `(ErodeFixedMask0 "false")`, one value
      each, so the same value is read at every level. */
  const ExampleConfiguration: Configuration :=
    Configuration(map["ErodeMask" := [false], "ErodeFixedMask" := [true], "ErodeFixedMask0" := [false]])

  /** In the worked example, fixed mask 0 has its own `false`, and fixed mask 1
      takes the side's `true`, so erosion is used for the fixed side. */
  lemma WorkedExampleFixed(level: nat)
    ensures ResolvedFlags(ExampleConfiguration, Fixed, level, 2) == [false, true]
    ensures Disjunction(ResolvedFlags(ExampleConfiguration, Fixed, level, 2))
  {
    var config := ExampleConfiguration;
    assert ParameterName(ErodeSideMaskOf(Fixed, 0)) == "ErodeFixedMask0";
    assert ParameterName(ErodeSideMaskOf(Fixed, 1)) == "ErodeFixedMask1";
    assert "ErodeFixedMask1"[14] != "ErodeFixedMask0"[14];
    assert Given(config, ErodeSideMaskOf(Fixed, 1), level) == None;
    assert ParameterName(ErodeSideMask(Fixed)) == "ErodeFixedMask";
    assert Given(config, ErodeSideMask(Fixed), level) == Some(true);
    assert ResolveFlag(config, Fixed, level, 0) == false;
    assert ResolveFlag(config, Fixed, level, 1) == true;
    DisjunctionSnoc([false], true);
  }

  /** In the worked example the moving masks have no parameter of their own
      side, so both take the global `false` and no moving mask is eroded. */
  lemma WorkedExampleMoving(level: nat)
    ensures ResolvedFlags(ExampleConfiguration, Moving, level, 2) == [false, false]
    ensures !Disjunction(ResolvedFlags(ExampleConfiguration, Moving, level, 2))
  {
  }

  // ---------------------------------------------------------------------------
  // Erosion failures
  // ---------------------------------------------------------------------------

  /** A re-raised erosion failure keeps the filter's description as its
      prefix, and the two sides' failures can be told apart by their text. */
  lemma ErosionFailureReport(
    side: Side, maskImage: Option<MaskImage>, useMaskErosion: bool,
    pyramid: ImagePyramid?, level: nat, erode: ErosionRequest -> Result<MaskImage, ExceptionObject>)
    requires GenerateMaskSpatialObject(side, maskImage, useMaskErosion, pyramid, level, erode).Failure?
    ensures var e := GenerateMaskSpatialObject(side, maskImage, useMaskErosion, pyramid, level, erode).error;
            var original := erode(ErosionRequestFor(side, maskImage.value, pyramid, level)).error.description;
            && |original| < |e.description|
            && e.description[..|original|] == original
            && e.description[|original|..] == ErosionFailureSuffix(side)
            && e.description[|original|..] != ErosionFailureSuffix(if side == Fixed then Moving else Fixed)
  {
  }
}
