# Mask erosion and per-level cleanup of the elastix registration component

elastix registers a moving image onto a fixed image over several resolution
levels. Optional fixed and moving masks restrict where the metric samples.
At each level the registration base component does three things:

- **Read the mask erosion parameters.** `ReadMaskParameters` decides, for each
  mask of one side, whether it is to be eroded at that level. The decision is
  layered. The hard default is `true`. `ErodeMask` overrides it for every mask
  of both sides. `ErodeFixedMask` or `ErodeMovingMask` overrides it for one
  side. `ErodeFixedMask<i>` or `ErodeMovingMask<i>` overrides it for mask `i`
  alone. The method fills the caller's per-mask vector and returns whether any
  mask is to be eroded.
- **Build the mask spatial objects.** `GenerateFixedMaskSpatialObject` and
  `GenerateMovingMaskSpatialObject` turn a mask image into a mask spatial
  object. With no mask image there is no object. With erosion off or no image
  pyramid, the mask is wrapped as it is. Otherwise the mask is eroded with the
  pyramid's schedule at the current level, and a failure of the erosion filter
  is re-thrown with the location `RegistrationBase - UpdateMasks()` and a
  sentence naming the side appended to its description.
- **Release memory.** `AfterEachResolutionBase` releases the fixed and the
  moving pyramid's output for the level that has just finished.

The project has four files:

- `wrappers.dfy` holds `Option` and `Result`.
- `config.dfy` holds the parameter file as a map from a parameter name to its
  list of values, one entry per resolution level. A read asks for the entry
  of the current level, falls back on the first entry (the default entry
  number the calls pass), and keeps the variable's value when neither exists.
  The file also holds the decimal rendering of the mask index, with its
  round trip and injectivity.
- `registration.dfy` holds the model proper:
  - the parameter names;
  - the resolution rule as functions (`ResolveFlag`, `ResolvedFlags`,
    `Disjunction`);
  - the caller's flag vector as the class `MaskErosionArray`, which the method
    resizes, clears and overwrites in place;
  - the image pyramid as the class `ImagePyramid`, whose per-level outputs are
    released;
  - the two mask spatial object functions;
  - the class `RegistrationBase`, whose methods `ReadMaskParameters` and
    `AfterEachResolutionBase` are proved against those functions.
- `registration_properties.dfy` relates several configurations and calls:
  - distinct parameters have distinct names;
  - a per-mask parameter changes only its own mask;
  - parameters of the other side, and values for another level other than
    the first entry, change nothing;
  - a single global value applies at every level;
  - with nothing configured every mask is eroded;
  - a worked example;
  - the shape of a re-thrown erosion failure.

## Model

| member | source | states |
|---|---|---|
| Config.NatToString | trunk/src/Core/ComponentBaseClasses/elxRegistrationBase.hxx:72-73 | the decimal text of a mask index is never empty, and is one character exactly for indices below ten |
| Config.NatToStringInjective | trunk/src/Core/ComponentBaseClasses/elxRegistrationBase.hxx:72-73 | different mask indices give different texts, so the per-mask keys of different masks differ |
| Config.NatToStringIsDecimal | trunk/src/Core/ComponentBaseClasses/elxRegistrationBase.hxx:72-73 | the text of a mask index is a decimal numeral: digits only, no leading zero, and it reads back as the index |
| Registration.ResolveFlag | trunk/src/Core/ComponentBaseClasses/elxRegistrationBase.hxx:55-77 | a mask's flag is decided by the most specific parameter that gives a value for the level (its entry for the level, else its first entry): `Erode<Side>Mask<i>`, then `Erode<Side>Mask`, then `ErodeMask`; `true` when none does |
| Registration.ResolvedFlags | trunk/src/Core/ComponentBaseClasses/elxRegistrationBase.hxx:44 | there is exactly one flag per mask |
| Registration.ResolvedFlagsAt | trunk/src/Core/ComponentBaseClasses/elxRegistrationBase.hxx:70-84 | entry `k` of the flags is the resolution for mask `k` |
| Registration.DisjunctionSnoc | trunk/src/Core/ComponentBaseClasses/elxRegistrationBase.hxx:86 | OR-ing one more entry into the accumulator gives the accumulation over the longer sequence |
| Registration.DisjunctionIsAny | trunk/src/Core/ComponentBaseClasses/elxRegistrationBase.hxx:86-90 | the accumulated `|=` over the entries is true exactly when some entry is true |
| Registration.MaskErosionArray.Resize | trunk/src/Core/ComponentBaseClasses/elxRegistrationBase.hxx:44 | a resize keeps the first `n` entries and pads with the fill value when it grows |
| Registration.MaskErosionArray.Clear | trunk/src/Core/ComponentBaseClasses/elxRegistrationBase.hxx:63 | clearing empties the vector |
| Registration.MaskErosionArray.Set | trunk/src/Core/ComponentBaseClasses/elxRegistrationBase.hxx:77-84 | writing entry `i` changes that entry only |
| Registration.GenerateMaskSpatialObject | trunk/src/Core/ComponentBaseClasses/elxRegistrationBase.hxx:106-150 | no mask image, and only then, gives no object; erosion off or no pyramid wraps the mask unchanged; the call fails exactly when the filter was run and threw; a success wraps the filter's output; a failure carries the `UpdateMasks()` location and the filter's description followed by the side's sentence |
| Registration.GenerateFixedMaskSpatialObject | trunk/src/Core/ComponentBaseClasses/elxRegistrationBase.hxx:99-152 | the fixed case: the filter is told the mask is not the moving one, and a failure appends "Error while eroding the fixed mask." |
| Registration.GenerateMovingMaskSpatialObject | trunk/src/Core/ComponentBaseClasses/elxRegistrationBase.hxx:159-212 | the moving case: the filter is told the mask is the moving one, and a failure appends "Error while eroding the moving mask." |
| Registration.ImagePyramid.ReleaseData | trunk/src/Core/ComponentBaseClasses/elxRegistrationBase.hxx:232-235 | releasing a level drops that level's data and keeps every other level's |
| Registration.RegistrationBase.ReadMaskParameters | trunk/src/Core/ComponentBaseClasses/elxRegistrationBase.hxx:29-92 | whatever the vector held before, it ends with one entry per mask, each the resolved flag; the result is true exactly when some entry is, so with no masks it is false and the vector is empty |
| Registration.RegistrationBase.ReadPerMaskParameters | trunk/src/Core/ComponentBaseClasses/elxRegistrationBase.hxx:70-87 | the loop overwrites every entry with the mask's resolved flag over the side default, and accumulates their OR |
| Registration.RegistrationBase.AfterEachResolutionBase | trunk/src/Core/ComponentBaseClasses/elxRegistrationBase.hxx:219-237 | the fixed and the moving pyramid lose their output at the current level only; all other levels are unchanged |
| RegistrationProperties.NameShape | trunk/src/Core/ComponentBaseClasses/elxRegistrationBase.hxx:47-49 | `ErodeMask` has nine characters, a side's names start with `ErodeFixedMask` or `ErodeMovingMask`, and the sixth character tells the sides apart |
| RegistrationProperties.ParameterNameInjective | trunk/src/Core/ComponentBaseClasses/elxRegistrationBase.hxx:47-73 | different erosion parameters have different names in the parameter file |
| RegistrationProperties.ResolvedFlagsDependOnlyOnOwnKeys | trunk/src/Core/ComponentBaseClasses/elxRegistrationBase.hxx:52-87 | the flags depend only on what `ErodeMask`, the side's parameter and the per-mask parameters of the masks present give when read for the level (the level's entry, or the first entry) |
| RegistrationProperties.OtherLevelsIgnored | trunk/src/Core/ComponentBaseClasses/elxRegistrationBase.hxx:56-76 | changing a parameter's value for another level changes no flag, unless it is the first entry, the one every level without its own entry falls back on |
| RegistrationProperties.GlobalValueAppliesAtEveryLevel | trunk/src/Core/ComponentBaseClasses/elxRegistrationBase.hxx:56-59 | a single `ErodeMask` value is read at every level: with no parameter of the side's own, every mask of the side gets it, whatever the level |
| RegistrationProperties.OtherSideIgnored | trunk/src/Core/ComponentBaseClasses/elxRegistrationBase.hxx:47-49 | the other side's side-wide and per-mask parameters change no flag of this side |
| RegistrationProperties.PerMaskOverrideAt | trunk/src/Core/ComponentBaseClasses/elxRegistrationBase.hxx:72-77 | a single value given for `Erode<Side>Mask<j>` decides mask `j`, whatever the side-wide and global parameters say, and no other mask |
| RegistrationProperties.PerMaskOverrideIsLocal | trunk/src/Core/ComponentBaseClasses/elxRegistrationBase.hxx:70-84 | a single value given for `Erode<Side>Mask<j>` sets entry `j` of the vector to it at every level, and leaves every other entry as it was |
| RegistrationProperties.UnconfiguredMasksAreEroded | trunk/src/Core/ComponentBaseClasses/elxRegistrationBase.hxx:55 | when none of the parameters gives a value for the level, nor a first entry to fall back on, every mask is eroded, and erosion is used exactly when there is a mask |
| RegistrationProperties.WorkedExampleFixed | trunk/src/Core/ComponentBaseClasses/elxRegistrationBase.hxx:67-69 | with the one-value parameters `ErodeMask` false, `ErodeFixedMask` true and `ErodeFixedMask0` false, the two fixed masks get false and true at every level, and erosion is used |
| RegistrationProperties.WorkedExampleMoving | trunk/src/Core/ComponentBaseClasses/elxRegistrationBase.hxx:54-59 | in the same file both moving masks take the global false at every level, and no moving mask is eroded |
| RegistrationProperties.ErosionFailureReport | trunk/src/Core/ComponentBaseClasses/elxRegistrationBase.hxx:135-144 | a re-thrown failure's description begins with the filter's own description and ends with its side's sentence, never the other side's |

## Left out

- The rigidity penalty term, the corresponding-points metric, the periodic grid schedule computer and the GPU smoothing test are not part of the mask handling modelled here.
- Config.Configuration.ReadParameter: the configuration reader is not part of this model. A read is modelled as: the entry for the requested entry number if the parameter has that many values, else the entry for the default entry number, else the variable is left as it was. Its warnings, the empty prefix argument and the parsing of the parameter's text into a boolean are not modelled.
- Registration.RegistrationBase.ReadMaskParameters: `whichMask` is a two-valued side rather than an arbitrary string. The callers pass only `"Fixed"` and `"Moving"`.
- Registration.RegistrationBase.ReadMaskParameters: does not record which parameters are read, or in what order. `RegistrationProperties.ResolvedFlagsDependOnlyOnOwnKeys` states instead which parameters the outcome can depend on. With no masks, the outcome does not depend on the parameter file at all.
- Registration.RegistrationBase.ReadPerMaskParameters: the source has one function. In the model its loop is a separate method, called by `ReadMaskParameters` once the side default is known.
- The `unsigned int` counts and levels are `nat`. The loop counter stays below the mask count, so no wrap-around can occur.
- Registration.GenerateMaskSpatialObject: the erosion filter is a parameter that returns either an eroded mask or an exception. The morphological erosion, the ITK pipeline (`Update`, `DisconnectPipeline`), smart pointers and the allocation of the spatial object are not modelled. A spatial object is modelled as the mask image it wraps, and an exception as its location and description only.
- Registration.RegistrationBase.AfterEachResolutionBase: the current level is a field of the component, whereas the source asks the registration method for it. Both pyramids must hold an output for that level. Releasing data is modelled as replacing that level's buffer by `Released`; memory itself is not modelled.
