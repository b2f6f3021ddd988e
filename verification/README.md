# bg-remove, modelled in Dafny

bg-remove is a browser application that removes the background from photos.
An ML model predicts an alpha mask for each photo. The mask is written into
the photo's alpha channel, and the result is saved as
`<stem>-bg-blasted.png`. An edit dialog then composites the cut-out subject
over a colour or picture background and can apply a blur, brightness or
contrast effect.

This project models the decision logic and byte-buffer logic of that
application. Each call into the inference library or the browser is replaced
by an abstract outcome: the value it returns, or the value it throws.

| module | file | models |
|---|---|---|
| `Common` | `common.dfy` | `Option`, `Result`, bytes, and substring occurrence |
| `Platform` | `platform.dfy` | the `isIOS` heuristic |
| `ModelInit` | `model_init.dfy` | the process-wide model state; `initializeWebGPU`; `initializeModel` with its single retry |
| `Pipeline` | `pipeline.dfy` | `processImage` (guard, alpha replacement, output name) and the batch `processImages` |
| `Pixels` | `pixels.dfy` | the `Uint8ClampedArray` store, and the brightness and contrast channel maps and their stride-4 loops |
| `Compositor` | `compositor.dfy` | the effect slider, and the background/effect dispatch of `applyChanges` |

Initialisation is driven by an outcome oracle `attempts: nat -> Attempt`. The
first entry of `initializeModel` sees `attempts(depth)`, and the retry sees
`attempts(depth + 1)`. An `Attempt` has these fields:

- whether a WebGPU adapter was found;
- what each of the four `from_pretrained` calls does. A call either resolves
  to a value, resolves to `null`, or throws.

Every non-iOS pass that gets through both fallback loads runs the null check
at `lib/process.ts:166`; a pass whose fallback load throws never reaches it. A call that resolves to `null` is the only way to make
that check throw "Failed to initialize model or processor". The iOS branch
(`lib/process.ts:100-120`) has no such check. There, a load that resolves to
`null` still returns `true`, leaving an empty model or processor slot.

The application starts from `InitialState`. Its iOS flag is the platform
heuristic evaluated once (`lib/process.ts:41-47`). Without null loads, a
failed first initialisation leaves no processor behind, so every batch run
before initialisation is called again comes back empty
(`FailedStartupProcessesNothing`). With null loads that is not
so. Take a forced WebGPU id where:

- the first pass's fallback model resolves to `null` while its processor
  loads;
- the retry's model loads and its processor throws.

The call then rejects, yet both slots are filled
(`NullLoadCanLeaveReadyAfterFailure`). Failed WebGPU steps can also leave
mixed handles behind. A WebGPU model stored before its processor load threw
stays in the state when the fallback model loads then throw, next to
whatever processor was there before (`FailedWebGpuRetryMixesHandles`). A
fallback model load that works replaces it (`lib/process.ts:142`).

Pixel arithmetic is exact (`real`). Each result is stored the way a
`Uint8ClampedArray` stores it:

- values at or below 0 become 0;
- values at or above 255 become 255;
- anything in between is rounded to the nearest integer, with ties going to
  the even neighbour.

Writes past the end of a typed array are dropped. So neither the alpha loop
nor the effect loops need a precondition on buffer length.

Two behaviours of the code may surprise a caller. The model follows the
code in both:

- **Decode errors.** The `try` block at `lib/process.ts:198-244` turns every
  failure inside it into "Failed to process image". `RawImage.fromURL` runs
  before that block (`lib/process.ts:196`), so a decode error escapes
  unwrapped (`DecodeFailed`).
- **Recorded model id.** Suppose the WebGPU id is requested off iOS and the
  WebGPU attempt fails. The code then falls through to the fallback model
  "without error" (comment at `lib/process.ts:133`). Line 164 records the
  fallback id, but once both loads are present, line 170 overwrites it with
  `selectedModelId`. So after a successful fallback load, `currentModelId`
  names the WebGPU model (`NoAdapterStillRecordsWebGpuId`).

## Model

| member | source | states |
|---|---|---|
| Platform.IncludesIsSubstring | bg-remove-main/lib/process.ts:38 | `userAgent.includes(sub)` is true exactly when `sub` occurs at some position of the string |
| Platform.IsIOSCharacterised | bg-remove-main/lib/process.ts:29-39 | a device is iOS iff its platform is one of the six listed iOS platforms, or its user agent contains "Mac" and the document supports `ontouchend` |
| Platform.NoTouchNeedsListedPlatform | bg-remove-main/lib/process.ts:30-38 | without touch support, only a listed platform string makes a device iOS, whatever its user agent says |
| Platform.DesktopModeIPadIsIOS | bg-remove-main/lib/process.ts:38 | an iPad in desktop mode (platform "MacIntel", Macintosh user agent, touch) is detected as iOS |
| ModelInit.InitialState | bg-remove-main/lib/process.ts:41-47 | the starting state holds no model or processor, so it is not ready; it records the fallback id, has the WebGPU flag off, and its iOS flag is exactly the platform heuristic |
| ModelInit.FailureLeavesNoProcessor | bg-remove-main/lib/process.ts:90-180 | from a state without a processor, and with no null loads, a rejected initialisation leaves no processor, so the state is not ready |
| ModelInit.FailedStartupLeavesUnready | bg-remove-main/lib/process.ts:41-47 | a failed first initialisation from the starting state, with no null loads, leaves the adapter unready |
| ModelInit.NullLoadCanLeaveReadyAfterFailure | bg-remove-main/lib/process.ts:142-177 | a null fallback model in the first pass, then a throwing processor in the retry, gives a rejected call whose state holds both the fallback model and the fallback processor |
| ModelInit.FailedWebGpuRetryMixesHandles | bg-remove-main/lib/process.ts:73-80 | when the WebGPU processor load throws after the WebGPU model loaded, and both fallback model loads throw, the call rejects with the retry's error, keeps the WebGPU model next to the earlier processor, and stays ready if a processor was there |
| ModelInit.SelectedModelId | bg-remove-main/lib/process.ts:124 | the forced id or else the fallback id: a non-empty forced id is used as is; a missing or empty one selects the fallback id; the result is never empty |
| ModelInit.InitializeWebGpu | bg-remove-main/lib/process.ts:50-87 | WebGPU initialisation succeeds iff an adapter is found and neither WebGPU load throws; on success it stores both handles and sets the WebGPU flag; on failure the processor and the flag are kept, and the model is either kept or is the WebGPU model stored before the processor load threw; it never changes the recorded id or the iOS flag |
| ModelInit.TryInitialize | bg-remove-main/lib/process.ts:91-171 | one pass through the `try` block never changes the iOS flag |
| ModelInit.InitializeModel | bg-remove-main/lib/process.ts:90-180 | the function runs once, or twice only when the WebGPU id is forced, so the recursion depth is at most 1; success always returns true; on iOS a success records the fallback id and the WebGPU flag is untouched; off iOS a success records the selected id, or under a forced WebGPU id records the WebGPU id after one pass and the fallback id after a retry |
| ModelInit.IosAlwaysUsesFallback | bg-remove-main/lib/process.ts:93-121 | on iOS, whatever id is forced, working loads give `true` after one pass, with the fallback id recorded and the fallback model and iOS processor settings loaded |
| ModelInit.WebGpuSuccessSkipsFallback | bg-remove-main/lib/process.ts:127-132 | with the WebGPU id forced off iOS, an adapter and working WebGPU loads, initialisation returns true after one pass, records the WebGPU id, sets the WebGPU flag and holds the WebGPU handles, so the fallback branch is not entered |
| ModelInit.FallbackRecordsSelectedId | bg-remove-main/lib/process.ts:124-171 | off iOS, when the WebGPU path is not taken or fails and the fallback loads work, the recorded id is the selected id and the fallback handles are loaded |
| ModelInit.NoAdapterStillRecordsWebGpuId | bg-remove-main/lib/process.ts:164-170 | with the WebGPU id forced and no adapter, a working fallback load still records the WebGPU id and leaves the WebGPU flag as it was |
| ModelInit.WebGpuFailureRetriesOnce | bg-remove-main/lib/process.ts:172-177 | a failing pass under a forced WebGPU id is followed by exactly one pass with the fallback id, whose state and outcome are the final ones |
| ModelInit.OtherFailureRethrows | bg-remove-main/lib/process.ts:172-179 | under any other forced id, a failing pass is rethrown at once with the thrown error's message |
| ModelInit.RetryEndsOnFallback | bg-remove-main/lib/process.ts:172-177 | when the WebGPU attempt fails and the retry's loads work, initialisation returns true after two passes with the fallback id and handles |
| ModelInit.PlainFallbackSucceeds | bg-remove-main/lib/process.ts:136-171 | off iOS with a non-WebGPU selection, working loads store the fallback handles and record the selected id, and nothing is thrown |
| ModelInit.SuccessMeansReady | bg-remove-main/lib/process.ts:166-171 | when no loader resolves to null, a successful initialisation leaves both a model and a processor in the state |
| ModelInit.FailureComesFromFallback | bg-remove-main/lib/process.ts:100-168 | a pass fails only when a fallback load throws or resolves to null, and what it throws is the model load's own error if that load threw, else the processor load's own error if that one threw, else "Failed to initialize model or processor" |
| Pipeline.Stem | bg-remove-main/lib/process.ts:238 | `name.split(".")[0]` is a dot-free prefix of the name, followed by a dot or by the end of the name |
| Pipeline.StemIsUnique | bg-remove-main/lib/process.ts:238 | that prefix is the only dot-free prefix followed by a dot or the end, so the name is cut at its first dot |
| Pipeline.StemAtFirstDot | bg-remove-main/lib/process.ts:238 | if position k holds the first dot, the stem is the first k characters |
| Pipeline.OutputNameCases | bg-remove-main/lib/process.ts:238-239 | a name without a dot keeps all of it before "-bg-blasted.png"; a name starting with a dot gives just the suffix; otherwise the part before the first dot is kept |
| Pipeline.OutputNameExample | bg-remove-main/lib/process.ts:238-239 | "photo.final.jpg" becomes "photo-bg-blasted.png" |
| Pipeline.ReplaceAlpha | bg-remove-main/lib/process.ts:225-227 | the loop writes `mask[i]` into byte `4i+3` for each `i` the buffer covers; it keeps every colour byte and every byte past the mask; it keeps the buffer length |
| Pipeline.AlphaReplacement | bg-remove-main/lib/process.ts:224-228 | when the buffer covers the mask, each pixel the mask covers gets the mask's alpha and keeps its three colour bytes |
| Pipeline.ProcessImage | bg-remove-main/lib/process.ts:191-245 | it fails with "not initialised" iff the model or processor is missing, before anything else; a decode failure escapes unwrapped; given a decoded image it succeeds iff the mask, the 2D context and the blob are all obtained, and otherwise fails with the single "Failed to process image" error (`ProcessingFailed`); a success is named after the stem and has the PNG MIME type |
| Pipeline.ProcessedImageKeepsColour | bg-remove-main/lib/process.ts:214-228 | a processed image has the decoded bitmap's width, height and length, and the same colour bytes |
| Pipeline.FullMaskSetsEveryAlpha | bg-remove-main/lib/process.ts:206-227 | with a mask resized to width×height, the output is a valid bitmap in which every pixel's alpha is the mask's |
| Pipeline.ProcessImages | bg-remove-main/lib/process.ts:247-263 | the batch returns the results of the images that succeed, in input order, and never more results than inputs |
| Pipeline.SuccessesLength | bg-remove-main/lib/process.ts:249-262 | at most one result per input |
| Pipeline.SuccessesAppend | bg-remove-main/lib/process.ts:251-259 | the results for `a + b` are the results for `a` followed by those for `b` |
| Pipeline.SuccessesAround | bg-remove-main/lib/process.ts:251-259 | around any image, the batch holds the results before it, then its own result if it succeeded, then the results after it |
| Pipeline.FailureIsSkipped | bg-remove-main/lib/process.ts:256-258 | a failing image contributes nothing, and the others keep their order |
| Pipeline.AllSucceed | bg-remove-main/lib/process.ts:251-262 | when every image succeeds, result k is image k's output, and there are exactly as many results as inputs |
| Pipeline.AllSucceedLength | bg-remove-main/lib/process.ts:251-262 | when every image succeeds, there are as many results as inputs |
| Pipeline.OthersKeepTheirResults | bg-remove-main/lib/process.ts:251-259 | when every image except one succeeds, the images before it and the images after it each keep one result apiece |
| Pipeline.OneFailureDropsOne | bg-remove-main/lib/process.ts:252-258 | one failing image among successful ones costs exactly one result, and the others keep their order |
| Pipeline.UninitialisedBatchIsEmpty | bg-remove-main/lib/process.ts:192-194 | before initialisation every image fails the guard, so the batch is empty |
| Pipeline.FailedStartupProcessesNothing | bg-remove-main/lib/process.ts:192-194 | after a failed first initialisation with no null loads, every batch comes back empty |
| Pipeline.InitialisedImagesPassTheGuard | bg-remove-main/lib/process.ts:192-194 | after a successful initialisation with no null loads, no image is rejected as not initialised |
| Pixels.ToUint8Clamp | bg-remove-main/src/components/EditModal.tsx:137-141 | a store into the pixel array clamps to 0 and 255 and otherwise lands within 0.5 of the value, choosing the even byte on a tie |
| Pixels.RoundHalfEven | bg-remove-main/src/components/EditModal.tsx:148-150 | in range, a store rounds to the floor or the next integer, whichever is nearer, and to the even one on a tie |
| Pixels.StoreKeepsBytes | bg-remove-main/src/components/EditModal.tsx:148-150 | storing a value that already is a byte keeps it |
| Pixels.StoreIsMonotonic | bg-remove-main/src/components/EditModal.tsx:148-150 | a larger value never stores as a smaller byte |
| Pixels.StoreAgainstByte | bg-remove-main/src/components/EditModal.tsx:138-150 | a value at least (at most) a byte stores as at least (at most) that byte |
| Pixels.BrightnessProductOrder | bg-remove-main/src/components/EditModal.tsx:138 | `x * (v / 50)` is at least x from 50 up, at most x up to 50, and 0 at 0 |
| Pixels.BrightnessDirection | bg-remove-main/src/components/EditModal.tsx:138-140 | from 50 up brightness never darkens a channel; up to 50 it never brightens one; at 50 it is the identity |
| Pixels.BrightnessNeutral | bg-remove-main/src/components/EditModal.tsx:138 | brightness 50 keeps every channel |
| Pixels.BrightnessZero | bg-remove-main/src/components/EditModal.tsx:138 | brightness 0 turns every channel black |
| Pixels.ContrastFactorRange | bg-remove-main/src/components/EditModal.tsx:146 | the factor is positive, indeed at least 1, on the slider range, and equals 1 iff the setting is 0 |
| Pixels.StretchOrder | bg-remove-main/src/components/EditModal.tsx:148 | a factor of at least 1 moves a channel away from 128, never towards it, and a factor of 1 keeps it |
| Pixels.ContrastSpreads | bg-remove-main/src/components/EditModal.tsx:146-150 | contrast never darkens a channel at or above 128 and never brightens one at or below it |
| Pixels.ContrastNeutral | bg-remove-main/src/components/EditModal.tsx:146-148 | contrast 0 keeps every channel |
| Pixels.ContrastFixesMidpoint | bg-remove-main/src/components/EditModal.tsx:148 | channel 128 stays 128 at every setting |
| Pixels.ColourPass | bg-remove-main/src/components/EditModal.tsx:137-141 | the stride-4 loop maps every colour byte, keeps every alpha byte and keeps the length; the contrast loop at lines 147-151 has the same shape |
| Pixels.MapColourIdentity | bg-remove-main/src/components/EditModal.tsx:137-141 | a pass whose channel map fixes every byte keeps the buffer |
| Pixels.BrightnessPassNeutral | bg-remove-main/src/components/EditModal.tsx:137-141 | the brightness pass at 50 keeps the whole buffer |
| Pixels.BrightnessPassZero | bg-remove-main/src/components/EditModal.tsx:137-141 | the brightness pass at 0 zeroes every colour byte and keeps alpha |
| Pixels.ContrastPassNeutral | bg-remove-main/src/components/EditModal.tsx:146-151 | the contrast pass at 0 keeps the whole buffer |
| Compositor.CurrentEffectValue | bg-remove-main/src/components/EditModal.tsx:54-65 | the slider shows the blur, brightness or contrast value when that effect is selected, and 50 for "none" or any other id |
| Compositor.HandleEffectValueChange | bg-remove-main/src/components/EditModal.tsx:67-79 | moving the slider changes only the selected effect's value; background, selection and the other two values are kept; with no slider effect selected nothing changes |
| Compositor.SliderShowsWhatWasSet | bg-remove-main/src/components/EditModal.tsx:54-79 | after a move the slider shows the new value, or 50 when no slider effect is selected |
| Compositor.SettingShownValueChangesNothing | bg-remove-main/src/components/EditModal.tsx:54-79 | writing back the value the slider shows changes nothing |
| Compositor.LastSliderMoveWins | bg-remove-main/src/components/EditModal.tsx:67-79 | two moves in a row amount to the last one |
| Compositor.EffectsKeepTheirOwnValues | bg-remove-main/src/components/EditModal.tsx:39-79 | after a move under one effect, switching to another effect shows that effect's earlier value |
| Compositor.BackgroundPaints | bg-remove-main/src/components/EditModal.tsx:96-104 | "color" paints a fill in the chosen colour; "image" with a picture draws that picture; "image" without one, or another id, paints no background; at most one background step |
| Compositor.EffectPaints | bg-remove-main/src/components/EditModal.tsx:110-154 | at most one effect step, and only for blur, brightness or contrast; blur redraws at radius value/10 only when a second context exists; brightness and contrast use their own slider values |
| Compositor.ApplyChangesOrder | bg-remove-main/src/components/EditModal.tsx:81-159 | nothing is painted without a processed file or a 2D context; otherwise the subject is drawn exactly once, every background step comes before it, the one effect step at most comes after it, the export is last, and "none" paints no effect |
| Compositor.OpeningRecompute | bg-remove-main/src/components/EditModal.tsx:36-42 | with the dialog's initial state a recompute paints white, draws the subject and exports |
| Compositor.ApplyPixelEffect | bg-remove-main/src/components/EditModal.tsx:110-154 | the buffer keeps its length and alpha; brightness and contrast map each colour byte by their channel function; every other selection leaves the buffer as it is |
| Compositor.NeutralSettingsKeepPixels | bg-remove-main/src/components/EditModal.tsx:136-153 | "none", brightness 50 and contrast 0 leave the buffer unchanged |
| Compositor.DefaultContrastIsNotNeutral | bg-remove-main/src/components/EditModal.tsx:146-150 | at the default setting 50 contrast brightens channel 200, so the default is not neutral |

## Left out

- Asynchrony and concurrency. Every `await` is taken as completing in program order, and two initialisations never interleave.
- A background or subject image that never loads. `applyChanges` waits on `img.onload` and `bgImg.onload` (`src/components/EditModal.tsx:90`, `102`) and sets no `onerror`. If either image fails to load, the recompute never finishes and nothing is exported. `Compositor.ApplyChanges` has no outcome for this: once a file and a context exist, it always ends with the export.
- The `env` backend flags (`allowLocalModels`, `wasm.proxy`) and the 100 ms `setTimeout` in `initializeWebGPU`. They configure the library and decide nothing here.
- Console logging and the progress callback. They are output only.
- `getModelInfo`. It reads the live `navigator.gpu` object, which is browser state.
- Library calls become outcomes supplied by the caller: `from_pretrained`, `RawImage`, tensor arithmetic, inference and the mask resize. The mask is an arbitrary byte sequence.
- Canvas, Blob, `URL.createObjectURL`, PNG encoding and `toDataURL` are browser I/O. A produced file holds its bitmap; the export is one paint step.
- Pipeline.ProcessedImageKeepsColour: holds of the buffer handed to `putImageData` (`lib/process.ts:228`), not of the encoded PNG. The canvas keeps premultiplied alpha, and its round trip through `toBlob` is browser behaviour this model does not describe. That round trip may change the colour bytes of pixels that are not fully opaque.
- Pixels.BrightenChannel: computed over exact reals. IEEE-754 double rounding of `v / 50` and of the product can move a value that is exactly on a .5 tie, so it can round differently.
- Pixels.ContrastChannel: computed over exact reals, for the same reason as brightness.
- The blur effect's pixel arithmetic. It is a canvas CSS filter with no visible algorithm; the model records only the redraw and its radius.
- React rendering, `useEffect` re-run triggers, modal open and close, `handleSave`, the colour and pattern pickers, and the object URL of the processed file. These are UI.
- `Images.tsx` (tile rendering and download link) and `vite.config.js` (build configuration). They contain no logic to verify.
