/** Model selection: the process-wide inference state and the
    `initializeModel` state machine that picks between the WebGPU model and
    the cross-browser (WASM) fallback, with one retry on failure.

    Every call into the inference library is replaced by an outcome drawn
    from an `Attempt` record: the n-th (re)entry of `initializeModel` sees
    `attempts(n)`. */
module ModelInit {
  import opened Common
  import Platform

  const WEBGPU_MODEL_ID: string := "Xenova/modnet"
  const FALLBACK_MODEL_ID: string := "briaai/RMBG-1.4"

  /** Message of the error raised when a fallback load resolves to nothing. */
  const MISSING_MODEL_MESSAGE: string := "Failed to initialize model or processor"
  /** Message used when the thrown value is not an `Error` object. */
  const GENERIC_INIT_MESSAGE: string := "Failed to initialize background removal model"

  /** The backend a model was loaded for; `LibraryDefault` when no device
      option is passed. */
  datatype Device = LibraryDefault | WebGpu

  datatype ModelHandle = ModelHandle(id: string, device: Device, modelType: Option<string>)

  /** The preprocessing configuration passed to the processor loader. */
  datatype ProcessorConfig = ProcessorConfig(
    doNormalize: bool,
    doPad: bool,
    doRescale: bool,
    doResize: bool,
    imageMean: seq<real>,
    featureExtractorType: string,
    imageStd: seq<real>,
    resample: int,
    rescaleFactor: real,
    width: int,
    height: int)

  datatype ProcessorHandle = ProcessorHandle(id: string, revision: Option<string>, config: Option<ProcessorConfig>)

  /** Processor settings used on iOS: no padding, unit standard deviation. */
  const IOS_PROCESSOR_CONFIG: ProcessorConfig :=
    ProcessorConfig(true, false, true, true, [0.5, 0.5, 0.5], "ImageFeatureExtractor",
                    [1.0, 1.0, 1.0], 2, 0.00392156862745098, 1024, 1024)

  /** Processor settings of the non-iOS fallback: padding, std 0.5. */
  const FALLBACK_PROCESSOR_CONFIG: ProcessorConfig :=
    ProcessorConfig(true, true, true, true, [0.5, 0.5, 0.5], "ImageFeatureExtractor",
                    [0.5, 0.5, 0.5], 2, 0.00392156862745098, 1024, 1024)

  const IOS_MODEL: ModelHandle := ModelHandle(FALLBACK_MODEL_ID, LibraryDefault, Some("custom"))
  const IOS_PROCESSOR: ProcessorHandle := ProcessorHandle(FALLBACK_MODEL_ID, None, Some(IOS_PROCESSOR_CONFIG))
  const WEBGPU_MODEL: ModelHandle := ModelHandle(WEBGPU_MODEL_ID, WebGpu, Some("modnet"))
  const WEBGPU_PROCESSOR: ProcessorHandle := ProcessorHandle(WEBGPU_MODEL_ID, None, None)
  const FALLBACK_MODEL: ModelHandle := ModelHandle(FALLBACK_MODEL_ID, LibraryDefault, None)
  const FALLBACK_PROCESSOR: ProcessorHandle :=
    ProcessorHandle(FALLBACK_MODEL_ID, Some("main"), Some(FALLBACK_PROCESSOR_CONFIG))

  /** The single, process-wide adapter state. */
  datatype ModelState = ModelState(
    model: Option<ModelHandle>,
    processor: Option<ProcessorHandle>,
    isWebGPUSupported: bool,
    currentModelId: string,
    isIOS: bool)

  /** The state when the module is loaded: nothing loaded, the fallback id
      recorded, and the iOS flag computed once from the platform string,
      the user agent and touch support. */
  function InitialState(platform: string, userAgent: string, hasTouchEnd: bool): (s: ModelState)
    ensures s.isIOS <==> Platform.IsIOS(platform, userAgent, hasTouchEnd)
    ensures s.model.None? && s.processor.None? && !IsReady(s)
    ensures s.currentModelId == FALLBACK_MODEL_ID && !s.isWebGPUSupported
  {
    ModelState(None, None, false, FALLBACK_MODEL_ID, Platform.IsIOS(platform, userAgent, hasTouchEnd))
  }

  /** Both a model and a processor are present, so images can be processed. */
  predicate IsReady(s: ModelState)
  {
    s.model.Some? && s.processor.Some?
  }

  /** A value thrown by a loader: an `Error` object with a message, or
      anything else. */
  datatype Thrown = ErrorObject(message: string) | OtherValue

  /** What one awaited `from_pretrained` call does. */
  datatype Load = Loaded | LoadedNull | Threw(thrown: Thrown)

  /** The outcomes of every library call one pass through `initializeModel`
      can make. `adapterFound` is false when `navigator.gpu` is missing,
      `requestAdapter` resolves to null, or it throws: all three are handled
      alike. */
  datatype Attempt = Attempt(
    adapterFound: bool,
    gpuModel: Load,
    gpuProcessor: Load,
    model: Load,
    processor: Load)

  /** The value an assignment `x = await load(...)` stores. */
  function Stored<T>(l: Load, v: T): Option<T>
    requires !l.Threw?
  {
    if l.Loaded? then Some(v) else None
  }

  /** `forceModelId || FALLBACK_MODEL_ID`: a missing or empty id is falsy. */
  function SelectedModelId(force: Option<string>): (id: string)
    ensures id != ""
    ensures force.Some? && force.value != "" ==> id == force.value
    ensures force.None? || force.value == "" ==> id == FALLBACK_MODEL_ID
  {
    if force.None? || force.value == "" then FALLBACK_MODEL_ID else force.value
  }

  /** `initializeWebGPU`: probe for an adapter, then load the WebGPU model and
      processor. Any failure yields `false`, keeping whatever was stored
      before the failing step. */
  function InitializeWebGpu(s: ModelState, a: Attempt): (r: (ModelState, bool))
    ensures r.1 <==> a.adapterFound && !a.gpuModel.Threw? && !a.gpuProcessor.Threw?
    ensures r.1 ==> r.0 == s.(model := Stored(a.gpuModel, WEBGPU_MODEL),
                              processor := Stored(a.gpuProcessor, WEBGPU_PROCESSOR),
                              isWebGPUSupported := true)
    ensures !r.1 ==> r.0.processor == s.processor && r.0.isWebGPUSupported == s.isWebGPUSupported
    ensures !r.1 ==> r.0.model == s.model
                     || (a.adapterFound && !a.gpuModel.Threw? && r.0.model == Stored(a.gpuModel, WEBGPU_MODEL))
    ensures r.0.currentModelId == s.currentModelId && r.0.isIOS == s.isIOS
  {
    if !a.adapterFound then (s, false)
    else if a.gpuModel.Threw? then (s, false)
    else
      var s1 := s.(model := Stored(a.gpuModel, WEBGPU_MODEL));
      if a.gpuProcessor.Threw? then (s1, false)
      else (s1.(processor := Stored(a.gpuProcessor, WEBGPU_PROCESSOR), isWebGPUSupported := true), true)
  }

  /** The state after one pass through the `try` block of `initializeModel`,
      and the value it threw, if any. */
  datatype Pass = Pass(state: ModelState, thrown: Option<Thrown>)

  /** The iOS branch: always the fallback model with the iOS configuration. */
  function IosPass(s: ModelState, a: Attempt): Pass
  {
    if a.model.Threw? then Pass(s, Some(a.model.thrown))
    else
      var s1 := s.(model := Stored(a.model, IOS_MODEL));
      if a.processor.Threw? then Pass(s1, Some(a.processor.thrown))
      else Pass(s1.(processor := Stored(a.processor, IOS_PROCESSOR), currentModelId := FALLBACK_MODEL_ID), None)
  }

  /** The fallback load of the non-iOS branch. The id is first set to the
      fallback id, then overwritten by the selected id once both loads are
      present. */
  function FallbackPass(s: ModelState, a: Attempt, selected: string): Pass
  {
    if a.model.Threw? then Pass(s, Some(a.model.thrown))
    else
      var s1 := s.(model := Stored(a.model, FALLBACK_MODEL));
      if a.processor.Threw? then Pass(s1, Some(a.processor.thrown))
      else
        var s2 := s1.(processor := Stored(a.processor, FALLBACK_PROCESSOR), currentModelId := FALLBACK_MODEL_ID);
        if !IsReady(s2) then Pass(s2, Some(ErrorObject(MISSING_MODEL_MESSAGE)))
        else Pass(s2.(currentModelId := selected), None)
  }

  /** One pass through the `try` block of `initializeModel`. */
  function TryInitialize(s: ModelState, force: Option<string>, a: Attempt): (p: Pass)
    ensures p.state.isIOS == s.isIOS
  {
    if s.isIOS then IosPass(s, a)
    else
      var selected := SelectedModelId(force);
      var gpu := if selected == WEBGPU_MODEL_ID then InitializeWebGpu(s, a) else (s, false);
      if gpu.1 then Pass(gpu.0.(currentModelId := WEBGPU_MODEL_ID), None)
      else FallbackPass(gpu.0, a, selected)
  }

  /** The message of the error `initializeModel` rethrows. */
  function ErrorMessage(t: Thrown): string
  {
    match t
    case ErrorObject(m) => m
    case OtherValue => GENERIC_INIT_MESSAGE
  }

  /** What `initializeModel` leaves behind: the state, the returned value or
      the rethrown message, and how many passes it made. */
  datatype InitResult = InitResult(state: ModelState, outcome: Result<bool, string>, passes: nat)

  /** `initializeModel(forceModelId)` entered at recursion depth `depth`.
      A failing pass retries once with the fallback id, but only when the
      WebGPU id was forced; the retry itself can never retry again. */
  function InitializeModel(s: ModelState, force: Option<string>, attempts: nat -> Attempt, depth: nat): (r: InitResult)
    ensures r.passes == depth + 1 || (force == Some(WEBGPU_MODEL_ID) && r.passes == depth + 2)
    ensures r.outcome.Ok? ==> r.outcome.value
    ensures r.state.isIOS == s.isIOS
    ensures s.isIOS ==> r.state.isWebGPUSupported == s.isWebGPUSupported
    ensures s.isIOS && r.outcome.Ok? ==> r.state.currentModelId == FALLBACK_MODEL_ID
    ensures !s.isIOS && r.outcome.Ok? && force != Some(WEBGPU_MODEL_ID)
            ==> r.state.currentModelId == SelectedModelId(force)
    ensures !s.isIOS && r.outcome.Ok? && force == Some(WEBGPU_MODEL_ID)
            ==> r.state.currentModelId == (if r.passes == depth + 1 then WEBGPU_MODEL_ID else FALLBACK_MODEL_ID)
    decreases if force == Some(WEBGPU_MODEL_ID) then 1 else 0
  {
    var p := TryInitialize(s, force, attempts(depth));
    if p.thrown.None? then InitResult(p.state, Ok(true), depth + 1)
    else if force == Some(WEBGPU_MODEL_ID) then InitializeModel(p.state, Some(FALLBACK_MODEL_ID), attempts, depth + 1)
    else InitResult(p.state, Err(ErrorMessage(p.thrown.value)), depth + 1)
  }

  /** No loader in `a` resolves to null. */
  predicate NoNullLoads(a: Attempt)
  {
    !a.gpuModel.LoadedNull? && !a.gpuProcessor.LoadedNull? && !a.model.LoadedNull? && !a.processor.LoadedNull?
  }

  // ---------------------------------------------------------------------
  // Properties of the state machine
  // ---------------------------------------------------------------------

  /** On an iOS device the fallback model is loaded with the iOS settings and
      recorded, whatever id was forced, and initialisation returns true as
      soon as both loads succeed. */
  lemma IosAlwaysUsesFallback(s: ModelState, force: Option<string>, attempts: nat -> Attempt, depth: nat)
    requires s.isIOS
    requires attempts(depth).model.Loaded? && attempts(depth).processor.Loaded?
    ensures var r := InitializeModel(s, force, attempts, depth);
            && r.outcome == Ok(true)
            && r.passes == depth + 1
            && r.state.currentModelId == FALLBACK_MODEL_ID
            && r.state.model == Some(IOS_MODEL)
            && r.state.processor == Some(IOS_PROCESSOR)
            && r.state.isWebGPUSupported == s.isWebGPUSupported
  {
  }

  /** Forcing the WebGPU id off iOS, with an adapter and both WebGPU loads
      succeeding, records the WebGPU id and never touches the fallback
      model. */
  lemma WebGpuSuccessSkipsFallback(s: ModelState, attempts: nat -> Attempt, depth: nat)
    requires !s.isIOS
    requires attempts(depth).adapterFound
    requires attempts(depth).gpuModel.Loaded? && attempts(depth).gpuProcessor.Loaded?
    ensures var r := InitializeModel(s, Some(WEBGPU_MODEL_ID), attempts, depth);
            && r.outcome == Ok(true)
            && r.passes == depth + 1
            && r.state.currentModelId == WEBGPU_MODEL_ID
            && r.state.isWebGPUSupported
            && r.state.model == Some(WEBGPU_MODEL)
            && r.state.processor == Some(WEBGPU_PROCESSOR)
  {
  }

  /** Off iOS, when the WebGPU path is not taken or fails and the fallback
      loads succeed, the recorded id is the selected id, not the id of the
      model that was loaded. In particular a failed WebGPU attempt followed by
      a working fallback records the WebGPU id while the fallback model is
      the one in use. */
  lemma FallbackRecordsSelectedId(s: ModelState, force: Option<string>, attempts: nat -> Attempt, depth: nat)
    requires !s.isIOS
    requires SelectedModelId(force) == WEBGPU_MODEL_ID ==> !InitializeWebGpu(s, attempts(depth)).1
    requires attempts(depth).model.Loaded? && attempts(depth).processor.Loaded?
    ensures var r := InitializeModel(s, force, attempts, depth);
            && r.outcome == Ok(true)
            && r.passes == depth + 1
            && r.state.currentModelId == SelectedModelId(force)
            && r.state.model == Some(FALLBACK_MODEL)
            && r.state.processor == Some(FALLBACK_PROCESSOR)
  {
  }

  /** The quirk in its plainest form: WebGPU forced, no adapter, fallback
      loads fine, and the WebGPU id is what gets recorded. */
  lemma NoAdapterStillRecordsWebGpuId(s: ModelState, attempts: nat -> Attempt)
    requires !s.isIOS
    requires !attempts(0).adapterFound
    requires attempts(0).model.Loaded? && attempts(0).processor.Loaded?
    ensures var r := InitializeModel(s, Some(WEBGPU_MODEL_ID), attempts, 0);
            && r.outcome == Ok(true)
            && r.state.currentModelId == WEBGPU_MODEL_ID
            && r.state.model == Some(FALLBACK_MODEL)
            && r.state.isWebGPUSupported == s.isWebGPUSupported
  {
    FallbackRecordsSelectedId(s, Some(WEBGPU_MODEL_ID), attempts, 0);
  }

  /** A failing pass under a forced WebGPU id is retried exactly once, as
      `initializeModel(FALLBACK_MODEL_ID)` on the state the failure left;
      the retry's own failure is rethrown with its message. */
  lemma WebGpuFailureRetriesOnce(s: ModelState, attempts: nat -> Attempt, depth: nat)
    requires TryInitialize(s, Some(WEBGPU_MODEL_ID), attempts(depth)).thrown.Some?
    ensures var first := TryInitialize(s, Some(WEBGPU_MODEL_ID), attempts(depth));
            var second := TryInitialize(first.state, Some(FALLBACK_MODEL_ID), attempts(depth + 1));
            var r := InitializeModel(s, Some(WEBGPU_MODEL_ID), attempts, depth);
            && r.passes == depth + 2
            && r.state == second.state
            && r.outcome == (if second.thrown.None? then Ok(true) else Err(ErrorMessage(second.thrown.value)))
  {
    assert Some(FALLBACK_MODEL_ID) != Some(WEBGPU_MODEL_ID);
  }

  /** Any other forced id (or none) rethrows the first failure at once. */
  lemma OtherFailureRethrows(s: ModelState, force: Option<string>, attempts: nat -> Attempt, depth: nat)
    requires force != Some(WEBGPU_MODEL_ID)
    requires TryInitialize(s, force, attempts(depth)).thrown.Some?
    ensures var p := TryInitialize(s, force, attempts(depth));
            var r := InitializeModel(s, force, attempts, depth);
            && r.passes == depth + 1
            && r.state == p.state
            && r.outcome == Err(ErrorMessage(p.thrown.value))
  {
  }

  /** The retry path always reaches the fallback loader: a forced WebGPU id
      that fails on its first pass ends, when the second pass's loads
      succeed, with the fallback model recorded under the fallback id. */
  lemma RetryEndsOnFallback(s: ModelState, attempts: nat -> Attempt, depth: nat)
    requires !s.isIOS
    requires TryInitialize(s, Some(WEBGPU_MODEL_ID), attempts(depth)).thrown.Some?
    requires attempts(depth + 1).model.Loaded? && attempts(depth + 1).processor.Loaded?
    ensures var r := InitializeModel(s, Some(WEBGPU_MODEL_ID), attempts, depth);
            && r.outcome == Ok(true)
            && r.passes == depth + 2
            && r.state.currentModelId == FALLBACK_MODEL_ID
            && r.state.model == Some(FALLBACK_MODEL)
            && r.state.processor == Some(FALLBACK_PROCESSOR)
  {
    var first := TryInitialize(s, Some(WEBGPU_MODEL_ID), attempts(depth));
    var second := TryInitialize(first.state, Some(FALLBACK_MODEL_ID), attempts(depth + 1));
    var r := InitializeModel(s, Some(WEBGPU_MODEL_ID), attempts, depth);
    assert r.passes == depth + 2 && r.state == second.state
        && r.outcome == (if second.thrown.None? then Ok(true) else Err(ErrorMessage(second.thrown.value))) by {
      WebGpuFailureRetriesOnce(s, attempts, depth);
    }
    assert second.thrown.None? && second.state.currentModelId == FALLBACK_MODEL_ID
        && second.state.model == Some(FALLBACK_MODEL) && second.state.processor == Some(FALLBACK_PROCESSOR) by {
      assert |FALLBACK_MODEL_ID| != |WEBGPU_MODEL_ID|;
      PlainFallbackSucceeds(first.state, Some(FALLBACK_MODEL_ID), attempts(depth + 1));
    }
  }

  /** Off iOS with a non-WebGPU selection, working fallback loads give a
      ready state recording the selected id. */
  lemma PlainFallbackSucceeds(s: ModelState, force: Option<string>, a: Attempt)
    requires !s.isIOS
    requires SelectedModelId(force) != WEBGPU_MODEL_ID
    requires a.model.Loaded? && a.processor.Loaded?
    ensures TryInitialize(s, force, a)
         == Pass(s.(model := Some(FALLBACK_MODEL), processor := Some(FALLBACK_PROCESSOR),
                    currentModelId := SelectedModelId(force)), None)
  {
  }

  /** When no loader resolves to null, a successful initialisation leaves the
      adapter ready to process images. */
  lemma SuccessMeansReady(s: ModelState, force: Option<string>, attempts: nat -> Attempt, depth: nat)
    requires NoNullLoads(attempts(depth)) && NoNullLoads(attempts(depth + 1))
    ensures var r := InitializeModel(s, force, attempts, depth);
            r.outcome.Ok? ==> IsReady(r.state)
  {
    var p := TryInitialize(s, force, attempts(depth));
    if p.thrown.Some? && force == Some(WEBGPU_MODEL_ID) {
      var q := TryInitialize(p.state, Some(FALLBACK_MODEL_ID), attempts(depth + 1));
      assert q.thrown.None? ==> IsReady(q.state);
    }
  }

  /** A failure is only ever reported after the fallback loader itself
      failed: the failing pass threw from a fallback (or iOS) load, or found
      a fallback load empty. The WebGPU probe and loads never surface. The
      model is loaded before the processor, so a throwing model load
      propagates its own error even when the processor load would also
      throw; the null-check error appears only when neither load threw. */
  lemma FailureComesFromFallback(s: ModelState, force: Option<string>, a: Attempt)
    requires TryInitialize(s, force, a).thrown.Some?
    ensures a.model.Threw? || a.processor.Threw? || a.model.LoadedNull? || a.processor.LoadedNull?
    ensures TryInitialize(s, force, a).thrown.value
         == (if a.model.Threw? then a.model.thrown
             else if a.processor.Threw? then a.processor.thrown
             else ErrorObject(MISSING_MODEL_MESSAGE))
  {
  }

  /** Without null loads, a run that starts with no processor and fails
      leaves no processor behind: every pass that stores a processor
      succeeds. So a failed initialisation keeps images from being
      processed. */
  lemma FailureLeavesNoProcessor(s: ModelState, force: Option<string>, attempts: nat -> Attempt, depth: nat)
    requires s.processor.None?
    requires NoNullLoads(attempts(depth)) && NoNullLoads(attempts(depth + 1))
    ensures var r := InitializeModel(s, force, attempts, depth);
            r.outcome.Err? ==> r.state.processor.None? && !IsReady(r.state)
  {
  }

  /** A failed first initialisation, as the application starts, leaves the
      adapter unready, provided no loader resolves to null. */
  lemma FailedStartupLeavesUnready(platform: string, userAgent: string, hasTouchEnd: bool,
                                   force: Option<string>, attempts: nat -> Attempt)
    requires NoNullLoads(attempts(0)) && NoNullLoads(attempts(1))
    ensures var r := InitializeModel(InitialState(platform, userAgent, hasTouchEnd), force, attempts, 0);
            r.outcome.Err? ==> !IsReady(r.state)
  {
    FailureLeavesNoProcessor(InitialState(platform, userAgent, hasTouchEnd), force, attempts, 0);
  }

  /** Outcomes under which a null load breaks that promise: in the first
      pass the fallback model resolves to null while its processor loads,
      and in the retry the model loads while the processor throws. */
  function NullThenThrow(depth: nat): nat -> Attempt
  {
    n => if n == depth then Attempt(false, Loaded, Loaded, LoadedNull, Loaded)
         else Attempt(false, Loaded, Loaded, Loaded, Threw(OtherValue))
  }

  /** With those outcomes a forced WebGPU initialisation rejects, yet the
      state holds a model from the retry and a processor from the first
      pass, so images would pass the not-initialised guard. */
  lemma NullLoadCanLeaveReadyAfterFailure(s: ModelState, depth: nat)
    requires !s.isIOS
    ensures var r := InitializeModel(s, Some(WEBGPU_MODEL_ID), NullThenThrow(depth), depth);
            && r.outcome == Err(GENERIC_INIT_MESSAGE)
            && r.state.model == Some(FALLBACK_MODEL)
            && r.state.processor == Some(FALLBACK_PROCESSOR)
            && IsReady(r.state)
  {
    var attempts := NullThenThrow(depth);
    assert attempts(depth) == Attempt(false, Loaded, Loaded, LoadedNull, Loaded);
    assert attempts(depth + 1) == Attempt(false, Loaded, Loaded, Loaded, Threw(OtherValue));
    var first := TryInitialize(s, Some(WEBGPU_MODEL_ID), attempts(depth));
    assert first.thrown == Some(ErrorObject(MISSING_MODEL_MESSAGE));
    assert first.state.processor == Some(FALLBACK_PROCESSOR);
    WebGpuFailureRetriesOnce(s, attempts, depth);
  }

  /** A WebGPU re-initialisation whose processor load throws keeps the
      WebGPU model it already stored; when both fallback model loads then
      throw, the call rejects but the state pairs that model with the
      processor it held before, still passing the not-initialised guard. */
  lemma FailedWebGpuRetryMixesHandles(s: ModelState, attempts: nat -> Attempt, depth: nat)
    requires !s.isIOS
    requires attempts(depth).adapterFound
    requires attempts(depth).gpuModel.Loaded? && attempts(depth).gpuProcessor.Threw?
    requires attempts(depth).model.Threw? && attempts(depth + 1).model.Threw?
    ensures var r := InitializeModel(s, Some(WEBGPU_MODEL_ID), attempts, depth);
            && r.outcome == Err(ErrorMessage(attempts(depth + 1).model.thrown))
            && r.state.model == Some(WEBGPU_MODEL)
            && r.state.processor == s.processor
            && (s.processor.Some? ==> IsReady(r.state))
  {
    var first := TryInitialize(s, Some(WEBGPU_MODEL_ID), attempts(depth));
    assert first.state.model == Some(WEBGPU_MODEL);
    WebGpuFailureRetriesOnce(s, attempts, depth);
  }
}
