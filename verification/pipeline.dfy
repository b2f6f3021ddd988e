/** The per-image pipeline: `processImage` (not-initialised guard, alpha
    replacement from the predicted mask, output file name) and the batch
    `processImages`, which keeps the successes in order.

    Decoding, preprocessing, inference, the mask resize, canvas creation and
    PNG encoding are library or browser calls; each image carries their
    outcomes. */
module Pipeline {
  import opened Common
  import opened ModelInit

  /** Appended to the stem of every output file name. */
  const OUTPUT_SUFFIX: string := "-bg-blasted.png"
  const PNG_MIME_TYPE: string := "image/png"

  /** Decoded pixels as a canvas hands them out: RGBA, four bytes a pixel. */
  datatype Bitmap = Bitmap(width: nat, height: nat, rgba: seq<byte>)
  {
    predicate Valid()
    {
      |rgba| == 4 * width * height
    }
  }

  /** An input file together with what the libraries do with it.
      `mask` is `None` when preprocessing, inference or the mask resize
      throws; otherwise it is the resized single-channel mask.
      `hasContext` is whether a 2D canvas context was obtained and
      `blobCreated` whether PNG encoding produced a blob. */
  datatype InputImage = InputImage(
    name: string,
    decoded: Result<Bitmap, Thrown>,
    mask: Option<seq<byte>>,
    hasContext: bool,
    blobCreated: bool)

  /** The produced file, represented by the pixel buffer handed to
      `putImageData`. The canvas keeps premultiplied alpha, so the encoded
      PNG may differ from that buffer in the colour bytes of pixels that
      are not fully opaque. */
  datatype OutputFile = OutputFile(name: string, mimeType: string, image: Bitmap)

  /** How `processImage` can fail: the guard ("Model not initialized. Call
      initializeModel() first."), a decode error that escapes unwrapped
      because decoding happens before the `try`, or the single "Failed to
      process image" error for everything inside it. */
  datatype ProcessError = NotInitialized | DecodeFailed(thrown: Thrown) | ProcessingFailed

  /** `name.split(".")[0]`: the part of the name before its first dot. */
  function Stem(name: string): (r: string)
    ensures r <= name
    ensures '.' !in r
    ensures |r| < |name| ==> name[|r|] == '.'
  {
    if name == [] || name[0] == '.' then []
    else [name[0]] + Stem(name[1..])
  }

  /** The output name: the stem followed by "-bg-blasted.png". */
  function OutputName(name: string): string
  {
    Stem(name) + OUTPUT_SUFFIX
  }

  /** The stem is the only dot-free prefix that is followed by a dot or by
      the end of the name. */
  lemma {:induction false} StemIsUnique(name: string, p: string)
    requires p <= name && '.' !in p
    requires |p| < |name| ==> name[|p|] == '.'
    ensures p == Stem(name)
  {
    var r := Stem(name);
    if |p| < |r| {
      assert false;
    } else if |r| < |p| {
      assert false;
    }
  }

  /** A name without a dot keeps all of it; a name starting with a dot has
      an empty stem; otherwise the name is cut at its first dot. */
  lemma OutputNameCases(name: string)
    ensures '.' !in name ==> OutputName(name) == name + OUTPUT_SUFFIX
    ensures |name| > 0 && name[0] == '.' ==> OutputName(name) == OUTPUT_SUFFIX
    ensures forall k :: 0 <= k < |name| && name[k] == '.' && '.' !in name[..k]
                        ==> OutputName(name) == name[..k] + OUTPUT_SUFFIX
  {
    if '.' !in name {
      StemIsUnique(name, name);
    }
    forall k | 0 <= k < |name| && name[k] == '.' && '.' !in name[..k]
      ensures OutputName(name) == name[..k] + OUTPUT_SUFFIX
    {
      StemIsUnique(name, name[..k]);
    }
  }

  /** An example with several dots: only the part before the first counts. */
  lemma OutputNameExample()
    ensures OutputName("photo.final.jpg") == "photo" + OUTPUT_SUFFIX
  {
    var name := "photo.final.jpg";
    assert name[..5] == "photo";
    assert name[5] == '.';
    StemAtFirstDot(name, 5);
  }

  /** Cutting at the first dot, stated by position. */
  lemma StemAtFirstDot(name: string, k: nat)
    requires k < |name| && name[k] == '.'
    requires forall i :: 0 <= i < k ==> name[i] != '.'
    ensures Stem(name) == name[..k]
  {
    StemIsUnique(name, name[..k]);
  }

  /** The buffer after the alpha loop, byte by byte: the alpha byte of pixel
      `i` is `mask[i]` for every pixel the mask covers; writes past the end
      of the buffer are dropped, as typed arrays drop them. */
  function WithAlpha(pixels: seq<byte>, mask: seq<byte>): seq<byte>
  {
    seq(|pixels|, j requires 0 <= j < |pixels| =>
      if j % 4 == 3 && j / 4 < |mask| then mask[j / 4] else pixels[j])
  }

  /** The alpha loop as written: `pixels[4 * i + 3] = mask[i]` for each
      `i` below the mask length. */
  method ReplaceAlpha(pixels: seq<byte>, mask: seq<byte>) returns (out: seq<byte>)
    ensures |out| == |pixels|
    ensures forall i :: 0 <= i < |mask| && 4 * i + 3 < |pixels| ==> out[4 * i + 3] == mask[i]
    ensures forall j :: 0 <= j < |pixels| && j % 4 != 3 ==> out[j] == pixels[j]
    ensures forall j :: 0 <= j < |pixels| && j / 4 >= |mask| ==> out[j] == pixels[j]
    ensures out == WithAlpha(pixels, mask)
  {
    out := pixels;
    var i := 0;
    while i < |mask|
      invariant 0 <= i <= |mask|
      invariant |out| == |pixels|
      invariant forall j :: 0 <= j < |pixels| ==>
                  out[j] == (if j % 4 == 3 && j / 4 < i then mask[j / 4] else pixels[j])
    {
      if 4 * i + 3 < |out| {
        out := out[4 * i + 3 := mask[i]];
      }
      i := i + 1;
    }
  }

  /** The four bytes of pixel `i` sit at offsets 0..3 of its group of four. */
  lemma PixelOffsets(i: nat)
    ensures (4 * i) % 4 == 0 && (4 * i) / 4 == i
    ensures (4 * i + 1) % 4 == 1 && (4 * i + 1) / 4 == i
    ensures (4 * i + 2) % 4 == 2 && (4 * i + 2) / 4 == i
    ensures (4 * i + 3) % 4 == 3 && (4 * i + 3) / 4 == i
  {
  }

  /** With the mask no longer than the pixel count, each pixel's alpha
      becomes its mask value and its colour bytes stay as they were. */
  lemma AlphaReplacement(pixels: seq<byte>, mask: seq<byte>)
    requires 4 * |mask| <= |pixels|
    ensures var out := WithAlpha(pixels, mask);
            && |out| == |pixels|
            && (forall i :: 0 <= i < |mask| ==> out[4 * i + 3] == mask[i])
            && (forall i :: 0 <= i < |mask| ==>
                  out[4 * i] == pixels[4 * i] && out[4 * i + 1] == pixels[4 * i + 1]
                  && out[4 * i + 2] == pixels[4 * i + 2])
  {
    var out := WithAlpha(pixels, mask);
    forall i | 0 <= i < |mask|
      ensures out[4 * i + 3] == mask[i]
      ensures out[4 * i] == pixels[4 * i] && out[4 * i + 1] == pixels[4 * i + 1]
              && out[4 * i + 2] == pixels[4 * i + 2]
    {
      PixelOffsets(i);
    }
  }

  /** `processImage(image)` against the adapter state `s`. */
  function ProcessImage(s: ModelState, image: InputImage): (r: Result<OutputFile, ProcessError>)
    ensures r == Err(NotInitialized) <==> !IsReady(s)
    ensures r.Ok? ==> && r.value.name == OutputName(image.name)
                      && r.value.mimeType == PNG_MIME_TYPE
                      && image.decoded.Ok?
    ensures IsReady(s) && image.decoded.Err? ==> r == Err(DecodeFailed(image.decoded.error))
    ensures IsReady(s) && image.decoded.Ok? ==>
              (r.Ok? <==> image.mask.Some? && image.hasContext && image.blobCreated)
    ensures IsReady(s) && image.decoded.Ok? && r.Err? ==> r == Err(ProcessingFailed)
  {
    if !IsReady(s) then Err(NotInitialized)
    else match image.decoded
      case Err(t) => Err(DecodeFailed(t))
      case Ok(bitmap) =>
        if image.mask.None? || !image.hasContext || !image.blobCreated then Err(ProcessingFailed)
        else
          var pixels := WithAlpha(bitmap.rgba, image.mask.value);
          Ok(OutputFile(OutputName(image.name), PNG_MIME_TYPE, Bitmap(bitmap.width, bitmap.height, pixels)))
  }

  /** A processed image has the decoded bitmap's size and colour bytes;
      only alpha bytes differ. */
  lemma ProcessedImageKeepsColour(s: ModelState, image: InputImage)
    requires ProcessImage(s, image).Ok?
    ensures var out := ProcessImage(s, image).value.image;
            && out.width == image.decoded.value.width
            && out.height == image.decoded.value.height
            && |out.rgba| == |image.decoded.value.rgba|
            && forall j :: 0 <= j < |out.rgba| && j % 4 != 3 ==> out.rgba[j] == image.decoded.value.rgba[j]
  {
  }

  /** A valid bitmap with a mask of one byte per pixel comes out as a valid
      bitmap of the same size whose every alpha byte is the mask's. */
  lemma FullMaskSetsEveryAlpha(s: ModelState, image: InputImage)
    requires ProcessImage(s, image).Ok?
    requires image.decoded.value.Valid()
    requires |image.mask.value| == image.decoded.value.width * image.decoded.value.height
    ensures var out := ProcessImage(s, image).value.image;
            && out.Valid()
            && forall i :: 0 <= i < |image.mask.value| ==> out.rgba[4 * i + 3] == image.mask.value[i]
  {
    AlphaReplacement(image.decoded.value.rgba, image.mask.value);
  }

  /** The results of the images that succeed, in input order. */
  function Successes(s: ModelState, images: seq<InputImage>): seq<OutputFile>
    decreases |images|
  {
    if images == [] then []
    else
      var last := ProcessImage(s, images[|images| - 1]);
      Successes(s, images[..|images| - 1]) + (if last.Ok? then [last.value] else [])
  }

  /** `processImages(images)`: each image in turn; a failure is logged and
      skipped, a success appended. */
  method ProcessImages(s: ModelState, images: seq<InputImage>) returns (files: seq<OutputFile>)
    ensures files == Successes(s, images)
    ensures |files| <= |images|
  {
    files := [];
    for k := 0 to |images|
      invariant files == Successes(s, images[..k])
    {
      assert images[..k + 1][..k] == images[..k];
      var r := ProcessImage(s, images[k]);
      if r.Ok? {
        files := files + [r.value];
      }
    }
    assert images[..|images|] == images;
    SuccessesLength(s, images);
  }

  /** At most one result per input. */
  lemma {:induction false} SuccessesLength(s: ModelState, images: seq<InputImage>)
    ensures |Successes(s, images)| <= |images|
    decreases |images|
  {
    if images != [] {
      SuccessesLength(s, images[..|images| - 1]);
    }
  }

  /** The batch is compositional: processing `a + b` yields the results of
      `a` followed by those of `b`. */
  lemma {:induction false} SuccessesAppend(s: ModelState, a: seq<InputImage>, b: seq<InputImage>)
    ensures Successes(s, a + b) == Successes(s, a) + Successes(s, b)
    decreases |b|
  {
    if b == [] {
      assert a + b == a;
    } else {
      var b' := b[..|b| - 1];
      assert (a + b)[..|a + b| - 1] == a + b';
      assert (a + b)[|a + b| - 1] == b[|b| - 1];
      SuccessesAppend(s, a, b');
    }
  }

  /** Order is preserved around any single image: the results before it,
      then its own result if it succeeded, then the results after it. */
  lemma SuccessesAround(s: ModelState, images: seq<InputImage>, k: nat)
    requires k < |images|
    ensures var r := ProcessImage(s, images[k]);
            Successes(s, images)
            == Successes(s, images[..k]) + (if r.Ok? then [r.value] else []) + Successes(s, images[k + 1..])
  {
    assert images == images[..k] + [images[k]] + images[k + 1..];
    SuccessesAppend(s, images[..k] + [images[k]], images[k + 1..]);
    SuccessesAppend(s, images[..k], [images[k]]);
    assert [images[k]][..0] == [];
  }

  /** When every image succeeds, the batch returns one result per image, in
      order. */
  lemma {:induction false} AllSucceed(s: ModelState, images: seq<InputImage>)
    requires forall k :: 0 <= k < |images| ==> ProcessImage(s, images[k]).Ok?
    ensures |Successes(s, images)| == |images|
    ensures forall k :: 0 <= k < |images| ==> Successes(s, images)[k] == ProcessImage(s, images[k]).value
    decreases |images|
  {
    if images != [] {
      var init := images[..|images| - 1];
      assert forall k :: 0 <= k < |init| ==> init[k] == images[k];
      AllSucceed(s, init);
    }
  }

  /** One failing image among otherwise successful ones costs exactly one
      result, and the rest keep their order. */
  lemma OneFailureDropsOne(s: ModelState, images: seq<InputImage>, k: nat)
    requires k < |images|
    requires ProcessImage(s, images[k]).Err?
    requires forall j :: 0 <= j < |images| && j != k ==> ProcessImage(s, images[j]).Ok?
    ensures Successes(s, images) == Successes(s, images[..k]) + Successes(s, images[k + 1..])
    ensures |Successes(s, images)| == |images| - 1
  {
    FailureIsSkipped(s, images, k);
    OthersKeepTheirResults(s, images, k);
  }

  /** A failing image contributes nothing to the batch. */
  lemma FailureIsSkipped(s: ModelState, images: seq<InputImage>, k: nat)
    requires k < |images|
    requires ProcessImage(s, images[k]).Err?
    ensures Successes(s, images) == Successes(s, images[..k]) + Successes(s, images[k + 1..])
  {
    SuccessesAround(s, images, k);
  }

  /** Around the failing image every other image contributes one result. */
  lemma OthersKeepTheirResults(s: ModelState, images: seq<InputImage>, k: nat)
    requires k < |images|
    requires forall j :: 0 <= j < |images| && j != k ==> ProcessImage(s, images[j]).Ok?
    ensures |Successes(s, images[..k])| == k
    ensures |Successes(s, images[k + 1..])| == |images| - k - 1
  {
    var before := images[..k];
    var after := images[k + 1..];
    forall j | 0 <= j < |before|
      ensures ProcessImage(s, before[j]).Ok?
    {
      assert before[j] == images[j];
    }
    forall j | 0 <= j < |after|
      ensures ProcessImage(s, after[j]).Ok?
    {
      assert after[j] == images[k + 1 + j];
    }
    AllSucceedLength(s, before);
    AllSucceedLength(s, after);
  }

  /** The length half of `AllSucceed`. */
  lemma AllSucceedLength(s: ModelState, images: seq<InputImage>)
    requires forall k :: 0 <= k < |images| ==> ProcessImage(s, images[k]).Ok?
    ensures |Successes(s, images)| == |images|
  {
    AllSucceed(s, images);
  }

  /** Before initialisation every image fails, so the batch is empty. */
  lemma {:induction false} UninitialisedBatchIsEmpty(s: ModelState, images: seq<InputImage>)
    requires !IsReady(s)
    ensures Successes(s, images) == []
    decreases |images|
  {
    if images != [] {
      UninitialisedBatchIsEmpty(s, images[..|images| - 1]);
    }
  }

  /** When the first initialisation fails and no loader resolved to null,
      every later batch comes back empty. */
  lemma FailedStartupProcessesNothing(platform: string, userAgent: string, hasTouchEnd: bool,
                                      force: Option<string>, attempts: nat -> Attempt, images: seq<InputImage>)
    requires NoNullLoads(attempts(0)) && NoNullLoads(attempts(1))
    requires InitializeModel(InitialState(platform, userAgent, hasTouchEnd), force, attempts, 0).outcome.Err?
    ensures Successes(InitializeModel(InitialState(platform, userAgent, hasTouchEnd), force, attempts, 0).state, images) == []
  {
    FailedStartupLeavesUnready(platform, userAgent, hasTouchEnd, force, attempts);
    UninitialisedBatchIsEmpty(InitializeModel(InitialState(platform, userAgent, hasTouchEnd), force, attempts, 0).state, images);
  }

  /** After a successful initialisation in which no loader resolved to null,
      no image is rejected as "not initialised". */
  lemma InitialisedImagesPassTheGuard(s: ModelState, force: Option<string>, attempts: nat -> Attempt,
                                      depth: nat, image: InputImage)
    requires NoNullLoads(attempts(depth)) && NoNullLoads(attempts(depth + 1))
    requires InitializeModel(s, force, attempts, depth).outcome.Ok?
    ensures ProcessImage(InitializeModel(s, force, attempts, depth).state, image) != Err(NotInitialized)
  {
    SuccessMeansReady(s, force, attempts, depth);
  }
}
