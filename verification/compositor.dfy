/** The edit dialog's compositor: the bookkeeping of the one effect slider
    shared by blur, brightness and contrast, and `applyChanges`, which
    paints a background, draws the cut-out subject over it and applies at
    most one effect.

    Canvas drawing is represented by the sequence of paint operations it
    performs; the brightness and contrast loops act on the pixel buffer. */
module Compositor {
  import opened Common
  import opened Pixels

  const NO_EFFECT: string := "none"
  const BLUR: string := "blur"
  const BRIGHTNESS: string := "brightness"
  const CONTRAST: string := "contrast"

  const COLOR_BACKGROUND: string := "color"
  const IMAGE_BACKGROUND: string := "image"

  /** What the slider shows when no effect with a value is selected, and
      the starting value of every effect. */
  const DEFAULT_EFFECT_VALUE: Intensity := 50

  /** A background image file chosen by the user. */
  datatype Picture = Picture(name: string)

  /** The dialog's state. Effect and background ids are the strings the
      buttons set. */
  datatype Editor = Editor(
    bgType: string,
    bgColor: string,
    customBgImage: Option<Picture>,
    selectedEffect: string,
    blurValue: Intensity,
    brightnessValue: Intensity,
    contrastValue: Intensity)

  /** The state when the dialog opens. */
  function InitialEditor(): Editor
  {
    Editor(COLOR_BACKGROUND, "#ffffff", None, NO_EFFECT,
           DEFAULT_EFFECT_VALUE, DEFAULT_EFFECT_VALUE, DEFAULT_EFFECT_VALUE)
  }

  /** The effects that own a slider value. */
  predicate HasSlider(effect: string)
  {
    effect == BLUR || effect == BRIGHTNESS || effect == CONTRAST
  }

  /** `getCurrentEffectValue`: the slider position for the selected effect. */
  function CurrentEffectValue(e: Editor): (v: Intensity)
    ensures e.selectedEffect == BLUR ==> v == e.blurValue
    ensures e.selectedEffect == BRIGHTNESS ==> v == e.brightnessValue
    ensures e.selectedEffect == CONTRAST ==> v == e.contrastValue
    ensures !HasSlider(e.selectedEffect) ==> v == DEFAULT_EFFECT_VALUE
  {
    if e.selectedEffect == BLUR then e.blurValue
    else if e.selectedEffect == BRIGHTNESS then e.brightnessValue
    else if e.selectedEffect == CONTRAST then e.contrastValue
    else DEFAULT_EFFECT_VALUE
  }

  /** `handleEffectValueChange(v)`: moving the slider updates the value of
      the selected effect and nothing else. */
  function HandleEffectValueChange(e: Editor, v: Intensity): (r: Editor)
    ensures r.bgType == e.bgType && r.bgColor == e.bgColor && r.customBgImage == e.customBgImage
    ensures r.selectedEffect == e.selectedEffect
    ensures e.selectedEffect != BLUR ==> r.blurValue == e.blurValue
    ensures e.selectedEffect != BRIGHTNESS ==> r.brightnessValue == e.brightnessValue
    ensures e.selectedEffect != CONTRAST ==> r.contrastValue == e.contrastValue
    ensures !HasSlider(e.selectedEffect) ==> r == e
  {
    if e.selectedEffect == BLUR then e.(blurValue := v)
    else if e.selectedEffect == BRIGHTNESS then e.(brightnessValue := v)
    else if e.selectedEffect == CONTRAST then e.(contrastValue := v)
    else e
  }

  /** Reading the slider after moving it gives the new position, unless no
      effect with a value is selected. */
  lemma SliderShowsWhatWasSet(e: Editor, v: Intensity)
    ensures CurrentEffectValue(HandleEffectValueChange(e, v))
         == (if HasSlider(e.selectedEffect) then v else DEFAULT_EFFECT_VALUE)
  {
  }

  /** Writing back the value the slider shows changes nothing. */
  lemma SettingShownValueChangesNothing(e: Editor)
    ensures HandleEffectValueChange(e, CurrentEffectValue(e)) == e
  {
  }

  /** A later slider move overrides an earlier one. */
  lemma LastSliderMoveWins(e: Editor, v: Intensity, w: Intensity)
    ensures HandleEffectValueChange(HandleEffectValueChange(e, v), w) == HandleEffectValueChange(e, w)
  {
  }

  /** Each effect keeps its own value: after moving the slider under one
      effect, switching to another shows that effect's earlier value. */
  lemma EffectsKeepTheirOwnValues(e: Editor, v: Intensity, other: string)
    requires other != e.selectedEffect
    ensures CurrentEffectValue(HandleEffectValueChange(e, v).(selectedEffect := other))
         == CurrentEffectValue(e.(selectedEffect := other))
  {
  }

  /** What `applyChanges` does to the canvas, in order. `Export` is the
      final `toDataURL("image/png")`. */
  datatype Paint =
    | FillRect(color: string)
    | DrawBackground(picture: Picture)
    | DrawSubject
    | BlurRedraw(radius: real)
    | BrightnessPass(brightness: Intensity)
    | ContrastPass(contrast: Intensity)
    | Export

  predicate IsBackground(p: Paint)
  {
    p.FillRect? || p.DrawBackground?
  }

  predicate IsEffect(p: Paint)
  {
    p.BlurRedraw? || p.BrightnessPass? || p.ContrastPass?
  }

  /** The background step: a colour fill for "color", the chosen picture
      stretched over the canvas for "image", nothing otherwise. */
  function BackgroundPaints(e: Editor): (r: seq<Paint>)
    ensures |r| <= 1
    ensures forall k :: 0 <= k < |r| ==> IsBackground(r[k])
    ensures e.bgType == COLOR_BACKGROUND ==> r == [FillRect(e.bgColor)]
    ensures e.bgType == IMAGE_BACKGROUND && e.customBgImage.Some? ==> r == [DrawBackground(e.customBgImage.value)]
    ensures e.bgType == IMAGE_BACKGROUND && e.customBgImage.None? ==> r == []
    ensures e.bgType != COLOR_BACKGROUND && e.bgType != IMAGE_BACKGROUND ==> r == []
  {
    if e.bgType == COLOR_BACKGROUND then [FillRect(e.bgColor)]
    else if e.bgType == IMAGE_BACKGROUND && e.customBgImage.Some? then [DrawBackground(e.customBgImage.value)]
    else []
  }

  /** The effect step. Blur redraws through a `blur(value / 10 px)` filter
      when a second canvas context is available; brightness and contrast
      rewrite the pixels; "none" and unknown ids do nothing. */
  function EffectPaints(e: Editor, hasTempContext: bool): (r: seq<Paint>)
    ensures |r| <= 1
    ensures forall k :: 0 <= k < |r| ==> IsEffect(r[k])
    ensures r != [] ==> e.selectedEffect != NO_EFFECT && HasSlider(e.selectedEffect)
    ensures e.selectedEffect == BRIGHTNESS ==> r == [BrightnessPass(e.brightnessValue)]
    ensures e.selectedEffect == CONTRAST ==> r == [ContrastPass(e.contrastValue)]
    ensures e.selectedEffect == BLUR ==> r == (if hasTempContext then [BlurRedraw(e.blurValue as real / 10.0)] else [])
  {
    if e.selectedEffect == NO_EFFECT then []
    else if e.selectedEffect == BLUR then
      (if hasTempContext then [BlurRedraw(e.blurValue as real / 10.0)] else [])
    else if e.selectedEffect == BRIGHTNESS then [BrightnessPass(e.brightnessValue)]
    else if e.selectedEffect == CONTRAST then [ContrastPass(e.contrastValue)]
    else []
  }

  /** `applyChanges`: nothing happens without a processed file or a 2D
      context; otherwise background, subject, effect, export. */
  function ApplyChanges(e: Editor, hasProcessedFile: bool, hasContext: bool, hasTempContext: bool): Option<seq<Paint>>
  {
    if !hasProcessedFile || !hasContext then None
    else Some(BackgroundPaints(e) + [DrawSubject] + EffectPaints(e, hasTempContext) + [Export])
  }

  /** The shape of every recompute: the subject is drawn exactly once, every
      background paint comes before it, at most one effect comes after it,
      and the export is last. Effects appear only when one is selected. */
  lemma ApplyChangesOrder(e: Editor, hasProcessedFile: bool, hasContext: bool, hasTempContext: bool)
    ensures ApplyChanges(e, hasProcessedFile, hasContext, hasTempContext).None? <==> !hasProcessedFile || !hasContext
    ensures var r := ApplyChanges(e, hasProcessedFile, hasContext, hasTempContext);
            r.Some? ==>
              && r.value[|r.value| - 1] == Export
              && (exists k :: 0 <= k < |r.value| && r.value[k] == DrawSubject
                    && (forall j :: 0 <= j < |r.value| && j != k ==> r.value[j] != DrawSubject)
                    && (forall j :: 0 <= j < |r.value| && IsBackground(r.value[j]) ==> j < k)
                    && (forall j :: 0 <= j < |r.value| && IsEffect(r.value[j]) ==> j > k))
              && (forall j, l :: 0 <= j < l < |r.value| && IsEffect(r.value[j]) ==> !IsEffect(r.value[l]))
              && (e.selectedEffect == NO_EFFECT ==> forall j :: 0 <= j < |r.value| ==> !IsEffect(r.value[j]))
  {
    var r := ApplyChanges(e, hasProcessedFile, hasContext, hasTempContext);
    if r.Some? {
      var bg := BackgroundPaints(e);
      var fx := EffectPaints(e, hasTempContext);
      var ps := r.value;
      assert ps == bg + [DrawSubject] + fx + [Export];
      var k := |bg|;
      assert ps[k] == DrawSubject;
      forall j | 0 <= j < |ps|
        ensures j < k ==> ps[j] == bg[j]
        ensures k < j < |ps| - 1 ==> ps[j] == fx[j - k - 1]
        ensures j == |ps| - 1 ==> ps[j] == Export
      {
      }
    }
  }

  /** When the dialog opens, a recompute paints white, draws the subject and
      exports. */
  lemma OpeningRecompute(hasTempContext: bool)
    ensures ApplyChanges(InitialEditor(), true, true, hasTempContext)
         == Some([FillRect("#ffffff"), DrawSubject, Export])
  {
    var e := InitialEditor();
    assert BackgroundPaints(e) == [FillRect("#ffffff")];
    assert EffectPaints(e, hasTempContext) == [];
    assert [FillRect("#ffffff")] + [DrawSubject] + [] + [Export] == [FillRect("#ffffff"), DrawSubject, Export];
  }

  /** The pixel buffer after the effect switch of `applyChanges`: the
      brightness or contrast loop for those effects, untouched otherwise. */
  function PixelEffect(e: Editor, data: seq<byte>): seq<byte>
  {
    if e.selectedEffect == BRIGHTNESS then MapColour(data, Brightness(e.brightnessValue))
    else if e.selectedEffect == CONTRAST then MapColour(data, Contrast(e.contrastValue))
    else data
  }

  /** The effect switch run on the canvas's pixel buffer. */
  method ApplyPixelEffect(e: Editor, data: seq<byte>) returns (out: seq<byte>)
    ensures |out| == |data|
    ensures forall j :: 0 <= j < |data| && j % 4 == 3 ==> out[j] == data[j]
    ensures e.selectedEffect == BRIGHTNESS ==>
              forall j :: 0 <= j < |data| && j % 4 != 3 ==> out[j] == BrightenChannel(data[j], e.brightnessValue)
    ensures e.selectedEffect == CONTRAST ==>
              forall j :: 0 <= j < |data| && j % 4 != 3 ==> out[j] == ContrastChannel(data[j], e.contrastValue)
    ensures e.selectedEffect != BRIGHTNESS && e.selectedEffect != CONTRAST ==> out == data
    ensures out == PixelEffect(e, data)
  {
    if e.selectedEffect == NO_EFFECT {
      out := data;
    } else if e.selectedEffect == BRIGHTNESS {
      out := ColourPass(data, Brightness(e.brightnessValue));
    } else if e.selectedEffect == CONTRAST {
      out := ColourPass(data, Contrast(e.contrastValue));
    } else {
      out := data;
    }
  }

  /** At its neutral setting each effect leaves the pixels as they are:
      brightness at 50, contrast at 0, and no effect at all. */
  lemma NeutralSettingsKeepPixels(e: Editor, data: seq<byte>)
    requires || e.selectedEffect == NO_EFFECT
             || (e.selectedEffect == BRIGHTNESS && e.brightnessValue == NEUTRAL_BRIGHTNESS)
             || (e.selectedEffect == CONTRAST && e.contrastValue == 0)
    ensures PixelEffect(e, data) == data
  {
    if e.selectedEffect == BRIGHTNESS {
      BrightnessPassNeutral(data);
    } else if e.selectedEffect == CONTRAST {
      ContrastPassNeutral(data);
    }
  }

  /** The default contrast setting is not neutral: at 50 a bright channel
      gets brighter. */
  lemma DefaultContrastIsNotNeutral()
    ensures ContrastChannel(200, DEFAULT_EFFECT_VALUE) > 200
  {
    var k := ContrastFactor(DEFAULT_EFFECT_VALUE);
    assert k == (259.0 * 305.0) / (255.0 * 209.0);
    assert Stretched(200, k) > 201.0;
    StoreAgainstByte(201, Stretched(200, k));
  }
}
