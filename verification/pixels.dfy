/** The editor's per-pixel effects on an RGBA buffer: brightness and
    contrast, each applied to the three colour bytes of every pixel by a
    loop that steps through the buffer four bytes at a time.

    Arithmetic is exact (`real`); the store into the `Uint8ClampedArray`
    clamps to 0..255 and rounds to the nearest integer, ties to even, as
    the typed array does. */
module Pixels {
  import opened Common

  /** Slider positions; the range input runs from 0 to 100. */
  type Intensity = x: int | 0 <= x <= 100

  /** The slider position at which brightness leaves a channel unchanged. */
  const NEUTRAL_BRIGHTNESS: Intensity := 50
  /** The channel value contrast pivots around. */
  const MIDPOINT: byte := 128

  /** Storing a number into a `Uint8ClampedArray` cell. */
  function ToUint8Clamp(x: real): (r: byte)
    ensures x <= 0.0 ==> r == 0
    ensures x >= 255.0 ==> r == 255
    ensures 0.0 < x < 255.0 ==> -0.5 <= r as real - x <= 0.5
    ensures 0.0 < x < 255.0 && (r as real - x == 0.5 || x - r as real == 0.5) ==> r % 2 == 0
  {
    if x <= 0.0 then 0
    else if x >= 255.0 then 255
    else RoundHalfEven(x)
  }

  /** The nearest integer to a number strictly between 0 and 255, ties going
      to the even neighbour. */
  function RoundHalfEven(x: real): (r: byte)
    requires 0.0 < x < 255.0
    ensures r == x.Floor || r == x.Floor + 1
    ensures -0.5 <= r as real - x <= 0.5
    ensures (r as real - x == 0.5 || x - r as real == 0.5) ==> r % 2 == 0
  {
    var f := x.Floor;
    if f as real + 0.5 < x then f + 1
    else if x < f as real + 0.5 then f
    else if f % 2 == 1 then f + 1
    else f
  }

  /** A value that already is a byte is stored unchanged. */
  lemma StoreKeepsBytes(x: byte)
    ensures ToUint8Clamp(x as real) == x
  {
  }

  /** Storing preserves order: a larger number never gives a smaller byte. */
  lemma StoreIsMonotonic(a: real, b: real)
    requires a <= b
    ensures ToUint8Clamp(a) <= ToUint8Clamp(b)
  {
    if 0.0 < a && b < 255.0 {
      var fa := a.Floor;
      var fb := b.Floor;
      assert ToUint8Clamp(a) == fa || ToUint8Clamp(a) == fa + 1;
      assert ToUint8Clamp(b) == fb || ToUint8Clamp(b) == fb + 1;
      if fa == fb {
        if ToUint8Clamp(a) == fa + 1 {
          assert fa as real + 0.5 <= a;
        }
      }
    }
  }

  function Min(a: real, b: real): real
  {
    if a <= b then a else b
  }

  /** The exact product `x * (v / 50)` before it is capped and stored. */
  function BrightnessProduct(x: byte, v: Intensity): real
  {
    x as real * (v as real / 50.0)
  }

  /** One colour channel under the brightness effect:
      `min(255, x * (v / 50))`, stored. */
  function BrightenChannel(x: byte, v: Intensity): byte
  {
    ToUint8Clamp(Min(255.0, BrightnessProduct(x, v)))
  }

  /** The brightness effect at slider position `v`, as a channel map. */
  function Brightness(v: Intensity): byte -> byte
  {
    x => BrightenChannel(x, v)
  }

  /** The product grows with the slider and equals the channel at 50. */
  lemma BrightnessProductOrder(x: byte, v: Intensity)
    ensures v >= 50 ==> BrightnessProduct(x, v) >= x as real
    ensures v <= 50 ==> BrightnessProduct(x, v) <= x as real
    ensures v == 0 ==> BrightnessProduct(x, v) == 0.0
  {
    ScaleNonNegative(v as real / 50.0, x as real);
  }

  /** A factor above 1 enlarges a non-negative number, one between 0 and 1
      shrinks it. */
  lemma ScaleNonNegative(k: real, y: real)
    requires y >= 0.0
    ensures k >= 1.0 ==> y * k >= y
    ensures 0.0 <= k <= 1.0 ==> y * k <= y
  {
    assert y * k == y + y * (k - 1.0);
    if k >= 1.0 {
      assert y * (k - 1.0) >= 0.0;
    } else if k >= 0.0 {
      assert y * (k - 1.0) <= 0.0;
    }
  }

  /** A number at least (at most) a byte is stored as at least (at most)
      that byte. */
  lemma StoreAgainstByte(x: byte, y: real)
    ensures x as real <= y ==> ToUint8Clamp(y) >= x
    ensures y <= x as real ==> ToUint8Clamp(y) <= x
  {
    StoreKeepsBytes(x);
    if x as real <= y {
      StoreIsMonotonic(x as real, y);
    } else {
      StoreIsMonotonic(y, x as real);
    }
  }

  /** Above 50 the effect never darkens a channel, below 50 it never
      brightens one, and at 50 it changes nothing. */
  lemma BrightnessDirection(x: byte, v: Intensity)
    ensures v >= 50 ==> BrightenChannel(x, v) >= x
    ensures v <= 50 ==> BrightenChannel(x, v) <= x
    ensures v == NEUTRAL_BRIGHTNESS ==> BrightenChannel(x, v) == x
  {
    BrightnessProductOrder(x, v);
    StoreAgainstByte(x, Min(255.0, BrightnessProduct(x, v)));
  }

  /** Brightness 50 leaves every channel as it is. */
  lemma BrightnessNeutral(x: byte)
    ensures BrightenChannel(x, NEUTRAL_BRIGHTNESS) == x
  {
    BrightnessDirection(x, NEUTRAL_BRIGHTNESS);
  }

  /** Brightness 0 turns every channel black. */
  lemma BrightnessZero(x: byte)
    ensures BrightenChannel(x, 0) == 0
  {
    BrightnessProductOrder(x, 0);
  }

  /** `(259 * (c + 255)) / (255 * (259 - c))`, the contrast factor. */
  function ContrastFactor(c: Intensity): real
  {
    (259.0 * (c as real + 255.0)) / (255.0 * (259.0 - c as real))
  }

  /** Over the slider's range the factor is at least 1, and exactly 1 only
      at 0: the effect can only add contrast, and 50 is not neutral. */
  lemma ContrastFactorRange(c: Intensity)
    ensures ContrastFactor(c) >= 1.0
    ensures ContrastFactor(c) == 1.0 <==> c == 0
  {
    var num := 259.0 * (c as real + 255.0);
    var den := 255.0 * (259.0 - c as real);
    assert den > 0.0;
    assert ContrastFactor(c) * den == num;
    assert num - den == 514.0 * c as real;
  }

  /** The exact value `k * (x - 128) + 128` before it is stored. */
  function Stretched(x: byte, k: real): real
  {
    k * (x as real - 128.0) + 128.0
  }

  /** One colour channel under the contrast effect:
      `factor * (x - 128) + 128`, stored. */
  function ContrastChannel(x: byte, c: Intensity): byte
  {
    ToUint8Clamp(Stretched(x, ContrastFactor(c)))
  }

  /** The contrast effect at slider position `c`, as a channel map. */
  function Contrast(c: Intensity): byte -> byte
  {
    x => ContrastChannel(x, c)
  }

  /** Stretching by a factor of at least 1 moves a channel away from the
      midpoint, leaves the midpoint where it is, and is the identity for a
      factor of exactly 1. */
  lemma StretchOrder(x: byte, k: real)
    requires k >= 1.0
    ensures x >= 128 ==> Stretched(x, k) >= x as real
    ensures x <= 128 ==> Stretched(x, k) <= x as real
    ensures k == 1.0 ==> Stretched(x, k) == x as real
  {
    var d := x as real - 128.0;
    assert k * d == d + (k - 1.0) * d;
    if d >= 0.0 {
      assert (k - 1.0) * d >= 0.0;
    } else {
      assert (k - 1.0) * d <= 0.0;
    }
  }

  /** Channels move away from the midpoint: bright ones get no darker, dark
      ones no brighter. */
  lemma ContrastSpreads(x: byte, c: Intensity)
    ensures x >= 128 ==> ContrastChannel(x, c) >= x
    ensures x <= 128 ==> ContrastChannel(x, c) <= x
  {
    ContrastFactorRange(c);
    StretchOrder(x, ContrastFactor(c));
    StoreAgainstByte(x, Stretched(x, ContrastFactor(c)));
  }

  /** Contrast 0 leaves every channel as it is. */
  lemma ContrastNeutral(x: byte)
    ensures ContrastChannel(x, 0) == x
  {
    ContrastFactorRange(0);
    StretchOrder(x, ContrastFactor(0));
    StoreKeepsBytes(x);
  }

  /** The midpoint 128 is a fixed point at every setting. */
  lemma ContrastFixesMidpoint(c: Intensity)
    ensures ContrastChannel(MIDPOINT, c) == MIDPOINT
  {
    ContrastSpreads(MIDPOINT, c);
  }

  /** The buffer after a colour pass with channel map `f`: every colour byte
      mapped, every fourth (alpha) byte kept. */
  function MapColour(data: seq<byte>, f: byte -> byte): seq<byte>
  {
    seq(|data|, j requires 0 <= j < |data| => if j % 4 == 3 then data[j] else f(data[j]))
  }

  /** The effect loop as written: `for (i = 0; i < data.length; i += 4)`
      storing `f` of bytes `i`, `i + 1` and `i + 2`. Stores past the end are
      dropped, as typed arrays drop them. */
  method ColourPass(data: seq<byte>, f: byte -> byte) returns (out: seq<byte>)
    ensures |out| == |data|
    ensures forall j :: 0 <= j < |data| && j % 4 == 3 ==> out[j] == data[j]
    ensures forall j :: 0 <= j < |data| && j % 4 != 3 ==> out[j] == f(data[j])
    ensures out == MapColour(data, f)
  {
    out := data;
    var i := 0;
    while i < |data|
      invariant 0 <= i && i % 4 == 0
      invariant |out| == |data|
      invariant forall j :: 0 <= j < |data| ==>
                  out[j] == (if j < i && j % 4 != 3 then f(data[j]) else data[j])
      decreases |data| - i
    {
      out := out[i := f(data[i])];
      if i + 1 < |data| {
        out := out[i + 1 := f(data[i + 1])];
      }
      if i + 2 < |data| {
        out := out[i + 2 := f(data[i + 2])];
      }
      i := i + 4;
    }
  }

  /** A channel map that fixes every byte gives back the buffer unchanged. */
  lemma MapColourIdentity(data: seq<byte>, f: byte -> byte)
    requires forall x: byte :: f(x) == x
    ensures MapColour(data, f) == data
  {
  }

  /** Brightness 50 is the identity on whole buffers. */
  lemma BrightnessPassNeutral(data: seq<byte>)
    ensures MapColour(data, Brightness(NEUTRAL_BRIGHTNESS)) == data
  {
    forall x: byte
      ensures Brightness(NEUTRAL_BRIGHTNESS)(x) == x
    {
      BrightnessNeutral(x);
    }
    MapColourIdentity(data, Brightness(NEUTRAL_BRIGHTNESS));
  }

  /** Brightness 0 blacks out every colour byte and keeps alpha. */
  lemma BrightnessPassZero(data: seq<byte>)
    ensures forall j :: 0 <= j < |data| ==>
              MapColour(data, Brightness(0))[j] == (if j % 4 == 3 then data[j] else 0)
  {
  }

  /** Contrast 0 is the identity on whole buffers. */
  lemma ContrastPassNeutral(data: seq<byte>)
    ensures MapColour(data, Contrast(0)) == data
  {
    forall x: byte
      ensures Contrast(0)(x) == x
    {
      ContrastNeutral(x);
    }
    MapColourIdentity(data, Contrast(0));
  }
}
