/** `YoloObjectDetector.preprocess`: unpacks the 416 x 416 packed ARGB pixels
    of the input image into three normalised channel values per pixel, red,
    green and blue, in pixel order. */
module Preprocessing {

  const MODEL_IMAGE_INPUT_SIZE: nat := 416
  const IMAGE_MEAN: int := 128
  const IMAGE_STD: real := 128.0

  /** A Java `int`. */
  newtype int32 = x: int | -0x8000_0000 <= x < 0x8000_0000

  /** The bit position of the lowest bit of channel `c`: red sits in bits
      16-23, green in bits 8-15, blue in bits 0-7. */
  function Shift(c: nat): (d: nat)
    requires c < 3
  {
    if c == 0 then 0x1_0000 else if c == 1 then 0x100 else 1
  }

  /** `(val >> s) & 0xFF`, `Shift(c)` being 2 to the power s.  `>>` is an
      arithmetic shift, which rounds towards negative infinity, as Dafny's
      division by a positive number does; `& 0xFF` keeps the remainder
      modulo 256, which Dafny's `%` never makes negative. */
  function ChannelByte(val: int32, c: nat): (byte: int)
    requires c < 3
    ensures 0 <= byte < 256
  {
    (val as int / Shift(c)) % 256
  }

  /** `(byte - IMAGE_MEAN) / IMAGE_STD`.  The difference is an integer in
      [-128, 127] and the divisor a power of two, so the float division is
      exact and a real number models it without rounding. */
  function Normalize(byte: int): (v: real) {
    (byte - IMAGE_MEAN) as real / IMAGE_STD
  }

  function ChannelValue(val: int32, c: nat): (v: real)
    requires c < 3
  {
    Normalize(ChannelByte(val, c))
  }

  /** The float buffer for `pixels`: slot 3i + c holds channel c of pixel i. */
  function Normalized(pixels: seq<int32>): (r: seq<real>)
    ensures |r| == 3 * |pixels|
    ensures forall i, c :: 0 <= i < |pixels| && 0 <= c < 3 ==> r[3 * i + c] == ChannelValue(pixels[i], c)
  {
    seq(3 * |pixels|, j requires 0 <= j < 3 * |pixels| => ChannelValue(pixels[j / 3], j % 3))
  }

  /** `preprocess`, from the moment `getPixels` has filled `intValues`:
      allocates the float buffer and fills it pixel by pixel. */
  method Preprocess(intValues: array<int32>) returns (floatValues: array<real>)
    requires intValues.Length == MODEL_IMAGE_INPUT_SIZE * MODEL_IMAGE_INPUT_SIZE
    ensures fresh(floatValues)
    ensures floatValues.Length == MODEL_IMAGE_INPUT_SIZE * MODEL_IMAGE_INPUT_SIZE * 3
    ensures floatValues[..] == Normalized(intValues[..])
  {
    floatValues := new real[MODEL_IMAGE_INPUT_SIZE * MODEL_IMAGE_INPUT_SIZE * 3];
    for i := 0 to intValues.Length
      invariant forall p, c :: 0 <= p < i && 0 <= c < 3 ==> floatValues[3 * p + c] == ChannelValue(intValues[p], c)
    {
      var val := intValues[i];
      floatValues[i * 3 + 0] := ((val as int / 0x1_0000) % 256 - IMAGE_MEAN) as real / IMAGE_STD;
      floatValues[i * 3 + 1] := ((val as int / 0x100) % 256 - IMAGE_MEAN) as real / IMAGE_STD;
      floatValues[i * 3 + 2] := (val as int % 256 - IMAGE_MEAN) as real / IMAGE_STD;
    }
    forall j | 0 <= j < floatValues.Length
      ensures floatValues[j] == Normalized(intValues[..])[j]
    {
      var p, c := j / 3, j % 3;
      assert j == 3 * p + c;
    }
  }

  /** Every value lies in [-1, 127/128], and the channel byte is recovered
      from it exactly. */
  lemma ChannelValueRange(val: int32, c: nat)
    requires c < 3
    ensures -1.0 <= ChannelValue(val, c) <= 127.0 / 128.0
    ensures ChannelValue(val, c) * 128.0 + 128.0 == ChannelByte(val, c) as real
  {
  }

  /** Distinct bytes give distinct values: normalisation loses nothing. */
  lemma NormalizeIsInjective(a: int, b: int)
    ensures Normalize(a) == Normalize(b) <==> a == b
  {
  }

  lemma LowBitsDivide(v: int, d: int, k: int)
    requires (d == 0x1_0000 && k == 0x100) || (d == 0x100 && k == 0x1_0000) || (d == 1 && k == 0x100_0000)
    ensures v / d == (v / 0x100_0000) * k + (v % 0x100_0000) / d
  {
    var q, low := v / 0x100_0000, v % 0x100_0000;
    var t := low / d;
    assert low == t * d + low % d;
    assert v == (q * k + t) * d + low % d;
  }

  lemma ModOfShifted(a: int, b: int, k: int)
    requires k == 0x100 || k == 0x1_0000 || k == 0x100_0000
    ensures (a * k + b) % 256 == b % 256
  {
    var j := k / 256;
    assert a * k + b == (a * j) * 256 + b;
  }

  /** A channel byte depends on the low 24 bits of the pixel only. */
  lemma ChannelOfLowBits(val: int32, c: nat)
    requires c < 3
    ensures ChannelByte(val, c) == ((val as int % 0x100_0000) / Shift(c)) % 256
  {
    var v := val as int;
    var k := 0x100_0000 / Shift(c);
    LowBitsDivide(v, Shift(c), k);
    ModOfShifted(v / 0x100_0000, (v % 0x100_0000) / Shift(c), k);
  }

  /** Pixels that agree in their colour bits give the same three values,
      whatever their alpha bits, negative pixels included. */
  lemma AlphaIsIgnored(v: int32, w: int32)
    requires v as int % 0x100_0000 == w as int % 0x100_0000
    ensures forall c :: 0 <= c < 3 ==> ChannelValue(v, c) == ChannelValue(w, c)
  {
    forall c | 0 <= c < 3 ensures ChannelValue(v, c) == ChannelValue(w, c) {
      ChannelOfLowBits(v, c);
      ChannelOfLowBits(w, c);
    }
  }

  /** The three channel bytes are the three low bytes of the pixel: put back
      together they give its low 24 bits. */
  lemma {:induction false} ChannelsRebuildColour(val: int32)
    ensures ChannelByte(val, 0) * 0x1_0000 + ChannelByte(val, 1) * 0x100 + ChannelByte(val, 2)
            == val as int % 0x100_0000
  {
    var low := val as int % 0x100_0000;
    ChannelOfLowBits(val, 0);
    ChannelOfLowBits(val, 1);
    ChannelOfLowBits(val, 2);
    var hi := low / 0x100;
    assert low == hi * 0x100 + low % 256;
    assert hi == (hi / 0x100) * 0x100 + hi % 256;
    assert hi / 0x100 == low / 0x1_0000;
    assert (low / 0x1_0000) % 256 == low / 0x1_0000;
  }
}
