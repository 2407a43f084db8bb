/**
 * The seven-segment encoding of the four-digit display driver.
 *
 * `DigitToMask` turns a decimal digit into the segment byte of one digit (bit 7
 * is the decimal point), `DigitToMask4` packs four of them into a 32-bit word,
 * most significant digit in the top byte, and the refresh loop of `DriveTask`
 * splits the number to show into four digits and sends the word one byte per
 * selected digit.
 *
 * `panic` on a digit above 9 is the `None` of `Mask`.
 */
module Disp4Digit {
  import opened Wrappers

  /** `uint8_t`, as the digits of the array are held. */
  type Uint8 = x: int | 0 <= x < 0x100

  /** `uint16_t`, the type of `DisplayValue::digits`. */
  type Uint16 = x: int | 0 <= x < 0x1_0000

  /** `dot_mask`: the decimal point segment. */
  const DotMask: bv8 := 0x80

  /** The segment patterns of the digits 0 to 9 (segment a is bit 0). */
  const Segments: seq<bv8> := [0x3F, 0x06, 0x5B, 0x4F, 0x66, 0x6D, 0x7D, 0x07, 0x7F, 0x6F]

  lemma SegmentsHaveNoDot()
    ensures |Segments| == 10
    ensures forall d :: 0 <= d < 10 ==> Segments[d] & DotMask == 0 && Segments[d] & 0x7F == Segments[d]
  {
  }

  /** No two digits light the same segments. */
  lemma SegmentsDistinct()
    ensures forall d, e :: 0 <= d < e < 10 ==> Segments[d] != Segments[e]
  {
  }

  /** `DigitToMask(digit, decimal_after)`: `None` where the source panics. */
  function Mask(digit: Uint8, decimalAfter: bool): (m: Option<bv8>)
    ensures m.None? <==> digit > 9
  {
    if digit > 9 then None else Some(Segments[digit] | if decimalAfter then DotMask else 0)
  }

  /** Bit 7 of the mask is the decimal point, and the low seven bits are the digit's pattern. */
  lemma MaskBits(digit: Uint8, decimalAfter: bool)
    requires digit <= 9
    ensures Mask(digit, decimalAfter).Some?
    ensures (Mask(digit, decimalAfter).value & DotMask != 0) <==> decimalAfter
    ensures Mask(digit, decimalAfter).value & 0x7F == Segments[digit]
  {
    SegmentsHaveNoDot();
    var s := Segments[digit];
    assert s & DotMask == 0 && s & 0x7F == s;
    if decimalAfter {
      assert (s | DotMask) & DotMask != 0 && (s | DotMask) & 0x7F == s & 0x7F;
    } else {
      assert (s | 0) == s;
    }
  }

  /** Different digits, or the same digit with and without the point, give different masks. */
  lemma MaskInjective(d1: Uint8, p1: bool, d2: Uint8, p2: bool)
    requires Mask(d1, p1).Some? && Mask(d1, p1) == Mask(d2, p2)
    ensures d1 == d2 && p1 == p2
  {
    MaskBits(d1, p1);
    MaskBits(d2, p2);
    SegmentsDistinct();
  }

  // ---------------------------------------------------------------------------
  // Four digits in one word
  // ---------------------------------------------------------------------------

  /** `w >> (8 * b) & 0xff`: byte `b` of `w`, `b` = 0 being the least significant. */
  function ByteOf(w: bv32, b: nat): bv8
    requires b < 4
  {
    (if b == 0 then w & 0xFF
     else if b == 1 then (w >> 8) & 0xFF
     else if b == 2 then (w >> 16) & 0xFF
     else (w >> 24) & 0xFF) as bv8
  }

  /** `digit_mask << shl` with `shl = 24 - 8 * i`, for the digit in position `i` of the array. */
  function Placed(m: bv8, i: nat): bv32
    requires i < 4
  {
    if i == 0 then (m as bv32) << 24
    else if i == 1 then (m as bv32) << 16
    else if i == 2 then (m as bv32) << 8
    else m as bv32
  }

  /** ORing a mask placed for array position `i` into a word whose byte `3 - i`
    * is still zero fills that byte and leaves the others alone. */
  lemma PlaceByte(w: bv32, m: bv8, i: nat, b: nat)
    requires i < 4 && b < 4
    requires b == 3 - i ==> ByteOf(w, b) == 0
    ensures ByteOf(w | Placed(m, i), b) == if b == 3 - i then m else ByteOf(w, b)
  {
    if b == 0 {
    } else if b == 1 {
    } else if b == 2 {
    } else {
    }
  }

  /** A word is determined by its four bytes, so the byte-wise contract of
    * `DigitToMask4` fixes its result. */
  lemma BytesDetermineWord(w1: bv32, w2: bv32)
    requires forall b :: 0 <= b < 4 ==> ByteOf(w1, b) == ByteOf(w2, b)
    ensures w1 == w2
  {
    assert ByteOf(w1, 0) == ByteOf(w2, 0);
    assert ByteOf(w1, 1) == ByteOf(w2, 1);
    assert ByteOf(w1, 2) == ByteOf(w2, 2);
    assert ByteOf(w1, 3) == ByteOf(w2, 3);
  }

  /** The word after one turn per mask in `ms`: `out |= mask << shl` for each. */
  function OrPlaced(ms: seq<bv8>): bv32
    requires |ms| <= 4
  {
    if ms == [] then 0 else OrPlaced(ms[..|ms| - 1]) | Placed(ms[|ms| - 1], |ms| - 1)
  }

  /** After the turns for `ms`, the bytes of those positions hold their masks
    * and the others are still zero. */
  lemma {:induction false} OrPlacedBytes(ms: seq<bv8>)
    requires |ms| <= 4
    ensures forall b :: 0 <= b < 4 ==> ByteOf(OrPlaced(ms), b) == if 3 - b < |ms| then ms[3 - b] else 0
  {
    if ms != [] {
      var n := |ms|;
      var init := ms[..n - 1];
      OrPlacedBytes(init);
      forall b | 0 <= b < 4
        ensures ByteOf(OrPlaced(ms), b) == if 3 - b < n then ms[3 - b] else 0
      {
        PlaceByte(OrPlaced(init), ms[n - 1], n - 1, b);
        if 3 - b < n - 1 {
          assert init[3 - b] == ms[3 - b];
        }
      }
    }
  }

  /** `DigitToMask4(values, decimal_position)`: the for loop OR-ing each digit's
    * mask into place. Byte `b` of the word is the mask of `values[3 - b]`, with
    * the point exactly when `decimalPosition == b`; `None` where a `DigitToMask`
    * call panics, which is exactly when some digit is above 9. */
  method DigitToMask4(values: seq<Uint8>, decimalPosition: int) returns (out: Option<bv32>)
    requires |values| == 4
    ensures out.None? <==> exists i :: 0 <= i < 4 && values[i] > 9
    ensures out.Some? ==> forall b :: 0 <= b < 4 ==>
              ByteOf(out.value, b) == Mask(values[3 - b], decimalPosition == b).value
  {
    var acc: bv32 := 0;
    ghost var masks: seq<bv8> := [];
    MaskTotal();
    var i := 0;
    while i < 4
      invariant 0 <= i <= 4 && |masks| == i
      invariant MasksFound(values, decimalPosition, masks)
      invariant acc == OrPlaced(masks)
    {
      var digitMask := Mask(values[i], decimalPosition == 3 - i);
      if digitMask.None? {
        assert values[i] > 9;
        return None;
      }
      OrPlacedSnoc(masks, digitMask.value);
      MasksFoundSnoc(values, decimalPosition, masks, digitMask.value);
      acc := acc | Placed(digitMask.value, i);
      masks := masks + [digitMask.value];
      i := i + 1;
    }
    out := Some(acc);
    MasksPacked(values, decimalPosition, masks);
  }

  /** The masks of the first `|masks|` turns, each found. */
  ghost predicate MasksFound(values: seq<Uint8>, decimalPosition: int, masks: seq<bv8>)
    requires |masks| <= |values|
  {
    forall j :: 0 <= j < |masks| ==> Mask(values[j], decimalPosition == 3 - j) == Some(masks[j])
  }

  lemma MasksFoundSnoc(values: seq<Uint8>, decimalPosition: int, masks: seq<bv8>, m: bv8)
    requires |masks| < |values| && MasksFound(values, decimalPosition, masks)
    requires Mask(values[|masks|], decimalPosition == 3 - |masks|) == Some(m)
    ensures MasksFound(values, decimalPosition, masks + [m])
  {
  }

  /** One more turn ORs the next mask into place. */
  lemma OrPlacedSnoc(ms: seq<bv8>, m: bv8)
    requires |ms| < 4
    ensures OrPlaced(ms + [m]) == OrPlaced(ms) | Placed(m, |ms|)
  {
    assert (ms + [m])[..|ms|] == ms;
  }

  /** Every decimal digit has a mask. */
  lemma MaskTotal()
    ensures forall d: Uint8, p: bool :: d <= 9 ==> Mask(d, p).Some?
  {
  }

  /** Four turns that all found their mask leave each mask in its byte. */
  lemma MasksPacked(values: seq<Uint8>, decimalPosition: int, masks: seq<bv8>)
    requires |values| == 4 && |masks| == 4
    requires MasksFound(values, decimalPosition, masks)
    ensures forall i :: 0 <= i < 4 ==> values[i] <= 9
    ensures forall b :: 0 <= b < 4 ==> ByteOf(OrPlaced(masks), b) == Mask(values[3 - b], decimalPosition == b).value
  {
    OrPlacedBytes(masks);
    forall b | 0 <= b < 4
      ensures ByteOf(OrPlaced(masks), b) == Mask(values[3 - b], decimalPosition == b).value
    {
      assert Mask(values[3 - b], decimalPosition == 3 - (3 - b)) == Some(masks[3 - b]);
    }
  }

  /** Bit 7 is set in at most one byte of a word `DigitToMask4` returns, in byte
    * `decimalPosition`, and in exactly one byte when `decimalPosition` is one of 0..3. */
  lemma OneDecimalPoint(values: seq<Uint8>, decimalPosition: int, w: bv32)
    requires |values| == 4 && forall i :: 0 <= i < 4 ==> values[i] <= 9
    requires forall b :: 0 <= b < 4 ==> ByteOf(w, b) == Mask(values[3 - b], decimalPosition == b).value
    ensures forall b :: 0 <= b < 4 ==> (ByteOf(w, b) & DotMask != 0 <==> b == decimalPosition)
    ensures forall b, c :: 0 <= b < 4 && 0 <= c < 4 && ByteOf(w, b) & DotMask != 0 && ByteOf(w, c) & DotMask != 0 ==> b == c
    ensures (exists b :: 0 <= b < 4 && ByteOf(w, b) & DotMask != 0) <==> 0 <= decimalPosition <= 3
  {
    forall b | 0 <= b < 4
      ensures ByteOf(w, b) & DotMask != 0 <==> b == decimalPosition
    {
      MaskBits(values[3 - b], decimalPosition == b);
    }
    if 0 <= decimalPosition <= 3 {
      assert ByteOf(w, decimalPosition) & DotMask != 0;
    }
  }

  // ---------------------------------------------------------------------------
  // The refresh loop of DriveTask
  // ---------------------------------------------------------------------------

  /** `DisplayValue`: the number to show (a `uint16_t`) and the digit the point follows. */
  datatype DisplayValue = DisplayValue(digits: Uint16, decimalPosition: Uint8, off: bool)

  /** The four digits of `value.digits`, most significant first. */
  function ExtractDigits(v: Uint16): (ds: seq<Uint8>)
    ensures |ds| == 4
    ensures forall i :: 0 <= i < 4 ==> ds[i] <= 9
  {
    [v / 1000 % 10, v / 100 % 10, v / 10 % 10, v % 10]
  }

  /** Each extracted digit is in 0..9, and together they are the last four
    * decimal digits of the value. */
  lemma ExtractedDigitsAreDecimal(v: Uint16)
    ensures forall i :: 0 <= i < 4 ==> ExtractDigits(v)[i] <= 9
    ensures var ds := ExtractDigits(v);
            1000 * (ds[0] as int) + 100 * (ds[1] as int) + 10 * (ds[2] as int) + ds[3] as int == v % 10000
  {
    DecimalSplit(v);
  }

  lemma DecimalSplit(v: nat)
    ensures 1000 * (v / 1000 % 10) + 100 * (v / 100 % 10) + 10 * (v / 10 % 10) + v % 10 == v % 10000
  {
    assert v / 10 / 10 == v / 100;
    assert v / 100 / 10 == v / 1000;
    assert v / 1000 / 10 == v / 10000;
  }

  /** `digits_mask_ >> ((3 - i) * 8) & 0xff`: the byte sent while select pin `i`
    * is low, which is the byte a mask for array position `i` is placed in. */
  function SentByte(w: bv32, i: nat): (b: bv8)
    requires i < 4
    ensures i == 0 ==> b as bv32 == w >> 24
    ensures i == 1 ==> b as bv32 == (w >> 16) & 0xFF
    ensures i == 2 ==> b as bv32 == (w >> 8) & 0xFF
    ensures i == 3 ==> b as bv32 == w & 0xFF
  {
    ByteOf(w, 3 - i)
  }

  /** One pass of `DriveTask`'s loop body: extract the digits, pack them, and send
    * one byte per select pin, most significant digit first. */
  method Refresh(value: DisplayValue) returns (sent: seq<bv8>)
    ensures |sent| == 4
    ensures forall i :: 0 <= i < 4 ==>
              sent[i] == Mask(ExtractDigits(value.digits)[i], value.decimalPosition == 3 - i).value
    ensures forall i :: 0 <= i < 4 ==>
              (sent[i] & DotMask != 0 <==> value.decimalPosition == 3 - i) &&
              sent[i] & 0x7F == Segments[ExtractDigits(value.digits)[i]]
  {
    var digits := ExtractDigits(value.digits);
    ExtractedDigitsAreDecimal(value.digits);
    var word := DigitToMask4(digits, value.decimalPosition);
    var w := word.value;
    sent := [];
    var i := 0;
    while i < 4
      invariant 0 <= i <= 4 && |sent| == i
      invariant forall j :: 0 <= j < i ==> sent[j] == Mask(digits[j], value.decimalPosition == 3 - j).value
    {
      sent := sent + [SentByte(w, i)];
      i := i + 1;
    }
    forall i | 0 <= i < 4
      ensures (sent[i] & DotMask != 0 <==> value.decimalPosition == 3 - i) &&
              sent[i] & 0x7F == Segments[digits[i]]
    {
      MaskBits(digits[i], value.decimalPosition == 3 - i);
    }
  }
}
