/**
 * Bytes and hexadecimal text: the lowercase `%x` rendering of `fmt` and the
 * `0x`-prefixed decoder that `utils.TryParseHex` provides to the listener.
 */
module Hex {
  import opened Wrappers

  type Byte = b: int | 0 <= b < 256

  const Quote: Byte := 34    // '"'
  const Zero: Byte := 48     // '0'
  const LowerX: Byte := 120  // 'x'
  const UpperX: Byte := 88   // 'X'

  /** Value of an ASCII hex digit of either case, as `encoding/hex` accepts it. */
  function DigitValue(b: Byte): (r: Option<nat>)
    ensures r.Some? ==> r.value < 16
  {
    if 48 <= b <= 57 then Some(b - 48)
    else if 97 <= b <= 102 then Some(b - 87)
    else if 65 <= b <= 70 then Some(b - 55)
    else None
  }

  predicate IsLowerHexDigit(b: Byte)
  {
    48 <= b <= 57 || 97 <= b <= 102
  }

  /** The lowercase ASCII digit for a value below sixteen. */
  function LowerDigit(n: nat): (b: Byte)
    requires n < 16
    ensures IsLowerHexDigit(b) && DigitValue(b) == Some(n)
  {
    if n < 10 then 48 + n else 87 + n
  }

  /** `%x` on a byte slice: two lowercase digits per byte, high nibble first. */
  function EncodeLower(bs: seq<Byte>): (r: seq<Byte>)
    ensures |r| == 2 * |bs|
    ensures forall i :: 0 <= i < |r| ==> IsLowerHexDigit(r[i])
  {
    if bs == [] then [] else [LowerDigit(bs[0] / 16), LowerDigit(bs[0] % 16)] + EncodeLower(bs[1..])
  }

  /** `hex.DecodeString`: pairs of digits to bytes; fails on an odd length or a non-digit. */
  function DecodePairs(s: seq<Byte>): (r: Option<seq<Byte>>)
    ensures r.Some? ==> |s| == 2 * |r.value|
    decreases |s|
  {
    if |s| == 0 then Some([])
    else if |s| == 1 then None
    else
      var hi, lo := DigitValue(s[0]), DigitValue(s[1]);
      if hi.None? || lo.None? then None
      else
        match DecodePairs(s[2..])
        case None => None
        case Some(rest) => Some([(hi.value * 16 + lo.value) as Byte] + rest)
  }

  lemma {:induction false} DecodeEncode(bs: seq<Byte>)
    ensures DecodePairs(EncodeLower(bs)) == Some(bs)
  {
    if bs != [] {
      var e := EncodeLower(bs);
      assert e[2..] == EncodeLower(bs[1..]);
      DecodeEncode(bs[1..]);
      assert (bs[0] / 16) * 16 + bs[0] % 16 == bs[0];
      assert [bs[0]] + bs[1..] == bs;
    }
  }

  datatype HexError = MissingPrefix | InvalidDigits

  predicate HasHexPrefix(s: seq<Byte>)
  {
    |s| >= 2 && s[0] == Zero && (s[1] == LowerX || s[1] == UpperX)
  }

  /**
   * `utils.TryParseHex`: requires a `0x`/`0X` prefix, pads an odd number of
   * digits with a leading '0', then decodes the digits pairwise.
   */
  function TryParseHex(s: seq<Byte>): (r: Result<seq<Byte>, HexError>)
    ensures !HasHexPrefix(s) ==> r == Failure(MissingPrefix)
    ensures r.Success? ==> |r.value| == (|s| - 1) / 2
  {
    if !HasHexPrefix(s) then Failure(MissingPrefix)
    else
      var digits := s[2..];
      var padded := if |digits| % 2 == 1 then [Zero] + digits else digits;
      match DecodePairs(padded)
      case None => Failure(InvalidDigits)
      case Some(b) => Success(b)
  }

  /** The bytes of `fmt.Sprintf("0x%x", b)`. */
  function FormatHexBytes(b: seq<Byte>): (r: seq<Byte>)
    ensures |r| == 2 + 2 * |b| && HasHexPrefix(r)
  {
    [Zero, LowerX] + EncodeLower(b)
  }

  function ToChars(bs: seq<Byte>): (s: string)
    ensures |s| == |bs| && forall i :: 0 <= i < |bs| ==> s[i] as int == bs[i]
  {
    seq(|bs|, i requires 0 <= i < |bs| => bs[i] as char)
  }

  /** `fmt.Sprintf("0x%x", b)` as a string: `0x`, then two lowercase hex digits per byte. */
  function FormatHex(b: seq<Byte>): (s: string)
    ensures |s| == 2 + 2 * |b| && s[0] == '0' && s[1] == 'x'
    ensures forall i :: 2 <= i < |s| ==> ('0' <= s[i] <= '9' || 'a' <= s[i] <= 'f')
  {
    var bytes := FormatHexBytes(b);
    assert forall i :: 2 <= i < |bytes| ==> bytes[i] == EncodeLower(b)[i - 2] && IsLowerHexDigit(bytes[i]);
    ToChars(bytes)
  }

  /** Every lowercase rendering parses back to the bytes it came from. */
  lemma ParseFormatted(b: seq<Byte>)
    ensures TryParseHex(FormatHexBytes(b)) == Success(b)
  {
    assert FormatHexBytes(b)[2..] == EncodeLower(b);
    DecodeEncode(b);
  }
}
