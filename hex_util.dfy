/** The small hex helpers at the top of app.js: isHexString, strip0x, pad32 and toHexUint. */
module HexUtil {
  import opened Results
  import opened JsText

  /** /^0x[0-9a-fA-F]*$/ */
  predicate IsHexString(v: string) {
    StartsWith(v, "0x") && AllHex(v[2..])
  }

  /** Drops a leading "0x", and only a leading one. */
  function Strip0x(hex: string): (r: string)
    ensures StartsWith(hex, "0x") ==> "0x" + r == hex
    ensures !StartsWith(hex, "0x") ==> r == hex
  {
    if StartsWith(hex, "0x") then hex[2..] else hex
  }

  /** Width of one ABI word in hex characters (32 bytes). */
  const WORD_HEX_CHARS: nat := 64

  /** Left-pads with '0' to one 32-byte word; a longer string is left as it is. */
  function Pad32(hexNo0x: string): (r: string)
    ensures |hexNo0x| <= WORD_HEX_CHARS ==> |r| == WORD_HEX_CHARS
    ensures |hexNo0x| > WORD_HEX_CHARS ==> r == hexNo0x
    ensures r[|r| - |hexNo0x|..] == hexNo0x
    ensures forall i :: 0 <= i < |r| - |hexNo0x| ==> r[i] == '0'
  {
    PadStart(hexNo0x, WORD_HEX_CHARS, '0')
  }

  /** Padding to a word keeps the number a hex string denotes. */
  lemma Pad32Value(h: string)
    requires AllHex(h)
    ensures AllHex(Pad32(h)) && ValueOf(Pad32(h), 16) == ValueOf(h, 16)
  {
    PadStartValue(h, WORD_HEX_CHARS, 16);
  }

  datatype HexError = NegativeValue

  /** toHexUint: "0x" and the minimal lower-case hex digits of a non-negative integer. */
  function ToHexUint(value: int): (r: Result<string, HexError>)
    ensures r.Err? <==> value < 0
    ensures r.Ok? ==> IsHexString(r.value) && AllLowerHex(r.value[2..])
    ensures r.Ok? ==> ValueOf(r.value[2..], 16) == value
    ensures r.Ok? ==> |r.value| >= 3 && (|r.value| == 3 || r.value[2] != '0')
  {
    if value < 0 then Err(NegativeValue)
    else
      NatToStringValue(value, 16);
      var digits := NatToString(value, 16);
      assert ("0x" + digits)[2..] == digits;
      Ok("0x" + digits)
  }
}
