/**
 * encodeErc20TransferData: the calldata of ERC-20 transfer(address,uint256) as a hex string,
 * "0x", the 4-byte selector, then two 32-byte ABI words (recipient, amount).
 */
module TransferCall {
  import opened Results
  import opened JsText
  import opened HexUtil
  import opened AddressValidator

  /** First four bytes of keccak256("transfer(address,uint256)"). */
  const TRANSFER_SELECTOR: string := "a9059cbb"

  /** "0x" + selector + two words of 64 hex characters. */
  const TRANSFER_DATA_LENGTH: nat := 2 + 8 + 2 * WORD_HEX_CHARS

  /** 16^64 = 2^256: the amounts one uint256 word can hold. */
  function Uint256Bound(): nat {
    Pow(16, WORD_HEX_CHARS)
  }

  /**
   * The selector prefix and two words of at least 64 hex characters each; the exact layout,
   * when the recipient is well formed and the amount fits a word, is EncodeLayout.
   */
  function EncodeErc20TransferData(to: string, amountUnits: nat): (r: string)
    ensures |r| >= TRANSFER_DATA_LENGTH && r[..10] == "0x" + TRANSFER_SELECTOR
  {
    var toPadded := Pad32(ToLower(Strip0x(to)));
    var amtPadded := Pad32(NatToString(amountUnits, 16));
    var head := "0x" + TRANSFER_SELECTOR;
    assert |head| == 10;
    assert (head + toPadded + amtPadded)[..10] == head;
    head + toPadded + amtPadded
  }

  /** The recipient word: 24 zeros, then the 40 lower-cased hex digits of the address. */
  function AddressWordOf(hexDigits: string): string {
    Repeat('0', 24) + hexDigits
  }

  /**
   * Reading transfer calldata back: the recipient (as "0x" and the 40 hex digits of its word)
   * and the amount. None for text that is not 138 characters of well-formed transfer calldata.
   */
  function DecodeErc20TransferData(data: string): (r: Option<(string, nat)>)
    ensures r.Some? ==> |data| == TRANSFER_DATA_LENGTH && IsAddressLike(r.value.0)
  {
    if |data| == TRANSFER_DATA_LENGTH && data[..10] == "0x" + TRANSFER_SELECTOR
      && data[10..34] == Repeat('0', 24) && AllHex(data[34..74]) && AllHex(data[74..])
    then
      assert ("0x" + data[34..74])[2..] == data[34..74];
      Some(("0x" + data[34..74], ValueOf(data[74..], 16)))
    else None
  }

  /** Where the selector and the two words sit in the calldata. */
  lemma Assembled(aw: string, mw: string)
    requires |aw| == WORD_HEX_CHARS && |mw| == WORD_HEX_CHARS
    ensures var e := "0x" + TRANSFER_SELECTOR + aw + mw;
      |e| == TRANSFER_DATA_LENGTH && e[..10] == "0x" + TRANSFER_SELECTOR
      && e[10..74] == aw && e[74..] == mw && e[10..34] == aw[..24] && e[34..74] == aw[24..]
  {
    var e := "0x" + TRANSFER_SELECTOR + aw + mw;
    assert e[10..74] == aw && e[74..] == mw;
    assert e[10..34] == e[10..74][..24];
    assert e[34..74] == e[10..74][24..];
  }

  /** Calldata of the right length is its selector prefix and its two words. */
  lemma Disassembled(data: string)
    requires |data| == TRANSFER_DATA_LENGTH && data[..10] == "0x" + TRANSFER_SELECTOR
    ensures data == "0x" + TRANSFER_SELECTOR + (data[10..34] + data[34..74]) + data[74..]
  {
    assert data == data[..10] + data[10..34] + data[34..74] + data[74..];
  }

  lemma AddressWord(to: string)
    requires IsAddressLike(to)
    ensures var w := Pad32(ToLower(Strip0x(to)));
      w == AddressWordOf(ToLower(to[2..])) && |w| == WORD_HEX_CHARS
      && w[..24] == Repeat('0', 24) && w[24..] == ToLower(to[2..]) && AllLowerHex(w)
  {
    var low := ToLower(Strip0x(to));
    assert Strip0x(to) == to[2..];
    forall i | 0 <= i < |low| ensures IsLowerHexDigit(low[i]) {
      DigitCharOfValue(to[2..][i]);
    }
    var w := Pad32(low);
    assert w == w[..24] + w[24..];
  }

  lemma AmountWord(amountUnits: nat)
    requires amountUnits < Uint256Bound()
    ensures var w := Pad32(NatToString(amountUnits, 16));
      |w| == WORD_HEX_CHARS && AllLowerHex(w) && AllHex(w) && ValueOf(w, 16) == amountUnits
  {
    var h := NatToString(amountUnits, 16);
    NatToStringLength(amountUnits, 16, WORD_HEX_CHARS);
    NatToStringValue(amountUnits, 16);
    Pad32Value(h);
    var w := Pad32(h);
    forall i | 0 <= i < |w| ensures IsLowerHexDigit(w[i]) {
      if i >= |w| - |h| { assert w[i] == w[|w| - |h|..][i - (|w| - |h|)]; }
    }
  }

  /** The layout of the encoded call for a well-formed recipient and an amount that fits a word. */
  lemma EncodeLayout(to: string, amountUnits: nat)
    requires IsAddressLike(to) && amountUnits < Uint256Bound()
    ensures var e := EncodeErc20TransferData(to, amountUnits);
      |e| == TRANSFER_DATA_LENGTH
      && e[..10] == "0x" + TRANSFER_SELECTOR
      && e[10..34] == Repeat('0', 24)
      && e[34..74] == ToLower(to[2..])
      && AllLowerHex(e[34..74])
      && AllLowerHex(e[74..]) && ValueOf(e[74..], 16) == amountUnits
  {
    var aw, mw := Pad32(ToLower(Strip0x(to))), Pad32(NatToString(amountUnits, 16));
    assert |aw| == WORD_HEX_CHARS && aw[..24] == Repeat('0', 24) && aw[24..] == ToLower(to[2..])
      && AllLowerHex(aw[24..]) by {
      AddressWord(to);
      LowerHexSlice(aw, 24);
    }
    assert |mw| == WORD_HEX_CHARS && AllLowerHex(mw) && ValueOf(mw, 16) == amountUnits by {
      AmountWord(amountUnits);
    }
    Assembled(aw, mw);
  }

  lemma LowerHexSlice(s: string, k: nat)
    requires AllLowerHex(s) && k <= |s|
    ensures AllLowerHex(s[k..])
  {
    assert forall i :: 0 <= i < |s| - k ==> s[k..][i] == s[i + k];
  }

  lemma LowerIsHex(s: string)
    requires AllLowerHex(s)
    ensures AllHex(s)
  {
  }

  /** Decoding the encoded call gives back the recipient (lower-cased) and the amount. */
  lemma DecodeEncode(to: string, amountUnits: nat)
    requires IsAddressLike(to) && amountUnits < Uint256Bound()
    ensures DecodeErc20TransferData(EncodeErc20TransferData(to, amountUnits))
      == Some(("0x" + ToLower(to[2..]), amountUnits))
  {
    var e := EncodeErc20TransferData(to, amountUnits);
    EncodeLayout(to, amountUnits);
    LowerIsHex(e[34..74]);
    LowerIsHex(e[74..]);
  }

  /** Encoding is canonical: lower-case calldata that decodes is exactly the encoding of what it decodes to. */
  lemma EncodeDecode(data: string)
    requires DecodeErc20TransferData(data).Some? && AllLowerHex(data[34..74]) && AllLowerHex(data[74..])
    ensures var (to, amountUnits) := DecodeErc20TransferData(data).value;
      amountUnits < Uint256Bound() && EncodeErc20TransferData(to, amountUnits) == data
  {
    var (to, amountUnits) := DecodeErc20TransferData(data).value;
    var mw := data[74..];
    assert amountUnits < Uint256Bound() by {
      ValueBound(mw, 16);
    }
    var aw', mw' := Pad32(ToLower(Strip0x(to))), Pad32(NatToString(amountUnits, 16));
    assert mw' == mw by {
      AmountWord(amountUnits);
      LowerHexUnique(mw', mw, 16);
    }
    assert aw' == data[10..34] + data[34..74] by {
      AddressWord(to);
      assert to[2..] == data[34..74];
      ToLowerOfLowerHex(data[34..74]);
    }
    Disassembled(data);
  }

  /** An amount of 2^256 or more does not fit its word: the calldata comes out longer than 138 characters. */
  lemma EncodeOversized(to: string, amountUnits: nat)
    requires IsAddressLike(to) && amountUnits >= Uint256Bound()
    ensures |EncodeErc20TransferData(to, amountUnits)| > TRANSFER_DATA_LENGTH
  {
    AddressWord(to);
    NatToStringLongAbove(amountUnits, 16, WORD_HEX_CHARS);
  }
}
