/**
 * Recipient address checks (isAddressLike, validateRecipientOrThrow).
 * There is no EIP-55 checksum test (public/app.js:39-42): a keccak hash is not
 * available, and a case-corrupted address is left for the wallet to refuse.
 */
module AddressValidator {
  import opened Results
  import opened JsText
  import opened HexUtil

  /** Hex digits in a 20-byte account identifier. */
  const ADDRESS_HEX_DIGITS: nat := 40

  const ZERO_ADDRESS: string := "0x" + Repeat('0', ADDRESS_HEX_DIGITS)

  /** /^0x[0-9a-fA-F]{40}$/ */
  predicate IsAddressLike(addr: string) {
    |addr| == 2 + ADDRESS_HEX_DIGITS && StartsWith(addr, "0x") && AllHex(addr[2..])
  }

  datatype AddressError = MalformedAddress | ZeroAddress

  /** Returns the address as given, or the error the source throws, malformed first. */
  function ValidateRecipientOrThrow(addr: string): (r: Result<string, AddressError>)
    ensures r.Ok? ==> r.value == addr
  {
    if !IsAddressLike(addr) then Err(MalformedAddress)
    else if addr == ZERO_ADDRESS then Err(ZeroAddress)
    else Ok(addr)
  }

  /** An address is a hex string of exactly 42 characters. */
  lemma AddressLikeIsHexString(addr: string)
    ensures IsAddressLike(addr) <==> IsHexString(addr) && |addr| == 42
  {
  }

  /** Among address-like strings, the zero literal is exactly the one worth 0. */
  lemma ZeroAddressIsValueZero(addr: string)
    requires IsAddressLike(addr)
    ensures addr == ZERO_ADDRESS <==> ValueOf(addr[2..], 16) == 0
  {
    ValueZeroIffAllZeros(addr[2..], 16);
    if ValueOf(addr[2..], 16) == 0 {
      assert addr[..2] == "0x";
      forall i | 0 <= i < |addr| ensures addr[i] == ZERO_ADDRESS[i] {
        if i >= 2 { assert addr[2..][i - 2] == '0'; }
      }
    }
  }

  /**
   * validateRecipientOrThrow accepts exactly the 40-hex-digit addresses of
   * non-zero value; otherwise malformed is reported before zero.
   */
  lemma ValidateRecipientCases(addr: string)
    ensures ValidateRecipientOrThrow(addr).Ok? <==> IsAddressLike(addr) && ValueOf(addr[2..], 16) != 0
    ensures ValidateRecipientOrThrow(addr) == Err(MalformedAddress) <==> !IsAddressLike(addr)
    ensures ValidateRecipientOrThrow(addr) == Err(ZeroAddress) <==> IsAddressLike(addr) && ValueOf(addr[2..], 16) == 0
  {
    if IsAddressLike(addr) {
      ZeroAddressIsValueZero(addr);
    }
  }
}
