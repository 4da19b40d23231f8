# Yield tip jar: a Dafny model of the USDC tipping pipeline

Yield is a Farcaster / Base Mini App. Its only real logic lives in `public/app.js`, and that logic is the tip jar. A user picks a preset amount in dollars or types one. When the configured builder code and recipient are real, the app sends the amount in USDC on Base mainnet through the EIP-5792 `wallet_sendCalls` method. Before that it:

- checks the chain (`eth_chainId`, then `wallet_switchEthereumChain` to `0x2105` if needed);
- asks for the account (`eth_requestAccounts`);
- validates the recipient;
- parses the amount exactly into base units (6 decimals);
- encodes an ERC-20 `transfer(address,uint256)` call.

A call-to-action button (CTA) reports progress. Its text and a busy flag are kept in `state.tip`.

This project models that pipeline and proves what it does.

| file | module | models |
|---|---|---|
| `results.dfy` | `Results` | `Option` and `Result` |
| `js_text.dfy` | `JsText` | the JavaScript string and number primitives used: `trim`, `padStart`/`padEnd`, ASCII `toLowerCase`, `includes`, digit values, `toString(radix)` |
| `hex_util.dfy` | `HexUtil` | `isHexString`, `strip0x`, `pad32`, `toHexUint` |
| `address_validator.dfy` | `AddressValidator` | `isAddressLike`, `validateRecipientOrThrow` |
| `amount_codec.dfy` | `AmountCodec` | `parseUsdToUsdcUnits`, with a formatting inverse |
| `transfer_call.dfy` | `TransferCall` | `encodeErc20TransferData`, with a reference decoder |
| `pool_color.dfy` | `PoolColor` | `mixColor` |
| `tipping.dfy` | `Tipping` | `canSendTips`, `getProvider`, the wallet, and `sendTip` as functions; class `TipState` holds the `state.tip` fields and the handlers that update them |
| `tip_properties.dfy` | `TipProperties` | what one `sendTip` run does: its requests, their order, its CTA writes, its payload, its outcome |

How the model is set up:

- **The wallet is a script.** A wallet is a `seq<Response>`, and each provider request consumes the next response, either `Answer(value)` or `Raise(error)`. When the script runs out, the pending `await` never settles and the run ends `Pending`.
- **One timeline.** Every request sent to the provider and every `setCta` call is appended, in order, to one `history: seq<Event>`. That makes "no CTA write before `eth_requestAccounts`" a statement about a single sequence.
- **Functions first, methods beside them.** `SendTipRun` is the function form of `sendTip`; it returns the outcome and the timeline. The methods of `TipState` (`SendTip`, `ClickCta`, …) update `cta`, `busy` and `history` step by step. Each is proved to produce exactly the outcome, timeline and final CTA of that function. The properties are then lemmas about the function.
- **The order is the code's order.** `sendTip` validates the recipient and parses the amount (public/app.js:275-276) only after the provider, network and account requests. It does this before any `setCta`. So an invalid amount leaves the CTA untouched even though wallet requests were already made. Validation does not come first: the recipient and amount checks run only after `eth_chainId`, the switch when one is needed, and `eth_requestAccounts`.
- **The busy guard.** `sendTip` does not guard against re-entry. The only guard is that the button is disabled while `busy` (public/app.js:200), and `busy` first becomes true at public/app.js:301. That guard can be undone while a run is suspended. The preset handler (public/app.js:588-594) and the custom-amount handler (public/app.js:597-602) call `setCta("Send USDC", false)` without looking at `busy`. A click on a preset or a keystroke during the `sleep(1200)` at public/app.js:302, or while `wallet_sendCalls` is pending at public/app.js:307, clears `busy`, and the render enables the button again. A second `sendTip` can then start, and the first run later overwrites the CTA at public/app.js:304, 309 and 311. `ClickCta` models the guard; `SelectPreset` and `EditCustom` model the handlers that reset it.
- **The zero-address quirk.** `canSendTips` accepts a zero-address recipient, because it is address-like. Every send is then refused later, at validation. `ZeroRecipientNeverSends` proves that such runs write no CTA and never call `wallet_sendCalls`.

## Model

| member | source | states |
|---|---|---|
| JsText.TrimStart | public/app.js:51 | what is dropped at the front is white space only; the rest is kept as a suffix and does not start with white space |
| JsText.TrimEnd | public/app.js:51 | what is dropped at the back is white space only; the rest is kept as a prefix and does not end with white space |
| JsText.Trim | public/app.js:51 | `TrimStart`, then `TrimEnd`: only white space goes, from either end, and the result neither starts nor ends with white space |
| JsText.TrimIdempotent | public/app.js:51 | trimming twice is trimming once |
| JsText.PadStart | public/app.js:31-33 | length is the larger of width and the input's length; the input is the suffix; only fill characters come before it |
| JsText.PadEnd | public/app.js:56 | length is the larger of width and the input's length; the input is the prefix; only fill characters come after it |
| JsText.NatToString | public/app.js:72 | `toString(radix)` prints a non-empty string of lower-case digits |
| JsText.NatToStringValue | public/app.js:65 | the printed digits are below the radix, denote n, and have no leading zero |
| JsText.NatToStringLength | public/app.js:72 | a number below base^k prints in at most k digits |
| JsText.NatToStringLongAbove | public/app.js:72 | a number of at least base^k prints in more than k digits |
| JsText.ValueOfLower | public/app.js:71 | `toLowerCase` on hex digits keeps the number they denote |
| JsText.ToLowerOfLowerHex | public/app.js:71 | `toLowerCase` leaves lower-case hex digits unchanged |
| JsText.LowerHexUnique | public/app.js:72 | two lower-case digit strings of one length and one value are equal |
| JsText.ValueZeroIffAllZeros | public/app.js:45 | a digit string denotes 0 exactly when every digit is '0' |
| JsText.NotIncludedWithoutFirstChar | public/app.js:219-220 | a pattern cannot occur in a text that lacks the pattern's first character |
| JsText.IncludesTail | public/app.js:317 | a text containing q + p contains p |
| JsText.IndexOf | public/app.js:153 | the first position of the character, or the length when it does not occur |
| HexUtil.IsHexString | public/app.js:23-25 | "0x" followed by hex digits only; `AddressValidator.AddressLikeIsHexString` ties it to `isAddressLike` |
| HexUtil.Strip0x | public/app.js:27-29 | "0x" is removed exactly when it is a prefix, and nothing else changes |
| HexUtil.Pad32 | public/app.js:31-33 | up to 64 characters in gives exactly 64 out; a longer input is unchanged; the input is the suffix and only '0's come before it |
| HexUtil.Pad32Value | public/app.js:31-33 | padding to a word keeps the hex value |
| HexUtil.ToHexUint | public/app.js:62-66 | Err exactly for a negative value; otherwise "0x" plus minimal lower-case hex digits that denote the value |
| AddressValidator.IsAddressLike | public/app.js:35-37 | "0x" and exactly 40 hex digits; `AddressLikeIsHexString` characterizes it |
| AddressValidator.ValidateRecipientOrThrow | public/app.js:43-47 | on success the address is returned unchanged |
| AddressValidator.ValidateRecipientCases | public/app.js:35-47 | Ok exactly for an address-like string of non-zero value; MalformedAddress exactly when it is not address-like; ZeroAddress exactly for an address-like string of value 0 |
| AddressValidator.AddressLikeIsHexString | public/app.js:23-37 | address-like means a hex string of exactly 42 characters |
| AddressValidator.ZeroAddressIsValueZero | public/app.js:45 | among address-like strings, the zero literal is exactly the one of value 0, whatever the case of its letters |
| AmountCodec.MatchesAmountPatternIsPlainDecimal | public/app.js:53 | the single dot scan accepts exactly the texts /^\d+(\.\d+)?$/ matches |
| AmountCodec.ParseUsdToUsdcUnits | public/app.js:49-60 | every amount returned is at least 1 base unit |
| AmountCodec.ParseRejectsEmptyAndNonNumeric | public/app.js:51-53 | EmptyAmount exactly when the trimmed text is empty; NotANumber exactly when it is non-empty and not a plain decimal |
| AmountCodec.ParseOfTrimmed | public/app.js:51 | only the trimmed text matters |
| AmountCodec.ParseTooManyDecimals | public/app.js:54-55 | more than six fraction digits gives TooManyDecimals |
| AmountCodec.ParseDecimal | public/app.js:54-59 | "w.f" with at most six fraction digits gives w * 10^6 plus f right-padded to six digits, or NotPositive when that is 0 |
| AmountCodec.WholeAndFractionValue | public/app.js:56-57 | the units are whole * 10^6 + frac * 10^(6 - \|frac\|), with no rounding |
| AmountCodec.ParseWhole | public/app.js:54-59 | a whole number of dollars gives whole * 10^6, or NotPositive for zero |
| AmountCodec.FormatThenParse | public/app.js:49-60 | formatting units with six decimal places and parsing the result gives back the same units |
| AmountCodec.ParseThreeAndAHalf | public/app.js:49-60 | "3.5" gives 3500000 |
| AmountCodec.ParseOneUnit | public/app.js:49-60 | "0.000001" gives 1 |
| AmountCodec.ParseTen | public/app.js:49-60 | "10" gives 10000000 |
| AmountCodec.ParseZero | public/app.js:58 | "0" is NotPositive |
| AmountCodec.ParseZeroDecimals | public/app.js:58 | "0.000000" is NotPositive |
| AmountCodec.ParseLetters | public/app.js:53 | "abc" is NotANumber |
| AmountCodec.ParseNoWholePart | public/app.js:53 | ".5" is NotANumber |
| AmountCodec.ParseNoFraction | public/app.js:53 | "1." is NotANumber |
| AmountCodec.ParseNegative | public/app.js:53 | "-1" is NotANumber |
| AmountCodec.ParseBlank | public/app.js:51-52 | every text of white space only, the empty text included, is EmptyAmount |
| AmountCodec.ParseSevenDecimals | public/app.js:55 | "1.1234567" is TooManyDecimals |
| TransferCall.AddressWord | public/app.js:71 | the recipient word is 24 '0's followed by the 40 lower-cased address digits |
| TransferCall.AmountWord | public/app.js:72 | an amount below 2^256 becomes 64 lower-case hex digits that denote it |
| TransferCall.EncodeErc20TransferData | public/app.js:68-74 | the calldata starts with "0x" and the selector `a9059cbb` and has at least 138 characters; `EncodeLayout` and `EncodeOversized` give its exact length |
| TransferCall.EncodeLayout | public/app.js:68-74 | for a valid address and an amount below 2^256, the calldata is 138 characters: "0x", then `a9059cbb`, then the address word, then an amount word that reads back as the amount |
| TransferCall.DecodeErc20TransferData | public/app.js:68-74 | the reference decoder accepts only 138-character calldata, and the recipient it returns is address-like |
| TransferCall.DecodeEncode | public/app.js:68-74 | decoding the encoding gives back the lower-cased recipient and the amount |
| TransferCall.EncodeDecode | public/app.js:68-74 | lower-case calldata that decodes is exactly the encoding of what it decodes to |
| TransferCall.EncodeOversized | public/app.js:71-73 | an amount of 2^256 or more overflows its word, so the calldata is longer than 138 characters |
| PoolColor.RemoveFirst | public/app.js:153 | `replace("#", "")` shortens the text by one exactly when there is a '#', and leaves a text without one unchanged |
| PoolColor.RemoveFirstDropsFirst | public/app.js:153 | the '#' removed is the first one, and the text before and after it is kept |
| PoolColor.DigitsOfHexColor | public/app.js:153 | the digits of "#rrggbb" are "rrggbb" |
| PoolColor.ChannelIsParseInt | public/app.js:156-159 | each channel is `parseInt` of its two-digit slice |
| PoolColor.RoundedMean | public/app.js:157-159 | `Math.round((x + y) / 2)`: twice the result is x + y, or x + y + 1 |
| PoolColor.Hex2IsPaddedToString | public/app.js:160 | `n.toString(16).padStart(2, "0")`, and it denotes n |
| PoolColor.MixColor | public/app.js:151-162 | the mix is "#" and six lower-case hex digits |
| PoolColor.MixChannel | public/app.js:151-162 | each channel of the mix is the rounded mean of the two input channels |
| PoolColor.MixColorAverages | public/app.js:157-159 | each channel of the mix lies between the two input channels |
| PoolColor.MixColorCommutes | public/app.js:151-162 | mixing is symmetric |
| PoolColor.MixColorSelf | public/app.js:151-162 | a colour mixed with itself is the colour, lower-cased |
| Tipping.CanSendTips | public/app.js:217-223 | the three checks of `canSendTips` in order; `TipProperties.CanSendTipsIff` characterizes it |
| Tipping.FirstAccount | public/app.js:272 | a non-empty array gives its first element and a non-empty string its first character; a truthy account comes only from those; any other value gives `undefined` |
| Tipping.MatchesRejected | public/app.js:317 | the regular expression `/user rejected\|rejected/i`; `TipProperties.RejectionIff` characterizes it |
| Tipping.IsUserRejection | public/app.js:316-317 | code 4001 or a matching message; `TipProperties.RejectionIff` characterizes it |
| Tipping.ChooseProvider | public/app.js:236-246 | the host provider exactly when the host hands one out, otherwise window.ethereum; NoProvider exactly when there is neither |
| Tipping.BuildPayload | public/app.js:283-298 | the `wallet_sendCalls` payload; `TipProperties.PayloadShape` states its fields and that its calldata decodes back to the recipient and units |
| Tipping.NetworkStage | public/app.js:248-260 | `ensureBaseMainnet` as a function; `TipProperties.NetworkTimeline`, `NetworkCounts` and `EnsureBaseMainnetCases` characterize it |
| Tipping.Prepare | public/app.js:268-298 | `sendTip` up to the payload; `TipProperties.PrepareRequests`, `PrepareCounts`, `PrepareChecks` and `PrepareNoAccount` characterize it |
| Tipping.Submit | public/app.js:300-324 | `sendTip` from the first CTA write on; `TipProperties.SubmitTimeline` and `SubmitOutcome` characterize it |
| Tipping.SendTipRun | public/app.js:262-325 | the whole of `sendTip`; `TipProperties.RequestOrder`, `CtaWritesByOutcome`, `FinalCta`, `NoAccountRefused` and `PayloadShape` characterize it |
| Tipping.AmountText | public/app.js:610 | the amount the click sends; `TipProperties.AmountTextParse` characterizes it |
| Tipping.PreparedRequestsOnly | public/app.js:262-298 | up to the payload, `sendTip` sends requests only and writes no CTA |
| Tipping.TipState.constructor | public/app.js:124-129 | preset 5, custom "", CTA "Send USDC", not busy, empty timeline |
| Tipping.TipState.SetCta | public/app.js:225-229 | sets the text and the busy flag, and logs the write |
| Tipping.TipState.Ask | public/app.js:249 | logs the request; the reply is the next scripted response, or none |
| Tipping.TipState.EnsureBaseMainnet | public/app.js:248-260 | the timeline and result of the network stage `NetworkStage` |
| Tipping.TipState.PrepareSend | public/app.js:267-298 | the timeline and the stop reason or payload of `Prepare` |
| Tipping.TipState.SubmitCalls | public/app.js:300-324 | outcome, timeline and final CTA of `Submit` |
| Tipping.TipState.FinishSend | public/app.js:300-324 | nothing after a stopped run; otherwise the submission |
| Tipping.TipState.SendTipWith | public/app.js:268-324 | outcome, timeline and final CTA of `sendTip` on the chosen provider |
| Tipping.TipState.SendTip | public/app.js:262-325 | outcome, timeline and final CTA of `SendTipRun` |
| Tipping.TipState.SelectPreset | public/app.js:588-594 | sets the preset, clears the custom text, resets the CTA to "Send USDC" and not busy |
| Tipping.TipState.EditCustom | public/app.js:597-602 | keeps the text as typed, leaves the preset alone, resets the CTA |
| Tipping.TipState.ClickCta | public/app.js:604-615 | nothing happens while busy or while sending is disabled; otherwise `sendTip` runs with the amount chosen at line 610 |
| TipProperties.CtaAfterLastWrite | public/app.js:225-229 | the CTA after a timeline is its last write, or the starting CTA when there is none |
| TipProperties.NetworkTimeline | public/app.js:248-260 | `eth_chainId`, then the switch to 0x2105 only when the answer was another chain; requests only, all to one provider |
| TipProperties.NetworkCounts | public/app.js:248-260 | one response per request; `Pending` exactly when a response is missing |
| TipProperties.EnsureBaseMainnetCases | public/app.js:248-260 | continues exactly on a Base answer or an answered switch; WrongNetwork exactly when the switch was refused; a failed `eth_chainId` is passed on as it is |
| TipProperties.PrepareRequests | public/app.js:268-273 | the network requests, then `eth_requestAccounts` exactly when the network stage passed |
| TipProperties.PrepareCounts | public/app.js:268-276 | at most one request beyond the responses; a payload only after an answered `eth_requestAccounts` |
| TipProperties.FromAccountsEnds | public/app.js:271-276 | `Pending` exactly for an unanswered `eth_requestAccounts`; an answer without a truthy first account is `NoAccount`, and nothing else is unless the checks said so; a recipient or amount failure is the check's own error |
| TipProperties.PrepareNoAccount | public/app.js:268-273 | preparation stops with `NoAccount` exactly when `eth_requestAccounts` is answered without a truthy first account, having made the network requests and `eth_requestAccounts` only |
| TipProperties.PrepareChecks | public/app.js:270-298 | a payload only for a truthy first account and passing checks, built from them; a failed check comes after a truthy account |
| TipProperties.SubmitTimeline | public/app.js:300-324 | "Preparing tip…" and "Confirm in wallet" (both busy), one `wallet_sendCalls`, then the writes of the outcome |
| TipProperties.SubmitOutcome | public/app.js:305-323 | the `wallet_sendCalls` response decides the outcome; `Pending` exactly without one |
| TipProperties.SentRequests | public/app.js:268-305 | requests are network, then accounts, then the calls when a payload was built; CTA writes only when it was |
| TipProperties.SentAllTo | public/app.js:268-305 | every request goes to the chosen provider |
| TipProperties.SentOpening | public/app.js:270-301 | only requests up to `eth_requestAccounts`; the first CTA write, "Preparing tip…", follows it directly |
| TipProperties.SentCounts | public/app.js:268-324 | one response per request; `Pending` exactly when one is missing; a run that reached the calls ends as their response says |
| TipProperties.CheckInputsCases | public/app.js:275-276 | a recipient error first, then an amount error; on success, the recipient and the parsed units |
| TipProperties.SendTipGated | public/app.js:262-268 | gated off: `Skipped` with an empty timeline; no provider: `NoProvider` with an empty timeline; otherwise the run on the chosen provider |
| TipProperties.ProtocolPrefixMethods | public/app.js:248-305 | every prefix a run can stop at follows the protocol order, and switches only to 0x2105 |
| TipProperties.SentProtocol | public/app.js:248-305 | a run's requests are a prefix of the protocol that stops where the run stopped |
| TipProperties.RequestOrder | public/app.js:262-305 | no request exactly when gated off or there is no provider; otherwise the method names are a prefix of chainId, (switch), requestAccounts, sendCalls; the switch happens exactly when the chain was not Base, always to 0x2105; every request goes to the chosen provider |
| TipProperties.SentAnswersRequests | public/app.js:268-324 | one response per request, on one provider |
| TipProperties.OneResponsePerRequest | public/app.js:262-324 | `sendTip` makes at most one request beyond its responses, is `Pending` exactly when it does, and ends as the `wallet_sendCalls` response says |
| TipProperties.SentWrites | public/app.js:300-324 | the CTA writes fit the outcome, on one provider |
| TipProperties.CtaWritesByOutcome | public/app.js:262-324 | delivered: Preparing, Confirm, Sending, "Send again"; rejected: Preparing, Confirm, "Send USDC"; a wallet failure either writes nothing or writes those three; any other failure and any gated run write nothing |
| TipProperties.FinalCta | public/app.js:300-324 | "Send again" after a delivery, "Send USDC" after a rejection, unchanged without writes, never left busy once settled |
| TipProperties.SentChecksAfterAccounts | public/app.js:270-301 | validation comes after the accounts, on one provider |
| TipProperties.NoAccountRefused | public/app.js:262-273 | a send fails with `NoAccount` exactly when it passed the gate, found a provider and got an answer to `eth_requestAccounts` without a truthy first account; it then made the network requests and `eth_requestAccounts`, all to that provider, and wrote no CTA |
| TipProperties.ChecksComeLast | public/app.js:268-301 | a run stopped by the recipient or amount check got a truthy first account and wrote no CTA; a run that writes the CTA passed both checks, and its first write follows `eth_requestAccounts` |
| TipProperties.SentPayload | public/app.js:283-298 | the submitted payload is built from the checked inputs, on one provider |
| TipProperties.PayloadShape | public/app.js:275-298 | a submitted payload means a valid recipient and a parsed amount, version 2.0.0, chain 0x2105, atomic, truthy `from`, the attribution suffix, and one call to USDC of value 0x0 whose calldata decodes back to the recipient and units |
| TipProperties.AddressHasNoTodo | public/app.js:220-221 | an address-like string never contains "TODO" |
| TipProperties.CanSendTipsIff | public/app.js:217-223 | sending is enabled exactly for a non-empty builder code without "TODO" and an address-like recipient |
| TipProperties.ZeroRecipientNeverSends | public/app.js:217-276 | with the zero address, sending is enabled but every run is refused at validation: no CTA write, no `wallet_sendCalls`, neither delivered nor cancelled |
| TipProperties.RejectionIff | public/app.js:316-317 | a rejection is code 4001, or "rejected" anywhere in the message in any case |
| TipProperties.AmountTextParse | public/app.js:610 | the click sends the custom text when it is not blank (surrounding spaces make no difference), otherwise the preset in whole dollars |
| TipProperties.BuilderCodeHasNoTodo | public/app.js:13 | the shipped builder code contains no "TODO" |
| TipProperties.RecipientHasNoTodo | public/app.js:14 | the shipped recipient contains no "TODO" |
| TipProperties.RecipientIsAddressLike | public/app.js:14 | the shipped recipient is address-like |
| TipProperties.DefaultConfigEnabled | public/app.js:217-223 | with the shipped constants, sending is enabled |

## Left out

- DOM and presentation are not modelled: `$`, `toast`, `render`, `mount`, the SVG markup, the sheet open/close handlers, the clipboard handler and the host status. The model keeps only the state they show and the three handlers that change `state.tip`.
- The host SDK is not modelled: `initMiniApp`, `updateHostStatus` and `sdk.wallet.getEthereumProvider`. `getProvider` becomes a choice between two booleans: "the host hands out a provider" and "window.ethereum is set". An exception from the SDK counts as "no host provider".
- `Attribution.toDataSuffix` belongs to the ERC-8021 library. Its suffix is an opaque string in `Env`.
- `sleep` and its delays are left out. Delays do not change state.
- Four display functions use floating point and `Intl.NumberFormat`, so they are left out: `computePool`, `fmtMoney`, `fmtPct` and `radiationLabel`. The meter width is left out for the same reason.
- The randomize handler is left out, because it uses `Math.random`.
- Promises are not modelled. An `await` on the wallet takes the next scripted response; a response that never comes ends the run `Pending`.
- Interleaving is not modelled. A second `sendTip` can start while an earlier one is suspended, in two ways: a click before public/app.js:301, while `busy` is still false; or a click after `SelectPreset` or `EditCustom` has cleared `busy` during the `sleep` at public/app.js:302 or the pending `wallet_sendCalls` at public/app.js:307. The first run would then overwrite the CTA at public/app.js:304, 309 and 311. Each modelled click runs to completion, so the model cannot show two runs interleaving.
- `Tipping.TipState.SendTip`: a wallet error that `sendTip` rethrows is returned as the outcome `Failed(WalletFailure(e))`. The click handler's catch and its error toast are not modelled.
- `Tipping.IsUserRejection`: it tests `e.message` only. When the message is falsy, the source tests `String(e)` instead, and that string is not modelled.
- `Tipping.FirstAccount`: JavaScript values are modelled without fractional numbers and with opaque objects. `accounts?.[0]` on an object that has a "0" property is taken to be `undefined`.
- `typeof` checks are not modelled. The inputs are typed: `isHexString` and `isAddressLike` take strings; the amount is a string, so `String(usdString ?? "")` is the identity; `toHexUint` takes integers, so its "expects bigint" error cannot occur.
- `JsText.ToLower`: only ASCII letters are lower-cased. This is exact wherever app.js lower-cases, because those inputs are hex digits or are searched for the ASCII word "rejected" (non-Unicode `/i` never maps a non-ASCII letter to an ASCII one). It is not JavaScript's full `toLowerCase`.
- `PoolColor.MixColor`: it requires two "#rrggbb" colours. Every caller passes a `TOKENS` colour (public/app.js:110-115). Other inputs, where the source yields `NaN` digits, are outside the model.
- `AmountCodec.FormatUsdcUnits` and `TransferCall.DecodeErc20TransferData` are not in app.js. They are reference inverses that the round-trip properties are stated against.
- The preset is a natural number of dollars. `Number(btn.getAttribute("data-preset"))` on a non-integer attribute is not modelled.
