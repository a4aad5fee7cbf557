# P2P rate aggregation: a verified model

RateHunt shows peer-to-peer crypto exchange rates. Its edge function
`fetch-p2p-rates` queries the P2P order books of Binance, OKX, Bybit, Huobi
(HTX) and KuCoin. It turns each exchange's reply into one `P2PRate` record:
exchange, buy price, sell price, available amount, limit string, payment
method label and trade URL. Then it returns the non-null records in the
order the exchanges were requested.

This project models that normalisation and aggregation in Dafny. The
network is abstracted away. Each exchange's parsed JSON reply is a datatype
whose fields may be missing:

- a scalar field is a `Value`: `Absent` (undefined), `Null` or `Str(text)`;
- an optional object or list is an `Option`.

A `Reply` is either the two parsed bodies (buy side and sell side) or
`Failed`, which stands for a request or parse that threw and was caught.

Modules:

- `JsValues` (js_values.dfy): the JavaScript semantics the mapping relies on: truthiness, `a || b || ...`, template rendering, `Array.prototype.join`.
- `AsciiCase` (ascii_case.dfy): `toUpperCase`, `toLowerCase`, `replace(/ /g, '_')`.
- `Seqs` (seqs.dfy): subsequences and the distinctness of concatenations.
- `Rates` (rates.dfy): the `P2PRate` record of `src/pages/Index.tsx`, the limit string and the payment label.
- `Binance`, `Okx`, `Bybit`, `Huobi`, `KuCoin` (one file each): the five fetchers, without their network calls.
- `FetchP2PRates` (aggregate.dfy): dispatch on the exchange name and the loop that drops null results.

The handler is the method `CollectRates`, whose result loop is `DropNulls`. It is proved equal
to the specification `Present(Dispatch(...))`, and the lemmas beside it
state what that specification guarantees.

## Model

| member | source | states |
|---|---|---|
| JsValues.Fallback | supabase/functions/fetch-p2p-rates/index.ts:81 | `a \|\| b \|\| last` yields the first truthy value in order, or the last resort when none is truthy |
| JsValues.Truthy | supabase/functions/fetch-p2p-rates/index.ts:81 | among scalars, exactly `undefined`, `null` and `""` are falsy |
| JsValues.FallbackTruthy | supabase/functions/fetch-p2p-rates/index.ts:138 | with the `'0'` last resort, the available amount handed to `parseFloat` is always a non-empty string |
| JsValues.Render | supabase/functions/fetch-p2p-rates/index.ts:82 | a template literal writes a string as it is, `undefined` as `undefined` and `null` as `null` |
| JsValues.JoinText | supabase/functions/fetch-p2p-rates/index.ts:140 | `join` writes a string element as a template would, and a null or undefined element as `""` |
| JsValues.Texts | supabase/functions/fetch-p2p-rates/index.ts:140 | one join text per element, in order |
| JsValues.OptionTexts | supabase/functions/fetch-p2p-rates/index.ts:140 | `list?.join` sees a missing list as missing, and otherwise one text per element: the string itself, or `""` for null and undefined |
| JsValues.Join | supabase/functions/fetch-p2p-rates/index.ts:140 | a join of one part is that part; a join of two or more starts with the first part and the separator; a non-empty join ends with the last part |
| JsValues.JoinLength | supabase/functions/fetch-p2p-rates/index.ts:140 | a `join(', ')` is as long as its parts plus one separator between each two |
| JsValues.JoinEmptyIff | supabase/functions/fetch-p2p-rates/index.ts:140 | a join with a non-empty separator is empty exactly for no part or a single empty part |
| AsciiCase.Upper | supabase/functions/fetch-p2p-rates/index.ts:20 | upper-casing keeps the length, turns every lower-case letter into the letter 32 code points below it, leaves no lower-case letter and changes nothing else |
| AsciiCase.Lower | supabase/functions/fetch-p2p-rates/index.ts:132 | lower-casing keeps the length, turns every upper-case letter into the letter 32 code points above it, leaves no upper-case letter and changes nothing else |
| AsciiCase.SpacesToUnderscores | supabase/functions/fetch-p2p-rates/index.ts:20 | `replace(/ /g, '_')` keeps the length, turns every space into `_`, leaves no space and changes nothing else |
| AsciiCase.LowerIdempotent | supabase/functions/fetch-p2p-rates/index.ts:132 | lower-casing twice is lower-casing once |
| AsciiCase.LowerUpper | supabase/functions/fetch-p2p-rates/index.ts:132 | lower-casing an upper-cased string gives the same result as lower-casing the original |
| Rates.Limit | supabase/functions/fetch-p2p-rates/index.ts:82 | the limit is exactly min, `" - "`, max, a space and the fiat code; absent bounds render as `undefined` |
| Rates.PaymentLabel | supabase/functions/fetch-p2p-rates/index.ts:83 | the label is never empty. It is `Multiple` for a missing list, an empty list or a single empty name, the single name for one non-empty name, and the `", "`-join for two or more names |
| Rates.HasEntries | supabase/functions/fetch-p2p-rates/index.ts:123 | the `!list?.length` guard passes exactly when the list is neither missing nor empty |
| Binance.PayType | supabase/functions/fetch-p2p-rates/index.ts:20 | a normalised payment-method name has the input's length and no space or lower-case letter; each space becomes `_`, every other character is upper-cased |
| Binance.PayTypes | supabase/functions/fetch-p2p-rates/index.ts:20 | an absent list gives `[]`; otherwise one normalised name per input name, same length, same order |
| Binance.PayTypeIdempotent | supabase/functions/fetch-p2p-rates/index.ts:20 | normalising a normalised name changes nothing |
| Binance.PayTypeIgnoresCase | supabase/functions/fetch-p2p-rates/index.ts:20 | names that differ only in letter case normalise alike |
| Binance.Tradable | supabase/functions/fetch-p2p-rates/index.ts:65 | an ad with no `adv`, or a missing, null or empty quantity, is not tradable; a quantity of zeros and a point is not above zero; a whole number with a non-zero digit is |
| Binance.DecimalTradable | supabase/functions/fetch-p2p-rates/index.ts:65 | a quantity written as digits, a point and digits, with a non-zero digit somewhere (`12.50`, `0.5`), is above zero, so the ad is tradable |
| Binance.TradableAds | supabase/functions/fetch-p2p-rates/index.ts:65-66 | the tradable-only filter keeps only ads with a positive `tradableQuantity`, as a subsequence of the input (order kept) |
| Binance.TradableAdsCounts | supabase/functions/fetch-p2p-rates/index.ts:65-66 | the filter keeps each tradable ad as many times as it occurs in the input and each other ad zero times |
| Binance.TradableAdsMembers | supabase/functions/fetch-p2p-rates/index.ts:65-66 | an ad survives the filter exactly when it is in the input and tradable; ads lacking `adv` never survive |
| Binance.TradableAdsHead | supabase/functions/fetch-p2p-rates/index.ts:69-70 | the filtered list is empty exactly when no ad is tradable; otherwise its head is the first tradable ad |
| Binance.Candidates | supabase/functions/fetch-p2p-rates/index.ts:60-67 | without the filter the candidates are all the ads; with it they are the filtered list `TradableAds(ads)`, all tradable and no more than the ads |
| Binance.HeadAdv | supabase/functions/fetch-p2p-rates/index.ts:69-70 | `ads[0]?.adv` is defined exactly when the list is non-empty and its first ad has an `adv`, and is then that `adv` |
| Binance.TradeUrlKeepsCase | supabase/functions/fetch-p2p-rates/index.ts:75 | the trade URL (`TradeUrl`) embeds crypto and fiat unchanged: same-length codes differing in any character, case included, give different URLs |
| Binance.MethodName | supabase/functions/fetch-p2p-rates/index.ts:83 | `identifier \|\| tradeMethodName` is the identifier when it is truthy and the method name otherwise |
| Binance.MethodNames | supabase/functions/fetch-p2p-rates/index.ts:83 | a missing method list stays missing; otherwise one join text per method, of its `MethodName` |
| Binance.ToRate | supabase/functions/fetch-p2p-rates/index.ts:77-84 | the record is labelled `Binance`. It takes prices from the best buy and sell entries, limit bounds from the best buy entry, `available` from the `||` chain `surplusAmount \|\| tradableQuantity` ending in `'0'` (so it is truthy), and the payment label from the join texts of `identifier \|\| tradeMethodName` for each trade method (so it is never empty) |
| Binance.FetchBinance | supabase/functions/fetch-p2p-rates/index.ts:58-72 | a rate exists only if the request succeeded and both sides' `data` are present; it is labelled `Binance` with the Binance URL |
| Binance.Unfiltered | supabase/functions/fetch-p2p-rates/index.ts:60-72 | without the filter, a rate exists exactly when both lists are non-empty and both first ads carry `adv`. It is built from those first ads |
| Binance.OnlyTradable | supabase/functions/fetch-p2p-rates/index.ts:64-72 | with the filter, a rate exists exactly when both lists are present and each holds a tradable ad |
| Binance.OnlyTradableBest | supabase/functions/fetch-p2p-rates/index.ts:64-84 | with the filter, the rate is built from the first tradable ad of each side |
| Okx.TradeUrl | supabase/functions/fetch-p2p-rates/index.ts:132 | the OKX URL contains no upper-case letter (crypto and fiat are lower-cased) |
| Okx.TradeUrlIgnoresCase | supabase/functions/fetch-p2p-rates/index.ts:132 | upper-casing crypto and fiat does not change the OKX URL |
| Okx.TradeUrlSameIff | supabase/functions/fetch-p2p-rates/index.ts:132 | for codes of the same lengths, two URLs are equal exactly when the crypto codes agree lower-cased and the fiat codes agree lower-cased |
| Okx.ToRate | supabase/functions/fetch-p2p-rates/index.ts:134-141 | the record is labelled `OKX`. It takes prices from the best buy and sell entries, limit bounds from the best buy entry, `available` from the `||` chain `availableAmount` ending in `'0'` (so it is truthy), and the payment label from the join texts of `paymentMethods` (so it is never empty) |
| Okx.FetchOkx | supabase/functions/fetch-p2p-rates/index.ts:123-129 | no rate exactly when the request failed or either `data` list is missing or empty; otherwise the rate of element 0 of each list |
| Huobi.TradeUrl | supabase/functions/fetch-p2p-rates/index.ts:239 | the Huobi URL names only the crypto, lower-cased, and holds no upper-case letter |
| Huobi.TradeUrlIgnoresCase | supabase/functions/fetch-p2p-rates/index.ts:239 | upper-casing the crypto does not change the Huobi URL |
| Huobi.TradeUrlSameIff | supabase/functions/fetch-p2p-rates/index.ts:239 | two crypto codes give the same URL exactly when they agree lower-cased |
| Huobi.ToRate | supabase/functions/fetch-p2p-rates/index.ts:241-248 | the record is labelled `Huobi`. It takes prices from the best buy and sell entries, limit bounds from the best buy entry, `available` from the `||` chain `tradeCount \|\| stock` ending in `'0'` (so it is truthy), and the payment label from the join texts of `payMethod` (so it is never empty) |
| Huobi.FetchHuobi | supabase/functions/fetch-p2p-rates/index.ts:230-236 | no rate exactly when the request failed or either `data` list is missing or empty; otherwise the rate of element 0 of each list |
| KuCoin.TradeUrlKeepsCase | supabase/functions/fetch-p2p-rates/index.ts:290 | the trade URL (`TradeUrl`) embeds crypto and fiat unchanged: same-length codes differing in any character, case included, give different URLs |
| KuCoin.ToRate | supabase/functions/fetch-p2p-rates/index.ts:292-299 | the record is labelled `KuCoin`. It takes prices from the best buy and sell entries, limit bounds from the best buy entry, `available` from the `||` chain `availableAmount` ending in `'0'` (so it is truthy), and the payment label from the join texts of `payTypes` (so it is never empty) |
| KuCoin.FetchKuCoin | supabase/functions/fetch-p2p-rates/index.ts:281-287 | no rate exactly when the request failed or either `items` list is missing or empty; otherwise the rate of element 0 of each list |
| Bybit.TradeUrlKeepsCase | supabase/functions/fetch-p2p-rates/index.ts:188 | the trade URL (`TradeUrl`) embeds crypto and fiat unchanged: same-length codes differing in any character, case included, give different URLs |
| Bybit.PaymentNames | supabase/functions/fetch-p2p-rates/index.ts:196 | a missing payment list stays missing; otherwise one join text per payment, of its `name` |
| Bybit.Items | supabase/functions/fetch-p2p-rates/index.ts:180 | `result?.items` is missing when `result` is, and otherwise is `result.items` |
| Bybit.First | supabase/functions/fetch-p2p-rates/index.ts:182-183 | `items[0]` is defined exactly for a non-empty list, and is then its first item |
| Bybit.ToRate | supabase/functions/fetch-p2p-rates/index.ts:190-197 | the record is labelled `Bybit`. It takes prices from the best buy and sell entries, limit bounds from the best buy entry, `available` from the `||` chain `lastQuantity` ending in `'0'` (so it is truthy), and the payment label from the join texts of each payment's `name` (so it is never empty) |
| Bybit.FetchBybit | supabase/functions/fetch-p2p-rates/index.ts:180-185 | the missing-list check followed by the missing-first-item check rejects exactly a failed request or a missing or empty `result.items`; otherwise the rate of item 0 of each list |
| FetchP2PRates.FetchRate | supabase/functions/fetch-p2p-rates/index.ts:340-356 | each of the five names reaches its own exchange's fetch with the request's fiat, crypto (and, for Binance, filters) and that exchange's reply; a rate carries the name it was dispatched under; any other name gives null |
| FetchP2PRates.Dispatch | supabase/functions/fetch-p2p-rates/index.ts:336-358 | one result per requested name, in order, each labelled with the name at its position |
| FetchP2PRates.DispatchAt | supabase/functions/fetch-p2p-rates/index.ts:336-358 | element i of the dispatch is `FetchRate` of the name at position i |
| FetchP2PRates.Present | supabase/functions/fetch-p2p-rates/index.ts:370-374 | the non-null results in order; dropping nulls never lengthens the list |
| FetchP2PRates.PresentEmptyIff | supabase/functions/fetch-p2p-rates/index.ts:370-374 | nothing is kept exactly when every result is null |
| FetchP2PRates.DropNulls | supabase/functions/fetch-p2p-rates/index.ts:370-374 | the loop pushes exactly the non-null results, in order |
| FetchP2PRates.CollectRates | supabase/functions/fetch-p2p-rates/index.ts:336-374 | the handler answers exactly the non-null per-exchange results, in request order |
| FetchP2PRates.PresentAppend | supabase/functions/fetch-p2p-rates/index.ts:370-374 | dropping nulls from a concatenation drops them from each part |
| FetchP2PRates.PresentMembers | supabase/functions/fetch-p2p-rates/index.ts:370-374 | a value is kept exactly when it occurs as a non-null result |
| FetchP2PRates.PresentSkipsNull | supabase/functions/fetch-p2p-rates/index.ts:371 | a null result anywhere contributes nothing |
| FetchP2PRates.DispatchAppend | supabase/functions/fetch-p2p-rates/index.ts:336 | mapping over a concatenation of requested names maps each part |
| FetchP2PRates.PresentNamesFollow | supabase/functions/fetch-p2p-rates/index.ts:370-374 | when each result carries the name at its position, the kept results' names form a subsequence of the names |
| FetchP2PRates.RatesExactly | supabase/functions/fetch-p2p-rates/index.ts:336-374 | a rate is in the answer exactly when some requested exchange produced it |
| FetchP2PRates.RatesBounded | supabase/functions/fetch-p2p-rates/index.ts:336-374 | the answer is no longer than the list of requested exchanges, because its names are a subsequence of it |
| FetchP2PRates.RatesFollowRequest | supabase/functions/fetch-p2p-rates/index.ts:336-374 | the answer's exchange names are a subsequence of the requested names, in request order |
| FetchP2PRates.UnknownIgnored | supabase/functions/fetch-p2p-rates/index.ts:340-356 | inserting an unrecognised exchange name anywhere in the request leaves the answer unchanged |

## Left out

- Network I/O is not modelled: the `fetch` calls, the request bodies sent to each exchange, `response.json()`, the `serve` HTTP handler, CORS/OPTIONS handling, and the construction of the 200 and 500 responses. Replies enter the model as parsed datatypes.
- The request-only filters `noVerificationRequired` and `minAmount` are left out, because they only shape the Binance request body. `Binance.PayTypes` is modelled, but its result is likewise only sent in that body.
- `Promise.all` parallelism is modelled as a sequential map, because the per-exchange calls are independent.
- Each exchange has one `Reply` in `Network`. An exchange name repeated in the request therefore sees the same reply each time, while the source would fetch again.
- `parseFloat` is floating-point parsing and is left out. `buyPrice`, `sellPrice` and `available` hold the JSON value that would be parsed.
- JSON numbers are modelled by their text. For a numeric field that text is JavaScript's `String(n)` of the parsed number, so `100.50` in a reply is `Str("100.5")` and is rendered and joined that way. A numeric `0` is falsy in JavaScript, while its text `"0"` is truthy; the model does not distinguish the two.
- Binance.Tradable: `tradableQuantity > 0` is decided only for plain decimal numerals (digits with at most one point), and any non-zero digit counts as positive. JavaScript's number conversion would also accept surrounding whitespace, a sign, an exponent, hex and `Infinity`, and would round a numeral too small for a double, such as `0.` followed by 400 zeros and a `1`, to `0` and so not tradable, while the model counts it as tradable.
- Binance.TradableAds: inherits the numeral rules of `Binance.Tradable`.
- AsciiCase.Upper: only ASCII letters change case. JavaScript's full Unicode case mapping, which can change length (`ß` becomes `SS`), is not modelled.
- AsciiCase.Lower: only ASCII letters change case, as for `Upper`.
- Replies of an unexpected shape are not modelled: an array element that is not an object, a field of the wrong JSON type, or payment-list elements that are objects (which `join` would write as `[object Object]`). The model has one `Failed` reply, standing for a request or parse that threw into the catch-all that returns null.
- The request body is taken as well-typed: `fiat` and `crypto` are strings, `exchanges` is an array of strings and `filters.paymentMethods` holds strings. A non-string payment method would make `toUpperCase` throw and Binance give null; an undefined `crypto` would make `toLowerCase` throw for OKX and Huobi while the other exchanges write `undefined` into the URL; a non-array `exchanges` would make `map` throw into the 500 response. None of these is modelled.
- Logging (`console.log` and `console.error`) is left out.
- `src/App.tsx` (websocket ticker, timers, float arithmetic) is not part of this model, and neither is the React state of `src/pages/Index.tsx`; only its `P2PRate` record shape is used.
- `src/components/*.tsx` are not part of this model: they are rendering and UI event handlers.
