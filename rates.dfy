/**
 * The record every exchange's best-of-book entry is normalised into
 * (the `P2PRate` interface of the web client), and the pieces of the
 * mapping that all five exchanges share.
 */
module Rates {
  import opened JsValues

  /** One exchange's best buy/sell quote. The prices and the available
      amount are the JSON values the handler hands to `parseFloat`. */
  datatype P2PRate = P2PRate(
    exchange: string,
    buyPrice: Value,
    sellPrice: Value,
    available: Value,
    limit: string,
    paymentMethod: string,
    tradeUrl: string)

  /** The parsed bodies of an exchange's buy and sell requests, or Failed
      when a request or its JSON parsing threw (the handler's catch-all). */
  datatype Reply<B> = Failed | Replied(buy: B, sell: B)

  /** The `!list?.length` guard fails: `list?.length` is neither undefined
      (a missing list) nor 0 (an empty list). */
  function HasEntries<E>(list: Option<seq<E>>): (b: bool)
    ensures b <==> list != None && list != Some([])
  {
    list.Some? && |list.value| > 0
  }

  /** `${min} - ${max} ${fiat}`: the lower bound, " - ", the upper bound,
      a space and the fiat code, in that order and nothing else. The
      slice-wise ensures clauses are the reference definition of the
      template; the body is the same template written as a concatenation. */
  function Limit(min: Value, max: Value, fiat: string): (r: string)
    ensures |r| == |Render(min)| + 3 + |Render(max)| + 1 + |fiat|
    ensures r[..|Render(min)|] == Render(min)
    ensures r[|Render(min)|..|Render(min)| + 3] == " - "
    ensures r[|Render(min)| + 3..|r| - |fiat| - 1] == Render(max)
    ensures r[|r| - |fiat| - 1..] == " " + fiat
  {
    Render(min) + " - " + Render(max) + " " + fiat
  }

  /** `names?.join(', ') || 'Multiple'`. */
  function PaymentLabel(names: Option<seq<string>>): (r: string)
    ensures r != ""
    ensures r == "Multiple" <== names.None? || |names.value| == 0 || (|names.value| == 1 && names.value[0] == "")
    ensures names.Some? && |names.value| == 1 && names.value[0] != "" ==> r == names.value[0]
    ensures names.Some? && |names.value| > 1 ==> r == Join(names.value, ", ")
  {
    if names.None? then "Multiple"
    else
      var joined := Join(names.value, ", ");
      JoinEmptyIff(names.value, ", ");
      if joined == "" then "Multiple" else joined
  }
}
