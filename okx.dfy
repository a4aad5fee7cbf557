/** `fetchOKXP2P`: the first entry of each side's `data` list becomes the rate. */
module Okx {
  import opened JsValues
  import opened AsciiCase
  import opened Seqs
  import opened Rates

  datatype Entry = Entry(
    price: Value,
    availableAmount: Value,
    minAmount: Value,
    maxAmount: Value,
    paymentMethods: Option<seq<Value>>)

  /** The parsed body of one order-book request. */
  datatype Book = Book(data: Option<seq<Entry>>)

  /** The trade page; both codes are lower-cased, so it holds no upper-case letter. */
  function TradeUrl(crypto: string, fiat: string): (r: string)
    ensures NoUpper(r)
  {
    "https://www.okx.com/p2p-markets/" + Lower(crypto) + "-" + Lower(fiat) + "/buy"
  }

  /** The URL does not depend on the case of the codes. */
  lemma TradeUrlIgnoresCase(crypto: string, fiat: string)
    ensures TradeUrl(Upper(crypto), Upper(fiat)) == TradeUrl(crypto, fiat)
  {
  }

  /** Codes of the same lengths give the same URL exactly when they agree
      once lower-cased: letter case is the only difference the URL forgets. */
  lemma TradeUrlSameIff(c1: string, f1: string, c2: string, f2: string)
    requires |c1| == |c2| && |f1| == |f2|
    ensures TradeUrl(c1, f1) == TradeUrl(c2, f2) <==> Lower(c1) == Lower(c2) && Lower(f1) == Lower(f2)
  {
    if Lower(c1) != Lower(c2) || Lower(f1) != Lower(f2) {
      TwoSlotsDistinct("https://www.okx.com/p2p-markets/", Lower(c1), "-", Lower(f1), "/buy", Lower(c2), Lower(f2));
    }
  }

  /** The rate built from the best buy and best sell entries. */
  function ToRate(fiat: string, crypto: string, bestBuy: Entry, bestSell: Entry): (r: P2PRate)
    ensures r.exchange == "OKX" && r.tradeUrl == TradeUrl(crypto, fiat)
    ensures r.buyPrice == bestBuy.price && r.sellPrice == bestSell.price
    ensures r.available == Fallback([bestBuy.availableAmount], Str("0"))
    ensures Truthy(r.available)
    ensures r.limit == Limit(bestBuy.minAmount, bestBuy.maxAmount, fiat)
    ensures r.paymentMethod == PaymentLabel(OptionTexts(bestBuy.paymentMethods))
    ensures r.paymentMethod != ""
  {
    FallbackTruthy([bestBuy.availableAmount], Str("0"));
    P2PRate(
      "OKX",
      bestBuy.price,
      bestSell.price,
      Fallback([bestBuy.availableAmount], Str("0")),
      Limit(bestBuy.minAmount, bestBuy.maxAmount, fiat),
      PaymentLabel(OptionTexts(bestBuy.paymentMethods)),
      TradeUrl(crypto, fiat))
  }

  /** `fetchOKXP2P(fiat, crypto)` on the two parsed replies: no rate exactly
      when a request failed or either list is missing or empty; otherwise
      the rate of the first entry of each list. */
  function FetchOkx(fiat: string, crypto: string, reply: Reply<Book>): (r: Option<P2PRate>)
    ensures r.Some? <==> reply.Replied? && HasEntries(reply.buy.data) && HasEntries(reply.sell.data)
    ensures r.Some? ==> r.value == ToRate(fiat, crypto, reply.buy.data.value[0], reply.sell.data.value[0])
  {
    match reply
    case Failed => None
    case Replied(buyData, sellData) =>
      if !HasEntries(buyData.data) || !HasEntries(sellData.data) then None
      else Some(ToRate(fiat, crypto, buyData.data.value[0], sellData.data.value[0]))
  }
}
