/** `fetchKuCoinP2P`: the first entry of each side's `items` list becomes the rate. */
module KuCoin {
  import opened JsValues
  import opened Seqs
  import opened Rates

  datatype Entry = Entry(
    price: Value,
    availableAmount: Value,
    minAmount: Value,
    maxAmount: Value,
    payTypes: Option<seq<Value>>)

  /** The parsed body of one ad-list request. */
  datatype Book = Book(items: Option<seq<Entry>>)

  /** The trade page; crypto and fiat are embedded as given. */
  function TradeUrl(crypto: string, fiat: string): string {
    "https://www.kucoin.com/fiat/" + crypto + "/" + fiat
  }

  /** The URL keeps the case of its codes: codes of the same lengths that
      differ in any character, case included, give different URLs. */
  lemma TradeUrlKeepsCase(c1: string, f1: string, c2: string, f2: string)
    requires |c1| == |c2| && |f1| == |f2| && (c1 != c2 || f1 != f2)
    ensures TradeUrl(c1, f1) != TradeUrl(c2, f2)
  {
    TwoSlotsDistinct("https://www.kucoin.com/fiat/", c1, "/", f1, "", c2, f2);
    assert f1 + "" == f1 && f2 + "" == f2;
  }

  /** The rate built from the best buy and best sell entries. */
  function ToRate(fiat: string, crypto: string, bestBuy: Entry, bestSell: Entry): (r: P2PRate)
    ensures r.exchange == "KuCoin" && r.tradeUrl == TradeUrl(crypto, fiat)
    ensures r.buyPrice == bestBuy.price && r.sellPrice == bestSell.price
    ensures r.available == Fallback([bestBuy.availableAmount], Str("0"))
    ensures Truthy(r.available)
    ensures r.limit == Limit(bestBuy.minAmount, bestBuy.maxAmount, fiat)
    ensures r.paymentMethod == PaymentLabel(OptionTexts(bestBuy.payTypes))
    ensures r.paymentMethod != ""
  {
    FallbackTruthy([bestBuy.availableAmount], Str("0"));
    P2PRate(
      "KuCoin",
      bestBuy.price,
      bestSell.price,
      Fallback([bestBuy.availableAmount], Str("0")),
      Limit(bestBuy.minAmount, bestBuy.maxAmount, fiat),
      PaymentLabel(OptionTexts(bestBuy.payTypes)),
      TradeUrl(crypto, fiat))
  }

  /** `fetchKuCoinP2P(fiat, crypto)` on the two parsed replies: no rate
      exactly when a request failed or either list is missing or empty;
      otherwise the rate of the first entry of each list. */
  function FetchKuCoin(fiat: string, crypto: string, reply: Reply<Book>): (r: Option<P2PRate>)
    ensures r.Some? <==> reply.Replied? && HasEntries(reply.buy.items) && HasEntries(reply.sell.items)
    ensures r.Some? ==> r.value == ToRate(fiat, crypto, reply.buy.items.value[0], reply.sell.items.value[0])
  {
    match reply
    case Failed => None
    case Replied(buyData, sellData) =>
      if !HasEntries(buyData.items) || !HasEntries(sellData.items) then None
      else Some(ToRate(fiat, crypto, buyData.items.value[0], sellData.items.value[0]))
  }
}
