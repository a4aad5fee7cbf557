/** `fetchHuobiP2P`: the first entry of each side's `data` list becomes the rate. */
module Huobi {
  import opened JsValues
  import opened AsciiCase
  import opened Rates

  datatype Entry = Entry(
    price: Value,
    tradeCount: Value,
    stock: Value,
    minTradeLimit: Value,
    maxTradeLimit: Value,
    payMethod: Option<seq<Value>>)

  /** The parsed body of one market request. */
  datatype Book = Book(data: Option<seq<Entry>>)

  /** The trade page: it names the crypto only, lower-cased, so it holds no
      upper-case letter and does not depend on the fiat. */
  function TradeUrl(crypto: string): (r: string)
    ensures NoUpper(r)
  {
    var host, path := "https://www.htx.com/", "en-us/fiat-crypto/trade/buy-";
    assert NoUpper(host) && NoUpper(path);
    host + path + Lower(crypto)
  }

  /** The URL does not depend on the case of the crypto code. */
  lemma TradeUrlIgnoresCase(crypto: string)
    ensures TradeUrl(Upper(crypto)) == TradeUrl(crypto)
  {
  }

  /** Two crypto codes give the same URL exactly when they agree once
      lower-cased: letter case is the only difference the URL forgets. */
  lemma TradeUrlSameIff(c1: string, c2: string)
    ensures TradeUrl(c1) == TradeUrl(c2) <==> Lower(c1) == Lower(c2)
  {
    var prefix := "https://www.htx.com/" + "en-us/fiat-crypto/trade/buy-";
    assert TradeUrl(c1)[|prefix|..] == Lower(c1);
    assert TradeUrl(c2)[|prefix|..] == Lower(c2);
  }

  /** The rate built from the best buy and best sell entries. */
  function ToRate(fiat: string, crypto: string, bestBuy: Entry, bestSell: Entry): (r: P2PRate)
    ensures r.exchange == "Huobi" && r.tradeUrl == TradeUrl(crypto)
    ensures r.buyPrice == bestBuy.price && r.sellPrice == bestSell.price
    ensures r.available == Fallback([bestBuy.tradeCount, bestBuy.stock], Str("0"))
    ensures Truthy(r.available)
    ensures r.limit == Limit(bestBuy.minTradeLimit, bestBuy.maxTradeLimit, fiat)
    ensures r.paymentMethod == PaymentLabel(OptionTexts(bestBuy.payMethod))
    ensures r.paymentMethod != ""
  {
    FallbackTruthy([bestBuy.tradeCount, bestBuy.stock], Str("0"));
    P2PRate(
      "Huobi",
      bestBuy.price,
      bestSell.price,
      Fallback([bestBuy.tradeCount, bestBuy.stock], Str("0")),
      Limit(bestBuy.minTradeLimit, bestBuy.maxTradeLimit, fiat),
      PaymentLabel(OptionTexts(bestBuy.payMethod)),
      TradeUrl(crypto))
  }

  /** `fetchHuobiP2P(fiat, crypto)` on the two parsed replies: no rate
      exactly when a request failed or either list is missing or empty;
      otherwise the rate of the first entry of each list. */
  function FetchHuobi(fiat: string, crypto: string, reply: Reply<Book>): (r: Option<P2PRate>)
    ensures r.Some? <==> reply.Replied? && HasEntries(reply.buy.data) && HasEntries(reply.sell.data)
    ensures r.Some? ==> r.value == ToRate(fiat, crypto, reply.buy.data.value[0], reply.sell.data.value[0])
  {
    match reply
    case Failed => None
    case Replied(buyData, sellData) =>
      if !HasEntries(buyData.data) || !HasEntries(sellData.data) then None
      else Some(ToRate(fiat, crypto, buyData.data.value[0], sellData.data.value[0]))
  }
}
