/**
 * `fetchBybitP2P`: the first item of each side's `result.items` list becomes
 * the rate. Its guard is written differently from the other exchanges'
 * (a missing list, then a missing first item) but rejects the same inputs.
 */
module Bybit {
  import opened JsValues
  import opened Seqs
  import opened Rates

  datatype Payment = Payment(name: Value)

  datatype Item = Item(
    price: Value,
    lastQuantity: Value,
    minAmount: Value,
    maxAmount: Value,
    payments: Option<seq<Payment>>)

  datatype ItemList = ItemList(items: Option<seq<Item>>)

  /** The parsed body of one online-items request. */
  datatype Book = Book(result: Option<ItemList>)

  /** `book.result?.items`: undefined when `result` is missing. */
  function Items(book: Book): (r: Option<seq<Item>>)
    ensures book.result.None? ==> r.None?
    ensures book.result.Some? ==> r == book.result.value.items
  {
    if book.result.None? then None else book.result.value.items
  }

  /** The trade page; crypto and fiat are embedded as given. */
  function TradeUrl(crypto: string, fiat: string): string {
    "https://www.bybit.com/fiat/trade/otc?actionType=1&token=" + crypto + "&fiat=" + fiat + "&paymentMethod="
  }

  /** The URL keeps the case of its codes: codes of the same lengths that
      differ in any character, case included, give different URLs. */
  lemma TradeUrlKeepsCase(c1: string, f1: string, c2: string, f2: string)
    requires |c1| == |c2| && |f1| == |f2| && (c1 != c2 || f1 != f2)
    ensures TradeUrl(c1, f1) != TradeUrl(c2, f2)
  {
    TwoSlotsDistinct("https://www.bybit.com/fiat/trade/otc?actionType=1&token=", c1, "&fiat=", f1, "&paymentMethod=", c2, f2);
  }

  /** `payments?.map(p => p.name)`, taken to the texts `join` writes. */
  function PaymentNames(payments: Option<seq<Payment>>): (r: Option<seq<string>>)
    ensures r.Some? <==> payments.Some?
    ensures r.Some? ==> |r.value| == |payments.value|
    ensures r.Some? ==> forall i :: 0 <= i < |payments.value| ==> r.value[i] == JoinText(payments.value[i].name)
  {
    match payments
    case None => None
    case Some(ps) => Some(seq(|ps|, i requires 0 <= i < |ps| => JoinText(ps[i].name)))
  }

  /** The rate built from the best buy and best sell items. */
  function ToRate(fiat: string, crypto: string, bestBuy: Item, bestSell: Item): (r: P2PRate)
    ensures r.exchange == "Bybit" && r.tradeUrl == TradeUrl(crypto, fiat)
    ensures r.buyPrice == bestBuy.price && r.sellPrice == bestSell.price
    ensures r.available == Fallback([bestBuy.lastQuantity], Str("0"))
    ensures Truthy(r.available)
    ensures r.limit == Limit(bestBuy.minAmount, bestBuy.maxAmount, fiat)
    ensures r.paymentMethod == PaymentLabel(PaymentNames(bestBuy.payments))
    ensures r.paymentMethod != ""
  {
    FallbackTruthy([bestBuy.lastQuantity], Str("0"));
    P2PRate(
      "Bybit",
      bestBuy.price,
      bestSell.price,
      Fallback([bestBuy.lastQuantity], Str("0")),
      Limit(bestBuy.minAmount, bestBuy.maxAmount, fiat),
      PaymentLabel(PaymentNames(bestBuy.payments)),
      TradeUrl(crypto, fiat))
  }

  /** `items[0]`, undefined for an empty list. */
  function First(items: seq<Item>): (r: Option<Item>)
    ensures r.Some? <==> items != []
    ensures r.Some? ==> r.value == items[0]
  {
    if |items| == 0 then None else Some(items[0])
  }

  /** `fetchBybitP2P(fiat, crypto)` on the two parsed replies: no rate
      exactly when a request failed or either item list is missing or
      empty; otherwise the rate of the first item of each list. */
  function FetchBybit(fiat: string, crypto: string, reply: Reply<Book>): (r: Option<P2PRate>)
    ensures r.Some? <==> reply.Replied? && HasEntries(Items(reply.buy)) && HasEntries(Items(reply.sell))
    ensures r.Some? ==> r.value == ToRate(fiat, crypto, Items(reply.buy).value[0], Items(reply.sell).value[0])
  {
    match reply
    case Failed => None
    case Replied(buyData, sellData) =>
      if Items(buyData).None? || Items(sellData).None? then None
      else
        var bestBuy := First(Items(buyData).value);
        var bestSell := First(Items(sellData).value);
        if bestBuy.None? || bestSell.None? then None
        else Some(ToRate(fiat, crypto, bestBuy.value, bestSell.value))
  }
}
