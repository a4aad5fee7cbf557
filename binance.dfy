/**
 * `fetchBinanceP2P`: the payment-method names sent with the request, the
 * optional tradable-only filter, the choice of the best ad and its mapping
 * onto a P2PRate.
 */
module Binance {
  import opened JsValues
  import opened AsciiCase
  import opened Seqs
  import opened Rates

  datatype TradeMethod = TradeMethod(identifier: Value, tradeMethodName: Value)

  /** The `adv` object of an ad. */
  datatype Adv = Adv(
    price: Value,
    surplusAmount: Value,
    tradableQuantity: Value,
    minSingleTransAmount: Value,
    dynamicMaxSingleTransAmount: Value,
    tradeMethods: Option<seq<TradeMethod>>)

  datatype Ad = Ad(adv: Option<Adv>)

  /** The parsed body of one search request. */
  datatype Book = Book(data: Option<seq<Ad>>)

  /** The request filters this exchange reads. */
  datatype Filters = Filters(onlyTradable: bool, paymentMethods: Option<seq<string>>)

  /** One payment-method name as Binance expects it: upper case, with
      every space replaced by an underscore. */
  function PayType(name: string): (r: string)
    ensures |r| == |name|
    ensures forall i :: 0 <= i < |r| ==> r[i] != ' ' && !IsLower(r[i])
    ensures forall i :: 0 <= i < |name| ==> r[i] == if name[i] == ' ' then '_' else UpperChar(name[i])
  {
    SpacesToUnderscores(Upper(name))
  }

  /** `filters?.paymentMethods?.map(...) || []`. */
  function PayTypes(filters: Filters): (r: seq<string>)
    ensures filters.paymentMethods.None? ==> r == []
    ensures filters.paymentMethods.Some? ==> |r| == |filters.paymentMethods.value|
    ensures forall i :: 0 <= i < |r| ==> r[i] == PayType(filters.paymentMethods.value[i])
  {
    match filters.paymentMethods
    case None => []
    case Some(names) => seq(|names|, i requires 0 <= i < |names| => PayType(names[i]))
  }

  /** Normalising a normalised name changes nothing. */
  lemma PayTypeIdempotent(name: string)
    ensures PayType(PayType(name)) == PayType(name)
  {
  }

  /** Names that differ only in the case of their letters normalise alike. */
  lemma PayTypeIgnoresCase(name: string)
    ensures PayType(Lower(name)) == PayType(name)
  {
  }

  predicate IsDigit(c: char) {
    '0' <= c <= '9'
  }

  /** A plain decimal numeral (digits with at most one point) whose value is
      above zero: the strings for which `Number(s) > 0` among such numerals. */
  predicate PositiveNumeral(s: string) {
    (forall i :: 0 <= i < |s| ==> IsDigit(s[i]) || s[i] == '.')
    && (forall i, j :: 0 <= i < j < |s| && s[i] == '.' ==> s[j] != '.')
    && (exists i :: 0 <= i < |s| && '1' <= s[i] <= '9')
  }

  /** `ad.adv?.tradableQuantity > 0`: an ad without `adv` or with a
      missing, null or empty quantity is never tradable, a quantity made of
      zeros and a point is not above zero, and a whole number with a
      non-zero digit is. */
  function Tradable(ad: Ad): (b: bool)
    ensures b ==> ad.adv.Some? && Truthy(ad.adv.value.tradableQuantity)
    ensures ad.adv.Some? && ad.adv.value.tradableQuantity.Str?
            && (forall i :: 0 <= i < |ad.adv.value.tradableQuantity.text| ==>
                  ad.adv.value.tradableQuantity.text[i] in "0.")
            ==> !b
    ensures ad.adv.Some? && ad.adv.value.tradableQuantity.Str?
            && (forall i :: 0 <= i < |ad.adv.value.tradableQuantity.text| ==>
                  IsDigit(ad.adv.value.tradableQuantity.text[i]))
            && (exists i :: 0 <= i < |ad.adv.value.tradableQuantity.text| &&
                  ad.adv.value.tradableQuantity.text[i] != '0')
            ==> b
  {
    ad.adv.Some? && ad.adv.value.tradableQuantity.Str? && PositiveNumeral(ad.adv.value.tradableQuantity.text)
  }

  /** A decimal quantity `w.f` with a non-zero digit, such as `12.50` or
      `0.5`, is above zero, so the ad is tradable. */
  lemma DecimalTradable(ad: Ad, w: string, f: string)
    requires ad.adv.Some? && ad.adv.value.tradableQuantity == Str(w + "." + f)
    requires forall i :: 0 <= i < |w| ==> IsDigit(w[i])
    requires forall i :: 0 <= i < |f| ==> IsDigit(f[i])
    requires exists i :: 0 <= i < |w + f| && (w + f)[i] != '0'
    ensures Tradable(ad)
  {
    var s := w + "." + f;
    assert forall i :: 0 <= i < |w| ==> s[i] == w[i];
    assert s[|w|] == '.';
    assert forall i :: |w| < i < |s| ==> s[i] == f[i - |w| - 1];
    var k :| 0 <= k < |w + f| && (w + f)[k] != '0';
    if k < |w| {
      assert s[k] == (w + f)[k];
    } else {
      assert s[k + 1] == (w + f)[k];
    }
    assert PositiveNumeral(s);
  }

  /** `ads.filter(ad => ad.adv?.tradableQuantity > 0)`. */
  function TradableAds(ads: seq<Ad>): (r: seq<Ad>)
    ensures forall k :: 0 <= k < |r| ==> Tradable(r[k])
    ensures IsSubsequence(r, ads)
  {
    if ads == [] then []
    else if Tradable(ads[0]) then
      var rest := TradableAds(ads[1..]);
      assert ([ads[0]] + rest)[1..] == rest;
      [ads[0]] + rest
    else TradableAds(ads[1..])
  }

  /** The filter keeps each tradable ad as many times as it occurs and
      drops every other ad. */
  lemma {:induction false} TradableAdsCounts(ads: seq<Ad>)
    ensures forall x :: multiset(TradableAds(ads))[x] == if Tradable(x) then multiset(ads)[x] else 0
  {
    if ads != [] {
      TradableAdsCounts(ads[1..]);
      assert ads == [ads[0]] + ads[1..];
      assert multiset(ads) == multiset{ads[0]} + multiset(ads[1..]);
      if Tradable(ads[0]) {
        assert TradableAds(ads) == [ads[0]] + TradableAds(ads[1..]);
        assert multiset(TradableAds(ads)) == multiset{ads[0]} + multiset(TradableAds(ads[1..]));
      }
    }
  }

  /** The filter keeps exactly the tradable ads. */
  lemma {:induction false} TradableAdsMembers(ads: seq<Ad>, ad: Ad)
    ensures ad in TradableAds(ads) <==> ad in ads && Tradable(ad)
  {
    if ads != [] {
      TradableAdsMembers(ads[1..], ad);
      assert ads == [ads[0]] + ads[1..];
    }
  }

  /** `ads[k]` is the first tradable ad. */
  predicate FirstTradableAt(ads: seq<Ad>, k: int) {
    0 <= k < |ads| && Tradable(ads[k]) && forall j :: 0 <= j < k ==> !Tradable(ads[j])
  }

  /** The filtered list is empty exactly when no ad is tradable; otherwise
      it starts with the first tradable ad. */
  lemma {:induction false} TradableAdsHead(ads: seq<Ad>)
    ensures TradableAds(ads) == [] <==> forall k :: 0 <= k < |ads| ==> !Tradable(ads[k])
    ensures TradableAds(ads) != [] ==> exists k :: FirstTradableAt(ads, k) && TradableAds(ads)[0] == ads[k]
  {
    if ads != [] {
      if Tradable(ads[0]) {
        assert FirstTradableAt(ads, 0);
      } else {
        TradableAdsHead(ads[1..]);
        assert forall k :: 0 <= k < |ads| - 1 ==> ads[1..][k] == ads[k + 1];
        assert forall k :: FirstTradableAt(ads[1..], k) ==> FirstTradableAt(ads, k + 1);
      }
    }
  }

  /** The ads the best one is taken from: all of them without the filter;
      with it, the filtered list, which holds only tradable ads and no more
      than there were. */
  function Candidates(ads: seq<Ad>, onlyTradable: bool): (r: seq<Ad>)
    ensures !onlyTradable ==> r == ads
    ensures onlyTradable ==> r == TradableAds(ads)
    ensures onlyTradable ==> forall k :: 0 <= k < |r| ==> Tradable(r[k])
    ensures |r| <= |ads|
  {
    if onlyTradable then
      SubsequenceLength(TradableAds(ads), ads);
      TradableAds(ads)
    else ads
  }

  /** `ads[0]?.adv`: undefined for an empty list or a first ad without `adv`. */
  function HeadAdv(ads: seq<Ad>): (r: Option<Adv>)
    ensures r.Some? <==> |ads| > 0 && ads[0].adv.Some?
    ensures r.Some? ==> r == ads[0].adv
  {
    if |ads| == 0 then None else ads[0].adv
  }

  /** The trade page; crypto and fiat are embedded as given. */
  function TradeUrl(crypto: string, fiat: string): string {
    "https://p2p.binance.com/en/trade/all-payments/" + crypto + "?fiat=" + fiat
  }

  /** The URL keeps the case of its codes: codes of the same lengths that
      differ in any character, case included, give different URLs. */
  lemma TradeUrlKeepsCase(c1: string, f1: string, c2: string, f2: string)
    requires |c1| == |c2| && |f1| == |f2| && (c1 != c2 || f1 != f2)
    ensures TradeUrl(c1, f1) != TradeUrl(c2, f2)
  {
    TwoSlotsDistinct("https://p2p.binance.com/en/trade/all-payments/", c1, "?fiat=", f1, "", c2, f2);
    assert f1 + "" == f1 && f2 + "" == f2;
  }

  /** `m.identifier || m.tradeMethodName`: the identifier when it is
      truthy, the display name otherwise. */
  function MethodName(m: TradeMethod): (r: Value)
    ensures Truthy(m.identifier) ==> r == m.identifier
    ensures !Truthy(m.identifier) ==> r == m.tradeMethodName
  {
    Fallback([m.identifier], m.tradeMethodName)
  }

  /** `tradeMethods?.map(m => m.identifier || m.tradeMethodName)`, taken
      to the texts `join` writes. */
  function MethodNames(methods: Option<seq<TradeMethod>>): (r: Option<seq<string>>)
    ensures r.Some? <==> methods.Some?
    ensures r.Some? ==> |r.value| == |methods.value|
    ensures r.Some? ==> forall i :: 0 <= i < |methods.value| ==> r.value[i] == JoinText(MethodName(methods.value[i]))
  {
    match methods
    case None => None
    case Some(ms) => Some(seq(|ms|, i requires 0 <= i < |ms| => JoinText(MethodName(ms[i]))))
  }

  /** The rate built from the best buy and best sell ads. */
  function ToRate(fiat: string, crypto: string, bestBuy: Adv, bestSell: Adv): (r: P2PRate)
    ensures r.exchange == "Binance" && r.tradeUrl == TradeUrl(crypto, fiat)
    ensures r.buyPrice == bestBuy.price && r.sellPrice == bestSell.price
    ensures r.available == Fallback([bestBuy.surplusAmount, bestBuy.tradableQuantity], Str("0"))
    ensures Truthy(r.available)
    ensures r.limit == Limit(bestBuy.minSingleTransAmount, bestBuy.dynamicMaxSingleTransAmount, fiat)
    ensures r.paymentMethod == PaymentLabel(MethodNames(bestBuy.tradeMethods))
    ensures r.paymentMethod != ""
  {
    FallbackTruthy([bestBuy.surplusAmount, bestBuy.tradableQuantity], Str("0"));
    P2PRate(
      "Binance",
      bestBuy.price,
      bestSell.price,
      Fallback([bestBuy.surplusAmount, bestBuy.tradableQuantity], Str("0")),
      Limit(bestBuy.minSingleTransAmount, bestBuy.dynamicMaxSingleTransAmount, fiat),
      PaymentLabel(MethodNames(bestBuy.tradeMethods)),
      TradeUrl(crypto, fiat))
  }

  /** `fetchBinanceP2P(fiat, crypto, filters)` on the two parsed replies. */
  function FetchBinance(fiat: string, crypto: string, filters: Filters, reply: Reply<Book>): (r: Option<P2PRate>)
    ensures r.Some? ==> reply.Replied? && reply.buy.data.Some? && reply.sell.data.Some?
    ensures r.Some? ==> r.value.exchange == "Binance" && r.value.tradeUrl == TradeUrl(crypto, fiat)
  {
    match reply
    case Failed => None
    case Replied(buyData, sellData) =>
      if buyData.data.None? || sellData.data.None? then None
      else
        var bestBuy := HeadAdv(Candidates(buyData.data.value, filters.onlyTradable));
        var bestSell := HeadAdv(Candidates(sellData.data.value, filters.onlyTradable));
        if bestBuy.None? || bestSell.None? then None
        else Some(ToRate(fiat, crypto, bestBuy.value, bestSell.value))
  }

  /** Without the tradable-only filter the first ad of each side is used:
      a rate exists exactly when both lists are present and non-empty and
      their first ads carry an `adv`. */
  lemma Unfiltered(fiat: string, crypto: string, filters: Filters, buy: Book, sell: Book)
    requires !filters.onlyTradable
    ensures FetchBinance(fiat, crypto, filters, Replied(buy, sell)).Some?
        <==> (HasEntries(buy.data) && buy.data.value[0].adv.Some?
              && HasEntries(sell.data) && sell.data.value[0].adv.Some?)
    ensures FetchBinance(fiat, crypto, filters, Replied(buy, sell)).Some? ==>
      FetchBinance(fiat, crypto, filters, Replied(buy, sell)).value
        == ToRate(fiat, crypto, buy.data.value[0].adv.value, sell.data.value[0].adv.value)
  {
  }

  /** With the tradable-only filter a rate exists exactly when both lists
      are present and each holds a tradable ad. */
  lemma OnlyTradable(fiat: string, crypto: string, filters: Filters, buy: Book, sell: Book)
    requires filters.onlyTradable
    ensures FetchBinance(fiat, crypto, filters, Replied(buy, sell)).Some?
        <==> (buy.data.Some? && (exists k :: 0 <= k < |buy.data.value| && Tradable(buy.data.value[k]))
              && sell.data.Some? && (exists k :: 0 <= k < |sell.data.value| && Tradable(sell.data.value[k])))
  {
    if buy.data.Some? && sell.data.Some? {
      TradableAdsHead(buy.data.value);
      TradableAdsHead(sell.data.value);
    }
  }

  /** With the tradable-only filter the rate is built from the first
      tradable ad of each side. */
  lemma OnlyTradableBest(fiat: string, crypto: string, filters: Filters, buyAds: seq<Ad>, sellAds: seq<Ad>)
    requires filters.onlyTradable
    requires FetchBinance(fiat, crypto, filters, Replied(Book(Some(buyAds)), Book(Some(sellAds)))).Some?
    ensures exists kb, ks ::
              FirstTradableAt(buyAds, kb) && FirstTradableAt(sellAds, ks)
              && FetchBinance(fiat, crypto, filters, Replied(Book(Some(buyAds)), Book(Some(sellAds)))).value
                 == ToRate(fiat, crypto, buyAds[kb].adv.value, sellAds[ks].adv.value)
  {
    TradableAdsHead(buyAds);
    TradableAdsHead(sellAds);
  }
}
