/**
 * The request handler's aggregation: every requested exchange name is
 * dispatched to its fetcher, and the non-null results are collected in
 * request order.
 */
module FetchP2PRates {
  import opened JsValues
  import opened Seqs
  import opened Rates
  import Binance
  import Okx
  import Bybit
  import Huobi
  import KuCoin

  /** The fields of the request body the handler uses. */
  datatype Request = Request(fiat: string, crypto: string, exchanges: seq<string>, filters: Binance.Filters)

  /** What each exchange's endpoints answer for this request. */
  datatype Network = Network(
    binance: Reply<Binance.Book>,
    okx: Reply<Okx.Book>,
    bybit: Reply<Bybit.Book>,
    huobi: Reply<Huobi.Book>,
    kucoin: Reply<KuCoin.Book>)

  /** The exchange names the handler's `switch` recognises. */
  const Supported: seq<string> := ["Binance", "OKX", "Bybit", "Huobi", "KuCoin"]

  /** The `switch (exchange)`: a recognised name yields its fetcher's result,
      labelled with that name; any other name yields null. */
  function FetchRate(exchange: string, req: Request, net: Network): (r: Option<P2PRate>)
    ensures r.Some? ==> r.value.exchange == exchange
    ensures exchange !in Supported ==> r.None?
    ensures exchange == "Binance" ==> r == Binance.FetchBinance(req.fiat, req.crypto, req.filters, net.binance)
    ensures exchange == "OKX" ==> r == Okx.FetchOkx(req.fiat, req.crypto, net.okx)
    ensures exchange == "Bybit" ==> r == Bybit.FetchBybit(req.fiat, req.crypto, net.bybit)
    ensures exchange == "Huobi" ==> r == Huobi.FetchHuobi(req.fiat, req.crypto, net.huobi)
    ensures exchange == "KuCoin" ==> r == KuCoin.FetchKuCoin(req.fiat, req.crypto, net.kucoin)
  {
    if exchange == "Binance" then Binance.FetchBinance(req.fiat, req.crypto, req.filters, net.binance)
    else if exchange == "OKX" then Okx.FetchOkx(req.fiat, req.crypto, net.okx)
    else if exchange == "Bybit" then Bybit.FetchBybit(req.fiat, req.crypto, net.bybit)
    else if exchange == "Huobi" then Huobi.FetchHuobi(req.fiat, req.crypto, net.huobi)
    else if exchange == "KuCoin" then KuCoin.FetchKuCoin(req.fiat, req.crypto, net.kucoin)
    else None
  }

  /** `exchanges.map(...)`: one result per requested name, in order, each
      labelled with the name at its position. */
  function Dispatch(exchanges: seq<string>, req: Request, net: Network): (r: seq<Option<P2PRate>>)
    ensures |r| == |exchanges|
    ensures forall i :: 0 <= i < |exchanges| && r[i].Some? ==> r[i].value.exchange == exchanges[i]
  {
    Map(name => FetchRate(name, req, net), exchanges)
  }

  /** Element i of the dispatch is the fetch for the name at position i. */
  lemma DispatchAt(exchanges: seq<string>, req: Request, net: Network, i: int)
    requires 0 <= i < |exchanges|
    ensures Dispatch(exchanges, req, net)[i] == FetchRate(exchanges[i], req, net)
  {
  }

  /** The non-null results, in order; dropping nulls never lengthens the list. */
  function Present<T>(results: seq<Option<T>>): (r: seq<T>)
    ensures |r| <= |results|
  {
    if results == [] then []
    else (if results[0].Some? then [results[0].value] else []) + Present(results[1..])
  }

  /** Nothing is kept exactly when every result is null. */
  lemma {:induction false} PresentEmptyIff<T>(results: seq<Option<T>>)
    ensures Present(results) == [] <==> forall k :: 0 <= k < |results| ==> results[k].None?
  {
    if results != [] {
      PresentEmptyIff(results[1..]);
      assert forall k :: 1 <= k < |results| ==> results[k] == results[1..][k - 1];
    }
  }

  lemma {:induction false} PresentAppend<T>(a: seq<Option<T>>, b: seq<Option<T>>)
    ensures Present(a + b) == Present(a) + Present(b)
  {
    if a == [] {
      assert a + b == b;
    } else {
      assert (a + b)[0] == a[0] && (a + b)[1..] == a[1..] + b;
      PresentAppend(a[1..], b);
    }
  }

  /** The handler's loop: `for (const result of results) if (result) rates.push(result)`. */
  method DropNulls<T>(results: seq<Option<T>>) returns (kept: seq<T>)
    ensures kept == Present(results)
  {
    kept := [];
    for i := 0 to |results|
      invariant kept == Present(results[..i])
    {
      assert results[..i + 1] == results[..i] + [results[i]];
      PresentAppend(results[..i], [results[i]]);
      if results[i].Some? {
        kept := kept + [results[i].value];
      }
    }
    assert results[..|results|] == results;
  }

  /** The handler: dispatch every requested exchange, then keep the non-null results. */
  method CollectRates(req: Request, net: Network) returns (rates: seq<P2PRate>)
    ensures rates == Present(Dispatch(req.exchanges, req, net))
  {
    var results := Dispatch(req.exchanges, req, net);
    rates := DropNulls(results);
  }

  /** The values kept are exactly those of the non-null results. */
  lemma {:induction false} PresentMembers<T>(results: seq<Option<T>>, x: T)
    ensures x in Present(results) <==> Some(x) in results
  {
    if results != [] {
      PresentMembers(results[1..], x);
      assert results == [results[0]] + results[1..];
    }
  }

  /** A rate is in the answer exactly when some requested exchange produced it. */
  lemma RatesExactly(req: Request, net: Network, rate: P2PRate)
    ensures rate in Present(Dispatch(req.exchanges, req, net))
        <==> (exists i :: 0 <= i < |req.exchanges| && FetchRate(req.exchanges[i], req, net) == Some(rate))
  {
    var results := Dispatch(req.exchanges, req, net);
    PresentMembers(results, rate);
    assert forall i :: 0 <= i < |results| ==> results[i] == FetchRate(req.exchanges[i], req, net);
  }

  /** The exchange names of the rates. */
  function Names(rates: seq<P2PRate>): seq<string> {
    seq(|rates|, i requires 0 <= i < |rates| => rates[i].exchange)
  }

  /** When each non-null result is labelled with the name at its position,
      the labels of the kept results are those names with some left out. */
  lemma {:induction false} PresentNamesFollow(results: seq<Option<P2PRate>>, exchanges: seq<string>)
    requires |results| == |exchanges|
    requires forall i :: 0 <= i < |results| && results[i].Some? ==> results[i].value.exchange == exchanges[i]
    ensures IsSubsequence(Names(Present(results)), exchanges)
  {
    if results != [] {
      var rest := exchanges[1..];
      PresentNamesFollow(results[1..], rest);
      var tail := Present(results[1..]);
      assert exchanges == [exchanges[0]] + rest;
      if results[0].Some? {
        assert Present(results) == [results[0].value] + tail;
        assert Names([results[0].value] + tail) == [exchanges[0]] + Names(tail);
        SubsequenceCons(Names(tail), rest, exchanges[0]);
      } else {
        assert Present(results) == tail;
        SubsequenceWiden(Names(tail), rest, exchanges[0]);
      }
    }
  }

  /** The rates' exchange names are the requested names with some left out,
      in request order. */
  lemma RatesFollowRequest(req: Request, net: Network)
    ensures IsSubsequence(Names(Present(Dispatch(req.exchanges, req, net))), req.exchanges)
  {
    PresentNamesFollow(Dispatch(req.exchanges, req, net), req.exchanges);
  }

  /** The answer is no longer than the request: its names are a
      subsequence of the requested names. */
  lemma RatesBounded(req: Request, net: Network)
    ensures |Present(Dispatch(req.exchanges, req, net))| <= |req.exchanges|
  {
    var rates := Present(Dispatch(req.exchanges, req, net));
    RatesFollowRequest(req, net);
    SubsequenceLength(Names(rates), req.exchanges);
  }

  /** Dispatching a concatenation dispatches each part. */
  lemma DispatchAppend(a: seq<string>, b: seq<string>, req: Request, net: Network)
    ensures Dispatch(a + b, req, net) == Dispatch(a, req, net) + Dispatch(b, req, net)
  {
    MapAppend(name => FetchRate(name, req, net), a, b);
  }

  /** A null result anywhere contributes nothing. */
  lemma PresentSkipsNull<T>(before: seq<Option<T>>, after: seq<Option<T>>)
    ensures Present(before + [None] + after) == Present(before + after)
  {
    PresentAppend(before + [None], after);
    PresentAppend(before, [None]);
    PresentAppend(before, after);
  }

  /** An unrecognised exchange name anywhere in the request changes nothing. */
  lemma UnknownIgnored(before: seq<string>, name: string, after: seq<string>, req: Request, net: Network)
    requires name !in Supported
    ensures Present(Dispatch(before + [name] + after, req, net)) == Present(Dispatch(before + after, req, net))
  {
    var d1, d2 := Dispatch(before, req, net), Dispatch(after, req, net);
    DispatchAppend(before + [name], after, req, net);
    DispatchAppend(before, [name], req, net);
    DispatchAppend(before, after, req, net);
    assert Dispatch([name], req, net) == [None];
    PresentSkipsNull(d1, d2);
  }
}
