/** Turning the subgraph's raw reserve positions and events into uniform
    records with amounts in whole units and values in USD. A field the
    subgraph left out, or a numeric field returned as null or in a form
    that does not convert to a number, is an absent (None) field of the raw
    record: the source raises on each, which ends the whole conversion. The
    symbol is only copied, so a null symbol is kept, and only a symbol left
    out raises. */
module Normalize {
  import opened Wrappers
  import opened Chains
  import opened Calendar
  import opened Pricing
  import opened Decimal

  /** A symbol as the subgraph sends it: a string, or JSON null, which the
      source carries along as Python's `None`. */
  datatype Symbol = Null | Text(text: string)

  /** What the source's `%s` writes for a symbol into the token-price
      query. */
  function QueryText(s: Symbol): string {
    match s
    case Null => "None"
    case Text(t) => t
  }

  /** The `reserve` object nested in positions and events. `priceInEth`
      stands for `reserve.price.priceInEth`. */
  datatype RawReserveInfo = RawReserveInfo(symbol: Option<Symbol>, decimals: Option<int>, priceInEth: Option<int>)

  /** An entry of a user's `reserves` list. */
  datatype RawPosition = RawPosition(reserve: Option<RawReserveInfo>,
                                     currentATokenBalance: Option<int>,
                                     currentTotalDebt: Option<int>)

  /** An entry of one of a user's four history lists. */
  datatype RawEvent = RawEvent(timestamp: Option<int>, amount: Option<int>, reserve: Option<RawReserveInfo>)

  /** A cleaned reserve position. */
  datatype Position = Position(symbol: Symbol, decimals: int, amount: real, debt: real,
                               amountUsd: real, debtUsd: real)

  /** A cleaned event; `pyDate` is the instant (seconds since the epoch,
      UTC) and `strDate` its `YYYY/MM/DD` day. */
  datatype Event = Event(pyDate: int, strDate: string, symbol: Symbol, decimals: int,
                         amount: real, amountUsd: real)

  /** The fields a position is read from, apart from the price, are all
      present, and its decimals give a usable power of ten. */
  predicate PositionReadable(raw: RawPosition) {
    && raw.reserve.Some?
    && raw.reserve.value.symbol.Some?
    && raw.reserve.value.decimals.Some?
    && ScalableDecimals(raw.reserve.value.decimals.value)
    && raw.currentATokenBalance.Some?
    && raw.currentTotalDebt.Some?
  }

  /** The unit price of a readable position's asset on chain `c`. */
  function PositionPrice(c: Chain, usdPriceEth: real, symbolPrice: string -> Option<real>,
                         raw: RawPosition): Option<real>
    requires PositionReadable(raw)
  {
    var info := raw.reserve.value;
    UnitPrice(ReservePriceSource(c), info.priceInEth, usdPriceEth, symbolPrice(QueryText(info.symbol.value)))
  }

  /** One reserve position, as the body of the loop in `clean_reserves`
      builds it. `symbolPrice` answers the token-price subgraph's query for
      a symbol, None when it returns no token. */
  function NormalizeReserve(c: Chain, usdPriceEth: real, symbolPrice: string -> Option<real>,
                            raw: RawPosition): (r: Option<Position>)
    ensures r.Some? <==> PositionReadable(raw) && PositionPrice(c, usdPriceEth, symbolPrice, raw).Some?
    ensures r.Some? ==>
              var info, p := raw.reserve.value, PositionPrice(c, usdPriceEth, symbolPrice, raw).value;
              && r.value.symbol == info.symbol.value
              && r.value.decimals == info.decimals.value
              && r.value.amount == Scale(raw.currentATokenBalance.value, info.decimals.value)
              && r.value.debt == Scale(raw.currentTotalDebt.value, info.decimals.value)
              && r.value.amountUsd == UsdValue(r.value.amount, p)
              && r.value.debtUsd == UsdValue(r.value.debt, p)
  {
    if !PositionReadable(raw) then None
    else
      var info := raw.reserve.value;
      var amount := Scale(raw.currentATokenBalance.value, info.decimals.value);
      var debt := Scale(raw.currentTotalDebt.value, info.decimals.value);
      match PositionPrice(c, usdPriceEth, symbolPrice, raw)
      case None => None
      case Some(p) => Some(Position(info.symbol.value, info.decimals.value, amount, debt, UsdValue(amount, p), UsdValue(debt, p)))
  }

  /** The fields an event is read from, apart from the price, are all
      present, and its decimals give a usable power of ten. */
  predicate EventReadable(raw: RawEvent) {
    && raw.timestamp.Some?
    && raw.reserve.Some?
    && raw.reserve.value.symbol.Some?
    && raw.reserve.value.decimals.Some?
    && ScalableDecimals(raw.reserve.value.decimals.value)
    && raw.amount.Some?
  }

  /** The unit price of a readable event's asset on chain `c`. */
  function EventPrice(c: Chain, usdPriceEth: real, symbolPrice: string -> Option<real>,
                      raw: RawEvent): Option<real>
    requires EventReadable(raw)
  {
    var info := raw.reserve.value;
    UnitPrice(EventPriceSource(c), info.priceInEth, usdPriceEth, symbolPrice(QueryText(info.symbol.value)))
  }

  /** One event, as the body of the loop in `clean_deposits` builds it. */
  function NormalizeEvent(c: Chain, usdPriceEth: real, symbolPrice: string -> Option<real>,
                          raw: RawEvent): (r: Option<Event>)
    ensures r.Some? <==>
              && EventReadable(raw)
              && DayLabel(raw.timestamp.value).Some?
              && EventPrice(c, usdPriceEth, symbolPrice, raw).Some?
    ensures r.Some? ==>
              var info, p := raw.reserve.value, EventPrice(c, usdPriceEth, symbolPrice, raw).value;
              && r.value.pyDate == raw.timestamp.value
              && Some(r.value.strDate) == DayLabel(raw.timestamp.value)
              && r.value.symbol == info.symbol.value
              && r.value.decimals == info.decimals.value
              && r.value.amount == Scale(raw.amount.value, info.decimals.value)
              && r.value.amountUsd == UsdValue(r.value.amount, p)
  {
    if !EventReadable(raw) then None
    else
      var info := raw.reserve.value;
      var ts := raw.timestamp.value;
      var day, price := DayLabel(ts), EventPrice(c, usdPriceEth, symbolPrice, raw);
      if day.None? || price.None? then None
      else
        var amount := Scale(raw.amount.value, info.decimals.value);
        Some(Event(ts, day.value, info.symbol.value, info.decimals.value, amount, UsdValue(amount, price.value)))
  }

  /** Every position of `raws` can be cleaned. */
  predicate AllReservesClean(c: Chain, usdPriceEth: real, symbolPrice: string -> Option<real>,
                             raws: seq<RawPosition>) {
    forall i :: 0 <= i < |raws| ==> NormalizeReserve(c, usdPriceEth, symbolPrice, raws[i]).Some?
  }

  /** `out` holds the cleaned `raws`, one for one and in order. */
  predicate CleanedReserves(c: Chain, usdPriceEth: real, symbolPrice: string -> Option<real>,
                            raws: seq<RawPosition>, out: seq<Position>) {
    && |out| == |raws|
    && forall i :: 0 <= i < |raws| ==> NormalizeReserve(c, usdPriceEth, symbolPrice, raws[i]) == Some(out[i])
  }

  predicate AllEventsClean(c: Chain, usdPriceEth: real, symbolPrice: string -> Option<real>,
                           raws: seq<RawEvent>) {
    forall i :: 0 <= i < |raws| ==> NormalizeEvent(c, usdPriceEth, symbolPrice, raws[i]).Some?
  }

  predicate CleanedEvents(c: Chain, usdPriceEth: real, symbolPrice: string -> Option<real>,
                          raws: seq<RawEvent>, out: seq<Event>) {
    && |out| == |raws|
    && forall i :: 0 <= i < |raws| ==> NormalizeEvent(c, usdPriceEth, symbolPrice, raws[i]) == Some(out[i])
  }

  /** `clean_reserves`: one cleaned position per raw position, in input
      order, or None when any one of them raises. */
  method CleanReserves(c: Chain, usdPriceEth: real, symbolPrice: string -> Option<real>,
                       reserves: seq<RawPosition>) returns (result: Option<seq<Position>>)
    ensures result.Some? <==> AllReservesClean(c, usdPriceEth, symbolPrice, reserves)
    ensures result.Some? ==> CleanedReserves(c, usdPriceEth, symbolPrice, reserves, result.value)
  {
    var acc: seq<Position> := [];
    for i := 0 to |reserves|
      invariant CleanedReserves(c, usdPriceEth, symbolPrice, reserves[..i], acc)
    {
      var item := NormalizeReserve(c, usdPriceEth, symbolPrice, reserves[i]);
      if item.None? {
        return None;
      }
      acc := acc + [item.value];
    }
    assert reserves[..|reserves|] == reserves;
    return Some(acc);
  }

  /** Cleaning one more event extends the cleaned list by its result. */
  lemma CleanedEventsGrow(c: Chain, usdPriceEth: real, symbolPrice: string -> Option<real>,
                          raws: seq<RawEvent>, out: seq<Event>, raw: RawEvent, e: Event)
    requires CleanedEvents(c, usdPriceEth, symbolPrice, raws, out)
    requires NormalizeEvent(c, usdPriceEth, symbolPrice, raw) == Some(e)
    ensures CleanedEvents(c, usdPriceEth, symbolPrice, raws + [raw], out + [e])
  {
  }

  /** `clean_deposits`, which cleans all four histories: one cleaned event
      per raw event, in input order, or None when any one of them raises. */
  method CleanDeposits(c: Chain, usdPriceEth: real, symbolPrice: string -> Option<real>,
                       deposits: seq<RawEvent>) returns (result: Option<seq<Event>>)
    ensures result.Some? <==> AllEventsClean(c, usdPriceEth, symbolPrice, deposits)
    ensures result.Some? ==> CleanedEvents(c, usdPriceEth, symbolPrice, deposits, result.value)
  {
    var acc: seq<Event> := [];
    for i := 0 to |deposits|
      invariant CleanedEvents(c, usdPriceEth, symbolPrice, deposits[..i], acc)
    {
      var item := NormalizeEvent(c, usdPriceEth, symbolPrice, deposits[i]);
      if item.None? {
        return None;
      }
      CleanedEventsGrow(c, usdPriceEth, symbolPrice, deposits[..i], acc, deposits[i], item.value);
      assert deposits[..i + 1] == deposits[..i] + [deposits[i]];
      acc := acc + [item.value];
    }
    assert deposits[..|deposits|] == deposits;
    return Some(acc);
  }

  /** A position's amount and debt are valued with one and the same unit
      price. */
  lemma PositionValuedAtOnePrice(c: Chain, usdPriceEth: real, symbolPrice: string -> Option<real>,
                                 raw: RawPosition)
    requires NormalizeReserve(c, usdPriceEth, symbolPrice, raw).Some?
    ensures var pos := NormalizeReserve(c, usdPriceEth, symbolPrice, raw).value;
            pos.amountUsd * pos.debt == pos.debtUsd * pos.amount
  {
    var pos := NormalizeReserve(c, usdPriceEth, symbolPrice, raw).value;
    SamePriceCrossProducts(pos.amount, pos.debt, PositionPrice(c, usdPriceEth, symbolPrice, raw).value);
  }

  /** When a position can be cleaned, chain by chain: which price it is
      valued at, and what it needs. Optimism needs the price index to know
      the symbol and ignores the subgraph's oracle; Ethereum and Polygon v2
      need the oracle and a non-zero session value; the rest need only the
      oracle. */
  lemma ReserveByChain(c: Chain, usdPriceEth: real, symbolPrice: string -> Option<real>,
                       raw: RawPosition)
    requires PositionReadable(raw)
    ensures var info := raw.reserve.value;
            var r := NormalizeReserve(c, usdPriceEth, symbolPrice, raw);
            && (c == Optimism ==>
                  (r.Some? <==> symbolPrice(QueryText(info.symbol.value)).Some?) &&
                  (r.Some? ==> r.value.amountUsd == UsdValue(r.value.amount, symbolPrice(QueryText(info.symbol.value)).value)))
            && (c == Ethereum || c == PolygonV2 ==>
                  (r.Some? <==> info.priceInEth.Some? && usdPriceEth != 0.0) &&
                  (r.Some? ==> r.value.amountUsd
                               == UsdValue(r.value.amount, Scale(info.priceInEth.value, 18) / usdPriceEth)))
            && (c !in {Ethereum, PolygonV2, Optimism} ==>
                  (r.Some? <==> info.priceInEth.Some?) &&
                  (r.Some? ==> r.value.amountUsd == UsdValue(r.value.amount, Scale(info.priceInEth.value, 8))))
  {
  }

  /** When an event can be cleaned, chain by chain. No chain consults the
      price index: Ethereum and Polygon v2 convert from ETH, every other
      chain, Optimism included, reads the oracle as USD/10^8. */
  lemma EventByChain(c: Chain, usdPriceEth: real, symbolPrice: string -> Option<real>,
                     raw: RawEvent)
    requires EventReadable(raw) && DayLabel(raw.timestamp.value).Some?
    ensures var info := raw.reserve.value;
            var r := NormalizeEvent(c, usdPriceEth, symbolPrice, raw);
            && (c == Ethereum || c == PolygonV2 ==>
                  (r.Some? <==> info.priceInEth.Some? && usdPriceEth != 0.0) &&
                  (r.Some? ==> r.value.amountUsd
                               == UsdValue(r.value.amount, Scale(info.priceInEth.value, 18) / usdPriceEth)))
            && (c != Ethereum && c != PolygonV2 ==>
                  (r.Some? <==> info.priceInEth.Some?) &&
                  (r.Some? ==> r.value.amountUsd == UsdValue(r.value.amount, Scale(info.priceInEth.value, 8))))
  {
  }

  /** Events never depend on the price index: the Optimism branch of the
      event price is unreachable. */
  lemma EventIgnoresPriceIndex(c: Chain, usdPriceEth: real, index1: string -> Option<real>,
                               index2: string -> Option<real>, raw: RawEvent)
    ensures NormalizeEvent(c, usdPriceEth, index1, raw) == NormalizeEvent(c, usdPriceEth, index2, raw)
  {
  }

  /** With non-negative raw balances and price, every amount and value of a
      position is non-negative. */
  lemma PositionNonNegative(c: Chain, usdPriceEth: real, symbolPrice: string -> Option<real>,
                            raw: RawPosition)
    requires NormalizeReserve(c, usdPriceEth, symbolPrice, raw).Some?
    requires raw.currentATokenBalance.value >= 0 && raw.currentTotalDebt.value >= 0
    requires PositionPrice(c, usdPriceEth, symbolPrice, raw).value >= 0.0
    ensures var pos := NormalizeReserve(c, usdPriceEth, symbolPrice, raw).value;
            pos.amount >= 0.0 && pos.debt >= 0.0 && pos.amountUsd >= 0.0 && pos.debtUsd >= 0.0
  {
  }

  /** A reserve whose symbol is null is still cleaned on Arbitrum, and keeps
      the null symbol. */
  lemma NullSymbolKeptExample(symbolPrice: string -> Option<real>)
    ensures var raw := RawPosition(Some(RawReserveInfo(Some(Null), Some(18), Some(100000000))), Some(1), Some(0));
            var r := NormalizeReserve(Arbitrum, 1.0, symbolPrice, raw);
            r.Some? && r.value.symbol == Null
  {
  }

  /** 5 DAI (18 decimals) on Ethereum, priced at 5 * 10^14 wei with one
      dollar worth 1/1800 ETH, is worth 4.5 USD. */
  lemma DaiOnEthereumExample(symbolPrice: string -> Option<real>)
    ensures var raw := RawPosition(Some(RawReserveInfo(Some(Text("DAI")), Some(18), Some(500000000000000))),
                                   Some(5000000000000000000), Some(0));
            NormalizeReserve(Ethereum, 1.0 / 1800.0, symbolPrice, raw)
              == Some(Position(Text("DAI"), 18, 5.0, 0.0, 4.5, 0.0))
  {
    var raw := RawPosition(Some(RawReserveInfo(Some(Text("DAI")), Some(18), Some(500000000000000))),
                           Some(5000000000000000000), Some(0));
    OracleScales();
    assert Scale(500000000000000, 18) == 0.0005;
    assert 0.0005 / (1.0 / 1800.0) == 0.9;
    assert PositionPrice(Ethereum, 1.0 / 1800.0, symbolPrice, raw) == Some(0.9);
    assert Scale(5000000000000000000, 18) == 5.0;
    assert UsdValue(5.0, 0.9) == 4.5;
  }
}
