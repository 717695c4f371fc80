/** Decimal scaling of raw on-chain integers and the per-chain choice of how
    a reserve's USD unit price is obtained. Amounts and prices are exact
    rationals; the source computes them in binary floating point. */
module Pricing {
  import opened Wrappers
  import opened Decimal
  import opened Chains

  /** 10 raised to an integer power (a negative exponent gives a fraction,
      as `pow(10, -2.0)` does). */
  function Pow10(e: int): (p: real)
    ensures p > 0.0
  {
    if e >= 0 then Pow10Nat(e) as real else 1.0 / Pow10Nat(-e) as real
  }

  /** A raw integer amount in whole units of an asset with `decimals`
      decimals. */
  function Scale(raw: int, decimals: int): (amount: real)
    ensures amount * Pow10(decimals) == raw as real
    ensures raw >= 0 ==> amount >= 0.0
  {
    raw as real / Pow10(decimals)
  }

  /** The exponents for which the source's `pow(10, d)` is a finite,
      non-zero double: above 308 the power overflows and raises, below -323
      it underflows to 0.0 and the division by it raises. */
  const MinDecimals := -323
  const MaxDecimals := 308

  predicate ScalableDecimals(d: int) {
    MinDecimals <= d <= MaxDecimals
  }

  /** How a unit price in USD is obtained. */
  datatype PriceSource =
    | UsdOracle8     // the subgraph's `priceInEth` is USD scaled by 10^8
    | EthOracle18    // `priceInEth` is ETH scaled by 10^18, divided by the session's usdPriceEth
    | PriceIndex     // looked up by symbol in a separate token-price subgraph

  /** The price source of a current reserve position: chains other than
      Ethereum, Polygon v2 and Optimism read the oracle as USD/10^8,
      Optimism asks the price index, Ethereum and Polygon v2 convert from
      ETH. */
  function ReservePriceSource(c: Chain): (src: PriceSource)
    ensures src == PriceIndex <==> c == Optimism
    ensures src == EthOracle18 <==> c == Ethereum || c == PolygonV2
    ensures src == UsdOracle8 <==> c !in {Ethereum, PolygonV2, Optimism}
  {
    if c != Ethereum && c != PolygonV2 && c != Optimism then UsdOracle8
    else if c == Optimism then PriceIndex
    else EthOracle18
  }

  /** The price source of a deposit, borrow, repay or withdraw event. The
      first guard leaves only Ethereum and Polygon v2 for the later
      branches, so the Optimism branch is never taken: only Ethereum and
      Polygon v2 convert from ETH, every other chain, Optimism included,
      reads the oracle as USD/10^8, and no chain asks the price index. */
  function EventPriceSource(c: Chain): (src: PriceSource)
    ensures src != PriceIndex
    ensures src == EthOracle18 <==> c == Ethereum || c == PolygonV2
    ensures c == Optimism ==> src == UsdOracle8
  {
    if c != Ethereum && c != PolygonV2 then UsdOracle8
    else if c == Optimism then PriceIndex
    else EthOracle18
  }

  /** The USD price of one whole unit of an asset. `priceInEth` is the
      subgraph's raw oracle price, `usdPriceEth` the session value and
      `indexPrice` the token-price subgraph's answer for the asset's symbol
      (None when it has no entry). None where the source raises: a missing
      oracle price, or a division by a zero session value. */
  function UnitPrice(src: PriceSource, priceInEth: Option<int>, usdPriceEth: real,
                     indexPrice: Option<real>): (p: Option<real>)
    ensures src == UsdOracle8 ==> (p.Some? <==> priceInEth.Some?)
    ensures src == EthOracle18 ==> (p.Some? <==> priceInEth.Some? && usdPriceEth != 0.0)
    ensures src == PriceIndex ==> p == indexPrice
  {
    match src
    case UsdOracle8 =>
      if priceInEth.None? then None else Some(Scale(priceInEth.value, 8))
    case EthOracle18 =>
      if priceInEth.None? || usdPriceEth == 0.0 then None
      else Some(Scale(priceInEth.value, 18) / usdPriceEth)
    case PriceIndex =>
      indexPrice
  }

  /** What an oracle price means: the unit price scaled back up by the
      oracle's factor (and, for ETH prices, by the session value) is the
      raw oracle price. */
  lemma UnitPriceRecoversOracle(src: PriceSource, priceInEth: Option<int>, usdPriceEth: real,
                                indexPrice: Option<real>)
    requires src != PriceIndex
    requires UnitPrice(src, priceInEth, usdPriceEth, indexPrice).Some?
    ensures var p := UnitPrice(src, priceInEth, usdPriceEth, indexPrice).value;
            && (src == UsdOracle8 ==> p * Pow10(8) == priceInEth.value as real)
            && (src == EthOracle18 ==> p * usdPriceEth * Pow10(18) == priceInEth.value as real)
  {
    if src == EthOracle18 {
      var s := Scale(priceInEth.value, 18);
      assert (s / usdPriceEth) * usdPriceEth == s;
    }
  }

  /** The USD value of `amount` whole units at unit price `p`. */
  function UsdValue(amount: real, p: real): (v: real)
    ensures amount == 0.0 || p == 0.0 ==> v == 0.0
    ensures amount >= 0.0 && p >= 0.0 ==> v >= 0.0
  {
    amount * p
  }

  /** Two amounts valued at one price keep the ratio of the amounts. */
  lemma SamePriceCrossProducts(a: real, b: real, p: real)
    ensures UsdValue(a, p) * b == UsdValue(b, p) * a
  {
    assert (a * p) * b == (b * p) * a;
  }
}
