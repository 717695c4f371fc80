# Aave user dashboard: normalisation and valuation core

A model in Dafny of the part of the Aave user dashboard (`main.py`) that turns
a user's raw records from one of nine Aave subgraphs into uniform records:
current reserve positions and the deposit, borrow, repay and withdraw
histories, with amounts scaled by each asset's own decimals and valued in USD
by one of three chain-dependent price sources.

Modules, one per concern of `main.py`:

- `Chains` (`chains.dfy`): the `Chain` enumeration and its values, the page's
  dispatch from the chosen select-box option to a chain, the table
  of subgraph endpoint and explorer prefixes (`get_chain_info`), the two
  explorer link builders, and the choice of the deposit history field.
- `Pricing` (`pricing.dfy`): decimal scaling, the price source of a reserve
  and of an event on each chain, and the unit price each source yields.
- `Calendar` (`calendar.dfy`): the UTC date of a unix timestamp and its
  `YYYY/MM/DD` label, on proleptic Gregorian ordinals.
- `Normalize` (`normalize.dfy`): one reserve position and one event
  (the bodies of the loops of `clean_reserves` and `clean_deposits`), and the
  two loops themselves as methods.
- `Fetch` (`fetch.dfy`): the all-or-nothing try block of `fetch_data`.
- `TypeNames` (`typename.dfy`): `get_type_name`.
- `Decimal` and `Wrappers`: powers of ten, digit strings, `Option`.

The chain is passed explicitly; the source reads it from the global
`selected_chain`, which the page sets to the same chain it passes to
`fetch_data` (main.py:410-453). The session's `usdPriceEth` is a `real`
parameter, and the token-price subgraph used on Optimism is a parameter
`symbolPrice: string -> Option<real>` (None when its answer has no token).
A numeric raw field that is missing, null or not a number is `None`; the
source raises there, and `fetch_data` turns every exception raised inside
its try block (main.py:222-237) into `False`, modelled as `None`. A
reserve's symbol is only copied: a null symbol is kept (a `Symbol` value
`Null`; on Optimism the token-price query then asks for the text `None`),
and only a symbol key left out raises. Decimals outside -323..308
raise as well, because `pow(10, d)` overflows above that range and
underflows to 0.0 below it, and the amount is divided by it.

Behaviour of the code worth knowing, which the model keeps:

- On Ethereum and Polygon v2 the unit price is `priceInEth / 10^18` divided
  by the session's `usdPriceEth` (main.py:110, 132). That value is the
  price of one US dollar in ETH, so dividing by it converts ETH to USD; it is
  not the price of one ETH in USD, by which one would multiply.
- The event price guard (main.py:127) lets only Ethereum and Polygon v2 past
  its first branch, so the Optimism branch (main.py:129-130) is dead: events
  on Optimism are priced at `priceInEth / 10^8`, while reserves on Optimism
  use the token-price subgraph.
- Every failure inside the try block, an absent user included, gives the
  same `False`: the code does not tell "user not found" from a malformed
  record, a missing price or a division by a zero session value.

## Model

| member | source | states |
|---|---|---|
| `Chains.ParseChain` | main.py:397-453 | the page dispatches a chosen name to a chain exactly when the name is one of the nine select-box options |
| `Chains.ChainValue` | main.py:14-23 | every enumeration value is a select-box option and is dispatched back to its own chain, so the nine values are distinct |
| `Chains.DispatchByValue` | main.py:397-453 | the dispatch sends each option to the chain whose value it is, and the options are exactly the nine values |
| `Chains.ChainInfo` | main.py:26-71 | every one of the nine chains has an entry of exactly three strings |
| `Chains.SharedExplorers` | main.py:27-56 | Avalanche v2 and v3 share both explorer prefixes, and so do Polygon v2 and v3 |
| `Chains.EndpointsDistinct` | main.py:26-71 | no two chains share a subgraph endpoint |
| `Chains.ExplorerUserAddress` | main.py:246-247 | the link is the address prefix (entry 1) followed by the address, in length |
| `Chains.ExplorerTransactionAddress` | main.py:250-251 | the link is the transaction prefix (entry 2) followed by the hash, in length |
| `Chains.ExplorerLinksRoundTrip` | main.py:246-251 | both links start with the chain's entry 1 or 2, and removing it gives back the address or hash unchanged |
| `Chains.DepositField` | main.py:159-160 | the field is `depositHistory` exactly for the v2 subgraphs (Ethereum, Avalanche v2, Polygon v2) and `supplyHistory` for the six others |
| `Pricing.Scale` | main.py:102-103 | a scaled amount times 10^decimals is the raw integer; non-negative raw gives non-negative amount |
| `Pricing.UnitPrice` | main.py:105-110 | which inputs each source needs: the USD/10^8 oracle fails exactly when the raw price is missing, the ETH oracle also on a zero session value, the index gives its own answer |
| `Pricing.UnitPriceRecoversOracle` | main.py:105-110 | an oracle price times 10^8, or times usdPriceEth and 10^18 on the ETH oracle, is the raw `priceInEth` again |
| `Pricing.ReservePriceSource` | main.py:104-110 | reserves use the index exactly on Optimism, the ETH oracle exactly on Ethereum and Polygon v2, the USD/10^8 oracle on the six others |
| `Pricing.EventPriceSource` | main.py:127-132 | events never use the index; the ETH oracle exactly on Ethereum and Polygon v2; Optimism uses the USD/10^8 oracle |
| `Calendar.FromOrdinal` | main.py:122-123 | the date computed for a day number is a valid Gregorian date with that day number |
| `Calendar.OrdinalInjective` | main.py:122-123 | distinct valid dates have distinct day numbers |
| `Calendar.FromOrdinalOfToOrdinal` | main.py:122-123 | every valid date is recovered from its day number |
| `Calendar.DateOfIsTheCalendarDay` | main.py:122 | the date of a timestamp is the one valid date in years 1-9999 whose day number is the timestamp's UTC day since 1970-01-01 |
| `Calendar.DateOfDefinedExactly` | main.py:122-123 | the conversion succeeds exactly for timestamps from 0001-01-01 to 9999-12-31 UTC |
| `Calendar.EpochIsJanuaryFirst1970` | main.py:122 | day 0 of unix time is 1970-01-01 |
| `Calendar.DateOf` | main.py:122 | a date found for a timestamp is a valid date of years 1-9999 whose day number is the timestamp's UTC day since 1970-01-01 |
| `Calendar.FormatDate` | main.py:123 | a label has ten characters, `/` at positions 4 and 7 and a decimal digit everywhere else |
| `Calendar.FormatDateRoundTrip` | main.py:123 | a `YYYY/MM/DD` label reads back as its date |
| `Calendar.DayLabel` | main.py:123 | a label exists exactly when the date does, has ten characters with `/` at positions 4 and 7 and a decimal digit everywhere else, and reads back as that date |
| `Calendar.FormatDateInjective` | main.py:123 | distinct dates get distinct labels |
| `Calendar.DateOfGroupsByDay` | main.py:122 | two timestamps get the same date exactly when they fall on the same UTC day |
| `Calendar.DayLabelGroupsByDay` | main.py:123 | two timestamps get the same `str_date` exactly when they fall on the same UTC day |
| `Calendar.DayLabelExample` | main.py:122-123 | timestamp 1700000000 is labelled `2023/11/14` |
| `Normalize.NormalizeReserve` | main.py:98-114 | a position fails exactly when a field it reads is missing, its decimals leave -323..308 or its price is missing; otherwise symbol (null included) and decimals are copied, amount and debt are the raw values scaled by the asset's own decimals, and both are valued at the same unit price |
| `Normalize.NormalizeEvent` | main.py:120-135 | an event fails exactly when a field is missing, its decimals leave -323..308, its day label or its price is missing; otherwise it keeps the timestamp and the symbol (null included), carries the UTC day label, scales the amount by the asset's own decimals and values it at the unit price |
| `Normalize.CleanReserves` | main.py:96-115 | one cleaned position per raw position, in input order, or failure exactly when some position fails |
| `Normalize.CleanDeposits` | main.py:118-136 | one cleaned event per raw event, in input order, or failure exactly when some event fails |
| `Normalize.PositionValuedAtOnePrice` | main.py:112-113 | amount_usd / amount equals debt_usd / debt: one unit price values both |
| `Normalize.ReserveByChain` | main.py:104-113 | per chain, when a readable position succeeds and at which price: Optimism needs only the index and ignores the oracle, Ethereum and Polygon v2 need the oracle and a non-zero session value, the rest need the oracle |
| `Normalize.EventByChain` | main.py:127-134 | per chain, when a readable event succeeds and at which price: the ETH conversion on Ethereum and Polygon v2, USD/10^8 on all seven others |
| `Normalize.EventIgnoresPriceIndex` | main.py:127-130 | a cleaned event never depends on the token-price index |
| `Normalize.PositionNonNegative` | main.py:102-113 | non-negative raw balance, debt and price give non-negative amounts and values |
| `Normalize.NullSymbolKeptExample` | main.py:100 | an Arbitrum reserve with a null symbol is still cleaned and keeps the null symbol |
| `Normalize.DaiOnEthereumExample` | main.py:100-113 | 5 DAI at priceInEth 5*10^14 with usdPriceEth 1/1800 on Ethereum is amount 5.0 worth 4.5 USD |
| `Fetch.FetchData` | main.py:222-239 | a snapshot exists exactly when there is a first user with all five lists, deposits read from the chain's own field, and every record cleans; it then holds the five cleaned lists in the order reserves, deposits, borrows, repays, withdraws |
| `TypeNames.Capitalize` | main.py:243 | same length, same letters ignoring case, first character not lower case, the rest not upper case |
| `TypeNames.CapitalizeIdempotent` | main.py:243 | capitalising twice is capitalising once |
| `TypeNames.TypeName` | main.py:242-243 | the name less its last character, capitalised |
| `TypeNames.TypeNameDeposit` | main.py:242-243 | `deposits` becomes `Deposit` |
| `TypeNames.TypeNameLiquidate` | main.py:242-243 | `liquidates` becomes `Liquidate` |

## Left out

- The Streamlit page: configuration, the About expander, the address input, the submit button and the footer (main.py:10-11, 278-286, 393-476). Presentation only. The mapping from the chosen select-box option to a chain is modelled (`ParseChain`); what each branch then does, calling `fetch_data` and `generate_supply_charts` (main.py:410-453), is not.
- The `st.warning("user not found")` that `fetch_data` shows before returning `False` (main.py:236): a message on the page, with no effect on the result.
- Chart building in `generate_supply_charts` (main.py:289-389): pandas and plotly rendering.
- HTTP and GraphQL transport: the posts in `fetch_asset_price`, `fetch_eth_price` and `fetch_data`, the query text and the lower-casing of the address in it (main.py:74-93, 139-150, 161-221). This includes `res["data"]` at main.py:221, which runs before the try block: a reply without `data` raises out of `fetch_data` instead of returning `False`. The token-price lookup and the session ETH value are inputs; an answer with no token is `None`.
- The conversion `int(usdPriceEth) / 10^18` of the ETH oracle's answer (main.py:150): the session value is taken as given.
- The six-hour `st.cache` of `fetch_data` and the once-per-session initialisation of `usdPriceEth` (main.py:153-157): their behaviour lives in Streamlit, which is not part of this model.
- `clean_data` (main.py:254-275): never called, and its `Time` field depends on the machine's local time zone.
- Floating point: amounts, prices and values are exact rationals; IEEE rounding is not modelled.
- Normalize.NormalizeReserve, Normalize.NormalizeEvent: decimals are whole numbers; a fractional `decimals` string, which `float()` accepts, is not modelled, because the subgraph sends decimals as integers.
- Parsing of the subgraph's numeric strings by `float()` and `int()`: raw numbers arrive already converted, and a string that does not convert is an absent field.
- A history list that is null is represented as a missing key of the user entry; both fail alike.
- The token-price lookup is a pure function of the symbol: repeated lookups of one symbol give one answer, and the request it sends for each Optimism reserve is not modelled.
- Calendar.FormatDate: years below 1000 are zero-padded to four digits; some C libraries print them unpadded. Timestamps of the subgraphs lie far above that range.
- TypeNames.Capitalize: case mapping covers ASCII letters only; Python's `str.capitalize` maps all of Unicode.
