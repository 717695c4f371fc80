/** The nine deployments of the lending protocol the dashboard knows, the
    subgraph endpoint and explorer prefixes of each, and the name under
    which each subgraph exposes a user's deposit history. */
module Chains {
  import opened Wrappers

  datatype Chain =
    | Ethereum
    | Optimism
    | Arbitrum
    | PolygonV3
    | PolygonV2
    | AvalancheV2
    | AvalancheV3
    | Harmony
    | Fantom

  /** The chain names the page offers in its select box, in its order. */
  const ChainOptions: seq<string> :=
    ["Ethereum", "Polygon v2", "Polygon v3", "Arbitrum", "Optimism",
     "Avalanche v2", "Avalanche v3", "Fantom", "Harmony"]

  /** The chain the page dispatches a chosen name to; None when no branch
      matches, and then nothing is fetched. */
  function ParseChain(s: string): (r: Option<Chain>)
    ensures r.Some? <==> s in ChainOptions
  {
    if s == "Ethereum" then Some(Ethereum)
    else if s == "Avalanche v2" then Some(AvalancheV2)
    else if s == "Avalanche v3" then Some(AvalancheV3)
    else if s == "Optimism" then Some(Optimism)
    else if s == "Polygon v3" then Some(PolygonV3)
    else if s == "Polygon v2" then Some(PolygonV2)
    else if s == "Harmony" then Some(Harmony)
    else if s == "Fantom" then Some(Fantom)
    else if s == "Arbitrum" then Some(Arbitrum)
    else None
  }

  /** The enumeration's value. It is offered in the select box and the
      dispatch takes it back to the same chain, so distinct chains have
      distinct values. */
  function ChainValue(c: Chain): (r: string)
    ensures r in ChainOptions
    ensures ParseChain(r) == Some(c)
  {
    match c
    case Ethereum => "Ethereum"
    case Optimism => "Optimism"
    case Arbitrum => "Arbitrum"
    case PolygonV3 => "Polygon v3"
    case PolygonV2 => "Polygon v2"
    case AvalancheV2 => "Avalanche v2"
    case AvalancheV3 => "Avalanche v3"
    case Harmony => "Harmony"
    case Fantom => "Fantom"
  }

  /** The dispatch picks, for each offered name, the chain whose value it
      is, and every offered name is the value of some chain. */
  lemma DispatchByValue(s: string)
    ensures ParseChain(s).Some? ==> ChainValue(ParseChain(s).value) == s
    ensures s in ChainOptions <==> exists c :: ChainValue(c) == s
  {
    if s in ChainOptions {
      assert ChainValue(ParseChain(s).value) == s;
    }
  }

  /** `[endpoint, address-explorer prefix, tx-explorer prefix]` of a chain. */
  function ChainInfo(c: Chain): (r: seq<string>)
    ensures |r| == 3
  {
    match c
    case AvalancheV2 =>
      ["https://api.thegraph.com/subgraphs/name/aave/protocol-v2-avalanche",
       "https://snowtrace.io/address/",
       "https://snowtrace.io/tx/"]
    case AvalancheV3 =>
      ["https://api.thegraph.com/subgraphs/name/aave/protocol-v3-avalanche",
       "https://snowtrace.io/address/",
       "https://snowtrace.io/tx/"]
    case Ethereum =>
      ["https://api.thegraph.com/subgraphs/name/aave/protocol-v2",
       "https://etherscan.io/address/",
       "https://etherscan.io/tx/"]
    case Optimism =>
      ["https://api.thegraph.com/subgraphs/name/aave/protocol-v3-optimism",
       "https://optimistic.etherscan.io/address/",
       "https://optimistic.etherscan.io/tx/"]
    case PolygonV3 =>
      ["https://api.thegraph.com/subgraphs/name/aave/protocol-v3-polygon",
       "https://polygonscan.com/address/",
       "https://polygonscan.com/tx/"]
    case PolygonV2 =>
      ["https://api.thegraph.com/subgraphs/name/aave/aave-v2-matic",
       "https://polygonscan.com/address/",
       "https://polygonscan.com/tx/"]
    case Harmony =>
      ["https://api.thegraph.com/subgraphs/name/aave/protocol-v3-harmony",
       "https://explorer.harmony.one/address/",
       "https://explorer.harmony.one/tx/"]
    case Fantom =>
      ["https://api.thegraph.com/subgraphs/name/aave/protocol-v3-fantom",
       "https://ftmscan.com/address/",
       "https://ftmscan.com/tx/"]
    case Arbitrum =>
      ["https://api.thegraph.com/subgraphs/name/aave/protocol-v3-arbitrum",
       "https://arbiscan.io/address/",
       "https://arbiscan.io/tx/"]
  }

  /** The two Avalanche deployments share one explorer, and so do the two
      Polygon deployments; every other pair of chains differs in its
      subgraph endpoint. */
  lemma SharedExplorers()
    ensures ChainInfo(AvalancheV2)[1..] == ChainInfo(AvalancheV3)[1..]
    ensures ChainInfo(PolygonV2)[1..] == ChainInfo(PolygonV3)[1..]
  {
  }

  lemma EndpointsDistinct(c1: Chain, c2: Chain)
    requires c1 != c2
    ensures ChainInfo(c1)[0] != ChainInfo(c2)[0]
  {
  }

  /** The explorer page of a user address on chain `c`. */
  function ExplorerUserAddress(userAddress: string, c: Chain): (url: string)
    ensures |url| == |ChainInfo(c)[1]| + |userAddress|
  {
    ChainInfo(c)[1] + userAddress
  }

  /** The explorer page of a transaction on chain `c`. */
  function ExplorerTransactionAddress(transactionAddress: string, c: Chain): (url: string)
    ensures |url| == |ChainInfo(c)[2]| + |transactionAddress|
  {
    ChainInfo(c)[2] + transactionAddress
  }

  /** What follows `prefix` in `url`, when `url` starts with it. */
  function StripPrefix(prefix: string, url: string): (r: Option<string>)
    ensures r.Some? <==> |prefix| <= |url| && url[..|prefix|] == prefix
    ensures r.Some? ==> url == prefix + r.value
  {
    if |prefix| <= |url| && url[..|prefix|] == prefix then Some(url[|prefix|..]) else None
  }

  /** Both explorer links keep the given address or hash unchanged behind
      the chain's prefix: stripping the prefix gives it back. */
  lemma ExplorerLinksRoundTrip(c: Chain, s: string)
    ensures StripPrefix(ChainInfo(c)[1], ExplorerUserAddress(s, c)) == Some(s)
    ensures StripPrefix(ChainInfo(c)[2], ExplorerTransactionAddress(s, c)) == Some(s)
  {
    var u, t := ExplorerUserAddress(s, c), ExplorerTransactionAddress(s, c);
    assert u[..|ChainInfo(c)[1]|] == ChainInfo(c)[1];
    assert u[|ChainInfo(c)[1]|..] == s;
    assert t[..|ChainInfo(c)[2]|] == ChainInfo(c)[2];
    assert t[|ChainInfo(c)[2]|..] == s;
  }

  /** The subgraph's protocol generation: 2 for the three markets whose
      endpoints name version 2, 3 for the rest. */
  function ProtocolVersion(c: Chain): nat {
    match c
    case Ethereum | PolygonV2 | AvalancheV2 => 2
    case _ => 3
  }

  /** The field holding a user's deposits in the chain's subgraph: version
      2 subgraphs call the event a deposit, version 3 subgraphs a supply. */
  function DepositField(c: Chain): (r: string)
    ensures r == "depositHistory" <==> ProtocolVersion(c) == 2
    ensures r == "supplyHistory" <==> ProtocolVersion(c) == 3
  {
    if c == Ethereum || c == AvalancheV2 || c == PolygonV2 then "depositHistory" else "supplyHistory"
  }
}
