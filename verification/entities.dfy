/** The records the services exchange, and the price cache's shape. */
module Entities {
  import opened Wrappers

  const ZERO_ADDRESS := "0x0000000000000000000000000000000000000000"

  datatype NetworkDefinition = NetworkDefinition(
    chainID: nat,
    name: string,
    identifier: string,
    nativeSymbol: string,
    decimals: int,
    primaryRPCURL: string,
    fallbackRPCURLs: seq<string>,
    dexScreenerChainID: string,
    wrappedNativeTokenAddress: string)

  datatype TokenInfo = TokenInfo(chainID: nat, address: string, symbol: string, decimals: nat)

  /** A directory entry. */
  datatype DirEntry = DirEntry(name: string, isDir: bool)

  /** An int in the source: 0 asks for the native balance, 1 for a token's. */
  const NATIVE_BALANCE_REQUEST: int := 0
  const TOKEN_BALANCE_REQUEST: int := 1

  datatype BalanceRequestItem = BalanceRequestItem(
    id: string,
    kind: int,
    walletAddress: string,
    tokenAddress: string,
    tokenSymbol: string,
    tokenDecimals: nat)

  datatype BalanceResultItem = BalanceResultItem(
    requestID: string,
    walletAddress: string,
    tokenAddress: string,
    tokenSymbol: string,
    decimals: nat,
    isNative: bool,
    balance: Option<nat>,
    formattedBalance: string,
    error: Option<string>)

  datatype Balance = Balance(
    walletAddress: string,
    networkName: string,
    chainID: string,
    tokenAddress: string,
    tokenSymbol: string,
    decimals: nat,
    isNative: bool,
    amount: Option<nat>,
    formattedBalance: string)

  datatype PortfolioError = PortfolioError(
    walletAddress: string,
    networkName: string,
    chainID: string,
    tokenSymbol: string,
    tokenAddress: string,
    isNative: bool,
    message: string)

  /** What fetching a network's balances returns. */
  datatype Fetched = Fetched(balances: seq<Balance>, errors: seq<PortfolioError>)

  datatype TokenDetail = TokenDetail(
    tokenAddress: string,
    tokenSymbol: string,
    decimals: nat,
    formattedBalance: string,
    priceUSD: real,
    valueUSD: real)

  datatype NetworkTokens = NetworkTokens(chainID: string, tokens: seq<TokenDetail>, totalValueUSD: real)

  datatype WalletPortfolio = WalletPortfolio(
    walletAddress: string,
    balancesByNetwork: map<string, NetworkTokens>,
    totalValueUSD: real)

  /** Cached prices by DEXScreener chain, then by lower-case token address. */
  type PriceTable = map<string, map<string, real>>
}
