/**
 * The records the portfolio API returns (index.ts, lines 13-84), reduced to the
 * fields the net-worth aggregation reads. Amounts are exact reals: the floating
 * point of index.ts and its `Number(...)` coercion of string balances are
 * not modelled, so a `Token.balance` here is the already coerced number.
 */
module Holdings {
  import opened Wrappers

  /** Market data of a fungible token. */
  datatype BaseToken = BaseToken(symbol: string, price: real)

  /** The `token` field of a TokenBalance. */
  datatype HeldToken = HeldToken(balance: real, balanceUSD: real, baseToken: BaseToken)

  /** A wallet-held balance of one token on one network. */
  datatype TokenBalance = TokenBalance(network: string, token: HeldToken)

  /** A constituent token of an asset; a missing price reads as 0. */
  datatype Token = Token(symbol: string, price: real, balance: real)

  /**
   * One entry of `Asset.tokens`: its own token fields, and, for wrapped
   * positions, a nested `token` that takes precedence.
   */
  datatype AssetToken = AssetToken(fields: Token, token: Option<Token>)

  datatype Asset = Asset(tokens: seq<AssetToken>)

  datatype Product = Product(assets: seq<Asset>)

  /** A position held through an application; `appName`, not `appId`, groups products. */
  datatype AppBalance = AppBalance(
    network: string,
    balanceUSD: real,
    appName: string,
    appId: string,
    products: seq<Product>)

  datatype Portfolio = Portfolio(tokenBalances: seq<TokenBalance>, appBalances: seq<AppBalance>)

  /** `token || assetToken`: the nested token when present, otherwise the entry's own fields. */
  function Effective(entry: AssetToken): Token {
    match entry.token
    case Some(nested) => nested
    case None => entry.fields
  }
}
