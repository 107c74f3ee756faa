# networth: net-worth aggregation and argument parsing, in Dafny

This project models the logic of `index.ts` in the networth command-line tool.

`getNetWorth` folds a portfolio into one mutable `NetWorth` record. A portfolio has token balances, then app balances; each app balance holds products, each product holds assets, and each asset holds token entries. The record has:

- a running USD `value`;
- a de-duplicated `networks` list;
- `prices` and `balances` maps keyed by token symbol;
- a `products` map keyed by app name.

The model also covers the two helpers `updateNetworthNetworks` and `updateNetworthToken`, and the argument parser `getCommandLineArgs`.

The model has two layers.

- **Imperative.** Module `NetWorthBuilder` holds a class `NetWorth` with the record's five fields. Its methods update those fields in place. `GetNetWorth` runs the same loops as getNetWorth in index.ts. Each method is proved to perform a stated sequence of updates.
- **Specification.** Module `Aggregation` names each kind of in-place update as an `Event`. `Step` applies one event to a `Summary`, the record's value. `Trace` lists the events `getNetWorth` performs on a portfolio, in order. `Aggregate` replays that list from the empty record.
  - `GetNetWorth` ensures that its object's `Snapshot()` is `Aggregate(portfolio, threshold)`.
  - The modules `ValueFacts`, `NetworkFacts`, `PriceFacts`, `ProductFacts` and `ThresholdFacts` each prove what `Aggregate` computes for one field. Each compares it with an independent reference definition: sums over the admitted entries, first-occurrence de-duplication, and the calls that record a symbol's price.
  - `Scenarios` works out concrete portfolios.

JavaScript truthiness is written out as follows.

- A symbol has "no price yet" when its key is absent or its price is 0.
- A balance counts as truthy when it is non-zero.
- An empty symbol is falsy.
- Admission against the threshold is strictly greater-than.

The per-app token totals start an absent or zero entry at 0 and add the balance. They have no zero-balance guard and no empty-symbol guard.

**Balances are set once, not summed.** `balances[symbol]` is written only inside the branch that records a first price (index.ts:262-269), so a repeated symbol whose price is already non-zero never touches it. `RepeatedSymbolKeepsFirstBalance` shows two ETH balances of 1 and 2 giving `balances.ETH == 1`.

## Model

| member | source | states |
|---|---|---|
| NetWorthBuilder.NetWorth.constructor | index.ts:178-184 | the new record is empty: value 0, no networks, empty prices, balances and products |
| NetWorthBuilder.NetWorth.UpdateNetworks | index.ts:246-250 | the network is listed afterwards; it is appended exactly when it was absent; no other field changes |
| NetWorthBuilder.NetWorth.UpdateToken | index.ts:252-270 | an empty symbol changes nothing; a symbol whose price is already non-zero is frozen; otherwise the price is set, and the balance is set to `balance` when non-zero; value, networks and products never change |
| NetWorthBuilder.NetWorth.AddProductToken | index.ts:227-233 | `products[appName].tokens[symbol]` becomes its old amount (0 when absent) plus `amount`; no other key, entry or field changes |
| NetWorthBuilder.NetWorth.OpenProduct | index.ts:211-213 | afterwards `products[appName]` exists; it is the fresh entry `{value: 0, tokens: {}}` exactly when it was missing, and an existing entry is kept as it was; no other field changes |
| NetWorthBuilder.NetWorth.AddProductValue | index.ts:239 | `products[appName].value` grows by `usd`, its tokens and every other entry stay as they were, and no other field changes |
| NetWorthBuilder.NetWorth.AddValue | index.ts:202 | `value` grows by `usd` and no other field changes |
| NetWorthBuilder.GetNetWorth | index.ts:177-244 | the returned fresh record equals `Aggregate(portfolio, balanceThreshold)`, the replay of every update getNetWorth performs, in order |
| NetWorthBuilder.AddAppBalance | index.ts:211-240 | for an admitted app: creates the products entry if missing, runs the token updates of all its products, then records its network, adds its USD to the entry's value and to the total |
| NetWorthBuilder.AddProductsTokens | index.ts:215-236 | the three nested loops perform, for each token entry in order, the price/balance update and the per-app amount update of its effective token |
| TraceFacts.ProductsEventsFlat | index.ts:215-218 | the nested products/assets/tokens loops visit the effective tokens (the nested `token` if present, else the entry) in input order |
| ValueFacts.ValueIsAdmittedTotal | index.ts:187-241 | `value` is the sum of `token.balanceUSD` over token balances above the threshold plus the sum of `balanceUSD` over app balances above it; nothing else is added |
| ValueFacts.TokenBalancesUsd | index.ts:191-202 | the token-balance loop adds exactly the admitted token balances' USD amounts to `value` |
| ValueFacts.AppBalancesUsd | index.ts:207-240 | the app loop adds exactly the admitted apps' USD amounts to `value`; asset- and token-level amounts are never added |
| NetworkFacts.NetworksInFirstSeenOrder | index.ts:246-250 | `networks` is the list of the admitted entries' networks (token balances first, then apps) keeping only the first occurrence of each |
| NetworkFacts.NetworksDistinctAndComplete | index.ts:246-250 | every network of an admitted entry is listed, nothing else is, and no network is listed twice |
| NetworkFacts.FirstOccurrencesOrdered | index.ts:247-248 | the first-occurrence list has no duplicates and keeps first-seen order |
| PriceFacts.PricesFirstNonZeroWins | index.ts:258-264 | a non-empty symbol has a price exactly when some updateNetworthToken call names it, and that price is the first non-zero price given for it, or 0 when none is |
| PriceFacts.BalancesFromRecordingCalls | index.ts:262-268 | `balances[symbol]` exists exactly when a call that records the symbol's price has a non-zero balance, and then it is the last such balance; only priced symbols have a balance |
| PriceFacts.EmptySymbolNeverRecorded | index.ts:258-260 | the empty symbol never appears in `prices` or `balances` |
| PriceFacts.ReplaySettled | index.ts:262 | once a symbol holds a non-zero price, no later update changes its price or its balance |
| ProductFacts.ProductsOfAdmittedApps | index.ts:207-213 | `products` has an entry for a name exactly when an admitted app balance has that name; skipped apps create none |
| ProductFacts.ProductValueIsNamedTotal | index.ts:239 | `products[name].value` is the sum of `balanceUSD` over the admitted apps named `name`, so same-named apps merge |
| ProductFacts.ProductTokensAreNamedTotals | index.ts:217-233 | `products[name].tokens` has a key for every effective-token symbol of the admitted apps named `name`, the empty symbol included, mapped to the sum of those tokens' balances, zero balances included |
| ProductFacts.TokenBalancesTouchNoProduct | index.ts:187-203 | the token-balance loop never touches `products` |
| ThresholdFacts.FilteredEntriesContributeNothing | index.ts:191-209 | removing every entry at or below the threshold leaves the whole result unchanged |
| ThresholdFacts.SkippedTokenBalance | index.ts:191-193 | a token balance at or below the threshold, inserted anywhere, changes no field of the result |
| ThresholdFacts.SkippedAppBalance | index.ts:207-209 | an app balance at or below the threshold, inserted anywhere, changes no field, `products` included |
| Scenarios.SingleTokenBalance | index.ts:187-203 | one ETH balance (price 2000, balance 1.5, 3000 USD) at threshold 0 gives value 3000, networks [ETHEREUM_MAINNET], prices {ETH: 2000}, balances {ETH: 1.5}, no products |
| Scenarios.SmallAppSkipped | index.ts:207-209 | an app balance of 20 USD at threshold 500 leaves the record empty, with no products entry |
| Scenarios.RepeatedSymbolKeepsFirstBalance | index.ts:262-268 | two ETH balances of 1 and 2 give balances {ETH: 1}, not 3, with value 6000 and both networks in order |
| Scenarios.ZeroPriceOverwritten | index.ts:262-268 | a USDC price recorded as 0 is replaced by the next price 1, together with that call's balance 7 |
| Scenarios.SameNamedAppsShareEntry | index.ts:211-213 | two Aave apps of 1000 USD on two networks share one products entry worth 2000 and list both networks |
| CommandLine.GetCommandLineArgs | index.ts:299-328 | the loop over `argv.slice(2)` returns `ParseArguments`: the last value of each known key wins, the defaults are threshold 0 and folder "", and a missing address list or a bare `--addresses` is an error |
| CommandLine.Split | index.ts:305 | splitting yields at least one piece and no piece contains the separator |
| CommandLine.JoinSplit | index.ts:307 | joining the pieces of a split with the separator gives the original string back |
| CommandLine.SplitJoin | index.ts:307 | splitting the join of separator-free pieces gives the pieces back |
| CommandLine.ParseFailsIff | index.ts:304-325 | parsing fails exactly when an `--addresses` has no "=" or there is no `--addresses` at all; the second case alone is the missing-addresses error |
| CommandLine.ParsedAddresses | index.ts:306-308 | on success the address list is non-empty, comma-free, and joins back to the value of the last `--addresses` |
| CommandLine.UnknownArgumentIgnored | index.ts:304-317 | an argument whose key is none of the three known keys changes nothing, wherever it stands |
| CommandLine.LastOccurrenceWins | index.ts:304-317 | the last argument with a known key decides that key's setting |
| CommandLine.EmptyAddressValue | index.ts:300-327 | `--addresses=` is accepted and yields the single empty address, with threshold 0 and folder "" |
| CommandLine.ValueStopsAtSecondEquals | index.ts:305 | only the text between the first and second "=" is kept: `--dataFolder=a=b` names the folder "a" |

## Left out

- getPorfolio (index.ts:156-172): an HTTP request to the portfolio API and JSON decoding. This is network I/O, so the portfolio is a parameter of `GetNetWorth`.
- getQuery (index.ts:111-154): a fixed GraphQL request text. It only interpolates the addresses.
- main (index.ts:275-291): console printing, `JSON.stringify` and `fs.writeFile`. This is I/O and a library serializer.
- getFilename (index.ts:293-297): it reads the system clock.
- `console.error` and `process.exit(1)` (index.ts:320-324): the model returns `Err(MissingAddresses)` instead.
- The TypeError thrown by `value.split(",")` on a bare `--addresses` (index.ts:307): the model returns `Err(AddressesWithoutValue)` instead.
- Floating point: amounts are exact reals. Rounding, and the `NaN` that `Number(...)` gives for a malformed balance string (index.ts:224, index.ts:231), are not modelled.
  - A token entry's `balance` is taken as the already coerced number.
  - `Number(value)` for `--balanceThreshold` is the parameter `number` of `GetCommandLineArgs`.
- A missing `price` on a nested token is modelled as 0, which is falsy in the same way as `undefined`.
- JavaScript object keys inherited from `Object.prototype`, such as a symbol named "constructor", are not modelled. Maps here start empty.
- The `Network` union (index.ts:6-10) and the record fields getNetWorth never reads, such as addresses, keys, decimals and labels, are not modelled.
- A `products` entry missing when a token is added cannot happen: the entry is created just before (index.ts:211-213). `AddProductToken`, `AddProductValue` and `AddProductsTokens` therefore require the entry to exist.
- No display formatting, field selection, `--format`, `--only` or `--help` exists in `index.ts`, so none is modelled.
