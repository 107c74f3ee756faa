/**
 * `value` (index.ts, lines 202 and 240): the USD total of the token balances
 * and app balances above the threshold, and of nothing else.
 */
module ValueFacts {
  import opened Holdings
  import opened Aggregation
  import opened TraceFacts

  /** The amount an event adds to `value`. */
  function UsdOf(e: Event): seq<real> {
    if e.AddValue? then [e.usd] else []
  }

  /** Sum of `token.balanceUSD` over the token balances strictly above the threshold. */
  function AdmittedTokenUsd(tbs: seq<TokenBalance>, threshold: real): real
    decreases |tbs|
  {
    if tbs == [] then 0.0
    else
      var tb := tbs[|tbs| - 1];
      AdmittedTokenUsd(tbs[..|tbs| - 1], threshold) + (if tb.token.balanceUSD > threshold then tb.token.balanceUSD else 0.0)
  }

  /** Sum of `balanceUSD` over the app balances strictly above the threshold. */
  function AdmittedAppUsd(apps: seq<AppBalance>, threshold: real): real
    decreases |apps|
  {
    if apps == [] then 0.0
    else
      var app := apps[|apps| - 1];
      AdmittedAppUsd(apps[..|apps| - 1], threshold) + (if app.balanceUSD > threshold then app.balanceUSD else 0.0)
  }

  /** Only `value += ...` updates change `value`, each by its amount. */
  lemma {:induction false} ReplayValue(s: Summary, es: seq<Event>)
    ensures Replay(s, es).value == s.value + Sum(Collect(es, UsdOf))
    decreases |es|
  {
    if es != [] {
      ReplayValue(s, es[..|es| - 1]);
      SumAppend(Collect(es[..|es| - 1], UsdOf), UsdOf(es[|es| - 1]));
    }
  }

  /** The per-token updates of an app never touch `value` (asset and token USD amounts are not added). */
  lemma {:induction false} TokenEventsUsd(appName: string, tokens: seq<Token>)
    ensures Collect(TokenEvents(appName, tokens), UsdOf) == []
    decreases |tokens|
  {
    if tokens != [] {
      var t := tokens[|tokens| - 1];
      var pair := [SeeToken(t.symbol, t.price, t.balance), AddProductToken(appName, t.symbol, t.balance)];
      TokenEventsUsd(appName, tokens[..|tokens| - 1]);
      CollectAppend(TokenEvents(appName, tokens[..|tokens| - 1]), pair, UsdOf);
      CollectTwo(pair[0], pair[1], UsdOf);
    }
  }

  lemma {:induction false} TokenBalancesUsd(tbs: seq<TokenBalance>, threshold: real)
    ensures Sum(Collect(TokenBalancesEvents(tbs, threshold), UsdOf)) == AdmittedTokenUsd(tbs, threshold)
    decreases |tbs|
  {
    if tbs != [] {
      var init, tb := tbs[..|tbs| - 1], tbs[|tbs| - 1];
      TokenBalancesUsd(init, threshold);
      CollectAppend(TokenBalancesEvents(init, threshold), TokenBalanceEvents(tb, threshold), UsdOf);
      var own := Collect(TokenBalanceEvents(tb, threshold), UsdOf);
      SumAppend(Collect(TokenBalancesEvents(init, threshold), UsdOf), own);
      if tb.token.balanceUSD > threshold {
        var events := TokenBalanceEvents(tb, threshold);
        CollectThree(events[0], events[1], events[2], UsdOf);
        assert own == [tb.token.balanceUSD];
      }
    }
  }

  lemma {:induction false} AppBalancesUsd(apps: seq<AppBalance>, threshold: real)
    ensures Sum(Collect(AppBalancesEvents(apps, threshold), UsdOf)) == AdmittedAppUsd(apps, threshold)
    decreases |apps|
  {
    if apps != [] {
      var init, app := apps[..|apps| - 1], apps[|apps| - 1];
      var earlier := Collect(AppBalancesEvents(init, threshold), UsdOf);
      var own := Collect(AppBalanceEvents(app, threshold), UsdOf);
      assert Collect(AppBalancesEvents(apps, threshold), UsdOf) == earlier + own by {
        CollectAppend(AppBalancesEvents(init, threshold), AppBalanceEvents(app, threshold), UsdOf);
      }
      assert Sum(earlier + own) == Sum(earlier) + Sum(own) by {
        SumAppend(earlier, own);
      }
      assert Sum(earlier) == AdmittedAppUsd(init, threshold) by {
        AppBalancesUsd(init, threshold);
      }
      assert Sum(own) == if app.balanceUSD > threshold then app.balanceUSD else 0.0 by {
        if app.balanceUSD > threshold {
          AdmittedAppCollect(app, threshold, UsdOf);
          TokenEventsUsd(app.appName, ProductsTokens(app.products));
          assert own == [] + [] + [] + [] + [app.balanceUSD];
          assert own[..0] == [];
        }
      }
    }
  }


  /**
   * `value` is the sum of `token.balanceUSD` over the token balances above the
   * threshold plus the sum of `balanceUSD` over the app balances above it.
   */
  lemma ValueIsAdmittedTotal(p: Portfolio, threshold: real)
    ensures Aggregate(p, threshold).value
         == AdmittedTokenUsd(p.tokenBalances, threshold) + AdmittedAppUsd(p.appBalances, threshold)
  {
    var tokens, apps := TokenBalancesEvents(p.tokenBalances, threshold), AppBalancesEvents(p.appBalances, threshold);
    ReplayValue(Empty(), Trace(p, threshold));
    CollectAppend(tokens, apps, UsdOf);
    SumAppend(Collect(tokens, UsdOf), Collect(apps, UsdOf));
    TokenBalancesUsd(p.tokenBalances, threshold);
    AppBalancesUsd(p.appBalances, threshold);
  }
}
