/**
 * The threshold filter (index.ts, lines 191-193 and 207-209): an entry whose
 * USD balance is at or below the threshold contributes nothing at all.
 */
module ThresholdFacts {
  import opened Holdings
  import opened Aggregation

  /** The token balances strictly above the threshold, in input order. */
  function AdmittedTokenBalances(tbs: seq<TokenBalance>, threshold: real): seq<TokenBalance>
    decreases |tbs|
  {
    if tbs == [] then []
    else
      var tb := tbs[|tbs| - 1];
      AdmittedTokenBalances(tbs[..|tbs| - 1], threshold) + (if tb.token.balanceUSD > threshold then [tb] else [])
  }

  /** The app balances strictly above the threshold, in input order. */
  function AdmittedAppBalances(apps: seq<AppBalance>, threshold: real): seq<AppBalance>
    decreases |apps|
  {
    if apps == [] then []
    else
      var app := apps[|apps| - 1];
      AdmittedAppBalances(apps[..|apps| - 1], threshold) + (if app.balanceUSD > threshold then [app] else [])
  }

  function AdmittedPortfolio(p: Portfolio, threshold: real): Portfolio {
    Portfolio(AdmittedTokenBalances(p.tokenBalances, threshold), AdmittedAppBalances(p.appBalances, threshold))
  }

  lemma {:induction false} AdmittedTokenBalancesAppend(xs: seq<TokenBalance>, ys: seq<TokenBalance>, threshold: real)
    ensures AdmittedTokenBalances(xs + ys, threshold)
         == AdmittedTokenBalances(xs, threshold) + AdmittedTokenBalances(ys, threshold)
    decreases |ys|
  {
    if ys == [] {
      assert xs + ys == xs;
    } else {
      assert (xs + ys)[..|xs + ys| - 1] == xs + ys[..|ys| - 1];
      AdmittedTokenBalancesAppend(xs, ys[..|ys| - 1], threshold);
    }
  }

  lemma {:induction false} AdmittedAppBalancesAppend(xs: seq<AppBalance>, ys: seq<AppBalance>, threshold: real)
    ensures AdmittedAppBalances(xs + ys, threshold)
         == AdmittedAppBalances(xs, threshold) + AdmittedAppBalances(ys, threshold)
    decreases |ys|
  {
    if ys == [] {
      assert xs + ys == xs;
    } else {
      assert (xs + ys)[..|xs + ys| - 1] == xs + ys[..|ys| - 1];
      AdmittedAppBalancesAppend(xs, ys[..|ys| - 1], threshold);
    }
  }

  lemma {:induction false} TokenBalancesEventsAppend(xs: seq<TokenBalance>, ys: seq<TokenBalance>, threshold: real)
    ensures TokenBalancesEvents(xs + ys, threshold) == TokenBalancesEvents(xs, threshold) + TokenBalancesEvents(ys, threshold)
    decreases |ys|
  {
    if ys == [] {
      assert xs + ys == xs;
    } else {
      var init, last := ys[..|ys| - 1], ys[|ys| - 1];
      assert (xs + ys)[..|xs + ys| - 1] == xs + init;
      assert (xs + ys)[|xs + ys| - 1] == last;
      TokenBalancesEventsAppend(xs, init, threshold);
      var own := TokenBalanceEvents(last, threshold);
      assert TokenBalancesEvents(xs + ys, threshold) == TokenBalancesEvents(xs + init, threshold) + own;
      assert TokenBalancesEvents(ys, threshold) == TokenBalancesEvents(init, threshold) + own;
      AppendAssociative(TokenBalancesEvents(xs, threshold), TokenBalancesEvents(init, threshold), own);
    }
  }

  lemma {:induction false} AppBalancesEventsAppend(xs: seq<AppBalance>, ys: seq<AppBalance>, threshold: real)
    ensures AppBalancesEvents(xs + ys, threshold) == AppBalancesEvents(xs, threshold) + AppBalancesEvents(ys, threshold)
    decreases |ys|
  {
    if ys == [] {
      assert xs + ys == xs;
    } else {
      var init, last := ys[..|ys| - 1], ys[|ys| - 1];
      assert (xs + ys)[..|xs + ys| - 1] == xs + init;
      assert (xs + ys)[|xs + ys| - 1] == last;
      AppBalancesEventsAppend(xs, init, threshold);
      var own := AppBalanceEvents(last, threshold);
      assert AppBalancesEvents(xs + ys, threshold) == AppBalancesEvents(xs + init, threshold) + own;
      assert AppBalancesEvents(ys, threshold) == AppBalancesEvents(init, threshold) + own;
      AppendAssociative(AppBalancesEvents(xs, threshold), AppBalancesEvents(init, threshold), own);
    }
  }

  lemma {:induction false} AdmittedTokenBalancesEvents(tbs: seq<TokenBalance>, threshold: real)
    ensures TokenBalancesEvents(AdmittedTokenBalances(tbs, threshold), threshold) == TokenBalancesEvents(tbs, threshold)
    decreases |tbs|
  {
    if tbs != [] {
      var init, tb := tbs[..|tbs| - 1], tbs[|tbs| - 1];
      AdmittedTokenBalancesEvents(init, threshold);
      var kept := if tb.token.balanceUSD > threshold then [tb] else [];
      TokenBalancesEventsAppend(AdmittedTokenBalances(init, threshold), kept, threshold);
      if kept == [tb] {
        assert [tb][..0] == [];
      }
    }
  }

  lemma {:induction false} AdmittedAppBalancesEvents(apps: seq<AppBalance>, threshold: real)
    ensures AppBalancesEvents(AdmittedAppBalances(apps, threshold), threshold) == AppBalancesEvents(apps, threshold)
    decreases |apps|
  {
    if apps != [] {
      var init, app := apps[..|apps| - 1], apps[|apps| - 1];
      AdmittedAppBalancesEvents(init, threshold);
      var kept := if app.balanceUSD > threshold then [app] else [];
      AppBalancesEventsAppend(AdmittedAppBalances(init, threshold), kept, threshold);
      if kept == [app] {
        assert [app][..0] == [];
      }
    }
  }

  /** Dropping every entry at or below the threshold does not change the result. */
  lemma FilteredEntriesContributeNothing(p: Portfolio, threshold: real)
    ensures Aggregate(AdmittedPortfolio(p, threshold), threshold) == Aggregate(p, threshold)
  {
    AdmittedTokenBalancesEvents(p.tokenBalances, threshold);
    AdmittedAppBalancesEvents(p.appBalances, threshold);
  }

  /** A token balance at or below the threshold, wherever it stands, changes nothing. */
  lemma SkippedTokenBalance(before: seq<TokenBalance>, tb: TokenBalance, after: seq<TokenBalance>,
                            apps: seq<AppBalance>, threshold: real)
    requires tb.token.balanceUSD <= threshold
    ensures Aggregate(Portfolio(before + [tb] + after, apps), threshold)
         == Aggregate(Portfolio(before + after, apps), threshold)
  {
    TokenBalancesEventsAppend(before + [tb], after, threshold);
    TokenBalancesEventsAppend(before, [tb], threshold);
    TokenBalancesEventsAppend(before, after, threshold);
    assert [tb][..0] == [];
    assert TokenBalancesEvents([tb], threshold) == [];
    assert TokenBalancesEvents(before + [tb], threshold) == TokenBalancesEvents(before, threshold);
  }

  /** An app balance at or below the threshold, wherever it stands, changes nothing, in `products` either. */
  lemma SkippedAppBalance(tbs: seq<TokenBalance>, before: seq<AppBalance>, app: AppBalance, after: seq<AppBalance>,
                          threshold: real)
    requires app.balanceUSD <= threshold
    ensures Aggregate(Portfolio(tbs, before + [app] + after), threshold)
         == Aggregate(Portfolio(tbs, before + after), threshold)
  {
    AppBalancesEventsAppend(before + [app], after, threshold);
    AppBalancesEventsAppend(before, [app], threshold);
    AppBalancesEventsAppend(before, after, threshold);
    assert [app][..0] == [];
    assert AppBalancesEvents([app], threshold) == [];
    assert AppBalancesEvents(before + [app], threshold) == AppBalancesEvents(before, threshold);
  }
}
