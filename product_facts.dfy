/**
 * `products` (index.ts, lines 207-239): one entry per admitted app name,
 * whose `value` totals those apps' USD balances and whose `tokens` total the
 * balances of their effective tokens per symbol, with no zero-balance and no
 * empty-symbol guard.
 */
module ProductFacts {
  import opened Holdings
  import opened Aggregation
  import opened TraceFacts

  /** The app name an event touches in `products`. */
  function ProductNameOf(e: Event): seq<string> {
    match e
    case OpenProduct(appName) => [appName]
    case AddProductToken(appName, _, _) => [appName]
    case AddProductValue(appName, _) => [appName]
    case _ => []
  }

  /** The amount an event adds to `products[appName].value`. */
  function ProductValueOf(appName: string): Event -> seq<real> {
    (e: Event) => if e.AddProductValue? && e.appName == appName then [e.usd] else []
  }

  /** The amount an event adds to `products[appName].tokens[symbol]`. */
  function ProductAmountOf(appName: string, symbol: string): Event -> seq<real> {
    (e: Event) => if e.AddProductToken? && e.appName == appName && e.symbol == symbol then [e.amount] else []
  }

  /** The symbol an event adds to `products[appName].tokens`. */
  function ProductSymbolOf(appName: string): Event -> seq<string> {
    (e: Event) => if e.AddProductToken? && e.appName == appName then [e.symbol] else []
  }

  /** One update changes one product entry by exactly what the projections above say. */
  lemma StepProducts(r: Summary, e: Event, appName: string, symbol: string)
    ensures var t := Step(r, e);
            && (appName in t.products <==> appName in r.products || appName in ProductNameOf(e))
            && Entry(t, appName).value == Entry(r, appName).value + Sum(ProductValueOf(appName)(e))
            && (symbol in Entry(t, appName).tokens <==>
                  symbol in Entry(r, appName).tokens || symbol in ProductSymbolOf(appName)(e))
            && AmountOr0(Entry(t, appName).tokens, symbol)
               == AmountOr0(Entry(r, appName).tokens, symbol) + Sum(ProductAmountOf(appName, symbol)(e))
  {
    assert Sum([]) == 0.0;
    if e.AddProductValue? && e.appName == appName {
      assert Sum([e.usd]) == e.usd by { assert [e.usd][..0] == []; }
    }
    if e.AddProductToken? && e.appName == appName && e.symbol == symbol {
      assert Sum([e.amount]) == e.amount by { assert [e.amount][..0] == []; }
    }
  }

  /** What replaying `es` does to one product entry and one of its symbols. */
  lemma {:induction false} ReplayProducts(s: Summary, es: seq<Event>, appName: string, symbol: string)
    ensures var r := Replay(s, es);
            && (appName in r.products <==> appName in s.products || appName in Collect(es, ProductNameOf))
            && Entry(r, appName).value == Entry(s, appName).value + Sum(Collect(es, ProductValueOf(appName)))
            && (symbol in Entry(r, appName).tokens <==>
                  symbol in Entry(s, appName).tokens || symbol in Collect(es, ProductSymbolOf(appName)))
            && AmountOr0(Entry(r, appName).tokens, symbol)
               == AmountOr0(Entry(s, appName).tokens, symbol) + Sum(Collect(es, ProductAmountOf(appName, symbol)))
    decreases |es|
  {
    if es != [] {
      var init, e := es[..|es| - 1], es[|es| - 1];
      ReplayProducts(s, init, appName, symbol);
      StepProducts(Replay(s, init), e, appName, symbol);
      SumAppend(Collect(init, ProductValueOf(appName)), ProductValueOf(appName)(e));
      SumAppend(Collect(init, ProductAmountOf(appName, symbol)), ProductAmountOf(appName, symbol)(e));
    }
  }

  /** The names of the admitted app balances, in input order. */
  function AdmittedAppNames(apps: seq<AppBalance>, threshold: real): seq<string>
    decreases |apps|
  {
    if apps == [] then []
    else
      var app := apps[|apps| - 1];
      AdmittedAppNames(apps[..|apps| - 1], threshold) + (if app.balanceUSD > threshold then [app.appName] else [])
  }

  /** Sum of `balanceUSD` over the admitted app balances named `appName`. */
  function NamedAppUsd(appName: string, apps: seq<AppBalance>, threshold: real): real
    decreases |apps|
  {
    if apps == [] then 0.0
    else
      var app := apps[|apps| - 1];
      NamedAppUsd(appName, apps[..|apps| - 1], threshold)
      + (if app.balanceUSD > threshold && app.appName == appName then app.balanceUSD else 0.0)
  }

  /** Sum of the balances of the tokens with symbol `symbol`. */
  function SymbolAmount(symbol: string, tokens: seq<Token>): real
    decreases |tokens|
  {
    if tokens == [] then 0.0
    else
      var t := tokens[|tokens| - 1];
      SymbolAmount(symbol, tokens[..|tokens| - 1]) + (if t.symbol == symbol then t.balance else 0.0)
  }

  /** The symbols of `tokens`, in order, repeats included. */
  function Symbols(tokens: seq<Token>): seq<string>
    decreases |tokens|
  {
    if tokens == [] then [] else Symbols(tokens[..|tokens| - 1]) + [tokens[|tokens| - 1].symbol]
  }

  /** Per symbol, the balances of the effective tokens of the admitted apps named `appName`, summed. */
  function NamedAppAmount(appName: string, symbol: string, apps: seq<AppBalance>, threshold: real): real
    decreases |apps|
  {
    if apps == [] then 0.0
    else
      var app := apps[|apps| - 1];
      NamedAppAmount(appName, symbol, apps[..|apps| - 1], threshold)
      + (if app.balanceUSD > threshold && app.appName == appName then SymbolAmount(symbol, ProductsTokens(app.products)) else 0.0)
  }

  /** The symbols of the effective tokens of the admitted apps named `appName`. */
  function NamedAppSymbols(appName: string, apps: seq<AppBalance>, threshold: real): seq<string>
    decreases |apps|
  {
    if apps == [] then []
    else
      var app := apps[|apps| - 1];
      NamedAppSymbols(appName, apps[..|apps| - 1], threshold)
      + (if app.balanceUSD > threshold && app.appName == appName then Symbols(ProductsTokens(app.products)) else [])
  }

  /** Token balances never touch `products`. */
  lemma {:induction false} TokenBalancesTouchNoProduct(tbs: seq<TokenBalance>, threshold: real, appName: string, symbol: string)
    ensures Collect(TokenBalancesEvents(tbs, threshold), ProductNameOf) == []
    ensures Collect(TokenBalancesEvents(tbs, threshold), ProductValueOf(appName)) == []
    ensures Collect(TokenBalancesEvents(tbs, threshold), ProductAmountOf(appName, symbol)) == []
    ensures Collect(TokenBalancesEvents(tbs, threshold), ProductSymbolOf(appName)) == []
    decreases |tbs|
  {
    if tbs != [] {
      var init, tb := tbs[..|tbs| - 1], tbs[|tbs| - 1];
      var es := TokenBalanceEvents(tb, threshold);
      TokenBalancesTouchNoProduct(init, threshold, appName, symbol);
      CollectAppend(TokenBalancesEvents(init, threshold), es, ProductNameOf);
      CollectAppend(TokenBalancesEvents(init, threshold), es, ProductValueOf(appName));
      CollectAppend(TokenBalancesEvents(init, threshold), es, ProductAmountOf(appName, symbol));
      CollectAppend(TokenBalancesEvents(init, threshold), es, ProductSymbolOf(appName));
      if tb.token.balanceUSD > threshold {
        CollectThree(es[0], es[1], es[2], ProductNameOf);
        CollectThree(es[0], es[1], es[2], ProductValueOf(appName));
        CollectThree(es[0], es[1], es[2], ProductAmountOf(appName, symbol));
        CollectThree(es[0], es[1], es[2], ProductSymbolOf(appName));
      }
    }
  }

  /** The per-token updates of an app touch only its own entry. */
  lemma {:induction false} TokenEventsNames(name: string, tokens: seq<Token>)
    ensures forall x :: x in Collect(TokenEvents(name, tokens), ProductNameOf) ==> x == name
    decreases |tokens|
  {
    if tokens != [] {
      var init, t := tokens[..|tokens| - 1], tokens[|tokens| - 1];
      assert tokens == init + [t];
      TokenEventsNames(name, init);
      TokenEventsCollectSnoc(name, init, t, ProductNameOf);
    }
  }

  lemma {:induction false} TokenEventsValue(name: string, tokens: seq<Token>, appName: string)
    ensures Collect(TokenEvents(name, tokens), ProductValueOf(appName)) == []
    decreases |tokens|
  {
    if tokens != [] {
      var init, t := tokens[..|tokens| - 1], tokens[|tokens| - 1];
      assert tokens == init + [t];
      TokenEventsValue(name, init, appName);
      TokenEventsCollectSnoc(name, init, t, ProductValueOf(appName));
    }
  }

  /** Every effective token adds its balance, zero or not, whatever its symbol. */
  lemma {:induction false} TokenEventsAmount(name: string, tokens: seq<Token>, appName: string, symbol: string)
    ensures Sum(Collect(TokenEvents(name, tokens), ProductAmountOf(appName, symbol)))
         == if name == appName then SymbolAmount(symbol, tokens) else 0.0
    decreases |tokens|
  {
    if tokens != [] {
      var init, t := tokens[..|tokens| - 1], tokens[|tokens| - 1];
      var f := ProductAmountOf(appName, symbol);
      var earlier := Collect(TokenEvents(name, init), f);
      var amounts := f(AddProductToken(name, t.symbol, t.balance));
      var own := if name == appName && t.symbol == symbol then t.balance else 0.0;
      assert Collect(TokenEvents(name, tokens), f) == earlier + amounts by {
        assert tokens == init + [t];
        TokenEventsCollectSnoc(name, init, t, f);
        assert f(SeeToken(t.symbol, t.price, t.balance)) == [];
        assert earlier + [] == earlier;
      }
      assert Sum(earlier + amounts) == Sum(earlier) + Sum(amounts) by {
        SumAppend(earlier, amounts);
      }
      assert Sum(earlier) == if name == appName then SymbolAmount(symbol, init) else 0.0 by {
        TokenEventsAmount(name, init, appName, symbol);
      }
      assert Sum(amounts) == own by {
        if amounts != [] {
          assert amounts == [t.balance] && amounts[..0] == [];
        }
      }
      assert SymbolAmount(symbol, tokens) == SymbolAmount(symbol, init) + (if t.symbol == symbol then t.balance else 0.0);
    }
  }

  lemma {:induction false} TokenEventsSymbols(name: string, tokens: seq<Token>, appName: string)
    ensures Collect(TokenEvents(name, tokens), ProductSymbolOf(appName)) == if name == appName then Symbols(tokens) else []
    decreases |tokens|
  {
    if tokens != [] {
      var init, t := tokens[..|tokens| - 1], tokens[|tokens| - 1];
      assert tokens == init + [t];
      TokenEventsSymbols(name, init, appName);
      TokenEventsCollectSnoc(name, init, t, ProductSymbolOf(appName));
    }
  }

  /** What one app balance contributes to the entry `products[appName]`. */
  lemma AppBalanceProducts(app: AppBalance, threshold: real, appName: string, symbol: string)
    ensures var es, admitted := AppBalanceEvents(app, threshold), app.balanceUSD > threshold;
            && (forall x :: x in Collect(es, ProductNameOf) <==> admitted && x == app.appName)
            && Sum(Collect(es, ProductValueOf(appName)))
               == (if admitted && app.appName == appName then app.balanceUSD else 0.0)
            && Sum(Collect(es, ProductAmountOf(appName, symbol)))
               == (if admitted && app.appName == appName then SymbolAmount(symbol, ProductsTokens(app.products)) else 0.0)
            && Collect(es, ProductSymbolOf(appName))
               == (if admitted && app.appName == appName then Symbols(ProductsTokens(app.products)) else [])
  {
    if app.balanceUSD > threshold {
      AppBalanceNames(app, threshold);
      AppBalanceValue(app, threshold, appName);
      AppBalanceAmount(app, threshold, appName, symbol);
      AppBalanceSymbols(app, threshold, appName);
    } else {
      assert Sum([]) == 0.0;
    }
  }

  lemma AppBalanceNames(app: AppBalance, threshold: real)
    requires app.balanceUSD > threshold
    ensures forall x :: x in Collect(AppBalanceEvents(app, threshold), ProductNameOf) <==> x == app.appName
  {
    AdmittedAppCollect(app, threshold, ProductNameOf);
    TokenEventsNames(app.appName, ProductsTokens(app.products));
  }

  lemma AppBalanceValue(app: AppBalance, threshold: real, appName: string)
    requires app.balanceUSD > threshold
    ensures Sum(Collect(AppBalanceEvents(app, threshold), ProductValueOf(appName)))
         == if app.appName == appName then app.balanceUSD else 0.0
  {
    AdmittedAppCollect(app, threshold, ProductValueOf(appName));
    TokenEventsValue(app.appName, ProductsTokens(app.products), appName);
    var values := Collect(AppBalanceEvents(app, threshold), ProductValueOf(appName));
    if app.appName == appName {
      assert values == [app.balanceUSD];
      assert Sum(values) == app.balanceUSD by { assert values[..0] == []; }
    } else {
      assert values == [];
    }
  }

  lemma AppBalanceAmount(app: AppBalance, threshold: real, appName: string, symbol: string)
    requires app.balanceUSD > threshold
    ensures Sum(Collect(AppBalanceEvents(app, threshold), ProductAmountOf(appName, symbol)))
         == if app.appName == appName then SymbolAmount(symbol, ProductsTokens(app.products)) else 0.0
  {
    AdmittedAppCollect(app, threshold, ProductAmountOf(appName, symbol));
    TokenEventsAmount(app.appName, ProductsTokens(app.products), appName, symbol);
    var middle := Collect(TokenEvents(app.appName, ProductsTokens(app.products)), ProductAmountOf(appName, symbol));
    assert Collect(AppBalanceEvents(app, threshold), ProductAmountOf(appName, symbol)) == middle;
  }

  lemma AppBalanceSymbols(app: AppBalance, threshold: real, appName: string)
    requires app.balanceUSD > threshold
    ensures Collect(AppBalanceEvents(app, threshold), ProductSymbolOf(appName))
         == if app.appName == appName then Symbols(ProductsTokens(app.products)) else []
  {
    AdmittedAppCollect(app, threshold, ProductSymbolOf(appName));
    TokenEventsSymbols(app.appName, ProductsTokens(app.products), appName);
  }

  lemma {:induction false} AppBalancesNames(apps: seq<AppBalance>, threshold: real)
    ensures forall x :: x in Collect(AppBalancesEvents(apps, threshold), ProductNameOf)
                        <==> x in AdmittedAppNames(apps, threshold)
    decreases |apps|
  {
    if apps != [] {
      var init, app := apps[..|apps| - 1], apps[|apps| - 1];
      AppBalancesNames(init, threshold);
      AppBalanceProducts(app, threshold, "", "");
      CollectAppend(AppBalancesEvents(init, threshold), AppBalanceEvents(app, threshold), ProductNameOf);
    }
  }

  lemma {:induction false} AppBalancesValue(apps: seq<AppBalance>, threshold: real, appName: string)
    ensures Sum(Collect(AppBalancesEvents(apps, threshold), ProductValueOf(appName))) == NamedAppUsd(appName, apps, threshold)
    decreases |apps|
  {
    if apps != [] {
      var init, app := apps[..|apps| - 1], apps[|apps| - 1];
      var earlier, own := AppBalancesEvents(init, threshold), AppBalanceEvents(app, threshold);
      AppBalancesValue(init, threshold, appName);
      AppBalanceProducts(app, threshold, appName, "");
      CollectAppend(earlier, own, ProductValueOf(appName));
      SumAppend(Collect(earlier, ProductValueOf(appName)), Collect(own, ProductValueOf(appName)));
    }
  }

  lemma {:induction false} AppBalancesAmount(apps: seq<AppBalance>, threshold: real, appName: string, symbol: string)
    ensures Sum(Collect(AppBalancesEvents(apps, threshold), ProductAmountOf(appName, symbol)))
         == NamedAppAmount(appName, symbol, apps, threshold)
    decreases |apps|
  {
    if apps != [] {
      var init, app := apps[..|apps| - 1], apps[|apps| - 1];
      var earlier, own := AppBalancesEvents(init, threshold), AppBalanceEvents(app, threshold);
      AppBalancesAmount(init, threshold, appName, symbol);
      AppBalanceProducts(app, threshold, appName, symbol);
      CollectAppend(earlier, own, ProductAmountOf(appName, symbol));
      SumAppend(Collect(earlier, ProductAmountOf(appName, symbol)), Collect(own, ProductAmountOf(appName, symbol)));
    }
  }

  lemma {:induction false} AppBalancesSymbols(apps: seq<AppBalance>, threshold: real, appName: string)
    ensures Collect(AppBalancesEvents(apps, threshold), ProductSymbolOf(appName)) == NamedAppSymbols(appName, apps, threshold)
    decreases |apps|
  {
    if apps != [] {
      var init, app := apps[..|apps| - 1], apps[|apps| - 1];
      AppBalancesSymbols(init, threshold, appName);
      AppBalanceProducts(app, threshold, appName, "");
      CollectAppend(AppBalancesEvents(init, threshold), AppBalanceEvents(app, threshold), ProductSymbolOf(appName));
    }
  }

  /** The projections of the whole trace onto `products`. */
  lemma TraceProducts(p: Portfolio, threshold: real, appName: string, symbol: string)
    ensures var es := Trace(p, threshold);
            && (forall x :: x in Collect(es, ProductNameOf) <==> x in AdmittedAppNames(p.appBalances, threshold))
            && Sum(Collect(es, ProductValueOf(appName))) == NamedAppUsd(appName, p.appBalances, threshold)
            && Sum(Collect(es, ProductAmountOf(appName, symbol)))
               == NamedAppAmount(appName, symbol, p.appBalances, threshold)
            && Collect(es, ProductSymbolOf(appName)) == NamedAppSymbols(appName, p.appBalances, threshold)
  {
    var tokens, apps := TokenBalancesEvents(p.tokenBalances, threshold), AppBalancesEvents(p.appBalances, threshold);
    TokenBalancesTouchNoProduct(p.tokenBalances, threshold, appName, symbol);
    AppBalancesNames(p.appBalances, threshold);
    AppBalancesValue(p.appBalances, threshold, appName);
    AppBalancesAmount(p.appBalances, threshold, appName, symbol);
    AppBalancesSymbols(p.appBalances, threshold, appName);
    CollectAppend(tokens, apps, ProductNameOf);
    CollectAppend(tokens, apps, ProductValueOf(appName));
    CollectAppend(tokens, apps, ProductAmountOf(appName, symbol));
    CollectAppend(tokens, apps, ProductSymbolOf(appName));
    assert [] + Collect(apps, ProductNameOf) == Collect(apps, ProductNameOf);
    assert [] + Collect(apps, ProductValueOf(appName)) == Collect(apps, ProductValueOf(appName));
    assert [] + Collect(apps, ProductAmountOf(appName, symbol)) == Collect(apps, ProductAmountOf(appName, symbol));
    assert [] + Collect(apps, ProductSymbolOf(appName)) == Collect(apps, ProductSymbolOf(appName));
  }

  /**
   * `products` has an entry exactly for the names of the admitted app balances:
   * a skipped app creates none, an admitted one always has one.
   */
  lemma ProductsOfAdmittedApps(p: Portfolio, threshold: real, appName: string)
    ensures appName in Aggregate(p, threshold).products <==> appName in AdmittedAppNames(p.appBalances, threshold)
  {
    ReplayProducts(Empty(), Trace(p, threshold), appName, "");
    TraceProducts(p, threshold, appName, "");
  }

  /** Apps sharing a name share one entry, whose `value` is the sum of their USD balances. */
  lemma ProductValueIsNamedTotal(p: Portfolio, threshold: real, appName: string)
    requires appName in Aggregate(p, threshold).products
    ensures Aggregate(p, threshold).products[appName].value == NamedAppUsd(appName, p.appBalances, threshold)
  {
    ReplayProducts(Empty(), Trace(p, threshold), appName, "");
    TraceProducts(p, threshold, appName, "");
  }

  /**
   * `products[appName].tokens` holds a key for every symbol of an effective
   * token of the apps named `appName` (the empty symbol included), mapped to
   * the sum of those tokens' balances (zero balances included).
   */
  lemma ProductTokensAreNamedTotals(p: Portfolio, threshold: real, appName: string, symbol: string)
    requires appName in Aggregate(p, threshold).products
    ensures var tokens := Aggregate(p, threshold).products[appName].tokens;
            && (symbol in tokens <==> symbol in NamedAppSymbols(appName, p.appBalances, threshold))
            && (symbol in tokens ==> tokens[symbol] == NamedAppAmount(appName, symbol, p.appBalances, threshold))
  {
    ReplayProducts(Empty(), Trace(p, threshold), appName, symbol);
    TraceProducts(p, threshold, appName, symbol);
  }
}
