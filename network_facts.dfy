/**
 * `networks` (index.ts, lines 195, 238 and 246-250): every network of an
 * admitted entry, once each, in the order first seen.
 */
module NetworkFacts {
  import opened Holdings
  import opened Aggregation
  import opened TraceFacts

  /** The network an event records. */
  function NetworkOf(e: Event): seq<string> {
    if e.SeeNetwork? then [e.network] else []
  }

  /** `xs` keeping only the first occurrence of each element. */
  function FirstOccurrences(xs: seq<string>): seq<string>
    decreases |xs|
  {
    if xs == [] then []
    else
      var init, x := xs[..|xs| - 1], xs[|xs| - 1];
      FirstOccurrences(init) + (if x in init then [] else [x])
  }

  /** Index of the first occurrence of `x` in `xs`. */
  function IndexOf(xs: seq<string>, x: string): nat
    requires x in xs
    decreases |xs|
  {
    if xs[0] == x then 0 else 1 + IndexOf(xs[1..], x)
  }

  lemma {:induction false} IndexOfSnoc(xs: seq<string>, x: string, y: string)
    requires y in xs
    ensures IndexOf(xs + [x], y) == IndexOf(xs, y) < |xs|
    decreases |xs|
  {
    if xs[0] != y {
      assert (xs + [x])[1..] == xs[1..] + [x];
      IndexOfSnoc(xs[1..], x, y);
    }
  }

  lemma {:induction false} IndexOfNew(xs: seq<string>, x: string)
    requires x !in xs
    ensures IndexOf(xs + [x], x) == |xs|
    decreases |xs|
  {
    if xs != [] {
      assert (xs + [x])[1..] == xs[1..] + [x];
      IndexOfNew(xs[1..], x);
    }
  }

  /** The list of first occurrences holds exactly the elements of `xs`. */
  lemma {:induction false} FirstOccurrencesMembers(xs: seq<string>)
    ensures forall x :: x in FirstOccurrences(xs) <==> x in xs
    decreases |xs|
  {
    if xs != [] {
      var init := xs[..|xs| - 1];
      FirstOccurrencesMembers(init);
      assert xs == init + [xs[|xs| - 1]];
    }
  }

  /** No element is listed twice, and elements are listed in the order of their first occurrence in `xs`. */
  lemma {:induction false} FirstOccurrencesOrdered(xs: seq<string>)
    ensures forall x :: x in FirstOccurrences(xs) ==> x in xs
    ensures forall i, j :: 0 <= i < j < |FirstOccurrences(xs)| ==>
              FirstOccurrences(xs)[i] != FirstOccurrences(xs)[j]
              && IndexOf(xs, FirstOccurrences(xs)[i]) < IndexOf(xs, FirstOccurrences(xs)[j])
    decreases |xs|
  {
    FirstOccurrencesMembers(xs);
    if xs != [] {
      var init, x := xs[..|xs| - 1], xs[|xs| - 1];
      assert xs == init + [x];
      FirstOccurrencesOrdered(init);
      FirstOccurrencesMembers(init);
      var before, after := FirstOccurrences(init), FirstOccurrences(xs);
      forall i, j | 0 <= i < j < |after|
        ensures after[i] != after[j] && IndexOf(xs, after[i]) < IndexOf(xs, after[j])
      {
        assert after[i] == before[i];
        IndexOfSnoc(init, x, after[i]);
        if j < |before| {
          IndexOfSnoc(init, x, after[j]);
        } else {
          assert after[j] == x && x !in init;
          IndexOfNew(init, x);
        }
      }
    }
  }

  /** Only SeeNetwork changes `networks`, by appending a network not yet listed. */
  lemma StepNetworks(r: Summary, e: Event)
    ensures Step(r, e).networks
         == if e.SeeNetwork? && e.network !in r.networks then r.networks + [e.network] else r.networks
  {
  }

  /** Recording networks one by one keeps the list equal to the first occurrences of all networks seen. */
  lemma {:induction false} ReplayNetworks(s: Summary, es: seq<Event>, seen: seq<string>)
    requires s.networks == FirstOccurrences(seen)
    ensures Replay(s, es).networks == FirstOccurrences(seen + Collect(es, NetworkOf))
    decreases |es|
  {
    if es == [] {
      assert seen + [] == seen;
    } else {
      var init, e := es[..|es| - 1], es[|es| - 1];
      ReplayNetworks(s, init, seen);
      var all := seen + Collect(init, NetworkOf);
      var r := Replay(s, init);
      assert Replay(s, es) == Step(r, e);
      StepNetworks(r, e);
      FirstOccurrencesMembers(all);
      assert seen + Collect(es, NetworkOf) == all + NetworkOf(e);
      if e.SeeNetwork? {
        assert (all + [e.network])[..|all|] == all;
      } else {
        assert all + [] == all;
      }
    }
  }

  /** The networks of the token balances above the threshold, in input order. */
  function AdmittedTokenNetworks(tbs: seq<TokenBalance>, threshold: real): seq<string>
    decreases |tbs|
  {
    if tbs == [] then []
    else
      var tb := tbs[|tbs| - 1];
      AdmittedTokenNetworks(tbs[..|tbs| - 1], threshold) + (if tb.token.balanceUSD > threshold then [tb.network] else [])
  }

  /** The networks of the app balances above the threshold, in input order. */
  function AdmittedAppNetworks(apps: seq<AppBalance>, threshold: real): seq<string>
    decreases |apps|
  {
    if apps == [] then []
    else
      var app := apps[|apps| - 1];
      AdmittedAppNetworks(apps[..|apps| - 1], threshold) + (if app.balanceUSD > threshold then [app.network] else [])
  }

  /** Token balance networks come before app networks. */
  function AdmittedNetworks(p: Portfolio, threshold: real): seq<string> {
    AdmittedTokenNetworks(p.tokenBalances, threshold) + AdmittedAppNetworks(p.appBalances, threshold)
  }

  lemma {:induction false} TokenEventsNetworks(appName: string, tokens: seq<Token>)
    ensures Collect(TokenEvents(appName, tokens), NetworkOf) == []
    decreases |tokens|
  {
    if tokens != [] {
      var t := tokens[|tokens| - 1];
      var pair := [SeeToken(t.symbol, t.price, t.balance), AddProductToken(appName, t.symbol, t.balance)];
      TokenEventsNetworks(appName, tokens[..|tokens| - 1]);
      CollectAppend(TokenEvents(appName, tokens[..|tokens| - 1]), pair, NetworkOf);
      CollectTwo(pair[0], pair[1], NetworkOf);
    }
  }

  lemma {:induction false} TokenBalancesNetworks(tbs: seq<TokenBalance>, threshold: real)
    ensures Collect(TokenBalancesEvents(tbs, threshold), NetworkOf) == AdmittedTokenNetworks(tbs, threshold)
    decreases |tbs|
  {
    if tbs != [] {
      var init, tb := tbs[..|tbs| - 1], tbs[|tbs| - 1];
      TokenBalancesNetworks(init, threshold);
      CollectAppend(TokenBalancesEvents(init, threshold), TokenBalanceEvents(tb, threshold), NetworkOf);
      if tb.token.balanceUSD > threshold {
        var events := TokenBalanceEvents(tb, threshold);
        CollectThree(events[0], events[1], events[2], NetworkOf);
      }
    }
  }

  lemma {:induction false} AppBalancesNetworks(apps: seq<AppBalance>, threshold: real)
    ensures Collect(AppBalancesEvents(apps, threshold), NetworkOf) == AdmittedAppNetworks(apps, threshold)
    decreases |apps|
  {
    if apps != [] {
      var init, app := apps[..|apps| - 1], apps[|apps| - 1];
      AppBalancesNetworks(init, threshold);
      CollectAppend(AppBalancesEvents(init, threshold), AppBalanceEvents(app, threshold), NetworkOf);
      if app.balanceUSD > threshold {
        AdmittedAppCollect(app, threshold, NetworkOf);
        TokenEventsNetworks(app.appName, ProductsTokens(app.products));
        assert [] + [] + [app.network] + [] + [] == [app.network];
      }
    }
  }

  /**
   * `networks` lists the networks of the admitted token balances and then of
   * the admitted app balances, keeping only the first occurrence of each.
   */
  lemma NetworksInFirstSeenOrder(p: Portfolio, threshold: real)
    ensures Aggregate(p, threshold).networks == FirstOccurrences(AdmittedNetworks(p, threshold))
  {
    var tokens, apps := TokenBalancesEvents(p.tokenBalances, threshold), AppBalancesEvents(p.appBalances, threshold);
    ReplayNetworks(Empty(), Trace(p, threshold), []);
    CollectAppend(tokens, apps, NetworkOf);
    TokenBalancesNetworks(p.tokenBalances, threshold);
    AppBalancesNetworks(p.appBalances, threshold);
    assert [] + Collect(Trace(p, threshold), NetworkOf) == AdmittedNetworks(p, threshold);
  }

  /** Every admitted network is listed exactly once, and nothing else is. */
  lemma NetworksDistinctAndComplete(p: Portfolio, threshold: real)
    ensures var networks := Aggregate(p, threshold).networks;
            && (forall n :: n in networks <==> n in AdmittedNetworks(p, threshold))
            && (forall i, j :: 0 <= i < j < |networks| ==> networks[i] != networks[j])
  {
    NetworksInFirstSeenOrder(p, threshold);
    FirstOccurrencesMembers(AdmittedNetworks(p, threshold));
    FirstOccurrencesOrdered(AdmittedNetworks(p, threshold));
  }
}
