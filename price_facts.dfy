/**
 * `prices` and `balances` (index.ts, lines 252-270): per symbol, the first
 * non-zero price wins, and the balance is written only by the calls that
 * record a price, never summed.
 */
module PriceFacts {
  import opened Wrappers
  import opened Holdings
  import opened Aggregation
  import opened TraceFacts

  /** The arguments of an updateNetworthToken call, as a token. */
  function CallOf(e: Event): seq<Token> {
    if e.SeeToken? then [Token(e.symbol, e.price, e.balance)] else []
  }

  /**
   * The calls for `symbol` that write `prices[symbol]`: every call for it up to
   * and including the first one with a non-zero price.
   */
  function RecordingCalls(symbol: string, calls: seq<Token>): seq<Token>
    decreases |calls|
  {
    if calls == [] then []
    else if calls[0].symbol != symbol then RecordingCalls(symbol, calls[1..])
    else if calls[0].price != 0.0 then [calls[0]]
    else [calls[0]] + RecordingCalls(symbol, calls[1..])
  }

  /** The price of the first call for `symbol` whose price is non-zero. */
  function FirstNonZeroPrice(symbol: string, calls: seq<Token>): Option<real>
    decreases |calls|
  {
    if calls == [] then None
    else if calls[0].symbol == symbol && calls[0].price != 0.0 then Some(calls[0].price)
    else FirstNonZeroPrice(symbol, calls[1..])
  }

  /** The balance of the last call with a non-zero balance. */
  function LastNonZeroBalance(calls: seq<Token>): Option<real>
    decreases |calls|
  {
    if calls == [] then None
    else if calls[|calls| - 1].balance != 0.0 then Some(calls[|calls| - 1].balance)
    else LastNonZeroBalance(calls[..|calls| - 1])
  }

  /** The recording calls end with a non-zero price: no later call records anything. */
  predicate Settled(recording: seq<Token>) {
    recording != [] && recording[|recording| - 1].price != 0.0
  }

  lemma {:induction false} RecordingCallsSnoc(symbol: string, calls: seq<Token>, c: Token)
    ensures RecordingCalls(symbol, calls + [c])
         == if Settled(RecordingCalls(symbol, calls)) || c.symbol != symbol then RecordingCalls(symbol, calls)
            else RecordingCalls(symbol, calls) + [c]
    decreases |calls|
  {
    if calls == [] {
      assert [c][1..] == [];
    } else {
      assert (calls + [c])[1..] == calls[1..] + [c];
      RecordingCallsSnoc(symbol, calls[1..], c);
      if calls[0].symbol == symbol && calls[0].price == 0.0 {
        var rest := RecordingCalls(symbol, calls[1..]);
        assert Settled([calls[0]] + rest) == Settled(rest);
        assert [calls[0]] + (rest + [c]) == ([calls[0]] + rest) + [c];
      }
    }
  }

  /** A symbol has recording calls exactly when some call names it. */
  lemma {:induction false} RecordingCallsNonEmpty(symbol: string, calls: seq<Token>)
    ensures RecordingCalls(symbol, calls) != [] <==> exists i :: 0 <= i < |calls| && calls[i].symbol == symbol
    decreases |calls|
  {
    if calls != [] {
      RecordingCallsNonEmpty(symbol, calls[1..]);
      if calls[0].symbol != symbol {
        forall i | 0 <= i < |calls| && calls[i].symbol == symbol
          ensures exists k :: 0 <= k < |calls[1..]| && calls[1..][k].symbol == symbol
        {
          assert calls[1..][i - 1] == calls[i];
        }
        forall k | 0 <= k < |calls[1..]| && calls[1..][k].symbol == symbol
          ensures exists i :: 0 <= i < |calls| && calls[i].symbol == symbol
        {
          assert calls[k + 1] == calls[1..][k];
        }
      }
    }
  }

  /**
   * The last recording call carries the first non-zero price of the symbol,
   * or a zero price when the symbol never has a non-zero one.
   */
  lemma {:induction false} RecordingCallsLastPrice(symbol: string, calls: seq<Token>)
    requires RecordingCalls(symbol, calls) != []
    ensures var recording := RecordingCalls(symbol, calls);
            recording[|recording| - 1].price == match FirstNonZeroPrice(symbol, calls)
                                                case Some(price) => price
                                                case None => 0.0
    decreases |calls|
  {
    if calls[0].symbol != symbol {
      RecordingCallsLastPrice(symbol, calls[1..]);
    } else if calls[0].price == 0.0 && RecordingCalls(symbol, calls[1..]) != [] {
      RecordingCallsLastPrice(symbol, calls[1..]);
    } else if calls[0].price == 0.0 {
      NoRecordingNoPrice(symbol, calls[1..]);
    }
  }

  lemma {:induction false} NoRecordingNoPrice(symbol: string, calls: seq<Token>)
    requires RecordingCalls(symbol, calls) == []
    ensures FirstNonZeroPrice(symbol, calls) == None
    decreases |calls|
  {
    if calls != [] {
      NoRecordingNoPrice(symbol, calls[1..]);
    }
  }

  /** What a record says about `symbol`, in terms of the calls that recorded its price. */
  predicate Describes(r: Summary, symbol: string, recording: seq<Token>) {
    && (symbol in r.prices <==> recording != [])
    && (recording != [] ==> r.prices[symbol] == recording[|recording| - 1].price)
    && (symbol in r.balances <==> LastNonZeroBalance(recording).Some?)
    && (symbol in r.balances ==> r.balances[symbol] == LastNonZeroBalance(recording).value)
  }

  lemma RecordTokenDescribes(r: Summary, symbol: string, calls: seq<Token>, c: Token)
    requires symbol != "" && Describes(r, symbol, RecordingCalls(symbol, calls))
    ensures Describes(RecordToken(r, c.symbol, c.price, c.balance), symbol, RecordingCalls(symbol, calls + [c]))
  {
    var recording := RecordingCalls(symbol, calls);
    RecordingCallsSnoc(symbol, calls, c);
    if !Settled(recording) && c.symbol == symbol {
      assert (recording + [c])[..|recording|] == recording;
    }
  }

  lemma StepDescribes(r: Summary, symbol: string, calls: seq<Token>, e: Event)
    requires symbol != "" && Describes(r, symbol, RecordingCalls(symbol, calls))
    ensures Describes(Step(r, e), symbol, RecordingCalls(symbol, calls + CallOf(e)))
  {
    if e.SeeToken? {
      RecordTokenDescribes(r, symbol, calls, Token(e.symbol, e.price, e.balance));
    } else {
      assert calls + CallOf(e) == calls;
      assert Step(r, e).prices == r.prices && Step(r, e).balances == r.balances;
    }
  }

  /**
   * Replaying from a record that knows nothing of `symbol`: its price is the
   * price of the last recording call, and its balance the last non-zero
   * balance among the recording calls.
   */
  lemma {:induction false} ReplayPrices(s: Summary, es: seq<Event>, symbol: string)
    requires symbol != "" && symbol !in s.prices && symbol !in s.balances
    ensures Describes(Replay(s, es), symbol, RecordingCalls(symbol, Collect(es, CallOf)))
    decreases |es|
  {
    if es != [] {
      var init, e := es[..|es| - 1], es[|es| - 1];
      ReplayPrices(s, init, symbol);
      StepDescribes(Replay(s, init), symbol, Collect(init, CallOf), e);
    }
  }

  lemma StepEmptySymbol(r: Summary, e: Event)
    requires "" !in r.prices && "" !in r.balances
    ensures "" !in Step(r, e).prices && "" !in Step(r, e).balances
  {
  }

  /** The empty symbol is never recorded. */
  lemma {:induction false} ReplayEmptySymbol(s: Summary, es: seq<Event>)
    requires "" !in s.prices && "" !in s.balances
    ensures "" !in Replay(s, es).prices && "" !in Replay(s, es).balances
    decreases |es|
  {
    if es != [] {
      var init, e := es[..|es| - 1], es[|es| - 1];
      ReplayEmptySymbol(s, init);
      assert Replay(s, es) == Step(Replay(s, init), e);
      StepEmptySymbol(Replay(s, init), e);
    }
  }

  lemma StepSettled(r: Summary, e: Event, symbol: string)
    requires symbol in r.prices && r.prices[symbol] != 0.0
    ensures symbol in Step(r, e).prices && Step(r, e).prices[symbol] == r.prices[symbol]
    ensures symbol in Step(r, e).balances <==> symbol in r.balances
    ensures symbol in r.balances ==> Step(r, e).balances[symbol] == r.balances[symbol]
  {
  }

  /** Once a symbol holds a non-zero price, no later update changes its price or balance. */
  lemma {:induction false} ReplaySettled(s: Summary, es: seq<Event>, symbol: string)
    requires symbol in s.prices && s.prices[symbol] != 0.0
    ensures var r := Replay(s, es);
            && symbol in r.prices && r.prices[symbol] == s.prices[symbol]
            && (symbol in r.balances <==> symbol in s.balances)
            && (symbol in s.balances ==> r.balances[symbol] == s.balances[symbol])
    decreases |es|
  {
    if es != [] {
      var init, e := es[..|es| - 1], es[|es| - 1];
      ReplaySettled(s, init, symbol);
      assert Replay(s, es) == Step(Replay(s, init), e);
      StepSettled(Replay(s, init), e, symbol);
    }
  }

  /** The updateNetworthToken calls of the admitted token balances, in input order. */
  function AdmittedTokenCalls(tbs: seq<TokenBalance>, threshold: real): seq<Token>
    decreases |tbs|
  {
    if tbs == [] then []
    else
      var tb := tbs[|tbs| - 1];
      AdmittedTokenCalls(tbs[..|tbs| - 1], threshold)
      + (if tb.token.balanceUSD > threshold
         then [Token(tb.token.baseToken.symbol, tb.token.baseToken.price, tb.token.balance)] else [])
  }

  /** The updateNetworthToken calls of the admitted app balances: their effective tokens, in nested order. */
  function AdmittedAppCalls(apps: seq<AppBalance>, threshold: real): seq<Token>
    decreases |apps|
  {
    if apps == [] then []
    else
      var app := apps[|apps| - 1];
      AdmittedAppCalls(apps[..|apps| - 1], threshold)
      + (if app.balanceUSD > threshold then ProductsTokens(app.products) else [])
  }

  /** Every updateNetworthToken call getNetWorth makes, in order. */
  function TokenCalls(p: Portfolio, threshold: real): seq<Token> {
    AdmittedTokenCalls(p.tokenBalances, threshold) + AdmittedAppCalls(p.appBalances, threshold)
  }

  lemma {:induction false} TokenEventsCalls(appName: string, tokens: seq<Token>)
    ensures Collect(TokenEvents(appName, tokens), CallOf) == tokens
    decreases |tokens|
  {
    if tokens != [] {
      var t := tokens[|tokens| - 1];
      var pair := [SeeToken(t.symbol, t.price, t.balance), AddProductToken(appName, t.symbol, t.balance)];
      TokenEventsCalls(appName, tokens[..|tokens| - 1]);
      CollectAppend(TokenEvents(appName, tokens[..|tokens| - 1]), pair, CallOf);
      CollectTwo(pair[0], pair[1], CallOf);
      assert tokens == tokens[..|tokens| - 1] + [t];
    }
  }

  lemma {:induction false} TokenBalancesCalls(tbs: seq<TokenBalance>, threshold: real)
    ensures Collect(TokenBalancesEvents(tbs, threshold), CallOf) == AdmittedTokenCalls(tbs, threshold)
    decreases |tbs|
  {
    if tbs != [] {
      var init, tb := tbs[..|tbs| - 1], tbs[|tbs| - 1];
      TokenBalancesCalls(init, threshold);
      CollectAppend(TokenBalancesEvents(init, threshold), TokenBalanceEvents(tb, threshold), CallOf);
      if tb.token.balanceUSD > threshold {
        var events := TokenBalanceEvents(tb, threshold);
        CollectThree(events[0], events[1], events[2], CallOf);
      }
    }
  }

  lemma {:induction false} AppBalancesCalls(apps: seq<AppBalance>, threshold: real)
    ensures Collect(AppBalancesEvents(apps, threshold), CallOf) == AdmittedAppCalls(apps, threshold)
    decreases |apps|
  {
    if apps != [] {
      var init, app := apps[..|apps| - 1], apps[|apps| - 1];
      var own := AppBalanceEvents(app, threshold);
      var ownCalls := if app.balanceUSD > threshold then ProductsTokens(app.products) else [];
      assert Collect(own, CallOf) == ownCalls by {
        if app.balanceUSD > threshold {
          AdmittedAppCollect(app, threshold, CallOf);
          TokenEventsCalls(app.appName, ownCalls);
          assert CallOf(OpenProduct(app.appName)) == [] && CallOf(SeeNetwork(app.network)) == [];
          assert CallOf(AddProductValue(app.appName, app.balanceUSD)) == [] && CallOf(AddValue(app.balanceUSD)) == [];
          assert [] + ownCalls + [] + [] + [] == ownCalls;
        }
      }
      AppBalancesCalls(init, threshold);
      CollectAppend(AppBalancesEvents(init, threshold), own, CallOf);
    }
  }

  lemma TraceCalls(p: Portfolio, threshold: real)
    ensures Collect(Trace(p, threshold), CallOf) == TokenCalls(p, threshold)
  {
    CollectAppend(TokenBalancesEvents(p.tokenBalances, threshold), AppBalancesEvents(p.appBalances, threshold), CallOf);
    TokenBalancesCalls(p.tokenBalances, threshold);
    AppBalancesCalls(p.appBalances, threshold);
  }

  /**
   * A non-empty symbol has a price exactly when some updateNetworthToken call
   * names it, and that price is the first non-zero one given for it (0 when
   * there is none): first truthy price wins.
   */
  lemma PricesFirstNonZeroWins(p: Portfolio, threshold: real, symbol: string)
    requires symbol != ""
    ensures var prices, calls := Aggregate(p, threshold).prices, TokenCalls(p, threshold);
            && (symbol in prices <==> exists i :: 0 <= i < |calls| && calls[i].symbol == symbol)
            && (symbol in prices ==> prices[symbol] == match FirstNonZeroPrice(symbol, calls)
                                                     case Some(price) => price
                                                     case None => 0.0)
  {
    TraceCalls(p, threshold);
    ReplayPrices(Empty(), Trace(p, threshold), symbol);
    RecordingCallsNonEmpty(symbol, TokenCalls(p, threshold));
    if RecordingCalls(symbol, TokenCalls(p, threshold)) != [] {
      RecordingCallsLastPrice(symbol, TokenCalls(p, threshold));
    }
  }

  /**
   * `balances[symbol]` is the last non-zero balance among the calls that
   * record the symbol's price, and is absent when they all have balance 0.
   * Balances are never summed, and only priced symbols have one.
   */
  lemma BalancesFromRecordingCalls(p: Portfolio, threshold: real, symbol: string)
    requires symbol != ""
    ensures var r, recording := Aggregate(p, threshold), RecordingCalls(symbol, TokenCalls(p, threshold));
            && (symbol in r.balances <==> LastNonZeroBalance(recording).Some?)
            && (symbol in r.balances ==> symbol in r.prices && r.balances[symbol] == LastNonZeroBalance(recording).value)
  {
    TraceCalls(p, threshold);
    ReplayPrices(Empty(), Trace(p, threshold), symbol);
  }

  /** A token entry with an empty symbol leaves no trace in `prices` or `balances`. */
  lemma EmptySymbolNeverRecorded(p: Portfolio, threshold: real)
    ensures "" !in Aggregate(p, threshold).prices && "" !in Aggregate(p, threshold).balances
  {
    ReplayEmptySymbol(Empty(), Trace(p, threshold));
  }
}
