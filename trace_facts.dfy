/**
 * General facts about traces: projecting a trace onto the events one field
 * depends on, summing amounts, and flattening the token entries of an app.
 */
module TraceFacts {
  import opened Holdings
  import opened Aggregation

  /** The concatenation of `f(e)` over the events `e` of `es`, in order. */
  function Collect<T>(es: seq<Event>, f: Event -> seq<T>): seq<T>
    decreases |es|
  {
    if es == [] then [] else Collect(es[..|es| - 1], f) + f(es[|es| - 1])
  }

  lemma CollectSnoc<T>(es: seq<Event>, e: Event, f: Event -> seq<T>)
    ensures Collect(es + [e], f) == Collect(es, f) + f(e)
  {
    assert (es + [e])[..|es|] == es;
  }

  lemma {:induction false} CollectAppend<T>(xs: seq<Event>, ys: seq<Event>, f: Event -> seq<T>)
    ensures Collect(xs + ys, f) == Collect(xs, f) + Collect(ys, f)
    decreases |ys|
  {
    if ys == [] {
      assert xs + ys == xs;
    } else {
      var init, last := ys[..|ys| - 1], ys[|ys| - 1];
      assert ys == init + [last];
      assert xs + ys == (xs + init) + [last];
      CollectSnoc(xs + init, last, f);
      CollectAppend(xs, init, f);
      CollectSnoc(init, last, f);
    }
  }

  lemma CollectAppendThree<T>(xs: seq<Event>, ys: seq<Event>, zs: seq<Event>, f: Event -> seq<T>)
    ensures Collect(xs + ys + zs, f) == Collect(xs, f) + Collect(ys, f) + Collect(zs, f)
  {
    CollectAppend(xs + ys, zs, f);
    CollectAppend(xs, ys, f);
  }

  lemma CollectTwo<T>(a: Event, b: Event, f: Event -> seq<T>)
    ensures Collect([a, b], f) == f(a) + f(b)
  {
    CollectSnoc([], a, f);
    CollectSnoc([a], b, f);
  }

  lemma CollectThree<T>(a: Event, b: Event, c: Event, f: Event -> seq<T>)
    ensures Collect([a, b, c], f) == f(a) + f(b) + f(c)
  {
    CollectTwo(a, b, f);
    CollectSnoc([a, b], c, f);
    assert [a, b] + [c] == [a, b, c];
  }

  /** The sum of a sequence of amounts. */
  function Sum(xs: seq<real>): real
    decreases |xs|
  {
    if xs == [] then 0.0 else Sum(xs[..|xs| - 1]) + xs[|xs| - 1]
  }

  lemma {:induction false} SumAppend(xs: seq<real>, ys: seq<real>)
    ensures Sum(xs + ys) == Sum(xs) + Sum(ys)
    decreases |ys|
  {
    if ys == [] {
      assert xs + ys == xs;
    } else {
      var init := ys[..|ys| - 1];
      assert (xs + ys)[..|xs + ys| - 1] == xs + init;
      SumAppend(xs, init);
    }
  }

  /** The effective tokens of asset entries, in order. */
  function EntriesTokens(entries: seq<AssetToken>): seq<Token>
    decreases |entries|
  {
    if entries == [] then []
    else EntriesTokens(entries[..|entries| - 1]) + [Effective(entries[|entries| - 1])]
  }

  function AssetsTokens(assets: seq<Asset>): seq<Token>
    decreases |assets|
  {
    if assets == [] then []
    else AssetsTokens(assets[..|assets| - 1]) + EntriesTokens(assets[|assets| - 1].tokens)
  }

  /** Every effective token of an app's products, in the order getNetWorth visits them. */
  function ProductsTokens(products: seq<Product>): seq<Token>
    decreases |products|
  {
    if products == [] then []
    else ProductsTokens(products[..|products| - 1]) + AssetsTokens(products[|products| - 1].assets)
  }

  /** The two updates per effective token of an app (index.ts, lines 220-233). */
  function TokenEvents(appName: string, tokens: seq<Token>): seq<Event>
    decreases |tokens|
  {
    if tokens == [] then []
    else
      var t := tokens[|tokens| - 1];
      TokenEvents(appName, tokens[..|tokens| - 1])
      + [SeeToken(t.symbol, t.price, t.balance), AddProductToken(appName, t.symbol, t.balance)]
  }

  lemma {:induction false} TokenEventsAppend(appName: string, xs: seq<Token>, ys: seq<Token>)
    ensures TokenEvents(appName, xs + ys) == TokenEvents(appName, xs) + TokenEvents(appName, ys)
    decreases |ys|
  {
    if ys == [] {
      assert xs + ys == xs;
    } else {
      var init := ys[..|ys| - 1];
      assert (xs + ys)[..|xs + ys| - 1] == xs + init;
      TokenEventsAppend(appName, xs, init);
    }
  }

  lemma {:induction false} EntriesEventsFlat(appName: string, entries: seq<AssetToken>)
    ensures AssetTokensEvents(appName, entries) == TokenEvents(appName, EntriesTokens(entries))
    decreases |entries|
  {
    if entries != [] {
      var init, last := entries[..|entries| - 1], entries[|entries| - 1];
      EntriesEventsFlat(appName, init);
      TokenEventsAppend(appName, EntriesTokens(init), [Effective(last)]);
      assert TokenEvents(appName, [Effective(last)]) == AssetTokenEvents(appName, last) by {
        assert [Effective(last)][..0] == [];
      }
    }
  }

  lemma {:induction false} AssetsEventsFlat(appName: string, assets: seq<Asset>)
    ensures AssetsEvents(appName, assets) == TokenEvents(appName, AssetsTokens(assets))
    decreases |assets|
  {
    if assets != [] {
      var init, last := assets[..|assets| - 1], assets[|assets| - 1];
      AssetsEventsFlat(appName, init);
      EntriesEventsFlat(appName, last.tokens);
      TokenEventsAppend(appName, AssetsTokens(init), EntriesTokens(last.tokens));
    }
  }

  /** The nested loops of index.ts, lines 215-236, visit the app's effective tokens in order. */
  lemma {:induction false} ProductsEventsFlat(appName: string, products: seq<Product>)
    ensures ProductsEvents(appName, products) == TokenEvents(appName, ProductsTokens(products))
    decreases |products|
  {
    if products != [] {
      var init, last := products[..|products| - 1], products[|products| - 1];
      ProductsEventsFlat(appName, init);
      AssetsEventsFlat(appName, last.assets);
      TokenEventsAppend(appName, ProductsTokens(init), AssetsTokens(last.assets));
    }
  }

  /** Projecting the events of one more effective token. */
  lemma TokenEventsCollectSnoc<T>(appName: string, tokens: seq<Token>, t: Token, f: Event -> seq<T>)
    ensures Collect(TokenEvents(appName, tokens + [t]), f)
         == Collect(TokenEvents(appName, tokens), f)
            + f(SeeToken(t.symbol, t.price, t.balance)) + f(AddProductToken(appName, t.symbol, t.balance))
  {
    var pair := [SeeToken(t.symbol, t.price, t.balance), AddProductToken(appName, t.symbol, t.balance)];
    assert (tokens + [t])[..|tokens|] == tokens;
    CollectAppend(TokenEvents(appName, tokens), pair, f);
    CollectTwo(pair[0], pair[1], f);
  }

  /** Projecting the events of one admitted app balance. */
  lemma AdmittedAppCollect<T>(app: AppBalance, threshold: real, f: Event -> seq<T>)
    requires app.balanceUSD > threshold
    ensures Collect(AppBalanceEvents(app, threshold), f)
         == f(OpenProduct(app.appName))
            + Collect(TokenEvents(app.appName, ProductsTokens(app.products)), f)
            + f(SeeNetwork(app.network)) + f(AddProductValue(app.appName, app.balanceUSD)) + f(AddValue(app.balanceUSD))
  {
    var head := [OpenProduct(app.appName)];
    var middle := ProductsEvents(app.appName, app.products);
    var tail := [SeeNetwork(app.network), AddProductValue(app.appName, app.balanceUSD), AddValue(app.balanceUSD)];
    var a, b, c := f(tail[0]), f(tail[1]), f(tail[2]);
    var h, m := f(head[0]), Collect(middle, f);
    assert Collect(head, f) == h by {
      CollectSnoc([], head[0], f);
      assert [] + [head[0]] == head;
    }
    assert Collect(tail, f) == a + b + c by {
      CollectThree(tail[0], tail[1], tail[2], f);
    }
    assert m == Collect(TokenEvents(app.appName, ProductsTokens(app.products)), f) by {
      ProductsEventsFlat(app.appName, app.products);
    }
    assert Collect(AppBalanceEvents(app, threshold), f) == h + m + (a + b + c) by {
      assert AppBalanceEvents(app, threshold) == head + middle + tail;
      CollectAppendThree(head, middle, tail, f);
    }
    AppendAssociative(h + m, a + b, c);
    AppendAssociative(h + m, a, b);
  }

}
