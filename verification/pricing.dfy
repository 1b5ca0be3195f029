/** From the loaded cache to the prices and values a portfolio shows. */
module Pricing {
  import opened Wrappers
  import opened Entities
  import opened Strings
  import opened Powers
  import opened BinaryFloat
  import opened BigIntUtils
  import opened TokenPrices
  import opened PortfolioRun
  import PriceLoad
  import PriceLoadOutcomes

  /**
   The price the loader found for a listed token is the price its balances get, and,
   where the token is the network's wrapped native one, the price the native balance
   gets when the shared cache does not give one; it is then published if it is shared.
   */
  lemma QuotedAsLoaded(load: PriceLoad.Load, before: PriceTable, j: nat, t: nat, d: NetworkDefinition, nb: Balance,
                       cached: Option<real>)
    requires load.Valid() && PriceLoad.Prepared(load, before) && load.Has(j, t)
    requires PriceLoad.FindsLast(load, j, t) && PriceLoad.Found(load, j, t).value > 0.0
    requires d.dexScreenerChainID == load.jobs[j].dex != ""
    ensures var after, price := PriceLoad.LoadJobs(load, before, |load.jobs|), PriceLoad.Found(load, j, t);
      var address := load.jobs[j].batch[t].address;
      && (!IsNative(nb) && EqualFold(nb.tokenAddress, address) ==>
            PriceOf(after, d, nb, cached) == Quote(price.value, None))
      && (!IsNativeAddress(d.wrappedNativeTokenAddress) && EqualFold(d.wrappedNativeTokenAddress, address) ==>
            && WrappedPrice(after, d) == price
            && (IsNative(nb) && (cached.None? || !GloballyPriced(d)) ==>
                  PriceOf(after, d, nb, cached) == Quote(price.value, if GloballyPriced(d) then price else None)))
  {
    assert PriceLoad.Found(load, j, t).Some?;
    hide PriceLoad.Found, PriceLoad.FindsLast, PriceLoad.Prepared, PriceLoad.LoadJobs, ToLower;
    PriceLoad.LoadedEntries(load, before);
    var after, address := PriceLoad.LoadJobs(load, before, |load.jobs|), load.jobs[j].batch[t].address;
    assert PriceAt(after, load.jobs[j].dex, address) == PriceLoad.Found(load, j, t);
    LowerTwice(nb.tokenAddress);
    LowerTwice(d.wrappedNativeTokenAddress);
  }

  /**
   A token's price is the one cached for its address, in whatever letter case, if its
   network has a DEXScreener ID and that price is positive, and zero otherwise. No token's
   price is published.
   */
  lemma TokenPriceIff(prices: PriceTable, d: NetworkDefinition, nb: Balance, cached: Option<real>, address: string)
    requires nb.tokenAddress != "" && !EqualFold(nb.tokenAddress, ZERO_ADDRESS) && EqualFold(address, nb.tokenAddress)
    ensures var quote := PriceOf(prices, d, nb, cached);
      && quote.publish.None? && quote.price >= 0.0
      && forall p: real :: p > 0.0 ==>
           (quote.price == p
            <==> d.dexScreenerChainID != "" && PriceAt(prices, d.dexScreenerChainID, address) == Some(p))
  {
    LowerTwice(nb.tokenAddress);
    hide ToLower;
  }

  /** The wrapped native token's price is the positive one cached for its address, if it has one. */
  predicate HasWrappedPrice(prices: PriceTable, d: NetworkDefinition, p: real)
  {
    && p > 0.0 && d.dexScreenerChainID != ""
    && d.wrappedNativeTokenAddress != "" && !EqualFold(d.wrappedNativeTokenAddress, ZERO_ADDRESS)
    && PriceAt(prices, d.dexScreenerChainID, d.wrappedNativeTokenAddress) == Some(p)
  }

  /**
   A balance without an address or with the zero address, on a network whose symbol is
   ETH in any case, has the price read from the shared cache, if that is not zero. Any
   other such balance has the price of its network's wrapped token, or zero, and that
   price is published exactly if the symbol is ETH.
   */
  lemma NativePriceIff(prices: PriceTable, d: NetworkDefinition, nb: Balance, cached: Option<real>)
    requires nb.tokenAddress == "" || EqualFold(nb.tokenAddress, ZERO_ADDRESS)
    ensures var quote, global := PriceOf(prices, d, nb, cached), EqualFold(d.nativeSymbol, "ETH");
      if global && cached.Some? && cached.value != 0.0 then quote.price == cached.value && quote.publish.None?
      else
        && quote.price >= 0.0
        && (forall p: real :: p > 0.0 ==> (quote.price == p <==> HasWrappedPrice(prices, d, p)))
        && (forall p: real :: quote.publish == Some(p) <==> quote.price == p > 0.0 && global)
  {
    GloballyPricedIff(d);
    LowerTwice(d.wrappedNativeTokenAddress);
    hide ToLower, GloballyPriced;
  }

  lemma GloballyPricedIff(d: NetworkDefinition)
    ensures GloballyPriced(d) <==> EqualFold(d.nativeSymbol, "ETH")
  {
    assert ToLower("ETH") == "eth";
  }

  /** What is shown of a balance: its own address, symbol, decimals and text, and its worth at the price. */
  lemma ShownAsPriced(req: Request, nb: Balance, price: real)
    ensures var detail := Detail(req, nb, price);
      && detail.tokenAddress == nb.tokenAddress && detail.tokenSymbol == nb.tokenSymbol
      && detail.decimals == nb.decimals && detail.formattedBalance == nb.formattedBalance
      && detail.priceUSD == price
      && (price <= 0.0 || nb.amount.None? ==> detail.valueUSD == 0.0)
      && (price > 0.0 && nb.amount.Some? ==>
            forall value: real ::
              && (req.valuate(nb.amount.value, nb.decimals, price) == Ok(value) ==> detail.valueUSD == value)
              && (req.valuate(nb.amount.value, nb.decimals, price).Err? ==> detail.valueUSD == 0.0))
  {
  }

  /**
   A token for whose address no batch finds a price, and none was cached before the load,
   is shown at price zero and worth nothing after every finished load.
   */
  lemma UnfoundIsWorthless(load: PriceLoad.Load, before: PriceTable, events: seq<PriceLoad.Event>, req: Request,
                           d: NetworkDefinition, nb: Balance, cached: Option<real>)
    requires load.Valid() && PriceLoad.Prepared(load, before) && !IsNative(nb)
    requires PriceLoad.NoneFinds(load, d.dexScreenerChainID, ToLower(nb.tokenAddress))
    requires PriceAt(before, d.dexScreenerChainID, nb.tokenAddress) == None
    ensures var end := PriceLoad.Run(load, PriceLoad.Initial(load, before), events);
      end.Some? && end.value.complete ==>
        var quote := PriceOf(end.value.prices, d, nb, cached);
        quote == Quote(0.0, None) && Detail(req, nb, quote.price).valueUSD == 0.0
  {
    var end := PriceLoad.Run(load, PriceLoad.Initial(load, before), events);
    var dex, address := d.dexScreenerChainID, ToLower(nb.tokenAddress);
    if end.Some? && end.value.complete {
      var entry := PriceLoad.EntryAt(end.value.prices, dex, address);
      PriceLoadOutcomes.FinishedEntries(load, before, events, dex, address, entry);
      PriceLoadOutcomes.NoneFindsIff(load, dex, address);
      TokenPriceIff(end.value.prices, d, nb, cached, nb.tokenAddress);
      hide PriceLoad.Run, PriceLoadOutcomes.BatchFind, PriceLoad.NoneFinds, PriceOf, IsNative;
      assert PriceAt(end.value.prices, dex, nb.tokenAddress) == None;
      assert !(PriceOf(end.value.prices, d, nb, cached).price > 0.0);
    }
  }

  // ---- Values ------------------------------------------------------------------------

  /**
   CalculateValueUSD as the run uses it: the float64 it returns, as a real. The run has no
   infinite amounts of dollars; where the float64 is infinite, which ValueInfiniteIff says
   exactly, the exact product stands for it.
   */
  function ValueOf(amount: nat, decimals: nat, price: real): Result<real>
  {
    match CalculateValueUSD(Some(amount), decimals, price)
    case Err(message) => Err(message)
    case Ok(Finite(value)) => Ok(value)
    case Ok(Infinite(_)) =>
      if TokenValue(amount, decimals).Finite? then Ok(Dollars(TokenValue(amount, decimals).value, price)) else Ok(0.0)
  }

  /** How far a token value may be off, relative to the exact quotient of amount and 10^decimals. */
  function Slack(amount: nat, decimals: nat): real
  {
    var x := Exact(amount, decimals);
    Scale(x, -53) + Scale(x, -64) + Scale(x, -117)
  }

  /** How far the product of a token value and a price may be off once it is rounded, if it is a normal number. */
  function ValueSlack(amount: nat, decimals: nat, price: real): real
  {
    var slack := Slack(amount, decimals);
    Dollars(slack, price) + Scale(Dollars(Exact(amount, decimals) + slack, price), -53)
  }

  /**
   Every balance of a 256-bit amount that gets a price is shown with a value, and it is
   the amount over 10^decimals, times the price, up to three roundings: of the quotient,
   of its float64 and of the product. A product below the normal numbers is off by half
   the least float64 at most, besides.
   */
  lemma ShownValueClose(req: Request, nb: Balance, price: real)
    requires forall a: nat, d: nat, p: real :: req.valuate(a, d, p) == ValueOf(a, d, p)
    requires nb.amount.Some? && 0 < nb.amount.value && nb.amount.value as real < Pow2(256) && nb.decimals <= 255
    requires price > 0.0
    ensures TokenValue(nb.amount.value, nb.decimals).Finite?
    ensures var amount, decimals := nb.amount.value, nb.decimals;
      IsClose(Detail(req, nb, price).valueUSD, amount, decimals, price)
  {
    var amount, decimals := nb.amount.value, nb.decimals;
    hide Pow2, ValueOf, TokenValue, IsClose;
    ValueIsClose(amount, decimals, price);
    assert req.valuate(amount, decimals, price) == ValueOf(amount, decimals, price);
  }

  ghost predicate IsClose(value: real, amount: nat, decimals: nat, price: real)
    requires TokenValue(amount, decimals).Finite?
  {
    var product, exact := Dollars(TokenValue(amount, decimals).value, price), Dollars(Exact(amount, decimals), price);
    if product >= Pow2(MIN_EXPONENT) then value > 0.0 && Distance(value, exact) <= ValueSlack(amount, decimals, price)
    else Distance(value, exact) <= Dollars(Slack(amount, decimals), price) + Pow2(-1075)
  }

  lemma ValueIsClose(amount: nat, decimals: nat, price: real)
    requires 0 < amount && amount as real < Pow2(256) && decimals <= 255 && price > 0.0
    ensures TokenValue(amount, decimals).Finite? && ValueOf(amount, decimals, price).Ok?
    ensures IsClose(ValueOf(amount, decimals, price).value, amount, decimals, price)
  {
    hide *;
    ValueIsRounded(amount, decimals, price);
    TokenValueClose(amount, decimals);
    var t, x, slack := TokenValue(amount, decimals).value, Exact(amount, decimals), Slack(amount, decimals);
    WithinSlack(amount, decimals);
    ScaledDistance(t, x, slack, price);
    ProductIsClose(t, price);
    ProductBound(t, x, slack, price);
    CombinedSlack(amount, decimals, price, RoundedProduct(t, price));
  }

  lemma WithinSlack(amount: nat, decimals: nat)
    requires TokenValue(amount, decimals).Finite?
    requires var t, x := TokenValue(amount, decimals).value, Exact(amount, decimals);
      t >= Pow2(MIN_EXPONENT) && Distance(t, x) <= Scale(x, -53) + Scale(x, -64) + Scale(x, -117)
    ensures TokenValue(amount, decimals).value > 0.0
    ensures Distance(TokenValue(amount, decimals).value, Exact(amount, decimals)) <= Slack(amount, decimals)
  {
    hide Pow2, TokenValue, Exact, Scale, Distance;
    PositivePow2(MIN_EXPONENT);
  }

  /** The rounding of the product comes on top of the token value's slack. */
  lemma CombinedSlack(amount: nat, decimals: nat, price: real, value: real)
    requires TokenValue(amount, decimals).Finite?
    requires var t, x, slack := TokenValue(amount, decimals).value, Exact(amount, decimals), Slack(amount, decimals);
      var product := Dollars(t, price);
      && Distance(product, Dollars(x, price)) <= Dollars(slack, price)
      && Scale(product, -53) <= Scale(Dollars(x + slack, price), -53)
      && (if product >= Pow2(MIN_EXPONENT) then value > 0.0 && Distance(value, product) <= Scale(product, -53)
          else Distance(value, product) <= Pow2(-1075))
    ensures IsClose(value, amount, decimals, price)
  {
    hide Pow2, TokenValue, Exact, Slack, Scale, Dollars, Distance;
    Triangle(value, Dollars(TokenValue(amount, decimals).value, price), Dollars(Exact(amount, decimals), price));
  }

  /** The product as a float64, and where that is infinite, as it is. */
  function RoundedProduct(t: real, price: real): real
  {
    match Product(t, price)
    case Finite(value) => value
    case Infinite(_) => Dollars(t, price)
  }

  lemma ValueIsRounded(amount: nat, decimals: nat, price: real)
    requires 0 < amount && amount as real < Pow2(256) && price > 0.0
    ensures TokenValue(amount, decimals).Finite?
    ensures ValueOf(amount, decimals, price) == Ok(RoundedProduct(TokenValue(amount, decimals).value, price))
  {
    NoErrorBelow256Bits(amount, decimals, price);
    ValueIsProduct(amount, decimals, price);
    hide Pow2, Dollars, Product, TokenValue, CalculateValueUSD;
  }

  lemma PositivePow2(k: int)
    ensures Pow2(k) > 0.0
  {
  }

  lemma ProductIsClose(t: real, price: real)
    requires t > 0.0 && price > 0.0
    ensures var product, value := Dollars(t, price), RoundedProduct(t, price);
      if product >= Pow2(MIN_EXPONENT) then value > 0.0 && Distance(value, product) <= Scale(product, -53)
      else Distance(value, product) <= Pow2(-1075)
  {
    hide Pow2, MagnitudeToFloat64, Scale;
    TimesOrder(0.0, t, price);
    TimesOrder(t, 0.0, price);
    var product := t * price;
    PositivePow2(MIN_EXPONENT);
    PositivePow2(-1075);
    ScaleOrder(0.0, product, -53);
    if MagnitudeToFloat64(product).Finite? {
      FloatClose(product);
    }
  }

  lemma ProductBound(t: real, x: real, slack: real, price: real)
    requires Distance(t, x) <= slack && price > 0.0
    ensures Scale(Dollars(t, price), -53) <= Scale(Dollars(x + slack, price), -53)
  {
    hide Pow2, Scale;
    TimesOrder(t, x + slack, price);
    ScaleOrder(Dollars(t, price), Dollars(x + slack, price), -53);
  }

  lemma Triangle(a: real, b: real, c: real)
    ensures Distance(a, c) <= Distance(a, b) + Distance(b, c)
  {
  }

  lemma ScaledDistance(t: real, x: real, slack: real, price: real)
    requires Distance(t, x) <= slack && price > 0.0 && t > 0.0
    ensures Distance(Dollars(t, price), Dollars(x, price)) <= Dollars(slack, price) && Dollars(t, price) > 0.0
  {
    assert t * price - x * price == (t - x) * price;
    if t >= x {
      assert (slack - (t - x)) * price >= 0.0;
    } else {
      assert (slack - (x - t)) * price >= 0.0;
      assert (x - t) * price > 0.0;
    }
  }
}
