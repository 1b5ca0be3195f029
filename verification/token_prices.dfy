/** Price selection, batching and the price caches of the token price service. */
module TokenPrices {
  import opened Wrappers
  import opened Entities
  import opened Strings
  import opened Sums

  // ---- Choosing a price among trading pairs ----------------------------------

  datatype PairData = PairData(baseAddress: string, quoteSymbol: string, priceUsd: string, liquidityUsd: Option<real>)

  const STABLECOIN_SYMBOLS: set<string> := {"USDC", "USDT", "DAI"}

  predicate Eligible(pair: PairData, baseTokenAddress: string)
  {
    EqualFold(pair.baseAddress, baseTokenAddress) && pair.priceUsd != "" && pair.priceUsd != "0"
  }

  predicate IsStablecoinPair(pair: PairData)
  {
    ToUpper(pair.quoteSymbol) in STABLECOIN_SYMBOLS
  }

  lemma StablecoinIff(pair: PairData)
    ensures IsStablecoinPair(pair)
       <==> EqualFold(pair.quoteSymbol, "USDC") || EqualFold(pair.quoteSymbol, "USDT")
            || EqualFold(pair.quoteSymbol, "DAI")
  {
    assert ToUpper("USDC") == "USDC" && ToUpper("USDT") == "USDT" && ToUpper("DAI") == "DAI";
    UpperFolds(pair.quoteSymbol, "USDC");
    UpperFolds(pair.quoteSymbol, "USDT");
    UpperFolds(pair.quoteSymbol, "DAI");
    hide ToUpper, EqualFold;
  }

  /** The eligible pairs, in order; with stable set, only those quoted in a stablecoin. */
  function Candidates(pairs: seq<PairData>, baseTokenAddress: string, stable: bool): seq<PairData>
  {
    if pairs == [] then []
    else
      var before, last := Candidates(pairs[..|pairs| - 1], baseTokenAddress, stable), pairs[|pairs| - 1];
      if Eligible(last, baseTokenAddress) && (stable ==> IsStablecoinPair(last)) then before + [last] else before
  }

  /** The candidates that matter: the stablecoin pairs if there are any. */
  function Preferred(pairs: seq<PairData>, baseTokenAddress: string): seq<PairData>
  {
    if Candidates(pairs, baseTokenAddress, true) != [] then Candidates(pairs, baseTokenAddress, true)
    else Candidates(pairs, baseTokenAddress, false)
  }

  /** Candidate j has the largest known liquidity, and no earlier one has as much. */
  ghost predicate MostLiquid(candidates: seq<PairData>, j: nat)
  {
    && j < |candidates| && candidates[j].liquidityUsd.Some?
    && (forall i :: 0 <= i < |candidates| && candidates[i].liquidityUsd.Some? ==>
          candidates[i].liquidityUsd.value <= candidates[j].liquidityUsd.value)
    && (forall i :: 0 <= i < j && candidates[i].liquidityUsd.Some? ==>
          candidates[i].liquidityUsd.value < candidates[j].liquidityUsd.value)
  }

  /**
   The pair that is picked: the first candidate when its liquidity is unknown,
   otherwise the earliest of the most liquid ones.
   */
  ghost predicate IsPick(candidates: seq<PairData>, pick: PairData)
  {
    candidates != [] &&
    if candidates[0].liquidityUsd.None? then pick == candidates[0]
    else exists j: nat :: MostLiquid(candidates, j) && pick == candidates[j]
  }

  ghost predicate IsPickOrNone(candidates: seq<PairData>, pick: Option<PairData>)
  {
    match pick
    case None => candidates == []
    case Some(pair) => IsPick(candidates, pair)
  }

  lemma PickIsUnique(candidates: seq<PairData>, a: PairData, b: PairData)
    requires IsPick(candidates, a) && IsPick(candidates, b)
    ensures a == b
  {
    if candidates[0].liquidityUsd.Some? {
      var i: nat :| MostLiquid(candidates, i) && a == candidates[i];
      var j: nat :| MostLiquid(candidates, j) && b == candidates[j];
      assert i == j;
    }
  }

  /** A later pair replaces the pick only with strictly more liquidity, both known. */
  lemma PickAfterAppend(candidates: seq<PairData>, pick: PairData, pair: PairData)
    requires IsPick(candidates, pick)
    ensures IsPick(candidates + [pair],
                   if pair.liquidityUsd.Some? && pick.liquidityUsd.Some?
                       && pair.liquidityUsd.value > pick.liquidityUsd.value
                   then pair else pick)
  {
    var longer := candidates + [pair];
    assert longer[0] == candidates[0];
    if candidates[0].liquidityUsd.Some? {
      var j: nat :| MostLiquid(candidates, j) && pick == candidates[j];
      if pair.liquidityUsd.Some? && pair.liquidityUsd.value > pick.liquidityUsd.value {
        assert MostLiquid(longer, |candidates|);
      } else {
        assert MostLiquid(longer, j);
      }
    }
  }

  lemma PickIsCandidate(candidates: seq<PairData>, pick: PairData)
    requires IsPick(candidates, pick)
    ensures pick in candidates
  {
  }

  lemma {:induction false} CandidatesAreEligible(pairs: seq<PairData>, baseTokenAddress: string, stable: bool)
    ensures forall p :: p in Candidates(pairs, baseTokenAddress, stable) <==>
              (p in pairs && Eligible(p, baseTokenAddress) && (stable ==> IsStablecoinPair(p)))
  {
    hide Eligible, IsStablecoinPair;
    if pairs != [] {
      CandidatesAreEligible(pairs[..|pairs| - 1], baseTokenAddress, stable);
      assert pairs == pairs[..|pairs| - 1] + [pairs[|pairs| - 1]];
    }
  }

  /** They are taken from the pairs' positions in order, each once. */
  lemma {:induction false} CandidatesInOrder(pairs: seq<PairData>, baseTokenAddress: string, stable: bool)
    returns (at: seq<nat>)
    ensures Picks(pairs, at, Candidates(pairs, baseTokenAddress, stable))
    ensures forall k: nat :: k in at <==>
              (k < |pairs| && Eligible(pairs[k], baseTokenAddress) && (stable ==> IsStablecoinPair(pairs[k])))
  {
    hide Eligible, IsStablecoinPair;
    at := [];
    if pairs != [] {
      var front, last := pairs[..|pairs| - 1], pairs[|pairs| - 1];
      at := CandidatesInOrder(front, baseTokenAddress, stable);
      forall i | 0 <= i < |at|
        ensures at[i] < |front|
      {
        var k: nat := at[i];
        assert k in at;
      }
      if Eligible(last, baseTokenAddress) && (stable ==> IsStablecoinPair(last)) {
        at := at + [|front|];
      }
    }
  }

  method SelectBestPriceFromPairs(pairs: seq<PairData>, baseTokenAddress: string) returns (price: string)
    ensures price == "" <==> forall p :: p in pairs ==> !Eligible(p, baseTokenAddress)
    ensures price != "" ==> exists pick :: IsPick(Preferred(pairs, baseTokenAddress), pick) && price == pick.priceUsd
  {
    CandidatesAreEligible(pairs, baseTokenAddress, false);
    CandidatesAreEligible(pairs, baseTokenAddress, true);
    if |pairs| == 0 {
      return "";
    }
    var bestOverallPair: Option<PairData> := None;
    var bestStablecoinPair: Option<PairData> := None;
    var i := 0;
    while i < |pairs|
      invariant 0 <= i <= |pairs|
      invariant IsPickOrNone(Candidates(pairs[..i], baseTokenAddress, false), bestOverallPair)
      invariant IsPickOrNone(Candidates(pairs[..i], baseTokenAddress, true), bestStablecoinPair)
    {
      var pair := pairs[i];
      assert pairs[..i + 1][..i] == pairs[..i];
      i := i + 1;
      if !EqualFold(pair.baseAddress, baseTokenAddress) {
        continue;
      }
      if pair.priceUsd == "" || pair.priceUsd == "0" {
        continue;
      }
      if IsStablecoinPair(pair) {
        bestStablecoinPair := Better(Candidates(pairs[..i - 1], baseTokenAddress, true), bestStablecoinPair, pair);
      }
      bestOverallPair := Better(Candidates(pairs[..i - 1], baseTokenAddress, false), bestOverallPair, pair);
    }
    assert pairs[..i] == pairs;
    if bestStablecoinPair.Some? {
      PickIsCandidate(Candidates(pairs, baseTokenAddress, true), bestStablecoinPair.value);
      return bestStablecoinPair.value.priceUsd;
    }
    if bestOverallPair.Some? {
      PickIsCandidate(Candidates(pairs, baseTokenAddress, false), bestOverallPair.value);
      return bestOverallPair.value.priceUsd;
    }
    price := "";
  }

  /** One comparison of the selection loop. */
  method Better(ghost candidates: seq<PairData>, best: Option<PairData>, pair: PairData)
    returns (better: Option<PairData>)
    requires IsPickOrNone(candidates, best)
    ensures better.Some? && IsPick(candidates + [pair], better.value)
  {
    if best.Some? {
      PickAfterAppend(candidates, best.value, pair);
    } else {
      assert candidates + [pair] == [pair];
      assert pair.liquidityUsd.Some? ==> MostLiquid([pair], 0);
    }
    if best.None?
       || (pair.liquidityUsd.Some? && best.value.liquidityUsd.Some?
            && pair.liquidityUsd.value > best.value.liquidityUsd.value) {
      better := Some(pair);
    } else {
      better := best;
    }
  }

  // ---- Batching --------------------------------------------------------------

  const MAX_INT := 0x7fff_ffff_ffff_ffff
  newtype Int64 = x: int | -0x8000_0000_0000_0000 <= x <= 0x7fff_ffff_ffff_ffff

  const DEFAULT_BATCH_SIZE := 30

  /** The batch size that is used for a configured one. */
  function BatchSize(configured: int): (size: nat)
    ensures size > 0
  {
    if configured <= 0 then DEFAULT_BATCH_SIZE else configured
  }

  function BatchesOf(tokens: seq<TokenInfo>, size: nat): seq<seq<TokenInfo>>
    requires size > 0
  {
    if tokens == [] then []
    else if |tokens| <= size then [tokens]
    else [tokens[..size]] + BatchesOf(tokens[size..], size)
  }

  /** One step of the loop: the batch at i, and the batches that follow it. */
  lemma BatchAt(tokens: seq<TokenInfo>, size: nat, i: nat)
    requires size > 0 && i < |tokens|
    ensures i + size <= |tokens| ==>
      BatchesOf(tokens[i..], size) == [tokens[i..i + size]] + BatchesOf(tokens[i + size..], size)
    ensures i + size > |tokens| ==> BatchesOf(tokens[i..], size) == [tokens[i..|tokens|]]
  {
    var rest := tokens[i..];
    if |rest| > size {
      assert rest[..size] == tokens[i..i + size] && rest[size..] == tokens[i + size..];
    } else if |rest| == size {
      assert tokens[i + size..] == [] && rest == tokens[i..i + size];
    } else {
      assert rest == tokens[i..|tokens|];
    }
  }

  /**
   The source's loop in signed 64-bit arithmetic: for a list of at most MaxInt/2
   tokens no index computation overflows, whatever the batch size.
   */
  method BatchTokenInfos(tokens: seq<TokenInfo>, configured: Int64) returns (batches: seq<seq<TokenInfo>>)
    requires |tokens| <= MAX_INT / 2
    ensures batches == BatchesOf(tokens, BatchSize(configured as int))
  {
    batches := [];
    var batchSize := configured;
    if batchSize <= 0 {
      batchSize := 30;
    }
    var n := |tokens| as Int64;
    ghost var size, all := batchSize as nat, BatchesOf(tokens, batchSize as nat);
    assert tokens[0..] == tokens;
    hide BatchesOf;
    var i: Int64 := 0;
    while i < n
      invariant 0 <= i && (i > 0 ==> batchSize <= i)
      invariant i <= n ==> all == batches + BatchesOf(tokens[i..], size)
      invariant i > n ==> all == batches
      decreases n as int - i as int
    {
      var end := i + batchSize;
      if end > n {
        end := n;
      }
      BatchAt(tokens, size, i as int);
      batches := batches + [tokens[i..end]];
      i := i + batchSize;
    }
    NoBatches(size);
  }

  lemma NoBatches(size: nat)
    requires size > 0
    ensures BatchesOf([], size) == []
  {
  }

  function Flatten(batches: seq<seq<TokenInfo>>): seq<TokenInfo>
  {
    if batches == [] then [] else batches[0] + Flatten(batches[1..])
  }

  /** The batches partition the tokens in order: full ones, then a last one that is not empty. */
  lemma {:induction false} BatchesPartition(tokens: seq<TokenInfo>, size: nat)
    requires size > 0
    ensures var batches := BatchesOf(tokens, size);
      && Flatten(batches) == tokens
      && (forall k :: 0 <= k < |batches| ==> 0 < |batches[k]| <= size && forall t :: t in batches[k] ==> t in tokens)
      && (forall k :: 0 <= k < |batches| - 1 ==> |batches[k]| == size)
      && (|batches| - 1) * size < |tokens| + (if tokens == [] then 1 else 0) && |tokens| <= |batches| * size
    decreases |tokens|
  {
    var batches := BatchesOf(tokens, size);
    if |tokens| > size {
      var rest := BatchesOf(tokens[size..], size);
      BatchesPartition(tokens[size..], size);
      assert batches[1..] == rest;
      assert |batches| * size == |rest| * size + size;
      assert (|batches| - 1) * size == (|rest| - 1) * size + size;
    } else if tokens != [] {
      assert Flatten(batches[1..]) == [];
    }
  }

  /** There are ceil(n / size) of them. */
  lemma BatchCount(tokens: seq<TokenInfo>, size: nat)
    requires size > 0
    ensures |BatchesOf(tokens, size)| == (|tokens| + size - 1) / size
  {
    BatchesPartition(tokens, size);
    var n, m := |tokens|, |BatchesOf(tokens, size)|;
    QuotientIs(n + size - 1, size, m);
  }

  lemma QuotientIs(a: nat, k: nat, q: nat)
    requires k > 0 && q * k <= a < q * k + k
    ensures a / k == q
  {
    var d := a / k;
    assert a == d * k + a % k;
    if d < q {
      MultiplesOrder(d + 1, q, k);
    } else if d > q {
      MultiplesOrder(q + 1, d, k);
    }
  }

  lemma MultiplesOrder(a: nat, b: nat, k: nat)
    requires a <= b
    ensures a * k <= b * k
  {
  }

  /** The batch limit after loading the configuration: only 0 is replaced. */
  function LoadedBatchLimit(configured: int): int
  {
    if configured == 0 then DEFAULT_BATCH_SIZE else configured
  }

  /** The client's guards: no empty request and none above its limit. */
  predicate ClientAccepts(count: nat, maxTokensPerRequest: int)
  {
    count > 0 && count <= maxTokensPerRequest
  }

  /**
   The loader and the client read the same limit. Every request is accepted
   exactly when the configured limit is not negative; with a negative one the
   loader falls back to 30 and the client refuses every batch.
   */
  lemma BatchesAcceptedIff(tokens: seq<TokenInfo>, configured: int)
    requires tokens != []
    ensures var limit := LoadedBatchLimit(configured);
            var batches := BatchesOf(tokens, BatchSize(limit));
      && ((forall k :: 0 <= k < |batches| ==> ClientAccepts(|batches[k]|, limit)) <==> configured >= 0)
      && ((exists k :: 0 <= k < |batches| && ClientAccepts(|batches[k]|, limit)) <==> configured >= 0)
  {
    var limit := LoadedBatchLimit(configured);
    var batches := BatchesOf(tokens, BatchSize(limit));
    BatchesPartition(tokens, BatchSize(limit));
    assert 0 < |batches[0]| <= BatchSize(limit);
    assert configured >= 0 ==> ClientAccepts(|batches[0]|, limit);
  }

  // ---- The caches --------------------------------------------------------------

  /** The cached price of a token. */
  function PriceAt(prices: PriceTable, dexScreenerChainID: string, tokenAddress: string): Option<real>
  {
    if dexScreenerChainID in prices && ToLower(tokenAddress) in prices[dexScreenerChainID]
    then Some(prices[dexScreenerChainID][ToLower(tokenAddress)])
    else None
  }

  function StorePrice(prices: PriceTable, dexScreenerChainID: string, tokenAddress: string, price: real): PriceTable
    requires dexScreenerChainID in prices
  {
    prices[dexScreenerChainID := prices[dexScreenerChainID][ToLower(tokenAddress) := price]]
  }

  /** An inner map for every network that has a DEXScreener ID; existing ones are kept. */
  function WithChains(prices: PriceTable, defs: seq<NetworkDefinition>): PriceTable
  {
    if defs == [] then prices
    else
      var before, id := WithChains(prices, defs[..|defs| - 1]), defs[|defs| - 1].dexScreenerChainID;
      if id != "" && id !in before then before[id := map[]] else before
  }

  /** Prices of native assets shared by all networks, by lower-case symbol. */
  type GlobalPrices = map<string, real>

  function GlobalPriceAt(prices: GlobalPrices, symbol: string): Option<real>
  {
    if symbol in prices then Some(prices[symbol]) else None
  }

  /** Only positive prices are taken. */
  function WithGlobalPrice(prices: GlobalPrices, symbol: string, price: real): GlobalPrices
  {
    if price <= 0.0 then prices else prices[symbol := price]
  }

  class TokenPriceService {
    var cachedPrices: PriceTable
    var globalNativePrices: GlobalPrices

    /** The invariant of the shared cache: it holds no price that is not positive. */
    ghost predicate AllPositive()
      reads this`globalNativePrices
    {
      forall symbol :: symbol in globalNativePrices ==> globalNativePrices[symbol] > 0.0
    }

    constructor ()
      ensures cachedPrices == map[] && globalNativePrices == map[] && AllPositive()
    {
      cachedPrices := map[];
      globalNativePrices := map[];
    }

    method GetPriceUSD(dexScreenerChainID: string, tokenAddress: string) returns (price: real, found: bool)
      ensures (if found then Some(price) else None) == PriceAt(cachedPrices, dexScreenerChainID, tokenAddress)
      ensures !found ==> price == 0.0
    {
      price, found := 0.0, false;
      if dexScreenerChainID in cachedPrices {
        var chainPrices := cachedPrices[dexScreenerChainID];
        if ToLower(tokenAddress) in chainPrices {
          price, found := chainPrices[ToLower(tokenAddress)], true;
        }
      }
    }

    method GetGlobalNativeTokenPrice(nativeSymbolLower: string) returns (price: real, found: bool)
      ensures (if found then Some(price) else None) == GlobalPriceAt(globalNativePrices, nativeSymbolLower)
      ensures !found ==> price == 0.0
    {
      price, found := 0.0, nativeSymbolLower in globalNativePrices;
      if found {
        price := globalNativePrices[nativeSymbolLower];
      }
    }

    method TrySetGlobalNativeTokenPrice(nativeSymbolLower: string, price: real)
      modifies this`globalNativePrices
      ensures price > 0.0 ==> GlobalPriceAt(globalNativePrices, nativeSymbolLower) == Some(price)
      ensures forall symbol :: symbol != nativeSymbolLower || price <= 0.0 ==>
                GlobalPriceAt(globalNativePrices, symbol) == GlobalPriceAt(old(globalNativePrices), symbol)
      ensures old(AllPositive()) ==> AllPositive()
      ensures globalNativePrices == WithGlobalPrice(old(globalNativePrices), nativeSymbolLower, price)
    {
      if price <= 0.0 {
        return;
      }
      globalNativePrices := globalNativePrices[nativeSymbolLower := price];
    }

    /** The loader's first critical section. */
    method PrepareChains(defs: seq<NetworkDefinition>)
      modifies this`cachedPrices
      ensures cachedPrices == WithChains(old(cachedPrices), defs)
    {
      var i := 0;
      while i < |defs|
        invariant 0 <= i <= |defs|
        invariant cachedPrices == WithChains(old(cachedPrices), defs[..i])
      {
        assert defs[..i + 1][..i] == defs[..i];
        var dexID := defs[i].dexScreenerChainID;
        if dexID != "" {
          if dexID !in cachedPrices {
            cachedPrices := cachedPrices[dexID := map[]];
          }
        }
        i := i + 1;
      }
      assert defs[..i] == defs;
    }

    /** The loader's other critical section: one parsed price is stored. */
    method CachePrice(dexScreenerChainID: string, tokenAddress: string, price: real)
      requires dexScreenerChainID in cachedPrices
      modifies this`cachedPrices
      ensures cachedPrices.Keys == old(cachedPrices.Keys)
      ensures PriceAt(cachedPrices, dexScreenerChainID, tokenAddress) == Some(price)
      ensures forall dex, address :: dex != dexScreenerChainID || !EqualFold(address, tokenAddress) ==>
                PriceAt(cachedPrices, dex, address) == PriceAt(old(cachedPrices), dex, address)
      ensures cachedPrices == StorePrice(old(cachedPrices), dexScreenerChainID, tokenAddress, price)
    {
      var chainPrices := cachedPrices[dexScreenerChainID];
      cachedPrices := cachedPrices[dexScreenerChainID := chainPrices[ToLower(tokenAddress) := price]];
    }
  }

  /** After the first critical section every network's inner map exists, and no cached price has changed. */
  lemma {:induction false} ChainsPrepared(prices: PriceTable, defs: seq<NetworkDefinition>)
    ensures forall d :: d in defs && d.dexScreenerChainID != "" ==> d.dexScreenerChainID in WithChains(prices, defs)
    ensures forall id :: id in prices ==> id in WithChains(prices, defs)
    ensures forall id, address :: PriceAt(WithChains(prices, defs), id, address) == PriceAt(prices, id, address)
  {
    if defs != [] {
      ChainsPrepared(prices, defs[..|defs| - 1]);
      assert defs == defs[..|defs| - 1] + [defs[|defs| - 1]];
    }
  }
}
