/** The service's own price load: which tokens it asks for, and what it caches for each. */
module ServiceLoad {
  import opened Wrappers
  import opened Entities
  import opened Strings
  import opened NetworkDefinitions
  import opened TokenLoader
  import opened TokenPrices
  import opened PriceLoad
  import opened PriceLoadKeys
  import opened PriceLoadOutcomes

  // ---- What is asked for -------------------------------------------------------------

  /** The batches that are requested for one DEXScreener chain, in order. */
  function BatchesFor(jobs: seq<Job>, dex: string): seq<seq<TokenInfo>>
  {
    if jobs == [] then []
    else
      var before, last := BatchesFor(jobs[..|jobs| - 1], dex), jobs[|jobs| - 1];
      if last.dex == dex then before + [last.batch] else before
  }

  lemma {:induction false} BatchesOfNone(jobs: seq<Job>, dex: string)
    requires forall job :: job in jobs ==> job.dex != dex
    ensures BatchesFor(jobs, dex) == []
  {
    if jobs != [] {
      BatchesOfNone(jobs[..|jobs| - 1], dex);
    }
  }

  lemma {:induction false} BatchesOfAll(jobs: seq<Job>, dex: string)
    requires forall job :: job in jobs ==> job.dex == dex
    ensures |BatchesFor(jobs, dex)| == |jobs|
    ensures forall k :: 0 <= k < |jobs| ==> BatchesFor(jobs, dex)[k] == jobs[k].batch
  {
    if jobs != [] {
      BatchesOfAll(jobs[..|jobs| - 1], dex);
    }
  }

  lemma {:induction false} BatchesConcat(a: seq<Job>, b: seq<Job>, dex: string)
    ensures BatchesFor(a + b, dex) == BatchesFor(a, dex) + BatchesFor(b, dex)
  {
    if b == [] {
      assert a + b == a;
    } else {
      BatchesConcat(a, b[..|b| - 1], dex);
      assert (a + b)[..|a + b| - 1] == a + b[..|b| - 1];
    }
  }

  lemma BatchesOfNetwork(d: NetworkDefinition, tokens: seq<TokenInfo>, size: nat)
    requires size > 0 && d.dexScreenerChainID != ""
    ensures BatchesFor(NetworkJobs(d, tokens, size), d.dexScreenerChainID) == BatchesOf(tokens, size)
  {
    hide BatchesOf;
    BatchesOfAll(NetworkJobs(d, tokens, size), d.dexScreenerChainID);
  }

  /** The batches are those of the tokens: all of them, each once and in order, and no more to a batch than fit. */
  ghost predicate BatchesAre(batches: seq<seq<TokenInfo>>, tokens: seq<TokenInfo>, size: nat)
  {
    Flatten(batches) == tokens && forall k :: 0 <= k < |batches| ==> 0 < |batches[k]| <= size
  }

  lemma LastNetwork(defs: seq<NetworkDefinition>, tokensByChainID: map<string, seq<TokenInfo>>, size: nat)
    requires size > 0 && defs != [] && PairwiseUnlike(defs) && defs[|defs| - 1].dexScreenerChainID != ""
    ensures var last := defs[|defs| - 1];
      BatchesAre(BatchesFor(JobsOf(defs, tokensByChainID, size), last.dexScreenerChainID),
                 ListAt(tokensByChainID, FormatUint(last.chainID)), size)
  {
    hide FormatUint, BatchesOf, BatchesFor, Flatten, PairwiseUnlike, NetworkJobs;
    var last := defs[|defs| - 1];
    var earlier, tokens := JobsOf(defs[..|defs| - 1], tokensByChainID, size),
                           ListAt(tokensByChainID, FormatUint(last.chainID));
    OtherDexes(defs, tokensByChainID, size);
    BatchesConcat(earlier, NetworkJobs(last, tokens, size), last.dexScreenerChainID);
    BatchesOfNone(earlier, last.dexScreenerChainID);
    BatchesOfNetwork(last, tokens, size);
    BatchesPartition(tokens, size);
    assert [] + BatchesOf(tokens, size) == BatchesOf(tokens, size);
  }

  /** A further network with another DEXScreener ID adds nothing to what is asked for one chain. */
  lemma FurtherNetwork(defs: seq<NetworkDefinition>, tokensByChainID: map<string, seq<TokenInfo>>, size: nat,
                       dex: string)
    requires size > 0 && defs != [] && defs[|defs| - 1].dexScreenerChainID != dex
    ensures BatchesFor(JobsOf(defs, tokensByChainID, size), dex)
         == BatchesFor(JobsOf(defs[..|defs| - 1], tokensByChainID, size), dex)
  {
    hide FormatUint, BatchesOf, BatchesFor;
    var last := defs[|defs| - 1];
    var jobs := NetworkJobs(last, ListAt(tokensByChainID, FormatUint(last.chainID)), size);
    BatchesConcat(JobsOf(defs[..|defs| - 1], tokensByChainID, size), jobs, dex);
    BatchesOfNone(jobs, dex);
  }

  /**
   For every network with a DEXScreener ID the load asks for exactly the tokens listed
   under its printed chain ID, each once and in order, in batches of the configured size.
   */
  lemma {:induction false} AsksForListed(defs: seq<NetworkDefinition>, tokensByChainID: map<string, seq<TokenInfo>>,
                                         size: nat, d: NetworkDefinition)
    requires size > 0 && PairwiseUnlike(defs) && d in defs && d.dexScreenerChainID != ""
    ensures BatchesAre(BatchesFor(JobsOf(defs, tokensByChainID, size), d.dexScreenerChainID),
                       ListAt(tokensByChainID, FormatUint(d.chainID)), size)
  {
    hide JobsOf, FormatUint, BatchesFor, BatchesAre;
    var front, last := defs[..|defs| - 1], defs[|defs| - 1];
    if d == last {
      LastNetwork(defs, tokensByChainID, size);
    } else {
      var i :| 0 <= i < |front| && front[i] == d;
      assert Unlike(defs[i], defs[|defs| - 1]);
      FurtherNetwork(defs, tokensByChainID, size, d.dexScreenerChainID);
      AsksForListed(front, tokensByChainID, size, d);
    }
  }

  lemma {:induction false} FlattenHas(batches: seq<seq<TokenInfo>>, i: nat) returns (k: nat, u: nat)
    requires i < |Flatten(batches)|
    ensures k < |batches| && u < |batches[k]| && batches[k][u] == Flatten(batches)[i]
  {
    if i < |batches[0]| {
      k, u := 0, i;
    } else {
      k, u := FlattenHas(batches[1..], i - |batches[0]|);
      k := k + 1;
    }
  }

  lemma {:induction false} BatchIsJob(jobs: seq<Job>, dex: string, k: nat) returns (j: nat)
    requires k < |BatchesFor(jobs, dex)|
    ensures j < |jobs| && jobs[j] == Job(dex, BatchesFor(jobs, dex)[k])
  {
    var last := |jobs| - 1;
    if jobs[last].dex == dex && k == |BatchesFor(jobs, dex)| - 1 {
      j := last;
    } else {
      j := BatchIsJob(jobs[..last], dex, k);
    }
  }

  /** So every listed token is in some batch of its network. */
  lemma ListedIsAskedFor(defs: seq<NetworkDefinition>, tokensByChainID: map<string, seq<TokenInfo>>, size: nat,
                         d: NetworkDefinition, i: nat)
    returns (j: nat, u: nat)
    requires size > 0 && PairwiseUnlike(defs) && d in defs && d.dexScreenerChainID != ""
    requires i < |ListAt(tokensByChainID, FormatUint(d.chainID))|
    ensures var jobs := JobsOf(defs, tokensByChainID, size);
      && j < |jobs| && jobs[j].dex == d.dexScreenerChainID
      && u < |jobs[j].batch| && jobs[j].batch[u] == ListAt(tokensByChainID, FormatUint(d.chainID))[i]
  {
    hide JobsOf, FormatUint, BatchesFor, Flatten, PairwiseUnlike;
    var jobs, dex := JobsOf(defs, tokensByChainID, size), d.dexScreenerChainID;
    AsksForListed(defs, tokensByChainID, size, d);
    var k;
    k, u := FlattenHas(BatchesFor(jobs, dex), i);
    j := BatchIsJob(jobs, dex, k);
  }

  // ---- What a reply offers ---------------------------------------------------------------

  /** The pair is of the token's address, in whatever letter case, and its price parses. */
  predicate Offers(pair: PairData, address: string, parse: string -> Option<real>, price: real)
  {
    EqualFold(pair.baseAddress, address) && parse(pair.priceUsd) == Some(price)
  }

  /** Of the pairs that offer the token a price the first counts. */
  lemma {:induction false} FirstOffer(pairs: seq<PairData>, address: string, parse: string -> Option<real>, price: real)
    ensures FirstPrice(pairs, address, parse) == Some(price)
       <==> exists i :: 0 <= i < |pairs| && Offers(pairs[i], address, parse, price)
                        && forall k :: 0 <= k < i ==> forall p :: !Offers(pairs[k], address, parse, p)
  {
    hide EqualFold;
    if pairs != [] {
      var first, rest := pairs[0], pairs[1..];
      FirstOffer(rest, address, parse, price);
      if EqualFold(first.baseAddress, address) && parse(first.priceUsd).Some? {
        assert Offers(first, address, parse, parse(first.priceUsd).value);
      } else {
        assert forall p :: !Offers(first, address, parse, p);
        if i :| 0 <= i < |rest| && Offers(rest[i], address, parse, price)
                && forall k :: 0 <= k < i ==> forall p :: !Offers(rest[k], address, parse, p) {
          assert pairs[i + 1] == rest[i];
          assert forall k :: 0 < k < i + 1 ==> pairs[k] == rest[k - 1];
        }
        if i :| 0 <= i < |pairs| && Offers(pairs[i], address, parse, price)
                && forall k :: 0 <= k < i ==> forall p :: !Offers(pairs[k], address, parse, p) {
          var l := i - 1;
          assert rest[l] == pairs[i];
          assert forall k :: 0 <= k < l ==> rest[k] == pairs[k + 1];
        }
      }
    }
  }

  // ---- What is cached ------------------------------------------------------------------------

  /** Some token of the entry finds this price in its batch's reply. */
  ghost predicate IsFind(load: Load, dex: string, address: string, price: Option<real>)
    requires load.Valid()
  {
    price.Some? && exists j: nat, t: nat :: HasKey(load, j, t, dex, address) && Found(load, j, t) == price
  }

  lemma {:induction false} LastFindIsFind(load: Load, j: nat, t: nat, dex: string, address: string)
    requires load.Valid() && j < |load.jobs| && t <= |load.jobs[j].batch|
    ensures LastFind(load, j, t, dex, address).Some? ==>
              IsFind(load, dex, address, LastFind(load, j, t, dex, address))
  {
    hide Found, HasKey;
    if t > 0 {
      LastFindIsFind(load, j, t - 1, dex, address);
      assert load.Has(j, t - 1);
    }
  }

  /** If the token's reply offers it a price, its address is left with a price found for it. */
  ghost predicate CachedWhenFound(load: Load, before: PriceTable, events: seq<Event>, j: nat, u: nat)
    requires load.Valid() && load.Has(j, u)
  {
    var end := Run(load, Initial(load, before), events);
    end.Some? && end.value.complete && Found(load, j, u).Some? ==>
      IsFind(load, load.jobs[j].dex, load.Address(j, u),
             PriceAt(end.value.prices, load.jobs[j].dex, load.jobs[j].batch[u].address))
  }

  ghost predicate OwnCachedWhenFound(load: Load, before: PriceTable, events: seq<Event>, j: nat, u: nat)
    requires load.Valid() && load.Has(j, u)
  {
    var end := Run(load, Initial(load, before), events);
    end.Some? && end.value.complete && Found(load, j, u).Some? ==>
      PriceAt(end.value.prices, load.jobs[j].dex, load.jobs[j].batch[u].address) == Found(load, j, u)
  }

  lemma FoundIsCached(load: Load, before: PriceTable, events: seq<Event>, j: nat, u: nat)
    requires load.Valid() && Prepared(load, before) && load.Has(j, u)
    ensures CachedWhenFound(load, before, events, j, u)
  {
    hide Run, Found, LastFind, ToLower;
    var end, dex, address := Run(load, Initial(load, before), events), load.jobs[j].dex, load.Address(j, u);
    if end.Some? && end.value.complete && Found(load, j, u).Some? {
      var entry := EntryAt(end.value.prices, dex, address);
      FinishedEntries(load, before, events, dex, address, entry);
      LastFindIff(load, j, |load.jobs[j].batch|, dex, address);
      assert HasKey(load, j, u, dex, address);
      assert BatchFind(load, j, dex, address).Some?;
      var k: nat :| k < |load.jobs| && BatchFind(load, k, dex, address) == entry;
      LastFindIsFind(load, k, |load.jobs[k].batch|, dex, address);
    }
  }

  lemma OwnFoundIsCached(load: Load, before: PriceTable, events: seq<Event>, j: nat, u: nat)
    requires load.Valid() && load.Has(j, u) && DistinctKeys(load.jobs) && CachedWhenFound(load, before, events, j, u)
    ensures OwnCachedWhenFound(load, before, events, j, u)
  {
    hide Run, Found, ToLower;
    var end, dex, address := Run(load, Initial(load, before), events), load.jobs[j].dex, load.Address(j, u);
    forall k: nat, t: nat | HasKey(load, k, t, dex, address)
      ensures k == j && t == u
    {
      assert SameKey(load.jobs, k, t, j, u);
    }
  }

  /**
   The service's load, for the active networks of any token directory: every listed token
   of a network with a DEXScreener ID is in a batch of its network. If that batch is
   answered and the answer offers the token a price, then a price is cached for the token
   under its network when the load has finished, whatever the schedule: one found for that
   address, and so the token's own one if no list repeats an address.
   */
  lemma ListedTokenCached(files: seq<DirEntry>, tokensByChainID: map<string, seq<TokenInfo>>, configured: int,
                          limit: nat, replies: seq<Option<seq<PairData>>>, parse: string -> Option<real>,
                          cached: PriceTable, events: seq<Event>, d: NetworkDefinition, i: nat)
    returns (j: nat, u: nat)
    requires d in ActiveDefinitions(ByIdentifier(KNOWN_DEFINITIONS), files) && d.dexScreenerChainID != ""
    requires i < |ListAt(tokensByChainID, FormatUint(d.chainID))|
    requires var defs := ActiveDefinitions(ByIdentifier(KNOWN_DEFINITIONS), files);
      limit > 0 && |replies| == |JobsOf(defs, tokensByChainID, BatchSize(configured))|
    ensures var defs := ActiveDefinitions(ByIdentifier(KNOWN_DEFINITIONS), files);
      var load := Load(JobsOf(defs, tokensByChainID, BatchSize(configured)), limit, replies, parse);
      var token := ListAt(tokensByChainID, FormatUint(d.chainID))[i];
      && load.Has(j, u) && load.jobs[j].dex == d.dexScreenerChainID && load.jobs[j].batch[u] == token
      && CachedWhenFound(load, WithChains(cached, defs), events, j, u)
      && ((forall chain :: DistinctAddresses(ListAt(tokensByChainID, chain))) ==>
            OwnCachedWhenFound(load, WithChains(cached, defs), events, j, u))
  {
    var defs := ActiveDefinitions(ByIdentifier(KNOWN_DEFINITIONS), files);
    ActiveNetworksUnlike(files);
    hide ActiveDefinitions, ByIdentifier, KNOWN_DEFINITIONS, JobsOf, WithChains, FormatUint, PairwiseUnlike,
         CachedWhenFound, OwnCachedWhenFound;
    var size := BatchSize(configured);
    j, u := ListedIsAskedFor(defs, tokensByChainID, size, d, i);
    var load := Load(JobsOf(defs, tokensByChainID, size), limit, replies, parse);
    DexesPrepared(defs, tokensByChainID, size, cached);
    FoundIsCached(load, WithChains(cached, defs), events, j, u);
    if forall chain :: DistinctAddresses(ListAt(tokensByChainID, chain)) {
      JobKeysDistinct(defs, tokensByChainID, size);
      OwnFoundIsCached(load, WithChains(cached, defs), events, j, u);
    }
  }
}
