/**
 Loading the price cache: one goroutine per batch of tokens, at most `limit`
 of them at a time, all writing one two-level map. The run is a transition
 system; it is compared with a sequential load.
 */
module PriceLoad {
  import opened Wrappers
  import opened Entities
  import opened Strings
  import opened Sums
  import opened TokenLoader
  import opened TokenPrices

  // ---- What there is to load -------------------------------------------------

  datatype Job = Job(dex: string, batch: seq<TokenInfo>)

  /** The batches of one network; none without a DEXScreener ID or tokens. */
  function NetworkJobs(d: NetworkDefinition, tokens: seq<TokenInfo>, size: nat): seq<Job>
    requires size > 0
  {
    if d.dexScreenerChainID == "" then []
    else
      var batches := BatchesOf(tokens, size);
      seq(|batches|, k requires 0 <= k < |batches| => Job(d.dexScreenerChainID, batches[k]))
  }

  function JobsOf(defs: seq<NetworkDefinition>, tokensByChainID: map<string, seq<TokenInfo>>, size: nat): seq<Job>
    requires size > 0
  {
    if defs == [] then []
    else
      var last := defs[|defs| - 1];
      JobsOf(defs[..|defs| - 1], tokensByChainID, size)
      + NetworkJobs(last, ListAt(tokensByChainID, FormatUint(last.chainID)), size)
  }

  /** The replies are None where the request failed; parse is None where a price string does not parse. */
  datatype Load = Load(jobs: seq<Job>, limit: nat, replies: seq<Option<seq<PairData>>>, parse: string -> Option<real>)
  {
    ghost predicate Valid()
    {
      limit > 0 && |replies| == |jobs|
    }

    predicate Has(j: nat, t: nat)
    {
      j < |jobs| && t < |jobs[j].batch|
    }

    function Address(j: nat, t: nat): string
      requires Has(j, t)
    {
      ToLower(jobs[j].batch[t].address)
    }
  }

  /** The price of the first pair, in response order, that matches the address and parses. */
  function FirstPrice(pairs: seq<PairData>, address: string, parse: string -> Option<real>): Option<real>
  {
    if pairs == [] then None
    else if EqualFold(pairs[0].baseAddress, address) && parse(pairs[0].priceUsd).Some? then parse(pairs[0].priceUsd)
    else FirstPrice(pairs[1..], address, parse)
  }

  /** The price that token t of batch j should get, if any. */
  function Found(load: Load, j: nat, t: nat): Option<real>
    requires load.Valid() && load.Has(j, t)
  {
    if load.replies[j].None? then None
    else FirstPrice(load.replies[j].value, load.jobs[j].batch[t].address, load.parse)
  }

  function EntryAt(prices: PriceTable, dex: string, address: string): Option<real>
  {
    if dex in prices && address in prices[dex] then Some(prices[dex][address]) else None
  }

  /** The inner map of every batch's chain exists. */
  ghost predicate Prepared(load: Load, prices: PriceTable)
  {
    forall j :: 0 <= j < |load.jobs| ==> load.jobs[j].dex in prices
  }

  // ---- The sequential load -------------------------------------------------------

  function LoadTokens(load: Load, prices: PriceTable, j: nat, t: nat): (after: PriceTable)
    requires load.Valid() && j < |load.jobs| && t <= |load.jobs[j].batch| && load.jobs[j].dex in prices
    ensures after.Keys == prices.Keys
  {
    if t == 0 then prices
    else
      var earlier := LoadTokens(load, prices, j, t - 1);
      match Found(load, j, t - 1)
      case None => earlier
      case Some(price) => StorePrice(earlier, load.jobs[j].dex, load.jobs[j].batch[t - 1].address, price)
  }

  function LoadJobs(load: Load, prices: PriceTable, n: nat): (after: PriceTable)
    requires load.Valid() && n <= |load.jobs| && Prepared(load, prices)
    ensures after.Keys == prices.Keys
  {
    if n == 0 then prices
    else LoadTokens(load, LoadJobs(load, prices, n - 1), n - 1, |load.jobs[n - 1].batch|)
  }

  /** Two tokens have one cache entry. */
  ghost predicate SameKey(jobs: seq<Job>, j: nat, t: nat, k: nat, u: nat)
    requires j < |jobs| && t < |jobs[j].batch| && k < |jobs| && u < |jobs[k].batch|
  {
    jobs[j].dex == jobs[k].dex && ToLower(jobs[j].batch[t].address) == ToLower(jobs[k].batch[u].address)
  }

  predicate HasKey(load: Load, j: nat, t: nat, dex: string, address: string)
  {
    load.Has(j, t) && load.jobs[j].dex == dex && load.Address(j, t) == address
  }

  /** Tokens of other entries leave an entry alone. */
  lemma {:induction false} OtherTokens(load: Load, prices: PriceTable, j: nat, t: nat, dex: string, address: string)
    requires load.Valid() && j < |load.jobs| && t <= |load.jobs[j].batch| && load.jobs[j].dex in prices
    requires forall u: nat :: u < t && HasKey(load, j, u, dex, address) ==> Found(load, j, u).None?
    ensures EntryAt(LoadTokens(load, prices, j, t), dex, address) == EntryAt(prices, dex, address)
  {
    hide Found, ToLower;
    if t > 0 {
      OtherTokens(load, prices, j, t - 1, dex, address);
      assert load.Has(j, t - 1);
    }
  }

  /** The last token of an entry to find a price decides it. */
  lemma {:induction false} LastToken(load: Load, prices: PriceTable, j: nat, t: nat, m: nat)
    requires load.Valid() && j < |load.jobs| && t < m <= |load.jobs[j].batch| && load.jobs[j].dex in prices
    requires Found(load, j, t).Some?
    requires forall u: nat :: t < u < m && SameKey(load.jobs, j, t, j, u) ==> Found(load, j, u).None?
    ensures EntryAt(LoadTokens(load, prices, j, m), load.jobs[j].dex, load.Address(j, t)) == Found(load, j, t)
  {
    hide Found, ToLower;
    if t < m - 1 {
      LastToken(load, prices, j, t, m - 1);
      assert SameKey(load.jobs, j, t, j, m - 1) ==> Found(load, j, m - 1).None?;
    }
  }

  /** A refused batch changes nothing. */
  lemma {:induction false} RefusedTokens(load: Load, prices: PriceTable, j: nat, t: nat)
    requires load.Valid() && j < |load.jobs| && t <= |load.jobs[j].batch| && load.jobs[j].dex in prices
    requires load.replies[j].None?
    ensures LoadTokens(load, prices, j, t) == prices
  {
    if t > 0 {
      RefusedTokens(load, prices, j, t - 1);
    }
  }

  /** No token after this one, in the order of the load, has its entry and finds a price. */
  ghost predicate FindsLast(load: Load, j: nat, t: nat)
    requires load.Valid() && load.Has(j, t)
  {
    && Found(load, j, t).Some?
    && forall k: nat, u: nat :: load.Has(k, u) && (j < k || (j == k && t < u)) && SameKey(load.jobs, j, t, k, u)
         ==> Found(load, k, u).None?
  }

  lemma {:induction false} LastJob(load: Load, prices: PriceTable, j: nat, t: nat, n: nat)
    requires load.Valid() && Prepared(load, prices) && load.Has(j, t) && j < n <= |load.jobs| && FindsLast(load, j, t)
    ensures EntryAt(LoadJobs(load, prices, n), load.jobs[j].dex, load.Address(j, t)) == Found(load, j, t)
  {
    hide Found, LoadTokens, LoadJobs, Prepared, ToLower;
    JobsNext(load, prices, n - 1);
    var before := LoadJobs(load, prices, n - 1);
    if j == n - 1 {
      LastToken(load, before, j, t, |load.jobs[j].batch|);
    } else {
      LastJob(load, prices, j, t, n - 1);
      var k, dex, address := n - 1, load.jobs[j].dex, load.Address(j, t);
      forall u: nat | u < |load.jobs[k].batch| && HasKey(load, k, u, dex, address)
        ensures Found(load, k, u).None?
      {
        assert SameKey(load.jobs, j, t, k, u);
      }
      OtherTokens(load, before, k, |load.jobs[k].batch|, dex, address);
    }
  }

  lemma {:induction false} NoFinder(load: Load, prices: PriceTable, n: nat, dex: string, address: string)
    requires load.Valid() && Prepared(load, prices) && n <= |load.jobs|
    requires forall j: nat, t: nat :: j < n && HasKey(load, j, t, dex, address) ==> Found(load, j, t).None?
    ensures EntryAt(LoadJobs(load, prices, n), dex, address) == EntryAt(prices, dex, address)
  {
    hide Found, LoadTokens, ToLower;
    if n > 0 {
      NoFinder(load, prices, n - 1, dex, address);
      OtherTokens(load, LoadJobs(load, prices, n - 1), n - 1, |load.jobs[n - 1].batch|, dex, address);
    }
  }

  /**
   What the sequential load caches, entry by entry: the price of the last token of that
   entry to find one, and otherwise what was there.
   */
  lemma LoadedEntries(load: Load, prices: PriceTable)
    requires load.Valid() && Prepared(load, prices)
    ensures var after := LoadJobs(load, prices, |load.jobs|);
      && (forall j: nat, t: nat :: load.Has(j, t) && FindsLast(load, j, t) ==>
            PriceAt(after, load.jobs[j].dex, load.jobs[j].batch[t].address) == Found(load, j, t))
      && (forall dex, address :: NoneFinds(load, dex, address) ==>
            EntryAt(after, dex, address) == EntryAt(prices, dex, address))
  {
    hide Found, LoadJobs, FindsLast, ToLower;
    var after := LoadJobs(load, prices, |load.jobs|);
    forall j: nat, t: nat | load.Has(j, t) && FindsLast(load, j, t)
      ensures PriceAt(after, load.jobs[j].dex, load.jobs[j].batch[t].address) == Found(load, j, t)
    {
      LastJob(load, prices, j, t, |load.jobs|);
    }
    forall dex, address | NoneFinds(load, dex, address)
      ensures EntryAt(after, dex, address) == EntryAt(prices, dex, address)
    {
      NoFinder(load, prices, |load.jobs|, dex, address);
    }
  }

  ghost predicate NoneFinds(load: Load, dex: string, address: string)
    requires load.Valid()
  {
    forall j: nat, t: nat :: HasKey(load, j, t, dex, address) ==> Found(load, j, t).None?
  }

  // ---- A load in progress ------------------------------------------------------------

  /** How many tokens of each batch have been dealt with. */
  type Dealing = nat -> nat

  function Capped(load: Load, j: nat, dealt: Dealing): (t: nat)
    requires j < |load.jobs|
    ensures t <= |load.jobs[j].batch|
  {
    if dealt(j) <= |load.jobs[j].batch| then dealt(j) else |load.jobs[j].batch|
  }

  /** The cache when the tokens dealt with, and no others, have been loaded, batch after batch. */
  ghost function Partial(load: Load, prices: PriceTable, dealt: Dealing, n: nat): (after: PriceTable)
    requires load.Valid() && n <= |load.jobs| && Prepared(load, prices)
    ensures after.Keys == prices.Keys
  {
    if n == 0 then prices
    else LoadTokens(load, Partial(load, prices, dealt, n - 1), n - 1, Capped(load, n - 1, dealt))
  }

  lemma PartialNext(load: Load, prices: PriceTable, dealt: Dealing, n: nat)
    requires load.Valid() && n < |load.jobs| && Prepared(load, prices)
    ensures load.jobs[n].dex in Partial(load, prices, dealt, n)
    ensures Partial(load, prices, dealt, n + 1)
         == LoadTokens(load, Partial(load, prices, dealt, n), n, Capped(load, n, dealt))
  {
    hide LoadTokens, Capped;
  }

  lemma NoneLoaded(load: Load, prices: PriceTable, dealt: Dealing)
    requires load.Valid() && Prepared(load, prices)
    ensures Partial(load, prices, dealt, 0) == LoadJobs(load, prices, 0) == prices
  {
  }

  lemma JobsNext(load: Load, prices: PriceTable, n: nat)
    requires load.Valid() && n < |load.jobs| && Prepared(load, prices)
    ensures load.jobs[n].dex in LoadJobs(load, prices, n)
    ensures LoadJobs(load, prices, n + 1) == LoadTokens(load, LoadJobs(load, prices, n), n, |load.jobs[n].batch|)
  {
    hide LoadTokens;
  }

  /** Batches that count the same, or are refused, give the same cache. */
  lemma {:induction false} SamePartial(load: Load, prices: PriceTable, dealt: Dealing, dealt': Dealing, n: nat)
    requires load.Valid() && n <= |load.jobs| && Prepared(load, prices)
    requires forall j: nat :: j < n ==> Capped(load, j, dealt) == Capped(load, j, dealt') || load.replies[j].None?
    ensures Partial(load, prices, dealt, n) == Partial(load, prices, dealt', n)
  {
    hide LoadTokens, Capped, Partial, Prepared;
    if n == 0 {
      NoneLoaded(load, prices, dealt);
      NoneLoaded(load, prices, dealt');
    } else {
      PartialNext(load, prices, dealt, n - 1);
      PartialNext(load, prices, dealt', n - 1);
      SamePartial(load, prices, dealt, dealt', n - 1);
      if load.replies[n - 1].None? {
        var before := Partial(load, prices, dealt, n - 1);
        RefusedTokens(load, before, n - 1, Capped(load, n - 1, dealt));
        RefusedTokens(load, before, n - 1, Capped(load, n - 1, dealt'));
      }
    }
  }

  lemma {:induction false} NothingDealt(load: Load, prices: PriceTable, dealt: Dealing, n: nat)
    requires load.Valid() && n <= |load.jobs| && Prepared(load, prices) && forall j: nat :: j < n ==> dealt(j) == 0
    ensures Partial(load, prices, dealt, n) == prices
  {
    if n > 0 {
      NothingDealt(load, prices, dealt, n - 1);
    }
  }

  lemma {:induction false} AllDealt(load: Load, prices: PriceTable, dealt: Dealing, n: nat)
    requires load.Valid() && n <= |load.jobs| && Prepared(load, prices)
    requires forall j: nat :: j < n ==> dealt(j) >= |load.jobs[j].batch|
    ensures Partial(load, prices, dealt, n) == LoadJobs(load, prices, n)
  {
    hide LoadTokens, Partial, LoadJobs, Prepared;
    if n == 0 {
      NoneLoaded(load, prices, dealt);
    } else {
      PartialNext(load, prices, dealt, n - 1);
      JobsNext(load, prices, n - 1);
      AllDealt(load, prices, dealt, n - 1);
    }
  }

  lemma UpdatesCommute<T>(m: map<string, T>, k: string, v: T, l: string, w: T)
    requires k != l
    ensures m[k := v][l := w] == m[l := w][k := v]
  {
  }

  lemma StoresCommute(prices: PriceTable, dex: string, a: string, x: real, dex': string, b: string, y: real)
    requires dex in prices && dex' in prices && (dex != dex' || ToLower(a) != ToLower(b))
    ensures StorePrice(StorePrice(prices, dex, a, x), dex', b, y)
         == StorePrice(StorePrice(prices, dex', b, y), dex, a, x)
  {
    hide ToLower;
    var inner, inner' := prices[dex][ToLower(a) := x], prices[dex'][ToLower(b) := y];
    if dex == dex' {
      UpdatesCommute(prices[dex], ToLower(a), x, ToLower(b), y);
      var both := inner[ToLower(b) := y];
      assert prices[dex := inner][dex := both] == prices[dex := both] == prices[dex := inner'][dex := both];
    } else {
      UpdatesCommute(prices, dex, inner, dex', inner');
    }
  }

  /** A store before a batch of other entries might as well come after it. */
  lemma {:induction false} StoreBehind(load: Load, prices: PriceTable, k: nat, u: nat, dex: string, address: string,
                                       price: real)
    requires load.Valid() && k < |load.jobs| && u <= |load.jobs[k].batch| && load.jobs[k].dex in prices && dex in prices
    requires forall v: nat :: v < u ==> !HasKey(load, k, v, dex, ToLower(address))
    ensures LoadTokens(load, StorePrice(prices, dex, address, price), k, u)
         == StorePrice(LoadTokens(load, prices, k, u), dex, address, price)
  {
    hide Found, ToLower, StorePrice;
    assert StorePrice(prices, dex, address, price).Keys == prices.Keys by { StoreKeys(prices, dex, address, price); }
    if u > 0 {
      StoreBehind(load, prices, k, u - 1, dex, address, price);
      assert load.Has(k, u - 1) && !HasKey(load, k, u - 1, dex, ToLower(address));
      var found := Found(load, k, u - 1);
      if found.Some? {
        StoresCommute(LoadTokens(load, prices, k, u - 1), dex, address, price,
                      load.jobs[k].dex, load.jobs[k].batch[u - 1].address, found.value);
      }
    }
  }

  lemma StoreKeys(prices: PriceTable, dex: string, address: string, price: real)
    requires dex in prices
    ensures StorePrice(prices, dex, address, price).Keys == prices.Keys
  {
  }

  /** What is written for token t of batch j. */
  function Stored(load: Load, prices: PriceTable, j: nat, t: nat): PriceTable
    requires load.Valid() && load.Has(j, t) && load.jobs[j].dex in prices
  {
    match Found(load, j, t)
    case None => prices
    case Some(price) => StorePrice(prices, load.jobs[j].dex, load.jobs[j].batch[t].address, price)
  }

  /** No token dealt with in a later batch has the entry of token t of batch j. */
  ghost predicate NoneLater(load: Load, dealt: Dealing, j: nat, t: nat)
    requires load.Has(j, t)
  {
    forall k: nat, u: nat :: j < k && load.Has(k, u) && u < dealt(k) ==> !SameKey(load.jobs, j, t, k, u)
  }

  /** Writing the next token of a batch is right if no later batch has written its entry. */
  lemma {:induction false} DealOneMore(load: Load, prices: PriceTable, dealt: Dealing, dealt': Dealing, j: nat, t: nat,
                                       n: nat)
    requires load.Valid() && Prepared(load, prices) && load.Has(j, t) && j < n <= |load.jobs|
    requires dealt(j) == t && dealt'(j) == t + 1 && forall k: nat :: k != j ==> dealt'(k) == dealt(k)
    requires NoneLater(load, dealt, j, t)
    ensures load.jobs[j].dex in Partial(load, prices, dealt, n)
    ensures Partial(load, prices, dealt', n) == Stored(load, Partial(load, prices, dealt, n), j, t)
  {
    hide *;
    if n == j + 1 {
      DealLast(load, prices, dealt, dealt', j, t);
    } else {
      DealOneMore(load, prices, dealt, dealt', j, t, n - 1);
      NoneBehind(load, dealt, j, t, n - 1);
      DealBehind(load, prices, dealt, dealt', j, t, n - 1);
    }
  }

  /** A batch of other entries may follow. */
  lemma DealBehind(load: Load, prices: PriceTable, dealt: Dealing, dealt': Dealing, j: nat, t: nat, n: nat)
    requires load.Valid() && Prepared(load, prices) && load.Has(j, t) && j < n < |load.jobs| && dealt'(n) == dealt(n)
    requires load.jobs[j].dex in Partial(load, prices, dealt, n)
    requires Partial(load, prices, dealt', n) == Stored(load, Partial(load, prices, dealt, n), j, t)
    requires forall v: nat :: v < Capped(load, n, dealt)
               ==> !HasKey(load, n, v, load.jobs[j].dex, ToLower(load.jobs[j].batch[t].address))
    ensures load.jobs[j].dex in Partial(load, prices, dealt, n + 1)
    ensures Partial(load, prices, dealt', n + 1) == Stored(load, Partial(load, prices, dealt, n + 1), j, t)
  {
    hide Found, LoadTokens, ToLower, Partial, Prepared, Stored, Capped, HasKey;
    PartialNext(load, prices, dealt, n);
    PartialNext(load, prices, dealt', n);
    CappedAlike(load, n, dealt, dealt');
    StoredBehind(load, Partial(load, prices, dealt, n), j, t, n, Capped(load, n, dealt));
  }

  lemma DealLast(load: Load, prices: PriceTable, dealt: Dealing, dealt': Dealing, j: nat, t: nat)
    requires load.Valid() && Prepared(load, prices) && load.Has(j, t)
    requires dealt(j) == t && dealt'(j) == t + 1 && forall k: nat :: k != j ==> dealt'(k) == dealt(k)
    ensures load.jobs[j].dex in Partial(load, prices, dealt, j + 1)
    ensures Partial(load, prices, dealt', j + 1) == Stored(load, Partial(load, prices, dealt, j + 1), j, t)
  {
    hide Found, LoadTokens, ToLower, Partial, Prepared, Stored, Capped;
    PartialNext(load, prices, dealt, j);
    PartialNext(load, prices, dealt', j);
    CappedAt(load, j, t, dealt, dealt');
    SamePartial(load, prices, dealt, dealt', j);
    OneMoreToken(load, Partial(load, prices, dealt, j), j, t);
  }

  lemma StoredBehind(load: Load, prices: PriceTable, j: nat, t: nat, k: nat, u: nat)
    requires load.Valid() && load.Has(j, t) && load.jobs[j].dex in prices
    requires k < |load.jobs| && u <= |load.jobs[k].batch| && load.jobs[k].dex in prices
    requires forall v: nat :: v < u ==> !HasKey(load, k, v, load.jobs[j].dex, ToLower(load.jobs[j].batch[t].address))
    ensures load.jobs[k].dex in Stored(load, prices, j, t)
    ensures LoadTokens(load, Stored(load, prices, j, t), k, u) == Stored(load, LoadTokens(load, prices, k, u), j, t)
  {
    hide Found, LoadTokens, ToLower, StorePrice, HasKey;
    var dex, address, found := load.jobs[j].dex, load.jobs[j].batch[t].address, Found(load, j, t);
    if found.Some? {
      StoreKeys(prices, dex, address, found.value);
      StoreBehind(load, prices, k, u, dex, address, found.value);
    }
  }

  lemma CappedAt(load: Load, j: nat, t: nat, dealt: Dealing, dealt': Dealing)
    requires load.Has(j, t) && dealt(j) == t && dealt'(j) == t + 1 && forall k: nat :: k != j ==> dealt'(k) == dealt(k)
    ensures Capped(load, j, dealt) == t && Capped(load, j, dealt') == t + 1
    ensures forall k: nat :: k < j ==> Capped(load, k, dealt) == Capped(load, k, dealt')
  {
  }

  lemma CappedAlike(load: Load, k: nat, dealt: Dealing, dealt': Dealing)
    requires k < |load.jobs| && dealt'(k) == dealt(k)
    ensures Capped(load, k, dealt) == Capped(load, k, dealt')
  {
  }

  lemma NoneBehind(load: Load, dealt: Dealing, j: nat, t: nat, k: nat)
    requires load.Has(j, t) && j < k < |load.jobs| && NoneLater(load, dealt, j, t)
    ensures forall v: nat :: v < Capped(load, k, dealt)
              ==> !HasKey(load, k, v, load.jobs[j].dex, ToLower(load.jobs[j].batch[t].address))
  {
    hide ToLower;
    forall v: nat | v < Capped(load, k, dealt)
      ensures !HasKey(load, k, v, load.jobs[j].dex, ToLower(load.jobs[j].batch[t].address))
    {
      assert load.Has(k, v) && !SameKey(load.jobs, j, t, k, v);
    }
  }

  lemma OneMoreToken(load: Load, prices: PriceTable, j: nat, t: nat)
    requires load.Valid() && load.Has(j, t) && load.jobs[j].dex in prices
    ensures LoadTokens(load, prices, j, t + 1) == Stored(load, LoadTokens(load, prices, j, t), j, t)
  {
  }

  // ---- The concurrent load ---------------------------------------------------------

  /** Where a batch's goroutine stands. */
  datatype Phase =
    | Waiting                        // not yet spawned
    | Started                        // spawned, holding a slot
    | Scanning(token: nat, pair: nat) // comparing a token with the pairs of the reply
    | Returning                      // work done, deferred calls pending
    | Released                       // slot given back
    | Finished                       // wg.Done called

  /** `next` is the job the spawning loop is at; `acquired` says it has taken a slot for it. */
  datatype LoadState = LoadState(
    next: nat,
    acquired: bool,
    slots: nat,
    phases: seq<Phase>,
    prices: PriceTable,
    complete: bool)

  datatype Event = Acquire | Spawn | Fetch(j: nat) | Scan(j: nat) | Release(j: nat) | Leave(j: nat) | Complete

  function Initial(load: Load, prices: PriceTable): LoadState
  {
    LoadState(0, false, 0, seq(|load.jobs|, _ => Waiting), prices, false)
  }

  predicate Enabled(load: Load, s: LoadState, ev: Event)
  {
    match ev
    case Acquire => s.next < |load.jobs| && !s.acquired && s.slots < load.limit
    case Spawn => s.next < |s.phases| && s.acquired
    case Fetch(j) => j < |s.phases| && s.phases[j].Started?
    case Scan(j) => j < |s.phases| && s.phases[j].Scanning?
    case Release(j) => j < |s.phases| && s.phases[j].Returning? && s.slots > 0
    case Leave(j) => j < |s.phases| && s.phases[j].Released?
    case Complete => s.next == |load.jobs| && !s.complete && forall j :: 0 <= j < |s.phases| ==> s.phases[j].Finished?
  }

  /** The token and pair a scan is at give a price to store. */
  function Hit(load: Load, j: nat, phase: Phase): Option<real>
    requires load.Valid() && j < |load.jobs|
  {
    if phase.Scanning? && load.replies[j].Some? && phase.token < |load.jobs[j].batch|
       && phase.pair < |load.replies[j].value|
       && EqualFold(load.replies[j].value[phase.pair].baseAddress, load.jobs[j].batch[phase.token].address)
    then load.parse(load.replies[j].value[phase.pair].priceUsd)
    else None
  }

  function NextPhase(load: Load, j: nat, phase: Phase): Phase
    requires load.Valid() && j < |load.jobs|
  {
    match phase
    case Waiting => Started
    case Started => if load.replies[j].None? then Returning else Scanning(0, 0)
    case Scanning(t, p) =>
      if t >= |load.jobs[j].batch| then Returning
      else if load.replies[j].None? || p >= |load.replies[j].value| || Hit(load, j, phase).Some? then Scanning(t + 1, 0)
      else Scanning(t, p + 1)
    case Returning => Released
    case Released => Finished
    case Finished => Finished
  }

  /** The write into the inner map; a missing inner map is a nil map in the source, which would panic. */
  function Written(load: Load, s: LoadState, j: nat): PriceTable
    requires load.Valid() && j < |load.jobs| && j < |s.phases|
  {
    match Hit(load, j, s.phases[j])
    case None => s.prices
    case Some(price) =>
      if load.jobs[j].dex in s.prices
      then StorePrice(s.prices, load.jobs[j].dex, load.jobs[j].batch[s.phases[j].token].address, price)
      else s.prices
  }

  function Moved(load: Load, s: LoadState, j: nat): seq<Phase>
    requires load.Valid() && j < |load.jobs| && |s.phases| == |load.jobs|
  {
    s.phases[j := NextPhase(load, j, s.phases[j])]
  }

  function Apply(load: Load, s: LoadState, ev: Event): LoadState
    requires load.Valid() && |s.phases| == |load.jobs| && Enabled(load, s, ev)
  {
    match ev
    case Acquire => s.(acquired := true, slots := s.slots + 1)
    case Spawn => s.(acquired := false, next := s.next + 1, phases := Moved(load, s, s.next))
    case Fetch(j) => s.(phases := Moved(load, s, j))
    case Scan(j) => s.(prices := Written(load, s, j), phases := Moved(load, s, j))
    case Release(j) => s.(slots := s.slots - 1, phases := Moved(load, s, j))
    case Leave(j) => s.(phases := Moved(load, s, j))
    case Complete => s.(complete := true)
  }

  // ---- Control: slots, progress, termination ---------------------------------------

  function Holds(phase: Phase): nat
  {
    if phase.Started? || phase.Scanning? || phase.Returning? then 1 else 0
  }

  function HoldsAll(phases: seq<Phase>): seq<nat>
  {
    seq(|phases|, j requires 0 <= j < |phases| => Holds(phases[j]))
  }

  /** Upper bound on the steps a batch still takes. */
  function Rank(load: Load, j: nat, phase: Phase): nat
    requires load.Valid() && j < |load.jobs|
  {
    var tokens := |load.jobs[j].batch|;
    var width := if load.replies[j].None? then 2 else |load.replies[j].value| + 2;
    match phase
    case Waiting => tokens * width + width + 5
    case Started => tokens * width + width + 4
    case Scanning(t, p) => (if t <= tokens then (tokens - t) * width else 0) + (if p <= width then width - p else 0) + 3
    case Returning => 2
    case Released => 1
    case Finished => 0
  }

  function Ranks(load: Load, phases: seq<Phase>): seq<nat>
    requires load.Valid() && |phases| == |load.jobs|
  {
    seq(|phases|, j requires 0 <= j < |phases| => Rank(load, j, phases[j]))
  }

  function Measure(load: Load, s: LoadState): int
    requires load.Valid() && |s.phases| == |load.jobs|
  {
    SumNat(Ranks(load, s.phases)) + 2 * (|load.jobs| - s.next)
    - (if s.acquired then 1 else 0) + (if s.complete then 0 else 1)
  }

  ghost predicate PhaseFits(load: Load, j: nat, phase: Phase)
    requires load.Valid() && j < |load.jobs|
  {
    phase.Scanning? ==>
      && load.replies[j].Some? && phase.token <= |load.jobs[j].batch| && phase.pair <= |load.replies[j].value|
      && (phase.token == |load.jobs[j].batch| ==> phase.pair == 0)
  }

  /** What every reachable state satisfies, whatever the prices are. */
  ghost predicate Control(load: Load, s: LoadState)
  {
    && load.Valid() && |s.phases| == |load.jobs|
    && s.next <= |load.jobs| && (s.acquired ==> s.next < |load.jobs|)
    && (forall j :: 0 <= j < |s.phases| ==> (s.phases[j].Waiting? <==> j >= s.next) && PhaseFits(load, j, s.phases[j]))
    && s.slots == SumNat(HoldsAll(s.phases)) + (if s.acquired then 1 else 0)
    && s.slots <= load.limit
    && (s.complete ==> s.next == |load.jobs| && forall j :: 0 <= j < |s.phases| ==> s.phases[j].Finished?)
  }

  lemma InitialControl(load: Load, prices: PriceTable)
    requires load.Valid()
    ensures Control(load, Initial(load, prices))
  {
    SumNatZero(HoldsAll(Initial(load, prices).phases));
  }

  lemma HoldsAfterMove(load: Load, s: LoadState, j: nat)
    requires load.Valid() && |s.phases| == |load.jobs| && j < |s.phases|
    ensures SumNat(HoldsAll(Moved(load, s, j))) + Holds(s.phases[j])
         == SumNat(HoldsAll(s.phases)) + Holds(NextPhase(load, j, s.phases[j]))
  {
    hide NextPhase, Holds;
    var after := NextPhase(load, j, s.phases[j]);
    assert HoldsAll(Moved(load, s, j)) == HoldsAll(s.phases)[j := Holds(after)];
    SumNatUpdate(HoldsAll(s.phases), j, Holds(after));
  }

  /** No more than `limit` batches are under way after any step. */
  lemma ControlKept(load: Load, s: LoadState, ev: Event)
    requires Control(load, s) && Enabled(load, s, ev)
    ensures Control(load, Apply(load, s, ev))
  {
    hide SumNat, Hit, StorePrice;
    match ev {
      case Acquire =>
      case Complete =>
      case Spawn => HoldsAfterMove(load, s, s.next);
      case Fetch(j) => HoldsAfterMove(load, s, j);
      case Scan(j) => HoldsAfterMove(load, s, j);
      case Release(j) => HoldsAfterMove(load, s, j);
      case Leave(j) => HoldsAfterMove(load, s, j);
    }
  }

  /** An unfinished load can always take a step. */
  lemma NeverStuck(load: Load, s: LoadState) returns (ev: Event)
    requires Control(load, s) && !s.complete
    ensures Enabled(load, s, ev)
  {
    hide SumNat, PhaseFits;
    if s.acquired {
      return Spawn;
    }
    if j :| 0 <= j < |s.phases| && !s.phases[j].Waiting? && !s.phases[j].Finished? {
      SumNatUpdate(HoldsAll(s.phases), j, 0);
      return if s.phases[j].Started? then Fetch(j)
             else if s.phases[j].Scanning? then Scan(j)
             else if s.phases[j].Returning? then Release(j)
             else Leave(j);
    }
    SumNatZero(HoldsAll(s.phases));
    if s.next < |load.jobs| {
      return Acquire;
    }
    ev := Complete;
  }

  lemma RankDrops(load: Load, j: nat, phase: Phase)
    requires load.Valid() && j < |load.jobs| && PhaseFits(load, j, phase) && !phase.Finished?
    ensures PhaseFits(load, j, NextPhase(load, j, phase))
    ensures Rank(load, j, NextPhase(load, j, phase)) < Rank(load, j, phase)
  {
    hide Hit;
    if phase.Scanning? && phase.token < |load.jobs[j].batch| {
      var left, width := |load.jobs[j].batch| - phase.token, |load.replies[j].value| + 2;
      assert left * width == (left - 1) * width + width;
    }
  }

  lemma RanksAfterMove(load: Load, s: LoadState, j: nat)
    requires load.Valid() && |s.phases| == |load.jobs| && j < |s.phases|
    requires PhaseFits(load, j, s.phases[j]) && !s.phases[j].Finished?
    ensures SumNat(Ranks(load, Moved(load, s, j))) < SumNat(Ranks(load, s.phases))
  {
    RankDrops(load, j, s.phases[j]);
    hide NextPhase, Rank, PhaseFits;
    var after := Rank(load, j, NextPhase(load, j, s.phases[j]));
    assert Ranks(load, Moved(load, s, j)) == Ranks(load, s.phases)[j := after];
    SumNatUpdate(Ranks(load, s.phases), j, after);
  }

  /** Every step brings the load nearer to its end. */
  lemma MeasureDrops(load: Load, s: LoadState, ev: Event)
    requires Control(load, s) && Enabled(load, s, ev)
    ensures 0 <= Measure(load, Apply(load, s, ev)) < Measure(load, s)
  {
    ControlKept(load, s, ev);
    hide SumNat, Rank, NextPhase, Hit, PhaseFits, HoldsAll;
    match ev {
      case Acquire =>
      case Complete =>
      case Spawn => RanksAfterMove(load, s, s.next);
      case Fetch(j) => RanksAfterMove(load, s, j);
      case Scan(j) => RanksAfterMove(load, s, j);
      case Release(j) => RanksAfterMove(load, s, j);
      case Leave(j) => RanksAfterMove(load, s, j);
    }
  }

  // ---- Safety of whole runs ----------------------------------------------------------

  /** The state after a sequence of events, if each is enabled in its turn. */
  function Run(load: Load, s: LoadState, events: seq<Event>): (end: Option<LoadState>)
    requires load.Valid() && |s.phases| == |load.jobs|
    ensures end.Some? ==> |end.value.phases| == |load.jobs|
    decreases |events|
  {
    if events == [] then Some(s)
    else if Enabled(load, s, events[0]) then Run(load, Apply(load, s, events[0]), events[1..])
    else None
  }

  lemma MeasureNonNegative(load: Load, s: LoadState)
    requires Control(load, s)
    ensures Measure(load, s) >= 0
  {
    hide SumNat, Rank;
  }

  lemma WrittenKeys(load: Load, s: LoadState, j: nat)
    requires load.Valid() && j < |load.jobs| && j < |s.phases|
    ensures Written(load, s, j).Keys == s.prices.Keys
  {
    hide Hit, ToLower;
  }

  lemma ChainsKept(load: Load, s: LoadState, ev: Event)
    requires Control(load, s) && Prepared(load, s.prices) && Enabled(load, s, ev)
    ensures Prepared(load, Apply(load, s, ev).prices)
  {
    hide SumNat, PhaseFits, Written;
    if ev.Scan? {
      WrittenKeys(load, s, ev.j);
    }
  }

  /** A run keeps the slots counted and every inner map in place, and each of its steps lowers the measure. */
  lemma {:induction false} RunKeepsControl(load: Load, s: LoadState, events: seq<Event>)
    requires Control(load, s) && Prepared(load, s.prices)
    ensures var end := Run(load, s, events);
      end.Some? ==>
        && Control(load, end.value) && Prepared(load, end.value.prices)
        && |events| + Measure(load, end.value) <= Measure(load, s)
    decreases |events|
  {
    if events != [] && Enabled(load, s, events[0]) {
      ControlKept(load, s, events[0]);
      ChainsKept(load, s, events[0]);
      MeasureDrops(load, s, events[0]);
      hide Control, Prepared, Enabled, Apply, Measure;
      RunKeepsControl(load, Apply(load, s, events[0]), events[1..]);
    }
  }

  /**
   Every load, whatever its slots and whatever its batches share: no more batches than
   slots are ever at work, no run is longer than the measure of its start, and a run
   that cannot go on is complete.
   */
  lemma RunIsSafe(load: Load, prices: PriceTable, events: seq<Event>)
    requires load.Valid() && Prepared(load, prices)
    ensures var start, end := Initial(load, prices), Run(load, Initial(load, prices), events);
      && (end.Some? ==> SumNat(HoldsAll(end.value.phases)) <= end.value.slots <= load.limit)
      && (end.Some? ==> |events| <= Measure(load, start))
      && (end.Some? && (forall ev :: !Enabled(load, end.value, ev)) ==> end.value.complete)
  {
    var start, end := Initial(load, prices), Run(load, Initial(load, prices), events);
    InitialControl(load, prices);
    RunKeepsControl(load, start, events);
    if end.Some? {
      MeasureNonNegative(load, end.value);
      if !end.value.complete {
        var ev := NeverStuck(load, end.value);
      }
    }
  }

  /** In no run of any load does a write meet a missing inner map, which in the source is a panic. */
  lemma NoNilMap(load: Load, prices: PriceTable, events: seq<Event>, j: nat)
    requires load.Valid() && Prepared(load, prices) && j < |load.jobs|
    ensures var end := Run(load, Initial(load, prices), events);
      end.Some? ==> load.jobs[j].dex in end.value.prices
  {
    InitialControl(load, prices);
    RunKeepsControl(load, Initial(load, prices), events);
  }

  // ---- The cache under every schedule ----------------------------------------------

  /** How many tokens of batch j the state has dealt with. */
  function DealtIn(load: Load, s: LoadState): Dealing
  {
    (j: nat) =>
      if j >= |s.phases| || j >= |load.jobs| then 0
      else match s.phases[j]
        case Waiting => 0
        case Started => 0
        case Scanning(token, _) => token
        case _ => |load.jobs[j].batch|
  }

  /** The pairs a scan has passed over give its token no price. */
  ghost predicate ScanFits(load: Load, j: nat, phase: Phase)
    requires load.Valid() && j < |load.jobs|
  {
    phase.Scanning? && phase.token < |load.jobs[j].batch| && load.replies[j].Some?
    && phase.pair <= |load.replies[j].value| ==>
      Found(load, j, phase.token)
      == FirstPrice(load.replies[j].value[phase.pair..], load.jobs[j].batch[phase.token].address, load.parse)
  }

  /** With one slot, no batch is at work beside another, nor while a slot is taken for the next. */
  ghost predicate OneByOne(load: Load, s: LoadState)
    requires |s.phases| == |load.jobs|
  {
    && (forall j, k :: 0 <= j < k < |s.phases| && !s.phases[k].Waiting? ==> Holds(s.phases[j]) == 0)
    && (s.acquired ==> forall j :: 0 <= j < |s.phases| ==> Holds(s.phases[j]) == 0)
  }

  /** No two batches have a token of one entry. */
  ghost predicate Apart(jobs: seq<Job>)
  {
    forall j: nat, t: nat, k: nat, u: nat ::
      j < k < |jobs| && t < |jobs[j].batch| && u < |jobs[k].batch| ==> !SameKey(jobs, j, t, k, u)
  }

  /** What every reachable state satisfies about the prices. */
  ghost predicate CacheFits(load: Load, before: PriceTable, s: LoadState)
    requires Control(load, s) && Prepared(load, before)
  {
    && s.prices == Partial(load, before, DealtIn(load, s), |load.jobs|)
    && (forall j :: 0 <= j < |s.phases| ==> ScanFits(load, j, s.phases[j]))
    && (load.limit == 1 ==> OneByOne(load, s))
  }

  lemma ScanAhead(load: Load, j: nat, phase: Phase)
    requires load.Valid() && j < |load.jobs| && PhaseFits(load, j, phase) && ScanFits(load, j, phase)
    requires phase.Scanning? && phase.token < |load.jobs[j].batch|
    ensures var pairs, p := load.replies[j].value, phase.pair;
      && (p >= |pairs| ==> Found(load, j, phase.token).None?)
      && (Hit(load, j, phase).Some? ==> Found(load, j, phase.token) == Hit(load, j, phase))
      && (p < |pairs| && Hit(load, j, phase).None? ==>
            Found(load, j, phase.token)
            == FirstPrice(pairs[p + 1..], load.jobs[j].batch[phase.token].address, load.parse))
  {
    hide EqualFold, Found;
    var pairs, p := load.replies[j].value, phase.pair;
    if p < |pairs| {
      assert pairs[p..][0] == pairs[p] && pairs[p..][1..] == pairs[p + 1..];
    }
  }

  lemma ScanFitsAfter(load: Load, j: nat, phase: Phase)
    requires load.Valid() && j < |load.jobs| && PhaseFits(load, j, phase) && ScanFits(load, j, phase)
    ensures ScanFits(load, j, NextPhase(load, j, phase))
  {
    hide EqualFold, FirstPrice;
    var next := NextPhase(load, j, phase);
    if phase.Scanning? && phase.token < |load.jobs[j].batch| {
      ScanAhead(load, j, phase);
    }
    if next.Scanning? && next.pair == 0 && load.replies[j].Some? {
      assert load.replies[j].value[0..] == load.replies[j].value;
    }
  }

  /** A scan step either stores its token's price and goes on to the next token, or writes nothing. */
  lemma ScanStores(load: Load, s: LoadState, j: nat)
    requires load.Valid() && j < |load.jobs| && j < |s.phases| && load.jobs[j].dex in s.prices && s.phases[j].Scanning?
    requires PhaseFits(load, j, s.phases[j]) && ScanFits(load, j, s.phases[j])
    ensures var next, t := NextPhase(load, j, s.phases[j]), s.phases[j].token;
      if t < |load.jobs[j].batch| && next == Scanning(t + 1, 0) then Written(load, s, j) == Stored(load, s.prices, j, t)
      else Written(load, s, j) == s.prices
           && (if t < |load.jobs[j].batch| then next.Scanning? && next.token == t else next == Returning)
  {
    hide EqualFold, Found, FirstPrice, StorePrice;
    if s.phases[j].token < |load.jobs[j].batch| {
      ScanAhead(load, j, s.phases[j]);
    }
  }

  lemma OneByOneKept(load: Load, s: LoadState, ev: Event)
    requires Control(load, s) && load.limit == 1 && Enabled(load, s, ev) && OneByOne(load, s)
    ensures |Apply(load, s, ev).phases| == |load.jobs| && OneByOne(load, Apply(load, s, ev))
  {
    SumNatZero(HoldsAll(s.phases));
    hide SumNat, Hit, StorePrice, PhaseFits;
    assert s.acquired || ev.Acquire? ==> forall j :: 0 <= j < |s.phases| ==> HoldsAll(s.phases)[j] == 0;
    assert forall j :: 0 <= j < |s.phases| ==> HoldsAll(s.phases)[j] == Holds(s.phases[j]);
  }

  /** A batch at work writes entries that no later batch has written. */
  lemma WritesAlone(load: Load, s: LoadState, j: nat, t: nat)
    requires Control(load, s) && load.Has(j, t) && s.phases[j].Scanning?
    requires (load.limit == 1 && OneByOne(load, s)) || Apart(load.jobs)
    ensures NoneLater(load, DealtIn(load, s), j, t)
  {
    hide SumNat, PhaseFits, ToLower;
    forall k: nat, u: nat | j < k && load.Has(k, u) && u < DealtIn(load, s)(k)
      ensures !SameKey(load.jobs, j, t, k, u)
    {
      if load.limit == 1 && OneByOne(load, s) {
        AloneAtWork(load, s, j);
      }
    }
  }

  lemma AloneAtWork(load: Load, s: LoadState, j: nat)
    requires |s.phases| == |load.jobs| && OneByOne(load, s) && j < |s.phases| && s.phases[j].Scanning?
    ensures forall k :: j < k < |s.phases| ==> s.phases[k].Waiting?
  {
    assert Holds(s.phases[j]) == 1;
  }

  lemma ScanKeepsCache(load: Load, before: PriceTable, s: LoadState, j: nat)
    requires Control(load, s) && Prepared(load, before) && CacheFits(load, before, s) && Enabled(load, s, Scan(j))
    requires load.limit == 1 || Apart(load.jobs)
    ensures Apply(load, s, Scan(j)).prices == Partial(load, before, DealtIn(load, Apply(load, s, Scan(j))), |load.jobs|)
  {
    hide Found, FirstPrice, Partial, Apart, OneByOne, SumNat, Written, NoneLater, Stored, SameKey;
    var s', t := Apply(load, s, Scan(j)), s.phases[j].token;
    assert load.jobs[j].dex in s.prices;
    ScanStores(load, s, j);
    if t < |load.jobs[j].batch| && NextPhase(load, j, s.phases[j]) == Scanning(t + 1, 0) {
      WritesAlone(load, s, j, t);
      hide NextPhase, PhaseFits, ScanFits;
      DealOneMore(load, before, DealtIn(load, s), DealtIn(load, s'), j, t, |load.jobs|);
    } else {
      hide NextPhase, PhaseFits, ScanFits;
      SamePartial(load, before, DealtIn(load, s), DealtIn(load, s'), |load.jobs|);
    }
  }

  /** If there is one slot, or no two batches share an entry, every step keeps the cache right. */
  lemma CacheKept(load: Load, before: PriceTable, s: LoadState, ev: Event)
    requires Control(load, s) && Prepared(load, before) && CacheFits(load, before, s) && Enabled(load, s, ev)
    requires load.limit == 1 || Apart(load.jobs)
    ensures Control(load, Apply(load, s, ev)) && CacheFits(load, before, Apply(load, s, ev))
  {
    hide FirstPrice, Found, ScanFits, OneByOne, Apart, SumNat, Hit, StorePrice, Partial, PhaseFits;
    ControlKept(load, s, ev);
    if load.limit == 1 {
      OneByOneKept(load, s, ev);
    }
    ScansFit(load, s, ev);
    if ev.Scan? {
      ScanKeepsCache(load, before, s, ev.j);
    } else {
      SamePartial(load, before, DealtIn(load, s), DealtIn(load, Apply(load, s, ev)), |load.jobs|);
    }
  }

  lemma ScansFit(load: Load, s: LoadState, ev: Event)
    requires Control(load, s) && Enabled(load, s, ev)
    requires forall j :: 0 <= j < |s.phases| ==> ScanFits(load, j, s.phases[j])
    ensures var s' := Apply(load, s, ev); forall j :: 0 <= j < |s'.phases| ==> ScanFits(load, j, s'.phases[j])
  {
    hide SumNat, FirstPrice, Found, Hit, ScanFits, StorePrice;
    var s' := Apply(load, s, ev);
    forall j | 0 <= j < |s'.phases|
      ensures ScanFits(load, j, s'.phases[j])
    {
      ScanFitsAfter(load, j, s.phases[j]);
      hide NextPhase, PhaseFits;
    }
  }

  // ---- Whole runs --------------------------------------------------------------------

  /** With one slot, or with no entry shared by two batches, every reachable cache is that of the tokens dealt with. */
  lemma {:induction false} RunKeepsCache(load: Load, before: PriceTable, s: LoadState, events: seq<Event>)
    requires Control(load, s) && Prepared(load, before) && CacheFits(load, before, s)
    requires load.limit == 1 || Apart(load.jobs)
    ensures var end := Run(load, s, events);
      end.Some? ==> Control(load, end.value) && CacheFits(load, before, end.value)
    decreases |events|
  {
    if events != [] && Enabled(load, s, events[0]) {
      CacheKept(load, before, s, events[0]);
      hide Control, CacheFits, Apart, Prepared, Enabled, Apply;
      RunKeepsCache(load, before, Apply(load, s, events[0]), events[1..]);
    }
  }

  lemma InitialFits(load: Load, prices: PriceTable)
    requires load.Valid() && Prepared(load, prices)
    ensures Control(load, Initial(load, prices)) && CacheFits(load, prices, Initial(load, prices))
  {
    InitialControl(load, prices);
    hide FirstPrice, Found;
    var s := Initial(load, prices);
    NothingDealt(load, prices, DealtIn(load, s), |load.jobs|);
  }

  /** A schedule that finishes leaves the cache of the sequential load. */
  ghost predicate Confluent(load: Load, prices: PriceTable, events: seq<Event>)
  {
    load.Valid() && Prepared(load, prices) ==>
      var end := Run(load, Initial(load, prices), events);
      end.Some? && end.value.complete ==> end.value.prices == LoadJobs(load, prices, |load.jobs|)
  }

  /** With one slot, or with no entry shared by two batches, every schedule that finishes does. */
  lemma LoadConfluence(load: Load, prices: PriceTable, events: seq<Event>)
    requires load.limit == 1 || Apart(load.jobs)
    ensures Confluent(load, prices, events)
  {
    if load.Valid() && Prepared(load, prices) {
      InitialFits(load, prices);
      RunKeepsCache(load, prices, Initial(load, prices), events);
      var end := Run(load, Initial(load, prices), events);
      hide Run, Partial, LoadJobs, Apart, ScanFits, OneByOne, SumNat;
      if end.Some? && end.value.complete {
        AllDealt(load, prices, DealtIn(load, end.value), |load.jobs|);
      }
    }
  }
}
