/**
 When the schedule of a price load matters: exactly when two batches share a cache
 entry and can be under way together.
 */
module PriceLoadKeys {
  import opened Wrappers
  import opened Entities
  import opened Strings
  import opened NetworkDefinitions
  import opened TokenLoader
  import opened TokenPrices
  import opened PriceLoad

  // ---- Runs that reach a state ------------------------------------------------------------

  ghost predicate Leads(load: Load, s: LoadState, end: LoadState)
    requires load.Valid() && |s.phases| == |load.jobs|
  {
    exists events :: Run(load, s, events) == Some(end)
  }

  lemma {:induction false} RunConcat(load: Load, s: LoadState, a: seq<Event>, b: seq<Event>)
    requires load.Valid() && |s.phases| == |load.jobs| && Run(load, s, a).Some?
    ensures Run(load, s, a + b) == Run(load, Run(load, s, a).value, b)
    decreases |a|
  {
    hide Apply;
    if a == [] {
      assert a + b == b;
    } else {
      assert (a + b)[0] == a[0] && (a + b)[1..] == a[1..] + b;
      ShapeKept(load, s, a[0]);
      RunConcat(load, Apply(load, s, a[0]), a[1..], b);
    }
  }

  lemma ShapeKept(load: Load, s: LoadState, ev: Event)
    requires load.Valid() && |s.phases| == |load.jobs| && Enabled(load, s, ev)
    ensures |Apply(load, s, ev).phases| == |load.jobs|
  {
    hide Hit, StorePrice;
  }

  lemma LeadsOn(load: Load, s: LoadState, middle: LoadState, end: LoadState)
    requires load.Valid() && |s.phases| == |load.jobs| == |middle.phases|
    requires Leads(load, s, middle) && Leads(load, middle, end)
    ensures Leads(load, s, end)
  {
    var a :| Run(load, s, a) == Some(middle);
    var b :| Run(load, middle, b) == Some(end);
    RunConcat(load, s, a, b);
  }

  lemma LeadsNext(load: Load, start: LoadState, s: LoadState, ev: Event)
    requires load.Valid() && |start.phases| == |load.jobs| == |s.phases| && Leads(load, start, s)
    requires Enabled(load, s, ev)
    ensures |Apply(load, s, ev).phases| == |load.jobs| && Leads(load, start, Apply(load, s, ev))
  {
    var after := Apply(load, s, ev);
    ShapeKept(load, s, ev);
    hide Apply, Enabled;
    assert [ev][1..] == [] && Run(load, after, []) == Some(after);
    assert Run(load, s, [ev]) == Some(after);
    LeadsOn(load, start, s, after);
  }

  // ---- One batch at work while the others rest -----------------------------------------------

  function InPhase(s: LoadState, j: nat, phase: Phase, prices: PriceTable, slots: nat): LoadState
    requires j < |s.phases|
  {
    s.(phases := s.phases[j := phase], prices := prices, slots := slots)
  }

  /** A scan left to itself loads the rest of its batch. */
  lemma {:induction false} ScanOut(load: Load, start: LoadState, s: LoadState, base: PriceTable, j: nat)
    requires load.Valid() && |start.phases| == |load.jobs| == |s.phases| && j < |load.jobs| && load.jobs[j].dex in base
    requires s.phases[j].Scanning? && PhaseFits(load, j, s.phases[j]) && ScanFits(load, j, s.phases[j])
    requires s.prices == LoadTokens(load, base, j, s.phases[j].token) && Leads(load, start, s)
    ensures Leads(load, start, InPhase(s, j, Returning, LoadTokens(load, base, j, |load.jobs[j].batch|), s.slots))
    decreases Rank(load, j, s.phases[j])
  {
    hide Leads, LoadTokens, Found, Hit, Rank, ScanFits, Stored;
    var after, t := Apply(load, s, Scan(j)), s.phases[j].token;
    LeadsNext(load, start, s, Scan(j));
    ScanStores(load, s, j);
    RankDrops(load, j, s.phases[j]);
    ScanFitsAfter(load, j, s.phases[j]);
    hide NextPhase, Written;
    if t == |load.jobs[j].batch| {
      assert after == InPhase(s, j, Returning, s.prices, s.slots);
    } else {
      OneMoreToken(load, base, j, t);
      ScanOut(load, start, after, base, j);
      assert InPhase(after, j, Returning, LoadTokens(load, base, j, |load.jobs[j].batch|), after.slots)
          == InPhase(s, j, Returning, LoadTokens(load, base, j, |load.jobs[j].batch|), s.slots);
    }
  }

  lemma FetchOut(load: Load, start: LoadState, s: LoadState, j: nat)
    requires load.Valid() && |start.phases| == |load.jobs| == |s.phases| && j < |load.jobs|
    requires load.jobs[j].dex in s.prices
    requires s.phases[j].Started? && Leads(load, start, s)
    ensures Leads(load, start, InPhase(s, j, Returning, LoadTokens(load, s.prices, j, |load.jobs[j].batch|), s.slots))
  {
    hide Leads, Found, Hit;
    var after := Apply(load, s, Fetch(j));
    LeadsNext(load, start, s, Fetch(j));
    if load.replies[j].None? {
      RefusedTokens(load, s.prices, j, |load.jobs[j].batch|);
      assert after == InPhase(s, j, Returning, s.prices, s.slots);
    } else {
      FirstScanFits(load, j);
      assert s.prices == LoadTokens(load, s.prices, j, 0);
      ScanOut(load, start, after, s.prices, j);
      hide LoadTokens;
      assert InPhase(after, j, Returning, LoadTokens(load, s.prices, j, |load.jobs[j].batch|), after.slots)
          == InPhase(s, j, Returning, LoadTokens(load, s.prices, j, |load.jobs[j].batch|), s.slots);
    }
  }

  lemma FirstScanFits(load: Load, j: nat)
    requires load.Valid() && j < |load.jobs| && load.replies[j].Some?
    ensures PhaseFits(load, j, Scanning(0, 0)) && ScanFits(load, j, Scanning(0, 0))
  {
    hide FirstPrice;
    assert load.replies[j].value[0..] == load.replies[j].value;
  }

  /** A batch that has been spawned can be loaded and ended without any other moving. */
  lemma FinishesAlone(load: Load, start: LoadState, s: LoadState, j: nat)
    requires load.Valid() && |start.phases| == |load.jobs| == |s.phases| && j < |load.jobs|
    requires load.jobs[j].dex in s.prices
    requires s.phases[j].Started? && s.slots > 0 && Leads(load, start, s)
    ensures Leads(load, start, InPhase(s, j, Finished,
                                   LoadTokens(load, s.prices, j, |load.jobs[j].batch|), s.slots - 1))
  {
    FetchOut(load, start, s, j);
    hide Leads, LoadTokens, Hit;
    var loaded := LoadTokens(load, s.prices, j, |load.jobs[j].batch|);
    var returning := InPhase(s, j, Returning, loaded, s.slots);
    LeadsNext(load, start, returning, Release(j));
    var released := Apply(load, returning, Release(j));
    LeadsNext(load, start, released, Leave(j));
    assert Apply(load, released, Leave(j)) == InPhase(s, j, Finished, loaded, s.slots - 1);
  }

  // ---- A schedule that lets one batch wait ------------------------------------------------------

  function PhaseAt(n: nat, held: Option<nat>, i: nat): Phase
  {
    if i >= n then Waiting else if held == Some(i) then Started else Finished
  }

  /** The batches before n are finished, except the held one, which has its slot and no reply yet. */
  function Between(load: Load, n: nat, held: Option<nat>, prices: PriceTable): LoadState
  {
    LoadState(n, false, if held.Some? then 1 else 0,
              seq(|load.jobs|, i requires 0 <= i < |load.jobs| => PhaseAt(n, held, i)), prices, false)
  }

  lemma Spawned(load: Load, start: LoadState, n: nat, held: Option<nat>, prices: PriceTable)
    requires load.Valid() && |start.phases| == |load.jobs| && n < |load.jobs|
    requires (held.Some? ==> held.value < n && load.limit > 1)
    requires Leads(load, start, Between(load, n, held, prices))
    ensures var s := Between(load, n, held, prices);
      Leads(load, start, s.(next := n + 1, slots := s.slots + 1, phases := s.phases[n := Started]))
  {
    hide Leads;
    var s := Between(load, n, held, prices);
    LeadsNext(load, start, s, Acquire);
    var acquired := Apply(load, s, Acquire);
    LeadsNext(load, start, acquired, Spawn);
    assert Apply(load, acquired, Spawn) == s.(next := n + 1, slots := s.slots + 1, phases := s.phases[n := Started]);
  }

  /** The next batch is spawned and loaded while the held one waits. */
  lemma Passes(load: Load, start: LoadState, n: nat, held: Option<nat>, prices: PriceTable)
    requires load.Valid() && |start.phases| == |load.jobs| && n < |load.jobs|
    requires (held.Some? ==> held.value < n && load.limit > 1)
    requires load.jobs[n].dex in prices && Leads(load, start, Between(load, n, held, prices))
    ensures Leads(load, start, Between(load, n + 1, held, LoadTokens(load, prices, n, |load.jobs[n].batch|)))
  {
    Spawned(load, start, n, held, prices);
    hide Leads, LoadTokens;
    var s := Between(load, n, held, prices);
    var spawned := s.(next := n + 1, slots := s.slots + 1, phases := s.phases[n := Started]);
    FinishesAlone(load, start, spawned, n);
    var loaded := LoadTokens(load, prices, n, |load.jobs[n].batch|);
    assert spawned.phases[n := Finished] == Between(load, n + 1, held, loaded).phases;
  }

  /** Batches that are refused are passed without a trace. */
  lemma {:induction false} PassesAll(load: Load, start: LoadState, n: nat, m: nat, held: Option<nat>,
                                     prices: PriceTable)
    requires load.Valid() && |start.phases| == |load.jobs| && n <= m <= |load.jobs|
    requires (held.Some? ==> held.value < n && load.limit > 1)
    requires Prepared(load, prices) && Leads(load, start, Between(load, n, held, prices))
    requires forall i :: n <= i < m ==> load.replies[i].None?
    ensures Leads(load, start, Between(load, m, held, prices))
    decreases m - n
  {
    hide Leads, LoadTokens, Between;
    if n < m {
      Passes(load, start, n, held, prices);
      RefusedTokens(load, prices, n, |load.jobs[n].batch|);
      PassesAll(load, start, n + 1, m, held, prices);
    }
  }

  lemma Holds1(load: Load, start: LoadState, n: nat, prices: PriceTable)
    requires load.Valid() && |start.phases| == |load.jobs| && n < |load.jobs|
    requires Leads(load, start, Between(load, n, None, prices))
    ensures Leads(load, start, Between(load, n + 1, Some(n), prices))
  {
    Spawned(load, start, n, None, prices);
    hide Leads;
    var s := Between(load, n, None, prices);
    assert s.phases[n := Started] == Between(load, n + 1, Some(n), prices).phases;
  }

  lemma HeldFinishes(load: Load, start: LoadState, n: nat, j: nat, prices: PriceTable)
    requires load.Valid() && |start.phases| == |load.jobs| && j < n <= |load.jobs| && load.jobs[j].dex in prices
    requires Leads(load, start, Between(load, n, Some(j), prices))
    ensures Leads(load, start, Between(load, n, None, LoadTokens(load, prices, j, |load.jobs[j].batch|)))
  {
    hide Leads, LoadTokens;
    var s := Between(load, n, Some(j), prices);
    FinishesAlone(load, start, s, j);
    assert s.phases[j := Finished] == Between(load, n, None, prices).phases;
  }

  /** Only batches j and k are answered. */
  ghost predicate OnlyTwo(load: Load, j: nat, k: nat)
    requires load.Valid()
  {
    j < k < |load.jobs| && forall i :: 0 <= i < |load.jobs| && i != j && i != k ==> load.replies[i].None?
  }

  /** The second of two answered batches can be loaded first. */
  lemma OutOfOrder(load: Load, prices: PriceTable, j: nat, k: nat) returns (events: seq<Event>)
    requires load.Valid() && Prepared(load, prices) && load.limit > 1 && OnlyTwo(load, j, k)
    ensures var end := Run(load, Initial(load, prices), events);
      && end.Some? && end.value.complete
      && end.value.prices
         == LoadTokens(load, LoadTokens(load, prices, k, |load.jobs[k].batch|), j, |load.jobs[j].batch|)
  {
    var start := Initial(load, prices);
    var first := LoadTokens(load, prices, k, |load.jobs[k].batch|);
    var both := LoadTokens(load, first, j, |load.jobs[j].batch|);
    assert Run(load, start, []) == Some(start);
    assert start == Between(load, 0, None, prices);
    assert Leads(load, start, start);
    hide Leads, LoadTokens, Run, Between;
    PassesAll(load, start, 0, j, None, prices);
    Holds1(load, start, j, prices);
    PassesAll(load, start, j + 1, k, Some(j), prices);
    Passes(load, start, k, Some(j), prices);
    HeldFinishes(load, start, k + 1, j, first);
    PassesAll(load, start, k + 1, |load.jobs|, None, both);
    events := Completes(load, start, both);
  }

  lemma Completes(load: Load, start: LoadState, prices: PriceTable) returns (events: seq<Event>)
    requires load.Valid() && |start.phases| == |load.jobs|
    requires Leads(load, start, Between(load, |load.jobs|, None, prices))
    ensures var end := Run(load, start, events); end.Some? && end.value.complete && end.value.prices == prices
  {
    var s := Between(load, |load.jobs|, None, prices);
    LeadsNext(load, start, s, Complete);
    hide Run;
    assert Apply(load, s, Complete) == s.(complete := true);
    events :| Run(load, start, events) == Some(s.(complete := true));
  }

  lemma JobSkipped(load: Load, prices: PriceTable, n: nat)
    requires load.Valid() && Prepared(load, prices) && n < |load.jobs| && load.replies[n].None?
    ensures LoadJobs(load, prices, n + 1) == LoadJobs(load, prices, n)
  {
    hide LoadJobs, LoadTokens, Prepared;
    JobsNext(load, prices, n);
    RefusedTokens(load, LoadJobs(load, prices, n), n, |load.jobs[n].batch|);
  }

  lemma {:induction false} JobsSkipped(load: Load, prices: PriceTable, n: nat, m: nat)
    requires load.Valid() && Prepared(load, prices) && n <= m <= |load.jobs|
    requires forall i :: n <= i < m ==> load.replies[i].None?
    ensures LoadJobs(load, prices, m) == LoadJobs(load, prices, n)
  {
    hide LoadJobs, Prepared;
    if n < m {
      JobsSkipped(load, prices, n, m - 1);
      JobSkipped(load, prices, m - 1);
    }
  }

  lemma DexPrepared(load: Load, prices: PriceTable, j: nat)
    requires Prepared(load, prices) && j < |load.jobs|
    ensures load.jobs[j].dex in prices
  {
  }

  /** The sequential load of two answered batches. */
  lemma InOrder(load: Load, prices: PriceTable, j: nat, k: nat)
    requires load.Valid() && Prepared(load, prices) && OnlyTwo(load, j, k)
    ensures load.jobs[j].dex in prices && load.jobs[k].dex in prices
    ensures LoadJobs(load, prices, |load.jobs|)
         == LoadTokens(load, LoadTokens(load, prices, j, |load.jobs[j].batch|), k, |load.jobs[k].batch|)
  {
    hide LoadTokens, Prepared, LoadJobs;
    DexPrepared(load, prices, j);
    DexPrepared(load, prices, k);
    NoneLoaded(load, prices, (i: nat) => 0);
    JobsSkipped(load, prices, 0, j);
    JobsNext(load, prices, j);
    JobsSkipped(load, prices, j + 1, k);
    JobsNext(load, prices, k);
    JobsSkipped(load, prices, k + 1, |load.jobs|);
  }

  // ---- Two batches with one entry -------------------------------------------------------------------

  /** The parser reads the two texts, and as different prices. */
  predicate TellsApart(parse: string -> Option<real>, x: string, y: string)
  {
    parse(x).Some? && parse(y).Some? && parse(x) != parse(y)
  }

  function ReplyAt(jobs: seq<Job>, x: string, y: string, j: nat, t: nat, k: nat, i: nat): Option<seq<PairData>>
    requires j < |jobs| && t < |jobs[j].batch|
  {
    var address := jobs[j].batch[t].address;
    if i == j then Some([PairData(address, "", x, None)])
    else if i == k then Some([PairData(address, "", y, None)])
    else None
  }

  /** Batch j finds text x for the entry of its token t, batch k finds y, and no other is answered. */
  function Rival(jobs: seq<Job>, limit: nat, parse: string -> Option<real>, x: string, y: string, j: nat, t: nat,
                 k: nat): Load
    requires j < |jobs| && t < |jobs[j].batch|
  {
    Load(jobs, limit, seq(|jobs|, i requires 0 <= i < |jobs| => ReplyAt(jobs, x, y, j, t, k, i)), parse)
  }

  /** In a batch answered with one matching pair, every token of the entry finds its price and no other finds any. */
  lemma RivalFinds(jobs: seq<Job>, limit: nat, parse: string -> Option<real>, x: string, y: string, j: nat, t: nat,
                   k: nat, i: nat, u: nat)
    requires limit > 0 && j < k < |jobs| && t < |jobs[j].batch| && (i == j || i == k) && u < |jobs[i].batch|
    requires TellsApart(parse, x, y)
    ensures Found(Rival(jobs, limit, parse, x, y, j, t, k), i, u)
         == if ToLower(jobs[i].batch[u].address) == ToLower(jobs[j].batch[t].address)
            then parse(if i == j then x else y) else None
  {
    hide ToLower;
    var load := Rival(jobs, limit, parse, x, y, j, t, k);
    var pairs := load.replies[i].value;
    assert pairs[1..] == [];
    assert FirstPrice(pairs[1..], jobs[i].batch[u].address, load.parse) == None;
  }

  /** So the entry of such a batch ends as what that batch finds. */
  lemma RivalEntry(jobs: seq<Job>, limit: nat, parse: string -> Option<real>, x: string, y: string, j: nat, t: nat,
                   k: nat, i: nat, u: nat, prices: PriceTable)
    requires limit > 0 && j < k < |jobs| && t < |jobs[j].batch| && (i == j || i == k) && u < |jobs[i].batch|
    requires SameKey(jobs, j, t, i, u) && jobs[i].dex in prices && TellsApart(parse, x, y)
    ensures EntryAt(LoadTokens(Rival(jobs, limit, parse, x, y, j, t, k), prices, i, |jobs[i].batch|),
                    jobs[j].dex, ToLower(jobs[j].batch[t].address))
         == parse(if i == j then x else y)
  {
    hide Found, ToLower, LoadTokens;
    var load, price := Rival(jobs, limit, parse, x, y, j, t, k), parse(if i == j then x else y);
    forall v: nat | v < |jobs[i].batch|
      ensures SameKey(jobs, i, u, i, v) ==> Found(load, i, v) == price
    {
      RivalFinds(jobs, limit, parse, x, y, j, t, k, i, v);
    }
    OnePriceForAll(load, prices, i, u, |jobs[i].batch|, price.value);
  }

  lemma {:induction false} OnePriceForAll(load: Load, prices: PriceTable, i: nat, u: nat, m: nat, price: real)
    requires load.Valid() && load.Has(i, u) && u < m <= |load.jobs[i].batch| && load.jobs[i].dex in prices
    requires forall v: nat :: v < m && SameKey(load.jobs, i, u, i, v) ==> Found(load, i, v) == Some(price)
    ensures EntryAt(LoadTokens(load, prices, i, m), load.jobs[i].dex, load.Address(i, u)) == Some(price)
  {
    hide Found, ToLower;
    var last := m - 1;
    if !SameKey(load.jobs, i, u, i, last) {
      OnePriceForAll(load, prices, i, u, last, price);
    }
  }

  /**
   From any prepared cache, two batches that share an entry and can overlap have answers and a
   schedule that go wrong, if the parser can read two prices.
   */
  lemma SharedEntryDiverges(jobs: seq<Job>, limit: nat, parse: string -> Option<real>, x: string, y: string,
                            prices: PriceTable, j: nat, t: nat, k: nat, u: nat)
    returns (replies: seq<Option<seq<PairData>>>, events: seq<Event>)
    requires limit > 1 && j < k < |jobs| && t < |jobs[j].batch| && u < |jobs[k].batch| && SameKey(jobs, j, t, k, u)
    requires TellsApart(parse, x, y) && forall i :: 0 <= i < |jobs| ==> jobs[i].dex in prices
    ensures !Confluent(Load(jobs, limit, replies, parse), prices, events)
  {
    var load := Rival(jobs, limit, parse, x, y, j, t, k);
    replies := load.replies;
    assert load == Load(jobs, limit, replies, parse);
    assert load.Valid() && Prepared(load, prices) && OnlyTwo(load, j, k);
    hide LoadTokens, LoadJobs, Run, ToLower, Rival, Prepared, OnlyTwo;
    events := OutOfOrder(load, prices, j, k);
    InOrder(load, prices, j, k);
    var first := LoadTokens(load, prices, k, |jobs[k].batch|);
    RivalEntry(jobs, limit, parse, x, y, j, t, k, j, t, first);
    RivalEntry(jobs, limit, parse, x, y, j, t, k, k, u, LoadTokens(load, prices, j, |jobs[j].batch|));
    hide EntryAt;
  }

  /** Whatever is answered and whatever the schedule, a finished load leaves the cache of the sequential load. */
  ghost predicate AlwaysConfluent(jobs: seq<Job>, limit: nat, parse: string -> Option<real>, prices: PriceTable)
  {
    forall replies, events :: Confluent(Load(jobs, limit, replies, parse), prices, events)
  }

  /**
   Confluence, exactly: with any parser that can read two prices, it holds if and only
   if the load has one slot or no entry is shared by two batches.
   */
  lemma ConfluentIff(jobs: seq<Job>, limit: nat, parse: string -> Option<real>, x: string, y: string,
                     prices: PriceTable)
    requires limit > 0 && TellsApart(parse, x, y) && forall i :: 0 <= i < |jobs| ==> jobs[i].dex in prices
    ensures limit == 1 || Apart(jobs) <==> AlwaysConfluent(jobs, limit, parse, prices)
  {
    hide Confluent;
    if limit == 1 || Apart(jobs) {
      forall replies, events
        ensures Confluent(Load(jobs, limit, replies, parse), prices, events)
      {
        LoadConfluence(Load(jobs, limit, replies, parse), prices, events);
      }
    } else {
      hide ToLower;
      var j: nat, t: nat, k: nat, u: nat :|
        j < k < |jobs| && t < |jobs[j].batch| && u < |jobs[k].batch| && SameKey(jobs, j, t, k, u);
      var replies, events := SharedEntryDiverges(jobs, limit, parse, x, y, prices, j, t, k, u);
      assert !Confluent(Load(jobs, limit, replies, parse), prices, events);
    }
  }

  // ---- The service's batches -------------------------------------------------------------------------

  predicate SameAddress(x: TokenInfo, y: TokenInfo)
  {
    ToLower(x.address) == ToLower(y.address)
  }

  /** No address, ignoring case, is in two batches. */
  ghost predicate BatchesApart(tokens: seq<TokenInfo>, size: nat)
    requires size > 0
  {
    var batches := BatchesOf(tokens, size);
    forall a: nat, t: nat, b: nat, u: nat ::
      a < b < |batches| && t < |batches[a]| && u < |batches[b]| ==> !SameAddress(batches[a][t], batches[b][u])
  }

  ghost predicate NetworkApart(d: NetworkDefinition, tokensByChainID: map<string, seq<TokenInfo>>, size: nat)
    requires size > 0
  {
    d.dexScreenerChainID != "" ==> BatchesApart(ListAt(tokensByChainID, FormatUint(d.chainID)), size)
  }

  lemma NetworkApartIff(d: NetworkDefinition, tokens: seq<TokenInfo>, size: nat)
    requires size > 0
    ensures Apart(NetworkJobs(d, tokens, size)) <==> (d.dexScreenerChainID != "" ==> BatchesApart(tokens, size))
  {
    hide ToLower, BatchesOf;
    var jobs, batches := NetworkJobs(d, tokens, size), BatchesOf(tokens, size);
    forall a: nat, t: nat, b: nat, u: nat | a < b < |jobs| && t < |jobs[a].batch| && u < |jobs[b].batch|
      ensures SameKey(jobs, a, t, b, u) <==> SameAddress(batches[a][t], batches[b][u])
    {
      assert jobs[a].batch == batches[a] && jobs[b].batch == batches[b];
    }
  }

  ghost predicate UsesDex(defs: seq<NetworkDefinition>, dex: string)
  {
    dex != "" && exists i :: 0 <= i < |defs| && defs[i].dexScreenerChainID == dex
  }

  lemma {:induction false} JobsDexes(defs: seq<NetworkDefinition>, tokensByChainID: map<string, seq<TokenInfo>>,
                                     size: nat)
    requires size > 0
    ensures forall job :: job in JobsOf(defs, tokensByChainID, size) ==> UsesDex(defs, job.dex)
  {
    if defs != [] {
      var front, last := defs[..|defs| - 1], defs[|defs| - 1];
      JobsDexes(front, tokensByChainID, size);
      forall job | job in JobsOf(defs, tokensByChainID, size)
        ensures UsesDex(defs, job.dex)
      {
        if job in JobsOf(front, tokensByChainID, size) {
          var i :| 0 <= i < |front| && front[i].dexScreenerChainID == job.dex;
          assert defs[i].dexScreenerChainID == job.dex;
        } else {
          assert defs[|defs| - 1].dexScreenerChainID == job.dex;
        }
      }
    }
  }

  /** A network unlike the ones before has a DEXScreener ID that none of their batches has. */
  lemma OtherDexes(defs: seq<NetworkDefinition>, tokensByChainID: map<string, seq<TokenInfo>>, size: nat)
    requires size > 0 && defs != [] && PairwiseUnlike(defs)
    ensures forall job :: job in JobsOf(defs[..|defs| - 1], tokensByChainID, size)
              ==> job.dex != defs[|defs| - 1].dexScreenerChainID
  {
    var front, last := defs[..|defs| - 1], defs[|defs| - 1];
    JobsDexes(front, tokensByChainID, size);
    forall job | job in JobsOf(front, tokensByChainID, size)
      ensures job.dex != last.dexScreenerChainID
    {
      var i :| 0 <= i < |front| && front[i].dexScreenerChainID == job.dex;
      assert Unlike(defs[i], defs[|defs| - 1]);
    }
  }

  lemma ApartConcat(a: seq<Job>, b: seq<Job>, dex: string)
    requires forall job :: job in a ==> job.dex != dex
    requires forall job :: job in b ==> job.dex == dex
    ensures Apart(a + b) <==> Apart(a) && Apart(b)
  {
    hide ToLower;
    var jobs := a + b;
    assert forall i :: 0 <= i < |a| ==> jobs[i] == a[i] && a[i] in a;
    assert forall i :: 0 <= i < |b| ==> jobs[|a| + i] == b[i] && b[i] in b;
    if Apart(jobs) {
      forall j: nat, t: nat, k: nat, u: nat | j < k < |a| && t < |a[j].batch| && u < |a[k].batch|
        ensures !SameKey(a, j, t, k, u)
      {
        assert !SameKey(jobs, j, t, k, u);
      }
      forall j: nat, t: nat, k: nat, u: nat | j < k < |b| && t < |b[j].batch| && u < |b[k].batch|
        ensures !SameKey(b, j, t, k, u)
      {
        assert !SameKey(jobs, |a| + j, t, |a| + k, u);
      }
    }
    if Apart(a) && Apart(b) {
      forall j: nat, t: nat, k: nat, u: nat | j < k < |jobs| && t < |jobs[j].batch| && u < |jobs[k].batch|
        ensures !SameKey(jobs, j, t, k, u)
      {
        if k < |a| {
          assert !SameKey(a, j, t, k, u);
        } else if j >= |a| {
          assert !SameKey(b, j - |a|, t, k - |a|, u);
        }
      }
    }
  }

  /** Networks with their own DEXScreener IDs share no entry, so what counts is each network's own list. */
  lemma {:induction false} JobsApartIff(defs: seq<NetworkDefinition>, tokensByChainID: map<string, seq<TokenInfo>>,
                                        size: nat)
    requires size > 0 && PairwiseUnlike(defs)
    ensures Apart(JobsOf(defs, tokensByChainID, size))
      <==> forall d :: d in defs ==> NetworkApart(d, tokensByChainID, size)
  {
    hide ToLower, FormatUint, BatchesOf, BatchesApart, Apart;
    if defs == [] {
      NothingApart();
    } else {
      var front, last := defs[..|defs| - 1], defs[|defs| - 1];
      var tokens := ListAt(tokensByChainID, FormatUint(last.chainID));
      JobsApartIff(front, tokensByChainID, size);
      OtherDexes(defs, tokensByChainID, size);
      NetworkApartIff(last, tokens, size);
      ApartConcat(JobsOf(front, tokensByChainID, size), NetworkJobs(last, tokens, size), last.dexScreenerChainID);
      assert forall d :: d in defs <==> d in front || d == last;
      assert Apart(NetworkJobs(last, tokens, size)) <==> NetworkApart(last, tokensByChainID, size);
      assert Apart(JobsOf(defs, tokensByChainID, size))
        <==> Apart(JobsOf(front, tokensByChainID, size)) && NetworkApart(last, tokensByChainID, size);
    }
  }

  lemma NothingApart()
    ensures Apart([])
  {
  }

  /**
   The service's own load: for the active networks of any token directory, the loader's
   grouping of any token files, any batch limit and any parser that can read two prices,
   every schedule that finishes leaves the sequential load's cache, whatever was cached
   and is answered, if and only if the load has one slot or no network lists an address
   in two of its batches.
   */
  lemma ServiceLoadConfluence(files: seq<DirEntry>, tokensByChainID: map<string, seq<TokenInfo>>, configured: int,
                              limit: nat, parse: string -> Option<real>, x: string, y: string)
    requires limit > 0 && TellsApart(parse, x, y)
    ensures var defs := ActiveDefinitions(ByIdentifier(KNOWN_DEFINITIONS), files);
      var jobs := JobsOf(defs, tokensByChainID, BatchSize(configured));
      limit == 1 || (forall d :: d in defs ==> NetworkApart(d, tokensByChainID, BatchSize(configured)))
      <==> forall cached :: AlwaysConfluent(jobs, limit, parse, WithChains(cached, defs))
  {
    ActiveNetworksUnlike(files);
    var defs := ActiveDefinitions(ByIdentifier(KNOWN_DEFINITIONS), files);
    hide KNOWN_DEFINITIONS, ActiveDefinitions, ByIdentifier;
    LoadOfUnlikeNetworks(defs, tokensByChainID, BatchSize(configured), limit, parse, x, y);
  }

  lemma LoadOfUnlikeNetworks(defs: seq<NetworkDefinition>, tokensByChainID: map<string, seq<TokenInfo>>, size: nat,
                             limit: nat, parse: string -> Option<real>, x: string, y: string)
    requires limit > 0 && size > 0 && PairwiseUnlike(defs) && TellsApart(parse, x, y)
    ensures var jobs := JobsOf(defs, tokensByChainID, size);
      limit == 1 || (forall d :: d in defs ==> NetworkApart(d, tokensByChainID, size))
      <==> forall cached :: AlwaysConfluent(jobs, limit, parse, WithChains(cached, defs))
  {
    hide JobsOf, WithChains, ToLower, AlwaysConfluent, Apart, NetworkApart, PairwiseUnlike;
    var jobs := JobsOf(defs, tokensByChainID, size);
    JobsApartIff(defs, tokensByChainID, size);
    forall cached
      ensures limit == 1 || Apart(jobs) <==> AlwaysConfluent(jobs, limit, parse, WithChains(cached, defs))
    {
      DexesPrepared(defs, tokensByChainID, size, cached);
      ConfluentIff(jobs, limit, parse, x, y, WithChains(cached, defs));
    }
    assert limit == 1 || Apart(jobs) <==> AlwaysConfluent(jobs, limit, parse, WithChains(map[], defs));
  }

  lemma DexesPrepared(defs: seq<NetworkDefinition>, tokensByChainID: map<string, seq<TokenInfo>>, size: nat,
                      cached: PriceTable)
    requires size > 0
    ensures var jobs := JobsOf(defs, tokensByChainID, size);
      forall i :: 0 <= i < |jobs| ==> jobs[i].dex in WithChains(cached, defs)
  {
    hide JobsOf, WithChains;
    JobsDexes(defs, tokensByChainID, size);
    ChainsPrepared(cached, defs);
    var jobs := JobsOf(defs, tokensByChainID, size);
    assert forall i :: 0 <= i < |jobs| ==> jobs[i] in jobs;
  }

  // ---- Lists without repetition ---------------------------------------------------------------------

  ghost predicate DistinctAddresses(tokens: seq<TokenInfo>)
  {
    forall i, k :: 0 <= i < k < |tokens| ==> ToLower(tokens[i].address) != ToLower(tokens[k].address)
  }

  /** No cache entry belongs to two tokens. */
  ghost predicate DistinctKeys(jobs: seq<Job>)
  {
    forall j: nat, t: nat, k: nat, u: nat ::
      j < |jobs| && t < |jobs[j].batch| && k < |jobs| && u < |jobs[k].batch| && SameKey(jobs, j, t, k, u)
      ==> j == k && t == u
  }

  lemma HalvesApart(tokens: seq<TokenInfo>, size: nat)
    requires size <= |tokens| && DistinctAddresses(tokens)
    ensures DistinctAddresses(tokens[..size]) && DistinctAddresses(tokens[size..])
    ensures forall x, y :: x in tokens[..size] && y in tokens[size..] ==> ToLower(x.address) != ToLower(y.address)
  {
    hide ToLower;
  }

  /** A batch of other addresses in front keeps the keys distinct. */
  lemma PrependBatch(first: Job, rest: seq<Job>, tokens: seq<TokenInfo>)
    requires DistinctKeys(rest) && DistinctAddresses(first.batch)
    requires forall job :: job in rest ==> forall y :: y in job.batch ==> y in tokens
    requires forall x, y :: x in first.batch && y in tokens ==> ToLower(x.address) != ToLower(y.address)
    ensures DistinctKeys([first] + rest)
  {
    hide ToLower;
    var jobs := [first] + rest;
    assert forall l :: 0 < l < |jobs| ==> jobs[l] == rest[l - 1] && jobs[l] in rest;
    forall j: nat, t: nat, k: nat, u: nat
      | j < |jobs| && t < |jobs[j].batch| && k < |jobs| && u < |jobs[k].batch| && SameKey(jobs, j, t, k, u)
      ensures j == k && t == u
    {
      assert jobs[j].batch[t] in jobs[j].batch && jobs[k].batch[u] in jobs[k].batch;
      if j > 0 && k > 0 {
        assert SameKey(rest, j - 1, t, k - 1, u);
      }
    }
  }

  lemma OneBatchDistinct(d: NetworkDefinition, tokens: seq<TokenInfo>, size: nat)
    requires size > 0 && DistinctAddresses(tokens) && (|tokens| <= size || d.dexScreenerChainID == "")
    ensures DistinctKeys(NetworkJobs(d, tokens, size))
  {
    hide ToLower;
  }

  lemma FirstBatch(d: NetworkDefinition, tokens: seq<TokenInfo>, size: nat)
    requires 0 < size < |tokens| && d.dexScreenerChainID != ""
    ensures NetworkJobs(d, tokens, size)
         == [Job(d.dexScreenerChainID, tokens[..size])] + NetworkJobs(d, tokens[size..], size)
    ensures forall job :: job in NetworkJobs(d, tokens[size..], size) ==>
      forall y :: y in job.batch ==> y in tokens[size..]
  {
    BatchesPartition(tokens[size..], size);
  }

  lemma {:induction false} NetworkKeysDistinct(d: NetworkDefinition, tokens: seq<TokenInfo>, size: nat)
    requires size > 0 && DistinctAddresses(tokens)
    ensures DistinctKeys(NetworkJobs(d, tokens, size))
    decreases |tokens|
  {
    hide DistinctKeys, DistinctAddresses, ToLower;
    if |tokens| <= size || d.dexScreenerChainID == "" {
      OneBatchDistinct(d, tokens, size);
    } else {
      var first, rest := Job(d.dexScreenerChainID, tokens[..size]), NetworkJobs(d, tokens[size..], size);
      FirstBatch(d, tokens, size);
      HalvesApart(tokens, size);
      NetworkKeysDistinct(d, tokens[size..], size);
      hide NetworkJobs;
      PrependBatch(first, rest, tokens[size..]);
    }
  }

  lemma DistinctConcat(a: seq<Job>, b: seq<Job>, dex: string)
    requires DistinctKeys(a) && DistinctKeys(b)
    requires forall job :: job in a ==> job.dex != dex
    requires forall job :: job in b ==> job.dex == dex
    ensures DistinctKeys(a + b)
  {
    hide ToLower;
    var jobs := a + b;
    assert forall i :: 0 <= i < |a| ==> jobs[i] == a[i] && a[i] in a;
    assert forall i :: 0 <= i < |b| ==> jobs[|a| + i] == b[i] && b[i] in b;
    forall j: nat, t: nat, k: nat, u: nat
      | j < |jobs| && t < |jobs[j].batch| && k < |jobs| && u < |jobs[k].batch| && SameKey(jobs, j, t, k, u)
      ensures j == k && t == u
    {
      if j < |a| && k < |a| {
        assert SameKey(a, j, t, k, u);
      } else if j >= |a| && k >= |a| {
        assert SameKey(b, j - |a|, t, k - |a|, u);
      }
    }
  }

  /** Distinct DEXScreener IDs, and distinct addresses per network, give every token its own cache entry. */
  lemma {:induction false} JobKeysDistinct(defs: seq<NetworkDefinition>, tokensByChainID: map<string, seq<TokenInfo>>,
                                           size: nat)
    requires size > 0 && PairwiseUnlike(defs)
    requires forall chain :: DistinctAddresses(ListAt(tokensByChainID, chain))
    ensures DistinctKeys(JobsOf(defs, tokensByChainID, size))
  {
    hide ToLower, FormatUint, BatchesOf;
    if defs != [] {
      var front, last := defs[..|defs| - 1], defs[|defs| - 1];
      JobKeysDistinct(front, tokensByChainID, size);
      OtherDexes(defs, tokensByChainID, size);
      var tokens := ListAt(tokensByChainID, FormatUint(last.chainID));
      NetworkKeysDistinct(last, tokens, size);
      DistinctConcat(JobsOf(front, tokensByChainID, size), NetworkJobs(last, tokens, size), last.dexScreenerChainID);
    }
  }

  /** Then no two batches share an entry, and every token that finds a price is the last of its entry to find one. */
  lemma DistinctKeysFindLast(load: Load)
    requires load.Valid() && DistinctKeys(load.jobs)
    ensures Apart(load.jobs)
    ensures forall j: nat, t: nat :: load.Has(j, t) && Found(load, j, t).Some? ==> FindsLast(load, j, t)
  {
    hide ToLower, Found;
  }
}
