/**
 Rivals are shown different prices: two workers that can overlap, on networks whose
 wrapped tokens are priced differently, both find no price and then publish their own.
 With PriceCoherence this gives the exact condition for one price.
 */
module PriceDivergence {
  import opened Wrappers
  import opened Entities
  import opened Strings
  import opened NetworkDefinitions
  import opened TokenLoader
  import opened TokenPrices
  import opened PortfolioRun
  import opened WalletBooks
  import opened RunBooks
  import opened GlobalPrice
  import opened PriceCoherence
  import opened RunSteps
  import opened PortfolioService
  import opened ServiceAnswers

  // ---- Up to the first balance -------------------------------------------------------------

  /** The networks before n passed, and n's worker spawned. */
  function Before(req: Request, n: nat): WalletState
  {
    PassedTo(Clear(req), 0, n).(phase := Looping(n + 1))
  }

  /** A launched wallet whose first balance is a native one on network n. */
  predicate FirstAt(req: Request, w: nat, n: nat)
  {
    && w < |req.wallets| && n < |req.networks| && OneNative(req, w, n)
    && forall i: nat :: i < n ==> Answered(req, w, i) && BalancesOf(req, w, i) == []
  }

  /** Such a wallet gets as far as network n's worker being ready. */
  lemma ArrivesReady(reqs: seq<Request>, start: System, sys: System, r: nat, w: nat, n: nat)
    requires Stands(reqs, start, sys, r, w) && FirstAt(reqs[r], w, n) && sys.requests[r].slots < reqs[r].limit
    requires sys.requests[r].wallets[w] == Clear(reqs[r])
    ensures Fits(reqs[r], w, n, Before(reqs[r], n))
    ensures var ws := At(Before(reqs[r], n), n, Ready, None);
      Stands(reqs, start, PutWallet(sys, r, w, ws, sys.requests[r].slots + 1), r, w)
  {
    var req, x := reqs[r], sys.requests[r].slots;
    var passed := PassedTo(Clear(req), 0, n);
    PassesAll(reqs, start, sys, r, w, 0, n);
    hide Reaches, Answered, BalancesOf;
    Readies(reqs, start, PutWallet(sys, r, w, passed, x), r, w, n);
    PutTwice(sys, r, w, passed, x, At(Before(req, n), n, Ready, None), x + 1);
  }

  /** And from there to having read the cache. */
  lemma Arrives(reqs: seq<Request>, start: System, sys: System, r: nat, w: nat, n: nat)
    requires Stands(reqs, start, sys, r, w) && FirstAt(reqs[r], w, n) && sys.requests[r].slots < reqs[r].limit
    requires sys.requests[r].wallets[w] == Clear(reqs[r])
    ensures Fits(reqs[r], w, n, Before(reqs[r], n))
    ensures var ws := AboutToSet(Before(reqs[r], n), n, Current(sys));
      Stands(reqs, start, PutWallet(sys, r, w, ws, sys.requests[r].slots + 1), r, w)
  {
    var req, x := reqs[r], sys.requests[r].slots;
    ArrivesReady(reqs, start, sys, r, w, n);
    var ready := At(Before(req, n), n, Ready, None);
    hide Reaches, OneNative, Before, At, AboutToSet, SystemShaped;
    Reads(reqs, start, PutWallet(sys, r, w, ready, x + 1), r, w, n, Before(req, n));
    PutTwice(sys, r, w, ready, x + 1, AboutToSet(Before(req, n), n, Current(sys)), x + 1);
  }

  // ---- Two rivals ------------------------------------------------------------------------------

  /** The wallets that are to overlap: the first of each request, or the first two of one. */
  function Second(r: nat, s: nat): nat
  {
    if r == s then 1 else 0
  }

  /** There are such wallets. */
  predicate TwoWallets(reqs: seq<Request>, r: nat, s: nat)
  {
    r < |reqs| && s < |reqs| && |reqs[r].wallets| > 0 && |reqs[s].wallets| > Second(r, s)
  }

  /** Two wallets launched and nothing else done. */
  predicate BothLaunched(reqs: seq<Request>, sys: System, r: nat, s: nat)
    requires SystemShaped(reqs, sys)
  {
    && TwoWallets(reqs, r, s)
    && sys.requests[r].wallets[0] == Clear(reqs[r]) && sys.requests[s].wallets[Second(r, s)] == Clear(reqs[s])
    && sys.requests[r].slots == 0 && sys.requests[s].slots == 0
  }

  lemma LaunchesBoth(reqs: seq<Request>, shared: Shared, r: nat, s: nat) returns (sys: System)
    requires TwoWallets(reqs, r, s)
    ensures SystemShaped(reqs, sys) && Reaches(reqs, SystemInitial(reqs, shared), sys) && sys.shared == shared
    ensures BothLaunched(reqs, sys, r, s)
  {
    var start := SystemInitial(reqs, shared);
    StartsAtStart(reqs, shared);
    hide Reaches, Clear, FreshWallet;
    LaunchesNext(reqs, start, start, r);
    var first := Launched(reqs, start, r);
    LaunchesNext(reqs, start, first, s);
    sys := Launched(reqs, first, s);
  }

  /** Two wallets under way together, each having found no price. */
  lemma BothArrive(reqs: seq<Request>, start: System, sys: System, r: nat, m: nat, s: nat, n: nat)
    returns (there: System)
    requires Stands(reqs, start, sys, r, 0) && Stands(reqs, start, sys, s, Second(r, s))
    requires BothLaunched(reqs, sys, r, s) && CanOverlap(reqs, r, s)
    requires FirstAt(reqs[r], 0, m) && FirstAt(reqs[s], Second(r, s), n) && Current(sys) == None
    ensures Stands(reqs, start, there, r, 0) && Stands(reqs, start, there, s, Second(r, s))
    ensures Fits(reqs[r], 0, m, Before(reqs[r], m)) && Fits(reqs[s], Second(r, s), n, Before(reqs[s], n))
    ensures there.requests[r].wallets[0] == AboutToSet(Before(reqs[r], m), m, None)
    ensures there.requests[s].wallets[Second(r, s)] == AboutToSet(Before(reqs[s], n), n, None)
  {
    hide Reaches, Clear, AboutToSet, FirstAt, Before, GlobalPriceAt;
    Arrives(reqs, start, sys, r, 0, m);
    var first := PutWallet(sys, r, 0, AboutToSet(Before(reqs[r], m), m, None), 1);
    Arrives(reqs, start, first, s, Second(r, s), n);
    there := PutWallet(first, s, Second(r, s), AboutToSet(Before(reqs[s], n), n, None), first.requests[s].slots + 1);
  }

  lemma BothShow(reqs: seq<Request>, start: System, sys: System, r: nat, m: nat, s: nat, n: nat) returns (end: System)
    requires Stands(reqs, start, sys, r, 0) && Stands(reqs, start, sys, s, Second(r, s))
    requires Fits(reqs[r], 0, m, Before(reqs[r], m)) && Fits(reqs[s], Second(r, s), n, Before(reqs[s], n))
    requires OneNative(reqs[r], 0, m) && OneNative(reqs[s], Second(r, s), n)
    requires sys.requests[r].wallets[0] == AboutToSet(Before(reqs[r], m), m, None)
    requires sys.requests[s].wallets[Second(r, s)] == AboutToSet(Before(reqs[s], n), n, None)
    ensures Stands(reqs, start, end, r, 0) && Stands(reqs, start, end, s, Second(r, s))
    ensures end.requests[r].wallets[0] == Served(reqs[r], 0, m, Before(reqs[r], m), None)
    ensures end.requests[s].wallets[Second(r, s)] == Served(reqs[s], Second(r, s), n, Before(reqs[s], n), None)
  {
    hide Reaches, AboutToSet, JustSet, Served, OneNative, Before, Publishing, QuoteWith;
    var v, wm, wn := Second(r, s), Before(reqs[r], m), Before(reqs[s], n);
    Sets(reqs, start, sys, r, 0, m, wm, None);
    var a := Published(reqs, sys, r, 0, m, wm, None);
    Sets(reqs, start, a, s, v, n, wn, None);
    var b := Published(reqs, a, s, v, n, wn, None);
    Unlocks(reqs, start, b, r, 0, m, wm, None);
    var c := PutWallet(b, r, 0, Served(reqs[r], 0, m, wm, None), b.requests[r].slots);
    Unlocks(reqs, start, c, s, v, n, wn, None);
    end := PutWallet(c, s, v, Served(reqs[s], v, n, wn, None), c.requests[s].slots);
  }

  /** Both Gets before both TrySets: each wallet is shown its own network's price. */
  lemma RivalsDiffer(reqs: seq<Request>, shared: Shared, r: nat, m: nat, p: real, s: nat, n: nat, q: real)
    returns (history: seq<Happening>)
    requires CanOverlap(reqs, r, s) && FirstAt(reqs[r], 0, m) && FirstAt(reqs[s], Second(r, s), n)
    requires IsSource(reqs, r, m, p) && IsSource(reqs, s, n, q)
    requires GlobalPriceAt(shared.globalPrices, GLOBALLY_PRICED) == None
    ensures var end := Run(reqs, SystemInitial(reqs, shared), history);
      && end.Some?
      && ShowsGlobalPrice(reqs[r], end.value.requests[r].wallets[0].byNetwork, m, 0, p)
      && ShowsGlobalPrice(reqs[s], end.value.requests[s].wallets[Second(r, s)].byNetwork, n, 0, q)
  {
    var start := SystemInitial(reqs, shared);
    var launched := LaunchesBoth(reqs, shared, r, s);
    hide Reaches, Before, AboutToSet, Served, ShowsGlobalPrice, Run, SystemInitial, BothLaunched, QuoteWith, Clear;
    var there := BothArrive(reqs, start, launched, r, m, s, n);
    var end := BothShow(reqs, start, there, r, m, s, n);
    ServedShows(reqs[r], 0, m, Before(reqs[r], m), None);
    ServedShows(reqs[s], Second(r, s), n, Before(reqs[s], n), None);
    SourceQuote(reqs, r, 0, m, p);
    SourceQuote(reqs, s, Second(r, s), n, q);
    history := HistoryTo(reqs, start, end);
  }

  lemma HistoryTo(reqs: seq<Request>, start: System, end: System) returns (history: seq<Happening>)
    requires SystemShaped(reqs, start) && Reaches(reqs, start, end)
    ensures Run(reqs, start, history) == Some(end)
  {
    history :| Run(reqs, start, history) == Some(end);
  }

  lemma SourceQuote(reqs: seq<Request>, r: nat, w: nat, n: nat, price: real)
    requires IsSource(reqs, r, n, price) && w < |reqs[r].wallets| && OneNative(reqs[r], w, n)
    ensures QuoteWith(reqs[r], w, n, None) == Quote(price, Some(price)) && price > 0.0
  {
    hide BalancesOf, Answered, IsNative, GloballyPriced;
  }

  // ---- Answers that make rivals of them --------------------------------------------------------------

  lemma FirstOnlyAt(reqs: seq<Request>, a: Place, b: Place, c: Place)
    requires OnlyAt(reqs, a, b) && (c == a || c == b) && !(a.r == b.r && a.w == b.w)
    requires c.r < |reqs| && c.w < |reqs[c.r].wallets| && c.n < |reqs[c.r].networks|
    requires GloballyPriced(reqs[c.r].networks[c.n])
    ensures FirstAt(reqs[c.r], c.w, c.n)
  {
    NativeAt(reqs, a, b, c);
    hide GloballyPriced, BalancesOf, Answered, OneNative;
    forall i: nat | i < c.n
      ensures Answered(reqs[c.r], c.w, i) && BalancesOf(reqs[c.r], c.w, i) == []
    {
      assert Place(c.r, c.w, i) != a && Place(c.r, c.w, i) != b;
      assert Yields(reqs[c.r], c.w, i, false);
    }
  }

  lemma AlikeRivals(reqs: seq<Request>, reqs': seq<Request>)
    requires Alike(reqs, reqs')
    ensures NoRivals(reqs) ==> NoRivals(reqs')
    ensures WellNamed(reqs) ==> WellNamed(reqs')
  {
    hide WrappedPrice, GloballyPriced;
    forall r: nat, n: nat, price: real | IsSource(reqs', r, n, price)
      ensures IsSource(reqs, r, n, price)
    {
      assert SameCall(reqs[r], reqs'[r]);
    }
    forall r: nat, s: nat | CanOverlap(reqs', r, s)
      ensures CanOverlap(reqs, r, s)
    {
      assert SameCall(reqs[r], reqs'[r]) && SameCall(reqs[s], reqs'[s]);
    }
    if WellNamed(reqs) {
      assert forall r :: 0 <= r < |reqs| ==> DistinctNames(reqs[r]) && SameCall(reqs[r], reqs'[r]);
    }
  }

  lemma TwoPrices(reqs: seq<Request>, shared: Shared, history: seq<Happening>, r: nat, w: nat, m: nat, p: real,
                  s: nat, v: nat, n: nat, q: real)
    requires r < |reqs| && w < |reqs[r].wallets| && s < |reqs| && v < |reqs[s].wallets| && p > 0.0 && q > 0.0 && p != q
    requires var end := Run(reqs, SystemInitial(reqs, shared), history);
      && end.Some?
      && ShowsGlobalPrice(reqs[r], end.value.requests[r].wallets[w].byNetwork, m, 0, p)
      && ShowsGlobalPrice(reqs[s], end.value.requests[s].wallets[v].byNetwork, n, 0, q)
    ensures !ShowsOnePrice(reqs, shared, history)
  {
    hide ShowsGlobalPrice, Run, SystemInitial;
  }

  /** Rivals that have the only balances have a schedule under which they are shown different prices. */
  lemma PlacesDiffer(reqs: seq<Request>, shared: Shared, r: nat, m: nat, p: real, s: nat, n: nat, q: real)
    returns (history: seq<Happening>)
    requires IsSource(reqs, r, m, p) && IsSource(reqs, s, n, q) && CanOverlap(reqs, r, s) && p != q
    requires OnlyAt(reqs, Place(r, 0, m), Place(s, Second(r, s), n))
    requires GlobalPriceAt(shared.globalPrices, GLOBALLY_PRICED) == None
    ensures !ShowsOnePrice(reqs, shared, history)
  {
    var a, b := Place(r, 0, m), Place(s, Second(r, s), n);
    SourceIsPositive(reqs, r, m, p);
    SourceIsPositive(reqs, s, n, q);
    FirstOnlyAt(reqs, a, b, a);
    FirstOnlyAt(reqs, a, b, b);
    hide IsSource, FirstAt, ShowsOnePrice, GlobalPriceAt, Run, ShowsGlobalPrice, OnlyAt;
    history := RivalsDiffer(reqs, shared, r, m, p, s, n, q);
    TwoPrices(reqs, shared, history, r, 0, m, p, s, Second(r, s), n, q);
  }

  lemma SourceIsPositive(reqs: seq<Request>, r: nat, n: nat, price: real)
    requires IsSource(reqs, r, n, price)
    ensures price > 0.0 && r < |reqs| && n < |reqs[r].networks| && GloballyPriced(reqs[r].networks[n])
  {
  }

  /** Calls with rivals have node replies and a schedule under which the rivals are shown different prices. */
  lemma RivalsCanDiffer(reqs: seq<Request>, calls: seq<Call>, shared: Shared)
    returns (answers: seq<Answers>, history: seq<Happening>)
    requires !NoRivals(reqs) && GlobalPriceAt(shared.globalPrices, GLOBALLY_PRICED) == None
    requires AllStarted(calls) && Alike(reqs, Unanswered(calls))
    ensures |answers| == |calls| && !ShowsOnePrice(AskedAll(calls, answers), shared, history)
  {
    hide IsSource, ShowsOnePrice, GlobalPriceAt, Asked, AllStarted;
    var r: nat, m: nat, p: real, s: nat, n: nat, q: real :|
      IsSource(reqs, r, m, p) && IsSource(reqs, s, n, q) && CanOverlap(reqs, r, s) && p != q;
    var a, b := Place(r, 0, m), Place(s, Second(r, s), n);
    answers := SparingAll(calls, a, b);
    AskedAlike(calls, answers);
    SparingOnlyAt(calls, a, b);
    AlikeSource(reqs, AskedAll(calls, answers), r, m, p);
    AlikeSource(reqs, AskedAll(calls, answers), s, n, q);
    AlikeOverlap(reqs, AskedAll(calls, answers), r, s);
    hide Alike, OnlyAt, AskedAll, SparingAll, Unanswered;
    history := PlacesDiffer(AskedAll(calls, answers), shared, r, m, p, s, n, q);
  }

  lemma AlikeSource(reqs: seq<Request>, reqs': seq<Request>, r: nat, n: nat, price: real)
    requires Alike(reqs, reqs') && IsSource(reqs, r, n, price)
    ensures IsSource(reqs', r, n, price)
  {
    hide WrappedPrice, GloballyPriced;
    assert SameCall(reqs[r], reqs'[r]);
  }

  lemma AlikeOverlap(reqs: seq<Request>, reqs': seq<Request>, r: nat, s: nat)
    requires Alike(reqs, reqs') && CanOverlap(reqs, r, s)
    ensures CanOverlap(reqs', r, s)
  {
    assert SameCall(reqs[r], reqs'[r]) && SameCall(reqs[s], reqs'[s]);
  }

  /**
   One price, exactly: whatever clients and nodes answer, whatever amounts are worth
   and whatever the schedule, every state shows all wallets of these calls one global
   price if and only if that price is set at the start, or no two of their workers that
   can overlap have different prices to publish.
   */
  lemma OnePriceIff(reqs: seq<Request>, shared: Shared)
    requires WellNamed(reqs) && Positively(GlobalPriceAt(shared.globalPrices, GLOBALLY_PRICED))
    ensures GlobalPriceAt(shared.globalPrices, GLOBALLY_PRICED).Some? || NoRivals(reqs)
      <==> forall reqs', history :: Alike(reqs, reqs') ==> ShowsOnePrice(reqs', shared, history)
  {
    hide NoRivals, ShowsOnePrice, Alike, WellNamed;
    if GlobalPriceAt(shared.globalPrices, GLOBALLY_PRICED).Some? || NoRivals(reqs) {
      forall reqs', history | Alike(reqs, reqs')
        ensures ShowsOnePrice(reqs', shared, history)
      {
        AlikeRivals(reqs, reqs');
        NoRivalsOnePrice(reqs', shared, history);
      }
    } else {
      LikeUnanswered(reqs);
      var answers, history := RivalsCanDiffer(reqs, CallsLike(reqs), shared);
      LikeAsked(reqs, answers);
    }
  }

  /**
   For one request from an empty cache: one price if and only if it has one wallet, or
   one slot, or one price for all wrapped tokens of its globally priced networks.
   */
  lemma OneRequestOnePriceIff(req: Request, shared: Shared)
    requires DistinctNames(req) && GlobalPriceAt(shared.globalPrices, GLOBALLY_PRICED) == None
    ensures |req.wallets| <= 1 || req.limit <= 1 || SourcesAgree(req)
      <==> forall reqs', history :: Alike([req], reqs') ==> ShowsOnePrice(reqs', shared, history)
  {
    hide NoRivals, ShowsOnePrice, Alike, DistinctNames, SourcesAgree;
    SingleRequestRivals(req);
    OnePriceIff([req], shared);
  }

  /**
   One price for the service's own calls, exactly: for whatever Prepare returns, every
   client and node outcome and every schedule, with the amounts valued as the service
   values them.
   */
  lemma ServiceOnePriceIff(calls: seq<Call>, shared: Shared)
    requires AllPrepared(calls) && Positively(GlobalPriceAt(shared.globalPrices, GLOBALLY_PRICED))
    ensures AllStarted(calls)
    ensures GlobalPriceAt(shared.globalPrices, GLOBALLY_PRICED).Some? || NoRivals(Unanswered(calls))
      <==> forall answers, history :: |answers| == |calls| ==> ShowsOnePrice(AskedAll(calls, answers), shared, history)
  {
    PreparedNamed(calls);
    hide NoRivals, ShowsOnePrice, WellNamed, Alike, AllPrepared, AllStarted, AskedAll, Unanswered;
    if GlobalPriceAt(shared.globalPrices, GLOBALLY_PRICED).Some? || NoRivals(Unanswered(calls)) {
      forall answers, history | |answers| == |calls|
        ensures ShowsOnePrice(AskedAll(calls, answers), shared, history)
      {
        AskedAlike(calls, answers);
        AlikeRivals(Unanswered(calls), AskedAll(calls, answers));
        NoRivalsOnePrice(AskedAll(calls, answers), shared, history);
      }
    } else {
      AlikeItself(Unanswered(calls));
      var answers, history := RivalsCanDiffer(Unanswered(calls), calls, shared);
    }
  }

  lemma AlikeItself(reqs: seq<Request>)
    ensures Alike(reqs, reqs)
  {
  }

  // ---- Two known networks ----------------------------------------------------------------------------------

  function PricesOf(d: NetworkDefinition, price: real): map<string, real>
  {
    map[ToLower(d.wrappedNativeTokenAddress) := price]
  }

  const FIRST_WALLET := "0x0000000000000000000000000000000000000001"
  const SECOND_WALLET := "0x0000000000000000000000000000000000000002"

  /** Two wallets, two slots, Ethereum and Arbitrum, with wrapped ether a dollar dearer on Arbitrum. */
  const TWO_CHAINS := Call(
    Prepared([FIRST_WALLET, SECOND_WALLET], [ETHEREUM, ARBITRUM], map[]), 2,
    map["ethereum" := PricesOf(ETHEREUM, 3000.0), "arbitrum" := PricesOf(ARBITRUM, 3001.0)])

  lemma KnownSource(d: NetworkDefinition, prices: PriceTable, price: real)
    requires d.nativeSymbol == "ETH" && d.dexScreenerChainID != "" && price > 0.0
    requires |d.wrappedNativeTokenAddress| == 42 && LowerChar(d.wrappedNativeTokenAddress[2]) != '0'
    requires d.dexScreenerChainID in prices && prices[d.dexScreenerChainID] == PricesOf(d, price)
    ensures GloballyPriced(d) && WrappedPrice(prices, d) == Some(price)
  {
    var wrapped := d.wrappedNativeTokenAddress;
    LowerTwice(wrapped);
    assert ToLower("ETH") == "eth";
    assert ToLower(wrapped)[2] != ToLower(ZERO_ADDRESS)[2];
    assert !EqualFold(wrapped, ZERO_ADDRESS);
  }

  /** A directory of two empty token files leads to such a call. */
  lemma TwoFiles(call: Call)
    requires call.start.Prepared? && call.start.networks == [ETHEREUM, ARBITRUM] && call.start.tokensByChainID == map[]
    requires call.limit > 0
    ensures IsPrepared(call)
  {
    var files, contents := [ETHEREUM_FILE, ARBITRUM_FILE], (name: string) => Some([]);
    EthereumAndArbitrum();
    hide *;
    EmptyFiles(ByIdentifier(call.start.networks), contents, files);
    IsPreparedFrom(call, files, [], files, contents);
  }

  lemma IsPreparedFrom(call: Call, files: seq<DirEntry>, names: seq<string>, listing: seq<DirEntry>,
                       contents: FileContents)
    requires call.start.Prepared? && call.limit > 0 && names == []
    requires call.start.networks == ActiveDefinitions(ByIdentifier(KNOWN_DEFINITIONS), files)
    requires Groups(call.start.tokensByChainID, ByIdentifier(call.start.networks), contents, listing)
    ensures IsPrepared(call)
  {
    hide KNOWN_DEFINITIONS, ActiveDefinitions, ByIdentifier, Groups;
    assert PreparedFrom(call, files, names, listing, contents);
  }

  lemma EmptyFiles(active: map<string, NetworkDefinition>, contents: FileContents, files: seq<DirEntry>)
    requires forall name :: contents(name) == Some([])
    ensures Groups(map[], active, contents, files)
  {
    hide TokensUnder;
    forall chain
      ensures TokensUnder(active, contents, files, chain) == []
    {
      NoTokens(active, contents, files, chain);
    }
  }

  lemma {:induction false} NoTokens(active: map<string, NetworkDefinition>, contents: FileContents,
                                    files: seq<DirEntry>, chain: string)
    requires forall name :: contents(name) == Some([])
    ensures TokensUnder(active, contents, files, chain) == []
  {
    hide IsTokenFile, BaseName, FormatUint;
    if files != [] {
      NoTokens(active, contents, files[..|files| - 1], chain);
    }
  }

  /** On these two chains two wallets of one call can be shown two prices of ether. */
  lemma TwoChainsTwoPrices(shared: Shared) returns (answers: Answers, history: seq<Happening>)
    requires GlobalPriceAt(shared.globalPrices, GLOBALLY_PRICED) == None
    ensures IsPrepared(TWO_CHAINS) && !ShowsOnePrice([Asked(TWO_CHAINS, answers)], shared, history)
  {
    TwoFiles(TWO_CHAINS);
    answers := Sparing(0, Place(0, 0, 0), Place(0, 1, 1));
    SparingOne(TWO_CHAINS, Place(0, 0, 0), Place(0, 1, 1));
    TwoSources(Asked(TWO_CHAINS, answers));
    hide *;
    history := PlacesDiffer([Asked(TWO_CHAINS, answers)], shared, 0, 0, 3000.0, 0, 1, 3001.0);
  }

  lemma SparingOne(call: Call, a: Place, b: Place)
    requires call.start.Prepared?
    ensures OnlyAt([Asked(call, Sparing(0, a, b))], a, b)
  {
    hide OnlyAt, Asked;
    SparingOnlyAt([call], a, b);
    assert AskedAll([call], SparingAll([call], a, b)) == [Asked(call, Sparing(0, a, b))];
  }

  lemma TwoSources(req: Request)
    requires req.networks == [ETHEREUM, ARBITRUM] && req.prices == TWO_CHAINS.prices
    ensures IsSource([req], 0, 0, 3000.0) && IsSource([req], 0, 1, 3001.0)
    ensures |req.wallets| > 1 && req.limit > 1 ==> CanOverlap([req], 0, 0)
  {
    hide WrappedPrice, GloballyPriced, ToLower;
    KnownSource(ETHEREUM, req.prices, 3000.0);
    KnownSource(ARBITRUM, req.prices, 3001.0);
  }

  /** Where all such wrapped tokens have one price, every wallet of every run is shown that price or none. */
  lemma SameSourcesSamePrice(reqs: seq<Request>, shared: Shared, history: seq<Happening>, price: real)
    requires WellNamed(reqs) && GlobalPriceAt(shared.globalPrices, GLOBALLY_PRICED) == None
    requires forall r: nat, n: nat, x: real :: IsSource(reqs, r, n, x) ==> x == price
    ensures var end := Run(reqs, SystemInitial(reqs, shared), history);
      end.Some? ==>
        forall r: nat, w: nat, n: nat, k: nat, x: real ::
          r < |reqs| && w < |reqs[r].wallets|
          && ShowsGlobalPrice(reqs[r], end.value.requests[r].wallets[w].byNetwork, n, k, x) && x != 0.0
          ==> x == price
  {
    hide IsSource, ShowsGlobalPrice, Run, SystemInitial, WellNamed;
    GlobalPriceProvenance(reqs, shared, history);
  }
}
