/**
 The portfolio service's concurrent run as a transition system.

 A request fetches the portfolios of its wallets: one goroutine per wallet, which
 takes a slot of the request's semaphore for each network before spawning that
 network's worker. Workers merge into their wallet's portfolio under the wallet's
 mutex. Any number of requests run at the same time; what they share is the cache
 of global native prices and the set of failed wallets.
 */
module PortfolioRun {
  import opened Wrappers
  import opened Entities
  import opened Strings
  import opened TokenPrices

  // ---- A request and the answers it will get -------------------------------------

  /**
   `connect` is the failure of GetClient, if any, and `fetch` what
   fetchBalancesForNetwork returns, for each wallet and network. `prices` is the
   loaded price cache and `valuate` stands for CalculateValueUSD.
   */
  datatype Request = Request(
    wallets: seq<string>,
    networks: seq<NetworkDefinition>,
    limit: nat,
    connect: (nat, nat) -> Option<string>,
    fetch: (nat, nat) -> Fetched,
    prices: PriceTable,
    valuate: (nat, nat, real) -> Result<real>)

  /** The balances and errors the worker of wallet w on network n ends up with. */
  function Outcome(req: Request, w: nat, n: nat): Fetched
    requires w < |req.wallets| && n < |req.networks|
  {
    var d := req.networks[n];
    match req.connect(w, n)
    case Some(why) =>
      Fetched([], [PortfolioError(req.wallets[w], d.name, FormatUint(d.chainID), "", "", false,
                                  "Failed to get client: " + why)])
    case None => req.fetch(w, n)
  }

  /** Without a client there is no balance and just the one error that says so; with one, what is fetched. */
  lemma OutcomeOfClient(req: Request, w: nat, n: nat)
    requires w < |req.wallets| && n < |req.networks|
    ensures req.connect(w, n) == None ==> Outcome(req, w, n) == req.fetch(w, n)
    ensures forall why :: req.connect(w, n) == Some(why) ==>
      && Outcome(req, w, n).balances == [] && |Outcome(req, w, n).errors| == 1
      && var d, e := req.networks[n], Outcome(req, w, n).errors[0];
         && e.walletAddress == req.wallets[w] && e.networkName == d.name && e.chainID == FormatUint(d.chainID)
         && e.tokenSymbol == "" && e.tokenAddress == "" && !e.isNative && e.message == "Failed to get client: " + why
  {
    hide FormatUint;
  }

  // ---- Prices ------------------------------------------------------------------------

  predicate IsNativeAddress(address: string)
  {
    address == "" || EqualFold(address, ZERO_ADDRESS)
  }

  predicate IsNative(nb: Balance)
  {
    IsNativeAddress(nb.tokenAddress)
  }

  const GLOBALLY_PRICED := "eth"

  predicate GloballyPriced(d: NetworkDefinition)
  {
    ToLower(d.nativeSymbol) == GLOBALLY_PRICED
  }

  /** The balance is priced through the cache that all networks share. */
  predicate UsesGlobal(d: NetworkDefinition, nb: Balance)
  {
    IsNative(nb) && GloballyPriced(d)
  }

  function Positive(price: Option<real>): Option<real>
  {
    if price.Some? && price.value > 0.0 then price else None
  }

  /** The positive cached price of the network's wrapped native token, if it can be looked up. */
  function WrappedPrice(prices: PriceTable, d: NetworkDefinition): (price: Option<real>)
    ensures price.Some? ==> price.value > 0.0
  {
    if d.dexScreenerChainID != "" && d.wrappedNativeTokenAddress != ""
       && !EqualFold(d.wrappedNativeTokenAddress, ZERO_ADDRESS)
    then Positive(PriceAt(prices, d.dexScreenerChainID, ToLower(d.wrappedNativeTokenAddress)))
    else None
  }

  /** A price, and what is published to the shared cache on the way. */
  datatype Quote = Quote(price: real, publish: Option<real>)

  /** `cached` is what was read from the shared cache. */
  function PriceOf(prices: PriceTable, d: NetworkDefinition, nb: Balance, cached: Option<real>): (quote: Quote)
    ensures quote.publish.Some? ==> quote.publish.value == quote.price > 0.0
  {
    if IsNative(nb) then
      if GloballyPriced(d) && cached.Some? && cached.value != 0.0 then Quote(cached.value, None)
      else match WrappedPrice(prices, d)
        case Some(price) => Quote(price, if GloballyPriced(d) then Some(price) else None)
        case None => Quote(0.0, None)
    else if d.dexScreenerChainID != "" then
      match Positive(PriceAt(prices, d.dexScreenerChainID, ToLower(nb.tokenAddress)))
      case Some(price) => Quote(price, None)
      case None => Quote(0.0, None)
    else Quote(0.0, None)
  }

  function Worth(req: Request, nb: Balance, price: real): real
  {
    if nb.amount.Some? && price > 0.0 then
      match req.valuate(nb.amount.value, nb.decimals, price)
      case Ok(value) => value
      case Err(_) => 0.0
    else 0.0
  }

  function Detail(req: Request, nb: Balance, price: real): TokenDetail
  {
    TokenDetail(nb.tokenAddress, nb.tokenSymbol, nb.decimals, nb.formattedBalance, price, Worth(req, nb, price))
  }

  // ---- States ------------------------------------------------------------------------

  /** Where the worker of one network stands; the first |details| balances have been priced. */
  datatype Worker =
    | Pending                                                    // not yet spawned
    | Spawned                                                    // holds a slot
    | Rejected                                                   // GetClient failed
    | Connected                                                  // has a client
    | Ready                                                      // has balances and errors, wants the mutex
    | Pricing(details: seq<TokenDetail>, total: real)            // holds the mutex
    | Quoted(details: seq<TokenDetail>, total: real, cached: Option<real>) // holds it, between Get and TrySet
    | Merged                                                     // mutex unlocked
    | Released                                                   // slot given back
    | Finished                                                   // wg.Done called

  datatype Phase =
    | NotStarted
    | Looping(next: nat)   // at the top of the network loop, or waiting for the workers after the last
    | Acquired(next: nat)  // has taken a slot, worker not yet spawned
    | Returned             // portfolio complete
    | Sent                 // result sent
    | Marked               // failure recorded
    | Reported             // errors appended
    | Done                 // wg.Done called

  datatype WalletState = WalletState(
    phase: Phase,
    workers: seq<Worker>,
    lock: Option<nat>,
    byNetwork: map<string, NetworkTokens>,
    total: real,
    errors: seq<PortfolioError>)

  datatype RequestState = RequestState(
    launched: nat,
    wallets: seq<WalletState>,
    slots: nat,
    results: seq<WalletPortfolio>,
    errors: seq<PortfolioError>,
    collected: Option<seq<WalletPortfolio>>)

  datatype Shared = Shared(globalPrices: GlobalPrices, failed: set<string>)

  function FreshWallet(req: Request): WalletState
  {
    WalletState(NotStarted, seq(|req.networks|, _ => Pending), None, map[], 0.0, [])
  }

  function Initial(req: Request): RequestState
  {
    RequestState(0, seq(|req.wallets|, _ => FreshWallet(req)), 0, [], [], None)
  }

  // ---- Steps of one wallet -------------------------------------------------------------

  /** What a network's worker does, in the order in which it does it. */
  datatype Action = Connect | Fetch | Lock | Get | Set | Unlock | Release | Leave

  datatype Step = Acquire | Spawn | Join | Send | Mark | Report | End | Work(n: nat, action: Action)

  function BalancesOf(req: Request, w: nat, n: nat): seq<Balance>
    requires w < |req.wallets| && n < |req.networks|
  {
    Outcome(req, w, n).balances
  }

  function ErrorsOf(req: Request, w: nat, n: nat): seq<PortfolioError>
    requires w < |req.wallets| && n < |req.networks|
  {
    Outcome(req, w, n).errors
  }

  predicate WorkerCan(req: Request, w: nat, n: nat, worker: Worker, lock: Option<nat>, action: Action)
    requires w < |req.wallets| && n < |req.networks|
  {
    match action
    case Connect => worker.Spawned?
    case Fetch => worker.Connected?
    case Lock => (worker.Rejected? || worker.Ready?) && lock.None?
    case Get => worker.Pricing? && |worker.details| < |BalancesOf(req, w, n)|
    case Set => worker.Quoted? && |worker.details| < |BalancesOf(req, w, n)|
    case Unlock => worker.Pricing? && |worker.details| == |BalancesOf(req, w, n)|
    case Release => worker.Merged?
    case Leave => worker.Released?
  }

  predicate WalletCan(req: Request, w: nat, ws: WalletState, step: Step)
    requires w < |req.wallets| && |ws.workers| == |req.networks|
  {
    match step
    case Acquire => ws.phase.Looping? && ws.phase.next < |req.networks|
    case Spawn => ws.phase.Acquired? && ws.phase.next < |req.networks|
    case Join => ws.phase == Looping(|req.networks|) && forall n :: 0 <= n < |ws.workers| ==> ws.workers[n].Finished?
    case Send => ws.phase.Returned?
    case Mark => ws.phase.Sent? && ws.errors != []
    case Report => ws.phase.Marked?
    case End => ws.phase.Reported? || (ws.phase.Sent? && ws.errors == [])
    case Work(n, action) => n < |ws.workers| && WorkerCan(req, w, n, ws.workers[n], ws.lock, action)
  }

  /** What a worker reads from the shared cache for its current balance. */
  function Read(req: Request, w: nat, n: nat, worker: Worker, prices: GlobalPrices): Option<real>
    requires w < |req.wallets| && n < |req.networks|
    requires worker.Pricing? && |worker.details| < |BalancesOf(req, w, n)|
  {
    if UsesGlobal(req.networks[n], BalancesOf(req, w, n)[|worker.details|])
    then GlobalPriceAt(prices, GLOBALLY_PRICED) else None
  }

  /** The quote a worker between Get and TrySet arrives at for its current balance. */
  function QuoteFor(req: Request, w: nat, n: nat, worker: Worker): Quote
    requires w < |req.wallets| && n < |req.networks|
    requires worker.Quoted? && |worker.details| < |BalancesOf(req, w, n)|
  {
    PriceOf(req.prices, req.networks[n], BalancesOf(req, w, n)[|worker.details|], worker.cached)
  }

  function DetailFor(req: Request, w: nat, n: nat, worker: Worker): TokenDetail
    requires w < |req.wallets| && n < |req.networks|
    requires worker.Quoted? && |worker.details| < |BalancesOf(req, w, n)|
  {
    Detail(req, BalancesOf(req, w, n)[|worker.details|], QuoteFor(req, w, n, worker).price)
  }

  /** The worker after a step of its own, given the shared prices it may read. */
  function WorkerAfter(req: Request, w: nat, n: nat, worker: Worker, prices: GlobalPrices, lock: Option<nat>,
                       action: Action): Worker
    requires w < |req.wallets| && n < |req.networks| && WorkerCan(req, w, n, worker, lock, action)
  {
    match action
    case Connect => if req.connect(w, n).Some? then Rejected else Connected
    case Fetch => Ready
    case Lock => Pricing([], 0.0)
    case Get => Quoted(worker.details, worker.total, Read(req, w, n, worker, prices))
    case Set =>
      var detail := DetailFor(req, w, n, worker);
      Pricing(worker.details + [detail], worker.total + detail.valueUSD)
    case Unlock => Merged
    case Release => Released
    case Leave => Finished
  }

  /** The entry a worker adds to the portfolio. */
  function EntryOf(d: NetworkDefinition, details: seq<TokenDetail>, total: real): NetworkTokens
  {
    NetworkTokens(FormatUint(d.chainID), details, total)
  }

  /** The wallet after a worker's step: the mutex, the errors and the portfolio change under Lock and Unlock only. */
  function WorkAfter(req: Request, w: nat, ws: WalletState, prices: GlobalPrices, n: nat, action: Action): WalletState
    requires w < |req.wallets| && |ws.workers| == |req.networks| && WalletCan(req, w, ws, Work(n, action))
  {
    var worker := ws.workers[n];
    var moved := ws.(workers := ws.workers[n := WorkerAfter(req, w, n, worker, prices, ws.lock, action)]);
    if action.Lock? then moved.(lock := Some(n), errors := ws.errors + ErrorsOf(req, w, n))
    else if action.Unlock? then
      if worker.details == [] then moved.(lock := None)
      else
        moved.(lock := None, total := ws.total + worker.total,
               byNetwork := ws.byNetwork[
                 req.networks[n].name := EntryOf(req.networks[n], worker.details, worker.total)])
    else moved
  }

  function WalletAfter(req: Request, w: nat, ws: WalletState, prices: GlobalPrices, step: Step): WalletState
    requires w < |req.wallets| && |ws.workers| == |req.networks| && WalletCan(req, w, ws, step)
  {
    match step
    case Acquire => ws.(phase := Acquired(ws.phase.next))
    case Spawn => ws.(phase := Looping(ws.phase.next + 1), workers := ws.workers[ws.phase.next := Spawned])
    case Join => ws.(phase := Returned)
    case Send => ws.(phase := Sent)
    case Mark => ws.(phase := Marked)
    case Report => ws.(phase := Reported)
    case End => ws.(phase := Done)
    case Work(n, action) => WorkAfter(req, w, ws, prices, n, action)
  }

  /** What the wallet goroutine sends when its workers are done. */
  function PortfolioOf(req: Request, w: nat, ws: WalletState): WalletPortfolio
    requires w < |req.wallets|
  {
    WalletPortfolio(req.wallets[w], ws.byNetwork, ws.total)
  }

  // ---- Steps of a request ----------------------------------------------------------------

  datatype Event = Launch | Collect | Act(w: nat, step: Step)

  predicate IsRelease(step: Step)
  {
    step.Work? && step.action.Release?
  }

  /** The state has the request's shape. */
  predicate Shaped(req: Request, rs: RequestState)
  {
    |rs.wallets| == |req.wallets| && forall w :: 0 <= w < |rs.wallets| ==> |rs.wallets[w].workers| == |req.networks|
  }

  predicate Enabled(req: Request, rs: RequestState, ev: Event)
    requires Shaped(req, rs)
  {
    match ev
    case Launch => rs.launched < |req.wallets|
    case Collect =>
      rs.launched == |req.wallets| && rs.collected.None?
      && forall w :: 0 <= w < |rs.wallets| ==> rs.wallets[w].phase.Done?
    case Act(w, step) =>
      && w < |rs.wallets| && WalletCan(req, w, rs.wallets[w], step)
      && (step.Acquire? ==> rs.slots < req.limit)              // the semaphore has room
      && (IsRelease(step) ==> rs.slots > 0)
      && (step.Send? ==> |rs.results| < |req.wallets|)         // the results channel has room
  }

  function Apply(req: Request, rs: RequestState, prices: GlobalPrices, ev: Event): RequestState
    requires Shaped(req, rs) && Enabled(req, rs, ev)
  {
    match ev
    case Launch => rs.(launched := rs.launched + 1,
                       wallets := rs.wallets[rs.launched := rs.wallets[rs.launched].(phase := Looping(0))])
    case Collect => rs.(collected := Some(rs.results))
    case Act(w, step) =>
      var moved := rs.(wallets := rs.wallets[w := WalletAfter(req, w, rs.wallets[w], prices, step)]);
      if step.Acquire? then moved.(slots := rs.slots + 1)
      else if IsRelease(step) then moved.(slots := rs.slots - 1)
      else if step.Send? then moved.(results := rs.results + [PortfolioOf(req, w, rs.wallets[w])])
      else if step.Report? then moved.(errors := rs.errors + rs.wallets[w].errors)
      else moved
  }

  /** The effect on what all requests share: TrySet on the prices, and the failure mark. */
  function ShareAfter(req: Request, rs: RequestState, shared: Shared, ev: Event): Shared
    requires Shaped(req, rs) && Enabled(req, rs, ev)
  {
    if ev.Act? && ev.step.Work? && ev.step.action.Set? then
      match QuoteFor(req, ev.w, ev.step.n, rs.wallets[ev.w].workers[ev.step.n]).publish
      case Some(price) => shared.(globalPrices := WithGlobalPrice(shared.globalPrices, GLOBALLY_PRICED, price))
      case None => shared
    else if ev.Act? && ev.step.Mark? then shared.(failed := shared.failed + {req.wallets[ev.w]})
    else shared
  }

  // ---- Systems of requests ------------------------------------------------------------------

  datatype System = System(requests: seq<RequestState>, shared: Shared)

  datatype Happening = Happening(r: nat, ev: Event)

  predicate SystemShaped(reqs: seq<Request>, sys: System)
  {
    |sys.requests| == |reqs| && forall r :: 0 <= r < |reqs| ==> Shaped(reqs[r], sys.requests[r])
  }

  predicate SystemEnabled(reqs: seq<Request>, sys: System, h: Happening)
    requires SystemShaped(reqs, sys)
  {
    h.r < |reqs| && Enabled(reqs[h.r], sys.requests[h.r], h.ev)
  }

  function SystemApply(reqs: seq<Request>, sys: System, h: Happening): (after: System)
    requires SystemShaped(reqs, sys) && SystemEnabled(reqs, sys, h)
    ensures SystemShaped(reqs, after)
  {
    System(sys.requests[h.r := Apply(reqs[h.r], sys.requests[h.r], sys.shared.globalPrices, h.ev)],
           ShareAfter(reqs[h.r], sys.requests[h.r], sys.shared, h.ev))
  }

  function SystemInitial(reqs: seq<Request>, shared: Shared): (sys: System)
    ensures SystemShaped(reqs, sys)
  {
    System(seq(|reqs|, r requires 0 <= r < |reqs| => Initial(reqs[r])), shared)
  }

  /**
   The state after a sequence of happenings, if each is enabled in its turn. All
   requests are in the system from the start, but one that begins later simply
   has its first step later: overlapping and successive requests are both covered.
   */
  function Run(reqs: seq<Request>, sys: System, history: seq<Happening>): (end: Option<System>)
    requires SystemShaped(reqs, sys)
    ensures end.Some? ==> SystemShaped(reqs, end.value)
    decreases |history|
  {
    if history == [] then Some(sys)
    else if SystemEnabled(reqs, sys, history[0]) then Run(reqs, SystemApply(reqs, sys, history[0]), history[1..])
    else None
  }
}
