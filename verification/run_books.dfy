/**
 What the results and errors of the requests hold, in every reachable state, given a
 rule for the prices and a range of values for what is read from the shared cache.
 */
module RunBooks {
  import opened Wrappers
  import opened Entities
  import opened Sums
  import opened TokenPrices
  import opened PortfolioRun
  import opened WalletControl
  import opened WalletBooks
  import opened RunControl

  // ---- What has been read from the shared cache ---------------------------------------

  /** What a worker may have read from the shared cache: arguments the network and what was read. */
  type Range = (nat, Option<real>) -> bool

  /** The range of each request. */
  type Ranges = nat -> Range

  /** The range of every network has this value. */
  ghost predicate InRange(read: Range, cached: Option<real>)
  {
    forall n: nat :: read(n, cached)
  }

  ghost predicate WorkerReading(req: Request, w: nat, n: nat, worker: Worker, read: Range)
    requires w < |req.wallets| && n < |req.networks| && WithinBalances(req, w, n, worker)
  {
    worker.Quoted? && UsesGlobal(req.networks[n], BalancesOf(req, w, n)[|worker.details|]) ==> read(n, worker.cached)
  }

  /** Whatever a worker has read for a globally priced balance, and not yet used, is in the range. */
  ghost predicate Readings(req: Request, w: nat, ws: WalletState, read: Range)
    requires Control(req, w, ws)
  {
    forall n :: 0 <= n < |ws.workers| ==> WorkerReading(req, w, n, ws.workers[n], read)
  }

  lemma ReadingsKept(req: Request, w: nat, ws: WalletState, prices: GlobalPrices, step: Step, read: Range)
    requires Control(req, w, ws) && WalletCan(req, w, ws, step) && Readings(req, w, ws, read)
    requires InRange(read, GlobalPriceAt(prices, GLOBALLY_PRICED))
    ensures Control(req, w, WalletAfter(req, w, ws, prices, step))
    ensures Readings(req, w, WalletAfter(req, w, ws, prices, step), read)
  {
    ControlKept(req, w, ws, prices, step);
    var after := WalletAfter(req, w, ws, prices, step);
    forall n | 0 <= n < |ws.workers|
      ensures WorkerReading(req, w, n, after.workers[n], read)
    {
      assert WorkerReading(req, w, n, ws.workers[n], read);
      hide Outcome, DetailFor, UsesGlobal;
    }
  }

  // ---- One request ------------------------------------------------------------------------

  predicate HasReported(ws: WalletState)
  {
    ws.phase.Reported? || ws.phase.Done?
  }

  function SentBag(req: Request, w: nat, ws: WalletState): multiset<WalletPortfolio>
    requires w < |req.wallets|
  {
    if HasSent(ws) then multiset{PortfolioOf(req, w, ws)} else multiset{}
  }

  function ReportedBag(ws: WalletState): multiset<PortfolioError>
  {
    if HasReported(ws) then multiset(ws.errors) else multiset{}
  }

  function SentBags(req: Request, rs: RequestState): seq<multiset<WalletPortfolio>>
    requires |rs.wallets| == |req.wallets|
  {
    seq(|rs.wallets|, w requires 0 <= w < |rs.wallets| => SentBag(req, w, rs.wallets[w]))
  }

  function ReportedBags(rs: RequestState): seq<multiset<PortfolioError>>
  {
    seq(|rs.wallets|, w requires 0 <= w < |rs.wallets| => ReportedBag(rs.wallets[w]))
  }

  ghost predicate WalletInOrder(req: Request, w: nat, ws: WalletState, rule: PriceRule, read: Range)
  {
    Control(req, w, ws) && Books(req, w, ws, rule) && Readings(req, w, ws, read)
  }

  /** Every wallet's books are right, and the results and errors are those sent and reported, each once. */
  ghost predicate RequestBooks(req: Request, rs: RequestState, rule: PriceRule, read: Range)
    requires |rs.wallets| == |req.wallets|
  {
    && (forall w :: 0 <= w < |rs.wallets| ==> WalletInOrder(req, w, rs.wallets[w], rule, read))
    && multiset(rs.results) == SumBag(SentBags(req, rs))
    && multiset(rs.errors) == SumBag(ReportedBags(rs))
    && (rs.collected.Some? ==> rs.collected.value == rs.results)
  }

  lemma InitialBooks(req: Request, rule: PriceRule, read: Range)
    ensures RequestBooks(req, Initial(req), rule, read)
  {
    forall w | 0 <= w < |req.wallets|
      ensures WalletInOrder(req, w, FreshWallet(req), rule, read)
    {
      FreshControl(req, w);
      FreshBooks(req, w, rule);
    }
    SumBagEmpty(SentBags(req, Initial(req)));
    SumBagEmpty(ReportedBags(Initial(req)));
  }

  /** The price a step settles on, if it is one, is allowed. */
  ghost predicate EventAllowed(req: Request, rs: RequestState, ev: Event, rule: PriceRule)
    requires Shaped(req, rs) && Enabled(req, rs, ev)
  {
    ev.Act? ==> SetsAllowed(req, ev.w, rs.wallets[ev.w], ev.step, rule)
  }

  lemma LaunchKeepsOrder(req: Request, w: nat, ws: WalletState, rule: PriceRule, read: Range)
    requires WalletInOrder(req, w, ws, rule, read) && ws.phase.NotStarted?
    ensures WalletInOrder(req, w, ws.(phase := Looping(0)), rule, read)
  {
    hide BalancesOf, UsesGlobal, Books;
    LaunchControl(req, w, ws);
    BooksOfWorkers(req, w, ws, rule);
    SameStages(req, w, ws, ws.(phase := Looping(0)), rule);
  }

  /** Once sent, a portfolio does not change, and once reported, neither do the errors. */
  lemma BagsAfter(req: Request, w: nat, ws: WalletState, prices: GlobalPrices, step: Step)
    requires Control(req, w, ws) && WalletCan(req, w, ws, step)
    ensures var after := WalletAfter(req, w, ws, prices, step);
      && SentBag(req, w, after) == (if step.Send? then multiset{PortfolioOf(req, w, ws)} else SentBag(req, w, ws))
      && ReportedBag(after) == (if step.Report? then multiset(ws.errors) else ReportedBag(ws))
      && (step.Send? ==> SentBag(req, w, ws) == multiset{})
      && (step.Report? ==> ReportedBag(ws) == multiset{})
  {
    hide SentBag, ReportedBag, PortfolioOf;
    var after := WalletAfter(req, w, ws, prices, step);
    FieldsAfter(req, w, ws, prices, step);
    hide Control, WalletCan, WalletAfter;
    BagsOf(req, w, ws, after, step);
  }

  lemma FieldsAfter(req: Request, w: nat, ws: WalletState, prices: GlobalPrices, step: Step)
    requires Control(req, w, ws) && WalletCan(req, w, ws, step)
    ensures var after := WalletAfter(req, w, ws, prices, step);
      && (step.Send? ==> ws.phase.Returned? && after.phase.Sent?)
      && (step.Report? ==> ws.phase.Marked? && after.phase.Reported?)
      && (HasSent(after) <==> HasSent(ws) || step.Send?)
      && (HasReported(after) <==> HasReported(ws) || step.Report? || step.End?)
      && (!InLoop(ws.phase) ==> after.byNetwork == ws.byNetwork && after.total == ws.total && after.errors == ws.errors)
      && (step.End? && !HasReported(ws) ==> ws.errors == [])
      && (step.End? ==> ws.phase.Reported? || ws.phase.Sent?)
  {
    hide Outcome, EntryOf, WorkAfter;
    if step.Work? {
      WorkInLoop(req, w, ws, prices, step.n, step.action);
    }
  }

  lemma BagsOf(req: Request, w: nat, ws: WalletState, after: WalletState, step: Step)
    requires w < |req.wallets|
    requires step.Send? ==> ws.phase.Returned? && after.phase.Sent?
    requires step.Report? ==> ws.phase.Marked? && after.phase.Reported?
    requires HasSent(after) <==> HasSent(ws) || step.Send?
    requires HasReported(after) <==> HasReported(ws) || step.Report? || step.End?
    requires !InLoop(ws.phase) ==>
      after.byNetwork == ws.byNetwork && after.total == ws.total && after.errors == ws.errors
    requires step.End? && !HasReported(ws) ==> ws.errors == []
    requires step.End? ==> ws.phase.Reported? || ws.phase.Sent?
    ensures SentBag(req, w, after) == (if step.Send? then multiset{PortfolioOf(req, w, ws)} else SentBag(req, w, ws))
    ensures ReportedBag(after) == (if step.Report? then multiset(ws.errors) else ReportedBag(ws))
    ensures step.Send? ==> SentBag(req, w, ws) == multiset{}
    ensures step.Report? ==> ReportedBag(ws) == multiset{}
  {
  }

  lemma WorkInLoop(req: Request, w: nat, ws: WalletState, prices: GlobalPrices, n: nat, action: Action)
    requires Control(req, w, ws) && WalletCan(req, w, ws, Work(n, action))
    ensures InLoop(ws.phase) && WorkAfter(req, w, ws, prices, n, action).phase == ws.phase
  {
    hide Outcome, WorkerAfter, EntryOf, ErrorsOf;
    assert !ws.workers[n].Finished?;
  }

  lemma WalletOrderKept(req: Request, w: nat, ws: WalletState, prices: GlobalPrices, step: Step, rule: PriceRule,
                        read: Range)
    requires WalletInOrder(req, w, ws, rule, read) && WalletCan(req, w, ws, step) && DistinctNames(req)
    requires SetsAllowed(req, w, ws, step, rule) && InRange(read, GlobalPriceAt(prices, GLOBALLY_PRICED))
    ensures WalletInOrder(req, w, WalletAfter(req, w, ws, prices, step), rule, read)
  {
    hide Control, Books, Readings, WalletAfter, WalletCan, SetsAllowed, GlobalPriceAt;
    ReadingsKept(req, w, ws, prices, step, read);
    BooksKept(req, w, ws, prices, step, rule);
  }

  lemma RequestBooksKept(req: Request, rs: RequestState, prices: GlobalPrices, ev: Event, rule: PriceRule, read: Range)
    requires InControl(req, rs) && Enabled(req, rs, ev) && DistinctNames(req) && RequestBooks(req, rs, rule, read)
    requires EventAllowed(req, rs, ev, rule) && InRange(read, GlobalPriceAt(prices, GLOBALLY_PRICED))
    ensures |Apply(req, rs, prices, ev).wallets| == |req.wallets|
    ensures RequestBooks(req, Apply(req, rs, prices, ev), rule, read)
  {
    hide *;
    match ev {
      case Launch => LaunchKeepsBooks(req, rs, prices, rule, read);
      case Collect => CollectKeepsBooks(req, rs, prices, rule, read);
      case Act(w, step) => ActKeepsBooks(req, rs, prices, w, step, rule, read);
    }
  }

  lemma CollectKeepsBooks(req: Request, rs: RequestState, prices: GlobalPrices, rule: PriceRule, read: Range)
    requires InControl(req, rs) && Enabled(req, rs, Collect) && RequestBooks(req, rs, rule, read)
    ensures |Apply(req, rs, prices, Collect).wallets| == |req.wallets|
    ensures RequestBooks(req, Apply(req, rs, prices, Collect), rule, read)
  {
    var after := Apply(req, rs, prices, Collect);
    hide WalletInOrder, InControl, SumBag;
    assert SentBags(req, after) == SentBags(req, rs);
    assert ReportedBags(after) == ReportedBags(rs);
  }

  lemma LaunchKeepsBooks(req: Request, rs: RequestState, prices: GlobalPrices, rule: PriceRule, read: Range)
    requires InControl(req, rs) && Enabled(req, rs, Launch) && RequestBooks(req, rs, rule, read)
    ensures |Apply(req, rs, prices, Launch).wallets| == |req.wallets|
    ensures RequestBooks(req, Apply(req, rs, prices, Launch), rule, read)
  {
    var after, w := Apply(req, rs, prices, Launch), rs.launched;
    hide WalletInOrder, PortfolioOf, SumBag, Control, Holdings, SentFlags, RequestBooks;
    assert rs.wallets[w].phase.NotStarted? && rs.collected.None?;
    hide InControl;
    OrderOf(req, rs, w, rule, read);
    LaunchKeepsOrder(req, w, rs.wallets[w], rule, read);
    BooksAfterMove(req, rs, after, w, after.wallets[w], false, false, rule, read);
  }

  lemma OrderOf(req: Request, rs: RequestState, w: nat, rule: PriceRule, read: Range)
    requires |rs.wallets| == |req.wallets| && RequestBooks(req, rs, rule, read) && w < |rs.wallets|
    ensures WalletInOrder(req, w, rs.wallets[w], rule, read)
  {
  }

  lemma ActKeepsBooks(req: Request, rs: RequestState, prices: GlobalPrices, w: nat, step: Step, rule: PriceRule,
                      read: Range)
    requires InControl(req, rs) && Enabled(req, rs, Act(w, step)) && DistinctNames(req)
    requires RequestBooks(req, rs, rule, read)
    requires EventAllowed(req, rs, Act(w, step), rule) && InRange(read, GlobalPriceAt(prices, GLOBALLY_PRICED))
    ensures |Apply(req, rs, prices, Act(w, step)).wallets| == |req.wallets|
    ensures RequestBooks(req, Apply(req, rs, prices, Act(w, step)), rule, read)
  {
    NotYetCollected(req, rs, w, step);
    ActEffect(req, rs, prices, w, step, rule);
    OrderOf(req, rs, w, rule, read);
    OrderControl(req, w, rs.wallets[w], rule, read);
    hide *;
    var after, ws := Apply(req, rs, prices, Act(w, step)), WalletAfter(req, w, rs.wallets[w], prices, step);
    WalletOrderKept(req, w, rs.wallets[w], prices, step, rule, read);
    BagsAfter(req, w, rs.wallets[w], prices, step);
    BooksAfterMove(req, rs, after, w, ws, step.Send?, step.Report?, rule, read);
  }

  lemma ActEffect(req: Request, rs: RequestState, prices: GlobalPrices, w: nat, step: Step, rule: PriceRule)
    requires Shaped(req, rs) && Enabled(req, rs, Act(w, step)) && EventAllowed(req, rs, Act(w, step), rule)
    ensures |rs.wallets| == |req.wallets| && w < |rs.wallets| && |rs.wallets[w].workers| == |req.networks|
    ensures WalletCan(req, w, rs.wallets[w], step) && SetsAllowed(req, w, rs.wallets[w], step, rule)
    ensures var after := Apply(req, rs, prices, Act(w, step));
      && after.wallets == rs.wallets[w := WalletAfter(req, w, rs.wallets[w], prices, step)]
      && after.collected == rs.collected
      && after.results == (if step.Send? then rs.results + [PortfolioOf(req, w, rs.wallets[w])] else rs.results)
      && after.errors == (if step.Report? then rs.errors + rs.wallets[w].errors else rs.errors)
  {
    hide WalletCan, WalletAfter, PortfolioOf;
  }

  lemma OrderControl(req: Request, w: nat, ws: WalletState, rule: PriceRule, read: Range)
    requires WalletInOrder(req, w, ws, rule, read)
    ensures Control(req, w, ws)
  {
  }

  lemma NotYetCollected(req: Request, rs: RequestState, w: nat, step: Step)
    requires InControl(req, rs) && Enabled(req, rs, Act(w, step))
    ensures rs.collected.None?
  {
    hide Outcome;
    assert step.Work? ==> !rs.wallets[w].workers[step.n].Finished?;
  }

  /** One wallet moved; it may have sent its portfolio or reported its errors, which it had not done before. */
  lemma BooksAfterMove(req: Request, rs: RequestState, after: RequestState, w: nat, ws: WalletState,
                       sends: bool, reports: bool,
                       rule: PriceRule, read: Range)
    requires |rs.wallets| == |req.wallets| && RequestBooks(req, rs, rule, read) && w < |rs.wallets|
    requires WalletInOrder(req, w, ws, rule, read)
    requires after.wallets == rs.wallets[w := ws] && after.collected == rs.collected == None
    requires after.results == if sends then rs.results + [PortfolioOf(req, w, rs.wallets[w])] else rs.results
    requires after.errors == if reports then rs.errors + rs.wallets[w].errors else rs.errors
    requires SentBag(req, w, ws) ==
      if sends then multiset{PortfolioOf(req, w, rs.wallets[w])} else SentBag(req, w, rs.wallets[w])
    requires ReportedBag(ws) == if reports then multiset(rs.wallets[w].errors) else ReportedBag(rs.wallets[w])
    requires sends ==> SentBag(req, w, rs.wallets[w]) == multiset{}
    requires reports ==> ReportedBag(rs.wallets[w]) == multiset{}
    ensures RequestBooks(req, after, rule, read)
  {
    hide WalletInOrder, SentBag, ReportedBag, PortfolioOf, SumBag;
    assert SentBags(req, after) == SentBags(req, rs)[w := SentBag(req, w, ws)];
    assert ReportedBags(after) == ReportedBags(rs)[w := ReportedBag(ws)];
    if sends {
      SumBagFill(SentBags(req, rs), w, SentBag(req, w, ws));
    } else {
      assert SentBags(req, after) == SentBags(req, rs);
    }
    if reports {
      SumBagFill(ReportedBags(rs), w, ReportedBag(ws));
    } else {
      assert ReportedBags(after) == ReportedBags(rs);
    }
  }

  /** Books under a rule are books under a weaker one, and under any range the pending readings are in. */
  lemma RequestBooksWeaken(req: Request, rs: RequestState, rule: PriceRule, read: Range, rule': PriceRule, read': Range)
    requires |rs.wallets| == |req.wallets| && RequestBooks(req, rs, rule, read) && Implies(rule, rule')
    requires forall w :: 0 <= w < |rs.wallets| ==>
      Control(req, w, rs.wallets[w]) && Readings(req, w, rs.wallets[w], read')
    ensures RequestBooks(req, rs, rule', read')
  {
    hide Control, Books, Readings, Implies, PortfolioOf, SumBag;
    forall w | 0 <= w < |rs.wallets|
      ensures WalletInOrder(req, w, rs.wallets[w], rule', read')
    {
      assert WalletInOrder(req, w, rs.wallets[w], rule, read);
      WorkersOf(req, w, rs.wallets[w]);
      BooksWeaken(req, w, rs.wallets[w], rule, rule');
    }
  }

  // ---- Any number of requests -----------------------------------------------------------------

  type Rules = nat -> PriceRule

  ghost predicate WellNamed(reqs: seq<Request>)
  {
    forall r :: 0 <= r < |reqs| ==> DistinctNames(reqs[r])
  }

  ghost predicate SystemBooks(reqs: seq<Request>, sys: System, rules: Rules, ranges: Ranges)
    requires SystemShaped(reqs, sys)
  {
    forall r :: 0 <= r < |reqs| ==> RequestBooks(reqs[r], sys.requests[r], rules(r), ranges(r))
  }

  lemma SystemInitialBooks(reqs: seq<Request>, shared: Shared, rules: Rules, ranges: Ranges)
    ensures SystemBooks(reqs, SystemInitial(reqs, shared), rules, ranges)
  {
    forall r | 0 <= r < |reqs|
      ensures RequestBooks(reqs[r], SystemInitial(reqs, shared).requests[r], rules(r), ranges(r))
    {
      InitialBooks(reqs[r], rules(r), ranges(r));
    }
  }

  /** If what has been read is in the range, the price that follows from it is allowed. */
  ghost predicate CoversPrice(req: Request, rule: PriceRule, read: Range, w: nat, n: nat, k: nat, cached: Option<real>)
    requires w < |req.wallets| && n < |req.networks| && k < |BalancesOf(req, w, n)|
  {
    var nb := BalancesOf(req, w, n)[k];
    (UsesGlobal(req.networks[n], nb) ==> read(n, cached)) ==>
      rule(w, n, k, PriceOf(req.prices, req.networks[n], nb, cached).price)
  }

  ghost predicate Covers(req: Request, rule: PriceRule, read: Range)
  {
    forall w: nat, n: nat, k: nat, cached: Option<real> ::
      w < |req.wallets| && n < |req.networks| && k < |BalancesOf(req, w, n)| ==>
        CoversPrice(req, rule, read, w, n, k, cached)
  }

  /** The rules allow every price that follows from a value in the range. */
  ghost predicate RulesCover(reqs: seq<Request>, rules: Rules, ranges: Ranges)
  {
    forall r :: 0 <= r < |reqs| ==> Covers(reqs[r], rules(r), ranges(r))
  }

  lemma CoveredIsAllowed(req: Request, rs: RequestState, ev: Event, rule: PriceRule, read: Range)
    requires Shaped(req, rs) && Enabled(req, rs, ev) && RequestBooks(req, rs, rule, read) && Covers(req, rule, read)
    ensures EventAllowed(req, rs, ev, rule)
  {
    if ev.Act? {
      hide Books, Readings, Covers, Control, WalletCan;
      assert WalletInOrder(req, ev.w, rs.wallets[ev.w], rule, read);
      CoveredSets(req, ev.w, rs.wallets[ev.w], ev.step, rule, read);
    }
  }

  lemma CoveredSets(req: Request, w: nat, ws: WalletState, step: Step, rule: PriceRule, read: Range)
    requires Control(req, w, ws) && WalletCan(req, w, ws, step) && Readings(req, w, ws, read) && Covers(req, rule, read)
    ensures SetsAllowed(req, w, ws, step, rule)
  {
    hide PriceOf, UsesGlobal, Outcome;
    if step.Work? && step.action.Set? {
      var n, worker := step.n, ws.workers[step.n];
      assert WorkerReading(req, w, n, worker, read);
      assert CoversPrice(req, rule, read, w, n, |worker.details|, worker.cached);
    }
  }

  /** Every step keeps every request's books, if the price it settles on is allowed. */
  lemma SystemBooksAllowed(reqs: seq<Request>, sys: System, h: Happening, rules: Rules, ranges: Ranges)
    requires SystemInControl(reqs, sys) && SystemEnabled(reqs, sys, h) && WellNamed(reqs)
    requires SystemBooks(reqs, sys, rules, ranges) && EventAllowed(reqs[h.r], sys.requests[h.r], h.ev, rules(h.r))
    requires InRange(ranges(h.r), GlobalPriceAt(sys.shared.globalPrices, GLOBALLY_PRICED))
    ensures SystemBooks(reqs, SystemApply(reqs, sys, h), rules, ranges)
  {
    hide InControl, RequestBooks, DistinctNames, Enabled, Apply, ShareAfter, GlobalPriceAt, EventAllowed, InRange;
    RequestBooksKept(reqs[h.r], sys.requests[h.r], sys.shared.globalPrices, h.ev, rules(h.r), ranges(h.r));
  }

  lemma SystemBooksKept(reqs: seq<Request>, sys: System, h: Happening, rules: Rules, ranges: Ranges)
    requires SystemInControl(reqs, sys) && SystemEnabled(reqs, sys, h) && WellNamed(reqs)
    requires RulesCover(reqs, rules, ranges)
    requires SystemBooks(reqs, sys, rules, ranges)
    requires InRange(ranges(h.r), GlobalPriceAt(sys.shared.globalPrices, GLOBALLY_PRICED))
    ensures SystemBooks(reqs, SystemApply(reqs, sys, h), rules, ranges)
  {
    CoveredHappening(reqs, sys, h, rules, ranges);
    hide SystemInControl, SystemEnabled, WellNamed, RulesCover, SystemBooks, EventAllowed, InRange, GlobalPriceAt,
         SystemApply;
    SystemBooksAllowed(reqs, sys, h, rules, ranges);
  }

  lemma CoveredHappening(reqs: seq<Request>, sys: System, h: Happening, rules: Rules, ranges: Ranges)
    requires SystemShaped(reqs, sys) && SystemEnabled(reqs, sys, h) && RulesCover(reqs, rules, ranges)
    requires SystemBooks(reqs, sys, rules, ranges)
    ensures EventAllowed(reqs[h.r], sys.requests[h.r], h.ev, rules(h.r))
  {
    hide RequestBooks, Covers, Enabled, EventAllowed;
    CoveredIsAllowed(reqs[h.r], sys.requests[h.r], h.ev, rules(h.r), ranges(h.r));
  }

  // ---- A request that has returned ----------------------------------------------------------------

  /** The portfolios of all wallets, in the wallets' order. */
  function Portfolios(req: Request, rs: RequestState): seq<WalletPortfolio>
    requires |rs.wallets| == |req.wallets|
  {
    seq(|rs.wallets|, w requires 0 <= w < |rs.wallets| => PortfolioOf(req, w, rs.wallets[w]))
  }

  function WalletErrors(rs: RequestState): seq<multiset<PortfolioError>>
  {
    seq(|rs.wallets|, w requires 0 <= w < |rs.wallets| => multiset(rs.wallets[w].errors))
  }

  /** What a request returns: each wallet's portfolio once, and every wallet's errors. */
  lemma ReturnedBooks(req: Request, rs: RequestState, rule: PriceRule, read: Range)
    requires InControl(req, rs) && RequestBooks(req, rs, rule, read) && rs.collected.Some?
    ensures multiset(rs.collected.value) == multiset(Portfolios(req, rs))
    ensures multiset(rs.errors) == SumBag(WalletErrors(rs))
  {
    hide WalletInOrder, Control, SumBag, PortfolioOf;
    assert SentBags(req, rs) == Singletons(Portfolios(req, rs));
    SumBagSingletons(Portfolios(req, rs));
    assert ReportedBags(rs) == WalletErrors(rs);
  }

  /** When a wallet is done all its networks are merged and all their errors seen. */
  lemma DoneIsComplete(req: Request, w: nat, ws: WalletState, rule: PriceRule, read: Range)
    requires WalletInOrder(req, w, ws, rule, read) && !InLoop(ws.phase)
    ensures PortfolioBooks(req, w, ws.byNetwork, ws.total, (n: nat) => n < |req.networks|, rule)
    ensures ErrorBooks(req, w, ws.errors, (n: nat) => n < |req.networks|)
  {
    hide BalancesOf, ErrorsOf, PortfolioBooks, ErrorBooks, WorkerBooks, WithinBalances, Readings;
    SamePortfolio(req, w, ws.byNetwork, ws.total, MergedIn(ws), (n: nat) => n < |req.networks|, rule);
    SameErrors(req, w, ws.errors, SeenIn(ws), (n: nat) => n < |req.networks|);
  }
}
