/**
 What a wallet's portfolio holds while its workers run: every priced balance is in
 its place, every total is the sum of its parts, and no error is lost or doubled.
 */
module WalletBooks {
  import opened Wrappers
  import opened Entities
  import opened Sums
  import opened TokenPrices
  import opened PortfolioRun
  import opened WalletControl

  // ---- Priced balances -------------------------------------------------------------

  /** Which price the k-th balance of wallet w on network n may be given: arguments w, n, k and the price. */
  type PriceRule = (nat, nat, nat, real) -> bool

  ghost predicate DetailOk(req: Request, w: nat, n: nat, k: nat, detail: TokenDetail, rule: PriceRule)
    requires w < |req.wallets| && n < |req.networks| && k < |BalancesOf(req, w, n)|
  {
    && detail == Detail(req, BalancesOf(req, w, n)[k], detail.priceUSD)
    && rule(w, n, k, detail.priceUSD)
  }

  /** The details are those of the first balances, in their order. */
  ghost predicate DetailsOk(req: Request, w: nat, n: nat, details: seq<TokenDetail>, rule: PriceRule)
    requires w < |req.wallets| && n < |req.networks|
  {
    && |details| <= |BalancesOf(req, w, n)|
    && forall k :: 0 <= k < |details| ==> DetailOk(req, w, n, k, details[k], rule)
  }

  function Values(details: seq<TokenDetail>): seq<real>
  {
    seq(|details|, k requires 0 <= k < |details| => details[k].valueUSD)
  }

  ghost predicate WorkerBooks(req: Request, w: nat, n: nat, worker: Worker, rule: PriceRule)
    requires w < |req.wallets| && n < |req.networks|
  {
    InCritical(worker) ==>
      DetailsOk(req, w, n, worker.details, rule) && worker.total == SumReal(Values(worker.details))
  }

  lemma WorkerBooksKept(req: Request, w: nat, n: nat, worker: Worker, prices: GlobalPrices, lock: Option<nat>,
                        action: Action, rule: PriceRule)
    requires w < |req.wallets| && n < |req.networks| && WorkerCan(req, w, n, worker, lock, action)
    requires WorkerBooks(req, w, n, worker, rule)
    requires action.Set? ==> rule(w, n, |worker.details|, QuoteFor(req, w, n, worker).price)
    ensures WorkerBooks(req, w, n, WorkerAfter(req, w, n, worker, prices, lock, action), rule)
  {
    hide Outcome, Read, PriceOf, Worth;
    if action.Set? {
      var detail := DetailFor(req, w, n, worker);
      assert DetailOk(req, w, n, |worker.details|, detail, rule);
      assert Values(worker.details + [detail])[..|worker.details|] == Values(worker.details);
    }
  }

  // ---- The portfolio -----------------------------------------------------------------

  type Stage = nat -> bool

  /** Network n has been merged and had something to merge. */
  predicate Listed(req: Request, w: nat, done: Stage, n: nat)
    requires w < |req.wallets|
  {
    n < |req.networks| && done(n) && BalancesOf(req, w, n) != []
  }

  ghost predicate EntryOk(req: Request, w: nat, n: nat, entry: NetworkTokens, rule: PriceRule)
    requires w < |req.wallets| && n < |req.networks|
  {
    && entry == EntryOf(req.networks[n], entry.tokens, SumReal(Values(entry.tokens)))
    && DetailsOk(req, w, n, entry.tokens, rule) && |entry.tokens| == |BalancesOf(req, w, n)|
  }

  function Totals(byNetwork: map<string, NetworkTokens>): map<string, real>
  {
    map name | name in byNetwork :: byNetwork[name].totalValueUSD
  }

  /** One entry per listed network, no other entry, and the total is the sum of the entries' totals. */
  ghost predicate PortfolioBooks(req: Request, w: nat, byNetwork: map<string, NetworkTokens>, total: real, done: Stage,
                                 rule: PriceRule)
    requires w < |req.wallets|
  {
    && (forall n: nat :: Listed(req, w, done, n) ==>
          req.networks[n].name in byNetwork && EntryOk(req, w, n, byNetwork[req.networks[n].name], rule))
    && (forall name :: name in byNetwork ==> IsListedName(req, w, done, name))
    && total == SumMap(Totals(byNetwork))
  }

  ghost predicate IsListedName(req: Request, w: nat, done: Stage, name: string)
    requires w < |req.wallets|
  {
    exists n: nat :: Listed(req, w, done, n) && req.networks[n].name == name
  }

  ghost predicate DistinctNames(req: Request)
  {
    forall m, n :: 0 <= m < n < |req.networks| ==> req.networks[m].name != req.networks[n].name
  }

  /** Merging one more network, with all its balances priced, keeps the portfolio right. */
  lemma AddEntry(req: Request, w: nat, byNetwork: map<string, NetworkTokens>, total: real,
                 done: Stage, done': Stage, n: nat,
                 details: seq<TokenDetail>, worth: real, rule: PriceRule)
    requires w < |req.wallets| && n < |req.networks| && DistinctNames(req)
    requires PortfolioBooks(req, w, byNetwork, total, done, rule)
    requires !done(n) && forall m: nat :: done'(m) <==> done(m) || m == n
    requires DetailsOk(req, w, n, details, rule) && |details| == |BalancesOf(req, w, n)|
    requires worth == SumReal(Values(details))
    ensures details == [] ==> PortfolioBooks(req, w, byNetwork, total, done', rule)
    ensures details != [] ==>
      PortfolioBooks(req, w, byNetwork[req.networks[n].name := EntryOf(req.networks[n], details, worth)],
                     total + worth, done', rule)
  {
    hide BalancesOf, DetailsOk, EntryOk, SumReal, SumMap, EntryOf;
    if details == [] {
      SameListed(req, w, byNetwork, total, done, done', rule);
    } else {
      var name, entry := req.networks[n].name, EntryOf(req.networks[n], details, worth);
      NewEntry(req, w, n, details, worth, rule);
      NameIsNew(req, w, done, n);
      hide DistinctNames;
      assert name !in byNetwork;
      SumMapAdd(Totals(byNetwork), name, worth);
      assert Totals(byNetwork[name := entry]) == Totals(byNetwork)[name := worth];
      NamesGrow(req, w, done, done', n);
      hide Listed, IsListedName;
    }
  }

  lemma NameIsNew(req: Request, w: nat, done: Stage, n: nat)
    requires w < |req.wallets| && n < |req.networks| && DistinctNames(req) && !done(n)
    ensures !IsListedName(req, w, done, req.networks[n].name)
    ensures forall m: nat :: Listed(req, w, done, m) ==> req.networks[m].name != req.networks[n].name
  {
    hide BalancesOf;
  }

  lemma NamesGrow(req: Request, w: nat, done: Stage, done': Stage, n: nat)
    requires w < |req.wallets| && n < |req.networks| && BalancesOf(req, w, n) != []
    requires forall m: nat :: done'(m) <==> done(m) || m == n
    ensures forall m: nat :: Listed(req, w, done', m) <==> Listed(req, w, done, m) || m == n
    ensures forall name :: IsListedName(req, w, done, name) || name == req.networks[n].name ==>
      IsListedName(req, w, done', name)
  {
    hide BalancesOf;
    forall name | IsListedName(req, w, done, name) || name == req.networks[n].name
      ensures IsListedName(req, w, done', name)
    {
      if IsListedName(req, w, done, name) {
        var m: nat :| Listed(req, w, done, m) && req.networks[m].name == name;
        assert Listed(req, w, done', m);
      } else {
        assert Listed(req, w, done', n);
      }
    }
  }

  lemma NewEntry(req: Request, w: nat, n: nat, details: seq<TokenDetail>, worth: real, rule: PriceRule)
    requires w < |req.wallets| && n < |req.networks|
    requires DetailsOk(req, w, n, details, rule) && |details| == |BalancesOf(req, w, n)|
    requires worth == SumReal(Values(details))
    ensures var entry := EntryOf(req.networks[n], details, worth);
      EntryOk(req, w, n, entry, rule) && entry.totalValueUSD == worth
  {
    hide BalancesOf, DetailsOk, SumReal, Values;
  }

  /** Networks without balances may come and go. */
  lemma SameListed(req: Request, w: nat, byNetwork: map<string, NetworkTokens>, total: real, done: Stage, done': Stage,
                   rule: PriceRule)
    requires w < |req.wallets| && PortfolioBooks(req, w, byNetwork, total, done, rule)
    requires forall n: nat :: Listed(req, w, done', n) <==> Listed(req, w, done, n)
    ensures PortfolioBooks(req, w, byNetwork, total, done', rule)
  {
    hide BalancesOf, EntryOk, SumMap;
    forall name | name in byNetwork
      ensures IsListedName(req, w, done', name)
    {
      var n: nat :| Listed(req, w, done, n) && req.networks[n].name == name;
      assert Listed(req, w, done', n);
    }
  }

  // ---- The errors ----------------------------------------------------------------------

  function ErrorBags(req: Request, w: nat, seen: Stage): seq<multiset<PortfolioError>>
    requires w < |req.wallets|
  {
    seq(|req.networks|, n requires 0 <= n < |req.networks| =>
        if seen(n) then multiset(ErrorsOf(req, w, n)) else multiset{})
  }

  /** The errors are those of the networks seen, each once. */
  ghost predicate ErrorBooks(req: Request, w: nat, errors: seq<PortfolioError>, seen: Stage)
    requires w < |req.wallets|
  {
    multiset(errors) == SumBag(ErrorBags(req, w, seen))
  }

  lemma AddErrors(req: Request, w: nat, errors: seq<PortfolioError>, seen: Stage, seen': Stage, n: nat)
    requires w < |req.wallets| && n < |req.networks| && ErrorBooks(req, w, errors, seen)
    requires !seen(n) && forall m: nat :: seen'(m) <==> seen(m) || m == n
    ensures ErrorBooks(req, w, errors + ErrorsOf(req, w, n), seen')
  {
    hide Outcome, SumBag;
    SumBagFill(ErrorBags(req, w, seen), n, multiset(ErrorsOf(req, w, n)));
    assert ErrorBags(req, w, seen') == ErrorBags(req, w, seen)[n := multiset(ErrorsOf(req, w, n))];
  }

  // ---- The wallet ------------------------------------------------------------------------

  predicate HasMerged(worker: Worker)
  {
    worker.Merged? || worker.Released? || worker.Finished?
  }

  function MergedIn(ws: WalletState): Stage
  {
    (n: nat) => n < |ws.workers| && HasMerged(ws.workers[n])
  }

  function SeenIn(ws: WalletState): Stage
  {
    (n: nat) => n < |ws.workers| && (InCritical(ws.workers[n]) || HasMerged(ws.workers[n]))
  }

  ghost predicate Books(req: Request, w: nat, ws: WalletState, rule: PriceRule)
    requires w < |req.wallets| && |ws.workers| == |req.networks|
  {
    && (forall n :: 0 <= n < |ws.workers| ==> WorkerBooks(req, w, n, ws.workers[n], rule))
    && PortfolioBooks(req, w, ws.byNetwork, ws.total, MergedIn(ws), rule)
    && ErrorBooks(req, w, ws.errors, SeenIn(ws))
  }

  lemma FreshBooks(req: Request, w: nat, rule: PriceRule)
    requires w < |req.wallets|
    ensures Books(req, w, FreshWallet(req), rule)
  {
    hide BalancesOf, ErrorsOf, EntryOk, DetailsOk;
    var ws := FreshWallet(req);
    assert Totals(ws.byNetwork) == map[];
    SumBagEmpty(ErrorBags(req, w, SeenIn(ws)));
    hide SumBag, SumMap;
  }

  /** Books stay right when neither the portfolio, the errors nor the stages of the workers change. */
  lemma SameStages(req: Request, w: nat, ws: WalletState, after: WalletState, rule: PriceRule)
    requires w < |req.wallets| && |ws.workers| == |req.networks| == |after.workers| && Books(req, w, ws, rule)
    requires after.byNetwork == ws.byNetwork && after.total == ws.total && after.errors == ws.errors
    requires forall n: nat :: (MergedIn(after)(n) <==> MergedIn(ws)(n)) && (SeenIn(after)(n) <==> SeenIn(ws)(n))
    requires forall n :: 0 <= n < |ws.workers| ==> WorkerBooks(req, w, n, after.workers[n], rule)
    ensures Books(req, w, after, rule)
  {
    hide BalancesOf, ErrorsOf, WorkerBooks, PortfolioBooks, ErrorBooks;
    SamePortfolio(req, w, ws.byNetwork, ws.total, MergedIn(ws), MergedIn(after), rule);
    SameErrors(req, w, ws.errors, SeenIn(ws), SeenIn(after));
  }

  /** Every step of a wallet keeps its books, if the price a Set settles on is allowed by the rule. */
  lemma BooksKept(req: Request, w: nat, ws: WalletState, prices: GlobalPrices, step: Step, rule: PriceRule)
    requires Control(req, w, ws) && WalletCan(req, w, ws, step) && DistinctNames(req) && Books(req, w, ws, rule)
    requires SetsAllowed(req, w, ws, step, rule)
    ensures var after := WalletAfter(req, w, ws, prices, step);
      |after.workers| == |req.networks| && Books(req, w, after, rule)
  {
    if step.Work? {
      WorkKeepsBooks(req, w, ws, prices, step.n, step.action, rule);
    } else {
      GoroutineKeepsBooks(req, w, ws, prices, step, rule);
    }
  }

  lemma GoroutineKeepsBooks(req: Request, w: nat, ws: WalletState, prices: GlobalPrices, step: Step, rule: PriceRule)
    requires Control(req, w, ws) && WalletCan(req, w, ws, step) && Books(req, w, ws, rule) && !step.Work?
    ensures var after := WalletAfter(req, w, ws, prices, step);
      |after.workers| == |req.networks| && Books(req, w, after, rule)
  {
    BooksOfWorkers(req, w, ws, rule);
    hide BalancesOf, Books, DetailsOk, WorkAfter, WithinBalances, SumReal;
    var after := WalletAfter(req, w, ws, prices, step);
    assert step.Spawn? ==> ws.workers[ws.phase.next].Pending?;
    hide Control;
    SameStages(req, w, ws, after, rule);
  }

  /** The quote a Set turns into a price is one the rule allows. */
  ghost predicate SetsAllowed(req: Request, w: nat, ws: WalletState, step: Step, rule: PriceRule)
    requires w < |req.wallets| && |ws.workers| == |req.networks| && WalletCan(req, w, ws, step)
  {
    step.Work? && step.action.Set? ==>
      var worker := ws.workers[step.n];
      rule(w, step.n, |worker.details|, QuoteFor(req, w, step.n, worker).price)
  }

  lemma BooksOfWorkers(req: Request, w: nat, ws: WalletState, rule: PriceRule)
    requires w < |req.wallets| && |ws.workers| == |req.networks| && Books(req, w, ws, rule)
    ensures forall n :: 0 <= n < |ws.workers| ==> WorkerBooks(req, w, n, ws.workers[n], rule)
  {
  }

  lemma WorkKeepsBooks(req: Request, w: nat, ws: WalletState, prices: GlobalPrices, n: nat, action: Action,
                       rule: PriceRule)
    requires Control(req, w, ws) && WalletCan(req, w, ws, Work(n, action)) && DistinctNames(req)
    requires Books(req, w, ws, rule)
    requires SetsAllowed(req, w, ws, Work(n, action), rule)
    ensures Books(req, w, WorkAfter(req, w, ws, prices, n, action), rule)
  {
    hide BalancesOf, ErrorsOf, Books, WorkerBooks, EntryOf, Read, DetailFor, SetsAllowed, WithinBalances, DistinctNames;
    var after := WorkAfter(req, w, ws, prices, n, action);
    WorkersKeepBooks(req, w, ws, prices, n, action, rule);
    if action.Lock? {
      LockKeepsBooks(req, w, ws, after, n, rule);
    } else if action.Unlock? {
      UnlockKeepsBooks(req, w, ws, after, n, rule);
    } else {
      SameStages(req, w, ws, after, rule);
    }
  }

  lemma WorkersKeepBooks(req: Request, w: nat, ws: WalletState, prices: GlobalPrices, n: nat, action: Action,
                         rule: PriceRule)
    requires w < |req.wallets| && |ws.workers| == |req.networks|
    requires WalletCan(req, w, ws, Work(n, action)) && Books(req, w, ws, rule)
    requires SetsAllowed(req, w, ws, Work(n, action), rule)
    ensures var after := WorkAfter(req, w, ws, prices, n, action);
      forall m :: 0 <= m < |ws.workers| ==> WorkerBooks(req, w, m, after.workers[m], rule)
  {
    BooksOfWorkers(req, w, ws, rule);
    WorkerBooksKept(req, w, n, ws.workers[n], prices, ws.lock, action, rule);
    hide WorkerBooks, WorkerAfter, WorkerCan, ErrorsOf, EntryOf;
  }

  lemma LockKeepsBooks(req: Request, w: nat, ws: WalletState, after: WalletState, n: nat, rule: PriceRule)
    requires w < |req.wallets| && |ws.workers| == |req.networks| && n < |ws.workers| && Books(req, w, ws, rule)
    requires !InCritical(ws.workers[n]) && !HasMerged(ws.workers[n])
    requires after.workers == ws.workers[n := Pricing([], 0.0)]
    requires after.byNetwork == ws.byNetwork && after.total == ws.total
    requires after.errors == ws.errors + ErrorsOf(req, w, n)
    requires forall m :: 0 <= m < |ws.workers| ==> WorkerBooks(req, w, m, after.workers[m], rule)
    ensures Books(req, w, after, rule)
  {
    hide BalancesOf, ErrorsOf, WorkerBooks, PortfolioBooks;
    AddErrors(req, w, ws.errors, SeenIn(ws), SeenIn(after), n);
    hide ErrorBooks;
    SamePortfolio(req, w, ws.byNetwork, ws.total, MergedIn(ws), MergedIn(after), rule);
  }

  lemma SamePortfolio(req: Request, w: nat, byNetwork: map<string, NetworkTokens>, total: real, done: Stage,
                      done': Stage, rule: PriceRule)
    requires w < |req.wallets| && PortfolioBooks(req, w, byNetwork, total, done, rule)
    requires forall n: nat :: done'(n) <==> done(n)
    ensures PortfolioBooks(req, w, byNetwork, total, done', rule)
  {
    hide BalancesOf, PortfolioBooks;
    SameListed(req, w, byNetwork, total, done, done', rule);
  }

  lemma UnlockKeepsBooks(req: Request, w: nat, ws: WalletState, after: WalletState, n: nat, rule: PriceRule)
    requires w < |req.wallets| && |ws.workers| == |req.networks| && n < |ws.workers| && DistinctNames(req)
    requires Books(req, w, ws, rule)
    requires ws.workers[n].Pricing? && |ws.workers[n].details| == |BalancesOf(req, w, n)|
    requires after.workers == ws.workers[n := Merged] && after.errors == ws.errors
    requires var worker := ws.workers[n];
      if worker.details == [] then after.byNetwork == ws.byNetwork && after.total == ws.total
      else after.total == ws.total + worker.total
           && after.byNetwork
              == ws.byNetwork[req.networks[n].name := EntryOf(req.networks[n], worker.details, worker.total)]
    requires forall m :: 0 <= m < |ws.workers| ==> WorkerBooks(req, w, m, after.workers[m], rule)
    ensures Books(req, w, after, rule)
  {
    hide BalancesOf, ErrorsOf, DetailsOk, EntryOf, PortfolioBooks, ErrorBooks, SumReal, Values;
    assert WorkerBooks(req, w, n, ws.workers[n], rule);
    assert forall m: nat :: MergedIn(after)(m) <==> MergedIn(ws)(m) || m == n;
    assert forall m: nat :: SeenIn(after)(m) <==> SeenIn(ws)(m);
    AddEntry(req, w, ws.byNetwork, ws.total, MergedIn(ws), MergedIn(after), n, ws.workers[n].details,
             ws.workers[n].total, rule);
    SameErrors(req, w, ws.errors, SeenIn(ws), SeenIn(after));
  }

  lemma SameErrors(req: Request, w: nat, errors: seq<PortfolioError>, seen: Stage, seen': Stage)
    requires w < |req.wallets| && ErrorBooks(req, w, errors, seen)
    requires forall n: nat :: seen'(n) <==> seen(n)
    ensures ErrorBooks(req, w, errors, seen')
  {
    hide ErrorsOf;
    assert ErrorBags(req, w, seen') == ErrorBags(req, w, seen);
  }

  // ---- Changing the rule -------------------------------------------------------------------

  ghost predicate Implies(rule: PriceRule, rule': PriceRule)
  {
    forall w: nat, n: nat, k: nat, price: real :: rule(w, n, k, price) ==> rule'(w, n, k, price)
  }

  lemma DetailsWeaken(req: Request, w: nat, n: nat, details: seq<TokenDetail>, rule: PriceRule, rule': PriceRule)
    requires w < |req.wallets| && n < |req.networks| && DetailsOk(req, w, n, details, rule) && Implies(rule, rule')
    ensures DetailsOk(req, w, n, details, rule')
  {
    hide BalancesOf, Detail;
    forall k | 0 <= k < |details|
      ensures DetailOk(req, w, n, k, details[k], rule')
    {
      assert DetailOk(req, w, n, k, details[k], rule);
    }
  }

  /** Books under a rule are books under every weaker rule. */
  lemma BooksWeaken(req: Request, w: nat, ws: WalletState, rule: PriceRule, rule': PriceRule)
    requires w < |req.wallets| && |ws.workers| == |req.networks| && Books(req, w, ws, rule) && Implies(rule, rule')
    ensures Books(req, w, ws, rule')
  {
    hide BalancesOf, Implies, DetailsOk, EntryOf, SumReal, SumMap, ErrorBooks;
    forall n | 0 <= n < |ws.workers|
      ensures WorkerBooks(req, w, n, ws.workers[n], rule')
    {
      assert WorkerBooks(req, w, n, ws.workers[n], rule);
      if InCritical(ws.workers[n]) {
        DetailsWeaken(req, w, n, ws.workers[n].details, rule, rule');
      }
    }
    forall n: nat | Listed(req, w, MergedIn(ws), n)
      ensures EntryOk(req, w, n, ws.byNetwork[req.networks[n].name], rule')
    {
      assert EntryOk(req, w, n, ws.byNetwork[req.networks[n].name], rule);
      DetailsWeaken(req, w, n, ws.byNetwork[req.networks[n].name].tokens, rule, rule');
    }
  }
}
