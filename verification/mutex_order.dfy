/**
 One wallet that alone uses the shared price: its workers are priced one after the
 other, in the order in which they take the wallet's mutex, so every run of it is the
 sequential computation over some order of its networks. The semaphore limits which.
 */
module MutexOrder {
  import opened Wrappers
  import opened Entities
  import opened Sums
  import opened TokenPrices
  import opened PortfolioRun
  import opened WalletControl
  import opened WalletBooks
  import opened RunControl
  import opened RunBooks
  import opened RunConservation
  import opened GlobalPrice
  import opened RunRefinement

  // ---- The cache along a sequential computation ------------------------------------------

  predicate InList(req: Request, n: nat, k: nat)
  {
    |req.wallets| > 0 && n < |req.networks| && k < |BalancesOf(req, 0, n)|
  }

  function QuoteAt(req: Request, n: nat, k: nat, current: Option<real>): Quote
    requires InList(req, n, k)
  {
    var d, nb := req.networks[n], BalancesOf(req, 0, n)[k];
    PriceOf(req.prices, d, nb, SettledRead(d, nb, current))
  }

  function After(current: Option<real>, publish: Option<real>): Option<real>
  {
    if publish.Some? then publish else current
  }

  /** What is cached when k balances of network n have been priced, from what was before. */
  function Inside(req: Request, before: Option<real>, n: nat, k: nat): Option<real>
    requires |req.wallets| > 0 && n < |req.networks| && k <= |BalancesOf(req, 0, n)|
  {
    if k == 0 then before
    else
      var current := Inside(req, before, n, k - 1);
      After(current, QuoteAt(req, n, k - 1, current).publish)
  }

  predicate Within(req: Request, order: seq<nat>)
  {
    |req.wallets| > 0 && forall i :: 0 <= i < |order| ==> order[i] < |req.networks|
  }

  /** What is cached when the first m networks of the order have been priced. */
  function Between(req: Request, start: Option<real>, order: seq<nat>, m: nat): Option<real>
    requires Within(req, order) && m <= |order|
  {
    if m == 0 then start
    else Inside(req, Between(req, start, order, m - 1), order[m - 1], |BalancesOf(req, 0, order[m - 1])|)
  }

  function OrderedPrice(req: Request, start: Option<real>, order: seq<nat>, i: nat, k: nat): real
    requires Within(req, order) && i < |order| && InList(req, order[i], k)
  {
    QuoteAt(req, order[i], k, Inside(req, Between(req, start, order, i), order[i], k)).price
  }

  /** A network's balances, priced in order. */
  function OrderedDetails(req: Request, start: Option<real>, order: seq<nat>, i: nat): seq<TokenDetail>
    requires Within(req, order) && i < |order|
  {
    var balances := BalancesOf(req, 0, order[i]);
    seq(|balances|, k requires 0 <= k < |balances| =>
        Detail(req, balances[k], OrderedPrice(req, start, order, i, k)))
  }

  /**
   The first m networks of the order, fetched and priced one after the other, each with the cache
   the last one left.
   */
  function OrderedWallet(req: Request, start: Option<real>, order: seq<nat>, m: nat): Tally
    requires Within(req, order) && m <= |order|
  {
    if m == 0 then Tally(map[], 0.0, [])
    else AddNetwork(req, OrderedWallet(req, start, order, m - 1), order[m - 1],
                    OrderedDetails(req, start, order, m - 1))
  }

  function AddNetwork(req: Request, before: Tally, n: nat, details: seq<TokenDetail>): Tally
    requires |req.wallets| > 0 && n < |req.networks|
  {
    var worth, errors := SumReal(Values(details)), before.errors + ErrorsOf(req, 0, n);
    if details == [] then before.(errors := errors)
    else Tally(before.byNetwork[req.networks[n].name := EntryOf(req.networks[n], details, worth)], before.total + worth,
               errors)
  }

  function OrderedPortfolio(req: Request, start: Option<real>, order: seq<nat>): WalletPortfolio
    requires Within(req, order)
  {
    var tally := OrderedWallet(req, start, order, |order|);
    WalletPortfolio(req.wallets[0], tally.byNetwork, tally.total)
  }

  // ---- The prices of an order -----------------------------------------------------------------

  ghost predicate IsOrderedPrice(req: Request, start: Option<real>, order: seq<nat>, w: nat, n: nat, k: nat,
                                 price: real)
  {
    && w == 0 && InList(req, n, k) && Within(req, order)
    && exists i :: 0 <= i < |order| && order[i] == n && price == OrderedPrice(req, start, order, i, k)
  }

  ghost function OrderRule(req: Request, start: Option<real>, order: seq<nat>): PriceRule
  {
    (w: nat, n: nat, k: nat, price: real) => IsOrderedPrice(req, start, order, w, n, k, price)
  }

  ghost predicate Distinct(order: seq<nat>)
  {
    forall i, j :: 0 <= i < j < |order| ==> order[i] != order[j]
  }

  lemma OrderFixes(req: Request, start: Option<real>, order: seq<nat>)
    requires |req.wallets| > 0 && Distinct(order)
    ensures FixesPrices(req, 0, OrderRule(req, start, order))
  {
    hide BalancesOf, OrderedPrice;
    forall n: nat, k: nat, p: real, q: real
      | n < |req.networks| && k < |BalancesOf(req, 0, n)|
        && OrderRule(req, start, order)(0, n, k, p) && OrderRule(req, start, order)(0, n, k, q)
      ensures p == q
    {
      assert IsOrderedPrice(req, start, order, 0, n, k, p) && IsOrderedPrice(req, start, order, 0, n, k, q);
    }
  }

  lemma {:induction false} BetweenGrows(req: Request, start: Option<real>, order: seq<nat>, n: nat, m: nat)
    requires Within(req, order + [n]) && m <= |order|
    ensures Within(req, order) && Between(req, start, order + [n], m) == Between(req, start, order, m)
  {
    hide Inside, BalancesOf;
    assert forall i :: 0 <= i < |order| ==> (order + [n])[i] == order[i];
    if m > 0 {
      BetweenGrows(req, start, order, n, m - 1);
    }
  }

  /** A longer order allows the prices of the shorter one. */
  lemma RuleGrows(req: Request, start: Option<real>, order: seq<nat>, n: nat)
    requires Within(req, order + [n])
    ensures Implies(OrderRule(req, start, order), OrderRule(req, start, order + [n]))
  {
    hide Inside, BalancesOf, QuoteAt, Between;
    var longer := order + [n];
    forall w: nat, m: nat, k: nat, price: real | OrderRule(req, start, order)(w, m, k, price)
      ensures OrderRule(req, start, longer)(w, m, k, price)
    {
      assert IsOrderedPrice(req, start, order, w, m, k, price);
      var i: nat :| i < |order| && order[i] == m && price == OrderedPrice(req, start, order, i, k);
      BetweenGrows(req, start, order, n, i);
      assert longer[i] == m && price == OrderedPrice(req, start, longer, i, k);
    }
  }

  // ---- The sequential computation keeps the books too --------------------------------------------

  function Among(order: seq<nat>, m: nat): Stage
    requires m <= |order|
  {
    (n: nat) => n in order[..m]
  }

  ghost predicate OrderedBooks(req: Request, start: Option<real>, order: seq<nat>, m: nat, tally: Tally)
    requires Within(req, order) && m <= |order|
  {
    && PortfolioBooks(req, 0, tally.byNetwork, tally.total, Among(order, m), OrderRule(req, start, order))
    && ErrorBooks(req, 0, tally.errors, Among(order, m))
  }

  lemma OrderedDetailsOk(req: Request, start: Option<real>, order: seq<nat>, i: nat)
    requires Within(req, order) && i < |order|
    ensures DetailsOk(req, 0, order[i], OrderedDetails(req, start, order, i), OrderRule(req, start, order))
    ensures |OrderedDetails(req, start, order, i)| == |BalancesOf(req, 0, order[i])|
  {
    hide OrderedPrice, Worth, Outcome;
    var details := OrderedDetails(req, start, order, i);
    forall k | 0 <= k < |details|
      ensures DetailOk(req, 0, order[i], k, details[k], OrderRule(req, start, order))
    {
      assert details[k].priceUSD == OrderedPrice(req, start, order, i, k);
      assert IsOrderedPrice(req, start, order, 0, order[i], k, details[k].priceUSD);
    }
  }

  lemma NoOrderedBooks(req: Request, start: Option<real>, order: seq<nat>)
    requires Within(req, order)
    ensures OrderedBooks(req, start, order, 0, Tally(map[], 0.0, []))
  {
    hide BalancesOf, ErrorsOf, EntryOk;
    assert Totals(map[]) == map[];
    SumBagEmpty(ErrorBags(req, 0, Among(order, 0)));
  }

  lemma NextAmong(order: seq<nat>, m: nat)
    requires m < |order| && Distinct(order)
    ensures !Among(order, m)(order[m])
    ensures forall n: nat :: Among(order, m + 1)(n) <==> Among(order, m)(n) || n == order[m]
  {
    assert order[..m + 1] == order[..m] + [order[m]];
  }

  lemma NextOrderedBooks(req: Request, start: Option<real>, order: seq<nat>, m: nat, tally: Tally)
    requires Within(req, order) && m < |order| && Distinct(order) && DistinctNames(req)
    requires OrderedBooks(req, start, order, m, tally)
    ensures OrderedBooks(req, start, order, m + 1,
                         AddNetwork(req, tally, order[m], OrderedDetails(req, start, order, m)))
  {
    OrderedDetailsOk(req, start, order, m);
    NextAmong(order, m);
    hide OrderRule, OrderedDetails, DistinctNames, Among, AddNetwork, PortfolioBooks, ErrorBooks;
    NetworkAdded(req, tally, order[m], OrderedDetails(req, start, order, m), Among(order, m), Among(order, m + 1),
                 OrderRule(req, start, order));
  }

  lemma NetworkAdded(req: Request, tally: Tally, n: nat, details: seq<TokenDetail>, done: Stage, done': Stage,
                     rule: PriceRule)
    requires |req.wallets| > 0 && n < |req.networks| && DistinctNames(req)
    requires PortfolioBooks(req, 0, tally.byNetwork, tally.total, done, rule) && ErrorBooks(req, 0, tally.errors, done)
    requires DetailsOk(req, 0, n, details, rule) && |details| == |BalancesOf(req, 0, n)|
    requires !done(n) && forall m: nat :: done'(m) <==> done(m) || m == n
    ensures var after := AddNetwork(req, tally, n, details);
      PortfolioBooks(req, 0, after.byNetwork, after.total, done', rule) && ErrorBooks(req, 0, after.errors, done')
  {
    hide BalancesOf, ErrorsOf, DetailsOk, EntryOf, Values, PortfolioBooks, ErrorBooks, DistinctNames, SumReal;
    AddEntry(req, 0, tally.byNetwork, tally.total, done, done', n, details, SumReal(Values(details)), rule);
    AddErrors(req, 0, tally.errors, done, done', n);
  }

  lemma {:induction false} OrderedBooksHold(req: Request, start: Option<real>, order: seq<nat>, m: nat)
    requires Within(req, order) && m <= |order| && Distinct(order) && DistinctNames(req)
    ensures OrderedBooks(req, start, order, m, OrderedWallet(req, start, order, m))
  {
    hide OrderedBooks, AddNetwork, DistinctNames, Distinct, OrderedDetails;
    if m == 0 {
      NoOrderedBooks(req, start, order);
    } else {
      OrderedBooksHold(req, start, order, m - 1);
      NextOrderedBooks(req, start, order, m - 1, OrderedWallet(req, start, order, m - 1));
    }
  }

  // ---- The order in which the mutex is taken ------------------------------------------------------

  /** The worker under the mutex has priced some balances of its network and may have read the cache for the next. */
  predicate HolderAt(req: Request, before: Option<real>, n: nat, worker: Worker, current: Option<real>)
    requires |req.wallets| > 0 && n < |req.networks| && WithinBalances(req, 0, n, worker)
  {
    && InCritical(worker) && current == Inside(req, before, n, |worker.details|)
    && (worker.Quoted? ==>
          worker.cached == SettledRead(req.networks[n], BalancesOf(req, 0, n)[|worker.details|], current))
  }

  /** The networks that have taken the mutex, in that order; what is cached is what they have left there. */
  ghost predicate Serial(req: Request, start: Option<real>, order: seq<nat>, ws: WalletState, current: Option<real>)
    requires Control(req, 0, ws)
  {
    && Within(req, order) && Distinct(order)
    && (forall n: nat :: n < |ws.workers| ==> (n in order <==> SeenIn(ws)(n)))
    && match ws.lock
       case None => current == Between(req, start, order, |order|)
       case Some(n) =>
         && order != [] && order[|order| - 1] == n
         && HolderAt(req, Between(req, start, order, |order| - 1), n, ws.workers[n], current)
  }

  /** The order after a step: a worker that takes the mutex comes last. */
  function OrderAfter(order: seq<nat>, step: Step): seq<nat>
  {
    if step.Work? && step.action.Lock? then order + [step.n] else order
  }

  /** What is cached after a wallet's step: what it publishes, if it does. */
  function CurrentAfterStep(req: Request, ws: WalletState, step: Step, current: Option<real>): Option<real>
    requires |req.wallets| > 0 && |ws.workers| == |req.networks| && WalletCan(req, 0, ws, step)
  {
    if step.Work? && step.action.Set?
    then After(current, QuoteFor(req, 0, step.n, ws.workers[step.n]).publish)
    else current
  }

  /** What the holder of the mutex settles on is its place's price. */
  lemma HolderAllowed(req: Request, start: Option<real>, order: seq<nat>, n: nat, worker: Worker, current: Option<real>)
    requires Within(req, order) && order != [] && order[|order| - 1] == n
    requires worker.Quoted? && WithinBalances(req, 0, n, worker)
    requires HolderAt(req, Between(req, start, order, |order| - 1), n, worker, current)
    ensures OrderRule(req, start, order)(0, n, |worker.details|, QuoteFor(req, 0, n, worker).price)
  {
    hide Outcome, PriceOf, UsesGlobal, Inside, Between;
    assert OrderedPrice(req, start, order, |order| - 1, |worker.details|) == QuoteFor(req, 0, n, worker).price;
  }

  /** The holder's own steps, up to its unlocking. */
  lemma HolderSteps(req: Request, before: Option<real>, n: nat, worker: Worker, prices: GlobalPrices, lock: Option<nat>,
                    action: Action)
    requires |req.wallets| > 0 && n < |req.networks| && WithinBalances(req, 0, n, worker)
    requires WorkerCan(req, 0, n, worker, lock, action)
    requires HolderAt(req, before, n, worker, GlobalPriceAt(prices, GLOBALLY_PRICED))
    ensures action.Get? || action.Set? || action.Unlock?
    ensures var current := GlobalPriceAt(prices, GLOBALLY_PRICED);
      var after := WorkerAfter(req, 0, n, worker, prices, lock, action);
      && (action.Unlock? ==> current == Inside(req, before, n, |BalancesOf(req, 0, n)|))
      && (!action.Unlock? ==>
            && WithinBalances(req, 0, n, after)
            && HolderAt(req, before, n, after,
                        if action.Set? then After(current, QuoteFor(req, 0, n, worker).publish) else current))
  {
    hide Outcome, PriceOf, UsesGlobal, Worth;
  }

  lemma SerialSame(req: Request, start: Option<real>, order: seq<nat>, ws: WalletState, after: WalletState,
                   current: Option<real>)
    requires Control(req, 0, ws) && Control(req, 0, after) && Serial(req, start, order, ws, current)
    requires after.lock == ws.lock && (ws.lock.Some? ==> after.workers[ws.lock.value] == ws.workers[ws.lock.value])
    requires forall n: nat :: SeenIn(after)(n) <==> SeenIn(ws)(n)
    ensures Serial(req, start, order, after, current)
  {
    hide Inside, Between, BalancesOf, SeenIn;
  }

  lemma LockSerial(req: Request, start: Option<real>, order: seq<nat>, ws: WalletState, after: WalletState, n: nat,
                   current: Option<real>)
    requires Control(req, 0, ws) && Control(req, 0, after) && Serial(req, start, order, ws, current)
    requires n < |ws.workers| && ws.lock.None? && !SeenIn(ws)(n)
    requires after.lock == Some(n) && after.workers == ws.workers[n := Pricing([], 0.0)]
    ensures Serial(req, start, order + [n], after, current)
  {
    hide BalancesOf, Between;
    assert forall m: nat :: SeenIn(after)(m) <==> SeenIn(ws)(m) || m == n;
    assert forall i :: 0 <= i < |order| ==> order[i] in order;
    BetweenGrows(req, start, order, n, |order|);
    assert (order + [n])[|order|] == n;
  }

  lemma HolderSerial(req: Request, start: Option<real>, order: seq<nat>, ws: WalletState, after: WalletState, n: nat,
                     current: Option<real>, current': Option<real>)
    requires Control(req, 0, ws) && Control(req, 0, after) && Serial(req, start, order, ws, current)
    requires n < |ws.workers| && ws.lock == Some(n) && after.workers == ws.workers[n := after.workers[n]]
    requires SeenIn(after)(n)
    requires var before := Between(req, start, order, |order| - 1);
      if after.lock == None then current' == Inside(req, before, n, |BalancesOf(req, 0, n)|)
      else after.lock == Some(n) && HolderAt(req, before, n, after.workers[n], current')
    ensures Serial(req, start, order, after, current')
  {
    hide BalancesOf, Inside, HolderAt;
    assert forall m: nat :: SeenIn(after)(m) <==> SeenIn(ws)(m);
  }

  lemma WorkSerial(req: Request, start: Option<real>, order: seq<nat>, ws: WalletState, prices: GlobalPrices, n: nat,
                   action: Action)
    requires Control(req, 0, ws) && WalletCan(req, 0, ws, Work(n, action))
    requires Serial(req, start, order, ws, GlobalPriceAt(prices, GLOBALLY_PRICED))
    ensures var after := WorkAfter(req, 0, ws, prices, n, action);
      && Control(req, 0, after)
      && Serial(req, start, OrderAfter(order, Work(n, action)), after,
                CurrentAfterStep(req, ws, Work(n, action), GlobalPriceAt(prices, GLOBALLY_PRICED)))
  {
    WorkKeepsControl(req, 0, ws, prices, n, action);
    if action.Lock? {
      LockedWork(req, order, ws, prices, n, GlobalPriceAt(prices, GLOBALLY_PRICED));
      hide *;
      LockSerial(req, start, order, ws, WorkAfter(req, 0, ws, prices, n, Lock), n,
                 GlobalPriceAt(prices, GLOBALLY_PRICED));
    } else if action.Get? || action.Set? || action.Unlock? {
      HoldingWork(req, start, order, ws, prices, n, action);
      hide *;
      HolderSerial(req, start, order, ws, WorkAfter(req, 0, ws, prices, n, action), n,
                   GlobalPriceAt(prices, GLOBALLY_PRICED),
                   CurrentAfterStep(req, ws, Work(n, action), GlobalPriceAt(prices, GLOBALLY_PRICED)));
    } else {
      OtherWork(req, order, ws, prices, n, action, GlobalPriceAt(prices, GLOBALLY_PRICED));
      hide *;
      SerialSame(req, start, order, ws, WorkAfter(req, 0, ws, prices, n, action),
                 GlobalPriceAt(prices, GLOBALLY_PRICED));
    }
  }

  lemma LockedWork(req: Request, order: seq<nat>, ws: WalletState, prices: GlobalPrices, n: nat, current: Option<real>)
    requires Control(req, 0, ws) && WalletCan(req, 0, ws, Work(n, Lock))
    ensures var after := WorkAfter(req, 0, ws, prices, n, Lock);
      && n < |ws.workers| && ws.lock.None? && !SeenIn(ws)(n)
      && after.lock == Some(n) && after.workers == ws.workers[n := Pricing([], 0.0)]
    ensures OrderAfter(order, Work(n, Lock)) == order + [n]
    ensures CurrentAfterStep(req, ws, Work(n, Lock), current) == current
  {
    hide Outcome, EntryOf;
  }

  lemma HoldingWork(req: Request, start: Option<real>, order: seq<nat>, ws: WalletState, prices: GlobalPrices, n: nat,
                    action: Action)
    requires Control(req, 0, ws) && WalletCan(req, 0, ws, Work(n, action))
    requires action.Get? || action.Set? || action.Unlock?
    requires Serial(req, start, order, ws, GlobalPriceAt(prices, GLOBALLY_PRICED))
    requires Control(req, 0, WorkAfter(req, 0, ws, prices, n, action))
    ensures var after := WorkAfter(req, 0, ws, prices, n, action);
      var current' := CurrentAfterStep(req, ws, Work(n, action), GlobalPriceAt(prices, GLOBALLY_PRICED));
      var before := if order == [] then start else Between(req, start, order, |order| - 1);
      && OrderAfter(order, Work(n, action)) == order && order != []
      && n < |ws.workers| && ws.lock == Some(n) && after.workers == ws.workers[n := after.workers[n]]
      && SeenIn(after)(n)
      && (if after.lock == None then current' == Inside(req, before, n, |BalancesOf(req, 0, n)|)
          else after.lock == Some(n) && HolderAt(req, before, n, after.workers[n], current'))
  {
    assert InCritical(ws.workers[n]) && WithinBalances(req, 0, n, ws.workers[n]);
    hide Outcome, QuoteFor, DetailFor, Read, EntryOf, GlobalPriceAt, Inside, Between;
    HolderSteps(req, Between(req, start, order, |order| - 1), n, ws.workers[n], prices, ws.lock, action);
  }

  lemma OtherWork(req: Request, order: seq<nat>, ws: WalletState, prices: GlobalPrices, n: nat, action: Action,
                  current: Option<real>)
    requires Control(req, 0, ws) && WalletCan(req, 0, ws, Work(n, action))
    requires !action.Lock? && !action.Get? && !action.Set? && !action.Unlock?
    ensures var after := WorkAfter(req, 0, ws, prices, n, action);
      && after.lock == ws.lock && |after.workers| == |ws.workers|
      && (ws.lock.Some? ==> after.workers[ws.lock.value] == ws.workers[ws.lock.value])
      && forall m: nat :: SeenIn(after)(m) <==> SeenIn(ws)(m)
    ensures OrderAfter(order, Work(n, action)) == order
    ensures CurrentAfterStep(req, ws, Work(n, action), current) == current
  {
    hide Outcome;
  }

  /** Every step of the wallet keeps it serial. */
  lemma StepSerial(req: Request, start: Option<real>, order: seq<nat>, ws: WalletState, prices: GlobalPrices,
                   step: Step)
    requires Control(req, 0, ws) && WalletCan(req, 0, ws, step)
    requires Serial(req, start, order, ws, GlobalPriceAt(prices, GLOBALLY_PRICED))
    ensures Control(req, 0, WalletAfter(req, 0, ws, prices, step))
    ensures Serial(req, start, OrderAfter(order, step), WalletAfter(req, 0, ws, prices, step),
                   CurrentAfterStep(req, ws, step, GlobalPriceAt(prices, GLOBALLY_PRICED)))
  {
    if step.Work? {
      WorkSerial(req, start, order, ws, prices, step.n, step.action);
    } else {
      ControlKept(req, 0, ws, prices, step);
      GoroutineSeen(req, ws, prices, step);
      hide Control, Serial, WalletCan, SeenIn, GlobalPriceAt, WorkAfter;
      SerialSame(req, start, order, ws, WalletAfter(req, 0, ws, prices, step), GlobalPriceAt(prices, GLOBALLY_PRICED));
    }
  }

  lemma GoroutineSeen(req: Request, ws: WalletState, prices: GlobalPrices, step: Step)
    requires Control(req, 0, ws) && WalletCan(req, 0, ws, step) && !step.Work?
    ensures var after := WalletAfter(req, 0, ws, prices, step);
      && after.lock == ws.lock && |after.workers| == |ws.workers|
      && (ws.lock.Some? ==> ws.lock.value < |ws.workers| && after.workers[ws.lock.value] == ws.workers[ws.lock.value])
      && forall m: nat :: SeenIn(after)(m) <==> SeenIn(ws)(m)
  {
    hide BalancesOf, WorkAfter;
    assert step.Spawn? ==> ws.workers[ws.phase.next].Pending?;
  }

  // ---- What the slots allow ----------------------------------------------------------------------

  /** With this many slots the i-th network to take the mutex is at most that far ahead of the i-th in the list. */
  predicate NearOrder(order: seq<nat>, limit: nat)
  {
    forall i :: 0 <= i < |order| ==> order[i] < i + limit
  }

  function Elements(order: seq<nat>): (s: set<nat>)
    ensures forall n :: n in s <==> n in order
    ensures |s| <= |order|
  {
    if order == [] then {}
    else
      assert forall n :: n in order <==> n in order[..|order| - 1] || n == order[|order| - 1];
      Elements(order[..|order| - 1]) + {order[|order| - 1]}
  }

  /** Every network before one that holds a slot holds one too, or has been through the mutex. */
  lemma SlotsAndOrder(req: Request, start: Option<real>, order: seq<nat>, ws: WalletState, n: nat,
                      current: Option<real>)
    requires Control(req, 0, ws) && Serial(req, start, order, ws, current) && n < |ws.workers|
    requires !ws.workers[n].Pending?
    ensures n < Holding(ws) + |order|
  {
    hide SumNat, BalancesOf, HolderAt, Between;
    var s := WorkerHoldings(ws)[..n + 1];
    forall i: nat | i < |s| && i !in Elements(order)
      ensures s[i] >= 1
    {
      assert !ws.workers[i].Pending? && !SeenIn(ws)(i);
    }
    SumCovers(s, Elements(order));
    SumNatPrefix(WorkerHoldings(ws), n + 1);
  }

  // ---- The whole run --------------------------------------------------------------------------------

  /** Request r has one wallet, and no other request uses the shared price. */
  ghost predicate SoleWallet(reqs: seq<Request>, r: nat)
  {
    r < |reqs| && |reqs[r].wallets| == 1 && forall s: nat, n: nat :: UsesCache(reqs, s, n) ==> s == r
  }

  ghost function SerialRules(reqs: seq<Request>, r: nat, start: Option<real>, order: seq<nat>): Rules
    requires r < |reqs|
  {
    (s: nat) => if s == r || s >= |reqs| then OrderRule(reqs[r], start, order) else SettledRule(reqs[s], None)
  }

  /** The run of r so far is the sequential computation over this order. */
  ghost predicate InSeries(reqs: seq<Request>, r: nat, start: Option<real>, order: seq<nat>, sys: System)
  {
    && WellNamed(reqs) && SoleWallet(reqs, r) && SystemInControl(reqs, sys)
    && SystemBooks(reqs, sys, SerialRules(reqs, r, start, order), NoRanges())
    && Serial(reqs[r], start, order, sys.requests[r].wallets[0], Current(sys)) && NearOrder(order, reqs[r].limit)
  }

  lemma SerialAtStart(reqs: seq<Request>, r: nat, shared: Shared)
    requires WellNamed(reqs) && SoleWallet(reqs, r)
    ensures InSeries(reqs, r, GlobalPriceAt(shared.globalPrices, GLOBALLY_PRICED), [], SystemInitial(reqs, shared))
  {
    var start := GlobalPriceAt(shared.globalPrices, GLOBALLY_PRICED);
    SystemInitialInControl(reqs, shared);
    SystemInitialBooks(reqs, shared, SerialRules(reqs, r, start, []), NoRanges());
    hide RequestBooks, WellNamed, GlobalPriceAt, BalancesOf, UsesCache;
    var ws := SystemInitial(reqs, shared).requests[r].wallets[0];
    assert ws == FreshWallet(reqs[r]);
  }

  /** The price a Set settles on is its place's. */
  lemma SerialEventAllowed(req: Request, start: Option<real>, order: seq<nat>, rs: RequestState, ev: Event,
                           current: Option<real>)
    requires |req.wallets| == 1 && InControl(req, rs) && Enabled(req, rs, ev)
    requires Serial(req, start, order, rs.wallets[0], current)
    ensures EventAllowed(req, rs, ev, OrderRule(req, start, order))
  {
    if IsSet(ev) {
      var ws, n := rs.wallets[0], ev.step.n;
      InOrder(req, rs, 0);
      hide InControl, Outcome, QuoteFor, Between, OrderRule;
      assert InCritical(ws.workers[n]) && WithinBalances(req, 0, n, ws.workers[n]);
      HolderAllowed(req, start, order, n, ws.workers[n], current);
    }
  }

  lemma SerialPublishes(reqs: seq<Request>, sys: System, h: Happening)
    requires SystemShaped(reqs, sys) && SystemEnabled(reqs, sys, h) && |reqs[h.r].wallets| == 1
    ensures h.ev.Act? ==>
      && h.ev.w == 0
      && Current(SystemApply(reqs, sys, h))
         == CurrentAfterStep(reqs[h.r], sys.requests[h.r].wallets[0], h.ev.step, Current(sys))
    ensures !h.ev.Act? ==> Current(SystemApply(reqs, sys, h)) == Current(sys)
  {
    CurrentAfter(reqs, sys, h);
    hide Outcome, QuoteFor, GlobalPriceAt, SystemApply;
    if IsSet(h.ev) {
      var publish := QuoteFor(reqs[h.r], 0, h.ev.step.n, sys.requests[h.r].wallets[0].workers[h.ev.step.n]).publish;
      if publish.Some? {
        assert Publishes(reqs[h.r], sys.requests[h.r], h.ev, publish.value);
      }
    }
  }

  /** A request that does not use the shared price publishes nothing, and prices its balances by its own tables. */
  lemma StrangerStep(req: Request, rs: RequestState, ev: Event)
    requires Shaped(req, rs) && Enabled(req, rs, ev)
    requires forall n: nat :: n < |req.networks| && |req.wallets| > 0 ==> !GloballyPriced(req.networks[n])
    ensures EventAllowed(req, rs, ev, SettledRule(req, None))
    ensures forall price :: !Publishes(req, rs, ev, price)
  {
    hide Outcome, WrappedPrice, IsNative, GloballyPriced;
  }

  lemma SerialAllowedInSystem(reqs: seq<Request>, r: nat, start: Option<real>, order: seq<nat>, sys: System,
                              h: Happening)
    requires InSeries(reqs, r, start, order, sys) && SystemEnabled(reqs, sys, h)
    ensures EventAllowed(reqs[h.r], sys.requests[h.r], h.ev, SerialRules(reqs, r, start, order)(h.r))
    ensures h.r != r ==> forall price :: !Publishes(reqs[h.r], sys.requests[h.r], h.ev, price)
  {
    hide Serial, RequestBooks, InControl, EventAllowed, Enabled, DistinctNames, OrderRule, SettledRule, Publishes,
         GlobalPriceAt, GloballyPriced;
    if h.r == r {
      SerialEventAllowed(reqs[r], start, order, sys.requests[r], h.ev, Current(sys));
    } else {
      forall n: nat | n < |reqs[h.r].networks| && |reqs[h.r].wallets| > 0
        ensures !GloballyPriced(reqs[h.r].networks[n])
      {
        assert !UsesCache(reqs, h.r, n);
      }
      StrangerStep(reqs[h.r], sys.requests[h.r], h.ev);
    }
  }

  function OrderAfterEvent(order: seq<nat>, ev: Event): seq<nat>
  {
    if ev.Act? then OrderAfter(order, ev.step) else order
  }

  lemma NextSerial(req: Request, start: Option<real>, order: seq<nat>, rs: RequestState, prices: GlobalPrices,
                   ev: Event)
    requires |req.wallets| == 1 && InControl(req, rs) && Enabled(req, rs, ev)
    requires Serial(req, start, order, rs.wallets[0], GlobalPriceAt(prices, GLOBALLY_PRICED))
    ensures var current, after := GlobalPriceAt(prices, GLOBALLY_PRICED), Apply(req, rs, prices, ev);
      && |after.wallets| == 1 && Control(req, 0, after.wallets[0])
      && Serial(req, start, OrderAfterEvent(order, ev), after.wallets[0],
                if ev.Act? then CurrentAfterStep(req, rs.wallets[0], ev.step, current) else current)
  {
    InOrder(req, rs, 0);
    if ev.Act? {
      ActApplied(req, rs, prices, ev);
      hide *;
      StepSerial(req, start, order, rs.wallets[0], prices, ev.step);
    } else {
      LaunchSerial(req, start, order, rs.wallets[0], GlobalPriceAt(prices, GLOBALLY_PRICED));
      hide InControl, Serial, Control, CurrentAfterStep, GlobalPriceAt;
    }
  }

  lemma ActApplied(req: Request, rs: RequestState, prices: GlobalPrices, ev: Event)
    requires |req.wallets| == 1 && Shaped(req, rs) && Enabled(req, rs, ev) && ev.Act?
    ensures WalletCan(req, 0, rs.wallets[0], ev.step)
    ensures Apply(req, rs, prices, ev).wallets == [WalletAfter(req, 0, rs.wallets[0], prices, ev.step)]
    ensures forall order :: OrderAfterEvent(order, ev) == OrderAfter(order, ev.step)
  {
    hide WalletCan, WalletAfter, OrderAfter;
  }

  lemma LaunchSerial(req: Request, start: Option<real>, order: seq<nat>, ws: WalletState, current: Option<real>)
    requires Control(req, 0, ws) && Serial(req, start, order, ws, current)
    ensures ws.phase.NotStarted? ==>
      var after := ws.(phase := Looping(0)); Control(req, 0, after) && Serial(req, start, order, after, current)
  {
    if ws.phase.NotStarted? {
      LaunchControl(req, 0, ws);
      hide Control, Between, BalancesOf, WithinBalances, HolderAt;
      assert forall n: nat :: SeenIn(ws.(phase := Looping(0)))(n) <==> SeenIn(ws)(n);
    }
  }

  /** The slots keep the order near the list's. */
  lemma NextNear(req: Request, start: Option<real>, order: seq<nat>, rs: RequestState, ev: Event, current: Option<real>)
    requires |req.wallets| == 1 && InControl(req, rs) && Enabled(req, rs, ev) && NearOrder(order, req.limit)
    requires Serial(req, start, order, rs.wallets[0], current)
    ensures NearOrder(OrderAfterEvent(order, ev), req.limit)
  {
    if OrderAfterEvent(order, ev) != order {
      InOrder(req, rs, 0);
      hide Control, Holding, Serial, SumNat;
      var n := ev.step.n;
      assert !rs.wallets[0].workers[n].Pending?;
      SlotsAndOrder(req, start, order, rs.wallets[0], n, current);
      SumNatUpdate(Holdings(rs), 0, 0);
      assert Holdings(rs)[0] == Holding(rs.wallets[0]);
    }
  }

  /** Books under an order are books under the longer one. */
  lemma LongerBooks(reqs: seq<Request>, r: nat, start: Option<real>, order: seq<nat>, sys: System, ev: Event)
    requires SystemInControl(reqs, sys) && r < |reqs|
    requires SystemBooks(reqs, sys, SerialRules(reqs, r, start, order), NoRanges())
    requires Within(reqs[r], OrderAfterEvent(order, ev))
    ensures SystemBooks(reqs, sys, SerialRules(reqs, r, start, OrderAfterEvent(order, ev)), NoRanges())
  {
    var longer := OrderAfterEvent(order, ev);
    if longer != order {
      RuleGrows(reqs[r], start, order, ev.step.n);
      hide Implies, OrderRule, RequestBooks, Control, Within, OrderAfterEvent, Books;
      RequestBooksWeaken(reqs[r], sys.requests[r], OrderRule(reqs[r], start, order), NoRange(),
                         OrderRule(reqs[r], start, longer), NoRange());
    }
  }

  lemma SeriesKept(reqs: seq<Request>, r: nat, start: Option<real>, order: seq<nat>, sys: System, h: Happening)
    requires InSeries(reqs, r, start, order, sys) && SystemEnabled(reqs, sys, h)
    ensures InSeries(reqs, r, start, if h.r == r then OrderAfterEvent(order, h.ev) else order,
                     SystemApply(reqs, sys, h))
  {
    SystemStep(reqs, sys, h);
    SerialAllowedInSystem(reqs, r, start, order, sys, h);
    hide Serial, RequestBooks, InControl, EventAllowed, Enabled, WellNamed, SerialRules, Apply, ShareAfter, UsesCache,
         GlobalPriceAt, Publishes, NearOrder, OrderAfterEvent;
    SystemBooksAllowed(reqs, sys, h, SerialRules(reqs, r, start, order), NoRanges());
    if h.r == r {
      SerialPublishes(reqs, sys, h);
      NextSerial(reqs[r], start, order, sys.requests[r], sys.shared.globalPrices, h.ev);
      NextNear(reqs[r], start, order, sys.requests[r], h.ev, Current(sys));
      SerialWithin(reqs[r], start, OrderAfterEvent(order, h.ev), SystemApply(reqs, sys, h).requests[r].wallets[0],
                   Current(SystemApply(reqs, sys, h)));
      LongerBooks(reqs, r, start, order, SystemApply(reqs, sys, h), h.ev);
    } else {
      CurrentAfter(reqs, sys, h);
    }
  }

  lemma SerialWithin(req: Request, start: Option<real>, order: seq<nat>, ws: WalletState, current: Option<real>)
    requires Control(req, 0, ws) && Serial(req, start, order, ws, current)
    ensures Within(req, order)
  {
  }

  /** The networks of request r in the order in which their workers take the mutex. */
  function LockOrder(r: nat, history: seq<Happening>): seq<nat>
  {
    if history == [] then []
    else (if history[0].r == r then OrderAfterEvent([], history[0].ev) else []) + LockOrder(r, history[1..])
  }

  lemma TakenLast(order: seq<nat>, ev: Event)
    ensures OrderAfterEvent(order, ev) == order + OrderAfterEvent([], ev)
  {
  }

  lemma OrderSplit(order: seq<nat>, r: nat, history: seq<Happening>)
    requires history != []
    ensures order + LockOrder(r, history)
         == (if history[0].r == r then OrderAfterEvent(order, history[0].ev) else order) + LockOrder(r, history[1..])
  {
    TakenLast(order, history[0].ev);
    var rest := LockOrder(r, history[1..]);
    hide OrderAfterEvent;
    Regroup(order, if history[0].r == r then OrderAfterEvent([], history[0].ev) else [], rest);
    assert order + [] == order;
  }

  lemma Regroup<T>(a: seq<T>, b: seq<T>, c: seq<T>)
    ensures a + (b + c) == (a + b) + c
  {
  }

  lemma {:induction false} RunInSeries(reqs: seq<Request>, r: nat, start: Option<real>, order: seq<nat>, sys: System,
                                       history: seq<Happening>)
    requires InSeries(reqs, r, start, order, sys)
    ensures var end := Run(reqs, sys, history);
      end.Some? ==> InSeries(reqs, r, start, order + LockOrder(r, history), end.value)
    decreases |history|
  {
    if history == [] {
      assert order + [] == order;
    } else if SystemEnabled(reqs, sys, history[0]) {
      var next := if history[0].r == r then OrderAfterEvent(order, history[0].ev) else order;
      SeriesKept(reqs, r, start, order, sys, history[0]);
      OrderSplit(order, r, history);
      hide LockOrder, InSeries, SystemEnabled, SystemApply, SystemShaped, OrderAfterEvent;
      RunInSeries(reqs, r, start, next, SystemApply(reqs, sys, history[0]), history[1..]);
    }
  }

  /** An order of all networks that the slots allow. */
  ghost predicate PossibleOrder(req: Request, order: seq<nat>)
  {
    && Within(req, order) && Distinct(order) && NearOrder(order, req.limit)
    && forall n: nat :: n < |req.networks| ==> n in order
  }

  /**
   Serializability: in every run of any requests, whatever its schedule and slots, a
   request of one wallet that alone uses the shared price and has returned has returned
   the sequential portfolio over its networks in the order in which they took the mutex,
   each priced with the cache the one before has left, and exactly the errors of that
   computation. No network is further ahead in that order than there are slots.
   */
  lemma RunIsSerial(reqs: seq<Request>, r: nat, shared: Shared, history: seq<Happening>)
    requires WellNamed(reqs) && SoleWallet(reqs, r)
    ensures var start, order := GlobalPriceAt(shared.globalPrices, GLOBALLY_PRICED), LockOrder(r, history);
      var end := Run(reqs, SystemInitial(reqs, shared), history);
      end.Some? && end.value.requests[r].collected.Some? ==>
        && PossibleOrder(reqs[r], order)
        && end.value.requests[r].collected.value == [OrderedPortfolio(reqs[r], start, order)]
        && multiset(end.value.requests[r].errors)
           == multiset(OrderedWallet(reqs[r], start, order, |order|).errors)
  {
    hide *;
    var start := GlobalPriceAt(shared.globalPrices, GLOBALLY_PRICED);
    SerialAtStart(reqs, r, shared);
    RunInSeries(reqs, r, start, [], SystemInitial(reqs, shared), history);
    assert [] + LockOrder(r, history) == LockOrder(r, history);
    var end := Run(reqs, SystemInitial(reqs, shared), history);
    if end.Some? {
      SeriesShape(reqs, r, start, LockOrder(r, history), end.value);
      if end.value.requests[r].collected.Some? {
        SeriesReturn(reqs, r, start, LockOrder(r, history), end.value);
      }
    }
  }

  lemma SeriesShape(reqs: seq<Request>, r: nat, start: Option<real>, order: seq<nat>, sys: System)
    requires InSeries(reqs, r, start, order, sys)
    ensures r < |reqs| && r < |sys.requests|
  {
  }

  lemma SeriesReturn(reqs: seq<Request>, r: nat, start: Option<real>, order: seq<nat>, sys: System)
    requires InSeries(reqs, r, start, order, sys) && sys.requests[r].collected.Some?
    ensures PossibleOrder(reqs[r], order)
    ensures sys.requests[r].collected.value == [OrderedPortfolio(reqs[r], start, order)]
    ensures multiset(sys.requests[r].errors) == multiset(OrderedWallet(reqs[r], start, order, |order|).errors)
  {
    var req, rs := reqs[r], sys.requests[r];
    DoneInControl(req, rs, 0);
    hide Control, RequestBooks, InControl, UsesCache, OrderRule, GlobalPriceAt, Serial, NearOrder, DistinctNames,
         OrderedPortfolio, OrderedWallet, PortfolioOf, SumBag;
    OrderOf(req, rs, 0, OrderRule(req, start, order), NoRange());
    AllThrough(req, start, order, rs.wallets[0], Current(sys));
    hide WalletInOrder, PossibleOrder;
    SerialPortfolio(req, start, order, rs.wallets[0]);
    ReturnedBooks(req, rs, OrderRule(req, start, order), NoRange());
    assert Portfolios(req, rs) == [PortfolioOf(req, 0, rs.wallets[0])];
    OneElement(rs.collected.value, PortfolioOf(req, 0, rs.wallets[0]));
    assert WalletErrors(rs) == [multiset(rs.wallets[0].errors)];
    OneBag(multiset(rs.wallets[0].errors));
  }

  lemma DoneInControl(req: Request, rs: RequestState, w: nat)
    requires InControl(req, rs) && rs.collected.Some? && w < |rs.wallets|
    ensures Control(req, w, rs.wallets[w]) && rs.wallets[w].phase.Done?
  {
  }

  lemma OneElement<T>(s: seq<T>, x: T)
    requires multiset(s) == multiset([x])
    ensures s == [x]
  {
    assert |multiset(s)| == |s| && |multiset([x])| == 1;
    assert s[0] in multiset(s);
  }

  lemma OneBag<T>(bag: multiset<T>)
    ensures SumBag([bag]) == bag
  {
    assert [bag][..0] == [];
  }

  /** When the wallet is done every network has been through the mutex. */
  lemma AllThrough(req: Request, start: Option<real>, order: seq<nat>, ws: WalletState, current: Option<real>)
    requires Control(req, 0, ws) && Serial(req, start, order, ws, current) && ws.phase.Done?
    requires NearOrder(order, req.limit)
    ensures PossibleOrder(req, order)
  {
    hide HolderAt, Between, BalancesOf, NearOrder;
  }

  /** Then its portfolio and errors are those of the sequential computation. */
  lemma SerialPortfolio(req: Request, start: Option<real>, order: seq<nat>, ws: WalletState)
    requires WalletInOrder(req, 0, ws, OrderRule(req, start, order), NoRange()) && ws.phase.Done? && DistinctNames(req)
    requires PossibleOrder(req, order)
    ensures PortfolioOf(req, 0, ws) == OrderedPortfolio(req, start, order)
    ensures multiset(ws.errors) == multiset(OrderedWallet(req, start, order, |order|).errors)
  {
    var tally, all := OrderedWallet(req, start, order, |order|), AllNetworks(req);
    hide Control, PortfolioBooks, ErrorBooks, OrderRule, OrderedWallet, Books, Readings, DistinctNames, NearOrder;
    DoneIsComplete(req, 0, ws, OrderRule(req, start, order), NoRange());
    OrderedBooksHold(req, start, order, |order|);
    assert order[..|order|] == order;
    assert forall n: nat :: Among(order, |order|)(n) <==> all(n);
    SamePortfolio(req, 0, tally.byNetwork, tally.total, Among(order, |order|), all, OrderRule(req, start, order));
    SameErrors(req, 0, tally.errors, Among(order, |order|), all);
    OrderFixes(req, start, order);
    BooksUnique(req, 0, ws.byNetwork, ws.total, tally.byNetwork, tally.total, all, OrderRule(req, start, order));
    SameBags(req, ws.errors, tally.errors, all);
  }

  lemma SameBags(req: Request, a: seq<PortfolioError>, b: seq<PortfolioError>, seen: Stage)
    requires |req.wallets| > 0 && ErrorBooks(req, 0, a, seen) && ErrorBooks(req, 0, b, seen)
    ensures multiset(a) == multiset(b)
  {
  }

  /** A finished wallet whose prices a rule fixes has the only portfolio there can be. */
  lemma OnePortfolio(req: Request, w: nat, a: WalletState, b: WalletState, rule: PriceRule, read: Range)
    requires w < |req.wallets| && WalletInOrder(req, w, a, rule, read) && WalletInOrder(req, w, b, rule, read)
    requires !InLoop(a.phase) && !InLoop(b.phase) && FixesPrices(req, w, rule)
    ensures PortfolioOf(req, w, a) == PortfolioOf(req, w, b)
    ensures multiset(a.errors) == multiset(b.errors)
  {
    hide PortfolioBooks, Books, Readings, Control, FixesPrices, SumBag, ErrorBags;
    DoneIsComplete(req, w, a, rule, read);
    DoneIsComplete(req, w, b, rule, read);
    BooksUnique(req, w, a.byNetwork, a.total, b.byNetwork, b.total, AllNetworks(req), rule);
  }

  /** Both have returned the same portfolios and errors, in some order, if both have returned. */
  ghost predicate ReturnsSame(req: Request, a: RequestState, b: RequestState)
  {
    a.collected.Some? && b.collected.Some? ==>
      multiset(a.collected.value) == multiset(b.collected.value) && multiset(a.errors) == multiset(b.errors)
  }

  lemma OneReturn(req: Request, a: RequestState, b: RequestState, rule: PriceRule, read: Range)
    requires InControl(req, a) && InControl(req, b) && RequestBooks(req, a, rule, read)
    requires RequestBooks(req, b, rule, read)
    requires forall w: nat :: w < |req.wallets| ==> FixesPrices(req, w, rule)
    ensures ReturnsSame(req, a, b)
  {
    if a.collected.Some? && b.collected.Some? {
      SameBooksSameReturn(req, a, b, rule, read);
    }
  }

  lemma SameBooksSameReturn(req: Request, a: RequestState, b: RequestState, rule: PriceRule, read: Range)
    requires InControl(req, a) && RequestBooks(req, a, rule, read)
    requires InControl(req, b) && RequestBooks(req, b, rule, read)
    requires a.collected.Some? && b.collected.Some?
    requires forall w: nat :: w < |req.wallets| ==> FixesPrices(req, w, rule)
    ensures multiset(a.collected.value) == multiset(b.collected.value)
    ensures multiset(a.errors) == multiset(b.errors)
  {
    hide Books, Readings, FixesPrices, PortfolioOf, Control, SumBag;
    ReturnedBooks(req, a, rule, read);
    ReturnedBooks(req, b, rule, read);
    forall w | 0 <= w < |req.wallets|
      ensures Portfolios(req, a)[w] == Portfolios(req, b)[w] && WalletErrors(a)[w] == WalletErrors(b)[w]
    {
      OrderOf(req, a, w, rule, read);
      OrderOf(req, b, w, rule, read);
      OnePortfolio(req, w, a.wallets[w], b.wallets[w], rule, read);
    }
    assert Portfolios(req, a) == Portfolios(req, b);
    assert WalletErrors(a) == WalletErrors(b);
  }

  /** So have all requests of two systems. */
  ghost predicate SystemsReturnSame(reqs: seq<Request>, x: System, y: System)
  {
    && |x.requests| == |reqs| == |y.requests|
    && forall r :: 0 <= r < |reqs| ==> ReturnsSame(reqs[r], x.requests[r], y.requests[r])
  }

  // ---- One slot -----------------------------------------------------------------------------------

  /** With one slot the only possible order is that of the list. */
  lemma OneSlotOrder(req: Request, order: seq<nat>)
    requires PossibleOrder(req, order) && req.limit == 1
    ensures order == Upto(|req.networks|)
  {
    ListOrder(order, |order|);
    assert order[..|order|] == order;
    assert forall i :: 0 <= i < |order| ==> order[i] == Upto(|order|)[i] == i;
    if order != [] {
      assert order[|order| - 1] < |req.networks|;
    }
    if |req.networks| > 0 {
      var last: nat := |req.networks| - 1;
      assert last in order;
    }
  }

  lemma {:induction false} ListOrder(order: seq<nat>, m: nat)
    requires Distinct(order) && NearOrder(order, 1) && m <= |order|
    ensures order[..m] == Upto(m)
  {
    if m > 0 {
      ListOrder(order, m - 1);
      var n := order[m - 1];
      if m > 1 {
        var i := if n < m - 1 then n else 0;
        assert order[..m - 1][i] == order[i] == i && order[i] != order[m - 1];
      }
      assert order[..m] == order[..m - 1] + [n];
    }
  }

  predicate Alone(req: Request)
  {
    |req.wallets| == 1 && req.limit == 1
  }

  /** One wallet and one slot, and no other request that uses the shared price. */
  ghost predicate OnlyUser(reqs: seq<Request>, r: nat)
  {
    SoleWallet(reqs, r) && Alone(reqs[r])
  }

  /**
   Then whatever schedule two runs follow, and whatever prices the networks have, every
   request that has returned in both has returned the same portfolios and errors.
   */
  lemma OneSlotOneResult(reqs: seq<Request>, r: nat, shared: Shared, a: seq<Happening>, b: seq<Happening>)
    requires WellNamed(reqs) && OnlyUser(reqs, r)
    ensures var x, y := Run(reqs, SystemInitial(reqs, shared), a), Run(reqs, SystemInitial(reqs, shared), b);
      x.Some? && y.Some? ==> SystemsReturnSame(reqs, x.value, y.value)
  {
    SoleUser(reqs, r);
    hide *;
    var start := GlobalPriceAt(shared.globalPrices, GLOBALLY_PRICED);
    SerialAtStart(reqs, r, shared);
    RunInSeries(reqs, r, start, [], SystemInitial(reqs, shared), a);
    RunInSeries(reqs, r, start, [], SystemInitial(reqs, shared), b);
    var p, q := [] + LockOrder(r, a), [] + LockOrder(r, b);
    var x, y := Run(reqs, SystemInitial(reqs, shared), a), Run(reqs, SystemInitial(reqs, shared), b);
    if x.Some? && y.Some? {
      SeriesReturnSame(reqs, r, start, p, q, x.value, y.value);
    }
  }

  lemma SoleUser(reqs: seq<Request>, r: nat)
    requires OnlyUser(reqs, r)
    ensures SoleWallet(reqs, r)
  {
  }

  lemma SeriesReturnSame(reqs: seq<Request>, r: nat, start: Option<real>, p: seq<nat>, q: seq<nat>, x: System,
                         y: System)
    requires InSeries(reqs, r, start, p, x) && InSeries(reqs, r, start, q, y) && OnlyUser(reqs, r)
    ensures SystemsReturnSame(reqs, x, y)
  {
    hide InControl, RequestBooks, Serial, UsesCache, WellNamed, OrderRule, SettledRule, GlobalPriceAt, ReturnsSame,
         NearOrder;
    forall s: nat | s < |reqs|
      ensures ReturnsSame(reqs[s], x.requests[s], y.requests[s])
    {
      if s == r {
        SoleReturnsSame(reqs, r, start, p, q, x, y);
      } else {
        StrangerFixes(reqs[s]);
        hide *;
        OneReturn(reqs[s], x.requests[s], y.requests[s], SettledRule(reqs[s], None), NoRange());
      }
    }
  }

  lemma StrangerFixes(req: Request)
    ensures forall w: nat :: w < |req.wallets| ==> FixesPrices(req, w, SettledRule(req, None))
  {
    hide FixesPrices, SettledRule;
    forall w: nat | w < |req.wallets|
      ensures FixesPrices(req, w, SettledRule(req, None))
    {
      SettledFixes(req, w, None);
    }
  }

  lemma SoleReturnsSame(reqs: seq<Request>, r: nat, start: Option<real>, p: seq<nat>, q: seq<nat>, x: System, y: System)
    requires InSeries(reqs, r, start, p, x) && InSeries(reqs, r, start, q, y) && OnlyUser(reqs, r)
    ensures r < |x.requests| && r < |y.requests| && ReturnsSame(reqs[r], x.requests[r], y.requests[r])
  {
    hide InControl, RequestBooks, Serial, UsesCache, WellNamed, GlobalPriceAt, NearOrder, Control, SerialRules,
         PossibleOrder, OrderedPortfolio, OrderedWallet;
    if x.requests[r].collected.Some? && y.requests[r].collected.Some? {
      SeriesReturn(reqs, r, start, p, x);
      SeriesReturn(reqs, r, start, q, y);
      OneSlotOrder(reqs[r], p);
      OneSlotOrder(reqs[r], q);
    }
  }
}
