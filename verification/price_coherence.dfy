/**
 When all wallets are shown one global price. Get and TrySet are two critical sections,
 so what matters is which workers can stand between them at the same time.
 */
module PriceCoherence {
  import opened Wrappers
  import opened Entities
  import opened Sums
  import opened TokenPrices
  import opened PortfolioRun
  import opened WalletControl
  import opened WalletBooks
  import opened RunControl
  import opened RunBooks
  import opened GlobalPrice

  // ---- Which workers can overlap --------------------------------------------------------

  /** Workers of two wallets, one of each request, can be under way together. */
  predicate CanOverlap(reqs: seq<Request>, r: nat, s: nat)
  {
    && r < |reqs| && s < |reqs|
    && if r == s then |reqs[r].wallets| >= 2 && reqs[r].limit >= 2
       else |reqs[r].wallets| >= 1 && reqs[r].limit >= 1 && |reqs[s].wallets| >= 1 && reqs[s].limit >= 1
  }

  /** No two workers that can overlap could publish different prices. */
  ghost predicate NoRivals(reqs: seq<Request>)
  {
    forall r: nat, m: nat, p: real, s: nat, n: nat, q: real ::
      IsSource(reqs, r, m, p) && IsSource(reqs, s, n, q) && CanOverlap(reqs, r, s) ==> p == q
  }

  ghost predicate SourcesAgree(req: Request)
  {
    forall m: nat, p: real, n: nat, q: real :: IsSource([req], 0, m, p) && IsSource([req], 0, n, q) ==> p == q
  }

  /** For one request: one wallet, or one slot, or one price for all wrapped tokens. */
  lemma SingleRequestRivals(req: Request)
    ensures NoRivals([req]) <==> |req.wallets| <= 1 || req.limit <= 1 || SourcesAgree(req)
  {
    hide GloballyPriced, WrappedPrice;
    if NoRivals([req]) && |req.wallets| > 1 && req.limit > 1 {
      forall m: nat, p: real, n: nat, q: real | IsSource([req], 0, m, p) && IsSource([req], 0, n, q)
        ensures p == q
      {
        assert CanOverlap([req], 0, 0);
      }
    }
  }

  lemma HoldingAtLeast(ws: WalletState, n: nat)
    requires n < |ws.workers| && InCritical(ws.workers[n])
    ensures Holding(ws) >= 1
  {
    hide SumNat;
    SumNatUpdate(WorkerHoldings(ws), n, 0);
  }

  /** A worker under its mutex holds a slot of its request, and one of another wallet holds another. */
  lemma CriticalHolds(req: Request, rs: RequestState, w: nat, n: nat)
    requires InControl(req, rs) && w < |rs.wallets| && n < |rs.wallets[w].workers|
    requires InCritical(rs.wallets[w].workers[n])
    ensures |req.wallets| >= 1 && req.limit >= 1
  {
    HoldingAtLeast(rs.wallets[w], n);
    hide Control, Holding, SumNat;
    SumNatUpdate(Holdings(rs), w, 0);
  }

  lemma TwoCritical(req: Request, rs: RequestState, w: nat, m: nat, v: nat, n: nat)
    requires InControl(req, rs) && w != v && BothCritical(rs, w, m, v, n)
    ensures |req.wallets| >= 2 && req.limit >= 2
  {
    HoldingAtLeast(rs.wallets[w], m);
    HoldingAtLeast(rs.wallets[v], n);
    hide Control, Holding, SumNat;
    SumOfTwo(Holdings(rs), w, v);
  }

  predicate BothCritical(rs: RequestState, w: nat, m: nat, v: nat, n: nat)
  {
    && w < |rs.wallets| && m < |rs.wallets[w].workers| && InCritical(rs.wallets[w].workers[m])
    && v < |rs.wallets| && n < |rs.wallets[v].workers| && InCritical(rs.wallets[v].workers[n])
  }

  predicate CriticalAt(sys: System, r: nat, w: nat, n: nat)
  {
    && r < |sys.requests| && w < |sys.requests[r].wallets| && n < |sys.requests[r].wallets[w].workers|
    && InCritical(sys.requests[r].wallets[w].workers[n])
  }

  /** Two workers under their mutexes at the same time are of wallets that can overlap. */
  lemma CriticalOverlap(reqs: seq<Request>, sys: System, r: nat, w: nat, m: nat, s: nat, v: nat, n: nat)
    requires SystemInControl(reqs, sys) && CriticalAt(sys, r, w, m) && CriticalAt(sys, s, v, n)
    requires !(r == s && w == v && m == n)
    ensures CanOverlap(reqs, r, s)
  {
    hide InControl;
    if r != s {
      CriticalHolds(reqs[r], sys.requests[r], w, m);
      CriticalHolds(reqs[s], sys.requests[s], v, n);
    } else if w != v {
      TwoCritical(reqs[r], sys.requests[r], w, m, v, n);
    } else {
      InOrder(reqs[r], sys.requests[r], w);
      MutualExclusion(reqs[r], w, sys.requests[r].wallets[w], m, n);
    }
  }

  // ---- One price ---------------------------------------------------------------------------

  /** A price given to a globally priced balance while the cache holds `current`. */
  predicate CoherentPrice(req: Request, current: Option<real>, w: nat, n: nat, k: nat, price: real)
  {
    w < |req.wallets| && n < |req.networks| && k < |BalancesOf(req, w, n)|
    && UsesGlobal(req.networks[n], BalancesOf(req, w, n)[k])
    ==> price == 0.0 || current == Some(price)
  }

  function CoherentRule(req: Request, current: Option<real>): PriceRule
  {
    (w: nat, n: nat, k: nat, price: real) => CoherentPrice(req, current, w, n, k, price)
  }

  /** If the network's wrapped token has a price, it is the cached one. */
  predicate Suits(req: Request, n: nat, current: Option<real>)
  {
    n < |req.networks| && GloballyPriced(req.networks[n]) && WrappedPrice(req.prices, req.networks[n]).Some?
    ==> WrappedPrice(req.prices, req.networks[n]) == current
  }

  /** What has been read is what is cached, or nothing where that will do no harm. */
  function CoherentRange(req: Request, current: Option<real>): Range
  {
    (n: nat, cached: Option<real>) => cached == current || (cached.None? && Suits(req, n, current))
  }

  function CoherentRules(reqs: seq<Request>, current: Option<real>): Rules
  {
    (r: nat) => if r < |reqs| then CoherentRule(reqs[r], current) else (w: nat, n: nat, k: nat, price: real) => true
  }

  function CoherentRanges(reqs: seq<Request>, current: Option<real>): Ranges
  {
    (r: nat) => if r < |reqs| then CoherentRange(reqs[r], current) else (n: nat, cached: Option<real>) => true
  }

  predicate Positively(current: Option<real>)
  {
    current.Some? ==> current.value > 0.0
  }

  /** Every globally priced balance priced so far has the cached price or none. */
  ghost predicate Coherent(reqs: seq<Request>, sys: System)
  {
    && SystemInControl(reqs, sys) && Positively(Current(sys))
    && SystemBooks(reqs, sys, CoherentRules(reqs, Current(sys)), CoherentRanges(reqs, Current(sys)))
  }

  lemma CoherentQuote(req: Request, w: nat, n: nat, nb: Balance, current: Option<real>, cached: Option<real>)
    requires n < |req.networks| && Positively(current)
    requires UsesGlobal(req.networks[n], nb) ==> CoherentRange(req, current)(n, cached)
    ensures var quote := PriceOf(req.prices, req.networks[n], nb, cached);
      && (quote.publish.None? && UsesGlobal(req.networks[n], nb) ==> quote.price == 0.0 || current == Some(quote.price))
      && (quote.publish.Some? ==>
            && quote.publish == Some(quote.price) == WrappedPrice(req.prices, req.networks[n])
            && GloballyPriced(req.networks[n]) && (current.None? || current == quote.publish))
  {
    hide IsNative, GloballyPriced, WrappedPrice;
  }

  lemma CoherentSetting(req: Request, w: nat, n: nat, worker: Worker, current: Option<real>)
    requires w < |req.wallets| && n < |req.networks| && worker.Quoted? && |worker.details| < |BalancesOf(req, w, n)|
    requires WorkerReading(req, w, n, worker, CoherentRange(req, current)) && Positively(current)
    ensures var quote, k := QuoteFor(req, w, n, worker), |worker.details|;
      && (quote.publish.None? ==> CoherentRule(req, current)(w, n, k, quote.price))
      && (quote.publish.Some? ==>
            && CoherentRule(req, quote.publish)(w, n, k, quote.price)
            && GloballyPriced(req.networks[n]) && WrappedPrice(req.prices, req.networks[n]) == quote.publish
            && (current.None? || current == quote.publish))
  {
    hide WrappedPrice, IsNative, GloballyPriced, Outcome, PriceOf, CoherentRange;
    CoherentQuote(req, w, n, BalancesOf(req, w, n)[|worker.details|], current, worker.cached);
  }

  lemma CoherentUnpublished(req: Request, rs: RequestState, ev: Event, current: Option<real>)
    requires Shaped(req, rs) && Enabled(req, rs, ev) && Positively(current)
    requires RequestBooks(req, rs, CoherentRule(req, current), CoherentRange(req, current))
    requires forall price :: !Publishes(req, rs, ev, price)
    ensures EventAllowed(req, rs, ev, CoherentRule(req, current))
  {
    if IsSet(ev) {
      SetReading(req, rs, ev, CoherentRule(req, current), CoherentRange(req, current));
      hide BalancesOf, WorkerReading, CoherentRule, CoherentRange, RequestBooks, QuoteFor;
      CoherentSetting(req, ev.w, ev.step.n, rs.wallets[ev.w].workers[ev.step.n], current);
      var quote := QuoteFor(req, ev.w, ev.step.n, rs.wallets[ev.w].workers[ev.step.n]);
      assert quote.publish.Some? ==> Publishes(req, rs, ev, quote.publish.value);
    }
  }

  /** What is published is the wrapped token's price, and the cached price if there is one. */
  lemma CoherentPublished(req: Request, rs: RequestState, ev: Event, current: Option<real>, price: real)
    requires Shaped(req, rs) && Enabled(req, rs, ev) && Positively(current)
    requires RequestBooks(req, rs, CoherentRule(req, current), CoherentRange(req, current))
    requires Publishes(req, rs, ev, price)
    ensures EventAllowed(req, rs, ev, CoherentRule(req, Some(price))) && (current.None? || current == Some(price))
    ensures ev.step.n < |req.networks| && GloballyPriced(req.networks[ev.step.n])
    ensures WrappedPrice(req.prices, req.networks[ev.step.n]) == Some(price)
  {
    SetReading(req, rs, ev, CoherentRule(req, current), CoherentRange(req, current));
    hide BalancesOf, WorkerReading, CoherentRule, CoherentRange, RequestBooks, QuoteFor, WrappedPrice, GloballyPriced;
    CoherentSetting(req, ev.w, ev.step.n, rs.wallets[ev.w].workers[ev.step.n], current);
  }

  // ---- The first publication ------------------------------------------------------------------

  lemma RuleWeakens(req: Request, price: real)
    ensures Implies(CoherentRule(req, None), CoherentRule(req, Some(price)))
  {
    hide UsesGlobal, BalancesOf;
  }

  lemma ReadingsInOrder(req: Request, rs: RequestState, rule: PriceRule, read: Range)
    requires |rs.wallets| == |req.wallets| && RequestBooks(req, rs, rule, read)
    ensures forall w :: 0 <= w < |rs.wallets| ==>
      Control(req, w, rs.wallets[w]) && Readings(req, w, rs.wallets[w], read)
  {
    hide Control, Readings, Books, PortfolioOf;
    assert forall w :: 0 <= w < |rs.wallets| ==> WalletInOrder(req, w, rs.wallets[w], rule, read);
  }

  /** Before the first publication the books already allow for the price about to be published. */
  lemma BooksAllow(reqs: seq<Request>, sys: System, price: real)
    requires SystemShaped(reqs, sys) && SystemBooks(reqs, sys, CoherentRules(reqs, None), CoherentRanges(reqs, None))
    ensures SystemBooks(reqs, sys, CoherentRules(reqs, Some(price)), CoherentRanges(reqs, None))
  {
    forall r | 0 <= r < |reqs|
      ensures RequestBooks(reqs[r], sys.requests[r], CoherentRules(reqs, Some(price))(r), CoherentRanges(reqs, None)(r))
    {
      var req, rs := reqs[r], sys.requests[r];
      assert RequestBooks(req, rs, CoherentRule(req, None), CoherentRange(req, None));
      hide RequestBooks, CoherentRule, CoherentRange, Implies, Control, Readings;
      RuleWeakens(req, price);
      ReadingsInOrder(req, rs, CoherentRule(req, None), CoherentRange(req, None));
      RequestBooksWeaken(req, rs, CoherentRule(req, None), CoherentRange(req, None),
                         CoherentRule(req, Some(price)), CoherentRange(req, None));
    }
  }

  /** Each wallet's remaining readings suit the published price. */
  ghost predicate ReadersSuit(req: Request, rs: RequestState, current: Option<real>)
    requires Shaped(req, rs)
  {
    forall w: nat, n: nat ::
      w < |rs.wallets| && n < |req.networks| && rs.wallets[w].workers[n].Quoted? ==> Suits(req, n, current)
  }

  lemma WalletReadsOn(req: Request, w: nat, ws: WalletState, price: real)
    requires Control(req, w, ws) && Readings(req, w, ws, CoherentRange(req, None))
    requires forall n: nat :: n < |req.networks| && ws.workers[n].Quoted? ==> Suits(req, n, Some(price))
    ensures Readings(req, w, ws, CoherentRange(req, Some(price)))
  {
    hide UsesGlobal, BalancesOf;
    forall n | 0 <= n < |ws.workers|
      ensures WorkerReading(req, w, n, ws.workers[n], CoherentRange(req, Some(price)))
    {
      assert WorkerReading(req, w, n, ws.workers[n], CoherentRange(req, None));
      hide Suits;
    }
  }

  lemma RequestReadsOn(req: Request, rs: RequestState, price: real)
    requires Shaped(req, rs) && ReadersSuit(req, rs, Some(price))
    requires RequestBooks(req, rs, CoherentRule(req, Some(price)), CoherentRange(req, None))
    ensures RequestBooks(req, rs, CoherentRule(req, Some(price)), CoherentRange(req, Some(price)))
  {
    ReadingsInOrder(req, rs, CoherentRule(req, Some(price)), CoherentRange(req, None));
    hide RequestBooks, CoherentRule, CoherentRange, Control, Readings, Suits;
    forall w | 0 <= w < |rs.wallets|
      ensures Readings(req, w, rs.wallets[w], CoherentRange(req, Some(price)))
    {
      WalletReadsOn(req, w, rs.wallets[w], price);
    }
    RequestBooksWeaken(req, rs, CoherentRule(req, Some(price)), CoherentRange(req, None),
                       CoherentRule(req, Some(price)), CoherentRange(req, Some(price)));
  }

  /** A worker between Get and TrySet after a publication was there during it. */
  lemma ReaderWasThere(reqs: seq<Request>, sys: System, h: Happening, s: nat, v: nat, n: nat)
    requires SystemShaped(reqs, sys) && SystemEnabled(reqs, sys, h) && IsSet(h.ev)
    requires var after := SystemApply(reqs, sys, h);
      s < |reqs| && v < |after.requests[s].wallets| && n < |after.requests[s].wallets[v].workers|
      && after.requests[s].wallets[v].workers[n].Quoted?
    ensures CriticalAt(sys, s, v, n) && CriticalAt(sys, h.r, h.ev.w, h.ev.step.n)
    ensures !(s == h.r && v == h.ev.w && n == h.ev.step.n)
  {
    hide BalancesOf, DetailFor, ShareAfter;
  }

  /** Everyone still between Get and TrySet could publish only the price just published. */
  lemma ReadersSuitAfter(reqs: seq<Request>, sys: System, h: Happening, s: nat, price: real)
    requires SystemInControl(reqs, sys) && SystemEnabled(reqs, sys, h) && NoRivals(reqs) && IsSet(h.ev) && s < |reqs|
    requires IsSource(reqs, h.r, h.ev.step.n, price)
    ensures Shaped(reqs[s], SystemApply(reqs, sys, h).requests[s])
    ensures ReadersSuit(reqs[s], SystemApply(reqs, sys, h).requests[s], Some(price))
  {
    var after := SystemApply(reqs, sys, h);
    hide InControl, SystemApply, SystemEnabled, WrappedPrice, GloballyPriced, CanOverlap;
    forall v: nat, n: nat
      | v < |after.requests[s].wallets| && n < |reqs[s].networks| && after.requests[s].wallets[v].workers[n].Quoted?
      ensures Suits(reqs[s], n, Some(price))
    {
      ReaderWasThere(reqs, sys, h, s, v, n);
      CriticalOverlap(reqs, sys, h.r, h.ev.w, h.ev.step.n, s, v, n);
      var wrapped := WrappedPrice(reqs[s].prices, reqs[s].networks[n]);
      if GloballyPriced(reqs[s].networks[n]) && wrapped.Some? {
        assert IsSource(reqs, s, n, wrapped.value);
      }
    }
  }

  lemma FirstPublication(reqs: seq<Request>, sys: System, h: Happening, price: real)
    requires SystemInControl(reqs, sys) && SystemEnabled(reqs, sys, h) && WellNamed(reqs) && NoRivals(reqs)
    requires Current(sys) == None && IsSet(h.ev) && IsSource(reqs, h.r, h.ev.step.n, price)
    requires SystemBooks(reqs, sys, CoherentRules(reqs, None), CoherentRanges(reqs, None))
    requires EventAllowed(reqs[h.r], sys.requests[h.r], h.ev, CoherentRule(reqs[h.r], Some(price)))
    ensures SystemBooks(reqs, SystemApply(reqs, sys, h),
                        CoherentRules(reqs, Some(price)), CoherentRanges(reqs, Some(price)))
  {
    var after := SystemApply(reqs, sys, h);
    hide SystemInControl, SystemEnabled, SystemApply, WellNamed, NoRivals, IsSource, EventAllowed, RequestBooks, Shaped,
         CoherentRule, CoherentRange, InRange, GlobalPriceAt, ReadersSuit;
    BooksAllow(reqs, sys, price);
    NothingInRange(reqs, sys, h);
    SystemBooksAllowed(reqs, sys, h, CoherentRules(reqs, Some(price)), CoherentRanges(reqs, None));
    forall s | 0 <= s < |reqs|
      ensures RequestBooks(reqs[s], after.requests[s],
                           CoherentRules(reqs, Some(price))(s), CoherentRanges(reqs, Some(price))(s))
    {
      ReadersSuitAfter(reqs, sys, h, s, price);
      assert RequestBooks(reqs[s], after.requests[s],
                          CoherentRules(reqs, Some(price))(s), CoherentRanges(reqs, None)(s));
      RequestReadsOn(reqs[s], after.requests[s], price);
    }
  }

  lemma NothingInRange(reqs: seq<Request>, sys: System, h: Happening)
    requires h.r < |reqs| && Current(sys) == None
    ensures InRange(CoherentRanges(reqs, None)(h.r), GlobalPriceAt(sys.shared.globalPrices, GLOBALLY_PRICED))
  {
  }

  // ---- Every step, every run ---------------------------------------------------------------------

  lemma CoherentKept(reqs: seq<Request>, sys: System, h: Happening)
    requires Coherent(reqs, sys) && SystemEnabled(reqs, sys, h) && WellNamed(reqs)
    requires (Current(sys).Some? || NoRivals(reqs))
    ensures Coherent(reqs, SystemApply(reqs, sys, h))
    ensures Current(sys).Some? ==> Current(SystemApply(reqs, sys, h)).Some?
  {
    var req, rs, current := reqs[h.r], sys.requests[h.r], Current(sys);
    SystemStep(reqs, sys, h);
    CurrentAfter(reqs, sys, h);
    assert RequestBooks(req, rs, CoherentRule(req, current), CoherentRange(req, current));
    CachedInRange(reqs, sys, h);
    hide InControl, RequestBooks, Apply, Enabled, ShareAfter, EventAllowed, Publishes, GlobalPriceAt, DistinctNames,
         CoherentRule, CoherentRange, NoRivals, InRange;
    if price :| SetsTo(reqs, sys, h, price) {
      CoherentPublished(req, rs, h.ev, current, price);
      PublishesAtSet(req, rs, h.ev, price);
      if current.None? {
        FirstPublication(reqs, sys, h, price);
      } else {
        SystemBooksAllowed(reqs, sys, h, CoherentRules(reqs, current), CoherentRanges(reqs, current));
      }
    } else {
      CoherentUnpublished(req, rs, h.ev, current);
      SystemBooksAllowed(reqs, sys, h, CoherentRules(reqs, current), CoherentRanges(reqs, current));
    }
  }

  lemma PublishesAtSet(req: Request, rs: RequestState, ev: Event, price: real)
    requires Shaped(req, rs) && Enabled(req, rs, ev) && Publishes(req, rs, ev, price)
    ensures IsSet(ev)
  {
  }

  lemma CachedInRange(reqs: seq<Request>, sys: System, h: Happening)
    requires h.r < |reqs|
    ensures InRange(CoherentRanges(reqs, Current(sys))(h.r), GlobalPriceAt(sys.shared.globalPrices, GLOBALLY_PRICED))
  {
  }

  lemma {:induction false} RunCoherent(reqs: seq<Request>, sys: System, history: seq<Happening>)
    requires Coherent(reqs, sys) && WellNamed(reqs) && (Current(sys).Some? || NoRivals(reqs))
    ensures var end := Run(reqs, sys, history); end.Some? ==> Coherent(reqs, end.value)
    decreases |history|
  {
    if history != [] && SystemEnabled(reqs, sys, history[0]) {
      CoherentKept(reqs, sys, history[0]);
      CoherentShape(reqs, SystemApply(reqs, sys, history[0]));
      hide Coherent, SystemEnabled, SystemApply, SystemShaped, WellNamed, NoRivals, Current;
      RunCoherent(reqs, SystemApply(reqs, sys, history[0]), history[1..]);
    }
  }

  lemma CoherentShape(reqs: seq<Request>, sys: System)
    requires Coherent(reqs, sys)
    ensures SystemShaped(reqs, sys)
  {
  }

  lemma CoherentStart(reqs: seq<Request>, shared: Shared)
    requires Positively(GlobalPriceAt(shared.globalPrices, GLOBALLY_PRICED))
    ensures Coherent(reqs, SystemInitial(reqs, shared))
  {
    var sys := SystemInitial(reqs, shared);
    SystemInitialInControl(reqs, shared);
    SystemInitialBooks(reqs, shared, CoherentRules(reqs, Current(sys)), CoherentRanges(reqs, Current(sys)));
    hide SystemBooks, SystemInControl;
  }

  /** In the state a history leads to, every price but zero shown for a globally priced balance is the cached one. */
  ghost predicate ShowsOnePrice(reqs: seq<Request>, shared: Shared, history: seq<Happening>)
  {
    var end := Run(reqs, SystemInitial(reqs, shared), history);
    end.Some? ==>
      forall r: nat, w: nat, n: nat, k: nat, price: real ::
        r < |reqs| && w < |reqs[r].wallets|
        && ShowsGlobalPrice(reqs[r], end.value.requests[r].wallets[w].byNetwork, n, k, price) && price != 0.0
        ==> Current(end.value) == Some(price)
  }

  /**
   Coherence: if the global price is set, or no two workers that can overlap have
   different prices to publish, then in every reachable state of any requests all
   prices other than zero shown for globally priced balances, of all wallets on all
   networks, are the cached one.
   */
  lemma NoRivalsOnePrice(reqs: seq<Request>, shared: Shared, history: seq<Happening>)
    requires WellNamed(reqs) && Positively(GlobalPriceAt(shared.globalPrices, GLOBALLY_PRICED))
    requires GlobalPriceAt(shared.globalPrices, GLOBALLY_PRICED).Some? || NoRivals(reqs)
    ensures ShowsOnePrice(reqs, shared, history)
  {
    CoherentStart(reqs, shared);
    assert Current(SystemInitial(reqs, shared)) == GlobalPriceAt(shared.globalPrices, GLOBALLY_PRICED);
    hide SystemInitial, Run, Coherent, NoRivals, ShowsGlobalPrice, Current, GlobalPriceAt;
    RunCoherent(reqs, SystemInitial(reqs, shared), history);
    var end := Run(reqs, SystemInitial(reqs, shared), history);
    if end.Some? {
      forall r: nat, w: nat, n: nat, k: nat, price: real
        | r < |reqs| && w < |reqs[r].wallets|
          && ShowsGlobalPrice(reqs[r], end.value.requests[r].wallets[w].byNetwork, n, k, price) && price != 0.0
        ensures Current(end.value) == Some(price)
      {
        ShownIsCurrent(reqs, end.value, r, w, n, k, price);
      }
    }
  }

  lemma ShownIsCurrent(reqs: seq<Request>, sys: System, r: nat, w: nat, n: nat, k: nat, price: real)
    requires Coherent(reqs, sys) && WellNamed(reqs) && r < |reqs| && w < |reqs[r].wallets|
    requires ShowsGlobalPrice(reqs[r], sys.requests[r].wallets[w].byNetwork, n, k, price) && price != 0.0
    ensures Current(sys) == Some(price)
  {
    var req, current := reqs[r], Current(sys);
    hide Books, Readings, IsNativeAddress, GloballyPriced, BalancesOf, InControl, DistinctNames, GlobalPriceAt;
    assert RequestBooks(req, sys.requests[r], CoherentRule(req, current), CoherentRange(req, current)) by {
      hide RequestBooks;
    }
    OrderOf(req, sys.requests[r], w, CoherentRule(req, current), CoherentRange(req, current));
    ShownPriceAllowed(req, w, sys.requests[r].wallets[w], CoherentRule(req, current), n, k, price);
    assert CoherentPrice(req, current, w, n, k, price);
  }
}
