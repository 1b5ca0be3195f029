/**
 The cache of global native prices under concurrent requests: where a cached price
 comes from, when it stops changing, and when one wallet sees one price.
 */
module GlobalPrice {
  import opened Wrappers
  import opened Entities
  import opened TokenPrices
  import opened PortfolioRun
  import opened WalletBooks
  import opened RunControl
  import opened RunBooks

  function Current(sys: System): Option<real>
  {
    GlobalPriceAt(sys.shared.globalPrices, GLOBALLY_PRICED)
  }

  predicate Publishes(req: Request, rs: RequestState, ev: Event, price: real)
    requires Shaped(req, rs) && Enabled(req, rs, ev)
  {
    && ev.Act? && ev.step.Work? && ev.step.action.Set?
    && QuoteFor(req, ev.w, ev.step.n, rs.wallets[ev.w].workers[ev.step.n]).publish == Some(price)
  }

  ghost predicate SetsTo(reqs: seq<Request>, sys: System, h: Happening, price: real)
    requires SystemShaped(reqs, sys) && SystemEnabled(reqs, sys, h)
  {
    && price > 0.0 && Publishes(reqs[h.r], sys.requests[h.r], h.ev, price)
    && Current(SystemApply(reqs, sys, h)) == Some(price)
  }

  /** Only a TrySet changes the cached price, and it puts its own quote there. */
  lemma CurrentAfter(reqs: seq<Request>, sys: System, h: Happening)
    requires SystemShaped(reqs, sys) && SystemEnabled(reqs, sys, h)
    ensures Current(SystemApply(reqs, sys, h)) == Current(sys)
      || exists price :: SetsTo(reqs, sys, h, price)
    ensures forall price :: Publishes(reqs[h.r], sys.requests[h.r], h.ev, price) ==> SetsTo(reqs, sys, h, price)
    ensures (forall price :: !Publishes(reqs[h.r], sys.requests[h.r], h.ev, price)) ==>
      Current(SystemApply(reqs, sys, h)) == Current(sys)
  {
    var req, rs := reqs[h.r], sys.requests[h.r];
    hide Apply, WrappedPrice, IsNative, Outcome;
    if h.ev.Act? && h.ev.step.Work? && h.ev.step.action.Set? {
      var publish := QuoteFor(req, h.ev.w, h.ev.step.n, rs.wallets[h.ev.w].workers[h.ev.step.n]).publish;
      if publish.Some? {
        assert SetsTo(reqs, sys, h, publish.value);
      }
    }
  }

  // ---- Provenance ------------------------------------------------------------------------

  predicate IsSource(reqs: seq<Request>, r: nat, n: nat, price: real)
  {
    && r < |reqs| && n < |reqs[r].networks| && GloballyPriced(reqs[r].networks[n])
    && WrappedPrice(reqs[r].prices, reqs[r].networks[n]) == Some(price)
  }

  /** The price was cached at the start, or is a cached price of the wrapped token of a network with that symbol. */
  ghost predicate Sourced(reqs: seq<Request>, start: Option<real>, price: real)
  {
    price > 0.0 && (start == Some(price) || exists r: nat, n: nat :: IsSource(reqs, r, n, price))
  }

  ghost function SourcedRange(reqs: seq<Request>, start: Option<real>): Range
  {
    (n: nat, cached: Option<real>) => cached.Some? ==> Sourced(reqs, start, cached.value)
  }

  ghost function SourcedRanges(reqs: seq<Request>, start: Option<real>): Ranges
  {
    (r: nat) => SourcedRange(reqs, start)
  }

  /** A globally priced balance gets no price or a sourced one; any other gets the price of its own network's cache. */
  ghost predicate SourcedPrice(reqs: seq<Request>, start: Option<real>, r: nat, w: nat, n: nat, k: nat, price: real)
  {
    r < |reqs| && w < |reqs[r].wallets| && n < |reqs[r].networks| && k < |BalancesOf(reqs[r], w, n)| ==>
      var d, nb := reqs[r].networks[n], BalancesOf(reqs[r], w, n)[k];
      if UsesGlobal(d, nb) then price == 0.0 || Sourced(reqs, start, price)
      else price == PriceOf(reqs[r].prices, d, nb, None).price
  }

  ghost function SourcedRules(reqs: seq<Request>, start: Option<real>): Rules
  {
    (r: nat) => (w: nat, n: nat, k: nat, price: real) => SourcedPrice(reqs, start, r, w, n, k, price)
  }

  lemma SourcedCover(reqs: seq<Request>, start: Option<real>)
    ensures RulesCover(reqs, SourcedRules(reqs, start), SourcedRanges(reqs, start))
  {
    forall r: nat, w: nat, n: nat, k: nat, cached: Option<real>
      | r < |reqs| && w < |reqs[r].wallets| && n < |reqs[r].networks| && k < |BalancesOf(reqs[r], w, n)|
      ensures CoversPrice(reqs[r], SourcedRules(reqs, start)(r), SourcedRange(reqs, start), w, n, k, cached)
    {
      var d, nb := reqs[r].networks[n], BalancesOf(reqs[r], w, n)[k];
      var price := WrappedPrice(reqs[r].prices, d);
      if price.Some? && GloballyPriced(d) {
        assert IsSource(reqs, r, n, price.value);
      }
      hide BalancesOf, WrappedPrice, IsNative, GloballyPriced;
    }
  }

  ghost predicate Traced(reqs: seq<Request>, start: Option<real>, sys: System)
  {
    && SystemInControl(reqs, sys)
    && SystemBooks(reqs, sys, SourcedRules(reqs, start), SourcedRanges(reqs, start))
    && InRange(SourcedRange(reqs, start), Current(sys))
  }

  lemma PublishedIsSourced(reqs: seq<Request>, start: Option<real>, r: nat, rs: RequestState, ev: Event, price: real)
    requires r < |reqs| && Shaped(reqs[r], rs) && Enabled(reqs[r], rs, ev) && Publishes(reqs[r], rs, ev, price)
    ensures Sourced(reqs, start, price)
  {
    hide Outcome, WrappedPrice, IsNative;
    assert IsSource(reqs, r, ev.step.n, price);
  }

  lemma TracedKept(reqs: seq<Request>, start: Option<real>, sys: System, h: Happening)
    requires Traced(reqs, start, sys) && SystemEnabled(reqs, sys, h) && WellNamed(reqs)
    ensures Traced(reqs, start, SystemApply(reqs, sys, h))
  {
    SystemStep(reqs, sys, h);
    SourcedCover(reqs, start);
    hide Apply, ShareAfter, RequestBooks, InControl, Enabled, Sourced, RulesCover, DistinctNames, Publishes;
    SystemBooksKept(reqs, sys, h, SourcedRules(reqs, start), SourcedRanges(reqs, start));
    CurrentAfter(reqs, sys, h);
    if price :| SetsTo(reqs, sys, h, price) {
      PublishedIsSourced(reqs, start, h.r, sys.requests[h.r], h.ev, price);
    }
  }

  lemma {:induction false} RunTraced(reqs: seq<Request>, start: Option<real>, sys: System, history: seq<Happening>)
    requires Traced(reqs, start, sys) && WellNamed(reqs)
    ensures var end := Run(reqs, sys, history); end.Some? ==> Traced(reqs, start, end.value)
    decreases |history|
  {
    if history != [] && SystemEnabled(reqs, sys, history[0]) {
      TracedKept(reqs, start, sys, history[0]);
      hide SystemInControl, SystemBooks, SourcedRules, SourcedRange, SystemEnabled, SystemApply, SystemShaped;
      RunTraced(reqs, start, SystemApply(reqs, sys, history[0]), history[1..]);
    }
  }

  /** The k-th token of network n is a globally priced native one, with this price. */
  predicate ShowsGlobalPrice(req: Request, byNetwork: map<string, NetworkTokens>, n: nat, k: nat, price: real)
  {
    && n < |req.networks| && GloballyPriced(req.networks[n]) && req.networks[n].name in byNetwork
    && var tokens := byNetwork[req.networks[n].name].tokens;
       k < |tokens| && IsNativeAddress(tokens[k].tokenAddress) && tokens[k].priceUSD == price
  }

  /** What the portfolio shows for a globally priced balance is a price its rule allows. */
  lemma ShownPriceAllowed(req: Request, w: nat, ws: WalletState, rule: PriceRule, n: nat, k: nat, price: real)
    requires w < |req.wallets| && |ws.workers| == |req.networks| && Books(req, w, ws, rule) && DistinctNames(req)
    requires ShowsGlobalPrice(req, ws.byNetwork, n, k, price)
    ensures k < |BalancesOf(req, w, n)| && UsesGlobal(req.networks[n], BalancesOf(req, w, n)[k]) && rule(w, n, k, price)
  {
    hide BalancesOf, IsNativeAddress, GloballyPriced, WorkerBooks, ErrorBooks, Values, Worth;
    var name := req.networks[n].name;
    var m: nat :| Listed(req, w, MergedIn(ws), m) && req.networks[m].name == name;
    assert m == n;
    assert DetailOk(req, w, n, k, ws.byNetwork[name].tokens[k], rule);
  }

  /**
   Provenance: in every reachable state of any requests, with any number of wallets,
   the cached global price is positive and is either the one cached at the start or
   the cached price of some network's wrapped token, the network having that symbol;
   and so is every price other than zero a portfolio shows for such a balance.
   */
  lemma GlobalPriceProvenance(reqs: seq<Request>, shared: Shared, history: seq<Happening>)
    requires WellNamed(reqs)
    requires var start := GlobalPriceAt(shared.globalPrices, GLOBALLY_PRICED); start.Some? ==> start.value > 0.0
    ensures var start := GlobalPriceAt(shared.globalPrices, GLOBALLY_PRICED);
      var end := Run(reqs, SystemInitial(reqs, shared), history);
      end.Some? ==>
        && (Current(end.value).Some? ==> Sourced(reqs, start, Current(end.value).value))
        && forall r: nat, w: nat, n: nat, k: nat, price: real ::
             r < |reqs| && w < |reqs[r].wallets|
             && ShowsGlobalPrice(reqs[r], end.value.requests[r].wallets[w].byNetwork, n, k, price) && price != 0.0
             ==> Sourced(reqs, start, price)
  {
    var start := GlobalPriceAt(shared.globalPrices, GLOBALLY_PRICED);
    TracedStart(reqs, shared);
    RunTraced(reqs, start, SystemInitial(reqs, shared), history);
    var end := Run(reqs, SystemInitial(reqs, shared), history);
    hide Run, SystemInitial, Traced, Sourced, ShowsGlobalPrice;
    if end.Some? {
      CurrentSourced(reqs, start, end.value);
      forall r: nat, w: nat, n: nat, k: nat, price: real
        | r < |reqs| && w < |reqs[r].wallets|
          && ShowsGlobalPrice(reqs[r], end.value.requests[r].wallets[w].byNetwork, n, k, price) && price != 0.0
        ensures Sourced(reqs, start, price)
      {
        ShownIsSourced(reqs, start, end.value, r, w, n, k, price);
      }
    }
  }

  lemma TracedStart(reqs: seq<Request>, shared: Shared)
    requires var start := GlobalPriceAt(shared.globalPrices, GLOBALLY_PRICED); start.Some? ==> start.value > 0.0
    ensures Traced(reqs, GlobalPriceAt(shared.globalPrices, GLOBALLY_PRICED), SystemInitial(reqs, shared))
  {
    var start := GlobalPriceAt(shared.globalPrices, GLOBALLY_PRICED);
    SystemInitialInControl(reqs, shared);
    SystemInitialBooks(reqs, shared, SourcedRules(reqs, start), SourcedRanges(reqs, start));
    hide SystemInControl, SystemBooks, IsSource;
  }

  lemma CurrentSourced(reqs: seq<Request>, start: Option<real>, sys: System)
    requires Traced(reqs, start, sys)
    ensures Current(sys).Some? ==> Sourced(reqs, start, Current(sys).value)
  {
    hide SystemInControl, SystemBooks, Sourced, GlobalPriceAt;
    assert SourcedRange(reqs, start)(0, Current(sys));
  }

  lemma ShownIsSourced(reqs: seq<Request>, start: Option<real>, sys: System, r: nat, w: nat, n: nat, k: nat,
                       price: real)
    requires Traced(reqs, start, sys) && WellNamed(reqs) && r < |reqs| && w < |reqs[r].wallets|
    requires ShowsGlobalPrice(reqs[r], sys.requests[r].wallets[w].byNetwork, n, k, price) && price != 0.0
    ensures Sourced(reqs, start, price)
  {
    hide Books, Readings, Sourced, IsNativeAddress, GloballyPriced, BalancesOf, InControl, SourcedRange, DistinctNames;
    OrderOf(reqs[r], sys.requests[r], w, SourcedRules(reqs, start)(r), SourcedRange(reqs, start));
    ShownPriceAllowed(reqs[r], w, sys.requests[r].wallets[w], SourcedRules(reqs, start)(r), n, k, price);
    assert SourcedPrice(reqs, start, r, w, n, k, price);
  }

  // ---- Freezing ------------------------------------------------------------------------------

  /** A worker between Get and TrySet has nothing to publish. */
  predicate Quiet(req: Request, w: nat, n: nat, worker: Worker)
    requires w < |req.wallets| && n < |req.networks|
  {
    worker.Quoted? && |worker.details| < |BalancesOf(req, w, n)| ==> QuoteFor(req, w, n, worker).publish.None?
  }

  ghost predicate WalletQuiet(req: Request, w: nat, ws: WalletState)
    requires w < |req.wallets| && |ws.workers| == |req.networks|
  {
    forall n :: 0 <= n < |ws.workers| ==> Quiet(req, w, n, ws.workers[n])
  }

  ghost predicate NothingPending(reqs: seq<Request>, sys: System)
    requires SystemShaped(reqs, sys)
  {
    forall r, w :: 0 <= r < |reqs| && 0 <= w < |reqs[r].wallets| ==> WalletQuiet(reqs[r], w, sys.requests[r].wallets[w])
  }

  lemma QuietKept(req: Request, w: nat, ws: WalletState, prices: GlobalPrices, step: Step, price: real)
    requires w < |req.wallets| && |ws.workers| == |req.networks| && WalletCan(req, w, ws, step)
    requires WalletQuiet(req, w, ws)
    requires GlobalPriceAt(prices, GLOBALLY_PRICED) == Some(price) && price > 0.0
    ensures var after := WalletAfter(req, w, ws, prices, step);
      |after.workers| == |req.networks| && WalletQuiet(req, w, after)
  {
    var after := WalletAfter(req, w, ws, prices, step);
    forall n | 0 <= n < |ws.workers|
      ensures Quiet(req, w, n, after.workers[n])
    {
      assert Quiet(req, w, n, ws.workers[n]);
      hide Outcome, WrappedPrice, IsNative, GlobalPriceAt, DetailFor;
    }
  }

  lemma QuietStep(reqs: seq<Request>, sys: System, h: Happening, price: real)
    requires SystemShaped(reqs, sys) && SystemEnabled(reqs, sys, h) && NothingPending(reqs, sys)
    requires Current(sys) == Some(price) && price > 0.0
    ensures var after := SystemApply(reqs, sys, h); NothingPending(reqs, after) && Current(after) == Some(price)
  {
    var req, rs, after := reqs[h.r], sys.requests[h.r], SystemApply(reqs, sys, h);
    NothingPublished(reqs, sys, h);
    CurrentAfter(reqs, sys, h);
    hide ShareAfter, GlobalPriceAt;
    if h.ev.Act? {
      QuietKept(req, h.ev.w, rs.wallets[h.ev.w], sys.shared.globalPrices, h.ev.step, price);
      hide WalletCan, WalletAfter, WalletQuiet;
    } else {
      hide Quiet;
    }
  }

  lemma NothingPublished(reqs: seq<Request>, sys: System, h: Happening)
    requires SystemShaped(reqs, sys) && SystemEnabled(reqs, sys, h) && NothingPending(reqs, sys)
    ensures forall price :: !Publishes(reqs[h.r], sys.requests[h.r], h.ev, price)
  {
    if h.ev.Act? {
      assert WalletQuiet(reqs[h.r], h.ev.w, sys.requests[h.r].wallets[h.ev.w]);
      hide Outcome, QuoteFor;
    }
  }

  /**
   Freezing: from any state in which the global price is set and no worker, of any
   request, stands between a Get that found no price and its TrySet, no later step of
   any request changes it.
   */
  lemma {:induction false} GlobalPriceFrozen(reqs: seq<Request>, sys: System, history: seq<Happening>, price: real)
    requires SystemShaped(reqs, sys) && NothingPending(reqs, sys) && Current(sys) == Some(price) && price > 0.0
    ensures var end := Run(reqs, sys, history);
      end.Some? ==> NothingPending(reqs, end.value) && Current(end.value) == Some(price)
    decreases |history|
  {
    if history != [] && SystemEnabled(reqs, sys, history[0]) {
      QuietStep(reqs, sys, history[0], price);
      hide NothingPending, SystemEnabled, Current;
      GlobalPriceFrozen(reqs, SystemApply(reqs, sys, history[0]), history[1..], price);
    }
  }

  // ---- What a TrySet has read ------------------------------------------------------------------

  predicate IsSet(ev: Event)
  {
    ev.Act? && ev.step.Work? && ev.step.action.Set?
  }

  /** The worker at its Set has read what is cached. */
  lemma SetReading(req: Request, rs: RequestState, ev: Event, rule: PriceRule, read: Range)
    requires Shaped(req, rs) && Enabled(req, rs, ev) && IsSet(ev) && RequestBooks(req, rs, rule, read)
    ensures ev.w < |req.wallets| && ev.step.n < |req.networks|
    ensures var worker := rs.wallets[ev.w].workers[ev.step.n];
      && worker.Quoted? && |worker.details| < |BalancesOf(req, ev.w, ev.step.n)|
      && WorkerReading(req, ev.w, ev.step.n, worker, read)
  {
    hide BalancesOf, UsesGlobal, Books;
    OrderOf(req, rs, ev.w, rule, read);
  }
}
