/**
 When the results of a call depend on its schedule: exactly if it starts from an empty
 price cache, two of its workers can be under way together, and two of its globally
 priced networks have different wrapped token prices, one of which may be missing.
 */
module RunDeterminism {
  import opened Wrappers
  import opened Entities
  import opened Sums
  import opened TokenPrices
  import opened PortfolioRun
  import opened WalletControl
  import opened WalletBooks
  import opened RunControl
  import opened RunBooks
  import opened RunConservation
  import opened GlobalPrice
  import opened PriceCoherence
  import opened RunRefinement
  import opened RunSteps
  import opened NetworkDefinitions
  import opened PortfolioService
  import opened ServiceAnswers
  import opened PriceDivergence
  import opened MutexOrder

  // ---- Every run can be finished -----------------------------------------------------------

  ghost predicate HaveSlots(reqs: seq<Request>)
  {
    forall r :: 0 <= r < |reqs| ==> reqs[r].limit > 0
  }

  lemma {:induction false} Completes(reqs: seq<Request>, sys: System) returns (rest: seq<Happening>, end: System)
    requires SystemInControl(reqs, sys) && HaveSlots(reqs)
    ensures SystemShaped(reqs, end) && Run(reqs, sys, rest) == Some(end)
    ensures forall r :: 0 <= r < |reqs| ==> end.requests[r].collected.Some?
    decreases SystemMeasure(reqs, sys)
  {
    hide InControl, SystemMeasure, SystemApply, SystemEnabled, Shaped;
    if r: nat :| r < |reqs| && sys.requests[r].collected.None? {
      SystemNeverStuck(reqs, sys, r);
      var ev :| SystemEnabled(reqs, sys, Happening(r, ev));
      SystemStep(reqs, sys, Happening(r, ev));
      rest, end := Completes(reqs, SystemApply(reqs, sys, Happening(r, ev)));
      rest := [Happening(r, ev)] + rest;
    } else {
      rest, end := [], sys;
    }
  }

  // ---- What is shown stays -------------------------------------------------------------------

  /** Network n is merged, and its first token shows this price. */
  predicate ShownFor(req: Request, n: nat, ws: WalletState, price: real)
  {
    && |ws.workers| == |req.networks| && n < |req.networks| && HasMerged(ws.workers[n])
    && ShowsGlobalPrice(req, ws.byNetwork, n, 0, price)
  }

  lemma StepKeepsShown(req: Request, w: nat, ws: WalletState, prices: GlobalPrices, step: Step, n: nat, price: real)
    requires Control(req, w, ws) && WalletCan(req, w, ws, step) && DistinctNames(req) && ShownFor(req, n, ws, price)
    ensures ShownFor(req, n, WalletAfter(req, w, ws, prices, step), price)
  {
    hide Outcome, IsNativeAddress, GloballyPriced, EntryOf, DetailFor, Read, ErrorsOf, WithinBalances;
    assert step.Spawn? ==> ws.workers[ws.phase.next].Pending?;
  }

  lemma RequestKeepsShown(req: Request, rs: RequestState, prices: GlobalPrices, ev: Event, w: nat, n: nat, price: real)
    requires InControl(req, rs) && Enabled(req, rs, ev) && DistinctNames(req) && w < |req.wallets|
    requires ShownFor(req, n, rs.wallets[w], price)
    ensures w < |Apply(req, rs, prices, ev).wallets| && ShownFor(req, n, Apply(req, rs, prices, ev).wallets[w], price)
  {
    hide WalletAfter, WalletCan, ShowsGlobalPrice, InControl, Control, DistinctNames;
    ShapeOf(req, rs);
    if ev.Act? && ev.w == w {
      InOrder(req, rs, w);
      StepKeepsShown(req, w, rs.wallets[w], prices, ev.step, n, price);
    }
  }

  lemma ShapeOf(req: Request, rs: RequestState)
    requires InControl(req, rs)
    ensures Shaped(req, rs)
  {
  }

  /** Later steps of any request leave it there. */
  lemma {:induction false} StaysShown(reqs: seq<Request>, sys: System, rest: seq<Happening>, r: nat, w: nat, n: nat,
                                      price: real)
    requires SystemInControl(reqs, sys) && r < |reqs| && w < |reqs[r].wallets| && DistinctNames(reqs[r])
    requires ShownFor(reqs[r], n, sys.requests[r].wallets[w], price)
    ensures var end := Run(reqs, sys, rest);
      end.Some? ==>
        w < |end.value.requests[r].wallets| && ShownFor(reqs[r], n, end.value.requests[r].wallets[w], price)
    decreases |rest|
  {
    hide ShownFor, DistinctNames, InControl;
    if rest != [] && SystemEnabled(reqs, sys, rest[0]) {
      var after := SystemApply(reqs, sys, rest[0]);
      SystemStep(reqs, sys, rest[0]);
      if rest[0].r == r {
        RequestKeepsShown(reqs[r], sys.requests[r], sys.shared.globalPrices, rest[0].ev, w, n, price);
      }
      hide SystemMeasure, Shaped, Enabled, Apply, ShareAfter;
      StaysShown(reqs, after, rest[1..], r, w, n, price);
    }
  }

  /** From wherever network n shows a price, a run ends with that price shown. */
  lemma EndsShowing(reqs: seq<Request>, start: System, sys: System, r: nat, w: nat, n: nat, price: real)
    returns (history: seq<Happening>, end: System)
    requires Stands(reqs, start, sys, r, w) && SystemInControl(reqs, start) && HaveSlots(reqs) && WellNamed(reqs)
    requires ShownFor(reqs[r], n, sys.requests[r].wallets[w], price)
    ensures SystemShaped(reqs, end) && Run(reqs, start, history) == Some(end) && end.requests[r].collected.Some?
    ensures w < |end.requests[r].wallets|
    ensures ShowsGlobalPrice(reqs[r], end.requests[r].wallets[w].byNetwork, n, 0, price)
  {
    hide SystemInControl, DistinctNames, Run, SystemShaped, ShowsGlobalPrice;
    var before := HistoryTo(reqs, start, sys);
    RunInControl(reqs, start, before);
    var rest;
    rest, end := Completes(reqs, sys);
    StaysShown(reqs, sys, rest, r, w, n, price);
    RunConcat(reqs, start, before, rest);
    history := before + rest;
  }

  // ---- Serving one balance -----------------------------------------------------------------------

  predicate IsReady(req: Request, w: nat, n: nat, ws: WalletState)
  {
    Fits(req, w, n, ws) && ws.workers[n] == Ready && ws.lock == None
  }

  /** The wallet once its ready worker has shown its balance and given its slot back. */
  function Through(req: Request, w: nat, n: nat, ws: WalletState, cached: Option<real>): WalletState
    requires Fits(req, w, n, ws) && OneNative(req, w, n)
  {
    At(Shown(req, w, n, ws, cached), n, Released, None)
  }

  lemma ThroughShows(req: Request, w: nat, n: nat, ws: WalletState, cached: Option<real>)
    requires Fits(req, w, n, ws) && OneNative(req, w, n)
    ensures ShownFor(req, n, Through(req, w, n, ws, cached), QuoteWith(req, w, n, cached).price)
  {
    hide QuoteWith, EntryOf, Priced, ShowsGlobalPrice, OneNative;
    ServedShows(req, w, n, ws, cached);
  }

  /** The system once the worker is through, with its price published if it had to be. */
  function AllThrough(reqs: seq<Request>, sys: System, r: nat, w: nat, n: nat): System
    requires SystemShaped(reqs, sys) && r < |reqs| && w < |reqs[r].wallets|
    requires IsReady(reqs[r], w, n, sys.requests[r].wallets[w]) && OneNative(reqs[r], w, n) && sys.requests[r].slots > 0
  {
    var ws := Through(reqs[r], w, n, sys.requests[r].wallets[w], Current(sys));
    System(PutWallet(sys, r, w, ws, sys.requests[r].slots - 1).requests,
           Publishing(sys.shared, QuoteWith(reqs[r], w, n, Current(sys)).publish))
  }

  /** The system once the worker has merged its balance. */
  function AllServed(reqs: seq<Request>, sys: System, r: nat, w: nat, n: nat): System
    requires SystemShaped(reqs, sys) && r < |reqs| && w < |reqs[r].wallets|
    requires IsReady(reqs[r], w, n, sys.requests[r].wallets[w]) && OneNative(reqs[r], w, n)
  {
    var ws := Served(reqs[r], w, n, sys.requests[r].wallets[w], Current(sys));
    System(PutWallet(sys, r, w, ws, sys.requests[r].slots).requests,
           Publishing(sys.shared, QuoteWith(reqs[r], w, n, Current(sys)).publish))
  }

  lemma GetsServed(reqs: seq<Request>, start: System, sys: System, r: nat, w: nat, n: nat)
    requires Stands(reqs, start, sys, r, w)
    requires IsReady(reqs[r], w, n, sys.requests[r].wallets[w]) && OneNative(reqs[r], w, n)
    ensures Stands(reqs, start, AllServed(reqs, sys, r, w, n), r, w)
  {
    var req, ws, x, cached := reqs[r], sys.requests[r].wallets[w], sys.requests[r].slots, Current(sys);
    assert ws.workers[n := Ready] == ws.workers;
    hide Reaches, OneNative, Publishing, QuoteWith, GlobalPriceAt, AboutToSet, JustSet, Served, SystemShaped;
    Reads(reqs, start, sys, r, w, n, ws);
    var a := PutWallet(sys, r, w, AboutToSet(ws, n, cached), x);
    Sets(reqs, start, a, r, w, n, ws, cached);
    var b := Published(reqs, a, r, w, n, ws, cached);
    Unlocks(reqs, start, b, r, w, n, ws, cached);
    PutTwice(sys, r, w, AboutToSet(ws, n, cached), x, JustSet(req, w, n, ws, cached), x);
    PutTwice(sys, r, w, JustSet(req, w, n, ws, cached), x, Served(req, w, n, ws, cached), x);
  }

  lemma GoesThrough(reqs: seq<Request>, start: System, sys: System, r: nat, w: nat, n: nat)
    requires Stands(reqs, start, sys, r, w)
    requires IsReady(reqs[r], w, n, sys.requests[r].wallets[w]) && OneNative(reqs[r], w, n) && sys.requests[r].slots > 0
    ensures Stands(reqs, start, AllThrough(reqs, sys, r, w, n), r, w)
  {
    var req, ws, x, cached := reqs[r], sys.requests[r].wallets[w], sys.requests[r].slots, Current(sys);
    GetsServed(reqs, start, sys, r, w, n);
    var c := AllServed(reqs, sys, r, w, n);
    hide Reaches, OneNative, Publishing, QuoteWith, GlobalPriceAt, Shown, SystemShaped, Moves, At;
    Working(req, w, n, c.shared.globalPrices, x, Shown(req, w, n, ws, cached), Merged, None, Release);
    WalletAdvances(reqs, start, c, r, w, Work(n, Release), Through(req, w, n, ws, cached), x - 1);
    PutTwice(sys, r, w, Served(req, w, n, ws, cached), x, Through(req, w, n, ws, cached), x - 1);
  }

  // ---- The same balance, before and after another -----------------------------------------------

  lemma ReadAfterPublishing(shared: Shared, price: real)
    requires price > 0.0
    ensures GlobalPriceAt(Publishing(shared, Some(price)).globalPrices, GLOBALLY_PRICED) == Some(price)
  {
  }

  lemma QuoteByReading(req: Request, w: nat, n: nat, price: real)
    requires w < |req.wallets| && n < |req.networks| && OneNative(req, w, n) && price > 0.0
    ensures QuoteWith(req, w, n, Some(price)).price == price
    ensures WrappedPrice(req.prices, req.networks[n]) != Some(price) ==> QuoteWith(req, w, n, None).price != price
    ensures WrappedPrice(req.prices, req.networks[n]) == Some(price) ==>
      QuoteWith(req, w, n, None).publish == Some(price)
  {
    hide BalancesOf, Answered, IsNative, GloballyPriced, WrappedPrice;
  }

  /** In one of two states network n of wallet w of request r shows price p, in the other it shows q. */
  ghost predicate Apart(reqs: seq<Request>, start: System, r: nat, w: nat, n: nat, p: real, q: real, x: System,
                        y: System)
  {
    && Stands(reqs, start, x, r, w) && Stands(reqs, start, y, r, w) && p != q
    && ShownFor(reqs[r], n, x.requests[r].wallets[w], p) && ShownFor(reqs[r], n, y.requests[r].wallets[w], q)
  }

  /** A launched wallet's first balance is shown, priced by what is cached, and its slot is free again. */
  lemma ArrivesThrough(reqs: seq<Request>, start: System, sys: System, r: nat, w: nat, n: nat)
    returns (ws: WalletState, end: System)
    requires Stands(reqs, start, sys, r, w) && FirstAt(reqs[r], w, n) && sys.requests[r].slots < reqs[r].limit
    requires sys.requests[r].wallets[w] == Clear(reqs[r])
    ensures Stands(reqs, start, end, r, w)
    ensures end.requests == PutWallet(sys, r, w, ws, sys.requests[r].slots).requests
    ensures end.shared == Publishing(sys.shared, QuoteWith(reqs[r], w, n, Current(sys)).publish)
    ensures ShownFor(reqs[r], n, ws, QuoteWith(reqs[r], w, n, Current(sys)).price)
  {
    var req, x := reqs[r], sys.requests[r].slots;
    ArrivesReady(reqs, start, sys, r, w, n);
    var ready := At(Before(req, n), n, Ready, None);
    var there := PutWallet(sys, r, w, ready, x + 1);
    hide Reaches, Clear, Before, OneNative, Publishing, QuoteWith, GlobalPriceAt, ShownFor, Through;
    GoesThrough(reqs, start, there, r, w, n);
    end := AllThrough(reqs, there, r, w, n);
    ws := Through(req, w, n, ready, Current(sys));
    ThroughShows(req, w, n, ready, Current(sys));
    PutTwice(sys, r, w, ready, x + 1, ws, x);
  }

  /** Two networks to disagree about: the first has wrapped price p, the second another or none. */
  predicate Disagree(reqs: seq<Request>, r: nat, m: nat, p: real, s: nat, n: nat)
  {
    && UsesCache(reqs, r, m) && UsesCache(reqs, s, n)
    && WrappedAt(reqs, r, m) == Some(p) && WrappedAt(reqs, s, n) != Some(p)
  }

  /** Two wallets, however few slots: the second's balance is served last, or first. */
  lemma TwoWalletsApart(reqs: seq<Request>, shared: Shared, r: nat, m: nat, p: real, s: nat, n: nat)
    returns (q: real, x: System, y: System)
    requires Disagree(reqs, r, m, p, s, n) && TwoWallets(reqs, r, s) && HaveSlots(reqs)
    requires FirstAt(reqs[r], 0, m) && FirstAt(reqs[s], Second(r, s), n)
    requires GlobalPriceAt(shared.globalPrices, GLOBALLY_PRICED) == None
    ensures Apart(reqs, SystemInitial(reqs, shared), s, Second(r, s), n, p, q, x, y)
  {
    var start, v := SystemInitial(reqs, shared), Second(r, s);
    QuoteByReading(reqs[r], 0, m, p);
    QuoteByReading(reqs[s], v, n, p);
    var launched := LaunchesBoth(reqs, shared, r, s);
    hide Reaches, Clear, QuoteWith, GlobalPriceAt, ShownFor, SystemInitial, WrappedPrice, FirstAt, Publishing, Shaped;
    var a, first := ArrivesThrough(reqs, start, launched, r, 0, m);
    ReadAfterPublishing(shared, p);
    var b, last := ArrivesThrough(reqs, start, first, s, v, n);
    x := last;
    b, y := ArrivesThrough(reqs, start, launched, s, v, n);
    q := QuoteWith(reqs[s], v, n, None).price;
  }

  /** Networks a and b of the first wallet have one native balance each, and no network before b has another. */
  predicate TwoNative(req: Request, a: nat, b: nat)
  {
    && a < b < |req.networks| && FirstAt(req, 0, a) && OneNative(req, 0, b)
    && forall i: nat :: a < i < b ==> Answered(req, 0, i) && BalancesOf(req, 0, i) == []
  }

  /** With two slots the workers of both get ready together. */
  lemma BothReady(reqs: seq<Request>, shared: Shared, r: nat, a: nat, b: nat) returns (sys: System)
    requires r < |reqs| && TwoNative(reqs[r], a, b) && reqs[r].limit > 1
    ensures Stands(reqs, SystemInitial(reqs, shared), sys, r, 0) && sys.shared == shared && sys.requests[r].slots == 2
    ensures IsReady(reqs[r], 0, a, sys.requests[r].wallets[0]) && IsReady(reqs[r], 0, b, sys.requests[r].wallets[0])
  {
    var start := SystemInitial(reqs, shared);
    StartsAtStart(reqs, shared);
    LaunchesNext(reqs, start, start, r);
    hide Reaches, Answered, BalancesOf, GloballyPriced, IsNative, SystemInitial;
    var launched := Launched(reqs, start, r);
    ArrivesReady(reqs, start, launched, r, 0, a);
    var ws := At(Before(reqs[r], a), a, Ready, None);
    var first := PutWallet(launched, r, 0, ws, 1);
    sys := NextReady(reqs, start, first, r, a, b);
  }

  /** With one worker ready, the next one with a balance can get ready too. */
  lemma NextReady(reqs: seq<Request>, start: System, first: System, r: nat, a: nat, b: nat) returns (sys: System)
    requires Stands(reqs, start, first, r, 0) && TwoNative(reqs[r], a, b) && reqs[r].limit > 1
    requires first.requests[r].wallets[0] == At(Before(reqs[r], a), a, Ready, None) && first.requests[r].slots == 1
    ensures Stands(reqs, start, sys, r, 0) && sys.shared == first.shared && sys.requests[r].slots == 2
    ensures IsReady(reqs[r], 0, a, sys.requests[r].wallets[0]) && IsReady(reqs[r], 0, b, sys.requests[r].wallets[0])
  {
    hide Reaches, Answered, BalancesOf, GloballyPriced, IsNative;
    var ws := At(Before(reqs[r], a), a, Ready, None);
    PassesAll(reqs, start, first, r, 0, a + 1, b);
    var passed := PassedTo(ws, a + 1, b);
    var between := PutWallet(first, r, 0, passed, 1);
    Readies(reqs, start, between, r, 0, b);
    sys := PutWallet(between, r, 0, At(passed.(phase := Looping(b + 1)), b, Ready, None), 2);
  }

  /** Two slots of one wallet: network n's balance is served last, or first. */
  lemma TwoSlotsApart(reqs: seq<Request>, shared: Shared, sys: System, r: nat, m: nat, p: real, n: nat)
    returns (q: real, x: System, y: System)
    requires Stands(reqs, SystemInitial(reqs, shared), sys, r, 0) && sys.shared == shared && sys.requests[r].slots == 2
    requires IsReady(reqs[r], 0, m, sys.requests[r].wallets[0]) && IsReady(reqs[r], 0, n, sys.requests[r].wallets[0])
    requires OneNative(reqs[r], 0, m) && OneNative(reqs[r], 0, n) && Disagree(reqs, r, m, p, r, n)
    requires GlobalPriceAt(shared.globalPrices, GLOBALLY_PRICED) == None
    ensures Apart(reqs, SystemInitial(reqs, shared), r, 0, n, p, q, x, y)
  {
    var start, ws := SystemInitial(reqs, shared), sys.requests[r].wallets[0];
    QuoteByReading(reqs[r], 0, m, p);
    QuoteByReading(reqs[r], 0, n, p);
    hide Reaches, QuoteWith, GlobalPriceAt, ShownFor, SystemInitial, WrappedPrice, OneNative, Publishing;
    GoesThrough(reqs, start, sys, r, 0, m);
    var first := AllThrough(reqs, sys, r, 0, m);
    ReadAfterPublishing(shared, p);
    GoesThrough(reqs, start, first, r, 0, n);
    x := AllThrough(reqs, first, r, 0, n);
    ThroughShows(reqs[r], 0, n, first.requests[r].wallets[0], Some(p));
    GoesThrough(reqs, start, sys, r, 0, n);
    y := AllThrough(reqs, sys, r, 0, n);
    ThroughShows(reqs[r], 0, n, ws, None);
    q := QuoteWith(reqs[r], 0, n, None).price;
  }

  // ---- Different results ---------------------------------------------------------------------------

  /** A request that finishes in both of two runs returns the same portfolios and errors, in some order. */
  ghost predicate SameReturns(reqs: seq<Request>, shared: Shared, a: seq<Happening>, b: seq<Happening>)
  {
    var x, y := Run(reqs, SystemInitial(reqs, shared), a), Run(reqs, SystemInitial(reqs, shared), b);
    x.Some? && y.Some? ==> SystemsReturnSame(reqs, x.value, y.value)
  }

  /** A complete portfolio that shows network n is one of a wallet with a balance there. */
  lemma ShowsOwn(req: Request, w: nat, p: WalletPortfolio, n: nat, price: real)
    requires w < |req.wallets| && n < |req.networks| && DistinctNames(req) && Complete(req, w, p)
    ensures ShowsGlobalPrice(req, p.balancesByNetwork, n, 0, price) ==> BalancesOf(req, w, n) != []
  {
    hide BalancesOf, ShowsBalances;
    if ShowsGlobalPrice(req, p.balancesByNetwork, n, 0, price) {
      var m: nat :| HasBalances(req, w, m) && req.networks[m].name == req.networks[n].name;
      assert m == n;
    }
  }

  /** Two lists of portfolios in which wallet w shows different prices for network n are not permutations. */
  lemma NotPermuted(req: Request, s: seq<WalletPortfolio>, t: seq<WalletPortfolio>, w: nat, n: nat, p: real, q: real)
    requires w < |req.wallets| == |s| == |t| && DistinctNames(req) && p != q
    requires forall v: nat :: v < |t| ==> Complete(req, v, t[v])
    requires forall v: nat :: v < |t| && v != w && n < |req.networks| ==> BalancesOf(req, v, n) == []
    requires ShowsGlobalPrice(req, s[w].balancesByNetwork, n, 0, p)
    requires ShowsGlobalPrice(req, t[w].balancesByNetwork, n, 0, q)
    ensures multiset(s) != multiset(t)
  {
    forall v: nat | v < |t|
      ensures t[v] != s[w]
    {
      ShowsOwn(req, v, t[v], n, p);
    }
    assert s[w] !in t;
    assert s[w] in multiset(s);
  }

  lemma ReturnsDiffer(reqs: seq<Request>, shared: Shared, a: seq<Happening>, x: System, b: seq<Happening>, y: System,
                      r: nat, w: nat, n: nat, p: real, q: real)
    requires WellNamed(reqs) && SystemShaped(reqs, x) && SystemShaped(reqs, y)
    requires r < |reqs| && w < |reqs[r].wallets| && p != q
    requires Run(reqs, SystemInitial(reqs, shared), a) == Some(x) && x.requests[r].collected.Some?
    requires Run(reqs, SystemInitial(reqs, shared), b) == Some(y) && y.requests[r].collected.Some?
    requires ShowsGlobalPrice(reqs[r], x.requests[r].wallets[w].byNetwork, n, 0, p)
    requires ShowsGlobalPrice(reqs[r], y.requests[r].wallets[w].byNetwork, n, 0, q)
    requires NoOther(reqs[r], w, n)
    ensures !SameReturns(reqs, shared, a, b)
  {
    hide DistinctNames, Run, SystemInitial, ShowsGlobalPrice, BalancesOf, Complete, Conserves, SumBag;
    ValueConserved(reqs, shared, a, r);
    ValueConserved(reqs, shared, b, r);
    NotPermuted(reqs[r], Portfolios(reqs[r], x.requests[r]), Portfolios(reqs[r], y.requests[r]), w, n, p, q);
    assert !ReturnsSame(reqs[r], x.requests[r], y.requests[r]);
  }

  /** No wallet but w has a balance on network n. */
  ghost predicate NoOther(req: Request, w: nat, n: nat)
  {
    forall v: nat :: v < |req.wallets| && v != w && n < |req.networks| ==> BalancesOf(req, v, n) == []
  }

  /** From states in which the price shown differs, both runs finish with it. */
  lemma ApartReturns(reqs: seq<Request>, shared: Shared, r: nat, w: nat, n: nat, p: real, q: real, x: System, y: System)
    returns (a: seq<Happening>, b: seq<Happening>)
    requires Apart(reqs, SystemInitial(reqs, shared), r, w, n, p, q, x, y) && HaveSlots(reqs) && WellNamed(reqs)
    requires NoOther(reqs[r], w, n)
    ensures !SameReturns(reqs, shared, a, b)
  {
    hide SameReturns, ShownFor, Reaches, NoOther, WellNamed, Run, SystemInitial, SystemShaped, ShowsGlobalPrice,
         HaveSlots;
    SystemInitialInControl(reqs, shared);
    hide SystemInControl;
    var start := SystemInitial(reqs, shared);
    var end, end';
    a, end := EndsShowing(reqs, start, x, r, w, n, p);
    b, end' := EndsShowing(reqs, start, y, r, w, n, q);
    ReturnsDiffer(reqs, shared, a, end, b, end', r, w, n, p, q);
  }

  // ---- Exactly when results depend on the schedule -----------------------------------------------------

  /** Two networks that disagree and whose workers can run in either order: not those of a lone wallet with one slot. */
  predicate Contested(reqs: seq<Request>, r: nat, m: nat, p: real, s: nat, n: nat)
  {
    Disagree(reqs, r, m, p, s, n) && (r == s ==> !Alone(reqs[r]))
  }

  ghost predicate NoContest(reqs: seq<Request>)
  {
    forall r: nat, m: nat, p: real, s: nat, n: nat :: !Contested(reqs, r, m, p, s, n)
  }

  lemma AlikeContests(reqs: seq<Request>, reqs': seq<Request>)
    requires Alike(reqs, reqs')
    ensures NoContest(reqs) ==> NoContest(reqs')
    ensures WellNamed(reqs) ==> WellNamed(reqs')
    ensures HaveSlots(reqs) ==> HaveSlots(reqs')
  {
    hide WrappedPrice, GloballyPriced;
    forall r: nat, m: nat, p: real, s: nat, n: nat
      ensures Contested(reqs', r, m, p, s, n) ==> Contested(reqs, r, m, p, s, n)
    {
      assert r < |reqs| ==> SameCall(reqs[r], reqs'[r]);
      assert s < |reqs| ==> SameCall(reqs[s], reqs'[s]);
    }
    assert forall r :: 0 <= r < |reqs| ==> SameCall(reqs[r], reqs'[r]);
    if WellNamed(reqs) {
      assert forall r :: 0 <= r < |reqs| ==> DistinctNames(reqs[r]);
    }
  }

  /** No other wallet of the request of the second place has a balance on its network. */
  lemma NoOtherThere(reqs: seq<Request>, a: Place, s: nat, w: nat, n: nat)
    requires s < |reqs| && OnlyAt(reqs, a, Place(s, w, n)) && (a.r == s && a.n == n ==> a.w == w)
    ensures NoOther(reqs[s], w, n)
  {
    hide BalancesOf, Answered;
    forall v: nat | v < |reqs[s].wallets| && v != w && n < |reqs[s].networks|
      ensures BalancesOf(reqs[s], v, n) == []
    {
      assert Place(s, v, n) != a && Place(s, v, n) != Place(s, w, n);
      assert Yields(reqs[s], v, n, false);
    }
  }

  /** Two wallets on disagreeing networks can be priced in either order. */
  lemma WalletsDisagree(reqs: seq<Request>, shared: Shared, r: nat, m: nat, p: real, s: nat, n: nat)
    returns (a: seq<Happening>, b: seq<Happening>)
    requires Disagree(reqs, r, m, p, s, n) && TwoWallets(reqs, r, s) && WellNamed(reqs) && HaveSlots(reqs)
    requires OnlyAt(reqs, Place(r, 0, m), Place(s, Second(r, s), n))
    requires GlobalPriceAt(shared.globalPrices, GLOBALLY_PRICED) == None
    ensures !SameReturns(reqs, shared, a, b)
  {
    var c, d := Place(r, 0, m), Place(s, Second(r, s), n);
    hide GlobalPriceAt, FirstAt, SameReturns, NoOther, Apart, WellNamed, HaveSlots, OnlyAt, GloballyPriced,
         WrappedPrice;
    FirstOnlyAt(reqs, c, d, c);
    FirstOnlyAt(reqs, c, d, d);
    NoOtherThere(reqs, c, s, Second(r, s), n);
    hide Disagree;
    var q, x, y := TwoWalletsApart(reqs, shared, r, m, p, s, n);
    a, b := ApartReturns(reqs, shared, s, Second(r, s), n, p, q, x, y);
  }

  lemma TwoNativeAt(reqs: seq<Request>, r: nat, m: nat, n: nat)
    requires UsesCache(reqs, r, m) && UsesCache(reqs, r, n) && m != n
    requires OnlyAt(reqs, Place(r, 0, m), Place(r, 0, n))
    ensures TwoNative(reqs[r], if m < n then m else n, if m < n then n else m)
  {
    var c, d := Place(r, 0, m), Place(r, 0, n);
    var a, b := if m < n then m else n, if m < n then n else m;
    hide GloballyPriced, OneNative, Answered, BalancesOf;
    NativeAt(reqs, c, d, c);
    NativeAt(reqs, c, d, d);
    forall i: nat | i < b && i != a
      ensures Answered(reqs[r], 0, i) && BalancesOf(reqs[r], 0, i) == []
    {
      assert Place(r, 0, i) != c && Place(r, 0, i) != d;
      assert Yields(reqs[r], 0, i, false);
    }
  }

  /** So can two networks of one wallet with two slots. */
  lemma SlotsDisagree(reqs: seq<Request>, shared: Shared, r: nat, m: nat, p: real, n: nat)
    returns (a: seq<Happening>, b: seq<Happening>)
    requires Disagree(reqs, r, m, p, r, n) && reqs[r].limit > 1 && WellNamed(reqs) && HaveSlots(reqs)
    requires OnlyAt(reqs, Place(r, 0, m), Place(r, 0, n))
    requires GlobalPriceAt(shared.globalPrices, GLOBALLY_PRICED) == None
    ensures !SameReturns(reqs, shared, a, b)
  {
    TwoNativeAt(reqs, r, m, n);
    NoOtherThere(reqs, Place(r, 0, m), r, 0, n);
    hide Disagree, GlobalPriceAt, SameReturns, NoOther, BalancesOf, Answered, Apart, IsReady, WellNamed, HaveSlots,
         OnlyAt, GloballyPriced, IsNative;
    var sys := BothReady(reqs, shared, r, if m < n then m else n, if m < n then n else m);
    var q, x, y := TwoSlotsApart(reqs, shared, sys, r, m, p, n);
    a, b := ApartReturns(reqs, shared, r, 0, n, p, q, x, y);
  }

  /** The wallet that is to be priced second: another one, if there is one. */
  function Other(reqs: seq<Request>, r: nat, s: nat): nat
  {
    if TwoWallets(reqs, r, s) then Second(r, s) else 0
  }

  lemma ContestDiffers(reqs: seq<Request>, shared: Shared, r: nat, m: nat, p: real, s: nat, n: nat)
    returns (a: seq<Happening>, b: seq<Happening>)
    requires Contested(reqs, r, m, p, s, n) && WellNamed(reqs) && HaveSlots(reqs)
    requires OnlyAt(reqs, Place(r, 0, m), Place(s, Other(reqs, r, s), n))
    requires GlobalPriceAt(shared.globalPrices, GLOBALLY_PRICED) == None
    ensures !SameReturns(reqs, shared, a, b)
  {
    hide WellNamed, GlobalPriceAt, SameReturns, WrappedPrice, GloballyPriced, OnlyAt;
    if TwoWallets(reqs, r, s) {
      a, b := WalletsDisagree(reqs, shared, r, m, p, s, n);
    } else {
      a, b := SlotsDisagree(reqs, shared, r, m, p, n);
    }
  }

  lemma AlikeContested(reqs: seq<Request>, reqs': seq<Request>, r: nat, m: nat, p: real, s: nat, n: nat)
    requires Alike(reqs, reqs') && Contested(reqs, r, m, p, s, n)
    ensures Contested(reqs', r, m, p, s, n) && Other(reqs', r, s) == Other(reqs, r, s)
  {
    hide WrappedPrice, GloballyPriced;
    assert SameCall(reqs[r], reqs'[r]) && SameCall(reqs[s], reqs'[s]);
  }

  /** Contested calls have node replies and two schedules under which they return different things. */
  lemma ContestCanDiffer(reqs: seq<Request>, calls: seq<Call>, shared: Shared)
    returns (answers: seq<Answers>, a: seq<Happening>, b: seq<Happening>)
    requires !NoContest(reqs) && WellNamed(reqs) && HaveSlots(reqs)
    requires AllStarted(calls) && Alike(reqs, Unanswered(calls))
    requires GlobalPriceAt(shared.globalPrices, GLOBALLY_PRICED) == None
    ensures |answers| == |calls| && !SameReturns(AskedAll(calls, answers), shared, a, b)
  {
    hide Contested, SameReturns, GlobalPriceAt, Asked, AllStarted, WellNamed, HaveSlots, Other;
    var r: nat, m: nat, p: real, s: nat, n: nat :| Contested(reqs, r, m, p, s, n);
    var c, d := Place(r, 0, m), Place(s, Other(reqs, r, s), n);
    answers := SparingAll(calls, c, d);
    AskedAlike(calls, answers);
    AlikeOn(reqs, Unanswered(calls), AskedAll(calls, answers));
    SparingOnlyAt(calls, c, d);
    AlikeContested(reqs, AskedAll(calls, answers), r, m, p, s, n);
    AlikeContests(reqs, AskedAll(calls, answers));
    hide *;
    a, b := ContestDiffers(AskedAll(calls, answers), shared, r, m, p, s, n);
  }

  lemma AlikeOn(a: seq<Request>, b: seq<Request>, c: seq<Request>)
    requires Alike(a, b) && Alike(b, c)
    ensures Alike(a, c)
  {
    forall r | 0 <= r < |a|
      ensures SameCall(a[r], c[r])
    {
      assert SameCall(a[r], b[r]) && SameCall(b[r], c[r]);
    }
  }

  lemma SettledSame(reqs: seq<Request>, shared: Shared, current: Option<real>, a: seq<Happening>, b: seq<Happening>)
    requires Settled(reqs, GlobalPriceAt(shared.globalPrices, GLOBALLY_PRICED), current) && WellNamed(reqs)
    ensures SameReturns(reqs, shared, a, b)
  {
    hide Settled, WellNamed, Run, SystemInitial, SeqPortfolios, SeqErrors, SumBag, GlobalPriceAt;
    forall r: nat | r < |reqs|
      ensures var x, y := Run(reqs, SystemInitial(reqs, shared), a), Run(reqs, SystemInitial(reqs, shared), b);
        x.Some? && y.Some? ==> ReturnsSame(reqs[r], x.value.requests[r], y.value.requests[r])
    {
      EveryScheduleRefines(reqs, shared, a, r, current);
      EveryScheduleRefines(reqs, shared, b, r, current);
    }
  }

  /** Without a contest either one lone wallet alone uses the shared price, or one price settles it. */
  lemma UncontestedIsSettled(reqs: seq<Request>)
    requires NoContest(reqs)
    ensures (exists r: nat :: OnlyUser(reqs, r)) || exists current :: Settled(reqs, None, current)
  {
    hide GloballyPriced, WrappedPrice;
    if r: nat, m: nat, p: real, s: nat, n: nat :| Disagree(reqs, r, m, p, s, n) {
      assert !Contested(reqs, r, m, p, s, n);
      forall t: nat, l: nat | UsesCache(reqs, t, l)
        ensures t == r
      {
        assert !Contested(reqs, r, m, p, t, l) && !Contested(reqs, t, l, p, r, n);
      }
      assert Alone(reqs[r]);
      assert OnlyUser(reqs, r);
    } else if r: nat, m: nat :| UsesCache(reqs, r, m) && WrappedAt(reqs, r, m).Some? {
      var p := WrappedAt(reqs, r, m).value;
      forall s: nat, n: nat | UsesCache(reqs, s, n)
        ensures WrappedAt(reqs, s, n) == Some(p)
      {
        assert !Disagree(reqs, r, m, p, s, n);
      }
      assert Settled(reqs, None, Some(p));
    } else {
      assert Settled(reqs, None, None);
    }
  }

  lemma UncontestedSame(reqs: seq<Request>, shared: Shared, a: seq<Happening>, b: seq<Happening>)
    requires WellNamed(reqs) && Positively(GlobalPriceAt(shared.globalPrices, GLOBALLY_PRICED))
    requires GlobalPriceAt(shared.globalPrices, GLOBALLY_PRICED).Some? || NoContest(reqs)
    ensures SameReturns(reqs, shared, a, b)
  {
    var start := GlobalPriceAt(shared.globalPrices, GLOBALLY_PRICED);
    assert start.Some? ==> Settled(reqs, start, start);
    hide WellNamed, OnlyUser, Settled, NoContest, GlobalPriceAt, Run, SystemInitial, SystemsReturnSame;
    if start.Some? {
      SettledSame(reqs, shared, start, a, b);
    } else {
      UncontestedIsSettled(reqs);
      if r: nat :| OnlyUser(reqs, r) {
        OneSlotOneResult(reqs, r, shared, a, b);
      } else {
        var current :| Settled(reqs, None, current);
        SettledSame(reqs, shared, current, a, b);
      }
    }
  }

  /**
   Determinism, exactly: whatever clients and nodes answer and whatever amounts are
   worth, in any two runs every request that finishes in both returns the same
   portfolios and the same errors, if and only if the global price is set at the start,
   or no two networks that use it disagree on the wrapped token price, except within
   one lone wallet that has one slot.
   */
  lemma DeterministicIff(reqs: seq<Request>, shared: Shared)
    requires WellNamed(reqs) && HaveSlots(reqs) && Positively(GlobalPriceAt(shared.globalPrices, GLOBALLY_PRICED))
    ensures GlobalPriceAt(shared.globalPrices, GLOBALLY_PRICED).Some? || NoContest(reqs)
      <==> forall reqs', a, b :: Alike(reqs, reqs') ==> SameReturns(reqs', shared, a, b)
  {
    hide WellNamed, HaveSlots, Alike, Contested, SameReturns, GlobalPriceAt;
    if GlobalPriceAt(shared.globalPrices, GLOBALLY_PRICED).Some? || NoContest(reqs) {
      hide NoContest;
      forall reqs', a, b | Alike(reqs, reqs')
        ensures SameReturns(reqs', shared, a, b)
      {
        AlikeContests(reqs, reqs');
        UncontestedSame(reqs', shared, a, b);
      }
    } else {
      LikeUnanswered(reqs);
      var answers, a, b := ContestCanDiffer(reqs, CallsLike(reqs), shared);
      LikeAsked(reqs, answers);
    }
  }

  /**
   Determinism of the service's own calls, exactly: for whatever Prepare returns, every
   client and node outcome and every two schedules, with the amounts valued as the
   service values them.
   */
  lemma ServiceDeterministicIff(calls: seq<Call>, shared: Shared)
    requires AllPrepared(calls) && Positively(GlobalPriceAt(shared.globalPrices, GLOBALLY_PRICED))
    ensures AllStarted(calls)
    ensures GlobalPriceAt(shared.globalPrices, GLOBALLY_PRICED).Some? || NoContest(Unanswered(calls))
      <==> forall answers, a, b :: |answers| == |calls| ==> SameReturns(AskedAll(calls, answers), shared, a, b)
  {
    PreparedNamed(calls);
    PreparedSlots(calls);
    hide NoContest, SameReturns, WellNamed, HaveSlots, Alike, AllPrepared, AllStarted, AskedAll, Unanswered;
    if GlobalPriceAt(shared.globalPrices, GLOBALLY_PRICED).Some? || NoContest(Unanswered(calls)) {
      forall answers, a, b | |answers| == |calls|
        ensures SameReturns(AskedAll(calls, answers), shared, a, b)
      {
        AskedAlike(calls, answers);
        AlikeContests(Unanswered(calls), AskedAll(calls, answers));
        UncontestedSame(AskedAll(calls, answers), shared, a, b);
      }
    } else {
      AlikeItself(Unanswered(calls));
      var answers, a, b := ContestCanDiffer(Unanswered(calls), calls, shared);
    }
  }

  lemma PreparedSlots(calls: seq<Call>)
    requires AllPrepared(calls)
    ensures AllStarted(calls) && HaveSlots(Unanswered(calls))
  {
    PreparedNamed(calls);
    hide AllPrepared, WellNamed;
  }

  // ---- One call --------------------------------------------------------------------------------------------

  /** All globally priced networks have the same wrapped token price, or all have none. */
  predicate OneWrappedPrice(req: Request)
  {
    forall m, n :: 0 <= m < |req.networks| && 0 <= n < |req.networks|
                   && GloballyPriced(req.networks[m]) && GloballyPriced(req.networks[n]) ==>
      WrappedPrice(req.prices, req.networks[m]) == WrappedPrice(req.prices, req.networks[n])
  }

  lemma ContestOfOne(req: Request)
    ensures NoContest([req]) <==> |req.wallets| == 0 || Alone(req) || OneWrappedPrice(req)
  {
    hide GloballyPriced, WrappedPrice;
    if |req.wallets| > 0 && !Alone(req) && !OneWrappedPrice(req) {
      var i: nat, j: nat :|
        i < |req.networks| && j < |req.networks| && GloballyPriced(req.networks[i]) && GloballyPriced(req.networks[j])
        && WrappedPrice(req.prices, req.networks[i]) != WrappedPrice(req.prices, req.networks[j]);
      var m, n := if WrappedAt([req], 0, i).Some? then i else j, if WrappedAt([req], 0, i).Some? then j else i;
      assert Contested([req], 0, m, WrappedAt([req], 0, m).value, 0, n);
    }
  }

  /**
   For one call from an empty cache: deterministic if and only if it has no wallet, or
   one wallet and one slot, or one price for all wrapped tokens of its globally priced
   networks.
   */
  lemma OneRequestDeterministicIff(req: Request, shared: Shared)
    requires DistinctNames(req) && req.limit > 0 && GlobalPriceAt(shared.globalPrices, GLOBALLY_PRICED) == None
    ensures |req.wallets| == 0 || Alone(req) || OneWrappedPrice(req)
      <==> forall reqs', a, b :: Alike([req], reqs') ==> SameReturns(reqs', shared, a, b)
  {
    ContestOfOne(req);
    hide DistinctNames, NoContest, Alone, OneWrappedPrice, Alike, SameReturns, GlobalPriceAt;
    DeterministicIff([req], shared);
  }

  /** One wallet on Ethereum and Arbitrum with two slots. */
  const ONE_WALLET := Call(Prepared([FIRST_WALLET], [ETHEREUM, ARBITRUM], map[]), 2, TWO_CHAINS.prices)

  /** It is shown one price of ether, but which one depends on the schedule. */
  lemma OneWalletTwoResults(shared: Shared) returns (answers: Answers, a: seq<Happening>, b: seq<Happening>)
    requires GlobalPriceAt(shared.globalPrices, GLOBALLY_PRICED) == None
    ensures IsPrepared(ONE_WALLET)
    ensures var reqs := [Asked(ONE_WALLET, answers)];
      && !SameReturns(reqs, shared, a, b)
      && forall history :: ShowsOnePrice(reqs, shared, history)
  {
    TwoFiles(ONE_WALLET);
    answers := Sparing(0, Place(0, 0, 0), Place(0, 0, 1));
    var req := Asked(ONE_WALLET, answers);
    SparingOne(ONE_WALLET, Place(0, 0, 0), Place(0, 0, 1));
    ChainsDisagree(req);
    hide *;
    a, b := SlotsDisagree([req], shared, 0, 0, 3000.0, 1);
    OneWalletOnePrice(req, shared);
  }

  lemma ChainsDisagree(req: Request)
    requires req.networks == [ETHEREUM, ARBITRUM] && req.prices == TWO_CHAINS.prices && |req.wallets| > 0
    requires req.limit > 0
    ensures Disagree([req], 0, 0, 3000.0, 0, 1) && WellNamed([req]) && HaveSlots([req]) && DistinctNames(req)
  {
    TwoSources(req);
    hide WrappedPrice, GloballyPriced;
  }

  lemma OneWalletOnePrice(req: Request, shared: Shared)
    requires DistinctNames(req) && |req.wallets| == 1 && GlobalPriceAt(shared.globalPrices, GLOBALLY_PRICED) == None
    ensures forall history :: ShowsOnePrice([req], shared, history)
  {
    AlikeItself([req]);
    hide DistinctNames, ShowsOnePrice, GlobalPriceAt, Alike, SourcesAgree;
    OneRequestOnePriceIff(req, shared);
  }
}
