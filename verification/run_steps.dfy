/**
 Building runs: what a state can reach, and the steps of one wallet while everything
 else rests.
 */
module RunSteps {
  import opened Wrappers
  import opened Entities
  import opened TokenPrices
  import opened PortfolioRun
  import opened GlobalPrice

  // ---- Runs that reach a state -----------------------------------------------------------

  ghost predicate Reaches(reqs: seq<Request>, sys: System, end: System)
    requires SystemShaped(reqs, sys)
  {
    exists history :: Run(reqs, sys, history) == Some(end)
  }

  lemma {:induction false} RunConcat(reqs: seq<Request>, sys: System, a: seq<Happening>, b: seq<Happening>)
    requires SystemShaped(reqs, sys) && Run(reqs, sys, a).Some?
    ensures Run(reqs, sys, a + b) == Run(reqs, Run(reqs, sys, a).value, b)
    decreases |a|
  {
    hide SystemApply, SystemEnabled, SystemShaped;
    if a == [] {
      assert a + b == b;
    } else {
      RunConcat(reqs, SystemApply(reqs, sys, a[0]), a[1..], b);
      assert (a + b)[1..] == a[1..] + b && (a + b)[0] == a[0];
    }
  }

  lemma ReachesOn(reqs: seq<Request>, sys: System, middle: System, end: System)
    requires SystemShaped(reqs, sys) && SystemShaped(reqs, middle) && Reaches(reqs, sys, middle)
    requires Reaches(reqs, middle, end)
    ensures Reaches(reqs, sys, end)
  {
    var a :| Run(reqs, sys, a) == Some(middle);
    var b :| Run(reqs, middle, b) == Some(end);
    RunConcat(reqs, sys, a, b);
  }

  lemma ReachesNext(reqs: seq<Request>, sys: System, h: Happening)
    requires SystemShaped(reqs, sys) && SystemEnabled(reqs, sys, h)
    ensures Reaches(reqs, sys, SystemApply(reqs, sys, h))
  {
    hide SystemApply, SystemEnabled;
    assert [h][1..] == [];
    assert Run(reqs, SystemApply(reqs, sys, h), []) == Some(SystemApply(reqs, sys, h));
    assert Run(reqs, sys, [h]) == Some(SystemApply(reqs, sys, h));
  }

  lemma NothingShared(req: Request, rs: RequestState, shared: Shared, ev: Event)
    requires Shaped(req, rs) && Enabled(req, rs, ev) && !(ev.Act? && ev.step.Mark?)
    requires forall price :: !Publishes(req, rs, ev, price)
    ensures ShareAfter(req, rs, shared, ev) == shared
  {
    hide Outcome, QuoteFor;
    if IsSet(ev) {
      var publish := QuoteFor(req, ev.w, ev.step.n, rs.wallets[ev.w].workers[ev.step.n]).publish;
      var price := if publish.Some? then publish.value else 0.0;
      assert !Publishes(req, rs, ev, price);
    }
  }

  // ---- One wallet moves --------------------------------------------------------------------

  function PutWallet(sys: System, r: nat, w: nat, ws: WalletState, slots: nat): System
    requires r < |sys.requests| && w < |sys.requests[r].wallets|
  {
    var rs := sys.requests[r];
    sys.(requests := sys.requests[r := rs.(wallets := rs.wallets[w := ws], slots := slots)])
  }

  /** A wallet's step between two slot counts that sends, marks, reports and publishes nothing. */
  ghost predicate Moves(req: Request, w: nat, prices: GlobalPrices, ws: WalletState, slots: nat, step: Step,
                        after: WalletState, slots': nat)
  {
    && w < |req.wallets| && |ws.workers| == |req.networks| == |after.workers|
    && WalletCan(req, w, ws, step) && WalletAfter(req, w, ws, prices, step) == after
    && !step.Send? && !step.Mark? && !step.Report?
    && (if step.Acquire? then slots < req.limit && slots' == slots + 1
        else if IsRelease(step) then slots > 0 && slots' == slots - 1
        else slots' == slots)
    && (step.Work? && step.action.Set? ==> QuoteFor(req, w, step.n, ws.workers[step.n]).publish.None?)
  }

  lemma WalletAdvances(reqs: seq<Request>, start: System, sys: System, r: nat, w: nat, step: Step, after: WalletState,
                       slots: nat)
    requires SystemShaped(reqs, start) && SystemShaped(reqs, sys) && Reaches(reqs, start, sys)
    requires r < |reqs| && w < |sys.requests[r].wallets|
    requires Moves(reqs[r], w, sys.shared.globalPrices, sys.requests[r].wallets[w],
                   sys.requests[r].slots, step, after, slots)
    ensures var next := PutWallet(sys, r, w, after, slots); SystemShaped(reqs, next) && Reaches(reqs, start, next)
  {
    var h := Happening(r, Act(w, step));
    var next := PutWallet(sys, r, w, after, slots);
    assert SystemEnabled(reqs, sys, h) && SystemApply(reqs, sys, h) == next by {
      hide WalletCan, WalletAfter, Outcome, ShareAfter;
      NothingPublished(reqs[r], sys.requests[r], w, step);
      NothingShared(reqs[r], sys.requests[r], sys.shared, Act(w, step));
    }
    hide Moves, SystemEnabled, SystemApply, Reaches, PutWallet;
    ReachesNext(reqs, sys, h);
    ReachesOn(reqs, start, sys, next);
  }

  lemma NothingPublished(req: Request, rs: RequestState, w: nat, step: Step)
    requires Shaped(req, rs) && Enabled(req, rs, Act(w, step))
    requires step.Work? && step.action.Set? ==> QuoteFor(req, w, step.n, rs.wallets[w].workers[step.n]).publish.None?
    ensures forall price :: !Publishes(req, rs, Act(w, step), price)
  {
  }

  /** A sequence of such steps. */
  lemma {:induction false} Chain(reqs: seq<Request>, start: System, sys: System, r: nat, w: nat, prices: GlobalPrices,
                                 steps: seq<Step>, states: seq<WalletState>, slots: seq<nat>)
    requires SystemShaped(reqs, start) && SystemShaped(reqs, sys) && Reaches(reqs, start, sys)
    requires r < |reqs| && w < |sys.requests[r].wallets| && sys.shared.globalPrices == prices
    requires |states| == |slots| == |steps| + 1
    requires states[0] == sys.requests[r].wallets[w] && slots[0] == sys.requests[r].slots
    requires forall i :: 0 <= i < |steps| ==>
               Moves(reqs[r], w, prices, states[i], slots[i], steps[i], states[i + 1], slots[i + 1])
    ensures var end := PutWallet(sys, r, w, states[|steps|], slots[|steps|]);
      SystemShaped(reqs, end) && Reaches(reqs, start, end)
    decreases |steps|
  {
    hide Moves, Reaches;
    if steps == [] {
      PutBack(sys, r, w);
    } else {
      WalletAdvances(reqs, start, sys, r, w, steps[0], states[1], slots[1]);
      var next := PutWallet(sys, r, w, states[1], slots[1]);
      Chain(reqs, start, next, r, w, prices, steps[1..], states[1..], slots[1..]);
      PutTwice(sys, r, w, states[1], slots[1], states[|steps|], slots[|steps|]);
    }
  }

  lemma PutBack(sys: System, r: nat, w: nat)
    requires r < |sys.requests| && w < |sys.requests[r].wallets|
    ensures PutWallet(sys, r, w, sys.requests[r].wallets[w], sys.requests[r].slots) == sys
  {
    assert sys.requests[r].wallets[w := sys.requests[r].wallets[w]] == sys.requests[r].wallets;
    assert sys.requests[r := sys.requests[r]] == sys.requests;
  }

  lemma PutTwice(sys: System, r: nat, w: nat, a: WalletState, x: nat, b: WalletState, y: nat)
    requires r < |sys.requests| && w < |sys.requests[r].wallets|
    ensures PutWallet(PutWallet(sys, r, w, a, x), r, w, b, y) == PutWallet(sys, r, w, b, y)
  {
    var wallets := sys.requests[r].wallets;
    assert wallets[w := a][w := b] == wallets[w := b];
    assert PutWallet(PutWallet(sys, r, w, a, x), r, w, b, y).requests == PutWallet(sys, r, w, b, y).requests;
  }

  // ---- A worker of its own -------------------------------------------------------------------

  /** The wallet with the worker of network n and the mutex like this. */
  function At(ws: WalletState, n: nat, worker: Worker, lock: Option<nat>): WalletState
    requires n < |ws.workers|
  {
    ws.(workers := ws.workers[n := worker], lock := lock)
  }

  lemma AtTwice(ws: WalletState, n: nat, a: Worker, x: Option<nat>, b: Worker, y: Option<nat>)
    requires n < |ws.workers|
    ensures At(At(ws, n, a, x), n, b, y) == At(ws, n, b, y) && At(ws, n, a, x).workers[n] == a
  {
    assert ws.workers[n := a][n := b] == ws.workers[n := b];
  }

  predicate Fits(req: Request, w: nat, n: nat, ws: WalletState)
  {
    w < |req.wallets| && n < |req.networks| && |ws.workers| == |req.networks|
  }

  /** At the top of the loop, about to spawn network n's worker, with the mutex free. */
  predicate AtTop(req: Request, w: nat, n: nat, ws: WalletState)
  {
    Fits(req, w, n, ws) && ws.phase == Looping(n) && ws.workers[n] == Pending && ws.lock == None
  }

  lemma Spawning(req: Request, w: nat, n: nat, prices: GlobalPrices, slots: nat, ws: WalletState)
    requires AtTop(req, w, n, ws) && slots < req.limit
    ensures Moves(req, w, prices, ws, slots, Acquire, ws.(phase := Acquired(n)), slots + 1)
    ensures Moves(req, w, prices, ws.(phase := Acquired(n)), slots + 1, Spawn,
                  At(ws.(phase := Looping(n + 1)), n, Spawned, None), slots + 1)
  {
    hide Outcome, QuoteFor;
  }

  /** A worker's step that leaves the mutex and the portfolio alone. */
  lemma Working(req: Request, w: nat, n: nat, prices: GlobalPrices, slots: nat, ws: WalletState, worker: Worker,
                lock: Option<nat>, action: Action)
    requires Fits(req, w, n, ws) && WorkerCan(req, w, n, worker, lock, action)
    requires !action.Lock? && !action.Unlock? && !action.Set? && (action.Release? ==> slots > 0)
    ensures Moves(req, w, prices, At(ws, n, worker, lock), slots, Work(n, action),
                  At(ws, n, WorkerAfter(req, w, n, worker, prices, lock, action), lock),
                  if action.Release? then slots - 1 else slots)
  {
    AtTwice(ws, n, worker, lock, WorkerAfter(req, w, n, worker, prices, lock, action), lock);
    hide WorkerCan, WorkerAfter, QuoteFor;
  }

  /** The client connects and the network yields no error. */
  predicate Answered(req: Request, w: nat, n: nat)
    requires w < |req.wallets| && n < |req.networks|
  {
    req.connect(w, n) == None && ErrorsOf(req, w, n) == []
  }

  lemma Locking(req: Request, w: nat, n: nat, prices: GlobalPrices, slots: nat, ws: WalletState)
    requires Fits(req, w, n, ws) && Answered(req, w, n)
    ensures Moves(req, w, prices, At(ws, n, Ready, None), slots, Work(n, Lock),
                  At(ws, n, Pricing([], 0.0), Some(n)), slots)
  {
    AtTwice(ws, n, Ready, None, Pricing([], 0.0), Some(n));
    assert ws.errors + ErrorsOf(req, w, n) == ws.errors;
    hide ErrorsOf, QuoteFor;
  }

  lemma UnlockingEmpty(req: Request, w: nat, n: nat, prices: GlobalPrices, slots: nat, ws: WalletState)
    requires Fits(req, w, n, ws) && BalancesOf(req, w, n) == []
    ensures Moves(req, w, prices, At(ws, n, Pricing([], 0.0), Some(n)), slots, Work(n, Unlock),
                  At(ws, n, Merged, None), slots)
  {
    AtTwice(ws, n, Pricing([], 0.0), Some(n), Merged, None);
    hide BalancesOf, QuoteFor;
  }

  /** The wallet's place in a system, and that it is where we think it is. */
  ghost predicate Stands(reqs: seq<Request>, start: System, sys: System, r: nat, w: nat)
  {
    && SystemShaped(reqs, start) && SystemShaped(reqs, sys) && Reaches(reqs, start, sys)
    && r < |reqs| && w < |reqs[r].wallets|
  }

  /** The next worker is spawned and fetches. */
  lemma Readies(reqs: seq<Request>, start: System, sys: System, r: nat, w: nat, n: nat)
    requires Stands(reqs, start, sys, r, w) && AtTop(reqs[r], w, n, sys.requests[r].wallets[w])
    requires sys.requests[r].slots < reqs[r].limit && Answered(reqs[r], w, n)
    ensures var ws, x := sys.requests[r].wallets[w], sys.requests[r].slots;
      Stands(reqs, start, PutWallet(sys, r, w, At(ws.(phase := Looping(n + 1)), n, Ready, None), x + 1), r, w)
  {
    var req, ws, x, prices := reqs[r], sys.requests[r].wallets[w], sys.requests[r].slots, sys.shared.globalPrices;
    var next := ws.(phase := Looping(n + 1));
    Spawning(req, w, n, prices, x, ws);
    Working(req, w, n, prices, x + 1, next, Spawned, None, Connect);
    Working(req, w, n, prices, x + 1, next, Connected, None, Fetch);
    hide AtTop, Moves, Answered, Reaches, At, SystemShaped;
    Chain(reqs, start, sys, r, w, prices, [Acquire, Spawn, Work(n, Connect), Work(n, Fetch)],
          [ws, ws.(phase := Acquired(n)), At(next, n, Spawned, None), At(next, n, Connected, None),
           At(next, n, Ready, None)],
          [x, x + 1, x + 1, x + 1, x + 1]);
  }

  /** A network without balances is passed. */
  lemma Passes(reqs: seq<Request>, start: System, sys: System, r: nat, w: nat, n: nat)
    requires Stands(reqs, start, sys, r, w) && AtTop(reqs[r], w, n, sys.requests[r].wallets[w])
    requires sys.requests[r].slots < reqs[r].limit && Answered(reqs[r], w, n) && BalancesOf(reqs[r], w, n) == []
    ensures var ws, x := sys.requests[r].wallets[w], sys.requests[r].slots;
      Stands(reqs, start, PutWallet(sys, r, w, At(ws.(phase := Looping(n + 1)), n, Finished, None), x), r, w)
  {
    var req, ws, x, prices := reqs[r], sys.requests[r].wallets[w], sys.requests[r].slots, sys.shared.globalPrices;
    var next := ws.(phase := Looping(n + 1));
    Readies(reqs, start, sys, r, w, n);
    var ready := PutWallet(sys, r, w, At(next, n, Ready, None), x + 1);
    Locking(req, w, n, prices, x + 1, next);
    UnlockingEmpty(req, w, n, prices, x + 1, next);
    Working(req, w, n, prices, x + 1, next, Merged, None, Release);
    Working(req, w, n, prices, x, next, Released, None, Leave);
    PutTwice(sys, r, w, At(next, n, Ready, None), x + 1, At(next, n, Finished, None), x);
    hide AtTop, Moves, Answered, Reaches, At, SystemShaped, BalancesOf;
    Chain(reqs, start, ready, r, w, prices, [Work(n, Lock), Work(n, Unlock), Work(n, Release), Work(n, Leave)],
          [At(next, n, Ready, None), At(next, n, Pricing([], 0.0), Some(n)), At(next, n, Merged, None),
           At(next, n, Released, None), At(next, n, Finished, None)],
          [x + 1, x + 1, x + 1, x, x]);
  }

  /** Workers from n up to m have finished, and the others are as before. */
  function FinishedFrom(workers: seq<Worker>, n: nat, m: nat): seq<Worker>
  {
    seq(|workers|, k requires 0 <= k < |workers| => if n <= k < m then Finished else workers[k])
  }

  function PassedTo(ws: WalletState, n: nat, m: nat): WalletState
  {
    ws.(phase := Looping(m), workers := FinishedFrom(ws.workers, n, m))
  }

  lemma {:induction false} PassesAll(reqs: seq<Request>, start: System, sys: System, r: nat, w: nat, n: nat, m: nat)
    requires Stands(reqs, start, sys, r, w) && n <= m <= |reqs[r].networks| && sys.requests[r].slots < reqs[r].limit
    requires sys.requests[r].wallets[w].phase == Looping(n) && sys.requests[r].wallets[w].lock == None
    requires forall k :: n <= k < m ==> sys.requests[r].wallets[w].workers[k] == Pending
    requires forall i: nat :: n <= i < m ==> Answered(reqs[r], w, i) && BalancesOf(reqs[r], w, i) == []
    ensures var ws := sys.requests[r].wallets[w];
      Stands(reqs, start, PutWallet(sys, r, w, PassedTo(ws, n, m), sys.requests[r].slots), r, w)
    decreases m - n
  {
    hide Answered, BalancesOf, Reaches;
    var ws, x := sys.requests[r].wallets[w], sys.requests[r].slots;
    if n == m {
      PutBack(sys, r, w);
      assert FinishedFrom(ws.workers, n, n) == ws.workers;
    } else {
      Passes(reqs, start, sys, r, w, n);
      var passed := At(ws.(phase := Looping(n + 1)), n, Finished, None);
      PassesAll(reqs, start, PutWallet(sys, r, w, passed, x), r, w, n + 1, m);
      assert FinishedFrom(passed.workers, n + 1, m) == FinishedFrom(ws.workers, n, m);
      PutTwice(sys, r, w, passed, x, PassedTo(ws, n, m), x);
    }
  }

  // ---- One native balance ------------------------------------------------------------------------

  /** The network is globally priced and yields one balance, a native one. */
  predicate OneNative(req: Request, w: nat, n: nat)
    requires w < |req.wallets| && n < |req.networks|
  {
    && GloballyPriced(req.networks[n]) && Answered(req, w, n)
    && |BalancesOf(req, w, n)| == 1 && IsNative(BalancesOf(req, w, n)[0])
  }

  function QuoteWith(req: Request, w: nat, n: nat, cached: Option<real>): Quote
    requires w < |req.wallets| && n < |req.networks| && OneNative(req, w, n)
  {
    PriceOf(req.prices, req.networks[n], BalancesOf(req, w, n)[0], cached)
  }

  /** Between Get and TrySet, with this read. */
  function AboutToSet(ws: WalletState, n: nat, cached: Option<real>): WalletState
    requires n < |ws.workers|
  {
    At(ws, n, Quoted([], 0.0, cached), Some(n))
  }

  lemma Getting(req: Request, w: nat, n: nat, prices: GlobalPrices, slots: nat, ws: WalletState)
    requires Fits(req, w, n, ws) && OneNative(req, w, n)
    ensures Moves(req, w, prices, At(ws, n, Pricing([], 0.0), Some(n)), slots, Work(n, Get),
                  AboutToSet(ws, n, GlobalPriceAt(prices, GLOBALLY_PRICED)), slots)
  {
    hide Outcome, IsNative, GloballyPriced;
    Working(req, w, n, prices, slots, ws, Pricing([], 0.0), Some(n), Get);
    hide Moves, At;
  }

  /** A ready worker, with the mutex free, locks it and reads the cache. */
  lemma Reads(reqs: seq<Request>, start: System, sys: System, r: nat, w: nat, n: nat, ws: WalletState)
    requires Stands(reqs, start, sys, r, w) && Fits(reqs[r], w, n, ws) && OneNative(reqs[r], w, n)
    requires sys.requests[r].wallets[w] == At(ws, n, Ready, None)
    ensures Stands(reqs, start, PutWallet(sys, r, w, AboutToSet(ws, n, Current(sys)), sys.requests[r].slots), r, w)
  {
    var req, x, prices := reqs[r], sys.requests[r].slots, sys.shared.globalPrices;
    Locking(req, w, n, prices, x, ws);
    Getting(req, w, n, prices, x, ws);
    hide Moves, Reaches, At, SystemShaped, AboutToSet, OneNative;
    Chain(reqs, start, sys, r, w, prices, [Work(n, Lock), Work(n, Get)],
          [At(ws, n, Ready, None), At(ws, n, Pricing([], 0.0), Some(n)), AboutToSet(ws, n, Current(sys))], [x, x, x]);
  }

  function Priced(req: Request, w: nat, n: nat, cached: Option<real>): TokenDetail
    requires w < |req.wallets| && n < |req.networks| && OneNative(req, w, n)
  {
    Detail(req, BalancesOf(req, w, n)[0], QuoteWith(req, w, n, cached).price)
  }

  function JustSet(req: Request, w: nat, n: nat, ws: WalletState, cached: Option<real>): WalletState
    requires Fits(req, w, n, ws) && OneNative(req, w, n)
  {
    var detail := Priced(req, w, n, cached);
    At(ws, n, Pricing([detail], 0.0 + detail.valueUSD), Some(n))
  }

  function Publishing(shared: Shared, publish: Option<real>): Shared
  {
    match publish
    case None => shared
    case Some(price) => shared.(globalPrices := WithGlobalPrice(shared.globalPrices, GLOBALLY_PRICED, price))
  }

  /** The system once the worker has made its TrySet. */
  function Published(reqs: seq<Request>, sys: System, r: nat, w: nat, n: nat, ws: WalletState, cached: Option<real>)
    : System
    requires SystemShaped(reqs, sys) && r < |reqs| && Fits(reqs[r], w, n, ws) && OneNative(reqs[r], w, n)
  {
    System(PutWallet(sys, r, w, JustSet(reqs[r], w, n, ws, cached), sys.requests[r].slots).requests,
           Publishing(sys.shared, QuoteWith(reqs[r], w, n, cached).publish))
  }

  lemma Setting(req: Request, rs: RequestState, shared: Shared, w: nat, n: nat, ws: WalletState, cached: Option<real>)
    requires Shaped(req, rs) && Fits(req, w, n, ws) && OneNative(req, w, n)
    requires rs.wallets[w] == AboutToSet(ws, n, cached)
    ensures var ev := Act(w, Work(n, Set));
      && Enabled(req, rs, ev)
      && Apply(req, rs, shared.globalPrices, ev) == rs.(wallets := rs.wallets[w := JustSet(req, w, n, ws, cached)])
      && ShareAfter(req, rs, shared, ev) == Publishing(shared, QuoteWith(req, w, n, cached).publish)
  {
    var detail := Priced(req, w, n, cached);
    AtTwice(ws, n, Quoted([], 0.0, cached), Some(n), Pricing([detail], 0.0 + detail.valueUSD), Some(n));
    assert [] + [detail] == [detail];
    hide Outcome, PriceOf, IsNative, GloballyPriced, Worth;
  }

  /** It prices its balance by what it has read, and publishes what follows from that. */
  lemma Sets(reqs: seq<Request>, start: System, sys: System, r: nat, w: nat, n: nat, ws: WalletState,
             cached: Option<real>)
    requires Stands(reqs, start, sys, r, w) && Fits(reqs[r], w, n, ws) && OneNative(reqs[r], w, n)
    requires sys.requests[r].wallets[w] == AboutToSet(ws, n, cached)
    ensures Stands(reqs, start, Published(reqs, sys, r, w, n, ws, cached), r, w)
  {
    var h := Happening(r, Act(w, Work(n, Set)));
    Setting(reqs[r], sys.requests[r], sys.shared, w, n, ws, cached);
    hide Enabled, Apply, ShareAfter, OneNative, JustSet, QuoteWith, AboutToSet, Publishing;
    assert SystemApply(reqs, sys, h) == Published(reqs, sys, r, w, n, ws, cached);
    ReachesNext(reqs, sys, h);
    hide SystemApply, SystemEnabled, Reaches;
    ReachesOn(reqs, start, sys, Published(reqs, sys, r, w, n, ws, cached));
  }

  /** The wallet with the balance shown. */
  function Shown(req: Request, w: nat, n: nat, ws: WalletState, cached: Option<real>): WalletState
    requires Fits(req, w, n, ws) && OneNative(req, w, n)
  {
    var d, detail := req.networks[n], Priced(req, w, n, cached);
    ws.(byNetwork := ws.byNetwork[d.name := EntryOf(d, [detail], 0.0 + detail.valueUSD)],
        total := ws.total + (0.0 + detail.valueUSD))
  }

  /** And with the worker out of the mutex. */
  function Served(req: Request, w: nat, n: nat, ws: WalletState, cached: Option<real>): WalletState
    requires Fits(req, w, n, ws) && OneNative(req, w, n)
  {
    At(Shown(req, w, n, ws, cached), n, Merged, None)
  }

  lemma Showing(req: Request, w: nat, n: nat, prices: GlobalPrices, slots: nat, ws: WalletState, cached: Option<real>)
    requires Fits(req, w, n, ws) && OneNative(req, w, n)
    ensures Moves(req, w, prices, JustSet(req, w, n, ws, cached), slots, Work(n, Unlock),
                  Served(req, w, n, ws, cached), slots)
  {
    var detail := Priced(req, w, n, cached);
    AtTwice(ws, n, Pricing([detail], 0.0 + detail.valueUSD), Some(n), Merged, None);
    hide Outcome, IsNative, GloballyPriced, Priced, EntryOf, QuoteFor;
  }

  /** It then shows the balance and leaves the mutex. */
  lemma Unlocks(reqs: seq<Request>, start: System, sys: System, r: nat, w: nat, n: nat, ws: WalletState,
                cached: Option<real>)
    requires Stands(reqs, start, sys, r, w) && Fits(reqs[r], w, n, ws) && OneNative(reqs[r], w, n)
    requires sys.requests[r].wallets[w] == JustSet(reqs[r], w, n, ws, cached)
    ensures Stands(reqs, start, PutWallet(sys, r, w, Served(reqs[r], w, n, ws, cached), sys.requests[r].slots), r, w)
  {
    Showing(reqs[r], w, n, sys.shared.globalPrices, sys.requests[r].slots, ws, cached);
    hide Moves, Reaches, Served, JustSet, OneNative;
    WalletAdvances(reqs, start, sys, r, w, Work(n, Unlock), Served(reqs[r], w, n, ws, cached), sys.requests[r].slots);
  }

  lemma ServedShows(req: Request, w: nat, n: nat, ws: WalletState, cached: Option<real>)
    requires Fits(req, w, n, ws) && OneNative(req, w, n)
    ensures ShowsGlobalPrice(req, Served(req, w, n, ws, cached).byNetwork, n, 0, QuoteWith(req, w, n, cached).price)
  {
    hide Outcome, PriceOf, GloballyPriced, IsNativeAddress, Worth;
  }

  // ---- Launching ---------------------------------------------------------------------------------

  /** A wallet at the top of its loop that has done nothing yet. */
  function Clear(req: Request): WalletState
  {
    FreshWallet(req).(phase := Looping(0))
  }

  function Launched(reqs: seq<Request>, sys: System, r: nat): System
    requires SystemShaped(reqs, sys) && r < |reqs| && sys.requests[r].launched < |reqs[r].wallets|
  {
    var rs := sys.requests[r];
    sys.(requests := sys.requests[r :=
      rs.(launched := rs.launched + 1, wallets := rs.wallets[rs.launched := Clear(reqs[r])])])
  }

  lemma LaunchesNext(reqs: seq<Request>, start: System, sys: System, r: nat)
    requires SystemShaped(reqs, start) && SystemShaped(reqs, sys) && Reaches(reqs, start, sys)
    requires r < |reqs| && sys.requests[r].launched < |reqs[r].wallets|
    requires sys.requests[r].wallets[sys.requests[r].launched] == FreshWallet(reqs[r])
    ensures var after := Launched(reqs, sys, r); SystemShaped(reqs, after) && Reaches(reqs, start, after)
  {
    var h := Happening(r, Launch);
    hide FreshWallet;
    assert SystemApply(reqs, sys, h) == Launched(reqs, sys, r);
    ReachesNext(reqs, sys, h);
    hide SystemApply, SystemEnabled, Reaches, Launched;
    ReachesOn(reqs, start, sys, Launched(reqs, sys, r));
  }

  lemma StartsAtStart(reqs: seq<Request>, shared: Shared)
    ensures Reaches(reqs, SystemInitial(reqs, shared), SystemInitial(reqs, shared))
  {
    assert Run(reqs, SystemInitial(reqs, shared), []) == Some(SystemInitial(reqs, shared));
  }

  // ---- Answers that leave one or two balances ---------------------------------------------------------

  datatype Place = Place(r: nat, w: nat, n: nat)

  /** The client connects, and there is one balance, a native one, or none. */
  predicate Yields(req: Request, w: nat, n: nat, some: bool)
    requires w < |req.wallets| && n < |req.networks|
  {
    && Answered(req, w, n)
    && if some then |BalancesOf(req, w, n)| == 1 && IsNative(BalancesOf(req, w, n)[0]) else BalancesOf(req, w, n) == []
  }

  /** The only balances are native ones at two places. */
  ghost predicate OnlyAt(reqs: seq<Request>, a: Place, b: Place)
  {
    forall r: nat, w: nat, n: nat :: r < |reqs| && w < |reqs[r].wallets| && n < |reqs[r].networks| ==>
      Yields(reqs[r], w, n, Place(r, w, n) == a || Place(r, w, n) == b)
  }

  lemma NativeAt(reqs: seq<Request>, a: Place, b: Place, c: Place)
    requires OnlyAt(reqs, a, b) && (c == a || c == b)
    requires c.r < |reqs| && c.w < |reqs[c.r].wallets| && c.n < |reqs[c.r].networks|
    requires GloballyPriced(reqs[c.r].networks[c.n])
    ensures OneNative(reqs[c.r], c.w, c.n)
  {
    hide GloballyPriced, BalancesOf, Answered;
  }

  /** The same calls: same wallets, networks, limits and cached prices, whatever is answered. */
  ghost predicate Alike(reqs: seq<Request>, reqs': seq<Request>)
  {
    && |reqs'| == |reqs|
    && forall r :: 0 <= r < |reqs| ==> SameCall(reqs[r], reqs'[r])
  }

  predicate SameCall(req: Request, req': Request)
  {
    && req'.wallets == req.wallets && req'.networks == req.networks
    && req'.limit == req.limit && req'.prices == req.prices
  }
}
