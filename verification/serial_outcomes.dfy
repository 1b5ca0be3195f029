/**
 What a request of one wallet that alone uses the shared price can return, exactly: its
 sequential portfolios over the orders of its networks that the slots allow.
 */
module SerialOutcomes {
  import opened Wrappers
  import opened Entities
  import opened TokenPrices
  import opened PortfolioRun
  import opened WalletControl
  import opened WalletBooks
  import opened RunControl
  import opened RunBooks
  import opened RunRefinement
  import opened RunSteps
  import opened MutexOrder

  // ---- Runs with a given order -----------------------------------------------------------

  lemma {:induction false} OrderConcat(r: nat, a: seq<Happening>, b: seq<Happening>)
    ensures LockOrder(r, a + b) == LockOrder(r, a) + LockOrder(r, b)
  {
    hide OrderAfterEvent;
    if a == [] {
      assert a + b == b;
    } else {
      OrderConcat(r, a[1..], b);
      assert (a + b)[0] == a[0] && (a + b)[1..] == a[1..] + b;
    }
  }

  /** A run leads there in which the networks of request r have taken the mutex in this order. */
  ghost predicate Drives(reqs: seq<Request>, start: System, r: nat, order: seq<nat>, sys: System)
    requires SystemShaped(reqs, start)
  {
    exists history :: Run(reqs, start, history) == Some(sys) && LockOrder(r, history) == order
  }

  lemma DrivesOn(reqs: seq<Request>, start: System, r: nat, order: seq<nat>, sys: System, ev: Event)
    requires SystemShaped(reqs, start) && SystemShaped(reqs, sys) && Drives(reqs, start, r, order, sys)
    requires SystemEnabled(reqs, sys, Happening(r, ev))
    ensures Drives(reqs, start, r, OrderAfterEvent(order, ev), SystemApply(reqs, sys, Happening(r, ev)))
  {
    var h := Happening(r, ev);
    var history :| Run(reqs, start, history) == Some(sys) && LockOrder(r, history) == order;
    hide SystemApply, SystemEnabled, SystemShaped;
    assert [h][1..] == [];
    assert Run(reqs, SystemApply(reqs, sys, h), []) == Some(SystemApply(reqs, sys, h));
    assert Run(reqs, sys, [h]) == Some(SystemApply(reqs, sys, h));
    hide LockOrder, OrderAfterEvent;
    RunConcat(reqs, start, history, [h]);
    OneMore(r, history, ev);
  }

  lemma OneMore(r: nat, history: seq<Happening>, ev: Event)
    ensures LockOrder(r, history + [Happening(r, ev)]) == OrderAfterEvent(LockOrder(r, history), ev)
  {
    var h := Happening(r, ev);
    OrderConcat(r, history, [h]);
    TakenLast(LockOrder(r, history), ev);
    assert [h][1..] == [];
    assert LockOrder(r, [h]) == OrderAfterEvent([], ev) + [] == OrderAfterEvent([], ev);
  }

  /** Request r has one wallet, this one, and has taken so many slots. */
  ghost predicate Stage(reqs: seq<Request>, start: System, r: nat, order: seq<nat>, sys: System, ws: WalletState,
                        slots: nat)
  {
    && SystemShaped(reqs, start) && SystemInControl(reqs, sys) && Drives(reqs, start, r, order, sys)
    && r < |reqs| && |reqs[r].wallets| == 1
    && sys.requests[r].wallets == [ws] && sys.requests[r].slots == slots
  }

  function SlotsAfter(slots: nat, step: Step): int
  {
    if step.Acquire? then slots + 1 else if IsRelease(step) then slots - 1 else slots
  }

  /** One step of the wallet. */
  lemma Advance(reqs: seq<Request>, start: System, r: nat, order: seq<nat>, sys: System, ws: WalletState, slots: nat,
                step: Step)
    returns (after: System, moved: WalletState)
    requires Stage(reqs, start, r, order, sys, ws, slots) && |ws.workers| == |reqs[r].networks|
    requires WalletCan(reqs[r], 0, ws, step) && (step.Acquire? ==> slots < reqs[r].limit)
    ensures moved == WalletAfter(reqs[r], 0, ws, sys.shared.globalPrices, step) && SlotsAfter(slots, step) >= 0
    ensures Stage(reqs, start, r, OrderAfter(order, step), after, moved, SlotsAfter(slots, step))
  {
    var h := Happening(r, Act(0, step));
    var req, rs := reqs[r], sys.requests[r];
    moved := WalletAfter(req, 0, ws, sys.shared.globalPrices, step);
    hide Drives, InControl, WalletCan, WalletAfter, OrderAfter, ShareAfter, SystemMeasure;
    NeverBlocked(req, rs, 0, step);
    assert SystemEnabled(reqs, sys, h);
    after := SystemApply(reqs, sys, h);
    assert after.requests[r].wallets == [moved] && after.requests[r].slots == SlotsAfter(slots, step);
    hide Enabled, Apply;
    SystemStep(reqs, sys, h);
    DrivesOn(reqs, start, r, order, sys, Act(0, step));
  }

  lemma StageShape(reqs: seq<Request>, start: System, r: nat, order: seq<nat>, sys: System, ws: WalletState, slots: nat)
    requires Stage(reqs, start, r, order, sys, ws, slots)
    ensures r < |reqs| && |reqs[r].wallets| == 1 && Control(reqs[r], 0, ws) && |ws.workers| == |reqs[r].networks|
  {
    hide Drives;
    InOrder(reqs[r], sys.requests[r], 0);
  }

  // ---- A worker from the mutex to its end ---------------------------------------------------

  function NextAction(req: Request, n: nat, worker: Worker): Action
    requires |req.wallets| > 0 && n < |req.networks|
  {
    match worker
    case Pricing(details, _) => if |details| < |BalancesOf(req, 0, n)| then Get else Unlock
    case Quoted(_, _, _) => Set
    case Merged => Release
    case _ => Leave
  }

  /** What its next step changes: the worker, and the mutex when it unlocks. */
  lemma NextEffect(req: Request, ws: WalletState, prices: GlobalPrices, n: nat)
    requires Control(req, 0, ws) && n < |ws.workers| && !ws.workers[n].Finished?
    requires InCritical(ws.workers[n]) || HasMerged(ws.workers[n])
    ensures var step := Work(n, NextAction(req, n, ws.workers[n]));
      && WalletCan(req, 0, ws, step)
      && var after := WalletAfter(req, 0, ws, prices, step);
         && after.phase == ws.phase && n < |after.workers| && after.workers == ws.workers[n := after.workers[n]]
         && (InCritical(after.workers[n]) || HasMerged(after.workers[n]))
         && (if InCritical(after.workers[n]) then after.lock == ws.lock == Some(n)
             else after.lock == if InCritical(ws.workers[n]) then None else ws.lock)
         && (InCritical(after.workers[n]) ==> InCritical(ws.workers[n]))
         && WorkerRank(req, 0, n, after.workers[n]) < WorkerRank(req, 0, n, ws.workers[n])
         && (forall order :: OrderAfter(order, step) == order) && !step.Acquire?
         && (forall slots: nat :: SlotsAfter(slots, step) - Holds(after.workers[n]) == slots - Holds(ws.workers[n]))
  {
    var action := NextAction(req, n, ws.workers[n]);
    assert WithinBalances(req, 0, n, ws.workers[n]);
    hide Outcome, DetailFor, Read, EntryOf;
    WorkerRankDrops(req, 0, n, ws.workers[n], prices, ws.lock, action);
  }

  /** A worker that has taken the mutex can go on to its end while nothing else moves. */
  lemma {:induction false} GoesOn(reqs: seq<Request>, start: System, r: nat, order: seq<nat>, sys: System,
                                  ws: WalletState, slots: nat, n: nat)
    returns (after: System, moved: WalletState, left: nat)
    requires Stage(reqs, start, r, order, sys, ws, slots) && n < |ws.workers| == |reqs[r].networks|
    requires InCritical(ws.workers[n]) || HasMerged(ws.workers[n])
    ensures Stage(reqs, start, r, order, after, moved, left) && left == slots - Holds(ws.workers[n])
    ensures moved.phase == ws.phase && moved.workers == ws.workers[n := Finished]
    ensures moved.lock == if InCritical(ws.workers[n]) then None else ws.lock
    decreases WorkerRank(reqs[r], 0, n, ws.workers[n])
  {
    hide Stage, WorkerRank, OrderAfter, SlotsAfter, NextAction, WalletCan, WalletAfter;
    if ws.workers[n].Finished? {
      after, moved, left := sys, ws, slots;
      assert ws.workers[n := Finished] == ws.workers;
    } else {
      var next, there;
      StageShape(reqs, start, r, order, sys, ws, slots);
      NextEffect(reqs[r], ws, sys.shared.globalPrices, n);
      next, there := Advance(reqs, start, r, order, sys, ws, slots, Work(n, NextAction(reqs[r], n, ws.workers[n])));
      var step := Work(n, NextAction(reqs[r], n, ws.workers[n]));
      assert OrderAfter(order, step) == order;
      after, moved, left := GoesOn(reqs, start, r, order, next, there, SlotsAfter(slots, step), n);
      assert ws.workers[n := there.workers[n]][n := Finished] == ws.workers[n := Finished];
    }
  }

  /** A worker that has fetched, or has no client, and waits for the mutex. */
  predicate Parked(worker: Worker)
  {
    worker.Ready? || worker.Rejected?
  }

  lemma LockEffect(req: Request, ws: WalletState, prices: GlobalPrices, n: nat)
    requires |req.wallets| > 0 && |ws.workers| == |req.networks| && n < |ws.workers|
    requires Parked(ws.workers[n]) && ws.lock.None?
    ensures WalletCan(req, 0, ws, Work(n, Lock))
    ensures var after := WalletAfter(req, 0, ws, prices, Work(n, Lock));
      after.phase == ws.phase && after.workers == ws.workers[n := Pricing([], 0.0)] && after.lock == Some(n)
  {
    hide Outcome;
  }

  /** A parked worker takes the mutex when it is free, and goes on to its end. */
  lemma ServesNext(reqs: seq<Request>, start: System, r: nat, order: seq<nat>, sys: System, ws: WalletState, slots: nat,
                   n: nat)
    returns (after: System, moved: WalletState, left: nat)
    requires Stage(reqs, start, r, order, sys, ws, slots) && n < |ws.workers| == |reqs[r].networks|
    requires Parked(ws.workers[n]) && ws.lock.None?
    ensures Stage(reqs, start, r, order + [n], after, moved, left) && left == slots - 1
    ensures moved.phase == ws.phase && moved.workers == ws.workers[n := Finished] && moved.lock.None?
  {
    hide Stage, WalletCan, WalletAfter;
    StageShape(reqs, start, r, order, sys, ws, slots);
    LockEffect(reqs[r], ws, sys.shared.globalPrices, n);
    var next, there := Advance(reqs, start, r, order, sys, ws, slots, Work(n, Lock));
    after, moved, left := GoesOn(reqs, start, r, order + [n], next, there, slots, n);
    assert ws.workers[n := Pricing([], 0.0)][n := Finished] == ws.workers[n := Finished];
  }

  // ---- Spawning ---------------------------------------------------------------------------------

  /** At the top of the loop for this network, whose worker is not spawned. */
  predicate LoopingAt(req: Request, ws: WalletState, next: nat)
  {
    && |req.wallets| > 0 && |ws.workers| == |req.networks| && next < |req.networks| && ws.phase == Looping(next)
  }

  function Spawning(ws: WalletState, next: nat, worker: Worker): WalletState
    requires next < |ws.workers|
  {
    ws.(phase := Looping(next + 1), workers := ws.workers[next := worker])
  }

  lemma SpawnEffect(req: Request, ws: WalletState, prices: GlobalPrices, next: nat)
    requires LoopingAt(req, ws, next)
    ensures WalletCan(req, 0, ws, Acquire)
    ensures var acquired := WalletAfter(req, 0, ws, prices, Acquire);
      && acquired == ws.(phase := Acquired(next))
      && WalletCan(req, 0, acquired, Spawn)
      && forall after :: WalletAfter(req, 0, acquired, after, Spawn) == Spawning(ws, next, Spawned)
  {
  }

  /** The client is obtained, or is not. */
  function AfterConnect(req: Request, next: nat): Worker
  {
    if req.connect(0, next).Some? then Rejected else Connected
  }

  lemma ConnectEffect(req: Request, ws: WalletState, prices: GlobalPrices, next: nat)
    requires |req.wallets| > 0 && |ws.workers| == |req.networks| && next < |ws.workers|
    ensures WalletCan(req, 0, Spawning(ws, next, Spawned), Work(next, Connect))
    ensures WalletAfter(req, 0, Spawning(ws, next, Spawned), prices, Work(next, Connect))
         == Spawning(ws, next, AfterConnect(req, next))
    ensures WalletCan(req, 0, Spawning(ws, next, Connected), Work(next, Fetch))
    ensures WalletAfter(req, 0, Spawning(ws, next, Connected), prices, Work(next, Fetch)) == Spawning(ws, next, Ready)
  {
    hide Outcome;
    assert ws.workers[next := Spawned][next := AfterConnect(req, next)] == ws.workers[next := AfterConnect(req, next)];
    assert ws.workers[next := Connected][next := Ready] == ws.workers[next := Ready];
  }

  /** With a slot free the next worker is spawned and gets as far as the mutex. */
  lemma SpawnsNext(reqs: seq<Request>, start: System, r: nat, order: seq<nat>, sys: System, ws: WalletState, slots: nat,
                   next: nat)
    returns (after: System, worker: Worker)
    requires Stage(reqs, start, r, order, sys, ws, slots) && slots < reqs[r].limit && LoopingAt(reqs[r], ws, next)
    ensures next < |ws.workers| && Parked(worker)
    ensures Stage(reqs, start, r, order, after, Spawning(ws, next, worker), slots + 1)
  {
    hide Stage, WalletCan, WalletAfter, Spawning;
    StageShape(reqs, start, r, order, sys, ws, slots);
    var req, s, w := reqs[r], sys, ws;
    SpawnEffect(req, ws, s.shared.globalPrices, next);
    s, w := Advance(reqs, start, r, order, s, w, slots, Acquire);
    s, w := Advance(reqs, start, r, order, s, w, slots + 1, Spawn);
    SpawningShape(ws, next, Spawned);
    ConnectEffect(req, ws, s.shared.globalPrices, next);
    s, w := Advance(reqs, start, r, order, s, w, slots + 1, Work(next, Connect));
    if w == Spawning(ws, next, Connected) {
      SpawningShape(ws, next, Connected);
      ConnectEffect(req, ws, s.shared.globalPrices, next);
      s, w := Advance(reqs, start, r, order, s, w, slots + 1, Work(next, Fetch));
      after, worker := s, Ready;
    } else {
      after, worker := s, Rejected;
    }
  }

  lemma SpawningShape(ws: WalletState, next: nat, worker: Worker)
    requires next < |ws.workers|
    ensures |Spawning(ws, next, worker).workers| == |ws.workers|
  {
  }

  // ---- A schedule for every order ------------------------------------------------------------------

  /** The workers before `next` have finished, if they are in the order, or wait for the mutex. */
  ghost predicate Staged(req: Request, ws: WalletState, next: nat, order: seq<nat>)
  {
    && |req.wallets| > 0 && |ws.workers| == |req.networks| && next <= |req.networks|
    && ws.phase == Looping(next) && ws.lock.None? && (forall i :: 0 <= i < |order| ==> order[i] < next)
    && forall j :: 0 <= j < |ws.workers| ==>
         if j >= next then ws.workers[j].Pending?
         else if j in order then ws.workers[j].Finished?
         else Parked(ws.workers[j])
  }

  lemma {:induction false} SpawnsTo(reqs: seq<Request>, start: System, r: nat, order: seq<nat>, sys: System,
                                    ws: WalletState, slots: nat, next: nat, m: nat)
    returns (after: System, moved: WalletState)
    requires Stage(reqs, start, r, order, sys, ws, slots) && Staged(reqs[r], ws, next, order)
    requires next <= m <= |reqs[r].networks| && slots + (m - next) <= reqs[r].limit
    ensures Stage(reqs, start, r, order, after, moved, slots + (m - next)) && Staged(reqs[r], moved, m, order)
    decreases m - next
  {
    hide Stage, Parked;
    after, moved := sys, ws;
    if next < m {
      var worker;
      after, worker := SpawnsNext(reqs, start, r, order, sys, ws, slots, next);
      moved := Spawning(ws, next, worker);
      after, moved := SpawnsTo(reqs, start, r, order, after, moved, slots + 1, next + 1, m);
    }
  }

  lemma StagedNext(req: Request, ws: WalletState, moved: WalletState, next: nat, order: seq<nat>, n: nat)
    requires Staged(req, ws, next, order) && n < next && moved.phase == ws.phase && moved.lock.None?
    requires moved.workers == ws.workers[n := Finished]
    ensures Staged(req, moved, next, order + [n])
  {
    hide Parked;
    assert forall j :: j in order + [n] <==> j in order || j == n;
  }

  /** The networks of a possible order can take the mutex in that order. */
  lemma {:induction false} ServesInOrder(reqs: seq<Request>, start: System, r: nat, order: seq<nat>, i: nat,
                                         sys: System, ws: WalletState, next: nat)
    returns (after: System, moved: WalletState)
    requires r < |reqs| && PossibleOrder(reqs[r], order) && i <= |order| && i <= next <= i + reqs[r].limit
    requires Stage(reqs, start, r, order[..i], sys, ws, next - i) && Staged(reqs[r], ws, next, order[..i])
    ensures exists slots :: Stage(reqs, start, r, order, after, moved, slots)
    decreases |order| - i
  {
    hide Stage, NearOrder;
    if i == |order| {
      assert order[..i] == order;
      after, moved := sys, ws;
    } else {
      var n := order[i];
      var m := if next <= n then n + 1 else next;
      NearAt(order, reqs[r].limit, i);
      after, moved := SpawnsTo(reqs, start, r, order[..i], sys, ws, next - i, next, m);
      assert n !in order[..i];
      var there, left := moved, 0;
      after, moved, left := ServesNext(reqs, start, r, order[..i], after, there, m - i, n);
      StagedNext(reqs[r], there, moved, m, order[..i], n);
      assert order[..i + 1] == order[..i] + [n];
      after, moved := ServesInOrder(reqs, start, r, order, i + 1, after, moved, m);
    }
  }

  lemma NearAt(order: seq<nat>, limit: nat, i: nat)
    requires NearOrder(order, limit) && i < |order|
    ensures order[i] < i + limit
  {
  }

  /** Request r can always be brought to its end. */
  lemma {:induction false} FinishesOne(reqs: seq<Request>, sys: System, r: nat)
    returns (rest: seq<Happening>, end: System)
    requires SystemInControl(reqs, sys) && r < |reqs| && reqs[r].limit > 0
    ensures SystemShaped(reqs, end) && Run(reqs, sys, rest) == Some(end) && end.requests[r].collected.Some?
    decreases SystemMeasure(reqs, sys)
  {
    hide InControl, SystemMeasure, SystemApply, SystemEnabled, Shaped;
    if sys.requests[r].collected.None? {
      SystemNeverStuck(reqs, sys, r);
      var ev :| SystemEnabled(reqs, sys, Happening(r, ev));
      SystemStep(reqs, sys, Happening(r, ev));
      rest, end := FinishesOne(reqs, SystemApply(reqs, sys, Happening(r, ev)), r);
      rest := [Happening(r, ev)] + rest;
    } else {
      rest, end := [], sys;
    }
  }

  lemma LaunchedStage(reqs: seq<Request>, r: nat, shared: Shared) returns (sys: System)
    requires r < |reqs| && |reqs[r].wallets| == 1
    ensures Stage(reqs, SystemInitial(reqs, shared), r, [], sys, Clear(reqs[r]), 0)
  {
    var start := SystemInitial(reqs, shared);
    SystemInitialInControl(reqs, shared);
    assert Run(reqs, start, []) == Some(start) && LockOrder(r, []) == [];
    assert start.requests[r].wallets == [FreshWallet(reqs[r])];
    hide Run, Drives, InControl, FreshWallet, ShareAfter, SystemMeasure;
    SystemStep(reqs, start, Happening(r, Launch));
    DrivesOn(reqs, start, r, [], start, Launch);
    sys := SystemApply(reqs, start, Happening(r, Launch));
  }

  /** For every possible order there is a finished run whose networks take the mutex in it. */
  lemma OrderIsTaken(reqs: seq<Request>, r: nat, shared: Shared, order: seq<nat>)
    returns (history: seq<Happening>, end: System)
    requires WellNamed(reqs) && SoleWallet(reqs, r) && reqs[r].limit > 0 && PossibleOrder(reqs[r], order)
    ensures SystemShaped(reqs, end) && Run(reqs, SystemInitial(reqs, shared), history) == Some(end)
    ensures end.requests[r].collected.Some? && LockOrder(r, history) == order
  {
    var start := SystemInitial(reqs, shared);
    hide Stage, UsesCache, WellNamed, NearOrder, Run, SystemInitial, SystemShaped, SystemInControl;
    var sys := LaunchedStage(reqs, r, shared);
    assert order[..0] == [];
    var ws;
    sys, ws := ServesInOrder(reqs, start, r, order, 0, sys, Clear(reqs[r]), 0);
    var slots: nat :| Stage(reqs, start, r, order, sys, ws, slots);
    var before := StageHistory(reqs, start, r, order, sys, ws, slots);
    var rest;
    rest, end := FinishesOne(reqs, sys, r);
    history := before + rest;
    RunConcat(reqs, start, before, rest);
    OrderConcat(r, before, rest);
    RunIsSerial(reqs, r, shared, history);
    WholeOrder(reqs[r], order, LockOrder(r, rest));
  }

  lemma StageHistory(reqs: seq<Request>, start: System, r: nat, order: seq<nat>, sys: System, ws: WalletState,
                     slots: nat)
    returns (history: seq<Happening>)
    requires Stage(reqs, start, r, order, sys, ws, slots)
    ensures SystemShaped(reqs, start) && SystemInControl(reqs, sys) && SystemShaped(reqs, sys)
    ensures Run(reqs, start, history) == Some(sys) && LockOrder(r, history) == order
  {
    history :| Run(reqs, start, history) == Some(sys) && LockOrder(r, history) == order;
  }

  /** A possible order has all networks, so none comes after them. */
  lemma WholeOrder(req: Request, order: seq<nat>, more: seq<nat>)
    requires PossibleOrder(req, order) && PossibleOrder(req, order + more)
    ensures order + more == order
  {
    hide NearOrder, Distinct;
    if more != [] {
      assert (order + more)[|order|] == more[0];
      Repeats(order, more);
    }
  }

  lemma Repeats(order: seq<nat>, more: seq<nat>)
    requires more != [] && more[0] in order
    ensures !Distinct(order + more)
  {
    var i :| 0 <= i < |order| && order[i] == more[0];
    assert (order + more)[i] == (order + more)[|order|];
  }

  /** The request returns this portfolio, alone, at the end of this run. */
  ghost predicate Returns(reqs: seq<Request>, r: nat, shared: Shared, history: seq<Happening>, p: WalletPortfolio)
    requires r < |reqs|
  {
    var end := Run(reqs, SystemInitial(reqs, shared), history);
    end.Some? && end.value.requests[r].collected == Some([p])
  }

  /**
   The outcomes, exactly: for any number of slots, a request of one wallet that alone uses
   the shared price can return a portfolio if and only if it is the sequential one over
   some order of its networks in which none is further ahead than there are slots.
   */
  lemma OutcomesIff(reqs: seq<Request>, r: nat, shared: Shared, p: WalletPortfolio)
    requires WellNamed(reqs) && SoleWallet(reqs, r) && reqs[r].limit > 0
    ensures (exists history :: Returns(reqs, r, shared, history, p))
       <==> exists order ::
              PossibleOrder(reqs[r], order)
              && p == OrderedPortfolio(reqs[r], GlobalPriceAt(shared.globalPrices, GLOBALLY_PRICED), order)
  {
    hide Distinct, NearOrder, OrderedPortfolio, WellNamed, UsesCache, Run, SystemInitial, LockOrder, GlobalPriceAt;
    var start := GlobalPriceAt(shared.globalPrices, GLOBALLY_PRICED);
    if history :| Returns(reqs, r, shared, history, p) {
      RunIsSerial(reqs, r, shared, history);
      assert [p][0] == p && PossibleOrder(reqs[r], LockOrder(r, history));
    }
    if order :| PossibleOrder(reqs[r], order) && p == OrderedPortfolio(reqs[r], start, order) {
      var history, end := OrderIsTaken(reqs, r, shared, order);
      RunIsSerial(reqs, r, shared, history);
      assert Returns(reqs, r, shared, history, p);
    }
  }
}
