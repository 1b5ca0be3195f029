/**
 Safety, deadlock freedom and termination of the portfolio run, for any number of
 requests interleaved in any way.
 */
module RunControl {
  import opened Wrappers
  import opened Sums
  import opened TokenPrices
  import opened PortfolioRun
  import opened WalletControl

  // ---- One request ---------------------------------------------------------------------

  predicate HasSent(ws: WalletState)
  {
    !InLoop(ws.phase) && !ws.phase.Returned?
  }

  function Flag(b: bool): nat
  {
    if b then 1 else 0
  }

  function Holdings(rs: RequestState): seq<nat>
  {
    seq(|rs.wallets|, w requires 0 <= w < |rs.wallets| => Holding(rs.wallets[w]))
  }

  function SentFlags(rs: RequestState): seq<nat>
  {
    seq(|rs.wallets|, w requires 0 <= w < |rs.wallets| => Flag(HasSent(rs.wallets[w])))
  }

  /** Every wallet is in order, and the counts of slots and results are those of the wallets. */
  ghost predicate InControl(req: Request, rs: RequestState)
  {
    && Shaped(req, rs)
    && (forall w :: 0 <= w < |rs.wallets| ==> Control(req, w, rs.wallets[w]))
    && rs.launched <= |rs.wallets|
    && (forall w :: 0 <= w < |rs.wallets| ==> (rs.wallets[w].phase.NotStarted? <==> w >= rs.launched))
    && rs.slots == SumNat(Holdings(rs)) && rs.slots <= req.limit
    && |rs.results| == SumNat(SentFlags(rs))
    && (rs.collected.Some? ==> forall w :: 0 <= w < |rs.wallets| ==> rs.wallets[w].phase.Done?)
  }

  lemma InitialInControl(req: Request)
    ensures InControl(req, Initial(req))
  {
    var rs := Initial(req);
    forall w | 0 <= w < |rs.wallets|
      ensures Control(req, w, rs.wallets[w]) && Holdings(rs)[w] == 0
    {
      FreshControl(req, w);
      FreshHolding(req);
    }
    SumNatZero(Holdings(rs));
    SumNatZero(SentFlags(rs));
  }

  lemma LaunchKeepsControl(req: Request, rs: RequestState, prices: GlobalPrices)
    requires InControl(req, rs) && Enabled(req, rs, Launch)
    ensures InControl(req, Apply(req, rs, prices, Launch))
  {
    hide SumNat;
    var w, after := rs.launched, Apply(req, rs, prices, Launch);
    LaunchControl(req, w, rs.wallets[w]);
    hide Control;
    assert WorkerHoldings(after.wallets[w]) == WorkerHoldings(rs.wallets[w]);
    hide Holding;
    assert Holdings(after) == Holdings(rs) by { SameHoldingOnLaunch(rs.wallets[w]); }
    assert SentFlags(after) == SentFlags(rs);
  }

  lemma SameHoldingOnLaunch(ws: WalletState)
    requires ws.phase.NotStarted?
    ensures Holding(ws.(phase := Looping(0))) == Holding(ws)
  {
    assert WorkerHoldings(ws.(phase := Looping(0))) == WorkerHoldings(ws);
  }

  lemma ActKeepsControl(req: Request, rs: RequestState, prices: GlobalPrices, w: nat, step: Step)
    requires InControl(req, rs) && Enabled(req, rs, Act(w, step))
    ensures InControl(req, Apply(req, rs, prices, Act(w, step)))
  {
    var after, ws := Apply(req, rs, prices, Act(w, step)), WalletAfter(req, w, rs.wallets[w], prices, step);
    ControlKept(req, w, rs.wallets[w], prices, step);
    HoldingAfter(req, w, rs.wallets[w], prices, step);
    PhaseAfter(req, w, rs.wallets[w], prices, step);
    hide Control, WalletCan, WalletAfter, SumNat, HasSent, Holding, InControl;
    WalletReplaced(req, rs, after, w, ws);
  }

  /** One wallet moved, with the counts following it. */
  lemma WalletReplaced(req: Request, rs: RequestState, after: RequestState, w: nat, ws: WalletState)
    requires InControl(req, rs) && w < |rs.wallets| && Control(req, w, ws)
    requires !ws.phase.NotStarted? && !rs.wallets[w].phase.NotStarted? && !rs.wallets[w].phase.Done?
    requires after.wallets == rs.wallets[w := ws] && after.launched == rs.launched && after.collected == rs.collected
    requires after.slots - rs.slots == Holding(ws) - Holding(rs.wallets[w]) && after.slots <= req.limit
    requires |after.results| - |rs.results| == Flag(HasSent(ws)) - Flag(HasSent(rs.wallets[w]))
    ensures InControl(req, after)
  {
    hide Control, SumNat, HasSent, Holding;
    assert |ws.workers| == |req.networks| by { WorkersOf(req, w, ws); }
    SumNatUpdate(Holdings(rs), w, Holding(ws));
    assert Holdings(after) == Holdings(rs)[w := Holding(ws)];
    SumNatUpdate(SentFlags(rs), w, Flag(HasSent(ws)));
    assert SentFlags(after) == SentFlags(rs)[w := Flag(HasSent(ws))];
  }

  lemma WorkersOf(req: Request, w: nat, ws: WalletState)
    requires Control(req, w, ws)
    ensures |ws.workers| == |req.networks|
  {
  }

  lemma PhaseAfter(req: Request, w: nat, ws: WalletState, prices: GlobalPrices, step: Step)
    requires Control(req, w, ws) && WalletCan(req, w, ws, step)
    ensures var after := WalletAfter(req, w, ws, prices, step);
      && (HasSent(after) <==> HasSent(ws) || step.Send?) && (step.Send? ==> !HasSent(ws))
      && !after.phase.NotStarted? && !ws.phase.NotStarted? && !ws.phase.Done?
  {
    hide Outcome, WorkerAfter, EntryOf;
    if step.Work? {
      assert !ws.workers[step.n].Pending? && !ws.workers[step.n].Finished?;
    }
  }

  /** Every step keeps every wallet in order, the slots counted and within the limit, and the results counted. */
  lemma ControlKeptByRequest(req: Request, rs: RequestState, prices: GlobalPrices, ev: Event)
    requires InControl(req, rs) && Enabled(req, rs, ev)
    ensures InControl(req, Apply(req, rs, prices, ev))
  {
    match ev
    case Launch => LaunchKeepsControl(req, rs, prices);
    case Collect =>
      hide Control, SumNat;
      assert Holdings(rs.(collected := Some(rs.results))) == Holdings(rs);
      assert SentFlags(rs.(collected := Some(rs.results))) == SentFlags(rs);
    case Act(w, step) => ActKeepsControl(req, rs, prices, w, step);
  }

  /** A wallet that is ready to send finds room in the channel, and one that releases finds its slot. */
  lemma NeverBlocked(req: Request, rs: RequestState, w: nat, step: Step)
    requires InControl(req, rs) && w < |rs.wallets| && WalletCan(req, w, rs.wallets[w], step)
    ensures (step.Acquire? && rs.slots >= req.limit) || Enabled(req, rs, Act(w, step))
  {
    hide SumNat;
    if step.Send? {
      assert !HasSent(rs.wallets[w]);
      assert SentFlags(rs)[w] == 0;
      SumFlagsBelow(SentFlags(rs), w);
    } else if IsRelease(step) {
      SumNatUpdate(WorkerHoldings(rs.wallets[w]), step.n, 0);
      assert Holdings(rs)[w] == Holding(rs.wallets[w]) >= 1;
      SumNatUpdate(Holdings(rs), w, 0);
    }
  }

  ghost predicate Busy(ws: WalletState)
  {
    exists n :: 0 <= n < |ws.workers| && !ws.workers[n].Pending? && !ws.workers[n].Finished?
  }

  lemma IdleHolding(ws: WalletState)
    requires !Busy(ws) && !ws.phase.Acquired?
    ensures Holding(ws) == 0
  {
    SumNatZero(WorkerHoldings(ws));
  }

  lemma BusyRequestMoves(req: Request, rs: RequestState, w: nat)
    requires InControl(req, rs) && w < |rs.wallets| && (Busy(rs.wallets[w]) || rs.wallets[w].phase.Acquired?)
    ensures exists ev :: Enabled(req, rs, ev)
  {
    var ws := rs.wallets[w];
    hide InControl;
    assert Shaped(req, rs) && Control(req, w, ws) by { InOrder(req, rs, w); }
    if Busy(ws) {
      var n :| 0 <= n < |ws.workers| && !ws.workers[n].Pending? && !ws.workers[n].Finished?;
      WorkerMoves(req, w, ws, n);
      var m: nat, action: Action :| WalletCan(req, w, ws, Work(m, action));
      NeverBlocked(req, rs, w, Work(m, action));
      assert Enabled(req, rs, Act(w, Work(m, action)));
    } else {
      assert WalletCan(req, w, ws, Spawn);
      NeverBlocked(req, rs, w, Spawn);
      assert Enabled(req, rs, Act(w, Spawn));
    }
  }

  lemma InOrder(req: Request, rs: RequestState, w: nat)
    requires InControl(req, rs) && w < |rs.wallets|
    ensures Shaped(req, rs) && Control(req, w, rs.wallets[w])
  {
  }

  lemma IdleRequestMoves(req: Request, rs: RequestState, w: nat)
    requires InControl(req, rs) && req.limit > 0 && w < |rs.wallets|
    requires !rs.wallets[w].phase.NotStarted? && !rs.wallets[w].phase.Done?
    requires forall v :: 0 <= v < |rs.wallets| ==> !Busy(rs.wallets[v]) && !rs.wallets[v].phase.Acquired?
    ensures exists ev :: Enabled(req, rs, ev)
  {
    forall v | 0 <= v < |rs.wallets|
      ensures Holdings(rs)[v] == 0
    {
      IdleHolding(rs.wallets[v]);
    }
    SumNatZero(Holdings(rs));
    GoroutineMoves(req, w, rs.wallets[w]);
    var step: Step :| !step.Work? && WalletCan(req, w, rs.wallets[w], step);
    NeverBlocked(req, rs, w, step);
    assert Enabled(req, rs, Act(w, step));
  }

  /** Deadlock freedom: a request that has not returned has a step of its own to take. */
  lemma NeverStuck(req: Request, rs: RequestState)
    requires InControl(req, rs) && req.limit > 0 && rs.collected.None?
    ensures exists ev :: Enabled(req, rs, ev)
  {
    if rs.launched < |rs.wallets| {
      assert Enabled(req, rs, Launch);
    } else if w :| 0 <= w < |rs.wallets| && (Busy(rs.wallets[w]) || rs.wallets[w].phase.Acquired?) {
      BusyRequestMoves(req, rs, w);
    } else if w :| 0 <= w < |rs.wallets| && !rs.wallets[w].phase.Done? {
      IdleRequestMoves(req, rs, w);
    } else {
      assert Enabled(req, rs, Collect);
    }
  }

  /** When the request returns no slot is held and every wallet's result has been sent. */
  lemma NothingLeftHeld(req: Request, rs: RequestState)
    requires InControl(req, rs) && rs.collected.Some?
    ensures rs.slots == 0 && |rs.results| == |req.wallets|
  {
    forall w | 0 <= w < |rs.wallets|
      ensures Holdings(rs)[w] == 0 && SentFlags(rs)[w] == 1
    {
      IdleHolding(rs.wallets[w]);
    }
    SumNatZero(Holdings(rs));
    AllFlagsUp(SentFlags(rs));
  }

  lemma {:induction false} AllFlagsUp(s: seq<nat>)
    requires forall i :: 0 <= i < |s| ==> s[i] == 1
    ensures SumNat(s) == |s|
  {
    if s != [] {
      AllFlagsUp(s[..|s| - 1]);
    }
  }

  // ---- Termination -------------------------------------------------------------------------

  function WalletMeasures(req: Request, rs: RequestState): seq<nat>
    requires Shaped(req, rs)
  {
    seq(|rs.wallets|, w requires 0 <= w < |rs.wallets| => WalletMeasure(req, w, rs.wallets[w]))
  }

  function Measure(req: Request, rs: RequestState): nat
    requires Shaped(req, rs)
  {
    SumNat(WalletMeasures(req, rs)) + Flag(rs.collected.None?)
  }

  /** Every step of a request brings it nearer its end. */
  lemma MeasureDrops(req: Request, rs: RequestState, prices: GlobalPrices, ev: Event)
    requires InControl(req, rs) && Enabled(req, rs, ev)
    ensures Shaped(req, Apply(req, rs, prices, ev))
    ensures Measure(req, Apply(req, rs, prices, ev)) < Measure(req, rs)
  {
    match ev {
      case Launch => LaunchDrops(req, rs, prices);
      case Collect =>
        hide Control, WalletMeasure, SumNat, Holdings, SentFlags;
        assert WalletMeasures(req, Apply(req, rs, prices, ev)) == WalletMeasures(req, rs);
      case Act(w, step) => ActDrops(req, rs, prices, w, step);
    }
  }

  lemma LaunchDrops(req: Request, rs: RequestState, prices: GlobalPrices)
    requires InControl(req, rs) && Enabled(req, rs, Launch)
    ensures Shaped(req, Apply(req, rs, prices, Launch))
    ensures Measure(req, Apply(req, rs, prices, Launch)) < Measure(req, rs)
  {
    hide SumNat, WorkerRank, Holdings, SentFlags, Measure;
    var w, after := rs.launched, Apply(req, rs, prices, Launch);
    assert rs.wallets[w].phase.NotStarted?;
    hide Control, InControl;
    assert WorkerRanks(req, w, after.wallets[w]) == WorkerRanks(req, w, rs.wallets[w]);
    OneMeasureDrops(req, rs, after, w);
  }

  lemma ActDrops(req: Request, rs: RequestState, prices: GlobalPrices, w: nat, step: Step)
    requires InControl(req, rs) && Enabled(req, rs, Act(w, step))
    ensures Shaped(req, Apply(req, rs, prices, Act(w, step)))
    ensures Measure(req, Apply(req, rs, prices, Act(w, step))) < Measure(req, rs)
  {
    InOrder(req, rs, w);
    hide InControl, Control, WalletMeasure, WalletCan, WalletAfter, Measure, PortfolioOf;
    WalletMeasureDrops(req, w, rs.wallets[w], prices, step);
    OneMeasureDrops(req, rs, Apply(req, rs, prices, Act(w, step)), w);
  }

  lemma OneMeasureDrops(req: Request, rs: RequestState, after: RequestState, w: nat)
    requires Shaped(req, rs) && Shaped(req, after) && w < |rs.wallets|
    requires after.wallets == rs.wallets[w := after.wallets[w]] && after.collected == rs.collected
    requires WalletMeasure(req, w, after.wallets[w]) < WalletMeasure(req, w, rs.wallets[w])
    ensures Measure(req, after) < Measure(req, rs)
  {
    hide WalletMeasure, SumNat;
    SumNatUpdate(WalletMeasures(req, rs), w, WalletMeasure(req, w, after.wallets[w]));
    assert WalletMeasures(req, after) == WalletMeasures(req, rs)[w := WalletMeasure(req, w, after.wallets[w])];
  }

  // ---- Any number of requests ------------------------------------------------------------------

  ghost predicate SystemInControl(reqs: seq<Request>, sys: System)
  {
    SystemShaped(reqs, sys) && forall r :: 0 <= r < |reqs| ==> InControl(reqs[r], sys.requests[r])
  }

  function Measures(reqs: seq<Request>, sys: System): seq<nat>
    requires SystemShaped(reqs, sys)
  {
    seq(|reqs|, r requires 0 <= r < |reqs| => Measure(reqs[r], sys.requests[r]))
  }

  function SystemMeasure(reqs: seq<Request>, sys: System): nat
    requires SystemShaped(reqs, sys)
  {
    SumNat(Measures(reqs, sys))
  }

  lemma SystemInitialInControl(reqs: seq<Request>, shared: Shared)
    ensures SystemInControl(reqs, SystemInitial(reqs, shared))
  {
    forall r | 0 <= r < |reqs|
      ensures InControl(reqs[r], SystemInitial(reqs, shared).requests[r])
    {
      InitialInControl(reqs[r]);
    }
  }

  lemma SystemStep(reqs: seq<Request>, sys: System, h: Happening)
    requires SystemInControl(reqs, sys) && SystemEnabled(reqs, sys, h)
    ensures SystemInControl(reqs, SystemApply(reqs, sys, h))
    ensures SystemMeasure(reqs, SystemApply(reqs, sys, h)) < SystemMeasure(reqs, sys)
  {
    var after := SystemApply(reqs, sys, h);
    ControlKeptByRequest(reqs[h.r], sys.requests[h.r], sys.shared.globalPrices, h.ev);
    MeasureDrops(reqs[h.r], sys.requests[h.r], sys.shared.globalPrices, h.ev);
    hide InControl, Measure, Enabled, Apply, SumNat, ShareAfter;
    var m := Measure(reqs[h.r], after.requests[h.r]);
    SumNatUpdate(Measures(reqs, sys), h.r, m);
    assert Measures(reqs, after) == Measures(reqs, sys)[h.r := m];
  }

  /** Every reachable state is in control, and no run is longer than the measure of its start. */
  lemma {:induction false} RunInControl(reqs: seq<Request>, sys: System, history: seq<Happening>)
    requires SystemInControl(reqs, sys)
    ensures var end := Run(reqs, sys, history);
      end.Some? ==>
        && SystemInControl(reqs, end.value)
        && |history| + SystemMeasure(reqs, end.value) <= SystemMeasure(reqs, sys)
    decreases |history|
  {
    if history != [] && SystemEnabled(reqs, sys, history[0]) {
      SystemStep(reqs, sys, history[0]);
      hide SystemInControl, SystemMeasure, SystemEnabled, SystemApply, SystemShaped;
      RunInControl(reqs, SystemApply(reqs, sys, history[0]), history[1..]);
    }
  }

  /**
   Whatever the other requests do, a request that has not returned can take a step, so a run that
   cannot go on has returned everywhere.
   */
  lemma SystemNeverStuck(reqs: seq<Request>, sys: System, r: nat)
    requires SystemInControl(reqs, sys) && r < |reqs| && reqs[r].limit > 0 && sys.requests[r].collected.None?
    ensures exists ev :: SystemEnabled(reqs, sys, Happening(r, ev))
  {
    NeverStuck(reqs[r], sys.requests[r]);
    hide InControl, Enabled;
    var ev :| Enabled(reqs[r], sys.requests[r], ev);
    assert SystemEnabled(reqs, sys, Happening(r, ev));
  }

  /** Workers m and n of wallet w are both between Lock and Unlock. */
  predicate BothInCritical(rs: RequestState, w: int, m: int, n: int)
  {
    && 0 <= w < |rs.wallets| && 0 <= m < |rs.wallets[w].workers| && 0 <= n < |rs.wallets[w].workers|
    && InCritical(rs.wallets[w].workers[m]) && InCritical(rs.wallets[w].workers[n])
  }

  /**
   In every reachable state of any requests, started on any shared state: the slots
   held are those of the semaphore and never exceed the limit, two workers of one
   wallet are never both under its mutex, and a wallet about to send has room to.
   */
  lemma RunIsSafe(reqs: seq<Request>, shared: Shared, history: seq<Happening>, r: nat)
    requires r < |reqs|
    ensures var end := Run(reqs, SystemInitial(reqs, shared), history);
      end.Some? ==>
        var rs := end.value.requests[r];
        && rs.slots == SumNat(Holdings(rs)) <= reqs[r].limit
        && (forall w, m, n :: BothInCritical(rs, w, m, n) ==> m == n)
        && (forall w: nat :: w < |rs.wallets| && rs.wallets[w].phase.Returned? ==> Enabled(reqs[r], rs, Act(w, Send)))
        && (rs.collected.Some? ==> rs.slots == 0 && |rs.results| == |reqs[r].wallets|)
  {
    SystemInitialInControl(reqs, shared);
    RunInControl(reqs, SystemInitial(reqs, shared), history);
    var end := Run(reqs, SystemInitial(reqs, shared), history);
    if end.Some? {
      SafeInControl(reqs[r], end.value.requests[r]);
    }
  }

  lemma SafeInControl(req: Request, rs: RequestState)
    requires InControl(req, rs)
    ensures rs.slots == SumNat(Holdings(rs)) <= req.limit
    ensures forall w, m, n :: BothInCritical(rs, w, m, n) ==> m == n
    ensures forall w: nat :: w < |rs.wallets| && rs.wallets[w].phase.Returned? ==> Enabled(req, rs, Act(w, Send))
    ensures rs.collected.Some? ==> rs.slots == 0 && |rs.results| == |req.wallets|
  {
    hide SumNat;
    forall w, m, n | BothInCritical(rs, w, m, n)
      ensures m == n
    {
      MutualExclusion(req, w, rs.wallets[w], m, n);
    }
    forall w: nat | w < |rs.wallets| && rs.wallets[w].phase.Returned?
      ensures Enabled(req, rs, Act(w, Send))
    {
      NeverBlocked(req, rs, w, Send);
    }
    if rs.collected.Some? {
      NothingLeftHeld(req, rs);
    }
  }

  /** A run that cannot be continued has returned from every request that has a slot to give. */
  lemma MaximalRunsReturn(reqs: seq<Request>, shared: Shared, history: seq<Happening>)
    requires forall r :: 0 <= r < |reqs| ==> reqs[r].limit > 0
    ensures |history| > SystemMeasure(reqs, SystemInitial(reqs, shared)) ==>
      Run(reqs, SystemInitial(reqs, shared), history).None?
    ensures var end := Run(reqs, SystemInitial(reqs, shared), history);
      end.Some? && (forall h :: !SystemEnabled(reqs, end.value, h)) ==>
        forall r :: 0 <= r < |reqs| ==> end.value.requests[r].collected.Some?
  {
    SystemInitialInControl(reqs, shared);
    RunInControl(reqs, SystemInitial(reqs, shared), history);
    var end := Run(reqs, SystemInitial(reqs, shared), history);
    hide SystemInControl, SystemMeasure, SystemEnabled;
    if end.Some? && forall h :: !SystemEnabled(reqs, end.value, h) {
      forall r | 0 <= r < |reqs|
        ensures end.value.requests[r].collected.Some?
      {
        if end.value.requests[r].collected.None? {
          SystemNeverStuck(reqs, end.value, r);
        }
      }
    }
  }
}
