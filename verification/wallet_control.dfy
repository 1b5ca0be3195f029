/**
 One wallet's goroutine and its workers: which states they reach together, whatever
 the shared prices hold, and how far they are from their end.
 */
module WalletControl {
  import opened Wrappers
  import opened Sums
  import opened TokenPrices
  import opened PortfolioRun

  // ---- What every step keeps ---------------------------------------------------------

  /** The networks below this one have been given a worker. */
  function NextNetwork(req: Request, phase: Phase): nat
  {
    match phase
    case NotStarted => 0
    case Looping(next) => next
    case Acquired(next) => next
    case Returned => |req.networks|
    case Sent => |req.networks|
    case Marked => |req.networks|
    case Reported => |req.networks|
    case Done => |req.networks|
  }

  predicate InLoop(phase: Phase)
  {
    phase.NotStarted? || phase.Looping? || phase.Acquired?
  }

  predicate InCritical(worker: Worker)
  {
    worker.Pricing? || worker.Quoted?
  }

  predicate WithinBalances(req: Request, w: nat, n: nat, worker: Worker)
    requires w < |req.wallets| && n < |req.networks|
  {
    && (worker.Pricing? ==> |worker.details| <= |BalancesOf(req, w, n)|)
    && (worker.Quoted? ==> |worker.details| < |BalancesOf(req, w, n)|)
  }

  ghost predicate Control(req: Request, w: nat, ws: WalletState)
  {
    && w < |req.wallets| && |ws.workers| == |req.networks|
    && NextNetwork(req, ws.phase) <= |req.networks|
    && (ws.phase.Acquired? ==> ws.phase.next < |req.networks|)
    && (forall n :: 0 <= n < |ws.workers| ==> (ws.workers[n].Pending? <==> n >= NextNetwork(req, ws.phase)))
    && (!InLoop(ws.phase) ==> forall n :: 0 <= n < |ws.workers| ==> ws.workers[n].Finished?)
    && (forall n :: 0 <= n < |ws.workers| ==> (InCritical(ws.workers[n]) <==> ws.lock == Some(n)))
    && (ws.lock.Some? ==> ws.lock.value < |ws.workers|)
    && (forall n :: 0 <= n < |ws.workers| ==> WithinBalances(req, w, n, ws.workers[n]))
  }

  lemma FreshControl(req: Request, w: nat)
    requires w < |req.wallets|
    ensures Control(req, w, FreshWallet(req))
  {
  }

  lemma LaunchControl(req: Request, w: nat, ws: WalletState)
    requires Control(req, w, ws) && ws.phase.NotStarted?
    ensures Control(req, w, ws.(phase := Looping(0)))
  {
  }

  lemma ControlKept(req: Request, w: nat, ws: WalletState, prices: GlobalPrices, step: Step)
    requires Control(req, w, ws) && WalletCan(req, w, ws, step)
    ensures Control(req, w, WalletAfter(req, w, ws, prices, step))
  {
    hide Outcome, DetailFor, Read;
    if step.Work? {
      WorkKeepsControl(req, w, ws, prices, step.n, step.action);
    }
  }

  lemma WorkKeepsControl(req: Request, w: nat, ws: WalletState, prices: GlobalPrices, n: nat, action: Action)
    requires Control(req, w, ws) && WalletCan(req, w, ws, Work(n, action))
    ensures Control(req, w, WorkAfter(req, w, ws, prices, n, action))
  {
    hide Outcome, DetailFor, Read, EntryOf;
    var after := WorkAfter(req, w, ws, prices, n, action);
    assert forall k :: 0 <= k < |ws.workers| && k != n ==> after.workers[k] == ws.workers[k];
  }

  /** The mutex: two workers of a wallet are never between Lock and Unlock at once. */
  lemma MutualExclusion(req: Request, w: nat, ws: WalletState, m: nat, n: nat)
    requires Control(req, w, ws) && m < |ws.workers| && n < |ws.workers|
    requires InCritical(ws.workers[m]) && InCritical(ws.workers[n])
    ensures m == n
  {
    assert ws.lock == Some(m) && ws.lock == Some(n);
  }

  // ---- Slots of the semaphore ----------------------------------------------------------

  function Holds(worker: Worker): nat
  {
    if worker.Pending? || worker.Released? || worker.Finished? then 0 else 1
  }

  function WorkerHoldings(ws: WalletState): seq<nat>
  {
    seq(|ws.workers|, n requires 0 <= n < |ws.workers| => Holds(ws.workers[n]))
  }

  /** The slots a wallet holds: one per working worker, and one between acquiring and spawning. */
  function Holding(ws: WalletState): nat
  {
    (if ws.phase.Acquired? then 1 else 0) + SumNat(WorkerHoldings(ws))
  }

  lemma HoldingAfter(req: Request, w: nat, ws: WalletState, prices: GlobalPrices, step: Step)
    requires Control(req, w, ws) && WalletCan(req, w, ws, step)
    ensures var after := Holding(WalletAfter(req, w, ws, prices, step));
      if step.Acquire? then after == Holding(ws) + 1
      else if IsRelease(step) then after == Holding(ws) - 1
      else after == Holding(ws)
  {
    hide Outcome, DetailFor, Read, EntryOf, SumNat;
    var after := WalletAfter(req, w, ws, prices, step);
    if step.Work? || step.Spawn? {
      var n := if step.Work? then step.n else ws.phase.next;
      SumNatUpdate(WorkerHoldings(ws), n, Holds(after.workers[n]));
      assert WorkerHoldings(after) == WorkerHoldings(ws)[n := Holds(after.workers[n])];
    } else {
      assert WorkerHoldings(after) == WorkerHoldings(ws);
    }
  }

  lemma FreshHolding(req: Request)
    ensures Holding(FreshWallet(req)) == 0
  {
    SumNatZero(WorkerHoldings(FreshWallet(req)));
  }

  // ---- Steps still to take ---------------------------------------------------------------

  function WorkerRank(req: Request, w: nat, n: nat, worker: Worker): nat
    requires w < |req.wallets| && n < |req.networks|
  {
    var size := |BalancesOf(req, w, n)|;
    match worker
    case Pending => 2 * size + 8
    case Spawned => 2 * size + 7
    case Rejected => 2 * size + 5
    case Connected => 2 * size + 6
    case Ready => 2 * size + 5
    case Pricing(details, _) => 4 + 2 * (if |details| <= size then size - |details| else 0)
    case Quoted(details, _, _) => 3 + 2 * (if |details| <= size then size - |details| else 0)
    case Merged => 3
    case Released => 2
    case Finished => 1
  }

  function WorkerRanks(req: Request, w: nat, ws: WalletState): seq<nat>
    requires w < |req.wallets| && |ws.workers| == |req.networks|
  {
    seq(|ws.workers|, n requires 0 <= n < |ws.workers| => WorkerRank(req, w, n, ws.workers[n]))
  }

  function PhaseRank(req: Request, phase: Phase): nat
  {
    var left := if NextNetwork(req, phase) <= |req.networks| then |req.networks| - NextNetwork(req, phase) else 0;
    match phase
    case NotStarted => 2 * left + 7
    case Looping(_) => 2 * left + 6
    case Acquired(_) => 2 * left + 5
    case Returned => 5
    case Sent => 4
    case Marked => 3
    case Reported => 2
    case Done => 1
  }

  function WalletMeasure(req: Request, w: nat, ws: WalletState): nat
    requires w < |req.wallets| && |ws.workers| == |req.networks|
  {
    PhaseRank(req, ws.phase) + SumNat(WorkerRanks(req, w, ws))
  }

  lemma WorkerRankDrops(req: Request, w: nat, n: nat, worker: Worker, prices: GlobalPrices, lock: Option<nat>,
                        action: Action)
    requires w < |req.wallets| && n < |req.networks| && WorkerCan(req, w, n, worker, lock, action)
    requires WithinBalances(req, w, n, worker)
    ensures WorkerRank(req, w, n, WorkerAfter(req, w, n, worker, prices, lock, action)) < WorkerRank(req, w, n, worker)
  {
    hide Outcome, DetailFor, Read;
  }

  lemma WalletMeasureDrops(req: Request, w: nat, ws: WalletState, prices: GlobalPrices, step: Step)
    requires Control(req, w, ws) && WalletCan(req, w, ws, step)
    ensures |WalletAfter(req, w, ws, prices, step).workers| == |req.networks|
    ensures WalletMeasure(req, w, WalletAfter(req, w, ws, prices, step)) < WalletMeasure(req, w, ws)
  {
    hide Outcome, DetailFor, Read, EntryOf, SumNat;
    var after := WalletAfter(req, w, ws, prices, step);
    if step.Work? || step.Spawn? {
      var n := if step.Work? then step.n else ws.phase.next;
      if step.Work? {
        WorkerRankDrops(req, w, n, ws.workers[n], prices, ws.lock, step.action);
      }
      hide WorkerRank;
      SumNatUpdate(WorkerRanks(req, w, ws), n, WorkerRank(req, w, n, after.workers[n]));
      assert WorkerRanks(req, w, after) == WorkerRanks(req, w, ws)[n := WorkerRank(req, w, n, after.workers[n])];
      if step.Spawn? {
        SpawnRankDrops(req, w, n);
      }
    } else {
      assert WorkerRanks(req, w, after) == WorkerRanks(req, w, ws);
    }
  }

  lemma SpawnRankDrops(req: Request, w: nat, n: nat)
    requires w < |req.wallets| && n < |req.networks|
    ensures WorkerRank(req, w, n, Spawned) < WorkerRank(req, w, n, Pending)
  {
  }

  // ---- A wallet's next step ----------------------------------------------------------------

  /**
   A worker that is neither waiting for the loop nor finished, or the worker holding the mutex it
   waits for, can move.
   */
  lemma WorkerMoves(req: Request, w: nat, ws: WalletState, n: nat)
    requires Control(req, w, ws) && n < |ws.workers| && !ws.workers[n].Pending? && !ws.workers[n].Finished?
    ensures exists m: nat, action: Action :: WalletCan(req, w, ws, Work(m, action))
  {
    hide Outcome;
    if (ws.workers[n].Rejected? || ws.workers[n].Ready?) && ws.lock.Some? {
      HolderMoves(req, w, ws, ws.lock.value);
    } else {
      HolderMoves(req, w, ws, n);
    }
  }

  lemma HolderMoves(req: Request, w: nat, ws: WalletState, n: nat)
    requires Control(req, w, ws) && n < |ws.workers| && !ws.workers[n].Pending? && !ws.workers[n].Finished?
    requires (ws.workers[n].Rejected? || ws.workers[n].Ready?) ==> ws.lock.None?
    ensures exists m: nat, action: Action :: WalletCan(req, w, ws, Work(m, action))
  {
    hide Outcome;
    var action := match ws.workers[n]
      case Pending => Connect
      case Spawned => Connect
      case Rejected => Lock
      case Connected => Fetch
      case Ready => Lock
      case Pricing(details, _) => if |details| < |BalancesOf(req, w, n)| then Get else Unlock
      case Quoted(_, _, _) => Set
      case Merged => Release
      case Released => Leave
      case Finished => Leave;
    assert WithinBalances(req, w, n, ws.workers[n]);
    assert WalletCan(req, w, ws, Work(n, action));
  }

  /**
   With no worker on its way, a started wallet has a step of its own: until it is done
   it can take one, except that Acquire also needs room in the semaphore.
   */
  lemma GoroutineMoves(req: Request, w: nat, ws: WalletState)
    requires Control(req, w, ws) && !ws.phase.NotStarted? && !ws.phase.Done?
    requires forall n :: 0 <= n < |ws.workers| ==> ws.workers[n].Pending? || ws.workers[n].Finished?
    ensures exists step: Step :: !step.Work? && WalletCan(req, w, ws, step)
  {
    hide Outcome;
    var step := match ws.phase
      case NotStarted => Acquire
      case Looping(next) => if next < |req.networks| then Acquire else Join
      case Acquired(_) => Spawn
      case Returned => Send
      case Sent => if ws.errors != [] then Mark else End
      case Marked => Report
      case Reported => End
      case Done => End;
    assert WalletCan(req, w, ws, step);
  }
}
