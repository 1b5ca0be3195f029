/** The history of failed wallets over any runs, one after the other or overlapping. */
module FailedWallets {
  import opened Entities
  import opened Sums
  import opened PortfolioRun
  import opened WalletControl
  import opened WalletBooks
  import opened RunControl
  import opened RunBooks
  import opened RunConservation

  predicate HasMarked(ws: WalletState)
  {
    ws.phase.Marked? || ws.phase.Reported? || ws.phase.Done?
  }

  /** Some network of the wallet yields an error: what GetClient and the node answer decides this, not the schedule. */
  predicate Failing(req: Request, w: nat)
    requires w < |req.wallets|
  {
    exists n :: 0 <= n < |req.networks| && ErrorsOf(req, w, n) != []
  }

  predicate FailedIn(reqs: seq<Request>, r: nat, w: nat, address: string)
  {
    r < |reqs| && w < |reqs[r].wallets| && reqs[r].wallets[w] == address && Failing(reqs[r], w)
  }

  /** The wallet's errors are complete and there are some. */
  predicate EndsBadly(ws: WalletState)
  {
    !InLoop(ws.phase) && ws.errors != []
  }

  ghost predicate Marks(reqs: seq<Request>, sys: System, r: nat, w: nat, address: string)
    requires SystemShaped(reqs, sys)
  {
    r < |reqs| && w < |reqs[r].wallets| && reqs[r].wallets[w] == address && EndsBadly(sys.requests[r].wallets[w])
  }

  predicate WalletMarked(req: Request, w: nat, ws: WalletState, failed: set<string>)
    requires w < |req.wallets|
  {
    HasMarked(ws) && ws.errors != [] ==> req.wallets[w] in failed
  }

  /** The failed set is what it was, and the wallets marked since, each of which has errors. */
  ghost predicate History(reqs: seq<Request>, before: set<string>, sys: System)
  {
    && Accounted(reqs, sys) && before <= sys.shared.failed
    && (forall r, w :: 0 <= r < |reqs| && 0 <= w < |reqs[r].wallets| ==>
          WalletMarked(reqs[r], w, sys.requests[r].wallets[w], sys.shared.failed))
    && (forall address :: address in sys.shared.failed ==>
          address in before || exists r: nat, w: nat :: Marks(reqs, sys, r, w, address))
  }

  lemma SharedFailed(req: Request, rs: RequestState, shared: Shared, ev: Event)
    requires Shaped(req, rs) && Enabled(req, rs, ev)
    ensures var after := ShareAfter(req, rs, shared, ev).failed;
      if ev.Act? && ev.step.Mark? then after == shared.failed + {req.wallets[ev.w]} else after == shared.failed
  {
    hide QuoteFor, Outcome;
  }

  /** What a step does to the marks of one wallet. */
  lemma MarkAfter(req: Request, w: nat, ws: WalletState, prices: TokenPrices.GlobalPrices, step: Step)
    requires Control(req, w, ws) && WalletCan(req, w, ws, step)
    ensures var after := WalletAfter(req, w, ws, prices, step);
      && (EndsBadly(ws) ==> EndsBadly(after))
      && (HasMarked(after) && after.errors != [] ==> (HasMarked(ws) && ws.errors != []) || step.Mark?)
    ensures step.Mark? ==> EndsBadly(ws)
  {
    FieldsAfter(req, w, ws, prices, step);
    hide Outcome, EntryOf, WorkAfter;
    if step.Work? {
      WorkInLoop(req, w, ws, prices, step.n, step.action);
    }
  }

  lemma WalletsAfter(reqs: seq<Request>, sys: System, h: Happening, r: nat, w: nat)
    requires SystemInControl(reqs, sys) && SystemEnabled(reqs, sys, h) && r < |reqs| && w < |reqs[r].wallets|
    ensures var ws, after := sys.requests[r].wallets[w], SystemApply(reqs, sys, h);
      && (EndsBadly(ws) ==> EndsBadly(after.requests[r].wallets[w]))
      && (WalletMarked(reqs[r], w, ws, sys.shared.failed) ==>
            WalletMarked(reqs[r], w, after.requests[r].wallets[w], after.shared.failed))
  {
    hide InControl, Apply, ShareAfter, Enabled, EndsBadly, WalletMarked;
    if h.r == r {
      WalletsOfRequest(reqs[r], sys.requests[r], sys.shared, h.ev, w);
    } else {
      SharedFailed(reqs[h.r], sys.requests[h.r], sys.shared, h.ev);
      MoreFailed(reqs[r], w, sys.requests[r].wallets[w], sys.shared.failed, SystemApply(reqs, sys, h).shared.failed);
    }
  }

  lemma MoreFailed(req: Request, w: nat, ws: WalletState, failed: set<string>, failed': set<string>)
    requires w < |req.wallets| && failed <= failed'
    ensures WalletMarked(req, w, ws, failed) ==> WalletMarked(req, w, ws, failed')
  {
  }

  lemma WalletsOfRequest(req: Request, rs: RequestState, shared: Shared, ev: Event, w: nat)
    requires InControl(req, rs) && Enabled(req, rs, ev) && w < |req.wallets|
    ensures var ws, after := rs.wallets[w], Apply(req, rs, shared.globalPrices, ev);
      var failed := ShareAfter(req, rs, shared, ev).failed;
      && |after.wallets| == |rs.wallets|
      && (EndsBadly(ws) ==> EndsBadly(after.wallets[w]))
      && (WalletMarked(req, w, ws, shared.failed) ==> WalletMarked(req, w, after.wallets[w], failed))
  {
    SharedFailed(req, rs, shared, ev);
    Unmoved(req, rs, shared.globalPrices, ev);
    if ev.Act? && ev.w == w {
      ActedOn(req, rs, shared.globalPrices, w, ev.step);
    }
    hide InControl, Enabled, Apply, ShareAfter;
  }

  lemma ActedOn(req: Request, rs: RequestState, prices: TokenPrices.GlobalPrices, w: nat, step: Step)
    requires InControl(req, rs) && Enabled(req, rs, Act(w, step))
    ensures var ws, after := rs.wallets[w], Apply(req, rs, prices, Act(w, step)).wallets[w];
      && (EndsBadly(ws) ==> EndsBadly(after))
      && (HasMarked(after) && after.errors != [] ==> (HasMarked(ws) && ws.errors != []) || step.Mark?)
  {
    InOrder(req, rs, w);
    hide Control, WalletAfter, WalletCan, HasMarked, EndsBadly, InControl;
    MarkAfter(req, w, rs.wallets[w], prices, step);
  }

  /** Launching a wallet gives it no mark, and every other wallet is as it was. */
  lemma Unmoved(req: Request, rs: RequestState, prices: TokenPrices.GlobalPrices, ev: Event)
    requires InControl(req, rs) && Enabled(req, rs, ev)
    ensures var after := Apply(req, rs, prices, ev);
      |after.wallets| == |rs.wallets|
      && forall w :: 0 <= w < |rs.wallets| && !(ev.Act? && ev.w == w) ==>
           after.wallets[w] == rs.wallets[w]
           || (rs.wallets[w].phase.NotStarted? && after.wallets[w] == rs.wallets[w].(phase := Looping(0)))
  {
    hide Control, WalletAfter, WalletCan;
  }

  lemma MarkedEndsBadly(reqs: seq<Request>, sys: System, h: Happening)
    requires SystemInControl(reqs, sys) && SystemEnabled(reqs, sys, h) && h.ev.Act? && h.ev.step.Mark?
    ensures h.ev.w < |reqs[h.r].wallets| && EndsBadly(sys.requests[h.r].wallets[h.ev.w])
  {
  }

  lemma HistoryKept(reqs: seq<Request>, before: set<string>, sys: System, h: Happening)
    requires History(reqs, before, sys) && SystemEnabled(reqs, sys, h) && WellNamed(reqs)
    ensures History(reqs, before, SystemApply(reqs, sys, h))
  {
    hide ShareAfter, Apply, Enabled, InControl, SystemBooks, WellNamed, WalletMarked, EndsBadly;
    var after := SystemApply(reqs, sys, h);
    AccountedKept(reqs, sys, h);
    SharedFailed(reqs[h.r], sys.requests[h.r], sys.shared, h.ev);
    forall r, w | 0 <= r < |reqs| && 0 <= w < |reqs[r].wallets|
      ensures WalletMarked(reqs[r], w, after.requests[r].wallets[w], after.shared.failed)
    {
      WalletsAfter(reqs, sys, h, r, w);
    }
    forall address | address in after.shared.failed && address !in before
      ensures exists r: nat, w: nat :: Marks(reqs, after, r, w, address)
    {
      StillMarked(reqs, before, sys, h, address);
    }
  }

  lemma StillMarked(reqs: seq<Request>, before: set<string>, sys: System, h: Happening, address: string)
    requires History(reqs, before, sys) && SystemEnabled(reqs, sys, h)
    requires address in SystemApply(reqs, sys, h).shared.failed && address !in before
    ensures exists r: nat, w: nat :: Marks(reqs, SystemApply(reqs, sys, h), r, w, address)
  {
    SharedFailed(reqs[h.r], sys.requests[h.r], sys.shared, h.ev);
    hide ShareAfter, Apply, Enabled, InControl, SystemBooks, WalletMarked, EndsBadly;
    if address in sys.shared.failed {
      var r: nat, w: nat :| Marks(reqs, sys, r, w, address);
      WalletsAfter(reqs, sys, h, r, w);
      assert Marks(reqs, SystemApply(reqs, sys, h), r, w, address);
    } else {
      MarkedEndsBadly(reqs, sys, h);
      WalletsAfter(reqs, sys, h, h.r, h.ev.w);
      assert Marks(reqs, SystemApply(reqs, sys, h), h.r, h.ev.w, address);
    }
  }

  lemma {:induction false} RunHistory(reqs: seq<Request>, before: set<string>, sys: System, history: seq<Happening>)
    requires History(reqs, before, sys) && WellNamed(reqs)
    ensures var end := Run(reqs, sys, history); end.Some? ==> History(reqs, before, end.value)
    decreases |history|
  {
    if history != [] && SystemEnabled(reqs, sys, history[0]) {
      HistoryKept(reqs, before, sys, history[0]);
      HistoryShape(reqs, before, SystemApply(reqs, sys, history[0]));
      hide History, WellNamed, SystemEnabled, SystemApply, SystemShaped;
      RunHistory(reqs, before, SystemApply(reqs, sys, history[0]), history[1..]);
    }
  }

  lemma HistoryShape(reqs: seq<Request>, before: set<string>, sys: System)
    requires History(reqs, before, sys)
    ensures SystemShaped(reqs, sys)
  {
  }

  /** A wallet past its workers has errors exactly if one of its networks yields one. */
  lemma ErrorsIffFailing(req: Request, w: nat, ws: WalletState)
    requires WalletInOrder(req, w, ws, NoRules()(0), NoRange()) && !InLoop(ws.phase)
    ensures ws.errors != [] <==> Failing(req, w)
  {
    var bags := ErrorBags(req, w, AllNetworks(req));
    hide ErrorsOf, Conserves, Complete, PortfolioOf, Books, Control, Readings;
    WalletConserves(req, w, ws, NoRules()(0), NoRange());
    NoErrorsIffNone(bags);
    assert ws.errors == [] <==> multiset(ws.errors) == multiset{} by {
      if ws.errors != [] {
        assert ws.errors[0] in multiset(ws.errors);
      }
    }
    forall n | 0 <= n < |req.networks|
      ensures bags[n] == multiset{} <==> ErrorsOf(req, w, n) == []
    {
      if ErrorsOf(req, w, n) != [] {
        assert ErrorsOf(req, w, n)[0] in bags[n];
      }
    }
  }

  lemma {:induction false} NoErrorsIffNone(bags: seq<multiset<PortfolioError>>)
    ensures SumBag(bags) == multiset{} <==> forall i :: 0 <= i < |bags| ==> bags[i] == multiset{}
  {
    if bags != [] {
      var front, last := bags[..|bags| - 1], bags[|bags| - 1];
      NoErrorsIffNone(front);
      assert forall i :: 0 <= i < |front| ==> bags[i] == front[i];
      EmptySum(SumBag(front), last);
    }
  }

  lemma EmptySum(a: multiset<PortfolioError>, b: multiset<PortfolioError>)
    ensures a + b == multiset{} <==> a == multiset{} && b == multiset{}
  {
    if a + b == multiset{} {
      forall e
        ensures a[e] == 0 && b[e] == 0
      {
        assert (a + b)[e] == 0;
      }
    }
  }

  /**
   After any runs, overlapping or not, the failed wallets are those there were and only
   ones that yielded an error; once all requests have returned, exactly those.
   */
  lemma FailedExactly(reqs: seq<Request>, shared: Shared, history: seq<Happening>, address: string)
    requires WellNamed(reqs)
    ensures var end := Run(reqs, SystemInitial(reqs, shared), history);
      end.Some? ==>
        && (address in shared.failed ==> address in end.value.shared.failed)
        && (address in end.value.shared.failed ==>
              address in shared.failed || exists r: nat, w: nat :: FailedIn(reqs, r, w, address))
        && ((forall r :: 0 <= r < |reqs| ==> end.value.requests[r].collected.Some?) ==>
              (address in end.value.shared.failed <==>
                 address in shared.failed || exists r: nat, w: nat :: FailedIn(reqs, r, w, address)))
  {
    SystemInitialInControl(reqs, shared);
    SystemInitialBooks(reqs, shared, NoRules(), NoRanges());
    assert History(reqs, shared.failed, SystemInitial(reqs, shared)) by {
      hide InControl, RequestBooks;
    }
    RunHistory(reqs, shared.failed, SystemInitial(reqs, shared), history);
    var end := Run(reqs, SystemInitial(reqs, shared), history);
    hide History, SystemInitial, Run, FailedIn;
    if end.Some? {
      if address in end.value.shared.failed && address !in shared.failed {
        FailedHadErrors(reqs, shared.failed, end.value, address);
      }
      FailedKept(reqs, shared.failed, end.value, address);
      forall r: nat, w: nat
        | FailedIn(reqs, r, w, address) && forall s :: 0 <= s < |reqs| ==> end.value.requests[s].collected.Some?
        ensures address in end.value.shared.failed
      {
        ReturnedIsMarked(reqs, shared.failed, end.value, r, w, address);
      }
    }
  }

  lemma FailedKept(reqs: seq<Request>, before: set<string>, sys: System, address: string)
    requires History(reqs, before, sys)
    ensures address in before ==> address in sys.shared.failed
  {
  }

  lemma FailedHadErrors(reqs: seq<Request>, before: set<string>, sys: System, address: string)
    requires History(reqs, before, sys) && address in sys.shared.failed && address !in before
    ensures exists r: nat, w: nat :: FailedIn(reqs, r, w, address)
  {
    hide InControl, WalletMarked, Failing, WalletInOrder;
    var r: nat, w: nat :| Marks(reqs, sys, r, w, address);
    OrderOf(reqs[r], sys.requests[r], w, NoRules()(r), NoRange());
    ErrorsIffFailing(reqs[r], w, sys.requests[r].wallets[w]);
    assert FailedIn(reqs, r, w, address);
  }

  lemma ReturnedIsMarked(reqs: seq<Request>, before: set<string>, sys: System, r: nat, w: nat, address: string)
    requires History(reqs, before, sys) && FailedIn(reqs, r, w, address) && sys.requests[r].collected.Some?
    ensures address in sys.shared.failed
  {
    hide Failing, WalletInOrder, Control;
    OrderOf(reqs[r], sys.requests[r], w, NoRules()(r), NoRange());
    assert sys.requests[r].wallets[w].phase.Done?;
    ErrorsIffFailing(reqs[r], w, sys.requests[r].wallets[w]);
    assert WalletMarked(reqs[r], w, sys.requests[r].wallets[w], sys.shared.failed);
  }

  /** The set only grows, from any state. */
  lemma {:induction false} FailedGrows(reqs: seq<Request>, sys: System, history: seq<Happening>)
    requires SystemShaped(reqs, sys)
    ensures var end := Run(reqs, sys, history); end.Some? ==> sys.shared.failed <= end.value.shared.failed
    decreases |history|
  {
    if history != [] && SystemEnabled(reqs, sys, history[0]) {
      var h := history[0];
      SharedFailed(reqs[h.r], sys.requests[h.r], sys.shared, h.ev);
      hide ShareAfter, Apply, Enabled;
      FailedGrows(reqs, SystemApply(reqs, sys, h), history[1..]);
    }
  }
}
