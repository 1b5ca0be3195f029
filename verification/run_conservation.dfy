/**
 What every finished run conserves, whatever the schedule and the prices: value, from
 each balance up to the grand total, balances, and errors.
 */
module RunConservation {
  import opened Wrappers
  import opened Entities
  import opened Strings
  import opened Sums
  import opened PortfolioRun
  import opened WalletControl
  import opened WalletBooks
  import opened RunControl
  import opened RunBooks

  // ---- What is conserved ------------------------------------------------------------

  /** The wallet's total is the sum of its networks' totals, and each of those the sum of its tokens' values. */
  ghost predicate Conserves(p: WalletPortfolio)
  {
    && p.totalValueUSD == SumMap(Totals(p.balancesByNetwork))
    && forall name :: name in p.balancesByNetwork ==> EntryAdds(p.balancesByNetwork[name])
  }

  predicate EntryAdds(entry: NetworkTokens)
  {
    entry.totalValueUSD == SumReal(Values(entry.tokens))
  }

  predicate Shows(req: Request, nb: Balance, detail: TokenDetail)
  {
    detail == Detail(req, nb, detail.priceUSD)
  }

  predicate ShowsBalances(req: Request, w: nat, n: nat, entry: NetworkTokens)
    requires w < |req.wallets| && n < |req.networks|
  {
    && entry.chainID == FormatUint(req.networks[n].chainID)
    && |entry.tokens| == |BalancesOf(req, w, n)|
    && forall k :: 0 <= k < |entry.tokens| ==> Shows(req, BalancesOf(req, w, n)[k], entry.tokens[k])
  }

  predicate HasBalances(req: Request, w: nat, n: nat)
    requires w < |req.wallets|
  {
    n < |req.networks| && BalancesOf(req, w, n) != []
  }

  /** Every balance fetched is shown, in its order, under its network's name and chain, and nothing else is. */
  ghost predicate Complete(req: Request, w: nat, p: WalletPortfolio)
    requires w < |req.wallets|
  {
    && p.walletAddress == req.wallets[w]
    && (forall n: nat :: HasBalances(req, w, n) ==>
          req.networks[n].name in p.balancesByNetwork
          && ShowsBalances(req, w, n, p.balancesByNetwork[req.networks[n].name]))
    && (forall name :: name in p.balancesByNetwork ==>
          exists n: nat :: HasBalances(req, w, n) && req.networks[n].name == name)
  }

  function AllNetworks(req: Request): Stage
  {
    (n: nat) => n < |req.networks|
  }

  /** All errors of a request: those of each wallet on each network. */
  function AllErrors(req: Request): seq<multiset<PortfolioError>>
  {
    seq(|req.wallets|, w requires 0 <= w < |req.wallets| => SumBag(ErrorBags(req, w, AllNetworks(req))))
  }

  // ---- Books under no rule at all ------------------------------------------------------

  function NoRules(): Rules
  {
    (r: nat) => (w: nat, n: nat, k: nat, price: real) => true
  }

  function NoRange(): Range
  {
    (n: nat, cached: Option<real>) => true
  }

  function NoRanges(): Ranges
  {
    (r: nat) => NoRange()
  }

  ghost predicate Accounted(reqs: seq<Request>, sys: System)
  {
    SystemInControl(reqs, sys) && SystemBooks(reqs, sys, NoRules(), NoRanges())
  }

  lemma AccountedKept(reqs: seq<Request>, sys: System, h: Happening)
    requires Accounted(reqs, sys) && SystemEnabled(reqs, sys, h) && WellNamed(reqs)
    ensures Accounted(reqs, SystemApply(reqs, sys, h))
  {
    SystemStep(reqs, sys, h);
    assert RulesCover(reqs, NoRules(), NoRanges()) by {
      hide BalancesOf, UsesGlobal, PriceOf;
    }
    hide RequestBooks, InControl, Apply, Enabled, ShareAfter, RulesCover, DistinctNames;
    SystemBooksKept(reqs, sys, h, NoRules(), NoRanges());
  }

  lemma {:induction false} RunAccounted(reqs: seq<Request>, sys: System, history: seq<Happening>)
    requires Accounted(reqs, sys) && WellNamed(reqs)
    ensures var end := Run(reqs, sys, history); end.Some? ==> Accounted(reqs, end.value)
    decreases |history|
  {
    if history != [] && SystemEnabled(reqs, sys, history[0]) {
      AccountedKept(reqs, sys, history[0]);
      hide SystemInControl, SystemBooks, WellNamed, SystemEnabled, SystemApply, SystemShaped;
      RunAccounted(reqs, SystemApply(reqs, sys, history[0]), history[1..]);
    }
  }

  // ---- From the books to what is conserved ------------------------------------------------

  lemma BooksConserve(req: Request, w: nat, byNetwork: map<string, NetworkTokens>, total: real, done: Stage,
                      rule: PriceRule)
    requires w < |req.wallets| && PortfolioBooks(req, w, byNetwork, total, done, rule)
    ensures Conserves(WalletPortfolio(req.wallets[w], byNetwork, total))
  {
    hide BalancesOf, DetailsOk, SumMap, SumReal, Values;
    forall name | name in byNetwork
      ensures EntryAdds(byNetwork[name])
    {
      var n: nat :| Listed(req, w, done, n) && req.networks[n].name == name;
      assert EntryOk(req, w, n, byNetwork[name], rule);
    }
  }

  lemma BooksComplete(req: Request, w: nat, byNetwork: map<string, NetworkTokens>, total: real, rule: PriceRule)
    requires w < |req.wallets| && PortfolioBooks(req, w, byNetwork, total, AllNetworks(req), rule)
    ensures Complete(req, w, WalletPortfolio(req.wallets[w], byNetwork, total))
  {
    hide BalancesOf, SumMap, SumReal, Values, Detail, FormatUint;
    forall n: nat | HasBalances(req, w, n)
      ensures req.networks[n].name in byNetwork && ShowsBalances(req, w, n, byNetwork[req.networks[n].name])
    {
      assert Listed(req, w, AllNetworks(req), n);
      var entry := byNetwork[req.networks[n].name];
      assert EntryOk(req, w, n, entry, rule);
      assert forall k :: 0 <= k < |entry.tokens| ==> DetailOk(req, w, n, k, entry.tokens[k], rule);
    }
    forall name | name in byNetwork
      ensures exists n: nat :: HasBalances(req, w, n) && req.networks[n].name == name
    {
      var n: nat :| Listed(req, w, AllNetworks(req), n) && req.networks[n].name == name;
      assert HasBalances(req, w, n);
    }
  }

  lemma WalletConserves(req: Request, w: nat, ws: WalletState, rule: PriceRule, read: Range)
    requires WalletInOrder(req, w, ws, rule, read)
    ensures Conserves(PortfolioOf(req, w, ws))
    ensures !InLoop(ws.phase) ==>
      Complete(req, w, PortfolioOf(req, w, ws)) && multiset(ws.errors) == SumBag(ErrorBags(req, w, AllNetworks(req)))
  {
    hide BalancesOf, ErrorsOf, PortfolioBooks, Conserves, Complete, SumBag, ErrorBags, Readings, WorkerBooks,
         WithinBalances;
    BooksConserve(req, w, ws.byNetwork, ws.total, MergedIn(ws), rule);
    if !InLoop(ws.phase) {
      DoneIsComplete(req, w, ws, rule, read);
      BooksComplete(req, w, ws.byNetwork, ws.total, rule);
    }
  }

  /**
   What a finished request returns: a portfolio of each wallet in some order, each conserving and
   complete, and every error once.
   */
  ghost predicate ReturnsAll(req: Request, collected: seq<WalletPortfolio>, errors: seq<PortfolioError>,
                             portfolios: seq<WalletPortfolio>)
  {
    && |portfolios| == |req.wallets| && multiset(collected) == multiset(portfolios)
    && (forall w :: 0 <= w < |portfolios| ==> Conserves(portfolios[w]) && Complete(req, w, portfolios[w]))
    && multiset(errors) == SumBag(AllErrors(req))
  }

  lemma RequestConserves(req: Request, rs: RequestState, rule: PriceRule, read: Range)
    requires InControl(req, rs) && RequestBooks(req, rs, rule, read) && rs.collected.Some?
    ensures ReturnsAll(req, rs.collected.value, rs.errors, Portfolios(req, rs))
  {
    hide Conserves, Complete, PortfolioOf, SumBag, ErrorBags, Control, Books, Readings;
    ReturnedBooks(req, rs, rule, read);
    forall w | 0 <= w < |rs.wallets|
      ensures Conserves(Portfolios(req, rs)[w]) && Complete(req, w, Portfolios(req, rs)[w])
      ensures WalletErrors(rs)[w] == AllErrors(req)[w]
    {
      OrderOf(req, rs, w, rule, read);
      WalletConserves(req, w, rs.wallets[w], rule, read);
    }
    assert WalletErrors(rs) == AllErrors(req);
  }

  // ---- The grand total -----------------------------------------------------------------------

  function WalletTotals(portfolios: seq<WalletPortfolio>): seq<real>
  {
    seq(|portfolios|, i requires 0 <= i < |portfolios| => portfolios[i].totalValueUSD)
  }

  /** The sum of all token values of a portfolio. */
  ghost function TokenTotal(p: WalletPortfolio): real
  {
    SumMap(map name | name in p.balancesByNetwork :: SumReal(Values(p.balancesByNetwork[name].tokens)))
  }

  ghost function TokenTotals(portfolios: seq<WalletPortfolio>): seq<real>
  {
    seq(|portfolios|, i requires 0 <= i < |portfolios| => TokenTotal(portfolios[i]))
  }

  /** The handler's loop. */
  method GrandTotal(portfolios: seq<WalletPortfolio>) returns (grandTotal: real)
    ensures grandTotal == SumReal(WalletTotals(portfolios))
  {
    grandTotal := 0.0;
    for i := 0 to |portfolios|
      invariant grandTotal == SumReal(WalletTotals(portfolios)[..i])
    {
      grandTotal := grandTotal + portfolios[i].totalValueUSD;
      assert WalletTotals(portfolios)[..i + 1][..i] == WalletTotals(portfolios)[..i];
    }
    assert WalletTotals(portfolios)[..|portfolios|] == WalletTotals(portfolios);
  }

  lemma TotalIsTokenTotal(p: WalletPortfolio)
    requires Conserves(p)
    ensures p.totalValueUSD == TokenTotal(p)
  {
    hide SumMap, SumReal, Values;
    assert Totals(p.balancesByNetwork)
      == map name | name in p.balancesByNetwork :: SumReal(Values(p.balancesByNetwork[name].tokens));
  }

  lemma GrandTotalIsTokenTotal(portfolios: seq<WalletPortfolio>)
    requires forall p :: p in portfolios ==> Conserves(p)
    ensures SumReal(WalletTotals(portfolios)) == SumReal(TokenTotals(portfolios))
  {
    hide Conserves, TokenTotal;
    forall i | 0 <= i < |portfolios|
      ensures WalletTotals(portfolios)[i] == TokenTotals(portfolios)[i]
    {
      assert portfolios[i] in portfolios;
      TotalIsTokenTotal(portfolios[i]);
    }
    assert WalletTotals(portfolios) == TokenTotals(portfolios);
  }

  lemma CollectedConserve(req: Request, collected: seq<WalletPortfolio>, errors: seq<PortfolioError>,
                          portfolios: seq<WalletPortfolio>)
    requires ReturnsAll(req, collected, errors, portfolios)
    ensures forall p :: p in collected ==> Conserves(p)
  {
    hide Conserves, Complete;
    forall p | p in collected
      ensures Conserves(p)
    {
      assert p in multiset(collected);
      assert p in portfolios;
    }
  }

  /**
   Conservation: in every run of any requests whose networks have distinct names,
   every wallet's portfolio adds up at every moment; and a request that has returned
   returns one portfolio per wallet, each showing every balance fetched and adding up,
   every error once, and a grand total that is the sum of all token values.
   */
  lemma ValueConserved(reqs: seq<Request>, shared: Shared, history: seq<Happening>, r: nat)
    requires WellNamed(reqs) && r < |reqs|
    ensures var end := Run(reqs, SystemInitial(reqs, shared), history);
      end.Some? ==>
        var rs := end.value.requests[r];
        && (forall w: nat :: w < |rs.wallets| ==> Conserves(PortfolioOf(reqs[r], w, rs.wallets[w])))
        && (rs.collected.Some? ==>
              && ReturnsAll(reqs[r], rs.collected.value, rs.errors, Portfolios(reqs[r], rs))
              && SumReal(WalletTotals(rs.collected.value)) == SumReal(TokenTotals(rs.collected.value)))
  {
    SystemInitialInControl(reqs, shared);
    SystemInitialBooks(reqs, shared, NoRules(), NoRanges());
    RunAccounted(reqs, SystemInitial(reqs, shared), history);
    var end := Run(reqs, SystemInitial(reqs, shared), history);
    hide RequestBooks, InControl, SystemInitial, Run, Conserves, ReturnsAll, PortfolioOf, SumReal;
    if end.Some? {
      var rs := end.value.requests[r];
      WalletsConserve(reqs[r], rs);
      if rs.collected.Some? {
        RequestConserves(reqs[r], rs, NoRules()(r), NoRange());
        CollectedConserve(reqs[r], rs.collected.value, rs.errors, Portfolios(reqs[r], rs));
        GrandTotalIsTokenTotal(rs.collected.value);
      }
    }
  }

  lemma WalletsConserve(req: Request, rs: RequestState)
    requires |rs.wallets| == |req.wallets| && RequestBooks(req, rs, NoRules()(0), NoRange())
    ensures forall w: nat :: w < |rs.wallets| ==> Conserves(PortfolioOf(req, w, rs.wallets[w]))
  {
    hide Conserves, Complete, PortfolioOf, WalletInOrder;
    forall w: nat | w < |rs.wallets|
      ensures Conserves(PortfolioOf(req, w, rs.wallets[w]))
    {
      OrderOf(req, rs, w, NoRules()(0), NoRange());
      WalletConserves(req, w, rs.wallets[w], NoRules()(0), NoRange());
    }
  }
}
