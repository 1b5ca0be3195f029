/**
 The sequential portfolio of a wallet, and its agreement with every finished run: when
 the global price is settled the schedule does not matter, and in every run all value
 is conserved.
 */
module RunRefinement {
  import opened Wrappers
  import opened Entities
  import opened Sums
  import opened TokenPrices
  import opened PortfolioRun
  import opened WalletControl
  import opened WalletBooks
  import opened RunControl
  import opened RunBooks
  import opened GlobalPrice

  // ---- The sequential specification --------------------------------------------------

  /** What reading the shared cache gives for a balance, if the cache holds `current` throughout. */
  function SettledRead(d: NetworkDefinition, nb: Balance, current: Option<real>): Option<real>
  {
    if UsesGlobal(d, nb) then current else None
  }

  function SettledPrice(req: Request, w: nat, n: nat, k: nat, current: Option<real>): real
    requires w < |req.wallets| && n < |req.networks| && k < |BalancesOf(req, w, n)|
  {
    var d, nb := req.networks[n], BalancesOf(req, w, n)[k];
    PriceOf(req.prices, d, nb, SettledRead(d, nb, current)).price
  }

  /** A network's balances, priced in order. */
  function SeqDetails(req: Request, w: nat, n: nat, current: Option<real>): seq<TokenDetail>
    requires w < |req.wallets| && n < |req.networks|
  {
    var balances := BalancesOf(req, w, n);
    seq(|balances|, k requires 0 <= k < |balances| => Detail(req, balances[k], SettledPrice(req, w, n, k, current)))
  }

  datatype Tally = Tally(byNetwork: map<string, NetworkTokens>, total: real, errors: seq<PortfolioError>)

  /** One more network: its errors, and its entry if it has balances. */
  function SeqNetwork(req: Request, w: nat, n: nat, before: Tally, current: Option<real>): Tally
    requires w < |req.wallets| && n < |req.networks|
  {
    var d, details := req.networks[n], SeqDetails(req, w, n, current);
    var worth, errors := SumReal(Values(details)), before.errors + ErrorsOf(req, w, n);
    if details == [] then before.(errors := errors)
    else Tally(before.byNetwork[d.name := EntryOf(d, details, worth)], before.total + worth, errors)
  }

  /** The first m networks of a wallet, fetched and priced one after the other. */
  function SeqWallet(req: Request, w: nat, m: nat, current: Option<real>): Tally
    requires w < |req.wallets| && m <= |req.networks|
  {
    if m == 0 then Tally(map[], 0.0, []) else SeqNetwork(req, w, m - 1, SeqWallet(req, w, m - 1, current), current)
  }

  function SeqPortfolio(req: Request, w: nat, current: Option<real>): WalletPortfolio
    requires w < |req.wallets|
  {
    var tally := SeqWallet(req, w, |req.networks|, current);
    WalletPortfolio(req.wallets[w], tally.byNetwork, tally.total)
  }

  function SeqPortfolios(req: Request, current: Option<real>): seq<WalletPortfolio>
  {
    seq(|req.wallets|, w requires 0 <= w < |req.wallets| => SeqPortfolio(req, w, current))
  }

  function SeqErrors(req: Request, current: Option<real>): seq<multiset<PortfolioError>>
  {
    seq(|req.wallets|, w requires 0 <= w < |req.wallets| => multiset(SeqWallet(req, w, |req.networks|, current).errors))
  }

  // ---- The specification keeps books too ---------------------------------------------------

  predicate IsSettledPrice(req: Request, current: Option<real>, w: nat, n: nat, k: nat, price: real)
  {
    w < |req.wallets| && n < |req.networks| && k < |BalancesOf(req, w, n)| ==>
      price == SettledPrice(req, w, n, k, current)
  }

  function SettledRule(req: Request, current: Option<real>): PriceRule
  {
    (w: nat, n: nat, k: nat, price: real) => IsSettledPrice(req, current, w, n, k, price)
  }

  function Below(m: nat): Stage
  {
    (n: nat) => n < m
  }

  lemma SeqDetailsOk(req: Request, w: nat, n: nat, current: Option<real>)
    requires w < |req.wallets| && n < |req.networks|
    ensures DetailsOk(req, w, n, SeqDetails(req, w, n, current), SettledRule(req, current))
  {
    hide PriceOf, BalancesOf, Worth, UsesGlobal;
    var details := SeqDetails(req, w, n, current);
    forall k | 0 <= k < |details|
      ensures DetailOk(req, w, n, k, details[k], SettledRule(req, current))
    {
      assert IsSettledPrice(req, current, w, n, k, details[k].priceUSD);
    }
  }

  ghost predicate TallyBooks(req: Request, w: nat, tally: Tally, done: Stage, current: Option<real>)
    requires w < |req.wallets|
  {
    && PortfolioBooks(req, w, tally.byNetwork, tally.total, done, SettledRule(req, current))
    && ErrorBooks(req, w, tally.errors, done)
  }

  lemma EmptyTallyBooks(req: Request, w: nat, current: Option<real>)
    requires w < |req.wallets|
    ensures TallyBooks(req, w, Tally(map[], 0.0, []), Below(0), current)
  {
    hide BalancesOf, ErrorsOf, EntryOk;
    assert Totals(map[]) == map[];
    SumBagEmpty(ErrorBags(req, w, Below(0)));
  }

  lemma NextTallyBooks(req: Request, w: nat, n: nat, tally: Tally, current: Option<real>)
    requires w < |req.wallets| && n < |req.networks| && DistinctNames(req)
    requires TallyBooks(req, w, tally, Below(n), current)
    ensures TallyBooks(req, w, SeqNetwork(req, w, n, tally, current), Below(n + 1), current)
  {
    hide BalancesOf, ErrorsOf, DetailsOk, EntryOf, SettledRule, Values, SeqDetails, PortfolioBooks, ErrorBooks,
         DistinctNames, SumReal;
    SeqDetailsOk(req, w, n, current);
    SeqDetailsLength(req, w, n, current);
    var details := SeqDetails(req, w, n, current);
    AddEntry(req, w, tally.byNetwork, tally.total, Below(n), Below(n + 1), n, details, SumReal(Values(details)),
             SettledRule(req, current));
    AddErrors(req, w, tally.errors, Below(n), Below(n + 1), n);
  }

  lemma {:induction false} SeqBooks(req: Request, w: nat, m: nat, current: Option<real>)
    requires w < |req.wallets| && m <= |req.networks| && DistinctNames(req)
    ensures TallyBooks(req, w, SeqWallet(req, w, m, current), Below(m), current)
  {
    hide TallyBooks, SeqNetwork, DistinctNames, Below;
    if m == 0 {
      EmptyTallyBooks(req, w, current);
    } else {
      SeqBooks(req, w, m - 1, current);
      NextTallyBooks(req, w, m - 1, SeqWallet(req, w, m - 1, current), current);
    }
  }

  lemma SeqDetailsLength(req: Request, w: nat, n: nat, current: Option<real>)
    requires w < |req.wallets| && n < |req.networks|
    ensures |SeqDetails(req, w, n, current)| == |BalancesOf(req, w, n)|
  {
  }

  // ---- Books under a rule that fixes every price leave no choice ---------------------------------

  /** The rule allows at most one price for each balance of the wallet. */
  ghost predicate FixesPrices(req: Request, w: nat, rule: PriceRule)
    requires w < |req.wallets|
  {
    forall n: nat, k: nat, p: real, q: real ::
      n < |req.networks| && k < |BalancesOf(req, w, n)| && rule(w, n, k, p) && rule(w, n, k, q) ==> p == q
  }

  lemma SettledFixes(req: Request, w: nat, current: Option<real>)
    requires w < |req.wallets|
    ensures FixesPrices(req, w, SettledRule(req, current))
  {
    hide BalancesOf, SettledPrice;
    forall n: nat, k: nat, p: real, q: real
      | n < |req.networks| && k < |BalancesOf(req, w, n)|
        && SettledRule(req, current)(w, n, k, p) && SettledRule(req, current)(w, n, k, q)
      ensures p == q
    {
      assert IsSettledPrice(req, current, w, n, k, p) && IsSettledPrice(req, current, w, n, k, q);
    }
  }

  lemma DetailsUnique(req: Request, w: nat, n: nat, a: seq<TokenDetail>, b: seq<TokenDetail>, rule: PriceRule)
    requires w < |req.wallets| && n < |req.networks| && |a| == |b| && FixesPrices(req, w, rule)
    requires DetailsOk(req, w, n, a, rule) && DetailsOk(req, w, n, b, rule)
    ensures a == b
  {
    hide BalancesOf, Detail;
    forall k | 0 <= k < |a|
      ensures a[k] == b[k]
    {
      assert DetailOk(req, w, n, k, a[k], rule) && DetailOk(req, w, n, k, b[k], rule);
    }
  }

  lemma BooksUnique(req: Request, w: nat, a: map<string, NetworkTokens>, x: real,
                    b: map<string, NetworkTokens>, y: real, done: Stage, rule: PriceRule)
    requires w < |req.wallets| && FixesPrices(req, w, rule)
    requires PortfolioBooks(req, w, a, x, done, rule) && PortfolioBooks(req, w, b, y, done, rule)
    ensures a == b && x == y
  {
    hide BalancesOf, DetailsOk, FixesPrices, EntryOf, Values;
    assert a.Keys == b.Keys;
    forall name | name in a
      ensures a[name] == b[name]
    {
      var n: nat :| Listed(req, w, done, n) && req.networks[n].name == name;
      assert EntryOk(req, w, n, a[name], rule) && EntryOk(req, w, n, b[name], rule);
      DetailsUnique(req, w, n, a[name].tokens, b[name].tokens, rule);
    }
    assert a == b;
  }

  // ---- Every schedule agrees with the specification --------------------------------------------

  /** Some wallet of request r may hold a balance on network n that is priced through the shared cache. */
  predicate UsesCache(reqs: seq<Request>, r: nat, n: nat)
  {
    r < |reqs| && |reqs[r].wallets| > 0 && n < |reqs[r].networks| && GloballyPriced(reqs[r].networks[n])
  }

  function WrappedAt(reqs: seq<Request>, r: nat, n: nat): Option<real>
    requires r < |reqs| && n < |reqs[r].networks|
  {
    WrappedPrice(reqs[r].prices, reqs[r].networks[n])
  }

  /**
   Every reading of the shared cache leads to the price that `current` leads to: the
   cache holds `current` from the start and either that is a price or there is none to
   publish; or it starts empty and every network that uses it would publish `current`.
   */
  ghost predicate Settled(reqs: seq<Request>, start: Option<real>, current: Option<real>)
  {
    || (start == current
        && ((start.Some? && start.value > 0.0)
            || forall r: nat, n: nat :: UsesCache(reqs, r, n) ==> WrappedAt(reqs, r, n).None?))
    || (start.None? && current.Some?
        && forall r: nat, n: nat :: UsesCache(reqs, r, n) ==> WrappedAt(reqs, r, n) == current)
  }

  function SettledRules(reqs: seq<Request>, current: Option<real>): Rules
  {
    (r: nat) => if r < |reqs| then SettledRule(reqs[r], current) else (w: nat, n: nat, k: nat, price: real) => true
  }

  function Either(start: Option<real>, current: Option<real>): Range
  {
    (n: nat, cached: Option<real>) => cached == start || cached == current
  }

  function SettledRanges(start: Option<real>, current: Option<real>): Ranges
  {
    (r: nat) => Either(start, current)
  }

  lemma SettledCover(reqs: seq<Request>, start: Option<real>, current: Option<real>)
    requires Settled(reqs, start, current)
    ensures RulesCover(reqs, SettledRules(reqs, current), SettledRanges(start, current))
  {
    forall r: nat, w: nat, n: nat, k: nat, cached: Option<real>
      | r < |reqs| && w < |reqs[r].wallets| && n < |reqs[r].networks| && k < |BalancesOf(reqs[r], w, n)|
      ensures CoversPrice(reqs[r], SettledRules(reqs, current)(r), SettledRanges(start, current)(r), w, n, k, cached)
    {
      assert GloballyPriced(reqs[r].networks[n]) ==> UsesCache(reqs, r, n);
      hide BalancesOf, WrappedPrice, IsNative, GloballyPriced;
    }
  }

  /** Each balance priced has its sequential price, and what is cached or has been read leads to it. */
  ghost predicate InStep(reqs: seq<Request>, start: Option<real>, current: Option<real>, sys: System)
  {
    && SystemInControl(reqs, sys) && SystemBooks(reqs, sys, SettledRules(reqs, current), SettledRanges(start, current))
    && (Current(sys) == start || Current(sys) == current)
  }

  lemma SettledQuote(reqs: seq<Request>, r: nat, n: nat, nb: Balance, start: Option<real>, current: Option<real>,
                     cached: Option<real>)
    requires Settled(reqs, start, current) && r < |reqs| && |reqs[r].wallets| > 0 && n < |reqs[r].networks|
    requires UsesGlobal(reqs[r].networks[n], nb) ==> cached == start || cached == current
    ensures var publish := PriceOf(reqs[r].prices, reqs[r].networks[n], nb, cached).publish;
      publish.Some? ==> start.None? && publish == current
  {
    var d := reqs[r].networks[n];
    assert GloballyPriced(d) ==> UsesCache(reqs, r, n);
    hide WrappedPrice, IsNative, GloballyPriced;
  }

  /** Whatever is published is the settled price, and nothing is if the cache held it from the start. */
  lemma SettledPublication(reqs: seq<Request>, sys: System, h: Happening, start: Option<real>, current: Option<real>)
    requires InStep(reqs, start, current, sys) && SystemEnabled(reqs, sys, h) && Settled(reqs, start, current)
    ensures forall price :: Publishes(reqs[h.r], sys.requests[h.r], h.ev, price) ==>
      start.None? && current == Some(price)
  {
    if IsSet(h.ev) {
      var req, rs, w, n := reqs[h.r], sys.requests[h.r], h.ev.w, h.ev.step.n;
      SetReading(req, rs, h.ev, SettledRules(reqs, current)(h.r), Either(start, current));
      hide RequestBooks, InControl, BalancesOf, UsesGlobal, PriceOf, Settled;
      var worker := rs.wallets[w].workers[n];
      SettledQuote(reqs, h.r, n, BalancesOf(req, w, n)[|worker.details|], start, current, worker.cached);
    }
  }

  lemma InStepKept(reqs: seq<Request>, sys: System, h: Happening, start: Option<real>, current: Option<real>)
    requires InStep(reqs, start, current, sys) && SystemEnabled(reqs, sys, h) && Settled(reqs, start, current)
    requires WellNamed(reqs)
    ensures InStep(reqs, start, current, SystemApply(reqs, sys, h))
  {
    SystemStep(reqs, sys, h);
    SettledCover(reqs, start, current);
    SettledPublication(reqs, sys, h, start, current);
    CurrentAfter(reqs, sys, h);
    CachedInRange(reqs, sys, h, start, current);
    hide RequestBooks, InControl, Apply, Enabled, ShareAfter, RulesCover, Settled, DistinctNames,
         Publishes, SettledRules,
         InRange, GlobalPriceAt;
    SystemBooksKept(reqs, sys, h, SettledRules(reqs, current), SettledRanges(start, current));
    if price :| SetsTo(reqs, sys, h, price) {
      assert current == Some(price);
    }
  }

  lemma CachedInRange(reqs: seq<Request>, sys: System, h: Happening, start: Option<real>, current: Option<real>)
    requires Current(sys) == start || Current(sys) == current
    ensures InRange(SettledRanges(start, current)(h.r), GlobalPriceAt(sys.shared.globalPrices, GLOBALLY_PRICED))
  {
  }

  lemma {:induction false} RunInStep(reqs: seq<Request>, sys: System, history: seq<Happening>, start: Option<real>,
                                     current: Option<real>)
    requires InStep(reqs, start, current, sys) && Settled(reqs, start, current) && WellNamed(reqs)
    ensures var end := Run(reqs, sys, history); end.Some? ==> InStep(reqs, start, current, end.value)
    decreases |history|
  {
    if history != [] && SystemEnabled(reqs, sys, history[0]) {
      InStepKept(reqs, sys, history[0], start, current);
      hide SystemInControl, SystemBooks, Settled, WellNamed, SystemEnabled, SystemApply, SystemShaped, Current;
      RunInStep(reqs, SystemApply(reqs, sys, history[0]), history[1..], start, current);
    }
  }

  lemma WalletRefines(req: Request, w: nat, ws: WalletState, current: Option<real>, read: Range)
    requires WalletInOrder(req, w, ws, SettledRule(req, current), read) && ws.phase.Done? && DistinctNames(req)
    ensures PortfolioOf(req, w, ws) == SeqPortfolio(req, w, current)
    ensures multiset(ws.errors) == multiset(SeqWallet(req, w, |req.networks|, current).errors)
  {
    var tally := SeqWallet(req, w, |req.networks|, current);
    hide PortfolioBooks, SettledRule, SeqWallet, Books, Readings, DistinctNames;
    DoneIsComplete(req, w, ws, SettledRule(req, current), read);
    SeqBooks(req, w, |req.networks|, current);
    hide Control, WalletInOrder;
    SettledFixes(req, w, current);
    BooksUnique(req, w, ws.byNetwork, ws.total, tally.byNetwork, tally.total, Below(|req.networks|),
                SettledRule(req, current));
  }

  /**
   Schedule independence: if the global price is settled, because it is set when the run
   starts, or no wrapped token of a network that uses it has a price, or all of them have
   one and the same, then whatever the interleaving a request that has returned has
   returned a permutation of its wallets' sequential portfolios, and exactly their errors.
   */
  lemma EveryScheduleRefines(reqs: seq<Request>, shared: Shared, history: seq<Happening>, r: nat, current: Option<real>)
    requires WellNamed(reqs) && r < |reqs|
    requires Settled(reqs, GlobalPriceAt(shared.globalPrices, GLOBALLY_PRICED), current)
    ensures var end := Run(reqs, SystemInitial(reqs, shared), history);
      end.Some? && end.value.requests[r].collected.Some? ==>
        && multiset(end.value.requests[r].collected.value) == multiset(SeqPortfolios(reqs[r], current))
        && multiset(end.value.requests[r].errors) == SumBag(SeqErrors(reqs[r], current))
  {
    var start := GlobalPriceAt(shared.globalPrices, GLOBALLY_PRICED);
    InStepAtStart(reqs, shared, current);
    RunInStep(reqs, SystemInitial(reqs, shared), history, start, current);
    var end := Run(reqs, SystemInitial(reqs, shared), history);
    hide RequestBooks, InControl, SystemInitial, Run, SeqPortfolios, SeqErrors, Settled, GlobalPriceAt;
    if end.Some? && end.value.requests[r].collected.Some? {
      RequestRefines(reqs[r], end.value.requests[r], current, Either(start, current));
    }
  }

  lemma InStepAtStart(reqs: seq<Request>, shared: Shared, current: Option<real>)
    ensures InStep(reqs, GlobalPriceAt(shared.globalPrices, GLOBALLY_PRICED), current, SystemInitial(reqs, shared))
  {
    var start := GlobalPriceAt(shared.globalPrices, GLOBALLY_PRICED);
    SystemInitialInControl(reqs, shared);
    SystemInitialBooks(reqs, shared, SettledRules(reqs, current), SettledRanges(start, current));
    hide SystemInControl, SystemBooks;
  }

  lemma RequestRefines(req: Request, rs: RequestState, current: Option<real>, read: Range)
    requires InControl(req, rs) && DistinctNames(req) && rs.collected.Some?
    requires RequestBooks(req, rs, SettledRule(req, current), read)
    ensures multiset(rs.collected.value) == multiset(SeqPortfolios(req, current))
    ensures multiset(rs.errors) == SumBag(SeqErrors(req, current))
  {
    hide SettledRule, Books, Readings, SeqWallet, SeqPortfolio, PortfolioOf, DistinctNames, Control;
    ReturnedBooks(req, rs, SettledRule(req, current), read);
    forall w | 0 <= w < |rs.wallets|
      ensures Portfolios(req, rs)[w] == SeqPortfolios(req, current)[w]
      ensures WalletErrors(rs)[w] == SeqErrors(req, current)[w]
    {
      OrderOf(req, rs, w, SettledRule(req, current), read);
      WalletRefines(req, w, rs.wallets[w], current, read);
    }
    assert Portfolios(req, rs) == SeqPortfolios(req, current);
    assert WalletErrors(rs) == SeqErrors(req, current);
  }
}
