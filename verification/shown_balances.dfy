/**
 What a finished call shows, from the files, the nodes and the price cache alone: every
 asset with an amount reported, and nothing else, whatever the schedule.
 */
module ShownBalances {
  import opened Wrappers
  import opened Entities
  import opened Strings
  import opened Sums
  import opened NetworkDefinitions
  import opened TokenLoader
  import opened TokenPrices
  import opened BigIntUtils
  import opened EvmClient
  import opened NetworkBalances
  import opened PortfolioRun
  import opened WalletControl
  import opened WalletBooks
  import opened RunControl
  import opened RunBooks
  import opened RunConservation
  import opened GlobalPrice
  import opened PortfolioService
  import opened Pricing
  import opened ServiceAnswers

  // ---- What is to be shown -----------------------------------------------------------

  /** The positive price cached for the address on the network, if there is one, and zero if not. */
  ghost predicate IsTokenPrice(prices: PriceTable, d: NetworkDefinition, address: string, price: real)
  {
    && price >= 0.0
    && forall p: real :: p > 0.0 ==>
         (price == p <==> d.dexScreenerChainID != "" && PriceAt(prices, d.dexScreenerChainID, address) == Some(p))
  }

  /** The positive price cached for the network's wrapped token, if there is one, and zero if not. */
  ghost predicate IsWrappedPrice(prices: PriceTable, d: NetworkDefinition, price: real)
  {
    price >= 0.0 && forall p: real :: p > 0.0 ==> (price == p <==> HasWrappedPrice(prices, d, p))
  }

  /** A token has its own price, ether none or a sourced one, and any other native asset its wrapped token's. */
  ghost predicate IsPrice(reqs: seq<Request>, start: Option<real>, r: nat, d: NetworkDefinition, address: string,
                          price: real)
    requires r < |reqs|
  {
    if address != "" && !EqualFold(address, ZERO_ADDRESS) then IsTokenPrice(reqs[r].prices, d, address, price)
    else if EqualFold(d.nativeSymbol, "ETH") then price == 0.0 || Sourced(reqs, start, price)
    else IsWrappedPrice(reqs[r].prices, d, price)
  }

  /** The amount as text, and its value at the price shown, if it can be computed. */
  predicate ShowsAmount(detail: TokenDetail, amount: nat)
  {
    && detail.formattedBalance == FormatBigInt(Some(amount), detail.decimals).text
    && if detail.priceUSD <= 0.0 then detail.valueUSD == 0.0
       else match ValueOf(amount, detail.decimals, detail.priceUSD)
         case Ok(value) => detail.valueUSD == value
         case Err(_) => detail.valueUSD == 0.0
  }

  /** The detail is of the network's own asset at the position and of the amount reported for it. */
  ghost predicate ShowsAsset(reqs: seq<Request>, start: Option<real>, r: nat, d: NetworkDefinition, own: seq<TokenInfo>,
                             i: nat, reply: Reply, detail: TokenDetail)
    requires r < |reqs|
  {
    && NamesAsset(d, own, i, detail.tokenAddress, detail.tokenSymbol, i == 0)
    && HasDecimals(d, own, i, detail.decimals)
    && IsPrice(reqs, start, r, d, detail.tokenAddress, detail.priceUSD)
    && exists amount: nat :: amount > 0 && ReportsAt(i, reply, amount) && ShowsAmount(detail, amount)
  }

  /** The details are those of exactly the positions with an amount reported, in order, and they add up. */
  ghost predicate ShowsNetwork(reqs: seq<Request>, start: Option<real>, r: nat, d: NetworkDefinition,
                               own: seq<TokenInfo>, replies: nat -> Reply, at: seq<nat>, entry: NetworkTokens)
    requires r < |reqs|
  {
    && entry.chainID == FormatUint(d.chainID) && EntryAdds(entry)
    && Increasing(at) && |entry.tokens| == |at|
    && (forall i: nat :: i in at <==> (i <= |own| && ReportsSomeAt(i, replies(i))))
    && forall k :: 0 <= k < |at| ==> ShowsAsset(reqs, start, r, d, own, at[k], replies(at[k]), entry.tokens[k])
  }

  /** The client connects, the node answers, and some amount is reported. */
  ghost predicate HasSomething(answers: Answers, w: nat, n: nat, own: seq<TokenInfo>)
  {
    && answers.connect(w, n).None? && answers.reply(w, n).Answered?
    && exists i: nat :: i <= |own| && ReportsSomeAt(i, answers.reply(w, n).replies(i))
  }

  /** What is read from the files of the network's own name. */
  function Own(call: Call, listing: seq<DirEntry>, contents: FileContents, n: nat): seq<TokenInfo>
    requires call.start.Prepared? && n < |call.start.networks|
  {
    OwnTokensOf(call.start.networks[n], contents, listing)
  }

  /** The network has an entry exactly if something is reported for its assets, and the entry shows that. */
  ghost predicate NetworkIsShown(call: Call, answers: Answers, listing: seq<DirEntry>, contents: FileContents,
                                 reqs: seq<Request>, start: Option<real>, r: nat, w: nat, n: nat,
                                 byNetwork: map<string, NetworkTokens>)
    requires r < |reqs| && call.start.Prepared? && n < |call.start.networks|
  {
    var d, own := call.start.networks[n], Own(call, listing, contents, n);
    && (d.name in byNetwork <==> HasSomething(answers, w, n, own))
    && (d.name in byNetwork ==>
          exists at :: ShowsNetwork(reqs, start, r, d, own, answers.reply(w, n).replies, at, byNetwork[d.name]))
  }

  ghost predicate IsNameAmong(networks: seq<NetworkDefinition>, name: string)
  {
    exists n: nat :: n < |networks| && networks[n].name == name
  }

  /** Exactly the networks with something reported are shown, under their names, and their totals add up. */
  ghost predicate ShowsWallet(call: Call, answers: Answers, listing: seq<DirEntry>, contents: FileContents,
                              reqs: seq<Request>, start: Option<real>, r: nat, w: nat, p: WalletPortfolio)
    requires r < |reqs| && call.start.Prepared? && w < |call.start.wallets|
  {
    && p.walletAddress == call.start.wallets[w]
    && p.totalValueUSD == SumMap(Totals(p.balancesByNetwork))
    && (forall name :: name in p.balancesByNetwork ==> IsNameAmong(call.start.networks, name))
    && forall n: nat :: n < |call.start.networks| ==>
         NetworkIsShown(call, answers, listing, contents, reqs, start, r, w, n, p.balancesByNetwork)
  }

  /** No two networks share a key, and the tokens are grouped as the loader groups them. */
  ghost predicate WellGrouped(call: Call, listing: seq<DirEntry>, contents: FileContents)
    requires call.start.Prepared?
  {
    && PairwiseUnlike(call.start.networks)
    && Groups(call.start.tokensByChainID, ByIdentifier(call.start.networks), contents, listing)
  }

  lemma PreparedGrouped(call: Call, files: seq<DirEntry>, names: seq<string>, listing: seq<DirEntry>,
                        contents: FileContents)
    requires call.start.Prepared? && PreparedFrom(call, files, names, listing, contents)
    ensures WellGrouped(call, listing, contents)
  {
    hide KNOWN_DEFINITIONS, ActiveDefinitions, ByIdentifier, Tracked, Groups, PairwiseUnlike;
    DirectoryUnlike(call.start.networks, files, names);
  }

  // ---- What is fetched ---------------------------------------------------------------------

  lemma AskedParts(call: Call, answers: Answers)
    requires call.start.Prepared?
    ensures var req := Asked(call, answers);
      && req.wallets == call.start.wallets && req.networks == call.start.networks && req.connect == answers.connect
      && req.prices == call.prices && forall a: nat, d: nat, p: real :: req.valuate(a, d, p) == ValueOf(a, d, p)
  {
    hide ValueOf, FetchFor;
  }

  lemma ListedSomething(balances: seq<Balance>, wallet: string, d: NetworkDefinition, own: seq<TokenInfo>,
                        replies: nat -> Reply, at: seq<nat>)
    requires ListsReported(balances, wallet, d, own, replies, at)
    ensures balances != [] <==> exists i: nat :: i <= |own| && ReportsSomeAt(i, replies(i))
  {
    hide ReportsSomeAt, IsOwnBalance;
    if balances != [] {
      var i: nat := at[0];
      assert i in at;
    }
  }

  /** The balances of a network are those reported for its own assets, none without a client or an answer. */
  lemma FetchedAsReported(call: Call, answers: Answers, listing: seq<DirEntry>,
                          contents: FileContents, w: nat, n: nat)
    returns (at: seq<nat>)
    requires call.start.Prepared? && WellGrouped(call, listing, contents)
    requires w < |call.start.wallets| && n < |call.start.networks|
    ensures AsFetched(call, answers, listing, contents, w, n, at)
  {
    var req, networks, d := Asked(call, answers), call.start.networks, call.start.networks[n];
    var wallet := call.start.wallets[w];
    AskedParts(call, answers);
    OutcomeOfClient(req, w, n);
    at := [];
    hide Outcome, Asked, ListsReported, ListsFailed, OwnTokensOf, FetchBalances, ReportsSomeAt, FormatUint, ListAt,
         Groups, ByIdentifier, ValueOf;
    if answers.connect(w, n).None? {
      var tokens := ListAt(call.start.tokensByChainID, FormatUint(d.chainID));
      AskedOutcome(call, answers, w, n);
      match answers.reply(w, n)
      case Refused(why) =>
        RefusedBatch(wallet, d, tokens, why);
      case Answered(replies) =>
        var failed;
        at, failed := OwnBalances(networks, contents, listing, call.start.tokensByChainID, wallet, d, replies);
        ListedSomething(BalancesOf(req, w, n), wallet, d, Own(call, listing, contents, n), replies, at);
    }
  }

  /** The error is about the wallet on the network as a whole. */
  predicate IsWholeError(e: PortfolioError, wallet: string, d: NetworkDefinition, message: string)
  {
    && e.walletAddress == wallet && OfNetwork(e.networkName, e.chainID, d)
    && e.tokenSymbol == "" && e.tokenAddress == "" && !e.isNative && e.message == message
  }

  /**
   One error for a missing client or a refused batch; otherwise one for each asset with nothing
   reported, in order.
   */
  ghost predicate TellsTroubles(call: Call, answers: Answers, listing: seq<DirEntry>, contents: FileContents, w: nat,
                                n: nat, errors: seq<PortfolioError>, at: seq<nat>)
    requires call.start.Prepared? && w < |call.start.wallets| && n < |call.start.networks|
  {
    var wallet, d := call.start.wallets[w], call.start.networks[n];
    match answers.connect(w, n)
    case Some(why) => |errors| == 1 && IsWholeError(errors[0], wallet, d, "Failed to get client: " + why)
    case None =>
      match answers.reply(w, n)
      case Refused(why) =>
        |errors| == 1
        && IsWholeError(errors[0], wallet, d, "batch balance fetch failed: " + ("RPC batch call failed: " + why))
      case Answered(replies) => ListsFailed(errors, wallet, d, Own(call, listing, contents, n), replies, at)
  }

  lemma FailedAsReported(call: Call, answers: Answers, listing: seq<DirEntry>, contents: FileContents, w: nat, n: nat)
    returns (at: seq<nat>)
    requires call.start.Prepared? && WellGrouped(call, listing, contents)
    requires w < |call.start.wallets| && n < |call.start.networks|
    ensures TellsTroubles(call, answers, listing, contents, w, n, ErrorsOf(Asked(call, answers), w, n), at)
  {
    var req, networks, d := Asked(call, answers), call.start.networks, call.start.networks[n];
    var wallet := call.start.wallets[w];
    AskedParts(call, answers);
    OutcomeOfClient(req, w, n);
    at := [];
    hide Outcome, Asked, ListsReported, ListsFailed, OwnTokensOf, FetchBalances, FormatUint, ListAt, Groups,
         ByIdentifier, ValueOf;
    if answers.connect(w, n).None? {
      var tokens := ListAt(call.start.tokensByChainID, FormatUint(d.chainID));
      AskedOutcome(call, answers, w, n);
      match answers.reply(w, n)
      case Refused(why) =>
        RefusedBatch(wallet, d, tokens, why);
      case Answered(replies) =>
        var paid;
        paid, at := OwnBalances(networks, contents, listing, call.start.tokensByChainID, wallet, d, replies);
    }
  }

  ghost predicate AsFetched(call: Call, answers: Answers, listing: seq<DirEntry>, contents: FileContents, w: nat,
                            n: nat, at: seq<nat>)
    requires call.start.Prepared? && w < |call.start.wallets| && n < |call.start.networks|
  {
    var balances, own := BalancesOf(Asked(call, answers), w, n), Own(call, listing, contents, n);
    && (balances != [] <==> HasSomething(answers, w, n, own))
    && (answers.connect(w, n).None? && answers.reply(w, n).Answered? ==>
          ListsReported(balances, call.start.wallets[w], call.start.networks[n], own, answers.reply(w, n).replies, at))
  }

  // ---- What is shown of it -----------------------------------------------------------------

  lemma PriceShown(reqs: seq<Request>, start: Option<real>, r: nat, w: nat, n: nat, k: nat, price: real)
    requires r < |reqs| && w < |reqs[r].wallets| && n < |reqs[r].networks| && k < |BalancesOf(reqs[r], w, n)|
    requires SourcedPrice(reqs, start, r, w, n, k, price)
    ensures IsPrice(reqs, start, r, reqs[r].networks[n], BalancesOf(reqs[r], w, n)[k].tokenAddress, price)
  {
    var d, nb := reqs[r].networks[n], BalancesOf(reqs[r], w, n)[k];
    hide BalancesOf, PriceOf, Sourced, HasWrappedPrice;
    GloballyPricedIff(d);
    if nb.tokenAddress != "" && !EqualFold(nb.tokenAddress, ZERO_ADDRESS) {
      TokenPriceIff(reqs[r].prices, d, nb, None, nb.tokenAddress);
    } else {
      NativePriceIff(reqs[r].prices, d, nb, None);
    }
  }

  lemma AssetShown(reqs: seq<Request>, start: Option<real>, r: nat, w: nat, n: nat, k: nat, own: seq<TokenInfo>,
                   i: nat, reply: Reply, detail: TokenDetail)
    requires r < |reqs| && w < |reqs[r].wallets| && n < |reqs[r].networks| && k < |BalancesOf(reqs[r], w, n)|
    requires DetailOk(reqs[r], w, n, k, detail, SourcedRules(reqs, start)(r))
    requires forall a: nat, d: nat, p: real :: reqs[r].valuate(a, d, p) == ValueOf(a, d, p)
    requires IsOwnBalance(BalancesOf(reqs[r], w, n)[k], reqs[r].wallets[w], reqs[r].networks[n], own, i, reply)
    ensures ShowsAsset(reqs, start, r, reqs[r].networks[n], own, i, reply, detail)
  {
    hide BalancesOf, SourcedPrice, IsPrice, HasDecimals, FormatBigInt, ValueOf, ReportsAt;
    PriceShown(reqs, start, r, w, n, k, detail.priceUSD);
    var nb := BalancesOf(reqs[r], w, n)[k];
    ShownAsPriced(reqs[r], nb, detail.priceUSD);
    hide Detail;
    assert reqs[r].valuate(nb.amount.value, nb.decimals, detail.priceUSD)
        == ValueOf(nb.amount.value, nb.decimals, detail.priceUSD);
    assert ShowsAmount(detail, nb.amount.value);
  }

  lemma NetworkShown(reqs: seq<Request>, start: Option<real>, r: nat, w: nat, n: nat, own: seq<TokenInfo>,
                     replies: nat -> Reply, at: seq<nat>, entry: NetworkTokens)
    requires r < |reqs| && w < |reqs[r].wallets| && n < |reqs[r].networks|
    requires EntryOk(reqs[r], w, n, entry, SourcedRules(reqs, start)(r))
    requires forall a: nat, d: nat, p: real :: reqs[r].valuate(a, d, p) == ValueOf(a, d, p)
    requires ListsReported(BalancesOf(reqs[r], w, n), reqs[r].wallets[w], reqs[r].networks[n], own, replies, at)
    ensures ShowsNetwork(reqs, start, r, reqs[r].networks[n], own, replies, at, entry)
  {
    hide BalancesOf, IsOwnBalance, DetailOk, SourcedRules, ShowsAsset, ReportsSomeAt, FormatUint, ValueOf, SumReal;
    forall k | 0 <= k < |at|
      ensures ShowsAsset(reqs, start, r, reqs[r].networks[n], own, at[k], replies(at[k]), entry.tokens[k])
    {
      AssetShown(reqs, start, r, w, n, k, own, at[k], replies(at[k]), entry.tokens[k]);
    }
  }

  /** In a portfolio with all networks merged, exactly those with balances have an entry. */
  lemma EntryIff(req: Request, w: nat, byNetwork: map<string, NetworkTokens>, total: real, rule: PriceRule, n: nat)
    requires w < |req.wallets| && n < |req.networks| && DistinctNames(req)
    requires PortfolioBooks(req, w, byNetwork, total, AllNetworks(req), rule)
    ensures req.networks[n].name in byNetwork <==> BalancesOf(req, w, n) != []
    ensures req.networks[n].name in byNetwork ==> EntryOk(req, w, n, byNetwork[req.networks[n].name], rule)
  {
    hide BalancesOf, EntryOk, SumMap, Totals;
    var name := req.networks[n].name;
    assert BalancesOf(req, w, n) != [] ==> Listed(req, w, AllNetworks(req), n);
    if name in byNetwork {
      var m: nat :| Listed(req, w, AllNetworks(req), m) && req.networks[m].name == name;
      assert m == n;
    }
  }

  lemma EntriesNamed(req: Request, w: nat, byNetwork: map<string, NetworkTokens>, total: real, rule: PriceRule)
    requires w < |req.wallets| && PortfolioBooks(req, w, byNetwork, total, AllNetworks(req), rule)
    ensures forall name :: name in byNetwork ==> IsNameAmong(req.networks, name)
  {
    hide BalancesOf, EntryOk, SumMap, Totals;
    forall name | name in byNetwork
      ensures IsNameAmong(req.networks, name)
    {
      var m: nat :| Listed(req, w, AllNetworks(req), m) && req.networks[m].name == name;
    }
  }

  lemma OneNetworkShown(reqs: seq<Request>, start: Option<real>, r: nat, w: nat, n: nat, call: Call, answers: Answers,
                        listing: seq<DirEntry>, contents: FileContents,
                        byNetwork: map<string, NetworkTokens>)
    requires call.start.Prepared? && WellGrouped(call, listing, contents)
    requires w < |call.start.wallets| && n < |call.start.networks| && r < |reqs| && reqs[r] == Asked(call, answers)
    requires w < |reqs[r].wallets| && n < |reqs[r].networks|
    requires var name := call.start.networks[n].name;
      && (name in byNetwork <==> BalancesOf(reqs[r], w, n) != [])
      && (name in byNetwork ==> EntryOk(reqs[r], w, n, byNetwork[name], SourcedRules(reqs, start)(r)))
    ensures NetworkIsShown(call, answers, listing, contents, reqs, start, r, w, n, byNetwork)
  {
    AskedParts(call, answers);
    hide Asked, BalancesOf, EntryOk, SourcedRules, ShowsNetwork, Own, HasSomething, WellGrouped, ListsReported, ValueOf;
    var at := FetchedAsReported(call, answers, listing, contents, w, n);
    var d, own := call.start.networks[n], Own(call, listing, contents, n);
    if d.name in byNetwork {
      SomethingAnswered(answers, w, n, own);
      NetworkShown(reqs, start, r, w, n, own, answers.reply(w, n).replies, at, byNetwork[d.name]);
    }
  }

  /** A wallet's books, once all its networks are merged, show what was reported. */
  lemma WalletShown(reqs: seq<Request>, start: Option<real>, r: nat, w: nat, call: Call, answers: Answers,
                    listing: seq<DirEntry>, contents: FileContents,
                    byNetwork: map<string, NetworkTokens>, total: real)
    requires call.start.Prepared? && WellGrouped(call, listing, contents)
    requires r < |reqs| && reqs[r] == Asked(call, answers) && w < |call.start.wallets| && DistinctNames(reqs[r])
    requires w < |reqs[r].wallets|
    requires PortfolioBooks(reqs[r], w, byNetwork, total, AllNetworks(reqs[r]), SourcedRules(reqs, start)(r))
    ensures ShowsWallet(call, answers, listing, contents, reqs, start, r, w,
                        WalletPortfolio(call.start.wallets[w], byNetwork, total))
  {
    AskedParts(call, answers);
    assert total == SumMap(Totals(byNetwork));
    hide Asked, BalancesOf, EntryOk, SourcedRules, NetworkIsShown, WellGrouped, PortfolioBooks, SumMap, Totals,
         DistinctNames, ValueOf;
    EntriesNamed(reqs[r], w, byNetwork, total, SourcedRules(reqs, start)(r));
    forall n: nat | n < |call.start.networks|
      ensures NetworkIsShown(call, answers, listing, contents, reqs, start, r, w, n, byNetwork)
    {
      EntryIff(reqs[r], w, byNetwork, total, SourcedRules(reqs, start)(r), n);
      OneNetworkShown(reqs, start, r, w, n, call, answers, listing, contents, byNetwork);
    }
  }

  lemma SomethingAnswered(answers: Answers, w: nat, n: nat, own: seq<TokenInfo>)
    requires HasSomething(answers, w, n, own)
    ensures answers.connect(w, n).None? && answers.reply(w, n).Answered?
  {
  }

  lemma RequestShown(reqs: seq<Request>, start: Option<real>, r: nat, w: nat, call: Call, answers: Answers,
                     listing: seq<DirEntry>, contents: FileContents,
                     rs: RequestState)
    requires call.start.Prepared? && WellGrouped(call, listing, contents)
    requires r < |reqs| && reqs[r] == Asked(call, answers) && w < |call.start.wallets| && DistinctNames(reqs[r])
    requires InControl(reqs[r], rs)
    requires RequestBooks(reqs[r], rs, SourcedRules(reqs, start)(r), SourcedRange(reqs, start))
    requires rs.collected.Some?
    ensures |rs.wallets| == |reqs[r].wallets| == |call.start.wallets|
    ensures ShowsWallet(call, answers, listing, contents, reqs, start, r, w, Portfolios(reqs[r], rs)[w])
  {
    var req, rule, read := reqs[r], SourcedRules(reqs, start)(r), SourcedRange(reqs, start);
    AskedParts(call, answers);
    hide Asked, ShowsWallet, SourcedRules, SourcedRange, WellGrouped, PortfolioBooks, DistinctNames, RequestBooks,
         ErrorBooks, ValueOf;
    OrderOf(req, rs, w, rule, read);
    hide WalletInOrder, Control;
    var ws := rs.wallets[w];
    DoneIsComplete(req, w, ws, rule, read);
    WalletShown(reqs, start, r, w, call, answers, listing, contents, ws.byNetwork, ws.total);
  }

  /** A finished request has returned one portfolio per wallet, and each shows what was reported. */
  ghost predicate ReturnsShown(call: Call, answers: Answers, listing: seq<DirEntry>, contents: FileContents,
                               reqs: seq<Request>, start: Option<real>, r: nat, collected: seq<WalletPortfolio>,
                               portfolios: seq<WalletPortfolio>)
    requires r < |reqs| && call.start.Prepared?
  {
    && |portfolios| == |call.start.wallets| && multiset(collected) == multiset(portfolios)
    && forall w: nat :: w < |portfolios| ==>
         ShowsWallet(call, answers, listing, contents, reqs, start, r, w, portfolios[w])
  }

  lemma GroupedShown(calls: seq<Call>, answers: seq<Answers>, shared: Shared, history: seq<Happening>, r: nat,
                     listing: seq<DirEntry>, contents: FileContents)
    requires AllStarted(calls) && |answers| == |calls| && r < |calls| && WellNamed(Unanswered(calls))
    requires WellGrouped(calls[r], listing, contents)
    requires var start := GlobalPriceAt(shared.globalPrices, GLOBALLY_PRICED); start.Some? ==> start.value > 0.0
    ensures var reqs, start := AskedAll(calls, answers), GlobalPriceAt(shared.globalPrices, GLOBALLY_PRICED);
      var end := Run(reqs, SystemInitial(reqs, shared), history);
      end.Some? && end.value.requests[r].collected.Some? ==>
        var rs := end.value.requests[r];
        && |rs.wallets| == |reqs[r].wallets|
        && ReturnsShown(calls[r], answers[r], listing, contents, reqs, start, r, rs.collected.value,
                        Portfolios(reqs[r], rs))
  {
    var reqs, start := AskedAll(calls, answers), GlobalPriceAt(shared.globalPrices, GLOBALLY_PRICED);
    hide WellGrouped, DistinctNames;
    AskedAlike(calls, answers);
    assert reqs[r] == Asked(calls[r], answers[r]);
    TracedStart(reqs, shared);
    RunTraced(reqs, start, SystemInitial(reqs, shared), history);
    var end := Run(reqs, SystemInitial(reqs, shared), history);
    hide Run, SystemInitial, Asked, RequestBooks, InControl, ShowsWallet, SourcedRules, SourcedRange;
    if end.Some? && end.value.requests[r].collected.Some? {
      var rs := end.value.requests[r];
      ReturnedBooks(reqs[r], rs, SourcedRules(reqs, start)(r), SourcedRange(reqs, start));
      forall w: nat | w < |calls[r].start.wallets|
        ensures |rs.wallets| == |reqs[r].wallets| == |calls[r].start.wallets|
        ensures ShowsWallet(calls[r], answers[r], listing, contents, reqs, start, r, w, Portfolios(reqs[r], rs)[w])
      {
        RequestShown(reqs, start, r, w, calls[r], answers[r], listing, contents, rs);
      }
    }
  }

  /**
   What a call returns, from end to end: for any prepared calls, whatever clients and
   nodes answer and however the calls interleave, a finished call returns one portfolio
   for each wallet. It has an entry for exactly the networks with an amount reported, and
   the entry shows exactly the assets with one, each from its own file entry and reply,
   with the price that the cache holds for it and its value at that price.
   */
  lemma ShownAsReported(calls: seq<Call>, answers: seq<Answers>, shared: Shared, history: seq<Happening>, r: nat,
                        files: seq<DirEntry>, names: seq<string>, listing: seq<DirEntry>, contents: FileContents)
    requires AllPrepared(calls) && |answers| == |calls| && r < |calls| && AllStarted(calls)
    requires PreparedFrom(calls[r], files, names, listing, contents)
    requires var start := GlobalPriceAt(shared.globalPrices, GLOBALLY_PRICED); start.Some? ==> start.value > 0.0
    ensures var reqs, start := AskedAll(calls, answers), GlobalPriceAt(shared.globalPrices, GLOBALLY_PRICED);
      var end := Run(reqs, SystemInitial(reqs, shared), history);
      end.Some? && end.value.requests[r].collected.Some? ==>
        var rs := end.value.requests[r];
        && |rs.wallets| == |reqs[r].wallets|
        && ReturnsShown(calls[r], answers[r], listing, contents, reqs, start, r, rs.collected.value,
                        Portfolios(reqs[r], rs))
  {
    hide IsPrepared, PreparedFrom, WellGrouped, DistinctNames, ReturnsShown, Run, SystemInitial, Asked;
    PreparedNamed(calls);
    PreparedGrouped(calls[r], files, names, listing, contents);
    GroupedShown(calls, answers, shared, history, r, listing, contents);
  }
}
