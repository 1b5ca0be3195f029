/** One wallet's balances on one network: requests built, sent as a batch, and sorted into balances and errors. */
module NetworkBalances {
  import opened Wrappers
  import opened Entities
  import opened Strings
  import opened Sums
  import opened NetworkDefinitions
  import opened TokenLoader
  import opened BigIntUtils
  import opened EvmClient

  /** The network's decimals as one byte; 0 stands for 18. */
  function NativeDecimals(d: NetworkDefinition): nat
  {
    (if d.decimals == 0 then 18 else d.decimals) % 256
  }

  function NativeRequest(wallet: string, d: NetworkDefinition): BalanceRequestItem
  {
    BalanceRequestItem(wallet + "-" + d.identifier + "-NATIVE", NATIVE_BALANCE_REQUEST, wallet, "",
                       d.nativeSymbol, NativeDecimals(d))
  }

  function TokenRequest(wallet: string, d: NetworkDefinition, token: TokenInfo): BalanceRequestItem
  {
    BalanceRequestItem(wallet + "-" + d.identifier + "-" + token.address, TOKEN_BALANCE_REQUEST, wallet, token.address,
                       token.symbol, token.decimals)
  }

  predicate OnNetwork(d: NetworkDefinition, token: TokenInfo)
  {
    FormatUint(token.chainID) == FormatUint(d.chainID)
  }

  /** The native request, then one for each token on the network's chain. */
  function RequestsFor(wallet: string, d: NetworkDefinition, tokens: seq<TokenInfo>): seq<BalanceRequestItem>
  {
    if tokens == [] then [NativeRequest(wallet, d)]
    else
      var before, last := RequestsFor(wallet, d, tokens[..|tokens| - 1]), tokens[|tokens| - 1];
      if OnNetwork(d, last) then before + [TokenRequest(wallet, d, last)] else before
  }

  function ErrorEntry(d: NetworkDefinition, r: BalanceResultItem): PortfolioError
    requires r.error.Some?
  {
    PortfolioError(r.walletAddress, d.name, FormatUint(d.chainID), r.tokenSymbol, r.tokenAddress, r.isNative,
                   r.error.value)
  }

  function BalanceEntry(d: NetworkDefinition, r: BalanceResultItem): Balance
  {
    Balance(r.walletAddress, d.name, FormatUint(d.chainID), r.tokenAddress, r.tokenSymbol, r.decimals, r.isNative,
            r.balance, r.formattedBalance)
  }

  predicate HasBalance(r: BalanceResultItem)
  {
    r.error.None? && r.balance.Some? && r.balance.value != 0
  }

  function Errors(d: NetworkDefinition, results: seq<BalanceResultItem>): seq<PortfolioError>
  {
    if results == [] then []
    else
      var before, last := Errors(d, results[..|results| - 1]), results[|results| - 1];
      if last.error.Some? then before + [ErrorEntry(d, last)] else before
  }

  function NonZeroBalances(d: NetworkDefinition, results: seq<BalanceResultItem>): seq<Balance>
  {
    if results == [] then []
    else
      var before, last := NonZeroBalances(d, results[..|results| - 1]), results[|results| - 1];
      if HasBalance(last) then before + [BalanceEntry(d, last)] else before
  }

  /** What a worker gets for its wallet and network. */
  function FetchBalances(wallet: string, d: NetworkDefinition, tokens: seq<TokenInfo>, reply: BatchReply): Fetched
  {
    var outcome := Balances(RequestsFor(wallet, d, tokens), reply);
    match outcome.error
    case Some(why) =>
      Fetched([], [PortfolioError(wallet, d.name, FormatUint(d.chainID), "", "", false,
                                  "batch balance fetch failed: " + why)])
    case None => Fetched(NonZeroBalances(d, outcome.results), Errors(d, outcome.results))
  }

  method FetchBalancesForNetwork(wallet: string, netDef: NetworkDefinition, tokensForNetwork: seq<TokenInfo>,
                                 reply: BatchReply)
    returns (balances: seq<Balance>, errors: seq<PortfolioError>)
    ensures Fetched(balances, errors) == FetchBalances(wallet, netDef, tokensForNetwork, reply)
  {
    hide AsksFor, Answers, IsAsReported, RequestsFor, FormatUint, Results, Blank;
    balances, errors := [], [];
    var requests := BuildRequests(wallet, netDef, tokensForNetwork);
    if |requests| == 0 {
      // Never taken: the native request is always there.
      assert false;
    }
    var outcome := GetBalances(requests, reply);
    if outcome.error.Some? {
      errors := [PortfolioError(wallet, netDef.name, FormatUint(netDef.chainID), "", "", false,
                                "batch balance fetch failed: " + outcome.error.value)];
      return;
    }
    var i := 0;
    while i < |outcome.results|
      invariant 0 <= i <= |outcome.results|
      invariant balances == NonZeroBalances(netDef, outcome.results[..i])
      invariant errors == Errors(netDef, outcome.results[..i])
    {
      var r := outcome.results[i];
      assert outcome.results[..i + 1][..i] == outcome.results[..i];
      i := i + 1;
      if r.error.Some? {
        errors := errors + [ErrorEntry(netDef, r)];
        continue;
      }
      if r.balance.Some? && r.balance.value != 0 {
        balances := balances + [BalanceEntry(netDef, r)];
      }
    }
    assert outcome.results[..i] == outcome.results;
  }

  method BuildRequests(wallet: string, netDef: NetworkDefinition, tokens: seq<TokenInfo>)
    returns (requests: seq<BalanceRequestItem>)
    ensures requests == RequestsFor(wallet, netDef, tokens) && requests != []
    ensures AsksFor(requests, wallet, netDef, OnChain(tokens, FormatUint(netDef.chainID)))
  {
    RequestsAskFor(wallet, netDef, tokens);
    hide FormatUint, AsksFor;
    requests := [NativeRequest(wallet, netDef)];
    var i := 0;
    while i < |tokens|
      invariant 0 <= i <= |tokens|
      invariant requests == RequestsFor(wallet, netDef, tokens[..i]) && requests != []
    {
      assert tokens[..i + 1][..i] == tokens[..i];
      if OnNetwork(netDef, tokens[i]) {
        requests := requests + [TokenRequest(wallet, netDef, tokens[i])];
      }
      i := i + 1;
    }
    assert tokens[..i] == tokens;
  }

  // ---- Requests: exactly one per token -------------------------------------------

  /** The network's decimals where one byte holds them, and 18 where it states none. */
  predicate StatesDecimals(d: NetworkDefinition, decimals: nat)
  {
    && (0 < d.decimals < 256 ==> decimals == d.decimals)
    && (d.decimals == 0 ==> decimals == 18)
  }

  /** The request is for the wallet's balance of the network's native asset. */
  predicate AsksNative(request: BalanceRequestItem, wallet: string, d: NetworkDefinition)
  {
    && request.kind == NATIVE_BALANCE_REQUEST && request.walletAddress == wallet && request.tokenAddress == ""
    && request.tokenSymbol == d.nativeSymbol && StatesDecimals(d, request.tokenDecimals)
  }

  /** The request is for the wallet's balance of this token. */
  predicate AsksToken(request: BalanceRequestItem, wallet: string, token: TokenInfo)
  {
    && request.kind == TOKEN_BALANCE_REQUEST && request.walletAddress == wallet
    && request.tokenAddress == token.address && request.tokenSymbol == token.symbol
    && request.tokenDecimals == token.decimals
  }

  /** One request for the native asset, then one for each of the tokens, in order. */
  ghost predicate AsksFor(requests: seq<BalanceRequestItem>, wallet: string, d: NetworkDefinition,
                          tokens: seq<TokenInfo>)
  {
    && |requests| == 1 + |tokens| && AsksNative(requests[0], wallet, d)
    && forall i :: 0 <= i < |tokens| ==> AsksToken(requests[i + 1], wallet, tokens[i])
  }

  /** Tokens on the network's chain are asked for and no others, each by its own fields. */
  lemma {:induction false} RequestsAskFor(wallet: string, d: NetworkDefinition, tokens: seq<TokenInfo>)
    ensures AsksFor(RequestsFor(wallet, d, tokens), wallet, d, OnChain(tokens, FormatUint(d.chainID)))
  {
    hide FormatUint;
    if tokens != [] {
      RequestsAskFor(wallet, d, tokens[..|tokens| - 1]);
    }
  }

  /** When every token is on the chain no token is skipped: one request each, in loader order, after the native one. */
  lemma OneRequestPerToken(wallet: string, d: NetworkDefinition, tokens: seq<TokenInfo>)
    requires forall t :: t in tokens ==> t.chainID == d.chainID
    ensures AsksFor(RequestsFor(wallet, d, tokens), wallet, d, tokens)
  {
    hide FormatUint, RequestsFor, AsksFor;
    RequestsAskFor(wallet, d, tokens);
    AllOnChain(tokens, d.chainID);
  }

  lemma {:induction false} AllOnChain(tokens: seq<TokenInfo>, chainID: nat)
    requires forall t :: t in tokens ==> t.chainID == chainID
    ensures OnChain(tokens, FormatUint(chainID)) == tokens
  {
    hide FormatUint;
    if tokens != [] {
      AllOnChain(tokens[..|tokens| - 1], chainID);
      assert tokens == tokens[..|tokens| - 1] + [tokens[|tokens| - 1]];
    }
  }

  /** That is the case for whatever the loader groups under a network's printed chain ID. */
  lemma LoaderFeedsRequests(defs: seq<NetworkDefinition>, contents: FileContents, files: seq<DirEntry>,
                            tokensByChainID: map<string, seq<TokenInfo>>, wallet: string, d: NetworkDefinition)
    requires PairwiseUnlike(defs) && d in defs
    requires Groups(tokensByChainID, ByIdentifier(defs), contents, files)
    ensures var tokens := ListAt(tokensByChainID, FormatUint(d.chainID));
      && tokens == OwnTokensOf(d, contents, files)
      && AsksFor(RequestsFor(wallet, d, tokens), wallet, d, tokens)
  {
    hide FormatUint, RequestsFor, OwnTokensOf, TokensUnder, AsksFor;
    var tokens := ListAt(tokensByChainID, FormatUint(d.chainID));
    TokensAreOwn(defs, contents, files, d);
    forall t | t in tokens
      ensures t.chainID == d.chainID
    {
      KeptTokensMatch(ByIdentifier(defs), contents, files, d.chainID, t);
    }
    OneRequestPerToken(wallet, d, tokens);
  }

  // ---- Results: an order-preserving partition ---------------------------------------

  datatype Fate = Fails | Pays | Empty

  /** What becomes of a result: an error entry, a balance entry, or nothing. */
  function FateOf(r: BalanceResultItem): Fate
  {
    if r.error.Some? then Fails else if HasBalance(r) then Pays else Empty
  }

  /** The positions of the results with one fate. */
  function Positions(results: seq<BalanceResultItem>, fate: Fate): seq<nat>
  {
    if results == [] then []
    else
      var before := Positions(results[..|results| - 1], fate);
      if FateOf(results[|results| - 1]) == fate then before + [|results| - 1] else before
  }

  /** The positions with a fate increase, and are exactly those that have it. */
  lemma {:induction false} PositionsExact(results: seq<BalanceResultItem>, fate: Fate)
    ensures Increasing(Positions(results, fate))
    ensures forall i: nat :: i in Positions(results, fate) <==> (i < |results| && FateOf(results[i]) == fate)
  {
    hide FateOf;
    if results != [] {
      var before := Positions(results[..|results| - 1], fate);
      PositionsExact(results[..|results| - 1], fate);
      forall k | 0 <= k < |before|
        ensures before[k] < |results| - 1
      {
        var i: nat := before[k];
        assert i in before;
      }
    }
  }

  lemma {:induction false} EntriesAtPositions(d: NetworkDefinition, results: seq<BalanceResultItem>)
    ensures var at := Positions(results, Fails);
      && |Errors(d, results)| == |at|
      && forall k :: 0 <= k < |at| ==>
           (at[k] < |results| && results[at[k]].error.Some? && Errors(d, results)[k] == ErrorEntry(d, results[at[k]]))
    ensures var at := Positions(results, Pays);
      && |NonZeroBalances(d, results)| == |at|
      && forall k :: 0 <= k < |at| ==>
           (at[k] < |results| && HasBalance(results[at[k]])
            && NonZeroBalances(d, results)[k] == BalanceEntry(d, results[at[k]]))
  {
    hide FormatUint;
    if results != [] {
      EntriesAtPositions(d, results[..|results| - 1]);
    }
  }

  /** The reply reports an amount other than zero. */
  ghost predicate ReportsSome(request: BalanceRequestItem, reply: Reply)
  {
    exists amount: nat :: amount > 0 && Reports(request, reply, amount)
  }

  /** A request's reply decides what becomes of its result. */
  lemma FateOfRequest(requests: seq<BalanceRequestItem>, replies: nat -> Reply, i: nat)
    requires i < |requests|
    ensures var r := Results(requests, replies)[i];
      && Answers(r, requests[i])
      && (FateOf(r).Fails? <==> ReportsNothing(requests[i], replies(i)))
      && (FateOf(r).Pays? <==> ReportsSome(requests[i], replies(i)))
      && (FateOf(r).Pays? ==>
            r.balance.Some? && Reports(requests[i], replies(i), r.balance.value) && r.balance.value > 0
            && r.formattedBalance == FormatBigInt(r.balance, r.decimals).text)
  {
    var request, reply := requests[i], replies(i);
    DecodedIsDecided(request, reply);
    ReportsOneOrNothing(request, reply);
    hide FormatBigInt, Explain, Decoded, Reports, ReportsNothing;
    if !ReportsNothing(request, reply) {
      var amount: nat :| Reports(request, reply, amount);
    }
  }

  /**
   An answered batch splits the requests by their replies. The errors are those
   of the requests whose reply reports nothing, in request order, each with its own
   request's wallet and token, its network, and what the client said of it.
   */
  lemma FailedRequests(wallet: string, d: NetworkDefinition, tokens: seq<TokenInfo>, replies: nat -> Reply)
    ensures var requests := RequestsFor(wallet, d, tokens);
            var failed := Positions(Results(requests, replies), Fails);
            var errors := FetchBalances(wallet, d, tokens, Answered(replies)).errors;
      && Increasing(failed)
      && (forall i: nat :: i in failed <==> (i < |requests| && ReportsNothing(requests[i], replies(i))))
      && |errors| == |failed|
      && (forall k :: 0 <= k < |failed| ==> EntryOfRequest(errors[k], d, requests, replies, failed[k]))
  {
    var requests := RequestsFor(wallet, d, tokens);
    var results := Results(requests, replies);
    var failed := Positions(results, Fails);
    RequestsNotEmpty(wallet, d, tokens);
    PositionsExact(results, Fails);
    EntriesAtPositions(d, results);
    hide FormatUint, RequestsFor, ReportsNothing, Positions, FateOf, Errors, NonZeroBalances, Decoded;
    forall i: nat
      ensures i in failed <==> (i < |requests| && ReportsNothing(requests[i], replies(i)))
    {
      if i < |requests| {
        FateOfRequest(requests, replies, i);
      }
    }
    forall k | 0 <= k < |failed|
      ensures EntryOfRequest(Errors(d, results)[k], d, requests, replies, failed[k])
    {
      FateOfRequest(requests, replies, failed[k]);
    }
  }

  /**
   The balances are those of the requests whose reply reports a non-zero amount,
   in request order, each with its own request's wallet, token and decimals, and its
   network. Every request that is in neither list had a zero amount.
   */
  lemma PaidRequests(wallet: string, d: NetworkDefinition, tokens: seq<TokenInfo>, replies: nat -> Reply)
    ensures var requests := RequestsFor(wallet, d, tokens);
            var paid := Positions(Results(requests, replies), Pays);
            var balances := FetchBalances(wallet, d, tokens, Answered(replies)).balances;
      && Increasing(paid)
      && (forall i: nat :: i in paid <==> (i < |requests| && ReportsSome(requests[i], replies(i))))
      && |balances| == |paid|
      && (forall k :: 0 <= k < |paid| ==> BalanceOfRequest(balances[k], d, requests, replies, paid[k]))
  {
    var requests := RequestsFor(wallet, d, tokens);
    var results := Results(requests, replies);
    var paid := Positions(results, Pays);
    RequestsNotEmpty(wallet, d, tokens);
    PositionsExact(results, Pays);
    EntriesAtPositions(d, results);
    hide FormatUint, RequestsFor, ReportsSome, Reports, Positions, FateOf, Errors, NonZeroBalances, Decoded,
         FormatBigInt;
    forall i: nat
      ensures i in paid <==> (i < |requests| && ReportsSome(requests[i], replies(i)))
    {
      if i < |requests| {
        FateOfRequest(requests, replies, i);
      }
    }
    forall k | 0 <= k < |paid|
      ensures BalanceOfRequest(NonZeroBalances(d, results)[k], d, requests, replies, paid[k])
    {
      FateOfRequest(requests, replies, paid[k]);
    }
  }

  predicate OfNetwork(networkName: string, chainID: string, d: NetworkDefinition)
  {
    networkName == d.name && chainID == FormatUint(d.chainID)
  }

  ghost predicate EntryOfRequest(e: PortfolioError, d: NetworkDefinition, requests: seq<BalanceRequestItem>,
                                 replies: nat -> Reply, i: nat)
  {
    && i < |requests| && OfNetwork(e.networkName, e.chainID, d)
    && e.walletAddress == requests[i].walletAddress && e.tokenAddress == requests[i].tokenAddress
    && e.tokenSymbol == requests[i].tokenSymbol && (e.isNative <==> requests[i].kind == NATIVE_BALANCE_REQUEST)
    && Results(requests, replies)[i].error == Some(e.message)
  }

  ghost predicate BalanceOfRequest(b: Balance, d: NetworkDefinition, requests: seq<BalanceRequestItem>,
                                   replies: nat -> Reply, i: nat)
  {
    && i < |requests| && OfNetwork(b.networkName, b.chainID, d)
    && b.amount.Some? && b.amount.value > 0 && Reports(requests[i], replies(i), b.amount.value)
    && b.walletAddress == requests[i].walletAddress && b.tokenAddress == requests[i].tokenAddress
    && b.tokenSymbol == requests[i].tokenSymbol && b.decimals == requests[i].tokenDecimals
    && (b.isNative <==> requests[i].kind == NATIVE_BALANCE_REQUEST)
    && b.formattedBalance == FormatBigInt(b.amount, b.decimals).text
  }

  // ---- A network's own tokens ---------------------------------------------------------

  /** What the node reports at a position of a network's batch: first for the native asset, then for its own tokens. */
  predicate ReportsAt(i: nat, reply: Reply, amount: nat)
  {
    if i == 0 then reply == NativeReply(Some(amount))
    else reply == CallReply(Unpacked(amount)) || (reply == CallReply(NoBytes) && amount == 0)
  }

  ghost predicate ReportsSomeAt(i: nat, reply: Reply)
  {
    exists amount: nat :: amount > 0 && ReportsAt(i, reply, amount)
  }

  ghost predicate ReportsNothingAt(i: nat, reply: Reply)
  {
    forall amount: nat :: !ReportsAt(i, reply, amount)
  }

  /** The native asset, or the token at the position. */
  predicate NamesAsset(d: NetworkDefinition, own: seq<TokenInfo>, i: nat, address: string, symbol: string,
                       isNative: bool)
  {
    && i <= |own|
    && if i == 0 then isNative && address == "" && symbol == d.nativeSymbol
       else !isNative && address == own[i - 1].address && symbol == own[i - 1].symbol
  }

  predicate HasDecimals(d: NetworkDefinition, own: seq<TokenInfo>, i: nat, decimals: nat)
  {
    i <= |own| && if i == 0 then StatesDecimals(d, decimals) else decimals == own[i - 1].decimals
  }

  /** A balance of this wallet's asset at the position, of the amount reported there. */
  predicate IsOwnBalance(b: Balance, wallet: string, d: NetworkDefinition, own: seq<TokenInfo>, i: nat, reply: Reply)
  {
    && b.walletAddress == wallet && OfNetwork(b.networkName, b.chainID, d)
    && NamesAsset(d, own, i, b.tokenAddress, b.tokenSymbol, b.isNative) && HasDecimals(d, own, i, b.decimals)
    && b.amount.Some? && b.amount.value > 0 && ReportsAt(i, reply, b.amount.value)
    && b.formattedBalance == FormatBigInt(b.amount, b.decimals).text
  }

  predicate IsOwnError(e: PortfolioError, wallet: string, d: NetworkDefinition, own: seq<TokenInfo>, i: nat)
  {
    && e.walletAddress == wallet && OfNetwork(e.networkName, e.chainID, d)
    && NamesAsset(d, own, i, e.tokenAddress, e.tokenSymbol, e.isNative)
  }

  /** The balances are those of exactly the positions with an amount reported, in order. */
  ghost predicate ListsReported(balances: seq<Balance>, wallet: string, d: NetworkDefinition, own: seq<TokenInfo>,
                                replies: nat -> Reply, at: seq<nat>)
  {
    && Increasing(at) && |balances| == |at|
    && (forall i: nat :: i in at <==> (i <= |own| && ReportsSomeAt(i, replies(i))))
    && forall k :: 0 <= k < |at| ==> IsOwnBalance(balances[k], wallet, d, own, at[k], replies(at[k]))
  }

  /** The errors are those of exactly the positions with nothing reported, in order. */
  ghost predicate ListsFailed(errors: seq<PortfolioError>, wallet: string, d: NetworkDefinition, own: seq<TokenInfo>,
                              replies: nat -> Reply, at: seq<nat>)
  {
    && Increasing(at) && |errors| == |at|
    && (forall i: nat :: i in at <==> (i <= |own| && ReportsNothingAt(i, replies(i))))
    && forall k :: 0 <= k < |at| ==> IsOwnError(errors[k], wallet, d, own, at[k])
  }

  lemma ReportsByPosition(requests: seq<BalanceRequestItem>, wallet: string, d: NetworkDefinition,
                          tokens: seq<TokenInfo>, i: nat, reply: Reply)
    requires AsksFor(requests, wallet, d, tokens) && i < |requests|
    ensures forall amount: nat :: Reports(requests[i], reply, amount) <==> ReportsAt(i, reply, amount)
    ensures requests[i].walletAddress == wallet
    ensures NamesAsset(d, tokens, i, requests[i].tokenAddress, requests[i].tokenSymbol,
                       requests[i].kind == NATIVE_BALANCE_REQUEST)
    ensures HasDecimals(d, tokens, i, requests[i].tokenDecimals)
  {
    if i > 0 {
      var k := i - 1;
      assert AsksToken(requests[k + 1], wallet, tokens[k]);
    }
  }

  /**
   What a fetch over the loader's grouping yields, in terms of the network's own token
   files and the node's reply alone: a balance for the native asset and each own token
   with an amount reported, with that token's own address, symbol and decimals, and an
   error for each with nothing reported.
   */
  lemma OwnBalances(defs: seq<NetworkDefinition>, contents: FileContents, files: seq<DirEntry>,
                    tokensByChainID: map<string, seq<TokenInfo>>, wallet: string, d: NetworkDefinition,
                    replies: nat -> Reply)
    returns (paid: seq<nat>, failed: seq<nat>)
    requires PairwiseUnlike(defs) && d in defs && Groups(tokensByChainID, ByIdentifier(defs), contents, files)
    ensures var own := OwnTokensOf(d, contents, files);
            var fetched := FetchBalances(wallet, d, ListAt(tokensByChainID, FormatUint(d.chainID)), Answered(replies));
      && ListsReported(fetched.balances, wallet, d, own, replies, paid)
      && ListsFailed(fetched.errors, wallet, d, own, replies, failed)
  {
    var tokens := ListAt(tokensByChainID, FormatUint(d.chainID));
    LoaderFeedsRequests(defs, contents, files, tokensByChainID, wallet, d);
    hide *;
    paid, failed := FetchedOwn(wallet, d, tokens, replies);
  }

  lemma FetchedOwn(wallet: string, d: NetworkDefinition, tokens: seq<TokenInfo>, replies: nat -> Reply)
    returns (paid: seq<nat>, failed: seq<nat>)
    requires AsksFor(RequestsFor(wallet, d, tokens), wallet, d, tokens)
    ensures var fetched := FetchBalances(wallet, d, tokens, Answered(replies));
      && ListsReported(fetched.balances, wallet, d, tokens, replies, paid)
      && ListsFailed(fetched.errors, wallet, d, tokens, replies, failed)
  {
    var requests := RequestsFor(wallet, d, tokens);
    paid, failed := Positions(Results(requests, replies), Pays), Positions(Results(requests, replies), Fails);
    PaidRequests(wallet, d, tokens, replies);
    FailedRequests(wallet, d, tokens, replies);
    assert |requests| == 1 + |tokens|;
    hide AsksFor, RequestsFor, Results, Positions, FetchBalances, Reports, ReportsAt, ReportsNothing, NamesAsset,
         HasDecimals, OfNetwork, FormatBigInt;
    forall i: nat | i < |requests|
      ensures ReportsSome(requests[i], replies(i)) <==> ReportsSomeAt(i, replies(i))
      ensures ReportsNothing(requests[i], replies(i)) <==> ReportsNothingAt(i, replies(i))
    {
      ReportsByPosition(requests, wallet, d, tokens, i, replies(i));
      ReportsOneOrNothing(requests[i], replies(i));
    }
    var fetched := FetchBalances(wallet, d, tokens, Answered(replies));
    forall k | 0 <= k < |paid|
      ensures IsOwnBalance(fetched.balances[k], wallet, d, tokens, paid[k], replies(paid[k]))
    {
      assert BalanceOfRequest(fetched.balances[k], d, requests, replies, paid[k]);
      ReportsByPosition(requests, wallet, d, tokens, paid[k], replies(paid[k]));
    }
    forall k | 0 <= k < |failed|
      ensures IsOwnError(fetched.errors[k], wallet, d, tokens, failed[k])
    {
      assert EntryOfRequest(fetched.errors[k], d, requests, replies, failed[k]);
      ReportsByPosition(requests, wallet, d, tokens, failed[k], replies(failed[k]));
    }
  }

  lemma {:induction false} RequestsNotEmpty(wallet: string, d: NetworkDefinition, tokens: seq<TokenInfo>)
    ensures RequestsFor(wallet, d, tokens) != []
    ensures forall r :: r in RequestsFor(wallet, d, tokens) ==> r.walletAddress == wallet
  {
    hide FormatUint;
    if tokens != [] {
      RequestsNotEmpty(wallet, d, tokens[..|tokens| - 1]);
    }
  }

  /** A refused batch yields one error and no balance. */
  lemma RefusedBatch(wallet: string, d: NetworkDefinition, tokens: seq<TokenInfo>, why: string)
    ensures var fetched := FetchBalances(wallet, d, tokens, Refused(why));
      && fetched.balances == [] && |fetched.errors| == 1
      && var e := fetched.errors[0];
         && e.walletAddress == wallet && OfNetwork(e.networkName, e.chainID, d)
         && e.tokenAddress == "" && e.tokenSymbol == "" && !e.isNative
         && e.message == "batch balance fetch failed: " + ("RPC batch call failed: " + why)
  {
    RequestsNotEmpty(wallet, d, tokens);
    hide FormatUint, RequestsFor;
  }
}
