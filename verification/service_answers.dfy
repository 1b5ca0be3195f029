/**
 The requests the service builds from its calls and from what clients and nodes answer,
 and answers that leave balances at two places only.
 */
module ServiceAnswers {
  import opened Wrappers
  import opened Entities
  import opened Strings
  import opened NetworkDefinitions
  import opened TokenLoader
  import opened EvmClient
  import opened NetworkBalances
  import opened PortfolioRun
  import opened WalletBooks
  import opened RunBooks
  import opened PortfolioService
  import opened Pricing
  import opened RunSteps

  // ---- Calls and answers ---------------------------------------------------------------

  /** A call that has its wallets, networks and tokens, the semaphore's limit and the loaded price cache. */
  datatype Call = Call(start: Start, limit: nat, prices: PriceTable)

  /** The failure of each client, if any, and each node's reply, by wallet and network. */
  datatype Answers = Answers(connect: (nat, nat) -> Option<string>, reply: (nat, nat) -> BatchReply)

  /** The call's run, with balances valued by CalculateValueUSD. */
  function Asked(call: Call, answers: Answers): Request
    requires call.start.Prepared?
  {
    RequestFor(call.start, call.limit, answers.connect, answers.reply, call.prices,
               (amount: nat, decimals: nat, price: real) => ValueOf(amount, decimals, price))
  }

  ghost predicate AllStarted(calls: seq<Call>)
  {
    forall r :: 0 <= r < |calls| ==> calls[r].start.Prepared?
  }

  function AskedAll(calls: seq<Call>, answers: seq<Answers>): seq<Request>
    requires AllStarted(calls) && |answers| == |calls|
  {
    seq(|calls|, r requires 0 <= r < |calls| => Asked(calls[r], answers[r]))
  }

  const SILENCE := Answers((w: nat, n: nat) => None, (w: nat, n: nat) => Refused(""))

  /** The calls as they are before anything is answered. */
  function Unanswered(calls: seq<Call>): seq<Request>
    requires AllStarted(calls)
  {
    AskedAll(calls, seq(|calls|, _ => SILENCE))
  }

  lemma AskedAlike(calls: seq<Call>, answers: seq<Answers>)
    requires AllStarted(calls) && |answers| == |calls|
    ensures Alike(Unanswered(calls), AskedAll(calls, answers))
  {
  }

  /** The call is one that Prepare can return: networks of a token directory, tokens grouped by the loader. */
  ghost predicate IsPrepared(call: Call)
  {
    && call.start.Prepared? && call.limit > 0
    && exists files, names, listing, contents :: PreparedFrom(call, files, names, listing, contents)
  }

  ghost predicate PreparedFrom(call: Call, files: seq<DirEntry>, names: seq<string>, listing: seq<DirEntry>,
                               contents: FileContents)
    requires call.start.Prepared?
  {
    && call.start.networks == Tracked(ActiveDefinitions(ByIdentifier(KNOWN_DEFINITIONS), files), names)
    && Groups(call.start.tokensByChainID, ByIdentifier(call.start.networks), contents, listing)
  }

  ghost predicate AllPrepared(calls: seq<Call>)
  {
    forall r :: 0 <= r < |calls| ==> IsPrepared(calls[r])
  }

  lemma PreparedNamed(calls: seq<Call>)
    requires AllPrepared(calls)
    ensures AllStarted(calls) && WellNamed(Unanswered(calls))
    ensures forall r :: 0 <= r < |calls| ==> calls[r].limit > 0
  {
    forall r | 0 <= r < |calls|
      ensures calls[r].start.Prepared? && calls[r].limit > 0 && DistinctNames(Asked(calls[r], SILENCE))
    {
      assert IsPrepared(calls[r]);
      var files, names, listing, contents :| PreparedFrom(calls[r], files, names, listing, contents);
      hide KNOWN_DEFINITIONS, ActiveDefinitions, ByIdentifier, Tracked, Groups, DistinctNames;
      DirectoryNames(Asked(calls[r], SILENCE), files, names);
    }
    hide DistinctNames, Asked, IsPrepared;
  }

  // ---- Nodes that report a native balance and nothing else ---------------------------------

  /** The native balance, and no bytes for any token. */
  function NativeOnly(amount: nat): nat -> Reply
  {
    (i: nat) => if i == 0 then NativeReply(Some(amount)) else CallReply(NoBytes)
  }

  function NativeEntry(wallet: string, d: NetworkDefinition, amount: nat): Balance
  {
    BalanceEntry(d, Decoded(NativeRequest(wallet, d), NativeReply(Some(amount))))
  }

  lemma NativeDecoded(wallet: string, d: NetworkDefinition, amount: nat)
    ensures var r := Decoded(NativeRequest(wallet, d), NativeReply(Some(amount)));
      && r.error.None? && r.balance == Some(amount) && IsNative(NativeEntry(wallet, d, amount))
  {
    hide FormatUint;
  }

  lemma TokenDecoded(wallet: string, d: NetworkDefinition, token: TokenInfo)
    ensures var r := Decoded(TokenRequest(wallet, d, token), CallReply(NoBytes)); r.error.None? && r.balance == Some(0)
  {
  }

  lemma {:induction false} NativeResults(wallet: string, d: NetworkDefinition, tokens: seq<TokenInfo>, amount: nat)
    ensures var results := Results(RequestsFor(wallet, d, tokens), NativeOnly(amount));
      && results != [] && Errors(d, results) == []
      && NonZeroBalances(d, results) == if amount == 0 then [] else [NativeEntry(wallet, d, amount)]
  {
    hide Decoded, FormatUint, BalanceEntry;
    var requests := RequestsFor(wallet, d, tokens);
    var results := Results(requests, NativeOnly(amount));
    if tokens == [] {
      NativeDecoded(wallet, d, amount);
      assert results[..0] == [];
    } else {
      var front, last := tokens[..|tokens| - 1], tokens[|tokens| - 1];
      NativeResults(wallet, d, front, amount);
      if OnNetwork(d, last) {
        assert results[..|results| - 1] == Results(RequestsFor(wallet, d, front), NativeOnly(amount));
        TokenDecoded(wallet, d, last);
      }
    }
  }

  /** So the fetch yields that balance, if there is any, and no error, whatever tokens are asked for. */
  lemma NativeFetched(wallet: string, d: NetworkDefinition, tokens: seq<TokenInfo>, amount: nat)
    ensures FetchBalances(wallet, d, tokens, Answered(NativeOnly(amount)))
         == Fetched(if amount == 0 then [] else [NativeEntry(wallet, d, amount)], [])
  {
    NativeResults(wallet, d, tokens, amount);
    hide Results, RequestsFor, Errors, NonZeroBalances, NativeEntry, FormatUint;
  }

  // ---- Native balances at two places ----------------------------------------------------------

  /** One ether, in wei. */
  const ONE_ETHER: nat := 1_000_000_000_000_000_000

  function AmountAt(here: Place, a: Place, b: Place): nat
  {
    if here == a || here == b then ONE_ETHER else 0
  }

  function Sparing(r: nat, a: Place, b: Place): Answers
  {
    Answers((w: nat, n: nat) => None, (w: nat, n: nat) => Answered(NativeOnly(AmountAt(Place(r, w, n), a, b))))
  }

  function SparingAll(calls: seq<Call>, a: Place, b: Place): seq<Answers>
  {
    seq(|calls|, r requires 0 <= r < |calls| => Sparing(r, a, b))
  }

  /** Such answers leave balances at these two places only. */
  lemma SparingOnlyAt(calls: seq<Call>, a: Place, b: Place)
    requires AllStarted(calls)
    ensures OnlyAt(AskedAll(calls, SparingAll(calls, a, b)), a, b)
  {
    var reqs := AskedAll(calls, SparingAll(calls, a, b));
    forall r: nat, w: nat, n: nat | r < |reqs| && w < |reqs[r].wallets| && n < |reqs[r].networks|
      ensures Yields(reqs[r], w, n, Place(r, w, n) == a || Place(r, w, n) == b)
    {
      SparingYields(calls[r], r, w, n, a, b);
    }
  }

  /** What a worker ends up with when its client connects. */
  lemma AskedOutcome(call: Call, answers: Answers, w: nat, n: nat)
    requires call.start.Prepared? && w < |call.start.wallets| && n < |call.start.networks|
    requires answers.connect(w, n) == None
    ensures var tokens := ListAt(call.start.tokensByChainID, FormatUint(call.start.networks[n].chainID));
      Outcome(Asked(call, answers), w, n)
      == FetchBalances(call.start.wallets[w], call.start.networks[n], tokens, answers.reply(w, n))
  {
    hide FetchBalances, FormatUint, ListAt, ValueOf;
  }

  lemma SparingYields(call: Call, r: nat, w: nat, n: nat, a: Place, b: Place)
    requires call.start.Prepared? && w < |call.start.wallets| && n < |call.start.networks|
    ensures Yields(Asked(call, Sparing(r, a, b)), w, n, Place(r, w, n) == a || Place(r, w, n) == b)
  {
    hide FetchBalances, NativeEntry, IsNative, FormatUint, ListAt, Outcome, NativeOnly, ValueOf, Decoded;
    var wallet, d := call.start.wallets[w], call.start.networks[n];
    var tokens := ListAt(call.start.tokensByChainID, FormatUint(d.chainID));
    var amount := AmountAt(Place(r, w, n), a, b);
    AskedOutcome(call, Sparing(r, a, b), w, n);
    NativeFetched(wallet, d, tokens, amount);
    NativeDecoded(wallet, d, amount);
  }

  // ---- Any requests as calls --------------------------------------------------------------------

  /** A call with a request's wallets, networks, limit and prices, and no tokens. */
  function CallLike(req: Request): Call
  {
    Call(Prepared(req.wallets, req.networks, map[]), req.limit, req.prices)
  }

  function CallsLike(reqs: seq<Request>): seq<Call>
  {
    seq(|reqs|, r requires 0 <= r < |reqs| => CallLike(reqs[r]))
  }

  lemma LikeAsked(reqs: seq<Request>, answers: seq<Answers>)
    requires |answers| == |reqs|
    ensures AllStarted(CallsLike(reqs)) && Alike(reqs, AskedAll(CallsLike(reqs), answers))
  {
  }

  lemma LikeUnanswered(reqs: seq<Request>)
    ensures AllStarted(CallsLike(reqs)) && Alike(reqs, Unanswered(CallsLike(reqs)))
  {
    LikeAsked(reqs, seq(|reqs|, _ => SILENCE));
  }
}
