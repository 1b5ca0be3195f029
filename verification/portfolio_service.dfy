/** The portfolio service: what it sets up before a run, and its record of failed wallets. */
module PortfolioService {
  import opened Wrappers
  import opened Entities
  import opened Strings
  import opened Sums
  import opened NetworkDefinitions
  import opened TokenLoader
  import opened TokenPrices
  import opened EvmClient
  import opened NetworkBalances
  import opened PortfolioRun
  import opened WalletBooks
  import opened RunBooks
  import opened RunConservation
  import opened RunRefinement

  /** What a call does once it has its wallets, networks and tokens, or does not. */
  datatype Start =
    | Stopped(error: PortfolioError)
    | NothingToDo
    | Prepared(wallets: seq<string>, networks: seq<NetworkDefinition>, tokensByChainID: map<string, seq<TokenInfo>>)

  function Complaint(message: string): PortfolioError
  {
    PortfolioError("", "", "", "", "", false, message)
  }

  class PortfolioService {
    const maxConcurrentRoutines: nat
    var failedWallets: map<string, bool>

    /** The semaphore has at least one slot, whatever is configured. */
    constructor (maxRoutines: int)
      ensures maxRoutines > 0 ==> maxConcurrentRoutines == maxRoutines
      ensures maxRoutines <= 0 ==> maxConcurrentRoutines == 1
      ensures Failed() == {}
    {
      maxConcurrentRoutines := if maxRoutines <= 0 then 1 else maxRoutines;
      failedWallets := map[];
    }

    ghost function Failed(): set<string>
      reads this
    {
      set address | address in failedWallets && failedWallets[address]
    }

    method MarkFailed(address: string)
      modifies this`failedWallets
      ensures Failed() == old(Failed()) + {address}
    {
      failedWallets := failedWallets[address := true];
    }

    /** Exactly the failed wallets, each once. */
    method GetFailedWallets() returns (failed: seq<string>)
      ensures forall address :: address in failed <==> address in Failed()
      ensures forall i, j :: 0 <= i < j < |failed| ==> failed[i] != failed[j]
    {
      failed := [];
      var left := failedWallets.Keys;
      while left != {}
        invariant left <= failedWallets.Keys
        invariant forall address :: address in failed <==> address in Failed() && address !in left
        invariant forall i, j :: 0 <= i < j < |failed| ==> failed[i] != failed[j]
        decreases |left|
      {
        var address :| address in left;
        left := left - {address};
        if failedWallets[address] {
          failed := failed + [address];
        }
      }
    }

    /** The networks to work on: all of them, or those tracked. */
    method SelectNetworks(allNetworkDefs: seq<NetworkDefinition>, trackedNetworkNames: seq<string>)
      returns (active: seq<NetworkDefinition>)
      ensures SelectsWanted(allNetworkDefs, trackedNetworkNames, active)
      ensures active == Tracked(allNetworkDefs, trackedNetworkNames)
    {
      TrackedAreWanted(allNetworkDefs, trackedNetworkNames);
      hide ToLower, SelectsWanted;
      if |trackedNetworkNames| == 0 {
        return allNetworkDefs;
      }
      var trackedSet: set<string> := {};
      for i := 0 to |trackedNetworkNames|
        invariant trackedSet == set name | name in trackedNetworkNames[..i] :: ToLower(name)
      {
        trackedSet := trackedSet + {ToLower(trackedNetworkNames[i])};
        assert trackedNetworkNames[..i + 1] == trackedNetworkNames[..i] + [trackedNetworkNames[i]];
      }
      assert trackedNetworkNames[..|trackedNetworkNames|] == trackedNetworkNames;
      active := [];
      for i := 0 to |allNetworkDefs|
        invariant active == KeepTracked(allNetworkDefs[..i], trackedSet)
      {
        assert allNetworkDefs[..i + 1][..i] == allNetworkDefs[..i];
        if ToLower(allNetworkDefs[i].identifier) in trackedSet {
          active := active + [allNetworkDefs[i]];
        }
      }
      assert allNetworkDefs[..|allNetworkDefs|] == allNetworkDefs;
    }

    /**
     Everything before the first goroutine. `allNetworkDefs` is None without a network
     provider, `listing` None when the token directory cannot be read.
     */
    method Prepare(wallets: Result<seq<string>>, allNetworkDefs: Option<seq<NetworkDefinition>>,
                   trackedNetworkNames: seq<string>,
                   listing: Option<seq<DirEntry>>, contents: FileContents) returns (start: Start)
      ensures wallets.Err? ==> start == Stopped(Complaint("failed to load wallets: " + wallets.message))
      ensures wallets.Ok? ==>
        (start.NothingToDo? <==>
           allNetworkDefs.None? || forall d :: d in allNetworkDefs.value ==> !Wanted(d, trackedNetworkNames))
      ensures wallets.Ok? && !start.NothingToDo? ==>
        if listing.None? then start == Stopped(Complaint("failed to load tokens: " + "failed to read token directory"))
        else start.Prepared? && start.wallets == wallets.value
             && SelectsWanted(allNetworkDefs.value, trackedNetworkNames, start.networks)
             && start.networks == Tracked(allNetworkDefs.value, trackedNetworkNames)
             && Groups(start.tokensByChainID, ByIdentifier(start.networks), contents, listing.value)
    {
      if allNetworkDefs.Some? {
        NoneTracked(allNetworkDefs.value, trackedNetworkNames);
      }
      hide Tracked, Groups, ByIdentifier, SelectsWanted, Wanted;
      if wallets.Err? {
        return Stopped(Complaint("failed to load wallets: " + wallets.message));
      }
      var active: seq<NetworkDefinition> := [];
      if allNetworkDefs.Some? {
        active := SelectNetworks(allNetworkDefs.value, trackedNetworkNames);
      }
      if |active| == 0 {
        return NothingToDo;
      }
      var tokens := GetTokensByNetwork(active, listing, contents);
      if tokens.Err? {
        return Stopped(Complaint("failed to load tokens: " + tokens.message));
      }
      start := Prepared(wallets.value, active, tokens.value);
    }
  }

  /** The run of a prepared call: each worker fetches the balances of its network's tokens from its node. */
  function RequestFor(start: Start, limit: nat, connect: (nat, nat) -> Option<string>, reply: (nat, nat) -> BatchReply,
                      prices: PriceTable, valuate: (nat, nat, real) -> Result<real>): Request
    requires start.Prepared?
  {
    Request(start.wallets, start.networks, limit, connect,
            (w: nat, n: nat) => FetchFor(start, w, n, reply(w, n)), prices, valuate)
  }

  function FetchFor(start: Start, w: nat, n: nat, reply: BatchReply): Fetched
    requires start.Prepared?
  {
    if w < |start.wallets| && n < |start.networks|
    then FetchBalances(start.wallets[w], start.networks[n],
                       ListAt(start.tokensByChainID, FormatUint(start.networks[n].chainID)), reply)
    else Fetched([], [])
  }

  /** The request works on networks that a token directory activates among the known ones, filtered or not. */
  ghost predicate FromDirectory(req: Request, files: seq<DirEntry>, names: seq<string>)
  {
    req.networks == Tracked(ActiveDefinitions(ByIdentifier(KNOWN_DEFINITIONS), files), names)
  }

  ghost predicate AllFromDirectories(reqs: seq<Request>)
  {
    forall r :: 0 <= r < |reqs| ==> exists files, names :: FromDirectory(reqs[r], files, names)
  }

  lemma DirectoryUnlike(networks: seq<NetworkDefinition>, files: seq<DirEntry>, names: seq<string>)
    requires networks == Tracked(ActiveDefinitions(ByIdentifier(KNOWN_DEFINITIONS), files), names)
    ensures PairwiseUnlike(networks)
  {
    hide KNOWN_DEFINITIONS, ActiveDefinitions, ByIdentifier, Tracked;
    ActiveNetworksUnlike(files);
    TrackedUnlike(ActiveDefinitions(ByIdentifier(KNOWN_DEFINITIONS), files), names);
  }

  /**
   What a prepared call runs on: networks of the directory, and for every wallet and
   network the balances of exactly the tokens in that network's own files, whatever
   the directory lists by the time the loader reads it.
   */
  lemma PreparedRequest(start: Start, files: seq<DirEntry>, names: seq<string>, listing: seq<DirEntry>,
                        contents: FileContents,
                        limit: nat, connect: (nat, nat) -> Option<string>, reply: (nat, nat) -> BatchReply,
                        prices: PriceTable, valuate: (nat, nat, real) -> Result<real>)
    requires start.Prepared?
    requires start.networks == Tracked(ActiveDefinitions(ByIdentifier(KNOWN_DEFINITIONS), files), names)
    requires Groups(start.tokensByChainID, ByIdentifier(start.networks), contents, listing)
    ensures var req := RequestFor(start, limit, connect, reply, prices, valuate);
      && FromDirectory(req, files, names)
      && req.wallets == start.wallets && req.limit == limit && req.connect == connect && req.prices == prices
      && req.valuate == valuate
      && forall w: nat, n: nat :: w < |req.wallets| && n < |req.networks| ==>
           req.fetch(w, n)
           == FetchBalances(req.wallets[w], req.networks[n], OwnTokensOf(req.networks[n], contents, listing),
                            reply(w, n))
  {
    DirectoryUnlike(start.networks, files, names);
    hide KNOWN_DEFINITIONS, ActiveDefinitions, ByIdentifier, Tracked, FetchBalances, OwnTokensOf, TokensUnder,
         FormatUint;
    forall w: nat, n: nat | w < |start.wallets| && n < |start.networks|
      ensures FetchFor(start, w, n, reply(w, n))
           == FetchBalances(start.wallets[w], start.networks[n], OwnTokensOf(start.networks[n], contents, listing),
                            reply(w, n))
    {
      TokensAreOwn(start.networks, contents, listing, start.networks[n]);
    }
  }

  lemma DirectoryNames(req: Request, files: seq<DirEntry>, names: seq<string>)
    requires FromDirectory(req, files, names)
    ensures DistinctNames(req)
  {
    DirectoryUnlike(req.networks, files, names);
    hide KNOWN_DEFINITIONS, ActiveDefinitions, ByIdentifier, Tracked;
    forall m, n | 0 <= m < n < |req.networks|
      ensures req.networks[m].name != req.networks[n].name
    {
      assert Unlike(req.networks[m], req.networks[n]);
    }
  }

  lemma DirectoriesNamed(reqs: seq<Request>)
    requires AllFromDirectories(reqs)
    ensures WellNamed(reqs)
  {
    hide FromDirectory, DistinctNames;
    forall r | 0 <= r < |reqs|
      ensures DistinctNames(reqs[r])
    {
      var files, names :| FromDirectory(reqs[r], files, names);
      DirectoryNames(reqs[r], files, names);
    }
  }

  /**
   Conservation for the service itself: whatever the token directories list, whatever
   networks are asked for, whatever clients, nodes and prices answer, and however the
   requests interleave.
   */
  lemma ServiceConservesValue(reqs: seq<Request>, shared: Shared, history: seq<Happening>, r: nat)
    requires AllFromDirectories(reqs) && r < |reqs|
    ensures var end := Run(reqs, SystemInitial(reqs, shared), history);
      end.Some? && end.value.requests[r].collected.Some? ==>
        var rs := end.value.requests[r];
        && |rs.wallets| == |reqs[r].wallets|
        && ReturnsAll(reqs[r], rs.collected.value, rs.errors, Portfolios(reqs[r], rs))
        && SumReal(WalletTotals(rs.collected.value)) == SumReal(TokenTotals(rs.collected.value))
  {
    DirectoriesNamed(reqs);
    hide AllFromDirectories, WellNamed, ReturnsAll, Conserves, SystemInitial, Run, SumReal;
    ValueConserved(reqs, shared, history, r);
  }

  /** Schedule independence for the service itself. */
  lemma ServiceRefines(reqs: seq<Request>, shared: Shared, history: seq<Happening>, r: nat, current: Option<real>)
    requires AllFromDirectories(reqs) && r < |reqs|
    requires Settled(reqs, GlobalPriceAt(shared.globalPrices, GLOBALLY_PRICED), current)
    ensures var end := Run(reqs, SystemInitial(reqs, shared), history);
      end.Some? && end.value.requests[r].collected.Some? ==>
        && multiset(end.value.requests[r].collected.value) == multiset(SeqPortfolios(reqs[r], current))
        && multiset(end.value.requests[r].errors) == SumBag(SeqErrors(reqs[r], current))
  {
    DirectoriesNamed(reqs);
    hide AllFromDirectories, WellNamed, Settled, SystemInitial, Run, SeqPortfolios, SeqErrors;
    EveryScheduleRefines(reqs, shared, history, r, current);
  }
}
