/**
 What a finished price load can leave in an entry that several batches write: the last
 find of any one of them, and nothing else.
 */
module PriceLoadOutcomes {
  import opened Wrappers
  import opened Entities
  import opened Strings
  import opened Sums
  import opened PriceLoad
  import opened PriceLoadKeys

  // ---- What a batch leaves in an entry ------------------------------------------------------

  /** The price of the last of the first t tokens of batch j that is of the entry and finds one. */
  function LastFind(load: Load, j: nat, t: nat, dex: string, address: string): Option<real>
    requires load.Valid() && j < |load.jobs| && t <= |load.jobs[j].batch|
  {
    if t == 0 then None
    else if HasKey(load, j, t - 1, dex, address) && Found(load, j, t - 1).Some? then Found(load, j, t - 1)
    else LastFind(load, j, t - 1, dex, address)
  }

  /** What the whole batch finds for the entry, last. */
  function BatchFind(load: Load, j: nat, dex: string, address: string): Option<real>
    requires load.Valid() && j < |load.jobs|
  {
    LastFind(load, j, |load.jobs[j].batch|, dex, address)
  }

  /** Loading a batch alone leaves its last find in the entry. */
  lemma {:induction false} BatchDecides(load: Load, prices: PriceTable, j: nat, t: nat, dex: string, address: string)
    requires load.Valid() && j < |load.jobs| && t <= |load.jobs[j].batch| && load.jobs[j].dex in prices
    ensures EntryAt(LoadTokens(load, prices, j, t), dex, address)
         == if LastFind(load, j, t, dex, address).Some? then LastFind(load, j, t, dex, address)
            else EntryAt(prices, dex, address)
  {
    hide Found, ToLower;
    if t > 0 {
      BatchDecides(load, prices, j, t - 1, dex, address);
      assert load.Has(j, t - 1);
    }
  }

  /** A batch finds something last exactly if one of its tokens finds something. */
  lemma {:induction false} LastFindIff(load: Load, j: nat, t: nat, dex: string, address: string)
    requires load.Valid() && j < |load.jobs| && t <= |load.jobs[j].batch|
    ensures LastFind(load, j, t, dex, address).Some?
       <==> exists u: nat :: u < t && HasKey(load, j, u, dex, address) && Found(load, j, u).Some?
  {
    hide Found, HasKey;
    if t > 0 {
      LastFindIff(load, j, t - 1, dex, address);
      assert load.Has(j, t - 1);
    }
  }

  lemma NoneFindsIff(load: Load, dex: string, address: string)
    requires load.Valid()
    ensures NoneFinds(load, dex, address)
       <==> forall j: nat :: j < |load.jobs| ==> BatchFind(load, j, dex, address).None?
  {
    hide Found, LastFind, ToLower;
    forall j: nat | j < |load.jobs|
      ensures BatchFind(load, j, dex, address).Some?
         <==> exists u: nat :: u < |load.jobs[j].batch| && HasKey(load, j, u, dex, address) && Found(load, j, u).Some?
    {
      LastFindIff(load, j, |load.jobs[j].batch|, dex, address);
    }
    hide BatchFind, HasKey;
    if j: nat, t: nat :| HasKey(load, j, t, dex, address) && load.Has(j, t) && Found(load, j, t).Some? {
      assert BatchFind(load, j, dex, address).Some?;
    }
  }

  lemma {:induction false} RefusedFindsNothing(load: Load, j: nat, t: nat, dex: string, address: string)
    requires load.Valid() && j < |load.jobs| && t <= |load.jobs[j].batch| && load.replies[j].None?
    ensures LastFind(load, j, t, dex, address) == None
  {
    if t > 0 {
      RefusedFindsNothing(load, j, t - 1, dex, address);
    }
  }

  // ---- While the load runs --------------------------------------------------------------------

  /** What batch j has found for the entry so far. */
  function FindSoFar(load: Load, s: LoadState, j: nat, dex: string, address: string): Option<real>
    requires load.Valid() && j < |load.jobs|
  {
    LastFind(load, j, Capped(load, j, DealtIn(load, s)), dex, address)
  }

  /** The entry has what some batch has found, or is as it was if none has found anything. */
  ghost predicate OneOf(load: Load, before: PriceTable, s: LoadState, dex: string, address: string)
    requires load.Valid()
  {
    var now := EntryAt(s.prices, dex, address);
    || (exists j: nat :: j < |load.jobs| && FindSoFar(load, s, j, dex, address).Some?
                         && now == FindSoFar(load, s, j, dex, address))
    || ((forall j: nat :: j < |load.jobs| ==> FindSoFar(load, s, j, dex, address).None?)
        && now == EntryAt(before, dex, address))
  }

  ghost predicate Owned(load: Load, before: PriceTable, s: LoadState)
  {
    && Control(load, s) && Prepared(load, s.prices)
    && (forall j :: 0 <= j < |s.phases| ==> ScanFits(load, j, s.phases[j]))
    && forall dex, address :: OneOf(load, before, s, dex, address)
  }

  /** A step other than a scan that stores changes neither the entries nor what has been found. */
  lemma SameFinds(load: Load, s: LoadState, s': LoadState, dex: string, address: string)
    requires load.Valid() && |s.phases| == |load.jobs| == |s'.phases|
    requires forall j: nat :: j < |load.jobs| ==>
      Capped(load, j, DealtIn(load, s')) == Capped(load, j, DealtIn(load, s)) || load.replies[j].None?
    ensures forall j: nat :: j < |load.jobs| ==>
      FindSoFar(load, s', j, dex, address) == FindSoFar(load, s, j, dex, address)
  {
    hide DealtIn, Capped, LastFind;
    forall j: nat | j < |load.jobs|
      ensures FindSoFar(load, s', j, dex, address) == FindSoFar(load, s, j, dex, address)
    {
      if load.replies[j].None? {
        RefusedFindsNothing(load, j, Capped(load, j, DealtIn(load, s)), dex, address);
        RefusedFindsNothing(load, j, Capped(load, j, DealtIn(load, s')), dex, address);
      }
    }
  }

  /** Storing the next token's price: the batch has found it, and the entry has it, if the token is of the entry. */
  lemma StoredFinds(load: Load, s: LoadState, s': LoadState, j: nat, t: nat, dex: string, address: string)
    requires load.Valid() && |s.phases| == |load.jobs| == |s'.phases| && load.Has(j, t) && load.jobs[j].dex in s.prices
    requires s'.prices == Stored(load, s.prices, j, t)
    requires Capped(load, j, DealtIn(load, s)) == t && Capped(load, j, DealtIn(load, s')) == t + 1
    ensures if HasKey(load, j, t, dex, address) && Found(load, j, t).Some?
            then EntryAt(s'.prices, dex, address) == FindSoFar(load, s', j, dex, address) == Found(load, j, t)
            else EntryAt(s'.prices, dex, address) == EntryAt(s.prices, dex, address)
                 && FindSoFar(load, s', j, dex, address) == FindSoFar(load, s, j, dex, address)
  {
    hide Found, ToLower, DealtIn, Capped;
  }

  lemma OneOfStored(load: Load, before: PriceTable, s: LoadState, s': LoadState, j: nat, t: nat, dex: string,
                    address: string)
    requires load.Valid() && |s.phases| == |load.jobs| == |s'.phases| && load.Has(j, t) && load.jobs[j].dex in s.prices
    requires s'.prices == Stored(load, s.prices, j, t) && OneOf(load, before, s, dex, address)
    requires Capped(load, j, DealtIn(load, s)) == t && Capped(load, j, DealtIn(load, s')) == t + 1
    requires forall k: nat :: k < |load.jobs| && k != j ==>
      Capped(load, k, DealtIn(load, s')) == Capped(load, k, DealtIn(load, s))
    ensures OneOf(load, before, s', dex, address)
  {
    StoredFinds(load, s, s', j, t, dex, address);
    hide Found, HasKey, LastFind, Capped, DealtIn, EntryAt, Stored;
    assert forall k: nat :: k < |load.jobs| && k != j ==>
      FindSoFar(load, s', k, dex, address) == FindSoFar(load, s, k, dex, address);
  }

  lemma OneOfUnchanged(load: Load, before: PriceTable, s: LoadState, s': LoadState, dex: string, address: string)
    requires load.Valid() && |s.phases| == |load.jobs| == |s'.phases| && OneOf(load, before, s, dex, address)
    requires s'.prices == s.prices
    requires forall j: nat :: j < |load.jobs| ==>
      Capped(load, j, DealtIn(load, s')) == Capped(load, j, DealtIn(load, s)) || load.replies[j].None?
    ensures OneOf(load, before, s', dex, address)
  {
    SameFinds(load, s, s', dex, address);
    hide FindSoFar, Capped, DealtIn, EntryAt;
  }

  lemma OneOfKept(load: Load, before: PriceTable, s: LoadState, ev: Event, dex: string, address: string)
    requires Owned(load, before, s) && Enabled(load, s, ev)
    ensures OneOf(load, before, Apply(load, s, ev), dex, address)
  {
    hide OneOf, SumNat, Hit, Found, FirstPrice, Written, Stored, ScanFits;
    var s' := Apply(load, s, ev);
    assert OneOf(load, before, s, dex, address);
    if ev.Scan? {
      ScanOneOf(load, before, s, ev.j, dex, address);
    } else {
      OneOfUnchanged(load, before, s, s', dex, address);
    }
  }

  lemma ScanOneOf(load: Load, before: PriceTable, s: LoadState, j: nat, dex: string, address: string)
    requires Control(load, s) && Prepared(load, s.prices) && Enabled(load, s, Scan(j))
    requires ScanFits(load, j, s.phases[j]) && OneOf(load, before, s, dex, address)
    ensures OneOf(load, before, Apply(load, s, Scan(j)), dex, address)
  {
    hide OneOf, SumNat, Hit, Found, FirstPrice, Written, Stored, ScanFits;
    var s', t := Apply(load, s, Scan(j)), s.phases[j].token;
    assert load.jobs[j].dex in s.prices;
    ScanStores(load, s, j);
    if t < |load.jobs[j].batch| && NextPhase(load, j, s.phases[j]) == Scanning(t + 1, 0) {
      OneOfStored(load, before, s, s', j, t, dex, address);
    } else {
      OneOfUnchanged(load, before, s, s', dex, address);
    }
  }

  /** Every step keeps every entry the find of one of its batches. */
  lemma OwnedKept(load: Load, before: PriceTable, s: LoadState, ev: Event)
    requires Owned(load, before, s) && Enabled(load, s, ev)
    ensures Owned(load, before, Apply(load, s, ev))
  {
    ControlKept(load, s, ev);
    ChainsKept(load, s, ev);
    ScansFit(load, s, ev);
    hide OneOf, Control, Prepared, ScanFits, Enabled, Apply;
    forall dex, address
      ensures OneOf(load, before, Apply(load, s, ev), dex, address)
    {
      OneOfKept(load, before, s, ev, dex, address);
    }
  }

  lemma {:induction false} RunKeepsOwned(load: Load, before: PriceTable, s: LoadState, events: seq<Event>)
    requires Owned(load, before, s)
    ensures var end := Run(load, s, events); end.Some? ==> Owned(load, before, end.value)
    decreases |events|
  {
    if events != [] && Enabled(load, s, events[0]) {
      OwnedKept(load, before, s, events[0]);
      hide Owned, Enabled, Apply;
      RunKeepsOwned(load, before, Apply(load, s, events[0]), events[1..]);
    }
  }

  lemma OwnedAtStart(load: Load, prices: PriceTable)
    requires load.Valid() && Prepared(load, prices)
    ensures Owned(load, prices, Initial(load, prices))
  {
    InitialControl(load, prices);
    hide Found, HasKey, FirstPrice, EntryAt;
  }

  // ---- When the load is complete ------------------------------------------------------------------

  /** A schedule that finishes with this in the entry. */
  ghost predicate EndsWith(load: Load, prices: PriceTable, events: seq<Event>, dex: string, address: string,
                           entry: Option<real>)
    requires load.Valid()
  {
    var end := Run(load, Initial(load, prices), events);
    end.Some? && end.value.complete && EntryAt(end.value.prices, dex, address) == entry
  }

  /** Some batch finds this last for the entry, or none finds anything and it is what was there. */
  ghost predicate CanHold(load: Load, prices: PriceTable, dex: string, address: string, entry: Option<real>)
    requires load.Valid()
  {
    || (entry.Some? && exists j: nat :: j < |load.jobs| && BatchFind(load, j, dex, address) == entry)
    || ((forall j: nat :: j < |load.jobs| ==> BatchFind(load, j, dex, address).None?)
        && entry == EntryAt(prices, dex, address))
  }

  /** After every finished schedule of any load each entry holds the last find of one of its batches. */
  lemma FinishedEntries(load: Load, prices: PriceTable, events: seq<Event>, dex: string, address: string,
                        entry: Option<real>)
    requires load.Valid() && Prepared(load, prices) && EndsWith(load, prices, events, dex, address, entry)
    ensures CanHold(load, prices, dex, address, entry)
  {
    OwnedAtStart(load, prices);
    RunKeepsOwned(load, prices, Initial(load, prices), events);
    hide Run, LastFind, EntryAt, ScanFits, SumNat;
    var end := Run(load, Initial(load, prices), events).value;
    assert OneOf(load, prices, end, dex, address);
    assert forall j: nat :: j < |load.jobs| ==>
      FindSoFar(load, end, j, dex, address) == BatchFind(load, j, dex, address);
  }

  /** Batches n up to m are loaded one after the other. */
  lemma {:induction false} PassesOn(load: Load, start: LoadState, n: nat, m: nat, held: Option<nat>, prices: PriceTable)
    returns (after: PriceTable)
    requires load.Valid() && |start.phases| == |load.jobs| && n <= m <= |load.jobs|
    requires (held.Some? ==> held.value < n && load.limit > 1)
    requires Prepared(load, prices) && Leads(load, start, Between(load, n, held, prices))
    ensures Prepared(load, after) && Leads(load, start, Between(load, m, held, after))
    ensures forall dex, address :: (forall j: nat :: n <= j < m ==> BatchFind(load, j, dex, address).None?) ==>
      EntryAt(after, dex, address) == EntryAt(prices, dex, address)
    decreases m - n
  {
    hide Leads, LoadTokens, Between, LastFind, EntryAt;
    after := prices;
    if n < m {
      Passes(load, start, n, held, prices);
      var next := LoadTokens(load, prices, n, |load.jobs[n].batch|);
      forall dex, address | BatchFind(load, n, dex, address).None?
        ensures EntryAt(next, dex, address) == EntryAt(prices, dex, address)
      {
        BatchDecides(load, prices, n, |load.jobs[n].batch|, dex, address);
      }
      after := PassesOn(load, start, n + 1, m, held, next);
    }
  }

  lemma StartsBetween(load: Load, prices: PriceTable)
    requires load.Valid()
    ensures Leads(load, Initial(load, prices), Between(load, 0, None, prices))
  {
    var start := Initial(load, prices);
    assert Run(load, start, []) == Some(start);
    assert start == Between(load, 0, None, prices);
  }

  /** With two slots any batch can be the last to write. */
  lemma AnyBatchLast(load: Load, prices: PriceTable, j: nat, dex: string, address: string) returns (events: seq<Event>)
    requires load.Valid() && Prepared(load, prices) && load.limit > 1 && j < |load.jobs|
    requires BatchFind(load, j, dex, address).Some?
    ensures EndsWith(load, prices, events, dex, address, BatchFind(load, j, dex, address))
  {
    var start := Initial(load, prices);
    StartsBetween(load, prices);
    hide Leads, LoadTokens, Run, Between, LastFind, EntryAt;
    var before := PassesOn(load, start, 0, j, None, prices);
    Holds1(load, start, j, before);
    var others := PassesOn(load, start, j + 1, |load.jobs|, Some(j), before);
    DexPrepared(load, others, j);
    HeldFinishes(load, start, |load.jobs|, j, others);
    BatchDecides(load, others, j, |load.jobs[j].batch|, dex, address);
    events := Completes(load, start, LoadTokens(load, others, j, |load.jobs[j].batch|));
  }

  lemma NoBatchWrites(load: Load, prices: PriceTable, dex: string, address: string) returns (events: seq<Event>)
    requires load.Valid() && Prepared(load, prices)
    requires forall j: nat :: j < |load.jobs| ==> BatchFind(load, j, dex, address).None?
    ensures EndsWith(load, prices, events, dex, address, EntryAt(prices, dex, address))
  {
    var start := Initial(load, prices);
    StartsBetween(load, prices);
    hide Leads, Run, Between, BatchFind, EntryAt;
    var after := PassesOn(load, start, 0, |load.jobs|, None, prices);
    events := Completes(load, start, after);
  }

  /**
   What finished loads with several slots can leave in an entry, exactly: the last find
   of any batch that finds a price for it, or what was there if none does.
   */
  lemma EntryOutcomes(load: Load, prices: PriceTable, dex: string, address: string, entry: Option<real>)
    requires load.Valid() && Prepared(load, prices) && load.limit > 1
    ensures (exists events :: EndsWith(load, prices, events, dex, address, entry))
       <==> CanHold(load, prices, dex, address, entry)
  {
    hide EndsWith, BatchFind, EntryAt;
    if events :| EndsWith(load, prices, events, dex, address, entry) {
      FinishedEntries(load, prices, events, dex, address, entry);
    }
    if CanHold(load, prices, dex, address, entry) {
      if j: nat :| j < |load.jobs| && BatchFind(load, j, dex, address) == entry && entry.Some? {
        var events := AnyBatchLast(load, prices, j, dex, address);
      } else {
        var events := NoBatchWrites(load, prices, dex, address);
      }
    }
  }
}
