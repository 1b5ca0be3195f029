/** Tokens read from the token directory, grouped by printed chain ID. */
module TokenLoader {
  import opened Wrappers
  import opened Entities
  import opened Strings
  import opened Sums
  import opened NetworkDefinitions

  /** What reading and decoding a file yields: its tokens, or None on failure. */
  type FileContents = string -> Option<seq<TokenInfo>>

  /** The network identifier the loader reads off a file name: here the case is kept. */
  function BaseName(name: string): string
  {
    TrimSuffix(name, Ext(name))
  }

  /** The tokens whose printed chain ID is the given one, in order. */
  function OnChain(tokens: seq<TokenInfo>, chain: string): (kept: seq<TokenInfo>)
    ensures forall t :: t in kept ==> t in tokens && FormatUint(t.chainID) == chain
  {
    if tokens == [] then []
    else
      var before, last := OnChain(tokens[..|tokens| - 1], chain), tokens[|tokens| - 1];
      if FormatUint(last.chainID) == chain then before + [last] else before
  }

  predicate IsOnChain(token: TokenInfo, chain: string)
  {
    FormatUint(token.chainID) == chain
  }

  function ChainPositions(tokens: seq<TokenInfo>, chain: string): seq<nat>
  {
    if tokens == [] then []
    else
      var before := ChainPositions(tokens[..|tokens| - 1], chain);
      if IsOnChain(tokens[|tokens| - 1], chain) then before + [|tokens| - 1] else before
  }

  /** Exactly the tokens with the printed chain ID are kept, each once and in order. */
  ghost predicate KeepsExactly(tokens: seq<TokenInfo>, chain: string, kept: seq<TokenInfo>)
  {
    exists at :: Picks(tokens, at, kept) && forall k: nat :: k in at <==> (k < |tokens| && IsOnChain(tokens[k], chain))
  }

  lemma {:induction false} ChainPositionsExact(tokens: seq<TokenInfo>, chain: string)
    ensures Increasing(ChainPositions(tokens, chain))
    ensures forall k: nat :: k in ChainPositions(tokens, chain) <==> (k < |tokens| && IsOnChain(tokens[k], chain))
  {
    hide IsOnChain;
    if tokens != [] {
      var before := ChainPositions(tokens[..|tokens| - 1], chain);
      ChainPositionsExact(tokens[..|tokens| - 1], chain);
      forall i | 0 <= i < |before|
        ensures before[i] < |tokens| - 1
      {
        var k: nat := before[i];
        assert k in before;
      }
    }
  }

  lemma {:induction false} OnChainAtPositions(tokens: seq<TokenInfo>, chain: string)
    ensures var at, kept := ChainPositions(tokens, chain), OnChain(tokens, chain);
      |kept| == |at| && forall i :: 0 <= i < |at| ==> at[i] < |tokens| && kept[i] == tokens[at[i]]
  {
    hide FormatUint;
    if tokens != [] {
      OnChainAtPositions(tokens[..|tokens| - 1], chain);
    }
  }

  lemma OnChainExact(tokens: seq<TokenInfo>, chain: string)
    ensures KeepsExactly(tokens, chain, OnChain(tokens, chain))
  {
    hide FormatUint, OnChain, Increasing, ChainPositions;
    ChainPositionsExact(tokens, chain);
    OnChainAtPositions(tokens, chain);
    assert Picks(tokens, ChainPositions(tokens, chain), OnChain(tokens, chain));
  }

  /** What one file adds to the list kept under a printed chain ID. */
  function FromFile(active: map<string, NetworkDefinition>, contents: FileContents,
                    file: DirEntry, chain: string): seq<TokenInfo>
  {
    if IsTokenFile(file) && BaseName(file.name) in active && contents(file.name).Some?
       && FormatUint(active[BaseName(file.name)].chainID) == chain
    then OnChain(contents(file.name).value, chain)
    else []
  }

  /** The tokens under a printed chain ID: what the files add, in listing order. */
  function TokensUnder(active: map<string, NetworkDefinition>, contents: FileContents, files: seq<DirEntry>,
                       chain: string): seq<TokenInfo>
  {
    if files == [] then []
    else TokensUnder(active, contents, files[..|files| - 1], chain)
         + FromFile(active, contents, files[|files| - 1], chain)
  }

  /** The list under a key, empty when the key is absent. */
  function ListAt(tokensByChainID: map<string, seq<TokenInfo>>, chain: string): seq<TokenInfo>
  {
    if chain in tokensByChainID then tokensByChainID[chain] else []
  }

  /** The grouping holds exactly the non-empty lists the files add up to. */
  ghost predicate Groups(tokensByChainID: map<string, seq<TokenInfo>>, active: map<string, NetworkDefinition>,
                         contents: FileContents, files: seq<DirEntry>)
  {
    && (forall chain :: ListAt(tokensByChainID, chain) == TokensUnder(active, contents, files, chain))
    && (forall chain :: chain in tokensByChainID ==> tokensByChainID[chain] != [])
  }

  /** The listing is None when the directory cannot be read. */
  method GetTokensByNetwork(activeNetworkDefs: seq<NetworkDefinition>, listing: Option<seq<DirEntry>>,
                            contents: FileContents)
    returns (result: Result<map<string, seq<TokenInfo>>>)
    ensures listing.None? ==> result == Err("failed to read token directory")
    ensures listing.Some? <==> result.Ok?
    ensures result.Ok? ==> Groups(result.value, ByIdentifier(activeNetworkDefs), contents, listing.value)
  {
    hide ToLower, Ext, TrimSuffix, HasSuffix, FormatUint, OnChain, Groups, TokensUnder;
    GroupsOfNothing(ByIdentifier(activeNetworkDefs), contents);
    if listing.None? {
      return Err("failed to read token directory");
    }
    var files := listing.value;
    var tokensByChainID: map<string, seq<TokenInfo>> := map[];
    var active := IndexByIdentifier(activeNetworkDefs);
    var i := 0;
    while i < |files|
      invariant 0 <= i <= |files|
      invariant Groups(tokensByChainID, active, contents, files[..i])
    {
      var file := files[i];
      assert files[..i + 1] == files[..i] + [file];
      GroupsAfterFile(tokensByChainID, active, contents, files[..i], file);
      i := i + 1;
      if file.isDir || !HasSuffix(ToLower(file.name), ".json") {
        continue;
      }
      var identifier := TrimSuffix(file.name, Ext(file.name));
      if identifier !in active {
        continue;
      }
      var data := contents(file.name);
      if data.None? {
        continue;
      }
      var key := FormatUint(active[identifier].chainID);
      var valid := KeepOnChain(data.value, active[identifier]);
      if |valid| > 0 {
        tokensByChainID := tokensByChainID[key := ListAt(tokensByChainID, key) + valid];
      }
    }
    assert files[..i] == files;
    result := Ok(tokensByChainID);
  }

  lemma GroupsOfNothing(active: map<string, NetworkDefinition>, contents: FileContents)
    ensures Groups(map[], active, contents, [])
  {
  }

  /** A file that adds nothing leaves the grouping right; one that adds to a single key extends it there. */
  lemma GroupsAfterFile(m: map<string, seq<TokenInfo>>, active: map<string, NetworkDefinition>, contents: FileContents,
                        before: seq<DirEntry>, file: DirEntry)
    requires Groups(m, active, contents, before)
    ensures (forall chain :: FromFile(active, contents, file, chain) == []) ==>
      Groups(m, active, contents, before + [file])
    ensures forall key, valid: seq<TokenInfo> ::
      (valid != [] && forall chain :: FromFile(active, contents, file, chain) == if chain == key then valid else [])
      ==> Groups(m[key := ListAt(m, key) + valid], active, contents, before + [file])
  {
    hide FromFile, TokensUnder;
    forall chain
      ensures TokensUnder(active, contents, before + [file], chain)
           == TokensUnder(active, contents, before, chain) + FromFile(active, contents, file, chain)
    {
      UnderAfterFile(active, contents, before, file, chain);
    }
  }

  lemma UnderAfterFile(active: map<string, NetworkDefinition>, contents: FileContents, before: seq<DirEntry>,
                       file: DirEntry, chain: string)
    ensures TokensUnder(active, contents, before + [file], chain)
         == TokensUnder(active, contents, before, chain) + FromFile(active, contents, file, chain)
  {
    hide FromFile;
    assert (before + [file])[..|before|] == before;
  }

  method IndexByIdentifier(defs: seq<NetworkDefinition>) returns (active: map<string, NetworkDefinition>)
    ensures active == ByIdentifier(defs)
  {
    active := map[];
    var i := 0;
    while i < |defs|
      invariant 0 <= i <= |defs|
      invariant active == ByIdentifier(defs[..i])
    {
      assert defs[..i + 1][..i] == defs[..i];
      active := active[defs[i].identifier := defs[i]];
      i := i + 1;
    }
    assert defs[..i] == defs;
  }

  method KeepOnChain(tokens: seq<TokenInfo>, networkDef: NetworkDefinition) returns (valid: seq<TokenInfo>)
    ensures KeepsExactly(tokens, FormatUint(networkDef.chainID), valid)
    ensures valid == OnChain(tokens, FormatUint(networkDef.chainID))
  {
    valid := [];
    var i := 0;
    while i < |tokens|
      invariant 0 <= i <= |tokens|
      invariant valid == OnChain(tokens[..i], FormatUint(networkDef.chainID))
    {
      assert tokens[..i + 1][..i] == tokens[..i];
      if FormatUint(tokens[i].chainID) == FormatUint(networkDef.chainID) {
        valid := valid + [tokens[i]];
      }
      i := i + 1;
    }
    assert tokens[..i] == tokens;
    OnChainExact(tokens, FormatUint(networkDef.chainID));
  }

  // ---- What the grouping guarantees ----------------------------------------

  /** Every token kept under a printed chain ID has that numeric chain ID. */
  lemma {:induction false} KeptTokensMatch(active: map<string, NetworkDefinition>, contents: FileContents,
                                           files: seq<DirEntry>, chainID: nat, t: TokenInfo)
    requires t in TokensUnder(active, contents, files, FormatUint(chainID))
    ensures t.chainID == chainID
  {
    var before, file := files[..|files| - 1], files[|files| - 1];
    if t in TokensUnder(active, contents, before, FormatUint(chainID)) {
      KeptTokensMatch(active, contents, before, chainID, t);
    } else {
      assert t in FromFile(active, contents, file, FormatUint(chainID));
      FormatUintInjective(t.chainID, chainID);
    }
  }

  /** What one file adds for a network: its tokens on the network's chain, if it is named after the network. */
  function OwnTokens(d: NetworkDefinition, contents: FileContents, file: DirEntry): seq<TokenInfo>
  {
    if IsTokenFile(file) && BaseName(file.name) == d.identifier && contents(file.name).Some?
    then OnChain(contents(file.name).value, FormatUint(d.chainID))
    else []
  }

  function OwnTokensOf(d: NetworkDefinition, contents: FileContents, files: seq<DirEntry>): seq<TokenInfo>
  {
    if files == [] then []
    else OwnTokensOf(d, contents, files[..|files| - 1]) + OwnTokens(d, contents, files[|files| - 1])
  }

  /** Token k of file i. */
  datatype TokenPlace = TokenPlace(i: nat, k: nat)

  /** Earlier in the listing, or earlier in one file. */
  predicate Before(a: TokenPlace, b: TokenPlace)
  {
    a.i < b.i || (a.i == b.i && a.k < b.k)
  }

  /** The file can be read, is named after the network, and has a token of its chain there. */
  ghost predicate HoldsOwn(d: NetworkDefinition, contents: FileContents, files: seq<DirEntry>, at: TokenPlace)
  {
    && at.i < |files| && !files[at.i].isDir && NamedExactly(d, files[at.i].name)
    && contents(files[at.i].name).Some? && at.k < |contents(files[at.i].name).value|
    && contents(files[at.i].name).value[at.k].chainID == d.chainID
  }

  /** The identifier with the extension .json, which alone may be in any case. */
  predicate NamedExactly(d: NetworkDefinition, name: string)
  {
    && |name| == |d.identifier| + 5 && name[..|d.identifier|] == d.identifier
    && EqualFold(name[|d.identifier|..], ".json")
  }

  predicate IsTokenAt(t: TokenInfo, contents: FileContents, files: seq<DirEntry>, at: TokenPlace)
  {
    && at.i < |files| && contents(files[at.i].name).Some? && at.k < |contents(files[at.i].name).value|
    && t == contents(files[at.i].name).value[at.k]
  }

  /** The list is made up of exactly the network's own tokens, each once, file by file and in each file's order. */
  ghost predicate ListsOwn(d: NetworkDefinition, contents: FileContents, files: seq<DirEntry>,
                           places: seq<TokenPlace>, own: seq<TokenInfo>)
  {
    && |places| == |own|
    && (forall at :: at in places <==> HoldsOwn(d, contents, files, at))
    && (forall x, y :: 0 <= x < y < |places| ==> Before(places[x], places[y]))
    && forall x :: 0 <= x < |own| ==> IsTokenAt(own[x], contents, files, places[x])
  }

  lemma OwnFileIff(d: NetworkDefinition, name: string)
    ensures NamedExactly(d, name) <==> HasSuffix(ToLower(name), ".json") && BaseName(name) == d.identifier
  {
    hide BaseName, Ext;
    var n := |name|;
    if n >= 5 {
      assert ToLower(name)[n - 5..] == ToLower(name[n - 5..]);
    }
    assert ToLower(".json") == ".json";
    if HasSuffix(ToLower(name), ".json") {
      TokenFileExt(name);
    }
  }

  /** The places of the last file's own tokens, and the tokens there. */
  ghost predicate ListsLast(d: NetworkDefinition, contents: FileContents, files: seq<DirEntry>,
                            places: seq<TokenPlace>, own: seq<TokenInfo>)
  {
    && |places| == |own|
    && (forall at :: at in places <==> (at.i == |files| - 1 && HoldsOwn(d, contents, files, at)))
    && (forall x, y :: 0 <= x < y < |places| ==> Before(places[x], places[y]))
    && forall x :: 0 <= x < |own| ==> IsTokenAt(own[x], contents, files, places[x])
  }

  /** Keeping tokens by their printed chain ID keeps exactly those with the numeric one. */
  lemma OnChainByNumber(tokens: seq<TokenInfo>, chainID: nat) returns (at: seq<nat>)
    ensures Picks(tokens, at, OnChain(tokens, FormatUint(chainID)))
    ensures forall k: nat :: k in at <==> (k < |tokens| && tokens[k].chainID == chainID)
  {
    at := ChainPositions(tokens, FormatUint(chainID));
    ChainPositionsExact(tokens, FormatUint(chainID));
    OnChainAtPositions(tokens, FormatUint(chainID));
    hide FormatUint, OnChain, ChainPositions;
    forall k: nat | k < |tokens|
      ensures IsOnChain(tokens[k], FormatUint(chainID)) <==> tokens[k].chainID == chainID
    {
      FormatUintInjective(tokens[k].chainID, chainID);
    }
  }

  lemma OwnTokensIf(d: NetworkDefinition, contents: FileContents, file: DirEntry)
    ensures OwnTokens(d, contents, file)
         == if !file.isDir && NamedExactly(d, file.name) && contents(file.name).Some?
            then OnChain(contents(file.name).value, FormatUint(d.chainID)) else []
  {
    OwnFileIff(d, file.name);
    hide NamedExactly, BaseName, HasSuffix, ToLower, FormatUint, OnChain;
  }

  /** The file is the network's and can be read. */
  ghost predicate CanHold(d: NetworkDefinition, contents: FileContents, file: DirEntry)
  {
    !file.isDir && NamedExactly(d, file.name) && contents(file.name).Some?
  }

  lemma PlacesListed(d: NetworkDefinition, contents: FileContents, files: seq<DirEntry>, at: seq<nat>,
                     own: seq<TokenInfo>)
    requires files != [] && CanHold(d, contents, files[|files| - 1])
    requires var tokens := contents(files[|files| - 1].name).value;
      Picks(tokens, at, own) && forall k: nat :: k in at <==> (k < |tokens| && tokens[k].chainID == d.chainID)
    ensures ListsLast(d, contents, files, PlacesIn(|files| - 1, at), own)
  {
    PlacesAt(|files| - 1, at);
    hide NamedExactly, PlacesIn;
    var places := PlacesIn(|files| - 1, at);
    hide HoldsOwn;
    assert forall x, y :: 0 <= x < y < |places| ==> Before(places[x], places[y]);
    assert forall x :: 0 <= x < |own| ==> IsTokenAt(own[x], contents, files, places[x]);
    forall place: TokenPlace
      ensures place in places <==> (place.i == |files| - 1 && HoldsOwn(d, contents, files, place))
    {
      if place.i == |files| - 1 {
        HeldInLast(d, contents, files, place);
      }
    }
  }

  lemma HeldInLast(d: NetworkDefinition, contents: FileContents, files: seq<DirEntry>, place: TokenPlace)
    requires files != [] && place.i == |files| - 1
    ensures HoldsOwn(d, contents, files, place) <==>
      && CanHold(d, contents, files[place.i]) && place.k < |contents(files[place.i].name).value|
      && contents(files[place.i].name).value[place.k].chainID == d.chainID
  {
  }

  lemma LastFileListed(d: NetworkDefinition, contents: FileContents, files: seq<DirEntry>)
    returns (places: seq<TokenPlace>)
    requires files != []
    ensures ListsLast(d, contents, files, places, OwnTokens(d, contents, files[|files| - 1]))
  {
    var file := files[|files| - 1];
    OwnTokensIf(d, contents, file);
    if CanHold(d, contents, file) {
      hide OwnTokens, NamedExactly, FormatUint, OnChain, ListsLast;
      var at := OnChainByNumber(contents(file.name).value, d.chainID);
      places := PlacesIn(|files| - 1, at);
      PlacesListed(d, contents, files, at, OwnTokens(d, contents, file));
    } else {
      hide OwnTokens, NamedExactly, FormatUint, OnChain;
      places := [];
    }
  }

  function PlacesIn(i: nat, at: seq<nat>): seq<TokenPlace>
  {
    seq(|at|, x requires 0 <= x < |at| => TokenPlace(i, at[x]))
  }

  lemma PlacesAt(i: nat, at: seq<nat>)
    ensures |PlacesIn(i, at)| == |at| && forall x :: 0 <= x < |at| ==> PlacesIn(i, at)[x] == TokenPlace(i, at[x])
    ensures forall place: TokenPlace :: place in PlacesIn(i, at) <==> place.i == i && place.k in at
  {
    forall place: TokenPlace | place.i == i && place.k in at
      ensures place in PlacesIn(i, at)
    {
      var x :| 0 <= x < |at| && at[x] == place.k;
      assert PlacesIn(i, at)[x] == place;
    }
  }

  lemma ListsAppended(d: NetworkDefinition, contents: FileContents, files: seq<DirEntry>,
                      places: seq<TokenPlace>, own: seq<TokenInfo>, added: seq<TokenPlace>, last: seq<TokenInfo>)
    requires files != [] && ListsOwn(d, contents, files[..|files| - 1], places, own)
    requires ListsLast(d, contents, files, added, last)
    ensures ListsOwn(d, contents, files, places + added, own + last)
  {
    var front := files[..|files| - 1];
    assert forall at: TokenPlace :: at.i < |front| ==>
      (HoldsOwn(d, contents, files, at) <==> HoldsOwn(d, contents, front, at));
    assert forall at: TokenPlace, t :: IsTokenAt(t, contents, front, at) ==> IsTokenAt(t, contents, files, at);
    hide HoldsOwn, IsTokenAt;
    assert forall x :: 0 <= x < |places| ==> places[x] in places;
    assert forall x :: 0 <= x < |added| ==> added[x] in added;
    assert forall at :: at in places ==> at.i < |front| by {
      InFront(d, contents, front, places);
    }
  }

  lemma InFront(d: NetworkDefinition, contents: FileContents, files: seq<DirEntry>, places: seq<TokenPlace>)
    requires forall at :: at in places ==> HoldsOwn(d, contents, files, at)
    ensures forall at :: at in places ==> at.i < |files|
  {
  }

  /** A network's own tokens, place by place. */
  lemma {:induction false} OwnTokensListed(d: NetworkDefinition, contents: FileContents, files: seq<DirEntry>)
    returns (places: seq<TokenPlace>)
    ensures ListsOwn(d, contents, files, places, OwnTokensOf(d, contents, files))
  {
    places := [];
    if files != [] {
      var front, last := files[..|files| - 1], files[|files| - 1];
      var before := OwnTokensListed(d, contents, front);
      var added := LastFileListed(d, contents, files);
      hide OwnTokens, ListsOwn, ListsLast;
      ListsAppended(d, contents, files, before, OwnTokensOf(d, contents, front), added, OwnTokens(d, contents, last));
      places := before + added;
    }
  }

  /** With unlike networks, a network's list comes from the files named after it and from no other. */
  lemma {:induction false} TokensAreOwn(defs: seq<NetworkDefinition>, contents: FileContents, files: seq<DirEntry>,
                                        d: NetworkDefinition)
    requires PairwiseUnlike(defs) && d in defs
    ensures TokensUnder(ByIdentifier(defs), contents, files, FormatUint(d.chainID)) == OwnTokensOf(d, contents, files)
  {
    if files != [] {
      TokensAreOwn(defs, contents, files[..|files| - 1], d);
      OneFileIsOwn(defs, contents, files[|files| - 1], d);
    }
  }

  lemma OneFileIsOwn(defs: seq<NetworkDefinition>, contents: FileContents, file: DirEntry, d: NetworkDefinition)
    requires PairwiseUnlike(defs) && d in defs
    ensures FromFile(ByIdentifier(defs), contents, file, FormatUint(d.chainID)) == OwnTokens(d, contents, file)
  {
    var active := ByIdentifier(defs);
    ByIdentifierEntries(defs);
    ByIdentifierFinds(defs, d);
    if BaseName(file.name) in active {
      var e := active[BaseName(file.name)];
      FormatUintInjective(e.chainID, d.chainID);
      if e.identifier != d.identifier {
        EntriesUnlike(defs, e, d);
      }
    }
  }

  // ---- The provider and the loader read names differently --------------------

  lemma JsonSuffix(name: string)
    requires HasSuffix(ToLower(name), ".json")
    ensures var n := |name|;
      n >= 5 && name[n - 5] == '.' && Plain(name[n - 4]) && Plain(name[n - 3])
      && Plain(name[n - 2]) && Plain(name[n - 1])
  {
    var n := |name|;
    var low := ToLower(name);
    assert low[n - 5] == low[n - 5..][0] && low[n - 4] == low[n - 5..][1] && low[n - 3] == low[n - 5..][2]
        && low[n - 2] == low[n - 5..][3] && low[n - 1] == low[n - 5..][4];
  }

  /** A token file's extension is its last five characters, in whatever case. */
  lemma TokenFileExt(name: string)
    requires HasSuffix(ToLower(name), ".json")
    ensures |name| >= 5 && BaseName(name) == name[..|name| - 5]
    ensures TrimSuffix(ToLower(name), ".json") == ToLower(BaseName(name))
  {
    var n := |name|;
    JsonSuffix(name);
    var tail := [name[n - 4], name[n - 3], name[n - 2], name[n - 1]];
    FourLetterExt(name[..n - 5], tail[0], tail[1], tail[2], tail[3]);
    hide Ext, Plain, LowerChar;
    assert name == name[..n - 5] + "." + tail;
    assert name[n - 5..] == "." + tail == Ext(name);
    assert ToLower(name)[..n - 5] == ToLower(name[..n - 5]);
  }

  ghost predicate Plain(c: char)
  {
    c != '.' && c != '/'
  }

  lemma FourLetterExt(front: string, a: char, b: char, c: char, d: char)
    requires Plain(a) && Plain(b) && Plain(c) && Plain(d)
    ensures Ext(front + "." + [a, b, c, d]) == "." + [a, b, c, d]
  {
    assert Ext(front + ".") == ".";
    ExtGrows(front + ".", a);
    ExtGrows(front + "." + [a], b);
    ExtGrows(front + "." + [a] + [b], c);
    ExtGrows(front + "." + [a] + [b] + [c], d);
    hide Ext;
    assert front + "." + [a] + [b] + [c] + [d] == front + "." + [a, b, c, d];
    assert "." + [a] + [b] + [c] + [d] == "." + [a, b, c, d];
  }

  lemma ExtGrows(front: string, c: char)
    requires Plain(c)
    ensures Ext(front + [c]) == if Ext(front) == "" then "" else Ext(front) + [c]
  {
    assert (front + [c])[..|front + [c]| - 1] == front;
  }

  /**
   The provider lower-cases a file name before looking for its network, the
   loader does not. A file that activates a network is read for tokens exactly
   when its base name is already in lower case.
   */
  lemma LoaderReadsLowerCaseOnly(defs: seq<NetworkDefinition>, files: seq<DirEntry>, file: DirEntry)
    requires PairwiseUnlike(defs) && file in files && Activates(ByIdentifier(defs), file)
    ensures var active := ActiveDefinitions(ByIdentifier(defs), files);
      BaseName(file.name) in ByIdentifier(active) <==> BaseName(file.name) == ToLower(BaseName(file.name))
  {
    var known := ByIdentifier(defs);
    var active := ActiveDefinitions(known, files);
    ByIdentifierEntries(defs);
    TokenFileExt(file.name);
    ByIdentifierEntries(active);
    if BaseName(file.name) in ByIdentifier(active) {
      var d := ByIdentifier(active)[BaseName(file.name)];
      ActiveIff(known, files, d);
      var g :| g in files && Activates(known, g) && FileIdentifier(g) == d.identifier;
      LowerIsFixed(g.name);
    } else {
      ActiveIff(known, files, known[FileIdentifier(file)]);
    }
  }

  const UPPER_CASE_FILE := DirEntry("Ethereum.json", false)

  lemma UpperCaseBaseName()
    ensures BaseName("Ethereum.json") == "Ethereum" && ToLower("Ethereum") == "ethereum"
  {
    FourLetterExt("Ethereum", 'j', 's', 'o', 'n');
    assert "Ethereum" + "." + ['j', 's', 'o', 'n'] == "Ethereum.json";
    assert "Ethereum.json"[8..] == ".json" && "Ethereum.json"[..8] == "Ethereum";
  }

  /** A directory with just Ethereum.json activates Ethereum and yields no token, whatever the file holds. */
  lemma UpperCaseFileIsNotRead(contents: FileContents)
    ensures var active := ActiveDefinitions(ByIdentifier(KNOWN_DEFINITIONS), [UPPER_CASE_FILE]);
      && active == [ETHEREUM]
      && forall chain :: TokensUnder(ByIdentifier(active), contents, [UPPER_CASE_FILE], chain) == []
  {
    UpperCaseBaseName();
    LowerTwice("Ethereum.json");
    assert NamesNetwork(UPPER_CASE_FILE, ETHEREUM) by {
      assert ToLower("Ethereum.json") == "ethereum.json" == "ethereum" + ".json";
    }
    assert ETHEREUM == KNOWN_DEFINITIONS[0];
    KnownDefinitionsUnlike();
    OneFileActive(UPPER_CASE_FILE, ETHEREUM);
    NamedFileActivates(UPPER_CASE_FILE, ETHEREUM);
    hide KNOWN_DEFINITIONS, ByIdentifier, Activates, ActiveDefinitions, ToLower, PairwiseUnlike, NamesNetwork;
    LoaderReadsLowerCaseOnly(KNOWN_DEFINITIONS, [UPPER_CASE_FILE], UPPER_CASE_FILE);
    NothingRead(ByIdentifier([ETHEREUM]), contents, UPPER_CASE_FILE);
  }

  lemma NothingRead(active: map<string, NetworkDefinition>, contents: FileContents, file: DirEntry)
    requires BaseName(file.name) !in active
    ensures forall chain :: TokensUnder(active, contents, [file], chain) == []
  {
    hide BaseName, FormatUint;
    assert [file][..0] == [];
  }

  lemma LowerIsFixed(name: string)
    requires HasSuffix(ToLower(name), ".json")
    ensures ToLower(TrimSuffix(ToLower(name), ".json")) == TrimSuffix(ToLower(name), ".json")
  {
  }
}
