/** The networks the service knows, and which of them a token directory activates. */
module NetworkDefinitions {
  import opened Wrappers
  import opened Entities
  import opened Strings
  import opened Sums

  const ETHEREUM := NetworkDefinition(
    1, "Ethereum Mainnet", "ethereum", "ETH", 18,
    "https://ethereum-rpc.publicnode.com", ["https://rpc.ankr.com/eth", "https://ethereum.publicnode.com"],
    "ethereum", "0xC02aaA39b223FE8D0A0e5C4F27eAD9083C756Cc2")

  const BSC := NetworkDefinition(
    56, "BNB Smart Chain", "bsc", "BNB", 18,
    "https://1rpc.io/bnb", ["https://bsc-dataseed2.binance.org/", "https://bsc.publicnode.com"],
    "bsc", "0xbb4CdB9CBd36B01bD1cBaEBF2De08d9173bc095c")

  const POLYGON := NetworkDefinition(
    137, "Polygon PoS", "polygon", "MATIC", 18,
    "https://polygon-rpc.com/", ["https://rpc.ankr.com/polygon", "https://polygon.publicnode.com"],
    "polygon", "0x0d500B1d8E8eF31E21C99d1Db9A6444d3ADf1270")

  const ARBITRUM := NetworkDefinition(
    42161, "Arbitrum One", "arbitrum", "ETH", 18,
    "https://arb1.arbitrum.io/rpc", ["https://arbitrum.llamarpc.com", "https://arbitrum.publicnode.com"],
    "arbitrum", "0x82aF49447D8a07e3bd95BD0d56f35241523fBab1")

  const AVALANCHE := NetworkDefinition(
    43114, "Avalanche C-Chain", "avalanche", "AVAX", 18,
    "https://api.avax.network/ext/bc/C/rpc", ["https://avalanche.public-rpc.com", "https://rpc.ankr.com/avalanche"],
    "avalanche", "0xB31f66AA3C1e785363F0875A1B74E27b85FD66c7")

  const BASE := NetworkDefinition(
    8453, "Base Mainnet", "base", "ETH", 18,
    "https://1rpc.io/base", ["https://base.publicnode.com", "https://base.llamarpc.com"],
    "base", "0x4200000000000000000000000000000000000006")

  const BLAST := NetworkDefinition(
    81457, "Blast Mainnet", "blast", "ETH", 18,
    "https://rpc.ankr.com/blast",
    ["https://blast.blockpi.network/v1/rpc/public", "https://blastl2-mainnet.public.blastapi.io"],
    "blast", "0x4300000000000000000000000000000000000004")

  const CELO := NetworkDefinition(
    42220, "Celo Mainnet", "celo", "CELO", 18,
    "https://rpc.ankr.com/celo", ["https://rpc.ankr.com/celo"],
    "celo", "0x471ece3750da237f93b8e339c536989b8978a438")

  const CORE := NetworkDefinition(
    1116, "Core Blockchain", "core", "CORE", 18,
    "https://rpc.coredao.org", ["https://rpc.ankr.com/core_dao"],
    "core", "0xDeadDeAddeAddEAddeadDEaDDEAdDeaDDeAD0000")

  const FANTOM := NetworkDefinition(
    250, "Fantom Opera", "fantom", "FTM", 18,
    "https://1rpc.io/ftm", ["https://fantom.publicnode.com", "https://rpc.ankr.com/fantom"],
    "fantom", "0x21be370D5312f44cB42ce377BC9b8a0cEF1A4C83")

  const GNOSIS := NetworkDefinition(
    100, "Gnosis Chain", "gnosis", "xDAI", 18,
    "https://0xrpc.io/gno", ["https://rpc.ankr.com/gnosis", "https://gnosis.publicnode.com"],
    "gnosis", "0xe91D153E0b41518A2Ce8DD3D7944Fa863463A97d")

  const LINEA := NetworkDefinition(
    59144, "Linea Mainnet", "linea", "ETH", 18,
    "https://rpc.linea.build", ["https://linea.blockpi.network/v1/rpc/public"],
    "linea", "0xe5D7C2a44FfDDf6b295A15c148167daaAf5Cf34f")

  const MANTA := NetworkDefinition(
    169, "Manta Pacific Mainnet", "manta", "ETH", 18,
    "https://pacific-rpc.manta.network/http", [],
    "manta", "0x0Dc808AdCeDb63Fc4B9Ac0A9865d50A052A0d5c5")

  const MANTLE := NetworkDefinition(
    5000, "Mantle Network", "mantle", "MNT", 18,
    "https://rpc.mantle.xyz", [],
    "mantle", "0x78c1b0C915c4FAA5FffA6CAbf0219DA63d7f4cb8")

  const METIS := NetworkDefinition(
    1088, "Metis Andromeda Mainnet", "metis", "METIS", 18,
    "https://andromeda.metis.io/?owner=1088", [],
    "metis", "0xDeadDeAddeAddEAddeadDEaDDEAdDeaDDeAD0000")

  const OPTIMISM := NetworkDefinition(
    10, "OP Mainnet", "optimism", "ETH", 18,
    "https://op-pokt.nodies.app", ["https://optimism.publicnode.com", "https://rpc.ankr.com/optimism"],
    "optimism", "0x4200000000000000000000000000000000000006")

  const POLYGON_ZK_EVM := NetworkDefinition(
    1101, "Polygon zkEVM", "polygon_zkevm", "ETH", 18,
    "https://zkevm-rpc.com", ["https://rpc.ankr.com/polygon_zkevm"],
    "polygonzkevm", "0x4F9A0e7FD2Bf6067db6994CF12E4495Df938E6e9")

  const SCROLL := NetworkDefinition(
    534352, "Scroll", "scroll", "ETH", 18,
    "https://rpc.scroll.io", ["https://scroll.blockpi.network/v1/rpc/public"],
    "scroll", "0x5300000000000000000000000000000000000004")

  const ZK_SYNC := NetworkDefinition(
    324, "zkSync Era Mainnet", "zksync", "ETH", 18,
    "https://mainnet.era.zksync.io", [],
    "zksync", "0x5AEa5775959fBC2557Cc8789bC1bf90A239D9a91")

  const ZORA := NetworkDefinition(
    7777777, "Zora Mainnet", "zora", "ETH", 18,
    "https://zora.drpc.org", ["https://rpc.zora.energy", "https://1rpc.io/zora"],
    "zora", "0x4200000000000000000000000000000000000006")

  const KNOWN_DEFINITIONS: seq<NetworkDefinition> := [
    ETHEREUM, BSC, POLYGON, ARBITRUM, AVALANCHE, BASE, BLAST, CELO, CORE,
    FANTOM, GNOSIS, LINEA, MANTA, MANTLE, METIS,
    OPTIMISM, POLYGON_ZK_EVM, SCROLL, ZK_SYNC, ZORA]

  /** A string as a number: its length and first two characters. The table's names differ in it. */
  function Tag(s: string): nat
  {
    if |s| < 2 then |s| else 0x1_0000_0000 * |s| + 0x1_0000 * s[0] as int + s[1] as int
  }

  const NAME_TAGS: seq<nat> := [
    68723998836, 64428834894, 47249883247, 51543867506, 73018703990, 51543933025, 55838900332,
    51543998565, 64428900463, 51544195169, 51544260718, 55839555689, 90199359585, 60134588513,
    98789294181, 42954850384, 55839817839, 25775243363, 77317406827, 51545505903]

  const IDENTIFIER_TAGS: seq<nat> := [
    34366357620, 12891324531, 30072111215, 34366095474, 38661062774, 17186291809, 21481259116,
    17186357349, 17186357359, 25776488545, 25776554094, 21481914473, 21481980001, 25776947297,
    21481980005, 34367012976, 55841914991, 25777340515, 25777799275, 17187864687]

  const DEX_TAGS: seq<nat> := [
    34366357620, 12891324531, 30072111215, 34366095474, 38661062774, 17186291809, 21481259116,
    17186357349, 17186357359, 25776488545, 25776554094, 21481914473, 21481980001, 25776947297,
    21481980005, 34367012976, 51546947695, 25777340515, 25777799275, 17187864687]

  lemma NameTags(i: nat)
    requires i < |KNOWN_DEFINITIONS|
    ensures i < |NAME_TAGS| && Tag(KNOWN_DEFINITIONS[i].name) == NAME_TAGS[i]
  {
    hide Tag;
    if i < 10 {
      FirstNameTags(i);
    } else {
      LastNameTags(i);
    }
  }

  lemma FirstNameTags(i: nat)
    requires i < 10
    ensures Tag(KNOWN_DEFINITIONS[i].name) == NAME_TAGS[i]
  {
  }

  lemma LastNameTags(i: nat)
    requires 10 <= i < 20
    ensures Tag(KNOWN_DEFINITIONS[i].name) == NAME_TAGS[i]
  {
  }

  lemma IdentifierTags(i: nat)
    requires i < |KNOWN_DEFINITIONS|
    ensures i < |IDENTIFIER_TAGS| && Tag(KNOWN_DEFINITIONS[i].identifier) == IDENTIFIER_TAGS[i]
  {
  }

  lemma DexTags(i: nat)
    requires i < |KNOWN_DEFINITIONS|
    ensures i < |DEX_TAGS| && Tag(KNOWN_DEFINITIONS[i].dexScreenerChainID) == DEX_TAGS[i]
  {
  }

  lemma TagsDistinct(i: nat, j: nat)
    requires i < j < 20
    ensures NAME_TAGS[i] != NAME_TAGS[j]
    ensures IDENTIFIER_TAGS[i] != IDENTIFIER_TAGS[j]
    ensures DEX_TAGS[i] != DEX_TAGS[j]
  {
  }

  lemma ChainsDistinct(i: nat, j: nat)
    requires i < j < 20
    ensures KNOWN_DEFINITIONS[i].chainID != KNOWN_DEFINITIONS[j].chainID
  {
  }

  // ---- Distinctness ------------------------------------------------------

  ghost predicate Unlike(a: NetworkDefinition, b: NetworkDefinition)
  {
    && a.identifier != b.identifier
    && a.name != b.name
    && a.chainID != b.chainID
    && a.dexScreenerChainID != b.dexScreenerChainID
  }

  /** No two entries share an identifier, a name, a chain ID or a DEXScreener ID. */
  ghost predicate PairwiseUnlike(defs: seq<NetworkDefinition>)
  {
    forall i, j :: 0 <= i < j < |defs| ==> Unlike(defs[i], defs[j])
  }

  lemma KnownDefinitionsUnlike()
    ensures PairwiseUnlike(KNOWN_DEFINITIONS)
  {
    forall i, j | 0 <= i < j < |KNOWN_DEFINITIONS|
      ensures Unlike(KNOWN_DEFINITIONS[i], KNOWN_DEFINITIONS[j])
    {
      KnownPairUnlike(i, j);
    }
  }

  lemma KnownPairUnlike(i: nat, j: nat)
    requires i < j < |KNOWN_DEFINITIONS|
    ensures Unlike(KNOWN_DEFINITIONS[i], KNOWN_DEFINITIONS[j])
  {
    hide Tag;
    NameTags(i); NameTags(j);
    IdentifierTags(i); IdentifierTags(j);
    DexTags(i); DexTags(j);
    TagsDistinct(i, j);
    ChainsDistinct(i, j);
  }

  /** A table keyed by identifier; a later entry replaces an earlier one. */
  function ByIdentifier(defs: seq<NetworkDefinition>): map<string, NetworkDefinition>
  {
    if defs == [] then map[]
    else
      var last := defs[|defs| - 1];
      ByIdentifier(defs[..|defs| - 1])[last.identifier := last]
  }

  lemma {:induction false} ByIdentifierEntries(defs: seq<NetworkDefinition>)
    ensures forall id :: id in ByIdentifier(defs) ==>
      ByIdentifier(defs)[id].identifier == id && ByIdentifier(defs)[id] in defs
    ensures forall i :: 0 <= i < |defs| ==> defs[i].identifier in ByIdentifier(defs)
  {
    if defs != [] {
      ByIdentifierEntries(defs[..|defs| - 1]);
    }
  }

  /** With distinct identifiers each entry is found under its own. */
  lemma ByIdentifierFinds(defs: seq<NetworkDefinition>, d: NetworkDefinition)
    requires PairwiseUnlike(defs)
    ensures d in defs <==> d.identifier in ByIdentifier(defs) && ByIdentifier(defs)[d.identifier] == d
  {
    ByIdentifierEntries(defs);
    if d in defs {
      var i :| 0 <= i < |defs| && defs[i] == d;
      var j :| 0 <= j < |defs| && defs[j] == ByIdentifier(defs)[d.identifier];
      EntriesDiffer(defs, i, j);
    }
  }

  lemma EntriesDiffer(defs: seq<NetworkDefinition>, i: nat, j: nat)
    requires PairwiseUnlike(defs) && i < |defs| && j < |defs|
    ensures i != j ==>
      defs[i].identifier != defs[j].identifier && defs[i].name != defs[j].name && defs[i].chainID != defs[j].chainID
  {
    if i < j {
      assert Unlike(defs[i], defs[j]);
    } else if j < i {
      assert Unlike(defs[j], defs[i]);
    }
  }

  // ---- Activation by token files -------------------------------------------

  predicate IsTokenFile(file: DirEntry)
  {
    !file.isDir && HasSuffix(ToLower(file.name), ".json")
  }

  /** The network identifier the provider reads off a token file's name. */
  function FileIdentifier(file: DirEntry): string
  {
    TrimSuffix(ToLower(file.name), ".json")
  }

  predicate Activates(known: map<string, NetworkDefinition>, file: DirEntry)
  {
    IsTokenFile(file) && FileIdentifier(file) in known
  }

  function ActiveIdentifiers(known: map<string, NetworkDefinition>, files: seq<DirEntry>): set<string>
  {
    set file | file in files && Activates(known, file) :: FileIdentifier(file)
  }

  /** The definitions a listing activates, in the order their files appear. */
  function ActiveDefinitions(known: map<string, NetworkDefinition>, files: seq<DirEntry>): seq<NetworkDefinition>
  {
    if files == [] then []
    else
      var before, file := files[..|files| - 1], files[|files| - 1];
      var active := ActiveDefinitions(known, before);
      if Activates(known, file) && FileIdentifier(file) !in ActiveIdentifiers(known, before)
      then active + [known[FileIdentifier(file)]]
      else active
  }

  /** File k activates a definition that no file before it activates. */
  predicate Opens(known: map<string, NetworkDefinition>, files: seq<DirEntry>, k: nat)
  {
    && k < |files| && Activates(known, files[k])
    && forall j :: 0 <= j < k && Activates(known, files[j]) ==> FileIdentifier(files[j]) != FileIdentifier(files[k])
  }

  function OpeningFiles(known: map<string, NetworkDefinition>, files: seq<DirEntry>): seq<nat>
  {
    if files == [] then []
    else
      var last := |files| - 1;
      var before := OpeningFiles(known, files[..last]);
      if Opens(known, files, last) then before + [last] else before
  }

  ghost predicate Definitions(known: map<string, NetworkDefinition>, files: seq<DirEntry>, at: seq<nat>,
                              defs: seq<NetworkDefinition>)
  {
    && Increasing(at) && |defs| == |at|
    && forall i :: 0 <= i < |at| ==>
         at[i] < |files| && FileIdentifier(files[at[i]]) in known && defs[i] == known[FileIdentifier(files[at[i]])]
  }

  /** One definition per token file that opens one, in the order of the files. */
  ghost predicate ActivatedInOrder(known: map<string, NetworkDefinition>, files: seq<DirEntry>,
                                   defs: seq<NetworkDefinition>)
  {
    exists at :: Definitions(known, files, at, defs) && forall k: nat :: k in at <==> Opens(known, files, k)
  }

  lemma {:induction false} ActivePositions(known: map<string, NetworkDefinition>, files: seq<DirEntry>)
    ensures var at := OpeningFiles(known, files);
      && Definitions(known, files, at, ActiveDefinitions(known, files))
      && forall k: nat :: k in at <==> Opens(known, files, k)
  {
    hide Opens, ActiveIdentifiers, FileIdentifier, IsTokenFile, Definitions;
    if files != [] {
      var last := |files| - 1;
      var before := files[..last];
      ActivePositions(known, before);
      OpensInFront(known, files, before);
      OpensIfNew(known, files);
      DefinitionsGrow(known, files, OpeningFiles(known, before), ActiveDefinitions(known, before));
    } else {
      NoDefinitions(known);
    }
    OpensWithin(known, files);
  }

  lemma NoDefinitions(known: map<string, NetworkDefinition>)
    ensures Definitions(known, [], [], [])
  {
  }

  lemma DefinitionsGrow(known: map<string, NetworkDefinition>, files: seq<DirEntry>, at: seq<nat>,
                        defs: seq<NetworkDefinition>)
    requires files != [] && Definitions(known, files[..|files| - 1], at, defs)
    ensures Definitions(known, files, at, defs)
    ensures var last := |files| - 1;
      FileIdentifier(files[last]) in known ==>
        Definitions(known, files, at + [last], defs + [known[FileIdentifier(files[last])]])
  {
    hide FileIdentifier;
  }

  lemma OpensWithin(known: map<string, NetworkDefinition>, files: seq<DirEntry>)
    ensures forall k: nat :: Opens(known, files, k) ==> k < |files|
  {
  }

  lemma OpensInFront(known: map<string, NetworkDefinition>, files: seq<DirEntry>, front: seq<DirEntry>)
    requires files != [] && front == files[..|files| - 1]
    ensures forall k: nat :: k < |front| ==> (Opens(known, files, k) <==> Opens(known, front, k))
    ensures forall k: nat :: Opens(known, front, k) ==> k < |front|
  {
    hide FileIdentifier, Activates;
  }

  lemma OpensIfNew(known: map<string, NetworkDefinition>, files: seq<DirEntry>)
    requires files != []
    ensures var last := |files| - 1;
      Opens(known, files, last)
      <==> Activates(known, files[last]) && FileIdentifier(files[last]) !in ActiveIdentifiers(known, files[..last])
  {
    hide FileIdentifier, IsTokenFile;
    var last := |files| - 1;
    assert forall j :: 0 <= j < last ==> files[..last][j] == files[j] && files[j] in files[..last];
  }

  lemma ActiveInOrder(known: map<string, NetworkDefinition>, files: seq<DirEntry>)
    ensures ActivatedInOrder(known, files, ActiveDefinitions(known, files))
  {
    hide Definitions, Opens, OpeningFiles, ActiveDefinitions;
    ActivePositions(known, files);
  }

  lemma NoFiles(known: map<string, NetworkDefinition>)
    ensures ActiveIdentifiers(known, []) == {} && ActiveDefinitions(known, []) == []
  {
  }

  /** What the next file of a listing adds. */
  lemma OneMoreFile(known: map<string, NetworkDefinition>, files: seq<DirEntry>, i: nat)
    requires i < |files|
    ensures var before, more, file := files[..i], files[..i + 1], files[i];
      && ActiveIdentifiers(known, more)
         == ActiveIdentifiers(known, before) + (if Activates(known, file) then {FileIdentifier(file)} else {})
      && ActiveDefinitions(known, more)
         == if Activates(known, file) && FileIdentifier(file) !in ActiveIdentifiers(known, before)
            then ActiveDefinitions(known, before) + [known[FileIdentifier(file)]]
            else ActiveDefinitions(known, before)
  {
    hide FileIdentifier, IsTokenFile;
    assert files[..i + 1][..i] == files[..i] && files[..i + 1] == files[..i] + [files[i]];
  }

  class NetworkDefinitionProvider {
    const allNetworkDefs: map<string, NetworkDefinition>
    ghost const listing: Option<seq<DirEntry>>
    var activeNetworkDefs: seq<NetworkDefinition>

    ghost predicate Valid()
      reads this
    {
      activeNetworkDefs == if listing.None? then [] else ActiveDefinitions(allNetworkDefs, listing.value)
    }

    /** The listing is None when the token directory cannot be read. */
    constructor (known: map<string, NetworkDefinition>, listing: Option<seq<DirEntry>>)
      ensures Valid() && allNetworkDefs == known && this.listing == listing
      ensures activeNetworkDefs == if listing.None? then [] else ActiveDefinitions(known, listing.value)
    {
      allNetworkDefs := known;
      this.listing := listing;
      activeNetworkDefs := [];
      new;
      if listing.None? {
        return;
      }
      hide ActiveIdentifiers, ActiveDefinitions, HasSuffix, ToLower, TrimSuffix;
      var files := listing.value;
      var activeIdentifiers: set<string> := {};
      NoFiles(known);
      var i := 0;
      while i < |files|
        invariant 0 <= i <= |files|
        invariant activeIdentifiers == ActiveIdentifiers(known, files[..i])
        invariant activeNetworkDefs == ActiveDefinitions(known, files[..i])
      {
        var file := files[i];
        OneMoreFile(known, files, i);
        i := i + 1;
        if file.isDir || !HasSuffix(ToLower(file.name), ".json") {
          continue;
        }
        var identifier := TrimSuffix(ToLower(file.name), ".json");
        if identifier in activeIdentifiers {
          continue;
        }
        if identifier !in allNetworkDefs {
          continue;
        }
        activeNetworkDefs := activeNetworkDefs + [allNetworkDefs[identifier]];
        activeIdentifiers := activeIdentifiers + {identifier};
      }
      assert files[..i] == files;
    }

    /** The definitions the token directory activates, in the order of their files; none without a directory. */
    method GetAllNetworkDefinitions() returns (defs: seq<NetworkDefinition>)
      requires Valid()
      ensures listing.None? ==> defs == []
      ensures listing.Some? ==> ActivatedInOrder(allNetworkDefs, listing.value, defs)
      ensures listing.Some? ==> defs == ActiveDefinitions(allNetworkDefs, listing.value)
    {
      if listing.Some? {
        ActiveInOrder(allNetworkDefs, listing.value);
      }
      defs := activeNetworkDefs;
    }

    method GetNetworkDefinitionByName(identifier: string) returns (found: Option<NetworkDefinition>)
      ensures found.None? <==> forall d :: d in activeNetworkDefs ==> d.identifier != identifier
      ensures found.Some? ==> found.value in activeNetworkDefs && found.value.identifier == identifier
    {
      var i := 0;
      while i < |activeNetworkDefs|
        invariant 0 <= i <= |activeNetworkDefs|
        invariant forall j :: 0 <= j < i ==> activeNetworkDefs[j].identifier != identifier
      {
        if activeNetworkDefs[i].identifier == identifier {
          return Some(activeNetworkDefs[i]);
        }
        i := i + 1;
      }
      found := None;
    }
  }

  /** Active means: some token file's lower-case base name is the definition's key. */
  lemma {:induction false} ActiveIff(known: map<string, NetworkDefinition>, files: seq<DirEntry>, d: NetworkDefinition)
    requires forall id :: id in known ==> known[id].identifier == id
    ensures d in ActiveDefinitions(known, files)
       <==> d.identifier in ActiveIdentifiers(known, files) && known[d.identifier] == d
  {
    if files != [] {
      var before, file := files[..|files| - 1], files[|files| - 1];
      assert files == before + [file];
      ActiveIff(known, before, d);
    }
  }

  /** No definition is activated twice, so the active networks differ in every key the totals rely on. */
  lemma {:induction false} ActiveDefinitionsUnlike(defs: seq<NetworkDefinition>, files: seq<DirEntry>)
    requires PairwiseUnlike(defs)
    ensures PairwiseUnlike(ActiveDefinitions(ByIdentifier(defs), files))
  {
    var known := ByIdentifier(defs);
    ByIdentifierEntries(defs);
    if files != [] {
      var before, file := files[..|files| - 1], files[|files| - 1];
      ActiveDefinitionsUnlike(defs, before);
      var active := ActiveDefinitions(known, before);
      if Activates(known, file) && FileIdentifier(file) !in ActiveIdentifiers(known, before) {
        var d := known[FileIdentifier(file)];
        forall i | 0 <= i < |active|
          ensures Unlike(active[i], d)
        {
          ActiveIff(known, before, active[i]);
          EntriesUnlike(defs, active[i], d);
        }
      }
    }
  }

  lemma EntriesUnlike(defs: seq<NetworkDefinition>, a: NetworkDefinition, b: NetworkDefinition)
    requires PairwiseUnlike(defs) && a in defs && b in defs && a.identifier != b.identifier
    ensures Unlike(a, b)
  {
    var i :| 0 <= i < |defs| && defs[i] == a;
    var j :| 0 <= j < |defs| && defs[j] == b;
    if i < j {
      assert Unlike(defs[i], defs[j]);
    } else {
      assert j < i && Unlike(defs[j], defs[i]);
    }
  }

  /** For every directory listing: the networks a run works on are pairwise unlike. */
  lemma ActiveNetworksUnlike(files: seq<DirEntry>)
    ensures PairwiseUnlike(ActiveDefinitions(ByIdentifier(KNOWN_DEFINITIONS), files))
  {
    KnownDefinitionsUnlike();
    var defs := KNOWN_DEFINITIONS;
    ActiveDefinitionsUnlike(defs, files);
  }

  // ---- Small directories --------------------------------------------------------

  /** The file's name, in lower case, is the identifier of a known network and .json. */
  predicate NamesNetwork(file: DirEntry, d: NetworkDefinition)
  {
    !file.isDir && ToLower(file.name) == d.identifier + ".json"
  }

  lemma NamedFile(file: DirEntry, d: NetworkDefinition)
    requires NamesNetwork(file, d)
    ensures IsTokenFile(file) && FileIdentifier(file) == d.identifier
  {
    var low := d.identifier + ".json";
    assert low[|low| - |".json"|..] == ".json" && low[..|low| - |".json"|] == d.identifier;
  }

  lemma NamedFileActivates(file: DirEntry, d: NetworkDefinition)
    requires d in KNOWN_DEFINITIONS && NamesNetwork(file, d)
    ensures Activates(ByIdentifier(KNOWN_DEFINITIONS), file) && FileIdentifier(file) == d.identifier
    ensures ByIdentifier(KNOWN_DEFINITIONS)[d.identifier] == d
  {
    NamedFile(file, d);
    KnownDefinitionsUnlike();
    hide KNOWN_DEFINITIONS, ByIdentifier, IsTokenFile, PairwiseUnlike;
    ByIdentifierFinds(KNOWN_DEFINITIONS, d);
  }

  lemma NextActive(known: map<string, NetworkDefinition>, files: seq<DirEntry>, file: DirEntry)
    requires Activates(known, file) && forall f :: f in files ==> FileIdentifier(f) != FileIdentifier(file)
    ensures ActiveDefinitions(known, files + [file]) == ActiveDefinitions(known, files) + [known[FileIdentifier(file)]]
  {
    hide Activates, FileIdentifier;
    assert (files + [file])[..|files|] == files;
  }

  lemma OneFileActive(a: DirEntry, d: NetworkDefinition)
    requires d in KNOWN_DEFINITIONS && NamesNetwork(a, d)
    ensures ActiveDefinitions(ByIdentifier(KNOWN_DEFINITIONS), [a]) == [d]
  {
    NamedFileActivates(a, d);
    hide KNOWN_DEFINITIONS, ByIdentifier, NamesNetwork, Activates, FileIdentifier;
    NextActive(ByIdentifier(KNOWN_DEFINITIONS), [], a);
    assert [] + [a] == [a];
  }

  lemma TwoFilesActive(a: DirEntry, d: NetworkDefinition, b: DirEntry, e: NetworkDefinition)
    requires d in KNOWN_DEFINITIONS && NamesNetwork(a, d) && e in KNOWN_DEFINITIONS && NamesNetwork(b, e)
    requires d.identifier != e.identifier
    ensures ActiveDefinitions(ByIdentifier(KNOWN_DEFINITIONS), [a, b]) == [d, e]
  {
    OneFileActive(a, d);
    NamedFile(a, d);
    NamedFileActivates(b, e);
    hide *;
    NextActive(ByIdentifier(KNOWN_DEFINITIONS), [a], b);
    assert [a] + [b] == [a, b];
  }

  const ETHEREUM_FILE := DirEntry("ethereum.json", false)
  const ARBITRUM_FILE := DirEntry("arbitrum.json", false)

  lemma EthereumFile()
    ensures NamesNetwork(ETHEREUM_FILE, ETHEREUM) && ETHEREUM in KNOWN_DEFINITIONS
  {
    assert ToLower("ethereum.json") == "ethereum.json" == "ethereum" + ".json";
    assert KNOWN_DEFINITIONS[0] == ETHEREUM;
  }

  lemma ArbitrumFile()
    ensures NamesNetwork(ARBITRUM_FILE, ARBITRUM) && ARBITRUM in KNOWN_DEFINITIONS
  {
    assert ToLower("arbitrum.json") == "arbitrum.json" == "arbitrum" + ".json";
    assert KNOWN_DEFINITIONS[3] == ARBITRUM;
  }

  /** A directory with their two files activates Ethereum and Arbitrum. */
  lemma EthereumAndArbitrum()
    ensures ActiveDefinitions(ByIdentifier(KNOWN_DEFINITIONS), [ETHEREUM_FILE, ARBITRUM_FILE]) == [ETHEREUM, ARBITRUM]
  {
    assert ETHEREUM.identifier[0] != ARBITRUM.identifier[0];
    hide *;
    EthereumFile();
    ArbitrumFile();
    TwoFilesActive(ETHEREUM_FILE, ETHEREUM, ARBITRUM_FILE, ARBITRUM);
  }

  // ---- The request's filter --------------------------------------------------

  /** The definitions whose identifier is among the tracked names, ignoring case; all when none is named. */
  function Tracked(defs: seq<NetworkDefinition>, names: seq<string>): seq<NetworkDefinition>
  {
    if names == [] then defs else KeepTracked(defs, set name | name in names :: ToLower(name))
  }

  function KeepTracked(defs: seq<NetworkDefinition>, lower: set<string>): (kept: seq<NetworkDefinition>)
    ensures forall d :: d in kept ==> d in defs
  {
    if defs == [] then []
    else
      var before, last := KeepTracked(defs[..|defs| - 1], lower), defs[|defs| - 1];
      if ToLower(last.identifier) in lower then before + [last] else before
  }

  /** The call is about this network: no network is named, or it is, in whatever letter case. */
  ghost predicate Wanted(d: NetworkDefinition, names: seq<string>)
  {
    names == [] || exists j :: 0 <= j < |names| && EqualFold(names[j], d.identifier)
  }

  /** Exactly the wanted networks are selected, each once and in order. */
  ghost predicate SelectsWanted(defs: seq<NetworkDefinition>, names: seq<string>, selected: seq<NetworkDefinition>)
  {
    exists at :: Picks(defs, at, selected) && forall k: nat :: k in at <==> (k < |defs| && Wanted(defs[k], names))
  }

  predicate NamedAmong(d: NetworkDefinition, lower: set<string>)
  {
    ToLower(d.identifier) in lower
  }

  function TrackedPositions(defs: seq<NetworkDefinition>, lower: set<string>): seq<nat>
  {
    if defs == [] then []
    else
      var last := |defs| - 1;
      var before := TrackedPositions(defs[..last], lower);
      if NamedAmong(defs[last], lower) then before + [last] else before
  }

  lemma {:induction false} TrackedPositionsExact(defs: seq<NetworkDefinition>, lower: set<string>)
    ensures Increasing(TrackedPositions(defs, lower))
    ensures forall k: nat :: k in TrackedPositions(defs, lower) <==> (k < |defs| && NamedAmong(defs[k], lower))
  {
    hide NamedAmong;
    if defs != [] {
      var before := TrackedPositions(defs[..|defs| - 1], lower);
      TrackedPositionsExact(defs[..|defs| - 1], lower);
      forall i | 0 <= i < |before|
        ensures before[i] < |defs| - 1
      {
        var k: nat := before[i];
        assert k in before;
      }
    }
  }

  lemma {:induction false} KeptAtPositions(defs: seq<NetworkDefinition>, lower: set<string>)
    ensures var at, kept := TrackedPositions(defs, lower), KeepTracked(defs, lower);
      |kept| == |at| && forall i :: 0 <= i < |at| ==> at[i] < |defs| && kept[i] == defs[at[i]]
  {
    hide ToLower;
    if defs != [] {
      KeptAtPositions(defs[..|defs| - 1], lower);
    }
  }

  lemma TrackedAreWanted(defs: seq<NetworkDefinition>, names: seq<string>)
    ensures SelectsWanted(defs, names, Tracked(defs, names))
  {
    hide ToLower, Increasing, KeepTracked, TrackedPositions;
    if names == [] {
      UptoAll(|defs|);
      assert Picks(defs, Upto(|defs|), defs);
    } else {
      var lower := set name | name in names :: ToLower(name);
      TrackedPositionsExact(defs, lower);
      KeptAtPositions(defs, lower);
      forall k: nat | k < |defs|
        ensures NamedAmong(defs[k], lower) <==> Wanted(defs[k], names)
      {
        if j :| 0 <= j < |names| && EqualFold(names[j], defs[k].identifier) {
          assert names[j] in names;
        }
      }
      assert Picks(defs, TrackedPositions(defs, lower), Tracked(defs, names));
    }
  }

  /** None is selected exactly if none is wanted. */
  lemma NoneTracked(defs: seq<NetworkDefinition>, names: seq<string>)
    ensures Tracked(defs, names) == [] <==> forall d :: d in defs ==> !Wanted(d, names)
  {
    TrackedAreWanted(defs, names);
    var at :| Picks(defs, at, Tracked(defs, names))
              && forall k: nat :: k in at <==> (k < |defs| && Wanted(defs[k], names));
    hide Wanted, Tracked;
    if at != [] {
      assert at[0] in at;
    }
  }

  lemma {:induction false} KeepTrackedUnlike(defs: seq<NetworkDefinition>, lower: set<string>)
    requires PairwiseUnlike(defs)
    ensures PairwiseUnlike(KeepTracked(defs, lower))
  {
    if defs != [] {
      var before, last := defs[..|defs| - 1], defs[|defs| - 1];
      KeepTrackedUnlike(before, lower);
      forall d | d in KeepTracked(before, lower)
        ensures Unlike(d, last)
      {
        var i :| 0 <= i < |before| && before[i] == d;
        assert Unlike(defs[i], defs[|defs| - 1]);
      }
    }
  }

  lemma TrackedUnlike(defs: seq<NetworkDefinition>, names: seq<string>)
    requires PairwiseUnlike(defs)
    ensures PairwiseUnlike(Tracked(defs, names))
  {
    KeepTrackedUnlike(defs, set name | name in names :: ToLower(name));
  }
}
