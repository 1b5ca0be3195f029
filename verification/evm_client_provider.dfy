/** Clients for nodes, created on first use and kept by network name. */
module EvmClientProvider {
  import opened Wrappers
  import opened Entities

  /** A connected client: its connection's handle and the definition it was made for. */
  datatype EVMClient = EVMClient(connection: nat, netDef: NetworkDefinition)

  /** What dialling an endpoint yields at the time of a call: a connection, or None. */
  type Dialer = string -> Option<nat>

  function Endpoints(netDef: NetworkDefinition): seq<string>
  {
    [netDef.primaryRPCURL] + netDef.fallbackRPCURLs
  }

  /** The first endpoint that answers. */
  function FirstConnection(urls: seq<string>, dial: Dialer): Option<nat>
  {
    if urls == [] then None
    else if dial(urls[0]).Some? then dial(urls[0])
    else FirstConnection(urls[1..], dial)
  }

  /** The connection is to the primary endpoint, or if that does not answer to the first fallback that does. */
  ghost predicate ConnectsFirst(netDef: NetworkDefinition, dial: Dialer, connection: nat)
  {
    || dial(netDef.primaryRPCURL) == Some(connection)
    || (dial(netDef.primaryRPCURL).None?
        && exists i :: IsFirstAt(netDef.fallbackRPCURLs, dial, i)
                       && dial(netDef.fallbackRPCURLs[i]) == Some(connection))
  }

  predicate IsFirstAt(urls: seq<string>, dial: Dialer, i: int)
  {
    0 <= i < |urls| && dial(urls[i]).Some? && forall j :: 0 <= j < i ==> dial(urls[j]).None?
  }

  ghost predicate Reachable(netDef: NetworkDefinition, dial: Dialer)
  {
    dial(netDef.primaryRPCURL).Some? || exists url :: url in netDef.fallbackRPCURLs && dial(url).Some?
  }

  lemma {:induction false} FirstAnswers(urls: seq<string>, dial: Dialer, connection: nat)
    ensures FirstConnection(urls, dial) == Some(connection)
       <==> exists i :: IsFirstAt(urls, dial, i) && dial(urls[i]) == Some(connection)
  {
    if urls != [] && dial(urls[0]).None? {
      var rest := urls[1..];
      FirstAnswers(rest, dial, connection);
      if i :| IsFirstAt(rest, dial, i) && dial(rest[i]) == Some(connection) {
        assert urls[i + 1] == rest[i] && IsFirstAt(urls, dial, i + 1);
      }
      if i :| IsFirstAt(urls, dial, i) && dial(urls[i]) == Some(connection) {
        var k := i - 1;
        assert forall j :: 0 <= j < k ==> rest[j] == urls[j + 1];
        assert IsFirstAt(rest, dial, k) && rest[k] == urls[i];
      }
    } else if urls != [] {
      assert IsFirstAt(urls, dial, 0);
    }
  }

  /** A client's connection is the first of the primary and the fallback endpoints, in order, to answer. */
  lemma FirstOfEndpoints(netDef: NetworkDefinition, dial: Dialer, connection: nat)
    ensures FirstConnection(Endpoints(netDef), dial) == Some(connection) <==> ConnectsFirst(netDef, dial, connection)
    ensures FirstConnection(Endpoints(netDef), dial).Some? <==> Reachable(netDef, dial)
  {
    FirstAnswers(netDef.fallbackRPCURLs, dial, connection);
    FirstConnectionIff(Endpoints(netDef), dial);
    assert Endpoints(netDef)[1..] == netDef.fallbackRPCURLs;
  }

  method NewEVMClient(netDef: NetworkDefinition, dial: Dialer) returns (client: Result<EVMClient>)
    ensures client.Ok? <==> Reachable(netDef, dial)
    ensures client.Ok? ==> ConnectsFirst(netDef, dial, client.value.connection)
    ensures client.Ok? ==> Some(client.value.connection) == FirstConnection(Endpoints(netDef), dial)
    ensures client.Ok? ==> client.value.netDef == netDef
  {
    var rpcURLs := [netDef.primaryRPCURL] + netDef.fallbackRPCURLs;
    var i := 0;
    while i < |rpcURLs|
      invariant 0 <= i <= |rpcURLs|
      invariant forall j :: 0 <= j < i ==> dial(rpcURLs[j]).None?
      invariant FirstConnection(rpcURLs, dial) == FirstConnection(rpcURLs[i..], dial)
    {
      var connection := dial(rpcURLs[i]);
      if connection.Some? {
        FirstOfEndpoints(netDef, dial, connection.value);
        return Ok(EVMClient(connection.value, netDef));
      }
      i := i + 1;
    }
    FirstOfEndpoints(netDef, dial, 0);
    client := Err("all RPC connection attempts failed for network " + netDef.name);
  }

  lemma {:induction false} FirstConnectionIff(urls: seq<string>, dial: Dialer)
    ensures FirstConnection(urls, dial).Some? <==> exists url :: url in urls && dial(url).Some?
  {
    if urls != [] {
      FirstConnectionIff(urls[1..], dial);
      assert urls == [urls[0]] + urls[1..];
    }
  }

  datatype Call = Call(netDef: NetworkDefinition, dial: Dialer)

  type Clients = map<string, EVMClient>

  /** What a call returns, given the clients kept so far. */
  function Answer(clients: Clients, call: Call): Option<EVMClient>
  {
    if call.netDef.name in clients then Some(clients[call.netDef.name])
    else match FirstConnection(Endpoints(call.netDef), call.dial)
      case None => None
      case Some(connection) => Some(EVMClient(connection, call.netDef))
  }

  /** The clients kept after a call. */
  function Keep(clients: Clients, call: Call): Clients
  {
    if Answer(clients, call).Some? then clients[call.netDef.name := Answer(clients, call).value] else clients
  }

  class ClientProvider {
    var clients: Clients

    constructor ()
      ensures clients == map[]
    {
      clients := map[];
    }

    /** The mutex is held throughout, so a call is one step. */
    method GetClient(netDef: NetworkDefinition, dial: Dialer) returns (client: Result<EVMClient>)
      modifies this
      ensures clients == Keep(old(clients), Call(netDef, dial))
      ensures (if client.Ok? then Some(client.value) else None) == Answer(old(clients), Call(netDef, dial))
      ensures netDef.name in old(clients) ==>
        client == Ok(old(clients)[netDef.name]) && clients == old(clients)
      ensures netDef.name !in old(clients) ==> (client.Ok? <==> Reachable(netDef, dial))
      ensures netDef.name !in old(clients) && client.Ok? ==>
        && client.value.netDef == netDef && ConnectsFirst(netDef, dial, client.value.connection)
        && clients == old(clients)[netDef.name := client.value]
      ensures client.Err? ==> clients == old(clients)
    {
      FirstOfEndpoints(netDef, dial, 0);
      if netDef.name in clients {
        assert clients == clients[netDef.name := clients[netDef.name]];
        return Ok(clients[netDef.name]);
      }
      var newClient := NewEVMClient(netDef, dial);
      if newClient.Err? {
        return Err("failed to create EVM client for " + netDef.name + ": " + newClient.message);
      }
      clients := clients[netDef.name := newClient.value];
      client := newClient;
    }
  }

  // ---- Histories: the order in which calls take the mutex --------------------

  function After(clients: Clients, calls: seq<Call>): Clients
  {
    if calls == [] then clients else Keep(After(clients, calls[..|calls| - 1]), calls[|calls| - 1])
  }

  function AnswerAt(calls: seq<Call>, i: nat): Option<EVMClient>
    requires i < |calls|
  {
    Answer(After(map[], calls[..i]), calls[i])
  }

  /** Call i dials and keeps a new client. */
  predicate Creates(calls: seq<Call>, i: nat)
    requires i < |calls|
  {
    calls[i].netDef.name !in After(map[], calls[..i]) && AnswerAt(calls, i).Some?
  }

  /** What is kept is never replaced or dropped. */
  lemma {:induction false} KeptForever(calls: seq<Call>, i: nat, j: nat, name: string)
    requires i <= j <= |calls| && name in After(map[], calls[..i])
    ensures name in After(map[], calls[..j]) && After(map[], calls[..j])[name] == After(map[], calls[..i])[name]
    decreases j - i
  {
    if i < j {
      KeptForever(calls, i, j - 1, name);
      assert calls[..j][..j - 1] == calls[..j - 1];
    }
  }

  /** A call that creates a client connects it to the first of its endpoints to answer. */
  lemma CreatedFirst(calls: seq<Call>, i: nat)
    requires i < |calls| && Creates(calls, i)
    ensures var client := AnswerAt(calls, i).value;
      client.netDef == calls[i].netDef && ConnectsFirst(calls[i].netDef, calls[i].dial, client.connection)
  {
    FirstOfEndpoints(calls[i].netDef, calls[i].dial, AnswerAt(calls, i).value.connection);
  }

  lemma AnswerIsKept(calls: seq<Call>, i: nat)
    requires i < |calls| && AnswerAt(calls, i).Some?
    ensures var kept := After(map[], calls[..i + 1]);
      calls[i].netDef.name in kept && kept[calls[i].netDef.name] == AnswerAt(calls, i).value
  {
    assert calls[..i + 1][..i] == calls[..i];
  }

  /** Every successful call for a name returns the same client, and only the first of them creates one. */
  lemma SameClientForName(calls: seq<Call>, i: nat, j: nat)
    requires i < j < |calls| && calls[i].netDef.name == calls[j].netDef.name && AnswerAt(calls, i).Some?
    ensures AnswerAt(calls, j) == AnswerAt(calls, i)
    ensures !Creates(calls, j)
  {
    AnswerIsKept(calls, i);
    KeptForever(calls, i + 1, j, calls[i].netDef.name);
  }

  /** A client carries the name it is kept under. */
  lemma {:induction false} KeptUnderOwnName(calls: seq<Call>)
    ensures forall name :: name in After(map[], calls) ==> After(map[], calls)[name].netDef.name == name
  {
    if calls != [] {
      KeptUnderOwnName(calls[..|calls| - 1]);
    }
  }

  lemma AnswerCarriesName(calls: seq<Call>, i: nat)
    requires i < |calls| && AnswerAt(calls, i).Some?
    ensures AnswerAt(calls, i).value.netDef.name == calls[i].netDef.name
  {
    KeptUnderOwnName(calls[..i]);
  }

  /** A failed call changes nothing, so a later call may still succeed. */
  lemma FailureChangesNothing(calls: seq<Call>, i: nat)
    requires i < |calls| && AnswerAt(calls, i).None?
    ensures After(map[], calls[..i + 1]) == After(map[], calls[..i])
    ensures calls[i].netDef.name !in After(map[], calls[..i])
    ensures !Reachable(calls[i].netDef, calls[i].dial)
  {
    assert calls[..i + 1][..i] == calls[..i];
    FirstOfEndpoints(calls[i].netDef, calls[i].dial, 0);
  }
}
