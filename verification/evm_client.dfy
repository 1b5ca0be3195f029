/** One batch of balance requests against a node, decoded into one result per request. */
module EvmClient {
  import opened Wrappers
  import opened Entities
  import opened BigIntUtils

  /** What the node's reply holds for one batch element. */
  datatype Reply =
    | Failed(message: string)
    | NativeReply(balance: Option<nat>)
    | CallReply(data: CallData)

  /** The bytes an eth_call returned, as the ABI decoder reads them. */
  datatype CallData =
    | NoBytes
    | NotUnpacked(message: string)
    | NoValues
    | NotInteger
    | Unpacked(balance: nat)

  /** The whole batch: refused, or answered element by element, by position. */
  datatype BatchReply =
    | Refused(message: string)
    | Answered(replies: nat -> Reply)

  datatype Problem =
    | UnknownKind
    | FetchFailed(message: string)
    | BadNativeResult
    | BadTokenResult
    | UnpackFailed(message: string)
    | UnpackEmpty
    | UnpackNotInteger
    | FormatFailed

  /** The error text of a result. */
  function Explain(request: BalanceRequestItem, problem: Problem): string
  {
    match problem
    case UnknownKind => "unknown balance request type for " + request.tokenSymbol
    case FetchFailed(why) => "failed to fetch " + request.tokenSymbol + " for " + request.tokenAddress
                             + " (wallet " + request.walletAddress + "): " + why
    case BadNativeResult =>
      "failed to decode native balance for " + request.tokenSymbol + ": unexpected type or nil result"
    case BadTokenResult =>
      "failed to decode token balance for " + request.tokenSymbol + ": unexpected type or nil result"
    case UnpackFailed(why) => "failed to unpack balanceOf result for " + request.tokenSymbol + ": " + why
    case UnpackEmpty => "balanceOf unpack returned no data for " + request.tokenSymbol
    case UnpackNotInteger => "failed to assert unpacked balanceOf result to *big.Int for " + request.tokenSymbol
    case FormatFailed => "failed to format balance for " + request.tokenSymbol
  }

  predicate KnownKind(request: BalanceRequestItem)
  {
    request.kind == NATIVE_BALANCE_REQUEST || request.kind == TOKEN_BALANCE_REQUEST
  }

  /** A result before its reply is looked at. */
  function Blank(request: BalanceRequestItem): BalanceResultItem
  {
    BalanceResultItem(request.id, request.walletAddress, request.tokenAddress, request.tokenSymbol,
                      request.tokenDecimals, request.kind == NATIVE_BALANCE_REQUEST, None, "",
                      if KnownKind(request) then None else Some(Explain(request, UnknownKind)))
  }

  datatype Decoding = Amount(balance: nat) | Trouble(problem: Problem)

  /** The balance a reply carries for a request, or what is wrong with it. */
  function Decode(request: BalanceRequestItem, reply: Reply): Decoding
  {
    if !KnownKind(request) then Trouble(UnknownKind)
    else match reply
      case Failed(why) => Trouble(FetchFailed(why))
      case NativeReply(balance) =>
        if request.kind == TOKEN_BALANCE_REQUEST then Trouble(BadTokenResult)
        else if balance.None? then Trouble(BadNativeResult)
        else Amount(balance.value)
      case CallReply(data) =>
        if request.kind == NATIVE_BALANCE_REQUEST then Trouble(BadNativeResult)
        else match data
          case NoBytes => Amount(0)
          case NotUnpacked(why) => Trouble(UnpackFailed(why))
          case NoValues => Trouble(UnpackEmpty)
          case NotInteger => Trouble(UnpackNotInteger)
          case Unpacked(balance) => Amount(balance)
  }

  /** The result a request and its reply determine. */
  function Decoded(request: BalanceRequestItem, reply: Reply): BalanceResultItem
  {
    match Decode(request, reply)
    case Trouble(problem) => Blank(request).(error := Some(Explain(request, problem)))
    case Amount(balance) => Blank(request).(balance := Some(balance),
                                        formattedBalance := FormatBigInt(Some(balance), request.tokenDecimals).text)
  }

  /** Either an error and no balance, or no error, a balance and its non-empty text. */
  ghost predicate Decided(r: BalanceResultItem)
  {
    || (r.error.Some? && r.balance.None?)
    || (r.error.None? && r.balance.Some? && r.formattedBalance != ""
        && r.formattedBalance == FormatBigInt(r.balance, r.decimals).text)
  }

  /** What a node's reply reports for a request: a native amount, an unpacked token amount, or no bytes for none. */
  predicate Reports(request: BalanceRequestItem, reply: Reply, amount: nat)
  {
    || (request.kind == NATIVE_BALANCE_REQUEST && reply == NativeReply(Some(amount)))
    || (request.kind == TOKEN_BALANCE_REQUEST && reply == CallReply(Unpacked(amount)))
    || (request.kind == TOKEN_BALANCE_REQUEST && reply == CallReply(NoBytes) && amount == 0)
  }

  /** A request of an unknown kind, a failed one, a reply of the other kind, or one that holds no amount. */
  predicate ReportsNothing(request: BalanceRequestItem, reply: Reply)
  {
    || !KnownKind(request)
    || reply.Failed?
    || (request.kind == NATIVE_BALANCE_REQUEST && (reply.CallReply? || reply == NativeReply(None)))
    || (request.kind == TOKEN_BALANCE_REQUEST
        && (reply.NativeReply? || (reply.CallReply? && !reply.data.NoBytes? && !reply.data.Unpacked?)))
  }

  /** Every reply reports one amount or nothing. */
  lemma ReportsOneOrNothing(request: BalanceRequestItem, reply: Reply)
    ensures ReportsNothing(request, reply) <==> forall amount: nat :: !Reports(request, reply, amount)
    ensures forall a: nat, b: nat :: Reports(request, reply, a) && Reports(request, reply, b) ==> a == b
  {
    if !ReportsNothing(request, reply) {
      var amount := match reply
        case NativeReply(Some(balance)) => balance
        case CallReply(Unpacked(balance)) => balance
        case _ => 0;
      assert Reports(request, reply, amount);
    }
  }

  /** The result holds the amount reported and its text, or an error if there is none. */
  ghost predicate IsAsReported(r: BalanceResultItem, request: BalanceRequestItem, reply: Reply)
  {
    && (forall amount: nat :: Reports(request, reply, amount) ==>
          && r.error.None? && r.balance == Some(amount)
          && r.formattedBalance == FormatBigInt(Some(amount), request.tokenDecimals).text)
    && (ReportsNothing(request, reply) ==> r.error.Some? && r.balance.None? && r.formattedBalance == "")
  }

  /** A result names the request it answers. */
  ghost predicate Answers(r: BalanceResultItem, request: BalanceRequestItem)
  {
    && r.requestID == request.id
    && r.walletAddress == request.walletAddress
    && r.tokenAddress == request.tokenAddress
    && r.tokenSymbol == request.tokenSymbol
    && r.decimals == request.tokenDecimals
    && (r.isNative <==> request.kind == NATIVE_BALANCE_REQUEST)
  }

  /** Decoding decides every result, for every request type and every reply. */
  lemma DecodedIsDecided(request: BalanceRequestItem, reply: Reply)
    ensures Decided(Decoded(request, reply)) && Answers(Decoded(request, reply), request)
    ensures IsAsReported(Decoded(request, reply), request, reply)
    ensures Decoded(request, reply).error.Some? <==> ReportsNothing(request, reply)
  {
    hide FormatBigInt, Explain;
    if Decode(request, reply).Amount? {
      FormatDenotes(Decode(request, reply).balance, request.tokenDecimals);
    }
  }

  /** The results of a batch that was answered, position by position. */
  function Results(requests: seq<BalanceRequestItem>, replies: nat -> Reply): (results: seq<BalanceResultItem>)
    ensures |results| == |requests|
    ensures forall i :: 0 <= i < |results| ==> results[i] == Decoded(requests[i], replies(i))
  {
    seq(|requests|, i requires 0 <= i < |requests| => Decoded(requests[i], replies(i)))
  }

  /** An answered batch is aligned with its requests, and every result is decided by its own reply. */
  lemma AnsweredBatch(requests: seq<BalanceRequestItem>, replies: nat -> Reply)
    ensures var outcome := Balances(requests, Answered(replies));
      && outcome.error.None? && |outcome.results| == |requests|
      && forall i :: 0 <= i < |requests| ==>
           && Answers(outcome.results[i], requests[i]) && Decided(outcome.results[i])
           && IsAsReported(outcome.results[i], requests[i], replies(i))
  {
    hide FormatBigInt, Explain, Decoded, Decided, Answers, IsAsReported;
    forall i | 0 <= i < |requests|
      ensures Answers(Decoded(requests[i], replies(i)), requests[i]) && Decided(Decoded(requests[i], replies(i)))
      ensures IsAsReported(Decoded(requests[i], replies(i)), requests[i], replies(i))
    {
      DecodedIsDecided(requests[i], replies(i));
    }
  }

  datatype BatchOutcome = BatchOutcome(results: seq<BalanceResultItem>, error: Option<string>)

  /** The whole call on values: what the portfolio service gets back. */
  function Balances(requests: seq<BalanceRequestItem>, reply: BatchReply): BatchOutcome
  {
    if requests == [] then BatchOutcome([], None)
    else match reply
      case Refused(why) =>
        BatchOutcome(seq(|requests|, i requires 0 <= i < |requests| => Blank(requests[i])),
                     Some("RPC batch call failed: " + why))
      case Answered(replies) => BatchOutcome(Results(requests, replies), None)
  }

  /** The source's two passes over the batch: fill results by index, then rewrite them by index. */
  method GetBalances(requests: seq<BalanceRequestItem>, reply: BatchReply) returns (outcome: BatchOutcome)
    ensures outcome == Balances(requests, reply)
    ensures reply.Answered? ==> outcome.error.None? && |outcome.results| == |requests|
    ensures reply.Answered? ==> forall i :: 0 <= i < |requests| ==>
      Answers(outcome.results[i], requests[i]) && IsAsReported(outcome.results[i], requests[i], reply.replies(i))
    ensures reply.Refused? && requests != [] ==> outcome.error.Some?
  {
    if reply.Answered? {
      AnsweredBatch(requests, reply.replies);
    }
    hide Answers, IsAsReported, FormatBigInt, Explain;
    if |requests| == 0 {
      return BatchOutcome([], None);
    }
    var results := FillResults(requests);
    if reply.Refused? {
      assert results[..] == Balances(requests, reply).results;
      return BatchOutcome(results[..], Some("RPC batch call failed: " + reply.message));
    }
    DecodeResults(requests, reply.replies, results);
    assert results[..] == Results(requests, reply.replies);
    outcome := BatchOutcome(results[..], None);
  }

  method FillResults(requests: seq<BalanceRequestItem>) returns (results: array<BalanceResultItem>)
    ensures fresh(results) && results.Length == |requests|
    ensures forall j :: 0 <= j < |requests| ==> results[j] == Blank(requests[j])
  {
    hide Explain;
    results := new BalanceResultItem[|requests|](i => BalanceResultItem("", "", "", "", 0, false, None, "", None));
    for i := 0 to |requests|
      invariant forall j :: 0 <= j < i ==> results[j] == Blank(requests[j])
    {
      var request := requests[i];
      results[i] := BalanceResultItem(request.id, request.walletAddress, request.tokenAddress, request.tokenSymbol,
                                      request.tokenDecimals, request.kind == NATIVE_BALANCE_REQUEST, None, "", None);
      if !KnownKind(request) {
        results[i] := results[i].(error := Some(Explain(request, UnknownKind)));
      }
    }
  }

  method DecodeResults(requests: seq<BalanceRequestItem>, replies: nat -> Reply, results: array<BalanceResultItem>)
    requires results.Length == |requests|
    requires forall j :: 0 <= j < |requests| ==> results[j] == Blank(requests[j])
    modifies results
    ensures forall j :: 0 <= j < |requests| ==> results[j] == Decoded(requests[j], replies(j))
    ensures forall j :: 0 <= j < |requests| ==> IsAsReported(results[j], requests[j], replies(j))
  {
    hide Explain, FormatBigInt, IsAsReported;
    var i := 0;
    while i < |requests|
      invariant 0 <= i <= |requests|
      invariant forall j :: 0 <= j < i ==> results[j] == Decoded(requests[j], replies(j))
      invariant forall j :: i <= j < |requests| ==> results[j] == Blank(requests[j])
    {
      var r := DecodeOne(requests[i], replies(i), results[i]);
      results[i] := r;
      i := i + 1;
    }
    forall j | 0 <= j < |requests|
      ensures IsAsReported(results[j], requests[j], replies(j))
    {
      DecodedIsDecided(requests[j], replies(j));
    }
  }

  /** The second pass at one index. */
  method DecodeOne(request: BalanceRequestItem, elem: Reply, before: BalanceResultItem)
    returns (result: BalanceResultItem)
    requires before == Blank(request)
    ensures result == Decoded(request, elem)
  {
    hide Explain, FormatBigInt;
    result := before;
    if result.error.Some? {
      return;
    }
    if elem.Failed? {
      return result.(error := Some(Explain(request, FetchFailed(elem.message))));
    }
    if request.kind == NATIVE_BALANCE_REQUEST {
      if elem.NativeReply? && elem.balance.Some? {
        result := result.(balance := elem.balance);
      } else {
        result := result.(error := Some(Explain(request, BadNativeResult)));
      }
    } else if request.kind == TOKEN_BALANCE_REQUEST {
      if elem.CallReply? {
        if elem.data.NoBytes? {
          result := result.(balance := Some(0));
        } else {
          match elem.data {
            case NotUnpacked(why) => return result.(error := Some(Explain(request, UnpackFailed(why))));
            case NoValues => return result.(error := Some(Explain(request, UnpackEmpty)));
            case NotInteger => return result.(error := Some(Explain(request, UnpackNotInteger)));
            case Unpacked(balance) => result := result.(balance := Some(balance));
          }
        }
      } else {
        result := result.(error := Some(Explain(request, BadTokenResult)));
      }
    }
    if result.error.None? && result.balance.Some? {
      FormatDenotes(result.balance.value, result.decimals);
      var formatted := FormatBigInt(result.balance, result.decimals);
      if formatted.error.Some? {
        result := result.(error := Some(Explain(request, FormatFailed)));
      } else {
        result := result.(formattedBalance := formatted.text);
      }
    } else if result.error.None? && result.balance.None? {
      // The source writes a zero balance here; no reply leads to this branch.
      assert false;
    }
  }
}
