# Balance checker: a verified model

A Dafny model of the balance checker, a service that fetches the token balances of
wallets on EVM networks, prices them and adds them up. The model covers the path from
the token directory to the grand total of a response, and proves what that path keeps
under every interleaving of its goroutines.

| file | models |
|---|---|
| `entities.dfy`, `wrappers.dfy`, `strings.dfy`, `powers.dfy`, `sums.dfy` | records, text, powers of two and ten, sums over sequences, maps and bags |
| `binary_float.dfy`, `bigint_utils.dfy` | rounding to p bits, `FormatBigInt`, `CalculateValueUSD` |
| `network_definitions.dfy`, `token_loader.dfy` | the table of networks, its activation by token files, and token grouping |
| `evm_client_provider.dfy`, `evm_client.dfy`, `network_balances.dfy` | client memoisation, batch calls, and the split of their results |
| `token_prices.dfy`, `price_load.dfy`, `price_load_keys.dfy`, `price_load_outcomes.dfy`, `service_load.dfy`, `pricing.dfy` | pair selection, batching, the concurrent load of the price cache, when its schedule matters and what it can then leave, what the service loads, and the prices and values balances get from it |
| `portfolio_run.dfy` | the concurrent run as a transition system |
| `wallet_control.dfy`, `run_control.dfy` | semaphore, mutex, deadlock freedom, termination |
| `wallet_books.dfy`, `run_books.dfy`, `run_conservation.dfy`, `run_refinement.dfy` | what portfolios and errors hold, conservation of value, agreement with the sequential computation |
| `global_price.dfy`, `price_coherence.dfy`, `price_divergence.dfy` | the native price cache shared by all wallets: where its price comes from, and exactly when all wallets see one |
| `run_steps.dfy`, `service_answers.dfy` | building runs step by step, and node replies to build them from |
| `mutex_order.dfy`, `serial_outcomes.dfy` | one wallet: serializability by the order of its mutex, and exactly what it can return |
| `run_determinism.dfy` | exactly when the results of calls depend on their schedule |
| `portfolio_service.dfy`, `failed_wallets.dfy` | set-up of a call, the record of failed wallets |
| `shown_balances.dfy` | what a finished call shows, from files, replies and the price cache alone |

`dafny verify dfyconfig.toml` checks all of it.

## How the run is modelled

A `Request` is one call: its wallets, its networks, the semaphore's limit, and what it
will be answered, as functions of wallet and network. A `System` is any number of
requests with the state they share, the global native prices and the failed wallets.
Requests in a system may overlap or follow each other. One event is one of these steps:
launching a wallet's goroutine; taking a slot; spawning a worker; obtaining the client;
obtaining the balances; locking the wallet's mutex; reading the shared price for one
balance; pricing that balance, with the TrySet if there is one; merging and unlocking;
releasing the slot; the two `wg.Done` calls; sending the result; marking the failure;
appending the errors; collecting the results. Reading and setting the shared price are
separate steps, as they are separate critical sections. `Run` applies a sequence of
events, each of which must be enabled in its turn, so a statement about all sequences is
a statement about all schedules.

The sequential code is modelled in its own form: selection, batching, batch decoding,
loaders, the provider, the caches and the failed-wallet map are methods with loops,
arrays and class fields, each proved to compute a specification function about which the
lemmas speak.

## What the proofs found

- `FormatBigInt` is not exact. It divides at a precision equal to the larger of 64 and
  the bit lengths of its operands, so an amount that needs all of that precision can lose
  its last digit. `FormatExactIff` gives the exact condition, `FormatNotAlwaysExact` an
  amount, and `FormatWithinOneUnit` shows that it is never worse than one unit.
- `CalculateValueUSD` looks for infinity before it applies the price, so it can return an
  infinite value without an error. `ValueInfiniteIff` says exactly when, and `InfiniteValue`
  gives an amount and a price.
- A negative batch limit is not replaced by the configuration loader. The price loader
  then falls back to batches of 30, and the HTTP client refuses every one of them.
- The network provider lower-cases file names and the token loader does not. A token file
  with upper-case letters in its base name activates its network but contributes no tokens;
  `UpperCaseFileIsNotRead` has `Ethereum.json`.
- The global native price need not be one price in a first run. Get and TrySet are separate
  critical sections, so two wallets of one request with two slots, or of two requests, can
  both find the cache empty and each publish its own network's price. `OnePriceIff`, and for
  the calls and replies of the service itself `ServiceOnePriceIff`, say exactly when: some
  two workers that can be under way together have different wrapped token prices. One wallet
  alone, or one slot, is safe.
- The results of a call from an empty price cache can depend on its schedule even where
  they show one price: which price that is depends on who publishes first.
  `DeterministicIff` and `ServiceDeterministicIff` say exactly when, `OneWalletTwoResults`
  gives a wallet, and `OutcomesIff` lists all that one wallet can return.
- The price cache depends on the schedule of its load exactly if the load has more than one
  slot and some network lists an address in two of its batches (`ServiceLoadConfluence`). The
  entry then ends as the last find of any one of these batches (`EntryOutcomes`).

## Model

| member | source | states |
|---|---|---|
| RunControl.RunIsSafe | internal/app/service/portfolio_service.go:106-134 | In every reachable state of any requests, under every interleaving: the slots taken are exactly those the goroutines hold and never exceed the limit, no two workers of a wallet are both under its mutex, a wallet ready to send finds room in the results channel, and a returned request holds no slot and has one result per wallet |
| RunControl.ControlKeptByRequest | internal/app/service/portfolio_service.go:113-131 | Every step of every goroutine keeps the control state consistent and the counts of slots and of results equal to what the goroutines hold and have sent |
| RunControl.NeverBlocked | internal/app/service/portfolio_service.go:169-174 | Among the steps whose wallet is ready, which includes a free mutex for locking and finished workers for joining, only taking a slot can still wait: a send finds room, and a release finds the slot it gives back |
| RunControl.NeverStuck | internal/app/service/portfolio_service.go:106-134 | Deadlock freedom: as long as a request with a positive limit has not returned, some step of its own is enabled |
| RunControl.SystemNeverStuck | internal/app/service/portfolio_service.go:106-134 | The same inside any system of requests: the step does not depend on what the others do |
| RunControl.MeasureDrops | internal/app/service/portfolio_service.go:113-139 | An explicit measure drops on every step of a request |
| RunControl.RunInControl | internal/app/service/portfolio_service.go:106-143 | Every reachable state is consistent, and no run has more steps than the measure of its first state |
| RunControl.MaximalRunsReturn | internal/app/service/portfolio_service.go:133-143 | No run is longer than that measure, and a run that cannot be continued has returned from every request |
| RunControl.NothingLeftHeld | internal/app/service/portfolio_service.go:133-139 | When a request returns, no slot is held and every wallet has sent its result |
| WalletControl.MutualExclusion | internal/app/service/portfolio_service.go:165-189 | Two workers of one wallet never stand between lock and unlock at once |
| WalletControl.HoldingAfter | internal/app/service/portfolio_service.go:170-174 | Only acquiring adds a held slot and only the deferred release removes one; spawning passes the slot to the worker |
| WalletControl.WorkKeepsControl | internal/app/service/portfolio_service.go:172-303 | A worker step keeps the mutex owner, the spawning loop and the workers of a wallet consistent |
| WalletControl.WalletMeasureDrops | internal/app/service/portfolio_service.go:169-310 | Every step of a wallet, its own or a worker's, lowers the wallet's measure |
| WalletControl.WorkerMoves | internal/app/service/portfolio_service.go:172-303 | A worker that is under way can move, or else the one holding the mutex it waits for can |
| WalletControl.GoroutineMoves | internal/app/service/portfolio_service.go:116-130 | With no worker under way a started wallet has a next step until it is done |
| WalletBooks.BooksKept | internal/app/service/portfolio_service.go:189-302 | Every step keeps a wallet's books: priced balances in order, each subtotal the sum of its values, one entry per merged network and no other, the total the sum of the entries, errors neither lost nor doubled |
| WalletBooks.AddEntry | internal/app/service/portfolio_service.go:291-300 | Merging a network under its own name keeps the portfolio right, given that network names are distinct |
| WalletBooks.AddErrors | internal/app/service/portfolio_service.go:190-192 | Appending a network's errors adds exactly those errors to the wallet's |
| WalletBooks.WorkerBooksKept | internal/app/service/portfolio_service.go:207-289 | Pricing one more balance keeps the running subtotal equal to the sum of the values |
| RunBooks.RequestBooksKept | internal/app/service/portfolio_service.go:113-143 | Every step of a request keeps its results equal, as a multiset, to the portfolios of the wallets that have sent, and its errors to those of the wallets that have reported |
| RunBooks.SystemBooksKept | internal/app/service/portfolio_service.go:113-143 | The same for any number of requests, for every rule on prices that covers what can be read from the shared cache |
| RunBooks.ReturnedBooks | internal/app/service/portfolio_service.go:136-142 | A returned request returns each wallet's portfolio once and every wallet's errors |
| RunBooks.DoneIsComplete | internal/app/service/portfolio_service.go:306-310 | Once the workers have been waited for, every network has been merged and all its errors collected |
| RunConservation.ValueConserved | internal/app/service/portfolio_service.go:194-310 | In every run a wallet's total is the sum of its networks' totals and each of those the sum of its token values, at every moment; a returned request returns one such portfolio per wallet, complete, with every error once, and a grand total equal to the sum of all token values |
| RunConservation.WalletConserves | internal/app/service/portfolio_service.go:291-310 | A wallet's portfolio adds up in every reachable state, and after its last worker shows every fetched balance in order under its network's name and chain, and nothing else |
| RunConservation.RequestConserves | internal/app/service/portfolio_service.go:136-143 | What a returned request returns is a permutation of complete portfolios that add up, and exactly the errors of all wallets on all networks |
| RunConservation.GrandTotal | internal/infrastructure/restapi/portfolio_handlers.go:77-80 | The handler's loop computes the sum of the wallet totals |
| RunConservation.GrandTotalIsTokenTotal | internal/infrastructure/restapi/portfolio_handlers.go:77-80 | For portfolios that add up, that sum is the sum of all token values |
| PortfolioService.ServiceConservesValue | internal/app/service/portfolio_service.go:58-143 | Conservation without assumptions on names: for every directory listing, filter, client failure, node reply, price and interleaving |
| ShownBalances.ShownAsReported | internal/app/service/portfolio_service.go:58-311 | End to end, for any prepared calls, client outcomes, replies and interleaving: a finished call returns one portfolio for each wallet, with an entry for exactly the networks whose client connects and whose node reports a positive amount of one of their own assets; the entry shows exactly these assets, each with its listed address, symbol and decimals, the reported amount's text, the price the cache holds for it (for ether none or a sourced one) and its value at that price; and everything adds up |
| ShownBalances.FailedAsReported | internal/app/service/portfolio_service.go:176-192 | The errors of a network are one for a missing client, one for a refused batch, and otherwise one for each of its own assets for which nothing is reported, in order |
| RunRefinement.EveryScheduleRefines | internal/app/service/portfolio_service.go:106-142 | If the global price is settled (set when the run starts; or no wrapped token of a network that uses it has a price; or the cache is empty and all of them have one and the same), then under every interleaving the returned portfolios are a permutation of the sequential portfolios, and the returned errors are, as a multiset, exactly the sequential ones |
| RunDeterminism.DeterministicIff | internal/app/service/portfolio_service.go:106-142 | For given wallets, networks, positive limits and cached prices of any requests: whatever is answered, in any two runs every request that finishes in both returns the same portfolios and the same errors, as multisets, if and only if the global price is set at the start or no two networks that use it have different wrapped token prices, a missing one counting as different, except two networks of a request with one wallet and one slot |
| RunDeterminism.OneRequestDeterministicIff | internal/app/service/portfolio_service.go:41-43 | One request from an empty cache: if and only if it has no wallet, or one wallet and one slot, or one wrapped token price, or none, for all its globally priced networks |
| RunDeterminism.ServiceDeterministicIff | internal/app/service/portfolio_service.go:58-142 | The same for whatever calls the service prepares from token directories, over every client outcome and node reply, with amounts valued by CalculateValueUSD: both halves speak of balances the batch calls can return |
| RunDeterminism.OneWalletTwoResults | internal/app/service/portfolio_service.go:224-245 | A prepared call of one wallet on Ethereum and Arbitrum with two slots, wrapped ether a dollar dearer on Arbitrum: with one ether reported on each, every state shows one price, but two schedules return different portfolios |
| RunDeterminism.Completes | internal/app/service/portfolio_service.go:133-143 | From every consistent state a run can be continued until every request has returned |
| RunDeterminism.StaysShown | internal/app/service/portfolio_service.go:291-302 | A price shown by a merged network is never changed by later steps of any request |
| RunDeterminism.ReturnsDiffer | internal/app/service/portfolio_service.go:136-142 | Two finished runs in which one wallet shows different prices for a network that no other wallet of the request has a balance on return different multisets of portfolios |
| SerialOutcomes.OutcomesIff | internal/app/service/portfolio_service.go:146-311 | A request of one wallet that alone uses the global price, with any number of slots, can return a portfolio if and only if it is the sequential one over some order of its networks in which the i-th is less than i plus the slots, each network priced with the cache the one before has left |
| SerialOutcomes.OrderIsTaken | internal/app/service/portfolio_service.go:169-192 | For every such order there is a schedule in which the networks take the mutex in it and the request returns |
| MutexOrder.RunIsSerial | internal/app/service/portfolio_service.go:189-302 | Serializability: in every run such a request returns the sequential portfolio, and exactly the errors, over its networks in the order in which their workers took the wallet's mutex |
| MutexOrder.SeriesKept | internal/app/service/portfolio_service.go:189-302 | Every step of any request keeps the prices given so far, and the cached one, those of the sequential computation over that order, up to where the holder of the mutex is |
| MutexOrder.SlotsAndOrder | internal/app/service/portfolio_service.go:169-174 | A network whose worker is spawned is less than the slots held plus the networks that have had the mutex |
| MutexOrder.OneSlotOneResult | internal/app/service/portfolio_service.go:169-174 | With one slot the order is that of the list, so in any two runs every request that finishes in both returns the same portfolios and errors, whatever prices the networks have |
| RunRefinement.SeqBooks | internal/app/service/portfolio_service.go:169-310 | The sequential computation, one network after the other, satisfies the same books as the concurrent one |
| RunRefinement.BooksUnique | internal/app/service/portfolio_service.go:194-308 | Books under a rule that allows one price for each balance determine the portfolio: no two portfolios satisfy them |
| RunRefinement.WalletRefines | internal/app/service/portfolio_service.go:146-311 | A wallet that is done has exactly its sequential portfolio and, as a multiset, its sequential errors |
| RunRefinement.SettledPublication | internal/app/service/portfolio_service.go:224-245 | With a settled global price whatever any request publishes is that price, and nothing is published if the cache held it from the start |
| RunRefinement.InStepKept | internal/app/service/portfolio_service.go:207-289 | With a settled global price every step of every request keeps every price given so far the sequential one |
| PortfolioService.ServiceRefines | internal/app/service/portfolio_service.go:58-143 | Schedule independence for the requests the service itself builds |
| GlobalPrice.GlobalPriceProvenance | internal/app/service/token_price_service.go:76-86 | In every reachable state the cached global price is positive and is the initial one or a cached price of the wrapped token of some network with that symbol; so is every non-zero price shown for such a balance |
| GlobalPrice.GlobalPriceFrozen | internal/app/service/portfolio_service.go:224-245 | From any state where the price is set and no worker has an unpublished quote, no later step of any request changes it |
| PriceCoherence.NoRivalsOnePrice | internal/app/service/portfolio_service.go:189-302 | If the global price is set, or no two workers that can be under way together have different prices to publish, then in every reachable state of any requests all non-zero prices shown for globally priced native balances, of all wallets on all networks, are the cached one |
| PriceCoherence.SingleRequestRivals | internal/app/service/portfolio_service.go:41-43 | A single request has no such workers if and only if it has at most one wallet, or at most one slot, or one price for all wrapped tokens of its globally priced networks |
| PriceCoherence.CriticalOverlap | internal/app/service/portfolio_service.go:169-189 | Two workers under their mutexes at the same time belong to different requests, each with a wallet and a slot, or to two wallets of one request with two slots |
| GlobalPrice.CurrentAfter | internal/app/service/portfolio_service.go:243-245 | Only a TrySet changes the cached price, and it stores its own positive quote |
| PriceCoherence.FirstPublication | internal/app/service/portfolio_service.go:243-245 | When the first price is published, every price given so far is compatible with it, and every worker that has read an empty cache could publish only that price |
| PriceCoherence.CoherentKept | internal/app/service/portfolio_service.go:224-245 | Every step of every request keeps the prices given so far equal to the cached one or zero |
| GlobalPrice.ShownPriceAllowed | internal/app/service/portfolio_service.go:285-287 | A price shown in a portfolio is one the pricing rule allowed for that very balance |
| PriceDivergence.OnePriceIff | internal/app/service/portfolio_service.go:224-245 | For given wallets, networks, limits and cached prices of any requests: every state of every run, whatever is answered and whatever the schedule, shows one global price if and only if it is set at the start or no two workers that can overlap have different prices to publish |
| PriceDivergence.ServiceOnePriceIff | internal/app/service/portfolio_service.go:58-142 | The same for whatever calls the service prepares from token directories, over every client outcome and node reply, with amounts valued by CalculateValueUSD: both halves speak of balances the batch calls can return |
| PriceDivergence.OneRequestOnePriceIff | internal/app/service/portfolio_service.go:106-130 | For one request from an empty cache: one price if and only if it has at most one wallet, or at most one slot, or one price for all wrapped tokens of its globally priced networks |
| PriceDivergence.RivalsDiffer | internal/app/service/portfolio_service.go:224-245 | Two workers that can overlap, each the first of its wallet with a balance and that one native, on networks whose wrapped tokens have prices p and q, have a run that shows one wallet p and the other q |
| PriceDivergence.TwoChainsTwoPrices | internal/infrastructure/network/definition/providers.go:21-69 | A prepared call of two wallets with two slots on Ethereum and Arbitrum, wrapped ether a dollar apart: with one ether reported for each wallet there is a schedule that shows two prices of ether |
| ServiceAnswers.NativeFetched | internal/app/service/portfolio_service.go:324-398 | A node that reports a native amount and no bytes for any token yields no error and one native balance of that amount, or none if it is zero, whatever tokens are asked for |
| PriceDivergence.SameSourcesSamePrice | internal/app/service/portfolio_service.go:224-245 | Where all such wrapped tokens have one price, every wallet of every run is shown that price or none |
| Pricing.QuotedAsLoaded | internal/app/service/portfolio_service.go:232-267 | A balance of a listed token is given the very price the loader found for it, and a native balance the price found for the wrapped token when the shared cache has none, which is then published if the symbol is shared |
| Pricing.TokenPriceIff | internal/app/service/portfolio_service.go:256-267 | A token's price is p > 0 if and only if its network has a DEXScreener ID and the cache holds p for its address in any case; otherwise it is zero; it is never published |
| Pricing.NativePriceIff | internal/app/service/portfolio_service.go:213-254 | A balance with no or the zero address on a network whose symbol is ETH in any case has a non-zero price read from the shared cache; otherwise its price is p > 0 if and only if the cache holds p for the network's wrapped token, else zero, and that price is published exactly where the symbol is ETH |
| Pricing.ShownAsPriced | internal/app/service/portfolio_service.go:270-288 | A balance is shown with its own address, symbol, decimals and text, the price, and the value CalculateValueUSD computes at a positive price; zero without a positive price or where that fails |
| Pricing.UnfoundIsWorthless | internal/app/service/token_price_service.go:169-207 | A token for whose address no batch finds a price, and none was cached, has price and value zero after every finished load, whatever its schedule |
| Pricing.ShownValueClose | internal/app/service/portfolio_service.go:270-288 | Every priced balance of at most 256 bits is shown with a value, and if its product with the price is a normal number it is positive and within relative error 2^-53 + 2^-64 + 2^-117 of the quotient, and 2^-53 of the product, of amount / 10^decimals times the price; below the normal numbers the last rounding adds at most 2^-1075 |
| FailedWallets.FailedExactly | internal/app/service/portfolio_service.go:121-129 | After any runs, overlapping or not, the failed wallets are among the earlier ones and those with an erring network; when all requests have returned they are exactly these |
| FailedWallets.FailedGrows | internal/app/service/portfolio_service.go:121-124 | From any state, no run removes a failed wallet |
| FailedWallets.ErrorsIffFailing | internal/app/service/portfolio_service.go:121-129 | A finished wallet has errors if and only if one of its networks yields one, whatever the schedule |
| PortfolioService.PortfolioService.constructor | internal/app/service/portfolio_service.go:31-55 | The semaphore has the configured number of slots, and exactly one for every number that is not positive; no wallet has failed |
| PortfolioService.PortfolioService.MarkFailed | internal/app/service/portfolio_service.go:122-124 | Marking adds exactly that wallet to the failed ones |
| PortfolioService.PortfolioService.GetFailedWallets | internal/app/service/portfolio_service.go:402-412 | The list holds exactly the failed wallets, each once |
| PortfolioService.PortfolioService.SelectNetworks | internal/app/service/portfolio_service.go:73-91 | The result picks, at increasing positions, exactly the networks whose identifier equals some given name ignoring case, and all of them when none is given |
| PortfolioService.PortfolioService.Prepare | internal/app/service/portfolio_service.go:62-104 | A call stops with one error without wallets or without a token directory; it has nothing to do if and only if there is no provider or no definition is asked for; every other runs on all wallets, exactly the definitions asked for in their order, and the loader's grouping |
| PortfolioService.PreparedRequest | internal/app/service/portfolio_service.go:100-187 | What a prepared call runs on: its wallets, limit, clients and prices, networks of the token directory, and for every wallet and network the balances of exactly the tokens in that network's own files |
| PortfolioService.DirectoryNames | internal/infrastructure/network/definition/providers.go:264-324 | Every request built from a token directory has pairwise distinct network names |
| PortfolioRun.OutcomeOfClient | internal/app/service/portfolio_service.go:176-187 | Without a client a network yields no balance and one error that names wallet, network and cause; with one, what is fetched |
| BinaryFloat.RoundNearest | internal/pkg/utils/bigint_utils.go:16-20 | Rounding to p bits is to nearest with ties to even (section 4.3.1 of IEEE 754-2008): no p-bit number of any binade is nearer, and at a tie the last bit is 0 |
| BinaryFloat.RoundExact | internal/pkg/utils/bigint_utils.go:16-18 | Conversion of a number that fits the precision is exact |
| BinaryFloat.RoundError | internal/pkg/utils/bigint_utils.go:20 | One rounding to p bits has relative error at most 2^-p |
| BinaryFloat.RoundMonotone | internal/pkg/utils/bigint_utils.go:20 | Rounding keeps order |
| BinaryFloat.OverflowIff | internal/pkg/utils/bigint_utils.go:66-70 | A magnitude converts to infinity exactly from 2^1024 - 2^970 on |
| BigIntUtils.FormatDenotes | internal/pkg/utils/bigint_utils.go:22-43 | For every amount and decimals the error return is not taken and the trimmed text is a non-empty decimal that parses to exactly the printed units |
| BigIntUtils.TrimmedFixedText | internal/pkg/utils/bigint_utils.go:28-31 | The two trims leave the whole part, or the whole part and the fraction without trailing zeros |
| BigIntUtils.FormatExactIff | internal/pkg/utils/bigint_utils.go:16-31 | The text denotes amount / 10^decimals if and only if the amount lies on the grid of its precision; the condition is computable from amount and decimals |
| BigIntUtils.FormatRoundTrip | internal/pkg/utils/bigint_utils.go:16-31 | Parsing gives back the amount whenever decimals is 0 or the amount leaves one bit of precision to spare |
| BigIntUtils.FormatInjective | internal/pkg/utils/bigint_utils.go:16-31 | Among amounts printed exactly, the text determines the amount |
| BigIntUtils.FormatWithinOneUnit | internal/pkg/utils/bigint_utils.go:20-31 | For every amount the text is within one unit of the last decimal place |
| BigIntUtils.FormatNotAlwaysExact | internal/pkg/utils/bigint_utils.go:20-31 | The amount 11529215046068469763 with one decimal is printed wrongly |
| BigIntUtils.PrintedMonotone | internal/pkg/utils/bigint_utils.go:20-26 | The printed numbers keep the order of the amounts, although the precision varies with the amount |
| BigIntUtils.ValueErrorIff | internal/pkg/utils/bigint_utils.go:47-70 | An error is returned if and only if the amount is nil, or the price is not zero and the amount is at least (2^1024 - 2^970) * 10^decimals |
| BigIntUtils.ValueInfiniteIff | internal/pkg/utils/bigint_utils.go:66-73 | The returned value is infinite, without an error, if and only if the token value is finite, price and amount are not zero, and the product of token value and price is at least 2^1024 - 2^970 in magnitude |
| BigIntUtils.InfiniteValue | internal/pkg/utils/bigint_utils.go:66-73 | 2^255 units of a token without decimals, at a price of 2^800, are such a case |
| BinaryFloat.FloatClose | internal/pkg/utils/bigint_utils.go:66-72 | A finite float64 is within 2^-53, relatively, of a normal number it rounds, and within 2^-1075 of any other |
| BigIntUtils.NoErrorBelow256Bits | internal/pkg/utils/bigint_utils.go:68-70 | No amount below 2^256 is refused |
| BigIntUtils.TokenValueClose | internal/pkg/utils/bigint_utils.go:56-66 | For decimals of one byte the float64 token value is normal and within relative error 2^-53 + 2^-64 + 2^-117 |
| BigIntUtils.QuotientIsNormal | internal/pkg/utils/bigint_utils.go:64 | For decimals of one byte the quotient is above the subnormal range |
| BigIntUtils.ValueMonotone | internal/pkg/utils/bigint_utils.go:64-73 | For a positive price, a larger amount is never worth less and never accepted where a smaller one is refused |
| EvmClient.GetBalances | internal/infrastructure/network/client/evm_client.go:81-190 | For every request list and reply: one result per request, index by index, that names its request and holds the amount the reply reports for it with its text, or an error and no balance where the reply reports none; a refused batch gives an error and no results |
| EvmClient.DecodeResults | internal/infrastructure/network/client/evm_client.go:133-188 | The second pass rewrites every element: a native amount for a native request, an unpacked amount or zero for no bytes for a token request, and an error for everything else |
| EvmClient.AnsweredBatch | internal/infrastructure/network/client/evm_client.go:89-189 | An answered batch has one result per request, index by index, each with the amount and text reported for it, or an error and no balance where its reply reports none |
| EvmClient.DecodedIsDecided | internal/infrastructure/network/client/evm_client.go:133-187 | For every request kind and reply: a native amount is read for a native request, an unpacked amount or zero for no bytes for a token request, with its text; a failed request, an unknown or mismatched kind, a nil amount, and bytes that do not unpack to one integer give an error and no balance, and nothing else does |
| EvmClient.ReportsOneOrNothing | internal/infrastructure/network/client/evm_client.go:133-187 | Every reply reports exactly one amount for a request, or nothing for one of the listed reasons |
| NetworkBalances.BuildRequests | internal/app/service/portfolio_service.go:324-352 | The loop asks first for the native asset, by the network's symbol and its decimals, 18 where it states none, and then for each token on the network's chain by that token's own address, symbol and decimals |
| NetworkBalances.RequestsAskFor | internal/app/service/portfolio_service.go:324-352 | Exactly the tokens with the network's printed chain ID are asked for, in order, each by its own wallet, address, symbol and decimals, after one request for the native asset |
| NetworkBalances.FetchBalancesForNetwork | internal/app/service/portfolio_service.go:314-399 | The method returns the specified balances and errors |
| NetworkBalances.FailedRequests | internal/app/service/portfolio_service.go:369-378 | Over an answered batch the errors are those of exactly the requests for which the reply reports nothing, in request order, each with its network, wallet and token |
| NetworkBalances.PaidRequests | internal/app/service/portfolio_service.go:380-396 | The balances are those of exactly the requests for which the reply reports a positive amount, in request order, each with that amount, its text, and its network, wallet, token and decimals |
| NetworkBalances.PositionsExact | internal/app/service/portfolio_service.go:369-396 | The positions with a given fate increase and are exactly those that have it |
| NetworkBalances.RefusedBatch | internal/app/service/portfolio_service.go:361-366 | A refused batch yields no balance and one error, with the wallet, the network, no token and the cause |
| NetworkBalances.LoaderFeedsRequests | internal/app/service/portfolio_service.go:186-187 | For every listing each network asks for the native asset and for every token of its own files, by that token's fields and in loader order: the chain mismatch branch is never taken |
| NetworkBalances.OneRequestPerToken | internal/app/service/portfolio_service.go:337-352 | Tokens on the network's chain are requested one by one, in order, each by its own address, symbol and decimals |
| NetworkBalances.OwnBalances | internal/app/service/portfolio_service.go:314-399 | From files and replies alone: over the loader's grouping the balances are those of exactly the positions, native asset first and then the network's own tokens, where a positive amount is reported, with the listed address, symbol and decimals, and the errors those of exactly the positions where nothing is |
| TokenLoader.GetTokensByNetwork | internal/infrastructure/tokenloader/loader.go:34-121 | The loader fails exactly when the directory cannot be read, and otherwise groups exactly what the files add up to, with no empty group |
| TokenLoader.KeepOnChain | internal/infrastructure/tokenloader/loader.go:84-100 | Exactly the tokens with the network's printed chain ID are kept, each once and in order |
| TokenLoader.KeptTokensMatch | internal/infrastructure/tokenloader/loader.go:89-104 | Every token kept under a printed chain ID has that numeric chain ID |
| TokenLoader.TokensAreOwn | internal/infrastructure/tokenloader/loader.go:57-104 | With unlike networks, a network's group comes from the files named after it alone |
| TokenLoader.OwnTokensListed | internal/infrastructure/tokenloader/loader.go:57-104 | A network's own tokens, place by place: exactly the tokens with its numeric chain ID in the readable files named by its identifier and .json in any case, each once, in the order of the listing and of each file |
| TokenLoader.LoaderReadsLowerCaseOnly | internal/infrastructure/tokenloader/loader.go:57-58 | A file that activates a network is read for tokens if and only if its base name is in lower case |
| TokenLoader.UpperCaseFileIsNotRead | internal/infrastructure/tokenloader/loader.go:57-58 | A directory with just Ethereum.json activates Ethereum and yields no token, whatever the file holds |
| Strings.FormatUintInjective | internal/infrastructure/tokenloader/loader.go:86-89 | Decimal printing of chain IDs is injective |
| NetworkDefinitions.KnownDefinitionsUnlike | internal/infrastructure/network/definition/providers.go:21-261 | No two entries of the table share an identifier, a name, a chain ID or a DEXScreener ID |
| NetworkDefinitions.NetworkDefinitionProvider.constructor | internal/infrastructure/network/definition/providers.go:288-336 | The constructor activates the specified definitions for every listing, and none without a directory |
| NetworkDefinitions.NetworkDefinitionProvider.GetAllNetworkDefinitions | internal/infrastructure/network/definition/providers.go:339-346 | One definition per token file that is the first to name a known network, in the order of these files; none when the directory cannot be read |
| NetworkDefinitions.ActivePositions | internal/infrastructure/network/definition/providers.go:303-324 | The activated definitions are those of exactly the first files of their identifiers, in file order |
| NetworkDefinitions.NetworkDefinitionProvider.GetNetworkDefinitionByName | internal/infrastructure/network/definition/providers.go:349-359 | An active definition with the identifier is found if there is one |
| NetworkDefinitions.ActiveIff | internal/infrastructure/network/definition/providers.go:303-322 | A definition is active if and only if some token file's lower-case base name is its identifier |
| NetworkDefinitions.ActiveDefinitionsUnlike | internal/infrastructure/network/definition/providers.go:301-322 | No definition is activated twice, so active networks differ in every key |
| NetworkDefinitions.ActiveNetworksUnlike | internal/infrastructure/network/definition/providers.go:264-324 | For every directory listing, the active networks have distinct names, identifiers, chain IDs and DEXScreener IDs |
| NetworkDefinitions.TrackedUnlike | internal/app/service/portfolio_service.go:73-88 | Filtering keeps them distinct |
| NetworkDefinitions.TrackedAreWanted | internal/app/service/portfolio_service.go:73-91 | Filtering picks, at increasing positions, exactly the networks whose identifier equals some given name ignoring case, and all of them when none is given |
| EvmClientProvider.NewEVMClient | internal/infrastructure/network/client/evm_client.go:56-78 | A client is created if and only if some endpoint answers, over the primary one if it does, and else over the first fallback that does |
| EvmClientProvider.FirstOfEndpoints | internal/infrastructure/network/client/evm_client.go:58-70 | The connection is to the primary endpoint, or to the first fallback that answers when the primary does not |
| EvmClientProvider.CreatedFirst | internal/infrastructure/network/client/evm_client_provider.go:47-62 | Over any sequence of calls a client that a call creates is connected to the first endpoint of that call's definition to answer |
| EvmClientProvider.ClientProvider.GetClient | internal/infrastructure/network/client/evm_client_provider.go:43-63 | A call returns the kept client of its name or creates one over the first endpoint that answers, and changes nothing when it fails |
| EvmClientProvider.SameClientForName | internal/infrastructure/network/client/evm_client_provider.go:47-62 | Over any sequence of calls every successful one for a name returns the same client, and only the first creates one |
| EvmClientProvider.KeptForever | internal/infrastructure/network/client/evm_client_provider.go:48-60 | A kept client is never replaced or dropped |
| EvmClientProvider.AnswerCarriesName | internal/infrastructure/network/client/evm_client.go:72 | A returned client's definition carries the name asked for |
| EvmClientProvider.FailureChangesNothing | internal/infrastructure/network/client/evm_client_provider.go:55-58 | A failed call leaves the cache unchanged and means that no endpoint answered |
| TokenPrices.SelectBestPriceFromPairs | internal/app/service/token_price_service.go:221-274 | The price is empty if and only if no pair is eligible; otherwise it is that of the pick among the stablecoin pairs if any, else among all eligible ones |
| TokenPrices.PickIsUnique | internal/app/service/token_price_service.go:241-247 | The pick, the first candidate of unknown liquidity or the earliest of the most liquid, is unique |
| TokenPrices.CandidatesAreEligible | internal/app/service/token_price_service.go:229-244 | The candidates are exactly the eligible pairs, or the stablecoin-quoted ones among them |
| TokenPrices.CandidatesInOrder | internal/app/service/token_price_service.go:229-244 | The candidates are picked at exactly the positions of these pairs, in order, each once |
| TokenPrices.StablecoinIff | internal/app/service/token_price_service.go:238-244 | A pair is quoted in a stablecoin if and only if its quote symbol is USDC, USDT or DAI in any case |
| TokenPrices.BatchTokenInfos | internal/app/service/token_price_service.go:304-318 | In signed 64-bit arithmetic the loop computes the batches without overflow for up to MaxInt/2 tokens and any batch size |
| TokenPrices.BatchesPartition | internal/app/service/token_price_service.go:310-316 | The batches concatenate to the tokens; all but the last are full and none is empty |
| TokenPrices.BatchCount | internal/app/service/token_price_service.go:310-316 | There are ceil(n / size) batches |
| TokenPrices.BatchesAcceptedIff | internal/client/dexscreener_client.go:45-53 | No request of the loader is refused by the client's guards if and only if the configured limit is not negative |
| TokenPrices.TokenPriceService.GetPriceUSD | internal/app/service/token_price_service.go:277-286 | The cached price of the lower-cased address, if there is one |
| TokenPrices.TokenPriceService.GetGlobalNativeTokenPrice | internal/app/service/token_price_service.go:68-73 | The cached global price, 0 when there is none |
| TokenPrices.TokenPriceService.TrySetGlobalNativeTokenPrice | internal/app/service/token_price_service.go:76-86 | A positive price is what the next read of that symbol gives; a price that is not positive changes nothing; no other symbol changes; a cache of positive prices stays one |
| TokenPrices.TokenPriceService.PrepareChains | internal/app/service/token_price_service.go:114-123 | Every network's inner map exists afterwards; the method computes the specified table |
| TokenPrices.TokenPriceService.CachePrice | internal/app/service/token_price_service.go:185-187 | The stored price is read back for the address in any case, every other chain and address reads as before, and no chain appears |
| TokenPrices.ChainsPrepared | internal/app/service/token_price_service.go:114-123 | Preparing creates every missing inner map and changes no cached price |
| PriceLoadKeys.ServiceLoadConfluence | internal/app/service/token_price_service.go:89-218 | For every listing, token grouping, batch limit and parser that reads some two texts as different prices: every schedule that finishes leaves the cache of the sequential load, whatever was cached and is answered, if and only if the load has one slot or no network lists an address, ignoring case, in two of its batches |
| PriceLoadKeys.ConfluentIff | internal/app/service/token_price_service.go:125-212 | The same for any batches: confluence if and only if there is one slot or no cache entry is shared by two batches |
| PriceLoadKeys.SharedEntryDiverges | internal/app/service/token_price_service.go:143-208 | Two batches with a shared entry and two slots have replies and a schedule that leave another price than the sequential load |
| PriceLoadKeys.JobsApartIff | internal/app/service/token_price_service.go:125-143 | Networks with their own DEXScreener IDs share no entry, so whether batches do depends on each network's own list |
| PriceLoad.LoadConfluence | internal/app/service/token_price_service.go:125-212 | With one slot, or no entry shared by two batches, every schedule that finishes leaves the cache of the sequential load |
| PriceLoad.DealOneMore | internal/app/service/token_price_service.go:170-199 | Storing the next token's price gives the cache of that much of the sequential load, unless a later batch has already written the entry |
| PriceLoad.LoadedEntries | internal/app/service/token_price_service.go:169-207 | The sequential load leaves in each entry the price of the last token of that entry to find one, which is the first matching pair's price that parses, in response order; an entry for which no token finds a price is as before |
| PriceLoadOutcomes.EntryOutcomes | internal/app/service/token_price_service.go:143-208 | With several slots a finished load can leave a price in an entry if and only if it is the last find of some batch for that entry, or, where no batch finds any, what was there |
| PriceLoadOutcomes.FinishedEntries | internal/app/service/token_price_service.go:169-199 | After every finished schedule of any load every entry holds the last find of one of its batches, or is as before if no token finds a price |
| PriceLoadOutcomes.NoneFindsIff | internal/app/service/token_price_service.go:169-199 | No token of an entry finds a price if and only if no batch has a last find for it |
| PriceLoad.RunIsSafe | internal/app/service/token_price_service.go:143-212 | In every run of any load, whatever its slots and whatever its batches share: no more batches than slots are at work, no run is longer than the measure of its start, and a run that cannot go on is complete |
| PriceLoad.RunKeepsCache | internal/app/service/token_price_service.go:143-212 | With one slot, or no entry shared by two batches, every reachable cache is exactly that of the tokens dealt with |
| PriceLoad.ControlKept | internal/app/service/token_price_service.go:143-152 | No more goroutines than the limit hold a slot after any step |
| PriceLoad.NeverStuck | internal/app/service/token_price_service.go:143-212 | An unfinished load can always take a step |
| PriceLoad.MeasureDrops | internal/app/service/token_price_service.go:143-212 | Every step lowers the measure |
| PriceLoad.NoNilMap | internal/app/service/token_price_service.go:186 | In no run of any load does a write meet a missing inner map |
| PriceLoadKeys.JobKeysDistinct | internal/app/service/token_price_service.go:125-143 | Distinct DEXScreener IDs, and distinct addresses per network, give every token its own cache entry |
| PriceLoadKeys.DistinctKeysFindLast | internal/app/service/token_price_service.go:169-199 | Then no two batches share an entry and every token that finds a price decides its entry |
| ServiceLoad.AsksForListed | internal/app/service/token_price_service.go:125-152 | For every network with a DEXScreener ID the batches the load asks for under that ID concatenate to exactly the tokens listed under its printed chain ID, with at least one and at most the batch size in each |
| ServiceLoad.ListedTokenCached | internal/app/service/token_price_service.go:89-218 | The service's load, for any directory, grouping, batch limit, replies and schedule: every listed token of a network with a DEXScreener ID is in a batch of its network, and if that batch's reply offers it a price, then when the load is finished a price found for its address is cached under its network, its own one if no list repeats an address |
| ServiceLoad.FirstOffer | internal/app/service/token_price_service.go:169-199 | A token's price in a reply is that of the first pair, in response order, with its address in any case and a price that parses |

## Left out

- Negative amounts: balances are magnitudes, as the node's replies are.
- Infinite and not-a-number prices: a price that parses is a real number.
- The order in which float64 totals are added: totals are exact reals, since float addition is not associative and schedules differ.
- Infinite values: the run's values and totals are finite reals. Where CalculateValueUSD returns infinity, which `ValueInfiniteIff` describes, the run takes the exact product instead.
- BigIntUtils.TokenValueClose: speaks of the token value before the price is applied.
- TokenPrices.BatchTokenInfos: lists of more than MaxInt/2 tokens, which no memory holds.
- RunRefinement.EveryScheduleRefines: compares with a sequential computation at one fixed global price. Where the price is not settled that way, `DeterministicIff` says exactly when the schedule can still be told from the results.
- Which client error or timeout occurs: GetClient and fetch outcomes are arbitrary functions of wallet and network, and context cancellation is one more failure. That GetClient's outcomes agree between wallets is proved of the provider, not assumed by the run.
- HTTP, JSON-RPC, ABI unpacking, JSON and YAML decoding, file reading: their outcomes are parameters. The matching of responses to batch elements happens inside go-ethereum, which is not part of this model.
- The single-wallet endpoint: its run is that of a request with one wallet; the lookup of the wallet by address is not modelled.
- Get is a step for every balance; for balances that are not globally priced it reads nothing, where the source has no call.
- Unicode: addresses, symbols and file names are folded as ASCII.
- The counters of the price load: updated without synchronisation and only logged.
- The cached prices while a request runs: the load is over before requests are served.
- selectBestPriceFromPairs has no caller in the loader; it is modelled on its own.
- Wallet files, the handlers other than the grand total, logging, metrics, configuration other than the batch limit, GetAllClients, GetAllTokenPrices, block explorer URLs and token names.
