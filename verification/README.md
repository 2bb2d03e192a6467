# LiloCharge, modelled and proved in Dafny

LiloCharge is the backend of an electric-vehicle charging network: it imports stations from operator
exports, answers station queries through a Redis cache, runs charging sessions from the app and from charge
points (OCPP 1.6), takes payments through card gateways and a prepaid wallet, and prices sessions from meter
readings. This project models the parts of it whose correctness spans several functions or whole runs.

Verify everything with `dafny verify dfyconfig.toml`.

## Modules

| module | what it models |
|---|---|
| `Text` | the JavaScript string operations that the others need: join, split, trim, sort, number printing |
| `CsvRows` | the CSV scanner, and a grammar and printer for section 2 of RFC 4180 |
| `StationImport` | operator rows grouped into stations through two insertion-ordered maps |
| `StationFields` | what the cells of an operator's row become, field by field |
| `StationStatuses` | a station's aggregate state: the loop and the SQL expression |
| `FilterLists` | the mobile client's list serializer and the API's filter-list parser |
| `CacheKeys` | the keys of nearby and search results |
| `StationCache` | the read-through cache, connector updates and invalidation |
| `StationAnswers` | what the station queries answer, in terms of the columns |
| `StaleReads` | exactly when rounded cache keys make a read stale |
| `Billing` | the split of a session into charging and idle time, the tariff, and the live bill |
| `Wallets` | the wallet ledger with its requests interleaved |
| `WalletHistory` | cursor paging through a wallet's transactions |
| `RemoteStart` | the tracker of accepted remote starts (section 5.11 of OCPP 1.6) and the retry loop |
| `TransactionIds` | interleaved StartTransaction handlers, the id allocator and the tracker |
| `Payments` | one session's payment: pre-authorisation, capture, refund, and the stored methods |
| `Sessions` | the state machine of sessions driven by REST requests and by StartTransaction/StopTransaction (sections 4.8 and 4.10 of OCPP 1.6), its invariant, and the services that take the steps |
| `SessionRequests` | what each request does to the session table, in terms of its rows |
| `WalletSessions` | what sessions cost and what wallets lost, summed over whole runs |
| `SessionMoney` | who is charged for a session and when, and what becomes of a card's hold |

Code that the repository writes as loops or as services that update rows is written here as methods with
loops and as classes, each proved equal to a specification function; the properties are then proved about
those functions, mostly over whole runs. What a specification function computes is pinned separately, in terms
of cells, columns, rows, units and literal values (`StationFields`, `StationAnswers`, `SessionRequests`, and the
last parts of `Billing`, `Payments`, `Wallets` and `CacheKeys`).

## What the proofs say about the code

Where a property turned out not to hold of the code for every input, the exact condition is proved.

- The CSV scanner loses a blank line that ends with LF when it follows a line that ends with CR, and a last
  row that is one empty field without a terminator. It loses nothing else
  (`CsvRows.ScannerUndoesPrinting`; a file that loses a row: `CsvRows.BlankLineIsLost`).
- Stations are grouped by `operatorId:externalId`. Two different stations share that key exactly when one
  operator id extends the other by a colon and the beginning of the other's external id
  (`StationImport.KeysCollideExactlyWhenAmbiguous`), and only then does grouping differ
  (`StationImport.GroupingIsByStation`; two stations that become one: `StationImport.TwoStationsMerge`).
- Cache keys round coordinates to six decimals, so finer ones can share a key
  (`CacheKeys.FinerCoordinatesCollide`). Given how far stations are from places, nearby requests that share a
  key have equal answers from every database that answers as the query is written if and only if no station
  that is within the radius of either place is at another distance from the other, or the limit is 0
  (`StaleReads.KeySharersAgreeExactlyWhen`; `StaleReads.SearchKeySharersAgreeExactlyWhen` for searches). The
  same condition decides whether the second of two reads is fresh (`StaleReads.SecondReadIsFreshExactlyWhen`);
  in `StaleReads.FinerReadIsStale` it is told a wrong distance.
- The running bill never falls by more than 1 exactly for tariffs whose idle fee is at most their minute
  price (`Billing.RunningBillIsSteady`), and it can fall by 1 even then (`Billing.FallByOneHappens`).
- StopTransaction completes a session without consulting the lifecycle graph. That is right exactly for
  active and completed sessions (`Sessions.StopTransactionNeedsActive`); every session that carries a
  transaction id is one (`Sessions.RunKeepsInvariant`).
- A session is charged in one way only: a stop by its owner, with a positive cost, where the default wallet
  covers the cost or, without a default wallet, there is a payment that the gateway captures
  (`SessionMoney.ChargedExactlyWhen`, an if-and-only-if over all requests). StopTransaction asks for a capture
  too, but the sessions that it completes have no payment to capture (`SessionMoney.StopTransactionCapturesNothing`).
- The services never charge a session on their own (`SessionMoney.NothingIsChargedByItself`): only
  StopTransaction writes a cost, its sessions have no payment, and sessions with a payment are priced by
  nobody. In the repository, only end-to-end tests write costs to active sessions: they insert
  them with a cost (sessions/session-stop-receipt.e2e.spec.ts) or update it while the session is active
  (sessions/multi-operator-sessions.e2e.spec.ts), which is what `RecordCost` models.
- A stop without an error does not mean that the cost was paid. It charged somebody if and only if the cost is
  positive and there is a default wallet or a payment (`SessionMoney.SuccessfulStopCharges`). A session started
  on the wallet, whose user then makes another method the default, is stopped without an error and paid by
  nobody, whatever its cost (`SessionMoney.UnpaidStopIsFree`).
- A finished session's card hold is captured or released if and only if the session was finished by a stop
  with a positive cost, without a default wallet, that the gateway captures, or by a cancellation or failure
  that the gateway refunds; otherwise the whole hold stays for ever
  (`SessionMoney.HoldIsSettledExactlyWhen`). The ordinary case is on the wrong side: as long as nothing but
  the services writes costs, every completed session with a card payment keeps its hold
  (`SessionMoney.UnpricedHoldsAreStranded`), and create, start and stop already lead there without an error
  (`SessionMoney.FreeStopStrandsTheHold`). A switch of the default method to the wallet during the session is
  another way: the wallet pays on top, and recording that fails because the session already has a payment row
  (`SessionMoney.SwitchingToTheWalletStrandsTheHold`).

## Model

| member | source | states |
|---|---|---|
| `CsvRows.ParseCsvRows` | apps/api/src/station-import/operator-csv.parser.ts:203-250 | The one-pass loop with its quote flag and skipped characters returns what the scanner function defines |
| `CsvRows.ScannerUndoesPrinting` | apps/api/src/station-import/operator-csv.parser.ts:203-250 | For every file of the RFC 4180 grammar, whichever fields are quoted and however lines end, scanning gives back its rows if and only if no blank LF line follows a CR line and the unterminated last row is not a lone empty field |
| `CsvRows.ScanDocument` | apps/api/src/station-import/operator-csv.parser.ts:228-249 | What the scanner returns for every file of the grammar, the lossy ones included |
| `CsvRows.BlankLineIsLost` | apps/api/src/station-import/operator-csv.parser.ts:228-239 | A file of two rows of which the scanner returns one |
| `CsvRows.UniformTerminatorRoundTrip` | apps/api/src/station-import/operator-csv.parser.ts:228-239 | Rows written with one terminator throughout come back unchanged, for LF, CRLF and CR |
| `CsvRows.FinalTerminatorOptional` | apps/api/src/station-import/operator-csv.parser.ts:244-247 | Leaving out the final terminator changes nothing if and only if the last row is not one empty field |
| `CsvRows.EveryTableSurvives` | apps/api/src/station-import/operator-csv.parser.ts:203-250 | Any non-empty rows of any characters survive being written with quotes where needed and scanned |
| `StationImport.ParseOperatorStationsCsv` | apps/api/src/station-import/operator-csv.parser.ts:34-84 | The whole import: no stations for empty content, the missing columns, the first row error, or the grouped stations |
| `StationImport.GroupRows` | apps/api/src/station-import/operator-csv.parser.ts:45-83 | The loop over two insertion-ordered maps computes the declarative grouping of the drafts, or the first error |
| `StationImport.DraftsAreTheNonBlankRows` | apps/api/src/station-import/operator-csv.parser.ts:47-54 | One draft per non-blank row in order; otherwise the error is that of the first non-blank row that does not parse |
| `StationImport.RowParsesWhenComplete` | apps/api/src/station-import/operator-csv.parser.ts:87-140 | A row parses if and only if its required columns have values and its three numeric ones finite numbers |
| `StationFields.DraftIsWhatRowSays` | apps/api/src/station-import/operator-csv.parser.ts:87-200 | A row is read as a draft if and only if it spells it out: each field is the trimmed text in the last column with its name, numbers by value, types and states by their names with CCS and AVAILABLE for unknown ones, amenities between bars |
| `StationFields.RowsThatCount` | apps/api/src/station-import/operator-csv.parser.ts:324-326 | The rows that count are those with some cell that is more than white space, under their line numbers |
| `StationFields.FirstBadCellIsReported` | apps/api/src/station-import/operator-csv.parser.ts:270-321 | A row that cannot be read reports the first column, in reading order, whose cell is empty or not a number, with its line |
| `StationFields.MissingColumnsAreNamed` | apps/api/src/station-import/operator-csv.parser.ts:253-268 | An import complains of columns if and only if one of the eleven required ones is missing, and names exactly those |
| `StationFields.WrittenRowsAreImported` | apps/api/src/station-import/operator-csv.parser.ts:35-84 | Rows that spell out drafts, under any header with the required columns in any order, written as a file with any terminator, are imported as those drafts, grouped |
| `StationFields.OneRowIsImported` | apps/api/src/station-import/operator-csv.parser.ts:35-119 | A file of one row gives exactly the station and the connector that the row spells out |
| `StationFields.AmenitiesComeBack` | apps/api/src/station-import/operator-csv.parser.ts:143-152 | Trimmed, non-empty entries without bars, joined by bars, come back |
| `StationImport.GroupAppend` | apps/api/src/station-import/operator-csv.parser.ts:57-65 | One more row opens a station at the end, or sets one connector of the station it names and changes nothing else |
| `StationImport.EveryRowRepresentedOnce` | apps/api/src/station-import/operator-csv.parser.ts:57-83 | Every row's key is at one place only, with the first such row's station fields, and its EVSE at one place in it, with the last such row's values |
| `StationImport.EveryConnectorIsARow` | apps/api/src/station-import/operator-csv.parser.ts:63-65 | Every connector of every listed station is that of some row with the station's key |
| `StationImport.KeysCollideExactlyWhenAmbiguous` | apps/api/src/station-import/operator-csv.parser.ts:55 | Different stations share the concatenated key if and only if one operator id extends the other by a colon and the start of the other's external id |
| `StationImport.GroupingIsByStation` | apps/api/src/station-import/operator-csv.parser.ts:55-66 | Grouping by the concatenated key is grouping by operator and external id if and only if no two rows are ambiguous |
| `StationImport.TwoStationsMerge` | apps/api/src/station-import/operator-csv.parser.ts:55-61 | Station "b:c" of operator "a" and station "c" of operator "a:b" become one record |
| `StationImport.ColonFreeIsUnambiguous` | apps/api/src/station-import/operator-csv.parser.ts:55 | Operator ids without a colon are never ambiguous |
| `StationStatuses.ComputeAggregateStationStatus` | packages/shared-types/src/station.ts:26-46 | The loop finds the best state among the connectors, and OFFLINE when there are none |
| `StationStatuses.SqlAgreesWithLoop` | apps/api/src/stations/stations.queries.ts:15-31 | The encode, MIN, decode expression gives the same state on every list, the empty one included |
| `StationStatuses.OrderAndRepetitionDoNotMatter` | apps/api/src/stations/stations.queries.ts:15-31 | Lists with the same states in them have the same aggregate |
| `FilterLists.ParserUndoesSerializer` | apps/mobile/src/features/stations/stations-api.ts:93-99 | The parser gives back a serialized list if and only if it is non-empty and of trimmed, non-empty, comma-free entries; an empty list becomes no filter |
| `FilterLists.ParserAnswersInNormalForm` | apps/api/src/stations/dto/nearby-stations-query.dto.ts:88-108 | On any value, arrays nested to any depth included, every answer is a non-empty list of trimmed, non-empty, comma-free entries |
| `FilterLists.ParsingAgainChangesNothing` | apps/api/src/stations/dto/nearby-stations-query.dto.ts:88-108 | Parsing an answer again, as an array or as comma-separated text, gives the same answer |
| `FilterLists.NestingIsIrrelevant` | apps/api/src/stations/dto/nearby-stations-query.dto.ts:90-107 | The recursive parser answers with the trimmed non-empty pieces of all strings in the value, in order, whatever the nesting |
| `FilterLists.CleanedMeaning` | apps/api/src/stations/dto/nearby-stations-query.dto.ts:102-107 | Every entry is trimmed and exactly the empty ones are left out |
| `CacheKeys.BuildNearbyCacheKey` | apps/api/src/stations/stations.service.ts:424-449 | Pushing the parts one by one yields the key of the request's fields |
| `CacheKeys.NearbyKeyIsDecodable` | apps/api/src/stations/stations.service.ts:424-449 | An explicit decoder reads every field back from a nearby key, even when operator ids contain the separator |
| `CacheKeys.NearbyKeysEqualExactlyForSameQuery` | apps/api/src/stations/stations.service.ts:424-449 | Two nearby requests share a key if and only if their six-decimal coordinates, radius and limit after defaults, power, and filter lists up to order are equal |
| `CacheKeys.SearchKeysEqualExactlyForSameQuery` | apps/api/src/stations/stations.service.ts:458-467 | Two searches share a key if and only if normalised text, six-decimal coordinates and limit are equal, even when the text contains the separator |
| `CacheKeys.SixDecimalsAreExact` | apps/api/src/stations/stations.service.ts:426-427 | Coordinates of at most six decimals are told apart by their printed form |
| `CacheKeys.FinerCoordinatesCollide` | apps/api/src/stations/stations.service.ts:426-427 | Two requests from different places that share a key |
| `CacheKeys.CoordinateSaysIt` | apps/api/src/stations/stations.service.ts:426-427 | A printed coordinate is its sign, whole digits and six decimals that say the nearest millionth, of two equally near ones the one away from zero |
| `CacheKeys.NearbyDefaults` | apps/api/src/stations/stations.service.ts:26-28 | Leaving out radius or limit is asking for 5000 metres or 50 stations |
| `CacheKeys.SearchDefault` | apps/api/src/stations/stations.service.ts:26-28 | Leaving out the limit of a search is asking for 20 stations |
| `StationCache.EveryReadIsFresh` | apps/api/src/stations/stations.service.ts:114-215 | After any serial run of reads, connector updates, expiries and failed cache calls from an empty cache, every nearby, search and detail read returns what the direct query returns then |
| `StationCache.ReadNearbyIsFresh` | apps/api/src/stations/stations.service.ts:114-141 | On a coherent cache a nearby read gives the direct answer and leaves the cache coherent |
| `StationCache.ReadSearchIsFresh` | apps/api/src/stations/stations.service.ts:144-172 | The same for searches, whose blank queries skip the cache |
| `StationCache.ReadDetailIsFresh` | apps/api/src/stations/stations.service.ts:175-215 | The same for details, which use the cache only without filters and location |
| `StationCache.UpdateKeepsCoherence` | apps/api/src/connectors/connectors.service.ts:74-103 | After a connector update no cached result speaks of the old state, although of all details only one is dropped |
| `StationCache.UpdatePersistsAggregate` | apps/api/src/connectors/connectors.service.ts:189-202 | The state stored with the station is the aggregate that every query computes from the updated connectors |
| `StationCache.UpdateWritesOneConnector` | apps/api/src/connectors/connectors.service.ts:74-103 | An update writes the state and the instant of the one connector with the id, no other, caches that row, and fails exactly when there is none |
| `StationCache.NearbyHitAnswers` | apps/api/src/redis/cache.service.ts:173-186 | An entry answers a nearby read without a change when the cache can be read, and the database is asked when it cannot |
| `StationCache.SearchHitAnswers` | apps/api/src/redis/cache.service.ts:173-186 | The same for searches |
| `StationCache.DetailHitAnswers` | apps/api/src/redis/cache.service.ts:173-186 | The same for details |
| `StationCache.NormalizedShape` | apps/api/src/stations/stations.service.ts:348-350 | A normalised search text is trimmed with single blanks between words, has the same other characters in the same order, and is empty exactly for blank texts |
| `StationCache.CollapseKeepsWord` | apps/api/src/stations/stations.service.ts:348-350 | A word is kept as it is |
| `StationCache.CollapseClosesGap` | apps/api/src/stations/stations.service.ts:348-350 | A gap between words becomes one blank |
| `StationCache.NearbyReadIsStored` | apps/api/src/redis/cache.service.ts:32-35 | A nearby read whose write works leaves its answer under its key |
| `StationCache.SearchReadIsStored` | apps/api/src/redis/cache.service.ts:54-57 | The same for searches |
| `StationCache.DetailReadIsStored` | apps/api/src/redis/cache.service.ts:76-79 | The same for details, if and only if nothing more than the station is asked for |
| `StationAnswers.NearbyAnswers` | apps/api/src/stations/stations.queries.ts:60-97 | An honest nearby answer lists only stations within the radius that have a connector of a given type with at least the given power, a given state and a given operator, nearest first, at most as many as the limit, and all of them when there are fewer |
| `StationAnswers.SearchAnswers` | apps/api/src/stations/stations.queries.ts:100-142 | An honest search answer lists only matching stations, best match first and nearest first among equals, and all of them when there are fewer than the limit |
| `StationAnswers.DetailAnswers` | apps/api/src/stations/stations.queries.ts:303-324 | A detail shows exactly the station's connectors of a given type with at least the given power, in order, its state, and a distance only with both coordinates; an unknown station has none |
| `StationAnswers.PowerSaysIt` | apps/api/src/stations/stations.queries.ts:268-270 | The minimum power is the number that its printed digits say |
| `StationCache.SameNearbyQuerySameAnswer` | apps/api/src/stations/stations.queries.ts:60-97 | The order of filter lists does not matter to the answer, and an empty list filters like an absent one |
| `StaleReads.KeySharersAgreeExactlyWhen` | apps/api/src/stations/stations.queries.ts:60-97 | Over given distances, nearby requests that share a key have equal answers from every valid database whose query filters, orders and cuts off as written, if and only if every station is seen alike from both places (equally far, or beyond the radius of both) or the limit is 0 |
| `StaleReads.SearchKeySharersAgreeExactlyWhen` | apps/api/src/stations/stations.queries.ts:100-142 | The same for searches with a non-blank text, which have no radius: if and only if every station is equally far from both places or the limit is 0 |
| `StaleReads.SecondReadIsFreshExactlyWhen` | apps/api/src/stations/stations.service.ts:114-141 | Right after one read, a read of the same query up to rounding is answered as the direct query would, from every such database, if and only if every station is seen alike from both places or the limit is 0 |
| `StaleReads.FinerReadIsStale` | apps/api/src/stations/stations.service.ts:426-427 | From every such database with one station at the first place, a read a ten-millionth of a degree away is told distance 0 instead of 0.0111195 metres |
| `StationCache.CacheService.SetJsonCache` | apps/api/src/redis/cache.service.ts:158-165 | Stores the value under its key, or nothing when Redis fails |
| `StationCache.CacheService.GetJsonCache` | apps/api/src/redis/cache.service.ts:173-186 | The stored value, or a miss when there is none or Redis fails |
| `StationCache.CacheService.InvalidateStation` | apps/api/src/redis/cache.service.ts:97-114 | Drops all nearby and search results and one detail, and nothing else |
| `StationCache.ConnectorsService.UpdateConnectorStatus` | apps/api/src/connectors/connectors.service.ts:74-103 | Writes the connector row, its cache entry and the station's state, and invalidates, exactly as the step of the run does |
| `StationCache.ConnectorsService.CascadeStationAggregateStatus` | apps/api/src/connectors/connectors.service.ts:189-202 | Stores the aggregate of the station's connectors and touches no other station |
| `StationCache.StationsService.FindNearbyStations` | apps/api/src/stations/stations.service.ts:114-141 | Answer and new cache are those of the nearby read step |
| `StationCache.StationsService.SearchStations` | apps/api/src/stations/stations.service.ts:144-172 | Answer and new cache are those of the search step |
| `StationCache.StationsService.GetStationDetail` | apps/api/src/stations/stations.service.ts:175-215 | Answer and new cache are those of the detail step, including the missing station |
| `Billing.ResolveLastChargingTimestamp` | apps/api/src/sessions/session-cost-calculator.service.ts:107-126 | The loop with its two variables computes the last charging moment |
| `Billing.LastChargingMeaning` | apps/api/src/sessions/session-cost-calculator.service.ts:113-123 | That moment is the timestamp of the latest sample with more than 100 W or a risen register, and absent if and only if no sample is such |
| `Billing.ThresholdIsExclusive` | apps/api/src/sessions/session-cost-calculator.service.ts:114 | A reading of exactly 100 W shows no charging, and anything above does |
| `Billing.EnergyIsWidestSpread` | apps/api/src/sessions/session-monitoring.service.ts:149-158 | The delivered kilowatt-hours times 1000 bound the difference of any two readings in watt-hours and are that of some two |
| `Billing.EnergyBill` | apps/api/src/ocpp/ocpp.transactions.service.ts:357-366 | With a kilowatt-hour price only, the bill is within 1/2 of the price times the widest spread divided by 1000 |
| `Billing.TimeBills` | apps/api/src/connectors/connectors.service.ts:224-268 | With a minute price or an idle fee only, the bill is within 1/2 of it times charging or idle minutes; a session fee is billed as it is |
| `Billing.BillIsSumOfRates` | apps/api/src/connectors/connectors.service.ts:229-236 | A bill is the sum of what its rates bill one by one |
| `Billing.IdleTimeInWords` | apps/api/src/sessions/session-cost-calculator.service.ts:75-103 | Idle minutes are the milliseconds from the last charging sample to the stop divided by 60000; without such a sample all of the session if all registers are equal, and otherwise none |
| `Billing.ChargingTimeInWords` | apps/api/src/sessions/session-cost-calculator.service.ts:56-58 | Charging minutes are the rest of the session, or 0 |
| `Billing.SplitIsExact` | apps/api/src/sessions/session-cost-calculator.service.ts:56-58 | Charging and idle minutes add up to the whole session if and only if the last charging moment, if any, is not before the start or not before the stop |
| `Billing.TotalWithinThreeHalves` | apps/api/src/connectors/connectors.service.ts:224-268 | The bill is within 3/2 of the unrounded tariff |
| `Billing.ChargingGrows` | apps/api/src/sessions/session-cost-calculator.service.ts:75-103 | Charging minutes never shrink as samples arrive in order and the stop moves on |
| `Billing.BillKeepsUpWithLiveCost` | apps/api/src/sessions/session-monitoring.service.ts:124-146 | For an idle fee of at most the minute price, the bill at any stop not before the last sample is at least every earlier live figure less 1 |
| `Billing.RunningBillIsSteady` | apps/api/src/sessions/session-monitoring.service.ts:99-146 | No live figure is more than 1 below an earlier one, in any session, if and only if the idle fee is at most the minute price |
| `Billing.DearIdlingFalls` | apps/api/src/sessions/session-cost-calculator.service.ts:93-102 | For every plan whose idling costs more than charging, a session whose live figure falls by more than 1 |
| `Billing.FallByOneHappens` | apps/api/src/connectors/connectors.service.ts:262-268 | Rounding alone can make the live figure fall by 1 |
| `Wallets.LedgerIsSound` | apps/api/src/wallet/wallet.service.ts:148-290 | In every interleaving every log is a chain from 0, the balance is the signed sum of the log and of the completed requests, and no balance is ever negative |
| `Wallets.TopUpMoneyIsConserved` | apps/api/src/wallet/wallet.service.ts:108-188 | At every point of every interleaving the money taken for a user's top-ups is the sum of the top-up credits plus what was charged but not credited, failed transactions included |
| `Wallets.RunKeepsInvariant` | apps/api/src/wallet/wallet.service.ts:108-290 | Both hold from every state in which they and the conditions on open requests hold, not only from the empty one |
| `Wallets.UndisturbedIsARun` | apps/api/src/wallet/wallet.service.ts:108-290 | A request that nothing interrupts is one of the interleavings, so the methods inherit the results about runs |
| `Wallets.RefundRaises` | apps/api/src/wallet/wallet.service.ts:249-290 | An undisturbed refund succeeds if and only if it is positive, a wallet is found or created and its transaction commits; it raises the balance by its amount and logs that |
| `Wallets.DeductionLowers` | apps/api/src/wallet/wallet.service.ts:194-243 | An undisturbed deduction succeeds if and only if it is positive and covered and its transaction commits; it lowers the balance by its amount and logs that |
| `Wallets.TopUpRaises` | apps/api/src/wallet/wallet.service.ts:108-188 | When an undisturbed top-up charges its gateway, when it succeeds, and what it adds to balance, log and charges |
| `Wallets.WalletService.GetOrCreateWallet` | apps/api/src/wallet/wallet.service.ts:83-102 | The existing balance, a new wallet with balance 0, or a failure that changes nothing |
| `Wallets.WalletService.RunTransaction` | apps/api/src/wallet/wallet.service.ts:148-181 | The body of a transaction overwrites the balance and appends the matching row, or changes nothing |
| `Wallets.WalletService.TopUpWallet` | apps/api/src/wallet/wallet.service.ts:108-188 | A whole top-up with its gateway calls does what the pieces of the run do in a row |
| `Wallets.WalletService.DeductBalance` | apps/api/src/wallet/wallet.service.ts:194-243 | The same for a deduction with its check before and its check inside the transaction |
| `Wallets.WalletService.RefundBalance` | apps/api/src/wallet/wallet.service.ts:249-290 | The same for a refund |
| `Wallets.WalletService.CheckSufficientBalance` | apps/api/src/wallet/wallet.service.ts:338-353 | True if and only if nothing is required or an existing wallet holds enough |
| `WalletHistory.FollowCursor` | apps/api/src/wallet/wallet.service.ts:296-332 | Following the cursor terminates and yields exactly the rows that matched at the first fetch, newest first, for every limit of at least 1 and however many rows arrive meanwhile |
| `WalletHistory.MatchingIsFilter` | apps/api/src/wallet/wallet.service.ts:296-332 | The rows that match a type are those of that type, or all without one, in order |
| `WalletHistory.LaterPage` | apps/api/src/wallet/wallet.service.ts:304-331 | A page after a cursor continues where the last one ended, says correctly whether more follows and hands out the next cursor |
| `WalletHistory.CursorContinues` | apps/api/src/wallet/wallet.service.ts:296-332 | A query from a cursor finds exactly the older matching rows whatever newer ones exist |
| `RemoteStart.PruneRefines` | apps/api/src/ocpp/ocpp.remote-start.service.ts:270-285 | Pruning keeps the map and the full history alike at every later instant |
| `RemoteStart.AcceptRefines` | apps/api/src/ocpp/ocpp.remote-start.service.ts:226-249 | Recording an accepted start keeps them alike and puts it last |
| `RemoteStart.LinkRefines` | apps/api/src/ocpp/ocpp.remote-start.service.ts:186-207 | Linking in the pruned map gives the answer that linking in the full history gives, and keeps them alike |
| `RemoteStart.LinkTakesNewest` | apps/api/src/ocpp/ocpp.remote-start.service.ts:186-207 | A link takes the most recently accepted record with the charge point, connector and tag that has no transaction and has not expired, writes id and instant on it and changes no other; it answers nothing if and only if there is none |
| `RemoteStart.LookupById` | apps/api/src/ocpp/ocpp.remote-start.service.ts:172-178 | The lookup finds the record with the id if and only if it is linked or not yet expired |
| `RemoteStart.LookupByTransaction` | apps/api/src/ocpp/ocpp.remote-start.service.ts:210-223 | The lookup finds a record with that charge point and transaction, the most recently updated one, if and only if there is one |
| `RemoteStart.RefusesFirstFailure` | apps/api/src/ocpp/ocpp.remote-start.service.ts:80-120 | Which refusal a bad request gets: connector, tag, connection, call handler, then attempts, delay, timeout and lifetime |
| `RemoteStart.LinkedNeverVanish` | apps/api/src/ocpp/ocpp.remote-start.service.ts:270-285 | Pruning never drops a linked record |
| `RemoteStart.RemoteStartService.PruneExpiredPendingRecords` | apps/api/src/ocpp/ocpp.remote-start.service.ts:270-285 | What remains is what the full history shows now |
| `RemoteStart.RemoteStartService.GetTrackedRemoteStart` | apps/api/src/ocpp/ocpp.remote-start.service.ts:172-178 | The lookup answers as if every record were kept and each pending one vanished at its expiry |
| `RemoteStart.RemoteStartService.LinkTransactionId` | apps/api/src/ocpp/ocpp.remote-start.service.ts:186-207 | Rejects bad input without a change, and otherwise links in the full history |
| `RemoteStart.RemoteStartService.FindLatestPendingRecord` | apps/api/src/ocpp/ocpp.remote-start.service.ts:252-267 | The walk from the newest record finds the latest pending match |
| `RemoteStart.RemoteStartService.FindByTransactionId` | apps/api/src/ocpp/ocpp.remote-start.service.ts:210-223 | The lookup answers from the full history |
| `RemoteStart.RemoteStartService.TrackAccepted` | apps/api/src/ocpp/ocpp.remote-start.service.ts:226-249 | Appends one pending record with its expiry to the history |
| `RemoteStart.RemoteStartService.RemoteStartTransaction` | apps/api/src/ocpp/ocpp.remote-start.service.ts:80-169 | Which refusal comes first; otherwise the first decisive response among the allowed attempts decides, an accepted one is tracked with its attempt count, and all else leaves the tracker alone |
| `TransactionIds.IdsAreUnique` | apps/api/src/ocpp/ocpp.transactions.service.ts:285-290 | In every interleaving of handlers the allocated ids are positive and distinct and no id is on two records |
| `TransactionIds.StartsWith` | apps/api/src/ocpp/ocpp.transactions.service.ts:55 | A process starts without handlers and records and with an id of at least 1 |
| `TransactionIds.HandlerTakesNextId` | apps/api/src/ocpp/ocpp.transactions.service.ts:96-119 | A handler takes the allocator's id, which moves on by one, creates its session or is abandoned, and then links its id; no other handler changes |
| `TransactionIds.LookupPrunes` | apps/api/src/ocpp/ocpp.remote-start.service.ts:210-223 | A lookup drops what has expired by its time and does nothing else |
| `TransactionIds.AcceptedIsTracked` | apps/api/src/ocpp/ocpp.remote-start.service.ts:226-249 | An accepted remote start is tracked last, under a new id, until its lifetime has passed |
| `TransactionIds.LinkOutlivesRuns` | apps/api/src/ocpp/ocpp.remote-start.service.ts:186-207 | A record's transaction id never changes once set, and the record stays |
| `TransactionIds.LookupIsUnique` | apps/api/src/ocpp/ocpp.remote-start.service.ts:210-223 | A lookup by charge point and id has at most one candidate, so sorting by updatedAt decides nothing |
| `TransactionIds.RunKeepsInvariant` | apps/api/src/ocpp/ocpp.transactions.service.ts:96-119 | Ids below the allocator, one record per id, and none of an id that a handler has still to link |
| `Payments.PreAuthorizeKeepsDeal` | apps/api/src/payments/payments.service.ts:212-279 | An authorisation leaves row and gateway ledger in agreement; errors change nothing and an existing row is left alone |
| `Payments.CaptureKeepsDeal` | apps/api/src/payments/payments.service.ts:282-338 | A capture asks once, never misses what it needs, and on success exactly the amount is taken |
| `Payments.RefundKeepsDeal` | apps/api/src/payments/payments.service.ts:341-362 | A refund asks for exactly what the gateway holds and leaves it nothing |
| `Payments.CaptureOutcome` | apps/api/src/payments/payments.service.ts:282-338 | For every payment row, whatever its state: whether the gateway is asked to capture, which error comes instead, and what row and hold become |
| `Payments.RefundOutcome` | apps/api/src/payments/payments.service.ts:341-362 | For every payment row, whatever its state: whether the gateway is asked to refund, for which amount, which error comes instead, and what row and hold become |
| `Payments.FirstAuthorisation` | apps/api/src/payments/payments.service.ts:566-596 | A first authorisation is of the user's first default method other than the wallet, or without one of the first method, for its gateway's amount from the environment or 5000; a card holds it, Idram nothing; it fails for want of a method if and only if there is none |
| `Payments.FirstAuthorisationFails` | apps/api/src/payments/payments.service.ts:435-468 | With a method it fails if and only if the gateway declines or Idram's balance is below the amount |
| `Payments.LaterAuthorisation` | apps/api/src/payments/payments.service.ts:213-278 | An authorised or captured payment is left alone; another one is overwritten as by a first authorisation but keeps its user and captured amount |
| `Payments.SetWalletRows` | apps/api/src/payments/payments.service.ts:384-432 | The wallet's row, or a new last one, becomes the default, and of the other rows only the user's lose theirs |
| `Payments.ExchangeTokenRows` | apps/api/src/payments/payments.service.ts:96-209 | The row with the token is updated, or a new last one created; default flags change exactly as asked |
| `Payments.SetWalletKeepsOneDefault` | apps/api/src/payments/payments.service.ts:384-432 | The user has the wallet as the one default method, and no row changes user or gateway |
| `Payments.ExchangeKeepsOneDefault` | apps/api/src/payments/payments.service.ts:96-209 | Exchanging a token keeps at most one default method per user, and no row changes user or gateway |
| `Sessions.RunKeepsInvariant` | apps/api/src/sessions/sessions.service.ts:120-220 | Every enabled run keeps statuses on the graph, a session with a transaction id active or completed, and money, payment and status in agreement |
| `Sessions.LifecycleIsFollowed` | apps/api/src/sessions/sessions.service.ts:60-67 | Every status that any session was ever given follows the lifecycle graph, and nothing follows a final one |
| `Sessions.HistoryOnlyGrows` | apps/api/src/sessions/sessions.service.ts:589-615 | No step forgets a status or changes one without recording it |
| `Sessions.FinishedSessionsAreFrozen` | apps/api/src/ocpp/ocpp.transactions.service.ts:151-192 | Once completed, failed or cancelled, a session's row, payment and money are never touched again |
| `SessionMoney.ActivationIsFunded` | apps/api/src/sessions/sessions.service.ts:120-160 | Only a successful start by the owner makes an existing session active, and then the default wallet covers the minimum or, without one, a payment is authorised |
| `SessionMoney.ChargedExactlyWhen` | apps/api/src/sessions/sessions.service.ts:169-220 | A request charges a session if and only if it is a stop by its owner of the active session, not before its start, with a positive cost, where the default wallet covers it and the deduction commits or, without one, there is a payment and the gateway works |
| `SessionMoney.SuccessfulStopCharges` | apps/api/src/sessions/sessions.service.ts:194-217 | A stop without an error charged somebody if and only if the cost is positive and there is a default wallet or a payment; then exactly the cost, to the wallet or through the gateway, and otherwise nothing changed but the session |
| `SessionMoney.UnpaidStopIsFree` | apps/api/src/payments/payments.service.ts:289-293 | A run from a database without sessions that ends in a stop without an error of a session with any given cost that nobody paid |
| `SessionMoney.StopTransactionCapturesNothing` | apps/api/src/ocpp/ocpp.transactions.service.ts:192 | The capture after StopTransaction changes no payment and asks no gateway |
| `SessionMoney.HoldIsSettledExactlyWhen` | apps/api/src/payments/payments.service.ts:282-362 | The hold of a session with a card payment is captured at exactly the cost or given back if and only if what finishes it is a stop with a positive cost and no default wallet that the gateway captures, or a cancellation or failure that it refunds; otherwise the whole hold stays in every later run |
| `SessionMoney.UnpricedHoldsAreStranded` | apps/api/src/payments/payments.service.ts:285-287 | Without another writer of costs, every completed session with a card payment keeps its authorisation and the whole hold, in every later run |
| `SessionMoney.FreeStopStrandsTheHold` | apps/api/src/sessions/sessions.service.ts:212-216 | Storing a card through Apple Pay, then creating, starting and stopping a session, without an error, leads there |
| `SessionMoney.WalletPays` | apps/api/src/wallet/wallet.service.ts:194-243 | A session's deduction is paid if and only if it is positive, covered and committed; otherwise at most an empty wallet is created |
| `Sessions.ChargedAtMostOnce` | apps/api/src/sessions/sessions.service.ts:194-217 | At most one capture attempt or wallet payment per session, and only when completed |
| `Sessions.RefundsAreExact` | apps/api/src/payments/payments.service.ts:263-362 | No payment is both captured and refunded, none is authorised again, and every refund asks for what the gateway holds |
| `Sessions.PaymentsAreConsistent` | apps/api/src/payments/payments.service.ts:471-553 | Payments keep the gateway of their stored method and the transaction id they need; at most one default method per user |
| `Sessions.StopTransactionNeedsActive` | apps/api/src/ocpp/ocpp.transactions.service.ts:151-186 | StopTransaction keeps to the graph if and only if the session is active or completed |
| `SessionRequests.CreatesExactlyWhen` | apps/api/src/sessions/sessions.service.ts:84-117 | A pending session without money is created if and only if the user exists, the vehicle is the user's and the connector exists; the first failing check is reported |
| `SessionRequests.TransitionsExactlyAlongEdges` | apps/api/src/sessions/sessions.service.ts:60-67 | A transition takes place if and only if it is one of six edges, and otherwise changes nothing |
| `SessionRequests.StartsExactlyWhen` | apps/api/src/sessions/sessions.service.ts:120-166 | A start succeeds if and only if the session is pending or authorised and can be funded: by a default wallet with the minimum from the environment or 1000, or by an authorisation |
| `SessionRequests.StopsExactlyWhen` | apps/api/src/sessions/sessions.service.ts:169-187 | A stop completes a session if and only if it is active and does not end before its start, and otherwise changes nothing |
| `SessionRequests.StrangersChangeNothing` | apps/api/src/sessions/sessions.service.ts:572-586 | Only the owner starts or stops a session |
| `SessionRequests.FindsNewest` | apps/api/src/ocpp/ocpp.transactions.service.ts:236-254 | The lookup finds row k if and only if it has the transaction id and a connector of the charge point and no later row has both; it finds none if and only if no row has both |
| `SessionRequests.StartTransactionCreates` | apps/api/src/ocpp/ocpp.transactions.service.ts:71-127 | An active session of the tag's user on the connector, under the next id, is created if and only if both are known |
| `SessionRequests.StopReachesItsSession` | apps/api/src/ocpp/ocpp.transactions.service.ts:135-195 | Whatever happens between, a stop with the id that was handed out, from the connector's charge point, completes that session and changes no other, for the bill of its readings or nothing without a tariff; from any other charge point it changes nothing |
| `SessionRequests.FreshRunsAreOk` | apps/api/src/ocpp/ocpp.transactions.service.ts:285-290 | In every run ids stay below the allocator and on one session each, as that law needs |
| `SessionMoney.NothingIsChargedByItself` | apps/api/src/ocpp/ocpp.transactions.service.ts:177-192 | Without another writer of costs, no run captures or deducts anything for any session |
| `SessionMoney.WrittenCostIsCharged` | apps/api/src/sessions/sessions.service.ts:212-217 | The bound of one charge is reached: for every positive cost, a run on one card in which it is captured (when exactly a cost is charged is the statement above) |
| `SessionMoney.SwitchingToTheWalletStrandsTheHold` | apps/api/src/sessions/sessions.service.ts:194-210 | One of the cases of a stranded hold: after a switch to a wallet that covers the cost, the stop is paid from it, recording that fails, and the card's hold stays in every later run |
| `SessionMoney.SwitchIsReached` | apps/api/src/payments/payments.service.ts:384-432 | A run from a database without sessions that reaches such a switch, for every positive cost that the wallet covers |
| `SessionMoney.WrittenBillKeepsUpWithLiveFigures` | apps/api/src/ocpp/ocpp.transactions.service.ts:155-186 | StopTransaction writes the bill of the session's readings from its start, and on a tariff whose idling is no dearer than charging that is at least every earlier live figure less 1 |
| `WalletSessions.DeductionsAreSessionCosts` | apps/api/src/sessions/sessions.service.ts:197-210 | Over every run in which nothing but stops deducts from a user's wallet, the deductions that its log gained are the costs of the user's sessions that were paid from it |
| `Sessions.DeductIsUndisturbed` | apps/api/src/sessions/sessions.service.ts:199-203 | What a stop deducts is what one undisturbed request of the wallet ledger does |
| `Sessions.ChargingBackend.constructor` | apps/api/src/ocpp/ocpp.transactions.service.ts:55 | Starts without sessions and with a positive transaction id |
| `Sessions.ChargingBackend.CreateSession` | apps/api/src/sessions/sessions.service.ts:84-117 | Appends one pending session with its vehicle and connector, or changes nothing: the user must exist, the vehicle be the user's own and the connector exist, checked in that order |
| `Sessions.ChargingBackend.TransitionSessionState` | apps/api/src/sessions/sessions.service.ts:589-615 | Refuses what the graph forbids, and refunds what a cancelled or failed session paid |
| `Sessions.ChargingBackend.StartSession` | apps/api/src/sessions/sessions.service.ts:120-166 | Tables and error after a start, step by step, equal those of the run's step |
| `Sessions.ChargingBackend.StopSession` | apps/api/src/sessions/sessions.service.ts:169-220 | Tables and error after a stop equal those of the run's step |
| `Sessions.ChargingBackend.PayFromWallet` | apps/api/src/sessions/sessions.service.ts:355-390 | Deducts and records the payment; a second payment row is refused after the deduction |
| `Sessions.ChargingBackend.PreAuthorizeForSession` | apps/api/src/payments/payments.service.ts:212-279 | The row update in place equals the authorisation that the proofs are about, and no other session changes |
| `Sessions.ChargingBackend.PreAuthorizeForGateway` | apps/api/src/payments/payments.service.ts:435-468 | A card authorisation holds the amount and returns an id, an Idram one only looks at the balance |
| `Sessions.ChargingBackend.CaptureForSession` | apps/api/src/payments/payments.service.ts:282-338 | The row update in place equals the capture that the proofs are about |
| `Sessions.ChargingBackend.CaptureForGateway` | apps/api/src/payments/payments.service.ts:471-509 | Which errors come before the gateway is asked, and what asking does to what it holds |
| `Sessions.ChargingBackend.RefundForSession` | apps/api/src/payments/payments.service.ts:341-362 | The row update in place equals the refund that the proofs are about |
| `Sessions.ChargingBackend.RefundForGateway` | apps/api/src/payments/payments.service.ts:512-553 | When a refund is refused, needs no call, or asks the gateway |
| `Sessions.ChargingBackend.HandleStartTransaction` | apps/api/src/ocpp/ocpp.transactions.service.ts:71-127 | Allocates the next id and creates an active session, or answers invalid and changes nothing |
| `Sessions.ChargingBackend.HandleStopTransaction` | apps/api/src/ocpp/ocpp.transactions.service.ts:135-195 | Completes the newest session with the id unless it is completed, prices it from its meter readings and the valid tariff (0 without one), and shrugs off a failed capture |
| `Sessions.ChargingBackend.SetWalletAsPaymentMethod` | apps/api/src/payments/payments.service.ts:384-432 | The three row updates in place equal the specification |
| `Sessions.ChargingBackend.ExchangePaymentToken` | apps/api/src/payments/payments.service.ts:96-209 | The row updates in place equal the specification, for Apple Pay and Google Pay alike |

## Left out

- StationCache.EveryReadIsFresh: coordinates have at most six decimals and operator ids no comma (the filter parser guarantees the latter); requests run one at a time, and invalidation finds and deletes every key, because a failed delete is reported to the caller and leaves stale entries.
- StationCache.ConnectorsService.UpdateConnectorStatus: nothing is claimed of the connector's own cache entry, which no modelled query reads and which stays behind when a later write of it fails.
- Wallets.LedgerIsSound: each transaction is atomic, as the service's own comments assume; the code sets no isolation level.
- Wallets.WalletService.ChargeGateway: the gateways themselves only accept or decline.
- WalletHistory.FollowCursor: rows have strictly increasing creation times, since the query orders by creation time alone.
- RemoteStart.RemoteStartService.RemoteStartTransaction: the clock never goes back, UUIDs are new, and nothing runs between the attempts of one call; a lifetime beyond the range of JavaScript dates is not modelled. The delay between attempts and the timeout of a call are checked and not waited for.
- TransactionIds.IdsAreUnique: one process run; a process started again could hand out ids of the last one if more than one id a second had been used.
- Sessions.RunKeepsInvariant: requests on one session run one at a time, because status checks use a record read earlier; sessions with a transaction id are never cancelled or failed, because no code path does so.
- SessionMoney.UnpricedHoldsAreStranded: RecordCost, the other writer of costs in the runs, writes to sessions that are active; seed data that inserts finished sessions with a cost is not a step, and no request touches those.
- SessionMoney.NothingIsChargedByItself: follows the services, which leave sessions started over REST without a cost, although documentation and tests describe captures after them.
- Sessions.ChargingBackend.HandleStopTransaction: the energy and peak-power columns, which nothing modelled reads, are not written; which tariff is valid at the stop is a parameter, as are the readings.
- Billing.TotalWithinThreeHalves: JavaScript numbers are reals, so floating-point error is not modelled.
- Billing.RunningBillIsSteady: one tariff for the whole session; the choice of the plan that is valid at an instant is not modelled, nor is the live figure of 0 that is broadcast when pricing fails.
- The network: gateway, mail, push and Open Charge Map clients, and the charge-point connection registry; gateways accept or decline, and charge points answer, as parameters say.
- Prisma, Redis and PostGIS internals: distances, text matching and scores are uninterpreted functions of a station and a place or a text, ties between equally ranked stations are broken deterministically, JSON round trips are the identity, and unordered first-row lookups take the oldest row.
- Writers of reviews, pricing and imported data, which do not invalidate the cache: that data is held fixed.
- Overflow of 32-bit database columns, and failing session and payment writes outside the wallet and the StartTransaction handlers.
- HTTP controllers, validation decorators, authentication, receipts, notifications (which never fail their caller), mobile screens, favorites, vehicles, reviews, reports and confidence decay.
- Parsing of timestamps, numbers and letter case, and which characters are white space: parameters. Strings are sequences of characters, and sorting uses their order; only that equal collections sort alike matters.
- Payload checks of OCPP messages and the lookup of connectors and users behind them: parameters.
- The pre-authorisation amount that a caller may pass in: no caller does.
