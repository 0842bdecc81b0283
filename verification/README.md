# The treasury pipeline of the Sputnik v2 API, modelled in Dafny

The repository indexes the DAOs of a Sputnik factory on NEAR. Receipts arrive on a Redis stream; workers handle
every action of a receipt once, write treasury records, and record an error for what failed; resolvers replay the
errors. The records live in one DynamoDB table, next to notifications, drafts and more, and the API derives daily
balances from them. This project models that pipeline and the stores around it, and proves what they are built to
guarantee, for every input and every interleaving.

| file | what it holds |
|---|---|
| `Keys.dfy` | the string keys of the table and what they determine |
| `Receipts.dfy` | receipt entries, the actions cast from them, the treasury records an action stands for |
| `Stores.dfy` | ledger, treasury records and the two error stores; their invariant; every write keeps it |
| `Protocol.dfy` | workers and resolvers as a state machine that switches at every await, with rejections and crashes |
| `Draining.dfy` | when the protocol can drain: a run that empties the stream and resolves every error |
| `Accounting.dfy`, `Sums.dfy` | exactly-once accounting over the reachable states |
| `Handling.dfy`, `Receiving.dfy` | handling actions, and the loop over a receipt's actions, as functions of the stores and of what the awaits answer |
| `Following.dfy` | these functions are runs of the state machine |
| `Processor.dfy` | the same code as loops over an object's stores, equal to those functions |
| `ErrorTracker.dfy` | error items, the list of open ids beside them, and the rows in Postgres |
| `DailyBalance.dfy` | sort, sum per day and fill, against a sum that knows no order |
| `Treasury.dfy` | from the drained stream to the reported balance |
| `Money.dfy` | the same over receipts: ledger, records, totals and balances against what the receipts themselves say |
| `Codec.dfy` | the encoder and decoder of stored items |
| `Batch.dfy`, `Paging.dfy`, `Table.dfy` | batch writes, range queries and the two generators, put-or-merge, deleting while paging |
| `Notifications.dfy`, `Lists.dfy` | the unread and unarchived id lists beside the notifications |
| `Permissions.dfy`, `Drafts.dfy` | account permissions, and the drafts kept in Mongo and in Dynamo |
| `Aggregator.dfy` | the in-progress flags among overlapping runs |
| `Chunks.dfy` | loading a contract's list chunk by chunk |

`dafny verify dfyconfig.toml` checks everything.

## What turned out false of the code

Where the code does not keep a law that its shape or its tests promise, the law is proved with the exact condition
under which it holds, and a concrete input shows that it fails.

- **Paging by type loses what lies behind the first page, or throws there.** From the second page on,
  `paginateAllItemsByType` passes the table name in the position of the id prefix
  (`libs/dynamodb/src/dynamodb.service.ts:506-513`), so the later queries look for ids that start with the table name.
  `Paging.ByTypeIsComplete` gives the exact condition, `Paging.SecondPageIsLost` and `Paging.LastPageIsRefused` are
  inputs. Deleting by type (`Table.DynamoTable.DeleteByType`) and the daily balances read through it;
  `Paging.YieldsWholeTypeExactly` says when the deleting removes all of the type, which it may do even when it throws.
  Paging by a fixed query (`paginateAllItems`) is complete: `Paging.WalkIsComplete`. DynamoDB may refuse a cursor that
  does not match the key condition or go on behind it; `strict` stands for either.
- **A day that closes at zero is reported at the balance before it** (`libs/utils/src/index.ts:377`):
  `DailyBalance.ReportedIsSum` and `DailyBalance.BalancesAreSums` are exact, `DailyBalance.ZeroIsForgotten` is an input.
- **A payment from one DAO to another is recorded for the sender only**, and a payment of a DAO to itself as income:
  `Accounting.RecordShowsChange` is exact for one action, `Money.RecordsShowReceipts` for the sum of all records of
  a DAO against all receipts, `Accounting.IncomeFromDaoIsMissed` is an input.
- **A ledger read that rejects lets an action be handled again**, with other results: `Handling.HandleTwiceExactly`
  is exact for every list of actions, `Handling.AgainDiffers` gives handler results that show the difference.
- **Token records need receipt ids without dashes** to have keys of their own (`Keys.TokenDepositIdInjective`);
  `Keys.TokenIdsClashExactly` says which pairs of receipt ids can clash, `Keys.TokenDepositIdCollides` is an input.
  Receipt ids are base58 hashes, so they have no dash. The prefix of a token's records
  also selects others: `Keys.TokenPrefixSelects` is exact, `Paging.ForeignTokenIsRead` an input.
- **A table of rows does not survive the item encoder**: an array directly in an array is cut down to two cells
  (`Codec.RoundTrip` is exact, `Codec.RowsAreCut` an input), and encoding a shorter one twice gives something else
  (`Codec.NormalizeIdempotent` is exact, `Codec.ShortRowsChange` an input). Retried batch puts do encode twice:
  `Batch.BatchConservesExactly` and `Codec.BatchPutsConserveExactly` are exact for every batch.
- **An error that comes back keeps its resolved status in Postgres**: `ErrorTracker.RowsAgreeExactly`, with
  `ErrorTracker.ReopenedRowStaysResolved` as input.
- **Archive-all empties the unarchived list but archives the unread notifications only**:
  `Notifications.ArchiveAllExactly`, with `Notifications.ArchiveAllForgets` as input.
- **A close event with the wrong DAO closes a draft in Mongo only**: `Drafts.CloseEventExactly`, with
  `Drafts.WrongDaoClosesMongoOnly` as input.
- **The statistics' flag does not exclude**: a run that fails at clearing the cache drops the flag of the next one.
  `Aggregator.MutualExclusion` is exact for every run and every flag, `Aggregator.ExclusiveExactly` shows that every
  other flag excludes in all runs, `Aggregator.StatsOverlap` is a run.
- **The stream and the errors do not always drain**: an entry that cannot be parsed, or one action whose amounts cannot
  be read, prevents it for ever; without them some run drains all. `Draining.DrainsExactly` is exact, and
  `Money.DrainsByReceipts` says it of the receipts.

## Model

| member | source | states |
|---|---|---|
| Keys.DecimalInjective | libs/dao-funds/src/dao-funds-receipt.service.ts:21 | equal renderings of numbers in a template literal come from equal numbers |
| Keys.DecimalReadsBack | libs/dao-funds/src/dao-funds-receipt.service.ts:21 | read as a decimal, the rendering of a number is that number |
| Keys.ActionIdInjective | libs/transaction-handler/src/handled-receipt-action-dynamo.service.ts:23-29 | a ledger or error id determines receipt and position, for any receipt-id string |
| Keys.DepositIdInjective | libs/dao-funds/src/dao-funds-receipt.service.ts:18-36 | a deposit id determines timestamp, receipt and position, for any receipt-id string |
| Keys.TokenDepositIdInjective | libs/dao-funds/src/dao-funds-token-receipt.service.ts:18-38 | a token record id determines token, timestamp, receipt and position if receipt ids have no dash |
| Keys.TokenDepositIdCollides | libs/dao-funds/src/dao-funds-token-receipt.service.ts:18-38 | with a dash in a receipt id, two different token records share an id |
| Keys.TokenIdsClashExactly | libs/dao-funds/src/dao-funds-token-receipt.service.ts:18-38 | for any two receipt ids, equal ones included: records of them can share a key exactly if one id ends in the other after a dash and, before it, a number that stands alone or after a dash |
| Keys.TokenPrefixSelects | libs/dao-funds/src/dao-funds-token-receipt.service.ts:106-113 | the id prefix of a token selects a record exactly if it is of that token, of a token that continues its name with a dash, or of one whose name with the start of the rest of the record id is the asked one |
| Keys.EntityIdInjective | libs/utils/src/index.ts:133-138 | an entity id determines type and id, as no type name has a colon |
| Keys.PrefixSelectsType | libs/dynamodb/src/dynamodb.service.ts:370-390 | the prefix of a type selects exactly the ids of that type with the id prefix, and none of another |
| Receipts.TrimCastsAlike | apps/indexer-processor/src/types/receipt-entry.ts:44-85 | the trimmed receipt that an error stores casts to the same actions as the original, and these show who did what to whom, when, in which transaction, and whether it failed, as the original receipt says |
| Receipts.TwinsCastAlike | apps/indexer-processor/src/types/receipt-entry.ts:44-85 | receipts with one trimmed form cast to the same actions |
| Receipts.TrimForgetsExactly | apps/indexer-processor/src/types/receipt-entry.ts:44-59 | receipts have one trimmed form exactly if they differ in nothing but other properties of their args |
| Receipts.TrimIdempotent | apps/indexer-processor/src/types/receipt-entry.ts:44-59 | trimming a trimmed receipt changes nothing, so a replayed receipt can be stored again |
| Receipts.RestoredCastsAlikeExactly | libs/dynamodb/src/dynamodb.service.ts:62-90 | trimmed, stored and read back, a receipt casts to the very same actions exactly if the item codec keeps all their args |
| Receipts.ReplayedKeepsRecords | apps/indexer-processor/src/types/receipt-entry.ts:44-85 | whatever of the args the item codec cut from the receipt an error stored, the replayed action has the same ledger row and the same treasury records by key and amount, or throws alike |
| Receipts.FormCasts | libs/error-tracker/src/error-tracker-dynamo.service.ts:16-35 | what either error store gives back casts to as many actions, each the original one up to its args |
| Receipts.KeyDeterminesSource | libs/dao-funds/src/dao-funds-receipt.service.ts:18-36 | a treasury record's key tells its kind and the action it came from |
| Receipts.LedgerKeyDeterminesSource | libs/transaction-handler/src/handled-receipt-action-dynamo.service.ts:23-29 | two actions share a ledger row only if they have the same receipt and position |
| Stores.AppendKeeps | apps/indexer-processor/src/redis/redis.service.ts:26-62 | a new entry keeps the invariant of the stores and undoes nothing |
| Stores.SaveFundsKeeps | libs/transaction-handler/src/transaction-action-handler.service.ts:1397-1465 | storing an action's treasury record keeps every record traced to a known action under its own key |
| Stores.SaveLedgerKeeps | libs/transaction-handler/src/handled-receipt-action-dynamo.service.ts:17-21 | a ledger row written after both treasury saves stands for an action whose records are stored, and makes it done |
| Stores.CreateDynamoKeeps | libs/error-tracker/src/error-tracker-dynamo.service.ts:16-35 | (re)opening an error in Dynamo, which keeps the receipt as the item codec gives it back, keeps the invariant and leaves its receipt tracked |
| Stores.CreatePostgresKeeps | libs/error-tracker/src/error-tracker.service.ts:25-28 | the row in Postgres, whose old status survives, leaves the receipt tracked or done |
| Stores.MarkDynamoKeeps | libs/error-tracker/src/error-tracker.service.ts:54-62 | marking an error resolved in Dynamo keeps the invariant, if the receipt's actions are done |
| Stores.MarkPostgresKeeps | libs/error-tracker/src/error-tracker.service.ts:54-62 | the same in Postgres, where a missing row is not created |
| Stores.RemoveKeeps | apps/indexer-processor/src/redis/redis.service.ts:46-56 | deleting an entry keeps the invariant if its receipt is done or tracked in both error stores |
| Stores.TrackedStays | libs/error-tracker/src/error-tracker.service.ts:54-62 | an open error is given up only when its receipt is done |
| Protocol.PerformKeeps | libs/transaction-handler/src/transaction-action-handler.service.ts:185-246 | whatever await a process is at, its write keeps the invariant and undoes nothing |
| Protocol.AdvanceFine | apps/indexer-processor/src/indexer-processor.service.ts:39-81 | after any await that succeeds, the process has what its next step relies on |
| Protocol.FineStays | apps/indexer-processor/src/indexer-processor-error-handler.service.ts:74-114 | no step of another process disturbs what a process relies on |
| Protocol.EventKeeps | apps/indexer-processor/src/indexer-processor.service.ts:39-81 | every event, a rejection after its write took effect and a crash included, keeps the invariant of the system |
| Protocol.NoReceiptLost | apps/indexer-processor/src/indexer-processor-error-handler.service.ts:40-56 | in every reachable state an appended receipt is in the stream, or all done, or carried by an open error in both stores |
| Protocol.ResolvedMeansDone | apps/indexer-processor/src/indexer-processor-error-handler.service.ts:74-114 | a resolved error in either store holds an appended receipt as that store keeps it, all of whose actions are done, now and in every later state |
| Protocol.ResolvedRowsStay | libs/error-tracker/src/error-tracker.service.ts:25-62 | an error that is resolved in Postgres stays so in every later state, even if it is recorded again |
| Protocol.DrainedMeansDone | apps/indexer-processor/src/redis/redis.service.ts:46-56 | with the stream empty and no open error in one of the stores, every action of every receipt is done |
| Draining.DrainsExactly | apps/indexer-processor/src/indexer-processor-error-handler.service.ts:58-114 | from any reachable state some run of workers and resolvers drains the stream and both error stores, exactly if every entry can be parsed and the amounts of every action that did not fail can be read |
| Accounting.SameKeySameAction | libs/dao-funds/src/dao-funds-receipt.service.ts:18-36 | two known actions whose records share a key are one action |
| Accounting.DoneHasItsRecord | libs/transaction-handler/src/transaction-action-handler.service.ts:1397-1465 | an eligible action that is done has its own record stored under its key, up to the args, which a replay may have lost |
| Accounting.RecordHasAction | libs/transaction-handler/src/transaction-action-handler.service.ts:1397-1465 | every stored record is, up to its args, that of an eligible action that did not fail |
| Accounting.EveryWeightAgrees | libs/transaction-handler/src/transaction-action-handler.service.ts:1397-1465 | once drained, whatever is read off a record but its args sums up over the records to what it sums up to over the eligible actions |
| Accounting.ExactlyOnce | libs/transaction-handler/src/transaction-action-handler.service.ts:185-246 | once drained, records and eligible actions stand one to one: each action has its own record up to its args, their number is the same, and so is the signed total for every DAO |
| Accounting.RecordsAreWhole | libs/error-tracker/src/error-tracker-dynamo.service.ts:16-35 | if the item codec keeps the args of all actions, each record is its action's whole record, args included |
| Accounting.EligibleMeans | libs/transaction-handler/src/transaction-action-handler.service.ts:1397-1465 | a record is made exactly for a positive amount, moved by an action that did not fail, to or from a DAO of the factory |
| Accounting.RecordShowsChange | libs/transaction-handler/src/transaction-action-handler.service.ts:1407-1425 | a DAO's signed record shows what the action changed exactly if no DAO of the factory pays it |
| Accounting.IncomeFromDaoIsMissed | libs/transaction-handler/src/transaction-action-handler.service.ts:1407-1425 | a transfer between two DAOs of the factory: the receiver gains, its records show nothing |
| Accounting.RecordsShowTheMoney | libs/transaction-handler/src/transaction-action-handler.service.ts:1397-1465 | once drained, the records of any DAO sum up to what all actions that did not fail brought and took, plus its payments to itself, minus its income from other DAOs; so they show the money exactly if these cancel out |
| Money.RecordsShowReceipts | libs/transaction-handler/src/transaction-action-handler.service.ts:1397-1465 | once drained, the records of any DAO sum up to what the moves of all receipts in the log brought it and took from it, read off the receipts alone, plus its payments to itself, minus its income from other DAOs; so they show the money exactly if these cancel out |
| Money.RecordsAreOfReceipts | libs/transaction-handler/src/transaction-action-handler.service.ts:1397-1465 | once drained, the records of a kind are exactly one for each move of a receipt to or from a DAO, under a key spelled out from the receipt, with payer, recipient, token, amount, method, transaction and time of the receipt |
| Money.LedgerIsOfReceipts | libs/transaction-handler/src/handled-receipt-action-dynamo.service.ts:17-29 | once drained, the ledger has a row for every position of every receipt whose transaction did not fail, in the partition of the transaction, and no other |
| Money.DrainsByReceipts | libs/transaction-handler/src/transaction-action-handler.service.ts:1397-1465 | some run drains everything exactly if every entry can be parsed and no amount in a receipt whose transaction did not fail makes the saving throw |
| Handling.HandledHashesComplete | libs/transaction-handler/src/transaction-action-handler.service.ts:150-183 | no returned hash has an unhandled action exactly when no other transaction straddles the failed action |
| Handling.ContiguousIsComplete | libs/transaction-handler/src/transaction-action-handler.service.ts:150-183 | so it is whenever each transaction's actions are contiguous |
| Handling.SavedFormTruthy | libs/transaction-handler/src/transaction-action-handler.service.ts:150-183 | the truthy results survive storing, where undefined becomes null |
| Handling.HandleKeeps | libs/transaction-handler/src/transaction-action-handler.service.ts:185-246 | for any answers, handling a known action keeps the invariant and undoes nothing; returning, it leaves the action done with the truthy results of its row |
| Handling.HandleReturnsExactly | libs/transaction-handler/src/transaction-action-handler.service.ts:185-246 | it returns exactly if the receiver is not barred, and the transaction failed, or the row is read, or both amounts can be read and every await after the ledger check passes, counted: the handlers, a save for each record, the row |
| Handling.HandleAllKeeps | libs/transaction-handler/src/transaction-action-handler.service.ts:150-183 | for any answers, a list is handled up to the first failure: those actions are done, and the results are those of their rows in order |
| Handling.HandleTwiceExactly | libs/dynamodb/src/dynamodb.service.ts:336-350 | a second run gives the same truthy results whatever the handlers return, exactly if every ledger read of an action that did not fail is answered, or it does not succeed |
| Handling.AgainDiffers | libs/dynamodb/src/dynamodb.service.ts:336-350 | with such a read rejected, a run over done actions that succeeds returns at least as many results as the handlers return anew, and these can be any number |
| Receiving.HandleEachEnds | apps/indexer-processor/src/indexer-processor.service.ts:50-74 | with all awaits passing, the loop stops at the first action that is barred or unreadable, if there is one; with at most one rejection and no such action, it comes to its end or all awaits after it pass |
| Following.HandleIsRun | libs/transaction-handler/src/transaction-action-handler.service.ts:185-246 | whatever the awaits answer, handling an action is a run of the protocol, from the ledger check to the next action or to the catch, with the same stores |
| Following.LoopIsRun | apps/indexer-processor/src/indexer-processor.service.ts:50-74 | so is the loop over the actions of a receipt, for workers and resolvers |
| Following.FailureIsRun | apps/indexer-processor/src/indexer-processor-error-handler.service.ts:40-56 | a worker that catches a throw records the error in both stores, deletes the entry and goes on with its batch, by a run of the protocol |
| Following.FinishIsRun | apps/indexer-processor/src/indexer-processor.service.ts:76-80 | one that has handled all actions deletes the entry and goes on likewise |
| Processor.IndexerProcessor.HandleTransactionAction | libs/transaction-handler/src/transaction-action-handler.service.ts:185-246 | it returns the stored row, nothing for a failed transaction, or what the handlers returned after deposit record, token record and ledger row were written in this order; if it throws, a prefix of these writes was made; a done action is not handled again |
| Processor.IndexerProcessor.SaveFundsRecord | libs/transaction-handler/src/transaction-action-handler.service.ts:1397-1465 | it stores the action's record or nothing; if it succeeds, the record there is to store is stored |
| Processor.IndexerProcessor.HandleTransactionActions | libs/transaction-handler/src/transaction-action-handler.service.ts:150-183 | a prefix is handled in order up to the first failure; the hashes and results are those of that prefix; actions all done give what is stored and change nothing |
| Processor.IndexerProcessor.HandleTwice | libs/transaction-handler/src/transaction-action-handler.service.ts:150-183 | a second successful run over the same actions, whose ledger reads are answered for all actions that did not fail, gives the same truthy results |
| Processor.IndexerProcessor.HandleNewError | apps/indexer-processor/src/indexer-processor-error-handler.service.ts:40-56 | it succeeds exactly if its three awaits pass; then the receipt is recorded in both stores and settled |
| Processor.IndexerProcessor.HandleReceipt | apps/indexer-processor/src/indexer-processor.service.ts:39-81 | it returns true exactly if the loop comes to its end and the awaits around it pass, with all actions done and no error store changed; false exactly if the loop stops and the four awaits after it pass, with the error of the action it stopped at open in Dynamo and its row in Postgres, and all actions before it done; with all awaits passing it returns whether no action is barred or unreadable; with at most one rejection, not of the first, and no such action, it returns or all is done |
| Processor.IndexerProcessor.HandleStream | apps/indexer-processor/src/redis/redis.service.ts:26-62 | the batch is what the stream holds, up to the limit; exactly a prefix of it is deleted, in order, and every deleted entry's receipt is settled; with all awaits passing, that prefix ends at the first entry that is no JSON, and without one it succeeds |
| Processor.IndexerProcessor.ResolveError | apps/indexer-processor/src/indexer-processor-error-handler.service.ts:74-114 | if it returns, every action of the receipt the error names is done, and an open error is resolved in both stores; for an error not resolved yet it returns exactly if the loop comes to its end and the awaits around it pass; with all awaits passing, exactly if the error is there and resolved, or none of its actions is barred or unreadable |
| ErrorTracker.ErrorTrackerService.Create | libs/error-tracker/src/error-tracker.service.ts:25-28 | the item is open with its id listed once, and the row keeps an old status; without a list it throws after the item is saved |
| ErrorTracker.ErrorTrackerService.SetErrorStatus | libs/error-tracker/src/error-tracker.service.ts:54-62 | list, item and row after it; a missing row is not created |
| ErrorTracker.ErrorTrackerService.RemoveOpenErrorId | libs/error-tracker/src/error-tracker-dynamo.service.ts:68-81 | the list without the id |
| ErrorTracker.OpenListStaysExact | libs/error-tracker/src/error-tracker-dynamo.service.ts:55-81 | after any calls the list has the ids of the open items, each once |
| ErrorTracker.RowsAgreeExactly | libs/error-tracker/src/error-tracker.service.ts:25-28 | items and rows go on to agree on the status exactly if a re-created error had no row or an open one |
| ErrorTracker.ReopenedRowStaysResolved | libs/error-tracker/src/error-tracker.service.ts:25-28 | recorded, resolved and recorded again, an error is open in Dynamo and resolved in Postgres |
| ErrorTracker.LastReasonStays | libs/error-tracker/src/error-tracker.service.ts:25-62 | after any calls both stores give the reason of the last call that recorded the error |
| DailyBalance.OrderIsIrrelevant | libs/dao-funds/src/dao-funds-receipt.service.ts:91-135 | any permutation of the receipts, equal timestamps included, gives the same balances |
| DailyBalance.ReportedIsSum | libs/utils/src/index.ts:365-379 | a day's reported value is the sum of all changes so far exactly when that sum is not zero or no day so far closed at anything else |
| DailyBalance.BalancesAreSums | libs/utils/src/index.ts:365-379 | all reported days are such sums exactly when no receipt day closes at zero after an earlier one did not |
| DailyBalance.ZeroIsForgotten | libs/utils/src/index.ts:377 | income and equal spending a day later is reported as if nothing was spent |
| DailyBalance.SumPerDay | libs/dao-funds/src/dao-funds-receipt.service.ts:101-127 | the reduce gives each receipt day its closing balance, and inserts the first day first |
| DailyBalance.GetDays | libs/utils/src/index.ts:354-363 | the start of every day of the range, each once and in order |
| DailyBalance.PatchDailyBalance | libs/utils/src/index.ts:365-379 | from the closing balances to those of every grid day, each the last that was not zero |
| DailyBalance.GetDailyBalance | libs/dao-funds/src/dao-funds-token-receipt.service.ts:100-149 | sort, sum and fill give the balances of the receipts in any order |
| Treasury.ReportedBalanceIsOfActions | libs/dao-funds/src/dao-funds-token-receipt.service.ts:100-149 | for deposits, and for each token: if the later pages fit, collecting does not throw; the days reported are the receipt days and those of the grid; and each reported day shows the signed sum of the selected actions up to that day, exactly when the day is after today, or that sum is not zero, or no day so far closed at anything else |
| Treasury.CollectedKeys | libs/dao-funds/src/dao-funds-receipt.service.ts:91-100 | a complete collection from the DAO's partition is the selected stored records, each once |
| Treasury.SumOfRecordsIsOfActions | libs/dao-funds/src/dao-funds-receipt.service.ts:101-127 | once drained, the selected records of a DAO up to any day, in any order, sum up to the signed sum of their actions up to that day |
| Treasury.SelectedDepositsAreAll | libs/dao-funds/src/dao-funds-receipt.service.ts:91-100 | for deposits that sum is the signed total of all the DAO's deposit actions up to the day |
| Treasury.SelectedTokenAndForeign | libs/dao-funds/src/dao-funds-token-receipt.service.ts:100-113 | for a token it is the signed total of the actions on that token, plus that of the actions on other tokens whose records the prefix selects |
| Money.BalanceShowsReceipts | libs/dao-funds/src/dao-funds-token-receipt.service.ts:100-149 | if the later pages fit, collecting does not throw; a day is reported exactly if a recorded move of a receipt that the query reads falls on it, or it is on the grid from the first such day, or from a year ago, to today; and it is reported at the sum of these moves so far exactly when the day is after today, or that sum is not zero, or it was zero on every day of such a move so far |
| Money.TokenMoneyAndForeign | libs/dao-funds/src/dao-funds-token-receipt.service.ts:100-113 | for a token that sum is the one over the moves of the token, plus the one over the moves of others whose record ids start alike |
| Codec.RoundTrip | libs/dynamodb/src/dynamodb.service.ts:62-90 | decoding an encoded tree gives it back exactly when it has no undefined in arrays or at a filtered level, no placeholder key, and of arrays in arrays only pairs that do not start with the placeholder |
| Codec.PlainRoundTrip | libs/dynamodb/src/dynamodb.service.ts:62-90 | so every tree without undefined, placeholder keys and arrays in arrays comes back |
| Codec.RowsAreCut | libs/utils/src/index.ts:328-345 | a row of three cells in a table does not come back |
| Codec.NormalizeIdempotent | libs/dynamodb/src/dynamodb.service.ts:62-79 | encoding twice is encoding once exactly if, among what is kept, no array directly in an array is shorter than a pair where the filter does not reach, first two cells included, further cells not |
| Codec.PlainSettles | libs/dynamodb/src/dynamodb.service.ts:62-79 | so it is for every tree without arrays in arrays |
| Codec.BatchPutsConserve | libs/dynamodb/src/dynamodb.service.ts:145-193 | batch puts of such items, whose retries encode again, store each item encoded once, whatever is left unprocessed |
| Codec.BatchPutsConserveExactly | libs/dynamodb/src/dynamodb.service.ts:145-193 | any batch of puts is so stored in every run exactly if each item put is such a tree |
| Codec.ShortRowsChange | libs/dynamodb/src/dynamodb.service.ts:62-79 | an empty row in an array: the second encoding writes null cells |
| Codec.StoredIsClean | libs/dynamodb/src/dynamodb.service.ts:62-79 | whatever is stored has no empty key at any depth, an item has no undefined property, and undefined elements of an array, and only they, become null |
| Batch.GetChunks | libs/utils/src/index.ts:294-302 | the chunks in order are the items, all full but the last, none empty |
| Batch.SendKeeps | libs/dynamodb/src/dynamodb.service.ts:156-193 | a request that leaves part of its chunk unprocessed, to be encoded again, keeps count and table right |
| Batch.BatchConserves | libs/dynamodb/src/dynamodb.service.ts:100-193 | for items that encoding twice does not change, whatever is left unprocessed and however the chunks interleave: in the end the table is as if all was encoded and written at once, the count is the number of items, no request has more than 25 |
| Batch.BatchConservesExactly | libs/dynamodb/src/dynamodb.service.ts:100-193 | any batch with distinct keys is so stored in every run exactly if encoding any of its items twice does not change it |
| Paging.WalkIsComplete | libs/dynamodb/src/dynamodb.service.ts:469-486 | paging yields all matching keys once and in order, for any page sizes |
| Paging.DeletingBehindTheCursor | libs/migrations/src/scripts/delete-dao-funds.migration.ts:53-64 | deleting a page leaves every query behind its cursor the same |
| Paging.YieldedHasType | libs/dynamodb/src/dynamodb.service.ts:488-516 | paging by type never yields an item of another type |
| Paging.ByTypeIsComplete | libs/dynamodb/src/dynamodb.service.ts:488-516 | collecting by type gives all that was asked for, in key order, once and nothing else, exactly if the first page is the last, or the second query is accepted and behind the cursor the later prefix matches what the asked one does |
| Paging.WholeTypeIsComplete | libs/dynamodb/src/dynamodb.service.ts:488-516 | for a whole type: exactly if the first page is the last, or the second query is accepted and all that the first page did not reach starts with the later prefix |
| Paging.YieldsWholeTypeExactly | libs/dynamodb/src/dynamodb.service.ts:488-516 | the pages seen before the end, or before the throw, hold all of the type exactly if the first page left nothing of it, or the second query is accepted and all it left starts with the later prefix |
| Paging.LastPageIsRefused | libs/dynamodb/src/dynamodb.service.ts:506-513 | one item on a page of one: the page reports a cursor, and a strict service refuses the second query |
| Paging.SecondPageIsLost | libs/dynamodb/src/dynamodb.service.ts:506-513 | two items on pages of one: the second is not collected |
| Paging.ForeignTokenIsRead | libs/dao-funds/src/dao-funds-token-receipt.service.ts:106-113 | asking for token a also reads a record of token a-b |
| Table.LastWriterWins | libs/dynamodb/src/dynamodb.service.ts:603-615 | after any saves a field, the creation time included, holds what the last save that defined it gave, and one that none defined what it held before |
| Table.SaveAllKeys | libs/dynamodb/src/dynamodb.service.ts:603-615 | the keys stored are the old ones and the saved ones |
| Table.SaveAllTypes | libs/dynamodb/src/dynamodb.service.ts:245-299 | an item's type is that of its first save |
| Table.CreationTime | libs/dynamodb/src/dynamodb.service.ts:550-581 | if no caller defines it, the creation time of a stored item is that of the first save of its key |
| Table.UpdateTime | libs/dynamodb/src/dynamodb.service.ts:550-615 | the update time of a stored item is what the last save of its key gives for it, or the time of that save |
| Table.DynamoTable.SaveItem | libs/dynamodb/src/dynamodb.service.ts:603-615 | put, and merge if the put finds the key taken, saves |
| Table.DynamoTable.WriteChunk | libs/dynamodb/src/dynamodb.service.ts:156-193 | sending again, encoded again, what was left unprocessed writes all as if at once if encoding twice changes nothing, and counts all; it ends |
| Table.DynamoTable.BatchWrite | libs/dynamodb/src/dynamodb.service.ts:100-193 | with the chunks' requests in any order, the table is as if all was written at once, under the same condition; all is counted |
| Table.DynamoTable.DeleteByType | libs/migrations/src/scripts/delete-dao-funds.migration.ts:53-77 | deleting each page before the next query removes exactly the keys that paging by type yields from the table as it was, and nothing else, for any page sizes and unprocessed deletes; nothing of the type is left exactly under the condition of `Paging.YieldsWholeTypeExactly`; it ends, and throws exactly when collecting by type does |
| Table.DynamoTable.DeleteLater | libs/migrations/src/scripts/delete-dao-funds.migration.ts:53-77 | from the second page on, everything behind the cursor that matches the prefix goes |
| Notifications.AccountNotificationService.SetAccountsNotificationIds | libs/notification/src/account-notification-ids-dynamo.service.ts:52-84 | whatever the order of the accounts, each account's lists track its own notifications in their order |
| Notifications.AccountNotificationService.CreateMultiple | libs/notification/src/account-notification.service.ts:39-50 | the notifications are stored and tracked |
| Notifications.AccountNotificationService.UpdateAccountNotification | libs/notification/src/account-notification.service.ts:67-99 | a missing notification is refused; defined fields change, the lists follow the merged item |
| Notifications.AccountNotificationService.ReadAccountNotifications | libs/notification/src/account-notification.service.ts:101-128 | all listed notifications are read and the list is empty; it throws exactly if a listed one is not stored |
| Notifications.AccountNotificationService.ArchiveAccountNotifications | libs/notification/src/account-notification.service.ts:130-157 | the unread ones are archived and the unarchived list is empty |
| Notifications.UnreadListsExact | libs/notification/src/account-notification-ids-dynamo.service.ts:86-128 | after any operations each account's unread list has the ids of its unread notifications, each once, so read-all never throws |
| Notifications.FlagsAreLastGiven | libs/notification/src/account-notification.service.ts:39-157 | after any operations a notification is stored exactly if one was created under its key, and whether it is read, archived and muted is what the last operation that defined that flag gave: a create, an update with the field, a read-all or an archive-all that found it unread |
| Notifications.UpdateTracks | libs/notification/src/account-notification.service.ts:67-99 | after an update that gives isRead, the unread list has the notification exactly if it was given as unread |
| Notifications.ArchiveAllExactly | libs/notification/src/account-notification.service.ts:130-157 | archive-all keeps the unarchived list exact exactly when nothing is unread or everything unarchived is |
| Notifications.ArchiveAllForgets | libs/notification/src/account-notification.service.ts:130-157 | one notification unread, one read: the second stays unarchived and is no longer listed |
| Permissions.PermissionsMean | libs/utils/src/index.ts:226-276 | council is membership in the first role called council, in letters of either case; an action is allowed exactly if a role has a permission for it, on all types or on this one by its label, and is for everyone, or a group that lists the account, or members with at most the balance of the account |
| Permissions.LabelsTellApart | libs/proposal/src/types/proposal-policy-label.ts:1-14 | a permission for one type of proposal and action is none for another |
| Drafts.MongoDraftProposalService.Update | libs/draft-proposal/src/mongo-draft-proposal.service.ts:70-122 | answer and stores after an edit, the old version added to the history |
| Drafts.DynamoDraftProposalService.Update | libs/draft-proposal/src/dynamo-draft-proposal.service.ts:60-110 | answer and item after an edit, the old item added to its history |
| Drafts.MongoDraftProposalService.Delete | libs/draft-proposal/src/mongo-draft-proposal.service.ts:124-159 | a draft that may be deleted goes with its history; a closed one is refused |
| Drafts.DynamoDraftProposalService.Delete | libs/draft-proposal/src/dynamo-draft-proposal.service.ts:112-158 | a draft that may be deleted is archived and kept |
| Drafts.MongoDraftProposalService.Close | libs/draft-proposal/src/mongo-draft-proposal.service.ts:218-252 | closing needs the permission to add; a closed draft keeps its proposal |
| Drafts.DynamoDraftProposalService.Close | libs/draft-proposal/src/dynamo-draft-proposal.service.ts:238-283 | the same on the item |
| Drafts.DraftProposalServiceFacade.Create | libs/draft-proposal/src/draft-proposal-service-facade.ts:53-67 | Mongo, then Dynamo under Mongo's id |
| Drafts.DraftProposalServiceFacade.Update | libs/draft-proposal/src/draft-proposal-service-facade.ts:103-122 | Dynamo first; if it throws, Mongo is untouched |
| Drafts.DraftProposalServiceFacade.CloseInternal | libs/draft-proposal/src/draft-proposal-service-facade.ts:43-51 | both, without a guard |
| Drafts.PerformSame | libs/draft-proposal/src/draft-proposal-service-facade.ts:22-127 | on a draft that both hold, both give one answer and change it in the same way |
| Drafts.PerformKeeps | libs/draft-proposal/src/draft-proposal-service-facade.ts:22-127 | one call, allowed or refused, keeps the stores in agreement |
| Drafts.DualWriteAgreement | libs/draft-proposal/src/draft-proposal-service-facade.ts:22-127 | after any completed calls the drafts in Mongo are the unarchived items in Dynamo, equal in every field and in their edits |
| Drafts.SameAnswers | libs/draft-proposal/src/draft-proposal-service-facade.ts:22-127 | in every such state Mongo answers as Dynamo does, so it never refuses what Dynamo has done |
| Drafts.WhoMayWhat | libs/draft-proposal/src/mongo-draft-proposal.service.ts:70-252 | the proposer and the council may edit, and delete while open; closing takes the permission to add; what is refused changes nothing in either store; a closed draft keeps its proposal |
| Drafts.DraftsTell | libs/draft-proposal/src/mongo-draft-proposal.service.ts:45-263 | after any calls a draft, in either store, tells of the accepted calls on it: proposer and DAO are those of its creation; its edits and its content, in order, are the contents that creation and edits gave; an account is among the viewers exactly if it viewed it, and among the savers exactly if its last call to save it or not to was one to save it, each once; it is closed exactly if something closed it, with the proposal of the last close event, or without one of the first call that closed it |
| Drafts.AnyoneMayView | libs/draft-proposal/src/mongo-draft-proposal.service.ts:161-216 | viewing, saving and not saving are never refused |
| Drafts.ItemsLast | libs/draft-proposal/src/dynamo-draft-proposal.service.ts:34-301 | over any run an item stays, keeps DAO and proposer, only adds to its history, and stays archived or closed |
| Drafts.CloseEventExactly | libs/draft-proposal/src/mongo-draft-proposal.service.ts:254-263 | a close event keeps agreement exactly if it names the draft's DAO, or changes nothing |
| Drafts.WrongDaoClosesMongoOnly | libs/draft-proposal/src/mongo-draft-proposal.service.ts:254-263 | a new draft and a close event with another DAO: the stores disagree |
| Aggregator.AggregatorState.StartAggregation | apps/aggregator/src/aggregator-state/aggregator-state.ts:7-14 | the flag is set; one that was set keeps its timestamp |
| Aggregator.AggregatorState.StopAggregation | apps/aggregator/src/aggregator-state/aggregator-state.ts:20-24 | the flag is down, the entry stays |
| Aggregator.AggregatorService.Begin | apps/aggregator/src/aggregator.service.ts:137-216 | check and start are one step; a run that finds the flag set ends |
| Aggregator.AggregatorService.Reject | apps/aggregator/src/aggregator.service.ts:107-216 | a rejection drops the flag at once, or on its way to the catch, as the job has it |
| Aggregator.MutualExclusion | apps/aggregator/src/aggregator.service.ts:107-216 | in every interleaving of any runs failing anywhere, and for every flag: in all states passed the flag is set exactly when one run is active and never two are, exactly if no run that failed at clearing the cache comes to its catch while another run on the flag is active |
| Aggregator.StatsOverlap | apps/aggregator/src/aggregator.service.ts:177-190 | a run of statistics aggregations only, in which two are active |
| Aggregator.ExclusiveExactly | apps/aggregator/src/aggregator.service.ts:107-216 | a flag excludes in all reachable states exactly if it is not the statistics' |
| Aggregator.NamesTellApart | apps/aggregator/src/aggregator.service.ts:137-193 | two jobs share a flag exactly if they are one, or a DAO is called `status` or `stats` |
| Aggregator.AcceptedExactly | apps/aggregator/src/aggregator.service.ts:137-216 | as long as no flag was taken down, a job is accepted, whatever else is running, exactly if no run that shares its flag has it; refused, it changes nothing |
| Aggregator.RejectedRunHoldsOn | apps/aggregator/src/aggregator.service.ts:107-216 | when an await of a run rejects, the job of one DAO drops its flag at once, and any other has it until its catch, which drops it |
| Aggregator.RunsItsCourse | apps/aggregator/src/aggregator.service.ts:137-216 | a job on its own whose awaits all resolve has its flag for three of them (prices), two (statuses), one (statistics) or four (one DAO), and no longer |
| Chunks.ChunksCover | libs/sputnikdao/src/sputnik.service.ts:52-76 | the computed count of chunks is the least that covers the last id |
| Chunks.LoadByChunks | libs/sputnikdao/src/sputnik.service.ts:94-115 | everything up to the last id is loaded once and in order |
| Chunks.GetNfts | libs/token/src/nft-token.service.ts:125-154 | the whole list after one call more than it has full chunks, or exactly what came before the call that failed |

## Assumptions about the surroundings

- Receipt ids name receipts, and (receipt, position) is the primary key of the indexer's actions
  (`libs/near-indexer/src/entities/receipt-action.entity.ts:10-16`); whether a transaction failed, and what a receipt
  returned, is settled when its receipt arrives.
- A read may reject; the ledger check takes a rejected read for "not found", as `getItemById` swallows the rejection
  (`libs/dynamodb/src/dynamodb.service.ts:336-350`), so an action may be handled again, which the keys make harmless.
- A batch has distinct keys, as the service refuses others.
- A new draft gets an id that was never used.

## Left out

- The contract handlers, the fetch of a transaction's status, RPC calls, OpenSearch, events, caches and logs: each is
  an await that may reject; the handlers also return a list of results.
- Handler effects on other entities: running a handler twice is not shown to be harmless, only the treasury records are.
- Amounts: strings that BigInt reads are numbers, absent, or unreadable; other spellings of a number are not kept apart.
- `Protocol.NoReceiptLost`: entries that are no JSON carry no receipt and are not counted; the worker stops at them.
- `Processor.IndexerProcessor.HandleStream`: one pass; the timer that starts the next one, and passes its interval as
  the number of entries (`apps/indexer-processor/src/redis/redis.service.ts:60`), is not modelled. In the protocol a
  worker may hold any entries of the stream, in any order.
- `Accounting.ExactlyOnce`: the args kept in a record are not promised, as a replayed receipt may have lost rows in
  them; `Accounting.RecordsAreWhole` promises them if the item codec keeps them.
- `Draining.DrainsExactly`: that some run drains; that a scheduler comes to it is not promised.
- Timestamps of batch puts, which the first request sets and retries keep, are part of the abstract encoding of
  `Table.DynamoTable.BatchWrite`.
- Concurrent updates of the list of open ids: the protocol uses the status of the error itself; the list is proved for
  one call after another.
- Daily balances: the date a year ago is a parameter, and days are UTC days.
- Filter expressions, `_batchGet` (its retried result is dropped) and counting queries.
- Numbers and booleans in the item codec are opaque, and values that are neither JSON nor undefined have no place in it.
- Notifications: expiry, operations that stop midway, and the branch that reads from Postgres.
- Drafts: calls that stop between the two stores, reply counters, timestamps, comments, and lists and searches.
- Aggregator: expired proposals, which never set their flag, and the legacy aggregations, whose start and stop do not
  belong to one run.
- Growth percentages, other statistics, time zones, passwords and one-time codes, SQL.
