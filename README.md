# Bank reconciliation service, modelled in Dafny

This project models the reconciliation core of amartha-recon-service, a Go
HTTP service. The service is given a system transaction file and a bank
statement file, both as CSV, plus a date window. For each bank code it works
out:

- how many system transactions found a bank row with the same key and the same amount;
- how many did not;
- the total absolute amount discrepancy over the pairs whose key matched but whose amount did not;
- which transactions and which bank rows were left unmatched.

The pieces modelled are these:

- `wrappers.dfy` (`Wrappers`): the `Option` and `Result` types.
- `recon_model.dfy` (`ReconModel`): the records of `application/recon/model.go`. Amounts are exact `real`s, because `decimal.Decimal` is exact. Instants are integers, and Go's zero `time.Time` is `ZeroTime`.
- `recon_matching.dfy` (`ReconMatching`): the per-chunk matcher `reconcile`, as specification functions (the bank index, matched and unmatched transactions, the discrepancy, the unclaimed bank rows) with lemmas about them.
- `recon_chunking.dfy` (`ReconChunking`): grouping by bank code and the positional chunking of `Proceed`, with the proof that the chunks cover every record exactly once.
- `recon_merge.dfy` (`ReconMerge`):
  - the merger `showResultReconciliation`;
  - Go's string order and the sort by bank code;
  - a `Summary` of a result (counts, discrepancy, and the mismatch lists as multisets). Through it, the merged figures are shown to be independent of the order in which chunk results arrive.
- `recon_service.dfy` (`ReconService`): `Proceed`, `reconcile` and `showResultReconciliation` as imperative methods with loops. Each is proved against the functions above.
- `recon_report.dfy` (`ReconReport`):
  - per bank code, what the final report says about the records of that code;
  - the scenarios of `application/recon/service_test.go`, computed through the model.
- `controller.dfy` (`HttpController`):
  - the CSV row parsers of `delivery/http/controller.go`;
  - the header-skipping, window-filtering read loops.
- `configuration.dfy` (`Configuration`): the typed getters of `configuration/configuration.go` and the empty-key guard of `FindConfiguration`.
- `loan_repository.dfy` (`LoanRepository`): the SQL text and argument assembly of `infrastructure/repository/loan_repository_impl.go`. The invariant proved is that each statement carries exactly one `?` per argument, with the arguments in clause order.
- `transaction.dfy` (`TransactionType`): `IsDebit` and `IsCredit`.

Library parsers are parameters of the model, not reimplementations:

- `decimal.NewFromString` and `time.Parse(time.DateTime, …)` are partial functions, passed in as `Parsers` in `HttpController`.
- The file read and JSON decoding behind `FindConfiguration` are a function argument.

## Model

| member | source | states |
|---|---|---|
| ReconModel.NewUploadFile | application/recon/model.go:52-62 | the file keeps both record slices and both dates exactly as given; nil (empty) slices are accepted |
| ReconMatching.BankIndexKeys | application/recon/service.go:156-159 | a key is in the bank index iff some bank row of the chunk has it as UniqueID |
| ReconMatching.BankIndexLastWins | application/recon/service.go:156-159 | with duplicate UniqueIDs, the index holds the last row with that key |
| ReconMatching.MatchedPlusUnmatched | application/recon/service.go:163-185 | every transaction is counted exactly once, as matched or as unmatched |
| ReconMatching.UnmatchedMembership | application/recon/service.go:163-185 | a transaction is mismatched iff its key is missing from the index or the indexed amount differs; it is matched iff both agree |
| ReconMatching.DiscrepancyNonNegative | application/recon/service.go:168-173 | the summed absolute discrepancy is never negative |
| ReconMatching.DiscrepancyOnlyFromMismatches | application/recon/service.go:166-179 | with no mismatched transaction the discrepancy is zero |
| ReconMatching.ClaimedIdsAreFoundTxIds | application/recon/service.go:162-167 | the claimed bank keys are exactly the transaction keys found in the index, whatever the amounts |
| ReconMatching.UnclaimedBanksAgree | application/recon/service.go:188-194 | which bank rows stay unclaimed depends only on whether their keys were claimed |
| ReconMatching.UnclaimedMembership | application/recon/service.go:188-194 | a bank row is reported as unmatched iff no transaction of the chunk has its key |
| ReconMatching.UnmatchedWithin | application/recon/service.go:163-185 | the mismatched transactions are a sub-multiset of the chunk's transactions |
| ReconMatching.UnclaimedWithin | application/recon/service.go:188-194 | the unclaimed bank rows are a sub-multiset of the chunk's bank rows |
| ReconMatching.NothingToMatch | application/recon/service.go:161-186 | against an empty bank index every transaction is mismatched, none matched, and the discrepancy is zero |
| ReconMatching.NothingClaimed | application/recon/service.go:188-194 | with no claimed keys every bank row is reported, in order |
| ReconMatching.ChunkResultCounts | application/recon/service.go:143-199 | a chunk result counts all its transactions, matched + unmatched = total, unmatched = length of the mismatch list, discrepancy ≥ 0, and it carries its bank code |
| ReconMatching.ChunkTransactionMismatch | application/recon/service.go:156-185 | a transaction is in the mismatch list iff the last bank row with its key does not exist or has a different amount |
| ReconMatching.ChunkBankMismatch | application/recon/service.go:162-194 | the bank mismatch list is exactly the bank rows, in order, whose key is no transaction's key; amounts play no part |
| ReconMatching.ChunkResult | application/recon/service.go:143-199 | the functional `reconcile` of one chunk; what it computes is stated by ChunkResultCounts, ChunkTransactionMismatch and ChunkBankMismatch, and `ReconService.Reconcile` is proved equal to it |
| ReconChunking.GroupByBucket | application/recon/service.go:56-64 | each bucket holds the records of its bank code, in input order; a missing bucket reads as empty |
| ReconChunking.GroupBy | application/recon/service.go:56-64 | grouping by bank code; its buckets and keys are stated by GroupByBucket and GroupByKeys |
| ReconChunking.GroupByKeys | application/recon/service.go:56-64 | the buckets are keyed by exactly the bank codes that occur |
| ReconChunking.WithCodeMembers | application/recon/service.go:56-64 | a record is in the bucket of code c iff it is in the input and has code c |
| ReconChunking.WithCodeNonEmpty | application/recon/service.go:56-64 | a bank code that occurs in the input has a non-empty bucket |
| ReconChunking.WithCodeAppend | application/recon/service.go:56-64 | bucketing distributes over concatenation of the input |
| ReconChunking.WithCodeMultiplicity | application/recon/service.go:56-64 | each record of code c keeps its multiplicity in its bucket, and other records are absent |
| ReconChunking.ChunkSize | application/recon/service.go:95-96 | the chunk size is ceil(maxLen / maxChunk): at least 1 for non-empty input, enough to cover maxLen in maxChunk chunks, and no larger |
| ReconChunking.ChunkSizeAsWritten | application/recon/service.go:96 | the Go expression on int64: the sum wraps around, the division truncates toward zero, and max.chunk = 0 panics (None) |
| ReconChunking.ChunkSizeAsWrittenAgrees | application/recon/service.go:96 | for max.chunk ≥ 1 and a sum within int64, the Go expression equals the ceiling ChunkSize |
| ReconChunking.ChunkSizeWraps | application/recon/service.go:96-108 | max.chunk = MaxInt64 with two records gives chunk size -1 (the first slice panics) where the ceiling is 1 |
| ReconChunking.NegativeChunkSizes | application/recon/service.go:96-98 | negative max.chunk: -1 over three records gives -1 (panic), -5 over two gives 0 (the loop never advances), -5 over one gives 1 (runs normally) |
| ReconChunking.Chunks | application/recon/service.go:86-121 | the positional chunks of one bank code; stated by ChunkingCovers, ChunkingCount and ChunkingOffsets |
| ReconChunking.SafeSliceThenRest | application/recon/service.go:101-121 | a clamped slice followed by the rest of the records is the records from the start of the slice |
| ReconChunking.ChunksFromCover | application/recon/service.go:98-127 | the chunks from offset i on concatenate to the records from i on, on both sides |
| ReconChunking.ChunksFromAt | application/recon/service.go:98-121 | chunk k of a run starting at i is the clamped slice [i + k·size, i + k·size + size) of each side |
| ReconChunking.ChunksFromCount | application/recon/service.go:98 | the loop runs once per chunk-size step below maxLen |
| ReconChunking.ChunkingCovers | application/recon/service.go:95-127 | the chunks of a bank code are consecutive and cover every transaction and bank row exactly once, in order |
| ReconChunking.ChunkingCount | application/recon/service.go:95-98 | there are at most maxChunk chunks, and at least one when either side has records |
| ReconChunking.ChunkingOffsets | application/recon/service.go:98-121 | chunk k is cut at k·size on both sides, and a side shorter than k·size contributes an empty (nil) chunk |
| ReconChunking.ChunkResultsCover | application/recon/service.go:123-126 | one result per chunk, each the reconciliation of that chunk |
| ReconMerge.StrLessIrreflexive | application/recon/service.go:136-138 | no bank code sorts before itself |
| ReconMerge.StrLessTransitive | application/recon/service.go:136-138 | the string order used by both sorts is transitive |
| ReconMerge.StrLessTotal | application/recon/service.go:232-234 | any two distinct bank codes are ordered one way or the other |
| ReconMerge.StrLessAsymmetric | application/recon/service.go:232-234 | two codes are never each before the other |
| ReconMerge.Insert | application/recon/service.go:232-234 | inserting keeps the elements (as a multiset) and keeps the order sorted, strictly so for a new code |
| ReconMerge.SortByCode | application/recon/service.go:232-234 | the sort is a permutation, ascending by bank code, and strictly ascending when the codes are distinct |
| ReconMerge.MergeMapEntries | application/recon/service.go:202-225 | the merged map has an entry for code c iff some result has code c, and that entry is the merge of the results of code c in arrival order |
| ReconMerge.MergeMap | application/recon/service.go:202-225 | the merge map; its keys and entries are stated by MergeMapKeys, MergeMapEntries and MergeMapCodes |
| ReconMerge.MergeRun | application/recon/service.go:205-219 | the merge of one code's results in arrival order; its figures are stated by MergeRunTotal |
| ReconMerge.MergeMapCodes | application/recon/service.go:222-224 | each merged entry carries its own key as bank code |
| ReconMerge.MergeMapKeys | application/recon/service.go:202-225 | the merged map is keyed by exactly the bank codes of the results |
| ReconMerge.MergeRunTotal | application/recon/service.go:205-219 | a merged entry's counts and discrepancy are the sums over its results, and its mismatch lists are their concatenation (as multisets) |
| ReconMerge.TotalAppend | application/recon/service.go:204-219 | summing the results of a concatenation is summing each part |
| ReconMerge.Total | application/recon/service.go:205-219 | the sum of the summaries of a run of results; stated by TotalAppend and TotalPermutation |
| ReconMerge.WithCodePermutation | application/recon/service.go:130-138 | reordering the results reorders each code's run of results |
| ReconMerge.TotalPermutation | application/recon/service.go:130-138 | the summed figures do not depend on the order the chunk results arrive in |
| Configuration.Render | configuration/configuration.go:35 | `%s` renders a string as itself and any other JSON value as text starting with `%`, `[` or `m`, never a number |
| Configuration.ParseInt10 | configuration/configuration.go:36 | a parsed value is the literal's value and lies in int64; every in-range literal parses |
| Configuration.NatDigitsValue | configuration/configuration.go:36 | the decimal digits of n denote n |
| Configuration.ParseFormatRoundTrip | configuration/configuration.go:36 | parsing the base-10 text of an int64 gives it back |
| Configuration.GetInt | configuration/configuration.go:32-42 | 0 for an absent key, a non-string value, or text that is no base-10 int64; a string holding any base-10 literal within int64 (sign and leading zeros allowed) reads as the value it denotes |
| Configuration.GetIntFormatted | configuration/configuration.go:32-42 | a key holding the decimal text of m reads back as m |
| Configuration.GetString | configuration/configuration.go:44-53 | the string held under the key, "" when absent or not a string |
| Configuration.ParseBool | configuration/configuration.go:60 | exactly the words strconv.ParseBool accepts for true and for false; everything else fails |
| Configuration.ParseFormatBool | configuration/configuration.go:60 | the text of a boolean parses back to it |
| Configuration.GetBool | configuration/configuration.go:55-67 | true iff the key holds a string that ParseBool reads as true; false in every other case |
| Configuration.Split | configuration/configuration.go:103 | splitting yields at least one piece |
| Configuration.SplitCount | configuration/configuration.go:103 | splitting yields one more piece than there are separators |
| Configuration.SplitPieces | configuration/configuration.go:103 | no piece contains the separator |
| Configuration.JoinSplit | configuration/configuration.go:103 | rejoining the pieces with the separator gives the original text |
| Configuration.GetArray | configuration/configuration.go:97-108 | nil for an absent key, a non-string or ""; otherwise the comma-separated pieces, one more than the commas, no piece containing a comma, rejoining to the value |
| Configuration.FirstColon | configuration/configuration.go:118 | the index of the first ':' of an element, or none when there is none |
| Configuration.KeyValueCut | configuration/configuration.go:118-119 | an element without ':' is skipped; otherwise it is cut at its first ':' into a key without ':' and a value that may hold more ':' |
| Configuration.GetMap | configuration/configuration.go:110-127 | nil unless the key holds a string; otherwise the map built from its comma-separated elements |
| Configuration.MapEntriesKeys | configuration/configuration.go:115-122 | a key is in the map iff some element has that key before its first ':' |
| Configuration.MapEntries | configuration/configuration.go:115-122 | the map built by the `GetMap` loop; stated by MapEntriesKeys and MapEntriesLastWins |
| Configuration.MapEntriesLastWins | configuration/configuration.go:117-121 | a later element with the same key overwrites an earlier one |
| Configuration.FindConfiguration | configuration/configuration.go:129-135 | an empty key fails with the empty-key error; any other key reads "./<key>.json" |
| Configuration.EmptyKeyReadsNothing | configuration/configuration.go:129-132 | for the empty key the outcome does not depend on the file reader at all |
| ReconService.Reconcile | application/recon/service.go:143-199 | the loops compute the reconciliation of the chunk: all transactions counted, matched + unmatched = total, unmatched = mismatch list length, discrepancy ≥ 0, bank code kept |
| ReconService.MergeResults | application/recon/service.go:202-225 | the merge loop builds the merged map of the results |
| ReconService.CollectEntries | application/recon/service.go:227-230 | the collected entries are the map's values, one per key, covering every key |
| ReconService.MergedEntries | application/recon/service.go:202-225 | one merged entry per bank code present, whose figures are the sums over that code's results |
| ReconService.SameCodes | application/recon/service.go:232-234 | sorting does not change the set of bank codes |
| ReconService.ShowResults | application/recon/service.go:201-239 | the report is strictly ascending by bank code, has exactly the codes of the results, and each entry sums that code's results |
| ReconService.Group | application/recon/service.go:56-64 | the grouping loop builds the buckets by bank code in input order |
| ReconService.SafeSliceAt | application/recon/service.go:101-121 | the clamped slicing yields the records of [i, end) that exist, and nil past the end |
| ReconService.ReconcileChunks | application/recon/service.go:95-127 | the chunk loop yields the reconciliations of the positional chunks, in order |
| ReconService.CodeBlock | application/recon/service.go:81-121 | one bank code's turn of the loop: nothing for a code without records, otherwise exactly that code's chunk results in chunk order |
| ReconService.CodeDone | application/recon/service.go:81-127 | after a bank code's chunks are appended, its run of results is exactly its chunk results and no other code's run changes |
| ReconService.CodesNeedRecords | application/recon/service.go:66-74 | a bank code can only come from a record |
| ReconService.CodeResultsNonEmpty | application/recon/service.go:86-93 | every bank code in the union yields at least one chunk result |
| ReconService.ReportEntries | application/recon/service.go:130-140 | the report has exactly the union of bank codes, and each entry sums the chunk results of its code |
| ReconService.Proceed | application/recon/service.go:35-141 | ErrorMaxRows iff a row limit is exceeded (transactions checked first); otherwise, for max.chunk ≥ 1 with no int64 wrap-around of any code's chunk-size sum (ChunkSumFits), a report strictly ascending by bank code, one entry per code of either file, each the sum of that code's chunk results |
| ReconReport.ChunkAccounts | application/recon/service.go:143-199 | a chunk result's summary accounts for the chunk: total = its transactions, matched + unmatched = total, unmatched = mismatched, mismatches drawn from the chunk |
| ReconReport.PlusAccounts | application/recon/service.go:204-219 | adding two summaries accounts for the concatenated records |
| ReconReport.TotalFirstChunk | application/recon/service.go:204-219 | summing chunk results is the first chunk's summary plus the rest |
| ReconReport.TotalChunkResults | application/recon/service.go:98-134 | the summed chunk results of a bank code account for all the records of the chunks |
| ReconReport.NoBankRows | application/recon/service.go:180-185 | with no bank rows, every transaction is mismatched and nothing else is reported |
| ReconReport.NoTransactions | application/recon/service.go:188-194 | with no transactions, every bank row is reported unmatched and the counts are zero |
| ReconReport.CodeReport | application/recon/service.go:81-140 | a code's entry counts exactly its transactions, matched + unmatched = that count, discrepancy ≥ 0, and its mismatches come from records of that code |
| ReconReport.CodeWithoutBankRows | application/recon/service.go:81-127 | a code with no bank rows reports all its transactions as unmatched, zero matched, zero discrepancy |
| ReconReport.CodeWithoutTransactions | application/recon/service.go:81-127 | a code with no transactions reports zero counts and all its bank rows as unmatched |
| ReconReport.NoRecordsOfCode | application/recon/service.go:56-64 | a code absent from a file has an empty bucket there |
| ReconReport.OneCodeReport | application/recon/service.go:232-234 | a strictly sorted report over one code has one entry |
| ReconReport.TwoCodeReport | application/recon/service.go:232-234 | a strictly sorted report over two codes lists them in string order |
| ReconReport.AllOfCode | application/recon/service.go:56-64 | records that all have code c form c's bucket unchanged |
| ReconReport.ThreeChunks | application/recon/service.go:95-121 | with max.chunk 10 and three records, each chunk holds one position |
| ReconReport.ChunkMatched | application/recon/service.go:163-169 | same key and amount: one matched, nothing mismatched |
| ReconReport.OneRowIndex | application/recon/service.go:156-159 | the index of one bank row maps its key to it |
| ReconReport.ChunkAmountDiffers | application/recon/service.go:168-179 | same key, different amount: unmatched, with the absolute difference as discrepancy and the bank row claimed |
| ReconReport.ChunkKeysDiffer | application/recon/service.go:180-194 | different keys: the transaction and the bank row are both mismatched |
| ReconReport.ChunkBankOnly | application/recon/service.go:188-194 | a bank row with no transactions is reported unmatched |
| ReconReport.FilteredChunks | application/recon/service.go:95-121 | TX1, TX3 against three bank rows chunk as ({TX1},{row TX1}), ({TX3},{row TX3}), ({},{BANK_ONLY}) |
| ReconReport.UnfilteredChunks | application/recon/service.go:95-121 | TX1, TX2, TX3 against the same rows put TX3's row in TX2's chunk |
| ReconReport.FilteredScenario | application/recon/service_test.go:65-133 | on the window-filtered input the report is 2 transactions, 1 matched, 1 unmatched, discrepancy 500, mismatches TX3 and BANK_ONLY |
| ReconReport.FilteredCodes | application/recon/service_test.go:65-133 | that report has the single entry BANK1 |
| ReconReport.UnfilteredScenario | application/recon/service_test.go:65-133 | fed the unfiltered TX1, TX2, TX3 the service reports 3, 1 matched, 2 unmatched, discrepancy 0 (see below) |
| ReconReport.TxCodesOfScenario | application/recon/service_test.go:65-133 | the scenario's transactions all have code BANK1 |
| ReconReport.BankCodesOfScenario | application/recon/service_test.go:65-133 | the scenario's bank rows all have code BANK1 |
| ReconReport.MultiBankTxCodes | application/recon/service_test.go:135-162 | the multi-bank transactions carry codes BANK1 and BANK2 |
| ReconReport.MultiBankRowCodes | application/recon/service_test.go:135-162 | the multi-bank bank rows carry codes BANK1 and BANK2 |
| ReconReport.Bank1BeforeBank2 | application/recon/service_test.go:160-161 | BANK1 sorts before BANK2 |
| ReconReport.MultiBankOrder | application/recon/service_test.go:135-162 | the multi-bank report has two entries, BANK1 then BANK2 |
| ReconReport.OneSidedCodeSet | application/recon/service_test.go:164-185 | the one-sided scenario has codes BANK1 and BANK2 |
| ReconReport.OneSidedBank1 | application/recon/service_test.go:164-185 | BANK1, with a transaction and no bank row, reports it unmatched |
| ReconReport.OneSidedBank2 | application/recon/service_test.go:164-185 | BANK2, with a bank row and no transaction, reports the row unmatched |
| ReconReport.OneSidedCodes | application/recon/service_test.go:164-185 | codes present on one side only still each get an entry: two entries, BANK1's transaction and BANK2's bank row unmatched |
| ReconReport.LimitOfOne | configuration/configuration.go:32-42 | a limit configured as "1" reads as 1 |
| ReconReport.TransactionLimitScenario | application/recon/service_test.go:20-39 | two transactions over a limit of one fail the limit check |
| ReconReport.BankLimitScenario | application/recon/service_test.go:41-63 | two bank rows over a limit of one fail the limit check |
| ReconReport.ScenarioWindow | delivery/http/controller.go:150-153 | the window of the test's dates keeps TX1 and TX3 and drops TX2 |
| HttpController.ParseTransactionRow | delivery/http/controller.go:159-191 | field by field: each of columns 0, 1, 3, 4 is copied iff the row is long enough, else "" ; the amount (column 2) and time (column 5) are their parsed values when the column exists and parses, else zero |
| HttpController.ParseBankRow | delivery/http/controller.go:231-255 | field by field: columns 0 and 3 are copied iff the row is long enough, else "" ; the amount (column 1) and date (column 2) are their parsed values when the column exists and parses, else zero |
| HttpController.TransactionRowRoundTrip | delivery/http/controller.go:159-191 | a record written as a row (extra columns allowed) parses back to itself |
| HttpController.BankRowRoundTrip | delivery/http/controller.go:231-255 | a bank row written out (extra columns allowed) parses back to itself |
| HttpController.UnparsableColumnsAreZero | delivery/http/controller.go:170-188 | an amount or time that fails to parse leaves the zero value; the row is kept |
| HttpController.WindowMembers | delivery/http/controller.go:150-153 | a record is kept iff start ≤ its time ≤ end, inclusive at both ends |
| HttpController.Window | delivery/http/controller.go:150-153 | the in-window filter; stated by WindowMembers, WindowAppend and EmptyWindow |
| HttpController.WindowAppend | delivery/http/controller.go:133-153 | filtering keeps input order: the window of a concatenation is the concatenation of windows |
| HttpController.EmptyWindow | delivery/http/controller.go:151 | an inverted window keeps nothing |
| HttpController.MapRows | delivery/http/controller.go:150 | each row is parsed, in order |
| HttpController.FirstErrorSnoc | delivery/http/controller.go:141-148 | the first read error stays the first |
| HttpController.RecordsSnoc | delivery/http/controller.go:141-152 | each successfully read row joins the records in order |
| HttpController.MapRowsSnoc | delivery/http/controller.go:150 | parsing one more row appends its record |
| HttpController.WindowSnocRow | delivery/http/controller.go:150-153 | one more row is appended iff its time is in the window |
| HttpController.ReadRowsReference | delivery/http/controller.go:133-156 | the read loop fails with the first read error, else yields the in-window parsed rows in order |
| HttpController.ErrorsPersist | delivery/http/controller.go:146-148 | once a read fails, later rows change nothing |
| HttpController.ParseRecords | delivery/http/controller.go:121-157 | the header-skipping read loop computes the CSV reading |
| HttpController.CSVReference | delivery/http/controller.go:125-156 | empty input gives no records and no error; the reading fails iff some read fails, header included, with the first error; otherwise it yields the in-window parsed data rows |
| HttpController.ReadCSV | delivery/http/controller.go:125-156 | the reference reading of a CSV file; stated by CSVReference and WindowedCSV |
| HttpController.WindowedCSV | delivery/http/controller.go:151-153 | every record returned lies in the window |
| HttpController.ParseTransactionsFromCSV | delivery/http/controller.go:121-157 | no records for an empty file; fails iff some read fails, with the first error; otherwise the data rows parsed as transactions whose time lies in the window, in file order |
| HttpController.ParseBankFromCSV | delivery/http/controller.go:193-229 | no records for an empty file; fails iff some read fails, with the first error; otherwise the data rows parsed as bank rows whose date lies in the window, in file order |
| LoanRepository.InList | infrastructure/repository/loan_repository_impl.go:223-225 | the intended list is empty exactly for n = 0 and otherwise starts and ends with '?' |
| LoanRepository.RepeatedPairs | infrastructure/repository/loan_repository_impl.go:224 | "?," repeated n times is the list followed by one comma |
| LoanRepository.BuildWhereInIsList | infrastructure/repository/loan_repository_impl.go:223-225 | buildWhereIn(n) is exactly n question marks separated by single commas, "" for n = 0 |
| LoanRepository.BuildWhereIn | infrastructure/repository/loan_repository_impl.go:223-225 | `strings.Trim(strings.Repeat("?,", n), ",")`, which strips commas at both ends; its shape and count are stated by BuildWhereInIsList and InListCounts |
| LoanRepository.InListCounts | infrastructure/repository/loan_repository_impl.go:223-225 | the list holds exactly n placeholders |
| LoanRepository.Args | infrastructure/repository/loan_repository_impl.go:189-209 | one argument per condition, in condition order |
| LoanRepository.ConditionsBalanced | infrastructure/repository/loan_repository_impl.go:189-209 | conditions of one placeholder each give as many placeholders as arguments |
| LoanRepository.OnePlaceholderEach | infrastructure/repository/loan_repository_impl.go:194-216 | each condition and the status assignment hold exactly one placeholder |
| LoanRepository.WhereConditionsPresent | infrastructure/repository/loan_repository_impl.go:189-209 | the id, user_id and due_date conditions are present iff their fields are non-zero |
| LoanRepository.WhereBalanced | infrastructure/repository/loan_repository_impl.go:189-209 | the WHERE text holds one placeholder per argument |
| LoanRepository.BuilderWhere | infrastructure/repository/loan_repository_impl.go:189-209 | the builder writes the present conditions in id, user_id, due_date order with their arguments in the same order, and the text has one '?' per argument |
| LoanRepository.BuilderUpdate | infrastructure/repository/loan_repository_impl.go:211-221 | "status = ?, " with the one argument Status iff Status is set, otherwise both empty; one '?' per argument |
| LoanRepository.StatusArgs | infrastructure/repository/loan_repository_impl.go:104-106 | one text argument per status, in order |
| LoanRepository.IdArgs | infrastructure/repository/loan_repository_impl.go:167-169 | one id argument per id, in order |
| LoanRepository.SelectTextsHavePlaceholdersNone | infrastructure/repository/loan_repository_impl.go:20-23 | the fixed SELECT text holds no placeholder |
| LoanRepository.UpdateTextsHavePlaceholdersNone | infrastructure/repository/loan_repository_impl.go:25-33 | the fixed UPDATE texts hold no placeholder |
| LoanRepository.FindLoansBalanced | infrastructure/repository/loan_repository_impl.go:101-106 | the SELECT holds exactly one placeholder per argument |
| LoanRepository.FindLoansSql | infrastructure/repository/loan_repository_impl.go:101-106 | the SELECT text; its balance is stated by FindLoansBalanced and its assembly by FindLoansStatement |
| LoanRepository.UpdateLoanBalanced | infrastructure/repository/loan_repository_impl.go:166-171 | the UPDATE holds exactly one placeholder per argument |
| LoanRepository.UpdateLoanSql | infrastructure/repository/loan_repository_impl.go:166-171 | the UPDATE text; its balance is stated by UpdateLoanBalanced and its assembly by UpdateLoanStatement |
| LoanRepository.FindLoansStatement | infrastructure/repository/loan_repository_impl.go:101-106 | the SELECT is the fixed text, the conditions and the status list; the arguments are the condition arguments then the statuses in order; one '?' per argument |
| LoanRepository.UpdateLoanStatement | infrastructure/repository/loan_repository_impl.go:166-171 | the UPDATE is the fixed text, the optional assignment and the id list; the arguments are the status (when set) then the ids in order; one '?' per argument |
| LoanRepository.EmptyListsGiveEmptyIn | infrastructure/repository/loan_repository_impl.go:223-225 | no statuses or no ids produce "IN()" |
| LoanRepository.PaidUpdateArgs | infrastructure/repository/loan_repository_impl_test.go:362-365 | updating ids 10, 20 to PAID binds "PAID", 10, 20 |
| LoanRepository.PaidUpdateSql | infrastructure/repository/loan_repository_impl_test.go:424-425 | and the statement ends with "(?,?)" |
| LoanRepository.AllConditionsFind | infrastructure/repository/loan_repository_impl_test.go:164-171 | an id, user and due-date filter binds id, user, due date, then the statuses |
| TransactionType.DebitOrCreditNotBoth | infrastructure/repository/transaction/transaction.go:40-46 | a type is a debit iff it is "DEBIT", a credit iff it is "CREDIT", and never both |
| TransactionType.IsDebit | infrastructure/repository/transaction/transaction.go:40-42 | exact, case-sensitive comparison with "DEBIT"; stated by DebitOrCreditNotBoth |
| TransactionType.IsCredit | infrastructure/repository/transaction/transaction.go:44-46 | exact, case-sensitive comparison with "CREDIT"; stated by DebitOrCreditNotBoth |
| TransactionType.KnownTypes | infrastructure/repository/transaction/transaction_impl_test.go:93-111 | DEBIT is only a debit, CREDIT only a credit, OTHER neither; the comparison is case-sensitive |

## Behaviour worth knowing

- **Chunking is positional.** A transaction and its bank row can land in different chunks, so both are then reported as mismatched. The counts therefore depend on `max.chunk`.
- **`GetInt` on a JSON number yields 0.** `fmt.Sprintf("%s", value)` renders a `float64` as `%!s(float64=…)`, which never parses. So a limit written as a bare JSON number reads as 0. Only a string such as `"100"` works (`Configuration.GetInt`).
- **Empty lists give an empty IN list.** An empty status list or id list produces `IN()` (`LoanRepository.EmptyListsGiveEmptyIn`).
- **The window end is inclusive only at the instant given.** The window keeps a record iff `start ≤ time ≤ end`. An end date given as a calendar day, and so parsed as midnight, drops later times on that day.
- **An unused computation in `Proceed`.** `Proceed` computes a `maxLen` over both whole files at application/recon/service.go:50-53 and never uses it.

## Left out

- Goroutines and the results channel (application/recon/service.go:78, 123-134). Chunk workers run one after another. The order in which results arrive is not modelled. Instead, `ReconMerge.TotalPermutation` shows that the merged counts, discrepancy and mismatch multisets do not depend on it.
- ReconService.Proceed: bank codes are visited in an unspecified order, standing in for Go's random map iteration. The order of the mismatch lists inside a merged entry is stated only as a multiset, because arrival order and the unstable `sort.Slice` leave it unfixed.
- ReconService.Proceed: requires `max.chunk ≥ 1` whenever there is something to chunk. With `max.chunk = 0` the Go code divides by zero. A negative value panics at the first slice (chunk size below 0), loops forever (chunk size 0), or, when it yields chunk size 1, runs normally; the model does not promise a report for those inputs (`ReconChunking.NegativeChunkSizes`, application/recon/service.go:96-98).
- ReconService.Proceed: also requires that no bank code's `maxLen + max.chunk - 1` leaves int64 (`ReconService.ChunkSumFits`). Beyond that the Go sum wraps around and the first slice panics (see Findings); the model does not describe the panic.
- ReconChunking.ChunkSize: the mathematical ceiling, not the Go expression. It agrees with the Go expression only while the sum stays within int64 (`ReconChunking.ChunkSizeAsWrittenAgrees`); the wrapped case is modelled by `ReconChunking.ChunkSizeAsWritten`.
- `decimal.NewFromString`, `time.Parse` and formatting are parameters (`HttpController.Parsers`, `HttpController.Formatters`), not reimplemented. Amounts are exact reals; times are integers, with the zero time as 0.
- CSV reader mechanics, context cancellation, and the HTTP handler `controller.Proceed` (delivery/http/controller.go:32-119). The reader is modelled as a sequence of row-or-error outcomes.
- `newConfig` (file read and JSON decoding) is the `readConfig` argument of `Configuration.FindConfiguration`. `GetFloat` (floating point) and `GetBinary` (base64) are not modelled.
- Configuration.Render: the `%s` rendering of arrays and objects is abbreviated to a leading `[` or `map[`. What matters here is only that it never parses as an integer.
- Query execution, row scanning, `SaveLoans` and the transaction repository's database calls are foreign calls and are not modelled. Only the statement text and argument list handed to the database are.
- LoanRepository.LoanEntity: `uint64` ids are unbounded naturals. Amounts and instants are exact values.
- Routing, responses, the command line, database connections, UUID/clock generation and the static error tables sit outside the reconciliation core and are not part of this model.

## Findings

| source | as written | input that shows it | evidently intended | confidence | as-written member | corrected member |
|---|---|---|---|---|---|---|
| application/recon/service.go:96 | `chunkSize := (maxLen + maxChunk - 1) / maxChunk` on int64 wraps around when max.chunk is close to MaxInt64 | max.chunk = "9223372036854775807" and a bank code with 2 records: the sum wraps to MinInt64, chunk size -1, and `txs[0:-1]` panics | ceil(maxLen / maxChunk) = 1, one chunk | not executed | ReconChunking.ChunkSizeWraps | ReconChunking.ChunkSize |
| application/recon/service_test.go:65-133 | the filtering test passes TX1, TX2 and TX3 straight to `Proceed`, which does not filter by date, and expects 2 processed, 1 matched, 1 unmatched, discrepancy 500 | the test's own input with max.chunk 10: maxLen 3 gives chunk size 1, TX2 lies outside the window and TX3 and its bank row fall into different chunks, so `Proceed` reports 3, 1, 2 and 0 | the expected figures hold for the window-filtered input [TX1, TX3], which `ReconReport.ScenarioWindow` shows the CSV readers produce | not executed | ReconReport.UnfilteredScenario | ReconReport.FilteredScenario |
