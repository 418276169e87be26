/**
 * The reconciliation service of application/recon/service.go: the row-limit
 * checks, grouping, chunking and collection of `Proceed`, the per-chunk
 * matcher `reconcile`, and the merger `showResultReconciliation`, each as an
 * imperative method proved against the functions of ReconMatching,
 * ReconChunking and ReconMerge.
 *
 * The chunk workers run one after another here; see README for what the
 * goroutines and the channel would add.
 */
module ReconService {
  import opened Wrappers
  import opened ReconModel
  import opened ReconMatching
  import opened ReconChunking
  import opened ReconMerge
  import Configuration

  /** The errors `Proceed` returns. */
  datatype ServiceError = ErrorMaxRows

  /** The text of `ErrorMaxRows`. */
  const ErrorMaxRowsMessage: string := "file yang diupload terlalu besar"

  const MaxRowsTransactionsKey: string := "max.rows.transactions"
  const MaxRowsBankKey: string := "max.rows.bank"
  const MaxChunkKey: string := "max.chunk"

  // ---------------------------------------------------------------------------
  // reconcile

  /**
   * `reconcile(txs, banks, bc)`: index the bank rows by UniqueID, look up each
   * transaction, then collect the bank rows no transaction claimed.
   */
  method Reconcile(txs: seq<TransactionUploadFile>, banks: seq<BankStatementUploadFile>, bc: string)
    returns (result: ResultReconciliation)
    ensures result == ChunkResult(txs, banks, bc)
    ensures result.TotalNumberOfTransactions == |txs|
    ensures result.TotalNumberOfMatchesTransactions + result.TotalNumberOfUnmatchedTransactions == |txs|
    ensures result.TotalNumberOfUnmatchedTransactions == |result.ResultReconciliationDetails.TransactionMismatched|
    ensures result.TotalAmountDiscrepancies >= 0.0
    ensures result.BankCode == bc
  {
    var bankMap: map<string, BankStatementUploadFile> := map[];
    for i := 0 to |banks|
      invariant bankMap == BankIndex(banks[..i])
    {
      assert banks[..i + 1][..i] == banks[..i];
      bankMap := bankMap[banks[i].UniqueID := banks[i]];
    }
    assert banks[..|banks|] == banks;

    // `matchedBankIDs` holds only `true` entries; a missing key reads as false.
    var matchedBankIDs: set<string> := {};
    var matches, unmatched := 0, 0;
    var discrepancies := 0.0;
    var txMismatched: seq<TransactionUploadFile> := [];
    for i := 0 to |txs|
      invariant matchedBankIDs == ClaimedIds(txs[..i], bankMap)
      invariant matches == |MatchedTxs(txs[..i], bankMap)|
      invariant txMismatched == UnmatchedTxs(txs[..i], bankMap)
      invariant unmatched == |txMismatched|
      invariant discrepancies == Discrepancy(txs[..i], bankMap)
    {
      assert txs[..i + 1][..i] == txs[..i];
      var tx := txs[i];
      if tx.TransactionID in bankMap {
        var bankEntry := bankMap[tx.TransactionID];
        matchedBankIDs := matchedBankIDs + {tx.TransactionID};
        if tx.Amount == bankEntry.Amount {
          matches := matches + 1;
        } else {
          discrepancies := discrepancies + Abs(tx.Amount - bankEntry.Amount);
          unmatched := unmatched + 1;
          txMismatched := txMismatched + [tx];
        }
      } else {
        unmatched := unmatched + 1;
        txMismatched := txMismatched + [tx];
      }
    }
    assert txs[..|txs|] == txs;

    var bankMismatched: seq<BankStatementUploadFile> := [];
    for i := 0 to |banks|
      invariant bankMismatched == UnclaimedBanks(banks[..i], matchedBankIDs)
    {
      assert banks[..i + 1][..i] == banks[..i];
      if banks[i].UniqueID !in matchedBankIDs {
        bankMismatched := bankMismatched + [banks[i]];
      }
    }
    assert banks[..|banks|] == banks;

    result := ResultReconciliation(
      |txs|, matches, unmatched,
      ResultReconciliationDetails(txMismatched, bankMismatched),
      discrepancies, bc);
    ChunkResultCounts(txs, banks, bc);
  }

  // ---------------------------------------------------------------------------
  // showResultReconciliation

  /**
   * `showResultReconciliation(finalResult)`: merge the results of each bank
   * code into one entry, collect the entries in the map's (unspecified)
   * iteration order, and sort them by bank code.
   */
  method ShowResults(finalResult: seq<ResultReconciliation>) returns (show: ShowResultReconciliation)
    ensures StrictlySorted(show.ResultReconciliation)
    ensures Codes(show.ResultReconciliation, ResultCode) == Codes(finalResult, ResultCode)
    ensures forall e :: e in show.ResultReconciliation ==>
      WithCode(finalResult, ResultCode, e.BankCode) != [] &&
      e == MergeRun(WithCode(finalResult, ResultCode, e.BankCode)) &&
      Summarize(e) == Total(WithCode(finalResult, ResultCode, e.BankCode))
  {
    var mergedMap := MergeResults(finalResult);
    MergedEntries(finalResult);

    var result := CollectEntries(mergedMap);

    var sorted := SortByCode(result);
    forall e | e in sorted
      ensures WithCode(finalResult, ResultCode, e.BankCode) != [] &&
        e == MergeRun(WithCode(finalResult, ResultCode, e.BankCode)) &&
        Summarize(e) == Total(WithCode(finalResult, ResultCode, e.BankCode))
    {
      assert e in multiset(result);
      assert e in result;
    }
    SameCodes(result, sorted);
    show := ShowResultReconciliation(sorted);
  }

  /** The merge loop of `showResultReconciliation`: a copy of the first result of each code, accumulated with the later ones. */
  method MergeResults(finalResult: seq<ResultReconciliation>) returns (mergedMap: map<string, ResultReconciliation>)
    ensures mergedMap == MergeMap(finalResult)
  {
    mergedMap := map[];
    for i := 0 to |finalResult|
      invariant mergedMap == MergeMap(finalResult[..i])
    {
      assert finalResult[..i + 1][..i] == finalResult[..i];
      var fr := finalResult[i];
      if fr.BankCode in mergedMap {
        mergedMap := mergedMap[fr.BankCode := Accumulate(mergedMap[fr.BankCode], fr)];
      } else {
        mergedMap := mergedMap[fr.BankCode := fr];
      }
    }
    assert finalResult[..|finalResult|] == finalResult;
  }

  /**
   * `for _, v := range mergedMap`: the entries of a map keyed by bank code,
   * in an order the map does not fix.
   */
  method CollectEntries(mergedMap: map<string, ResultReconciliation>) returns (result: seq<ResultReconciliation>)
    requires forall c :: c in mergedMap ==> mergedMap[c].BankCode == c
    ensures forall r :: r in result ==> r.BankCode in mergedMap && r == mergedMap[r.BankCode]
    ensures UniqueCodes(result)
    ensures Codes(result, ResultCode) == mergedMap.Keys
  {
    result := [];
    var remaining := mergedMap.Keys;
    while remaining != {}
      invariant remaining <= mergedMap.Keys
      invariant forall r :: r in result ==> r.BankCode in mergedMap && r == mergedMap[r.BankCode] && r.BankCode !in remaining
      invariant UniqueCodes(result)
      invariant Codes(result, ResultCode) == mergedMap.Keys - remaining
      decreases remaining
    {
      var code :| code in remaining;
      var entry := mergedMap[code];
      CodesSnoc(result, entry);
      result := result + [entry];
      remaining := remaining - {code};
    }
  }

  /** Each entry of the merged map carries its own code and is the merge of that code's results. */
  lemma MergedEntries(rs: seq<ResultReconciliation>)
    ensures MergeMap(rs).Keys == Codes(rs, ResultCode)
    ensures forall c :: c in MergeMap(rs) ==>
      MergeMap(rs)[c].BankCode == c && WithCode(rs, ResultCode, c) != [] &&
      MergeMap(rs)[c] == MergeRun(WithCode(rs, ResultCode, c)) &&
      Summarize(MergeMap(rs)[c]) == Total(WithCode(rs, ResultCode, c))
  {
    MergeMapKeys(rs);
    forall c | c in MergeMap(rs)
      ensures MergeMap(rs)[c].BankCode == c && WithCode(rs, ResultCode, c) != [] &&
        MergeMap(rs)[c] == MergeRun(WithCode(rs, ResultCode, c)) &&
        Summarize(MergeMap(rs)[c]) == Total(WithCode(rs, ResultCode, c))
    {
      MergeMapCodes(rs, c);
      MergeMapEntries(rs, c);
      MergeRunTotal(WithCode(rs, ResultCode, c));
    }
  }

  lemma CodesSnoc(rs: seq<ResultReconciliation>, x: ResultReconciliation)
    ensures Codes(rs + [x], ResultCode) == Codes(rs, ResultCode) + {x.BankCode}
  {
    assert x in rs + [x] && ResultCode(x) == x.BankCode;
    forall c | c in Codes(rs, ResultCode) ensures c in Codes(rs + [x], ResultCode) {
      var y :| y in rs && ResultCode(y) == c;
      assert y in rs + [x];
    }
  }

  /** A rearrangement has the same codes. */
  lemma SameCodes(rs: seq<ResultReconciliation>, rs': seq<ResultReconciliation>)
    requires multiset(rs) == multiset(rs')
    ensures Codes(rs, ResultCode) == Codes(rs', ResultCode)
  {
    forall c | c in Codes(rs, ResultCode) ensures c in Codes(rs', ResultCode) {
      var x :| x in rs && ResultCode(x) == c;
      assert x in multiset(rs');
      assert x in rs' && ResultCode(x) == c;
    }
    forall c | c in Codes(rs', ResultCode) ensures c in Codes(rs, ResultCode) {
      var x :| x in rs' && ResultCode(x) == c;
      assert x in multiset(rs);
      assert x in rs && ResultCode(x) == c;
    }
  }

  // ---------------------------------------------------------------------------
  // Proceed

  /**
   * For every bank code, `maxLen + maxChunk - 1` stays within int64, so the
   * chunk size does not wrap around.
   */
  predicate ChunkSumFits(file: UploadFile, maxChunk: int)
  {
    forall c :: c in Codes(file.transactionFile, TxCode) + Codes(file.bankFile, BankRowCode) ==>
      Max(|WithCode(file.transactionFile, TxCode, c)|, |WithCode(file.bankFile, BankRowCode, c)|) + maxChunk - 1
        <= Configuration.MaxInt64
  }

  lemma CodeFits(file: UploadFile, maxChunk: int, c: string)
    requires ChunkSumFits(file, maxChunk)
    requires c in Codes(file.transactionFile, TxCode) + Codes(file.bankFile, BankRowCode)
    ensures Max(|WithCode(file.transactionFile, TxCode, c)|, |WithCode(file.bankFile, BankRowCode, c)|) + maxChunk - 1
      <= Configuration.MaxInt64
  {
  }

  /** Both row counts are within their configured limits. */
  predicate WithinLimits(cfg: Configuration.Config, file: UploadFile)
  {
    |file.transactionFile| <= Configuration.GetInt(cfg, MaxRowsTransactionsKey) &&
    |file.bankFile| <= Configuration.GetInt(cfg, MaxRowsBankKey)
  }

  /** The chunk results `Proceed` produces for bank code `c`, in chunk order. */
  function CodeResults(txs: seq<TransactionUploadFile>, banks: seq<BankStatementUploadFile>, maxChunk: int, c: string): seq<ResultReconciliation>
    requires maxChunk >= 1
  {
    ChunkResults(Chunks(WithCode(txs, TxCode, c), WithCode(banks, BankRowCode, c), maxChunk), c)
  }

  /**
   * `Proceed(ctx, file)`.  It fails with ErrorMaxRows exactly when a row
   * limit is exceeded.  Otherwise it returns one entry per bank code of
   * either file, in strictly ascending code order, and each entry adds up the
   * chunk results of its code.  The entries' mismatch lists are fixed only up
   * to order, as the arrival order of the chunk results is.
   */
  method Proceed(cfg: Configuration.Config, file: UploadFile) returns (r: Result<ShowResultReconciliation, ServiceError>)
    requires WithinLimits(cfg, file) && (|file.transactionFile| > 0 || |file.bankFile| > 0) ==>
      Configuration.GetInt(cfg, MaxChunkKey) >= 1 && ChunkSumFits(file, Configuration.GetInt(cfg, MaxChunkKey))
    ensures r.Failure? <==> !WithinLimits(cfg, file)
    ensures r.Failure? ==> r.error == ErrorMaxRows
    ensures r.Success? ==> StrictlySorted(r.value.ResultReconciliation)
    ensures r.Success? ==>
      Codes(r.value.ResultReconciliation, ResultCode) == Codes(file.transactionFile, TxCode) + Codes(file.bankFile, BankRowCode)
    ensures r.Success? ==> forall e :: e in r.value.ResultReconciliation ==>
      Configuration.GetInt(cfg, MaxChunkKey) >= 1 &&
      Summarize(e) == Total(CodeResults(file.transactionFile, file.bankFile, Configuration.GetInt(cfg, MaxChunkKey), e.BankCode))
  {
    var lengthTransaction := |file.transactionFile|;
    var maxRowsTransaction := Configuration.GetInt(cfg, MaxRowsTransactionsKey);
    if lengthTransaction > maxRowsTransaction {
      return Failure(ErrorMaxRows);
    }
    var lengthBank := |file.bankFile|;
    var maxRowsBank := Configuration.GetInt(cfg, MaxRowsBankKey);
    if lengthBank > maxRowsBank {
      return Failure(ErrorMaxRows);
    }

    // 1. group both files by bank code
    var transactionsByBank := Group(file.transactionFile, TxCode);
    var bankByBank := Group(file.bankFile, BankRowCode);

    // 2. the bank codes of either file
    GroupByKeys(file.transactionFile, TxCode);
    GroupByKeys(file.bankFile, BankRowCode);
    var uniqueBanks := transactionsByBank.Keys + bankByBank.Keys;
    var maxChunk := Configuration.GetInt(cfg, MaxChunkKey);
    CodesNeedRecords(file);

    // 3. chunk and reconcile each code, one chunk after another
    var finalResults: seq<ResultReconciliation> := [];
    var remaining := uniqueBanks;
    while remaining != {}
      invariant remaining <= uniqueBanks
      invariant forall c :: (WithCode(finalResults, ResultCode, c) ==
        if c in uniqueBanks - remaining then CodeResults(file.transactionFile, file.bankFile, maxChunk, c) else [])
      decreases remaining
    {
      var bankCode :| bankCode in remaining;
      var txs := Bucket(transactionsByBank, bankCode);
      var banks := Bucket(bankByBank, bankCode);
      GroupByBucket(file.transactionFile, TxCode, bankCode);
      GroupByBucket(file.bankFile, BankRowCode, bankCode);

      var block := CodeBlock(file, maxChunk, txs, banks, bankCode);
      CodeDone(file, maxChunk, uniqueBanks, remaining, finalResults, bankCode, block, finalResults + block);
      finalResults := finalResults + block;
      remaining := remaining - {bankCode};
    }

    // 4. sort, merge and sort again
    var sorted := SortByCode(finalResults);
    var show := ShowResults(sorted);
    ReportEntries(file, maxChunk, uniqueBanks, finalResults, sorted, show);
    return Success(show);
  }

  /**
   * The body of the bank-code loop for one code: the longer side's length,
   * nothing for a code without records, otherwise the chunk loop.
   */
  method CodeBlock(file: UploadFile, maxChunk: int, txs: seq<TransactionUploadFile>, banks: seq<BankStatementUploadFile>,
                   bankCode: string) returns (block: seq<ResultReconciliation>)
    requires maxChunk >= 1 && ChunkSumFits(file, maxChunk)
    requires bankCode in Codes(file.transactionFile, TxCode) + Codes(file.bankFile, BankRowCode)
    requires txs == WithCode(file.transactionFile, TxCode, bankCode) && banks == WithCode(file.bankFile, BankRowCode, bankCode)
    ensures block == CodeResults(file.transactionFile, file.bankFile, maxChunk, bankCode)
  {
    var maxLen := |txs|;
    if |banks| > maxLen {
      maxLen := |banks|;
    }
    if maxLen == 0 {
      return [];
    }
    CodeFits(file, maxChunk, bankCode);
    block := ReconcileChunks(txs, banks, maxLen, maxChunk, bankCode);
  }

  /** One step of the bank-code loop: the code's chunk results appended, the code marked done. */
  lemma CodeDone(file: UploadFile, maxChunk: int, uniqueBanks: set<string>, remaining: set<string>,
                 finalResults: seq<ResultReconciliation>, bankCode: string, block: seq<ResultReconciliation>,
                 next: seq<ResultReconciliation>)
    requires maxChunk >= 1 && bankCode in remaining && remaining <= uniqueBanks
    requires forall c :: (WithCode(finalResults, ResultCode, c) ==
        if c in uniqueBanks - remaining then CodeResults(file.transactionFile, file.bankFile, maxChunk, c) else [])
    requires block == ChunkResults(Chunks(WithCode(file.transactionFile, TxCode, bankCode),
                                          WithCode(file.bankFile, BankRowCode, bankCode), maxChunk), bankCode)
    requires next == finalResults + block
    ensures forall c :: (WithCode(next, ResultCode, c) ==
        if c in uniqueBanks - (remaining - {bankCode}) then CodeResults(file.transactionFile, file.bankFile, maxChunk, c) else [])
  {
    ChunkResultsCode(Chunks(WithCode(file.transactionFile, TxCode, bankCode),
                            WithCode(file.bankFile, BankRowCode, bankCode), maxChunk), bankCode);
    AppendCodeBlock(finalResults, block, bankCode);
    assert block == CodeResults(file.transactionFile, file.bankFile, maxChunk, bankCode);
    forall c
      ensures WithCode(next, ResultCode, c) ==
        if c in uniqueBanks - (remaining - {bankCode}) then CodeResults(file.transactionFile, file.bankFile, maxChunk, c) else []
    {
      ExtendSelection(uniqueBanks, remaining, bankCode, c, WithCode(finalResults, ResultCode, c),
                      WithCode(next, ResultCode, c), block, CodeResults(file.transactionFile, file.bankFile, maxChunk, c));
    }
  }

  /** Per code: finishing code `b` adds its block to b's selection and leaves every other code's as it was. */
  lemma ExtendSelection(uniqueBanks: set<string>, remaining: set<string>, b: string, c: string,
                        before: seq<ResultReconciliation>, after: seq<ResultReconciliation>,
                        block: seq<ResultReconciliation>, expected: seq<ResultReconciliation>)
    requires b in remaining && remaining <= uniqueBanks
    requires before == if c in uniqueBanks - remaining then expected else []
    requires after == before + (if c == b then block else [])
    requires c == b ==> block == expected
    ensures after == if c in uniqueBanks - (remaining - {b}) then expected else []
  {
    if c == b {
      assert before == [];
      assert [] + block == block;
    } else {
      assert before + [] == before;
    }
  }

  /** One grouping loop of `Proceed`: each record appended to the bucket of its bank code. */
  method Group<T>(s: seq<T>, code: T -> string) returns (groups: map<string, seq<T>>)
    ensures groups == GroupBy(s, code)
  {
    groups := map[];
    for i := 0 to |s|
      invariant groups == GroupBy(s[..i], code)
    {
      assert s[..i + 1][..i] == s[..i];
      var x := s[i];
      groups := groups[code(x) := Bucket(groups, code(x)) + [x]];
    }
    assert s[..|s|] == s;
  }

  /**
   * The chunk loop of `Proceed` for one bank code with records: cut both
   * sides at offsets 0, chunkSize, 2 * chunkSize, ... below maxLen and
   * reconcile each chunk, collecting the results in chunk order.
   */
  method ReconcileChunks(txs: seq<TransactionUploadFile>, banks: seq<BankStatementUploadFile>, maxLen: int, maxChunk: int, bankCode: string)
    returns (block: seq<ResultReconciliation>)
    requires maxChunk >= 1 && maxLen == Max(|txs|, |banks|) && maxLen > 0
    requires maxLen + maxChunk - 1 <= Configuration.MaxInt64
    ensures block == ChunkResults(Chunks(txs, banks, maxChunk), bankCode)
  {
    var chunkSize := QuoTrunc(Wrap64(maxLen + maxChunk - 1), maxChunk);
    ChunkSizeAsWrittenAgrees(maxLen, maxChunk);
    FirstChunkOffset(txs, banks, maxLen, maxChunk);
    ghost var target := ChunkResults(Chunks(txs, banks, maxChunk), bankCode);
    ghost var rest := ChunksFrom(txs, banks, chunkSize, 0, maxLen);
    block := [];
    var i := 0;
    while i < maxLen
      invariant 0 <= i
      invariant rest == ChunksFrom(txs, banks, chunkSize, i, maxLen)
      invariant block + ChunkResults(rest, bankCode) == target
      decreases maxLen - i
    {
      var end := i + chunkSize;
      var txChunk := SafeSliceAt(txs, i, end);
      var bankChunk := SafeSliceAt(banks, i, end);
      var res := Reconcile(txChunk, bankChunk, bankCode);
      NextChunk(txs, banks, chunkSize, i, end, maxLen, bankCode, block, rest, res, target);
      block := block + [res];
      rest := ChunksFrom(txs, banks, chunkSize, end, maxLen);
      i := end;
    }
    assert ChunksFrom(txs, banks, chunkSize, i, maxLen) == [];
  }

  /** The safe slicing of the chunk loop: `s[i:min(end, len(s))]`, or nil once i is past the end. */
  method SafeSliceAt<T>(s: seq<T>, i: nat, end: nat) returns (chunk: seq<T>)
    requires i <= end
    ensures chunk == SafeSlice(s, i, end)
  {
    var sliceEnd := end;
    if sliceEnd > |s| {
      sliceEnd := |s|;
    }
    chunk := [];
    if i < |s| {
      chunk := s[i..sliceEnd];
    }
  }

  /** The codes of the grouping are codes of records, so some record exists when a code does. */
  lemma CodesNeedRecords(file: UploadFile)
    ensures Codes(file.transactionFile, TxCode) + Codes(file.bankFile, BankRowCode) != {} ==>
      |file.transactionFile| > 0 || |file.bankFile| > 0
  {
  }

  /** The chunk loop starts at offset 0 with the chunk size ceil(maxLen / maxChunk). */
  lemma FirstChunkOffset(txs: seq<TransactionUploadFile>, banks: seq<BankStatementUploadFile>, maxLen: int, maxChunk: int)
    requires maxChunk >= 1 && maxLen == Max(|txs|, |banks|) && maxLen > 0
    ensures (maxLen + maxChunk - 1) / maxChunk >= 1
    ensures Chunks(txs, banks, maxChunk) == ChunksFrom(txs, banks, (maxLen + maxChunk - 1) / maxChunk, 0, maxLen)
  {
    assert (maxLen + maxChunk - 1) / maxChunk == ChunkSize(maxLen, maxChunk);
  }

  /** One step of the chunk loop: the result of the chunk at offset i, then the results of the chunks after it. */
  lemma NextChunk(txs: seq<TransactionUploadFile>, banks: seq<BankStatementUploadFile>, size: int, i: nat, end: nat, maxLen: nat,
                  bc: string, block: seq<ResultReconciliation>, rest: seq<Chunk>, res: ResultReconciliation,
                  target: seq<ResultReconciliation>)
    requires size >= 1 && i < maxLen && end == i + size
    requires rest == ChunksFrom(txs, banks, size, i, maxLen)
    requires block + ChunkResults(rest, bc) == target
    requires res == ChunkResult(SafeSlice(txs, i, end), SafeSlice(banks, i, end), bc)
    ensures (block + [res]) + ChunkResults(ChunksFrom(txs, banks, size, end, maxLen), bc) == target
  {
    var first := Chunk(SafeSlice(txs, i, end), SafeSlice(banks, i, end));
    var after := ChunksFrom(txs, banks, size, end, maxLen);
    assert rest == [first] + after;
    assert rest[0] == first && rest[1..] == after;
    var tail := ChunkResults(after, bc);
    assert ChunkResults(rest, bc) == [res] + tail;
    assert block + ([res] + tail) == (block + [res]) + tail;
  }

  /** Every chunk result of a code carries that code. */
  lemma {:induction false} ChunkResultsCode(chunks: seq<Chunk>, bc: string)
    ensures forall r :: r in ChunkResults(chunks, bc) ==> r.BankCode == bc
  {
    if chunks != [] {
      ChunkResultsCode(chunks[1..], bc);
    }
  }

  /** Appending a block of results of one code extends that code's selection by the block and no other. */
  lemma AppendCodeBlock(rs: seq<ResultReconciliation>, block: seq<ResultReconciliation>, code: string)
    requires forall r :: r in block ==> r.BankCode == code
    ensures forall c :: WithCode(rs + block, ResultCode, c) == WithCode(rs, ResultCode, c) + (if c == code then block else [])
  {
    forall c ensures WithCode(rs + block, ResultCode, c) == WithCode(rs, ResultCode, c) + (if c == code then block else []) {
      WithCodeAppend(rs, block, ResultCode, c);
      UniformBlock(block, code, c);
    }
  }

  lemma {:induction false} UniformBlock(block: seq<ResultReconciliation>, code: string, c: string)
    requires forall r :: r in block ==> r.BankCode == code
    ensures WithCode(block, ResultCode, c) == if c == code then block else []
  {
    if block != [] {
      var init := block[..|block| - 1];
      assert forall r :: r in init ==> r in block;
      UniformBlock(init, code, c);
      assert block == init + [block[|block| - 1]];
    }
  }

  /** A code of either file has at least one chunk result. */
  lemma CodeResultsNonEmpty(txs: seq<TransactionUploadFile>, banks: seq<BankStatementUploadFile>, maxChunk: int, c: string)
    requires maxChunk >= 1 && c in Codes(txs, TxCode) + Codes(banks, BankRowCode)
    ensures CodeResults(txs, banks, maxChunk, c) != []
  {
    if c in Codes(txs, TxCode) {
      WithCodeNonEmpty(txs, TxCode, c);
    } else {
      WithCodeNonEmpty(banks, BankRowCode, c);
    }
    var chunks := Chunks(WithCode(txs, TxCode, c), WithCode(banks, BankRowCode, c), maxChunk);
    ChunkingCount(WithCode(txs, TxCode, c), WithCode(banks, BankRowCode, c), maxChunk);
    ChunkResultsCover(chunks, c);
  }

  /** What the sorted, merged report says, from what the chunk loop collected. */
  lemma ReportEntries(file: UploadFile, maxChunk: int, uniqueBanks: set<string>,
                      finalResults: seq<ResultReconciliation>, sorted: seq<ResultReconciliation>, show: ShowResultReconciliation)
    requires uniqueBanks == Codes(file.transactionFile, TxCode) + Codes(file.bankFile, BankRowCode)
    requires uniqueBanks != {} ==> maxChunk >= 1
    requires forall c :: (WithCode(finalResults, ResultCode, c) ==
        if c in uniqueBanks then CodeResults(file.transactionFile, file.bankFile, maxChunk, c) else [])
    requires multiset(sorted) == multiset(finalResults)
    requires Codes(show.ResultReconciliation, ResultCode) == Codes(sorted, ResultCode)
    requires forall e :: e in show.ResultReconciliation ==>
      WithCode(sorted, ResultCode, e.BankCode) != [] &&
      Summarize(e) == Total(WithCode(sorted, ResultCode, e.BankCode))
    ensures Codes(show.ResultReconciliation, ResultCode) == uniqueBanks
    ensures forall e :: e in show.ResultReconciliation ==>
      maxChunk >= 1 &&
      Summarize(e) == Total(CodeResults(file.transactionFile, file.bankFile, maxChunk, e.BankCode))
  {
    SameCodes(sorted, finalResults);
    forall c ensures c in Codes(finalResults, ResultCode) <==> c in uniqueBanks {
      var run := WithCode(finalResults, ResultCode, c);
      if c in uniqueBanks {
        CodeResultsNonEmpty(file.transactionFile, file.bankFile, maxChunk, c);
        WithCodeMembers(finalResults, ResultCode, c, run[0]);
      }
      if c in Codes(finalResults, ResultCode) {
        WithCodeNonEmpty(finalResults, ResultCode, c);
      }
    }
    forall e | e in show.ResultReconciliation
      ensures maxChunk >= 1 &&
        Summarize(e) == Total(CodeResults(file.transactionFile, file.bankFile, maxChunk, e.BankCode))
    {
      var c := e.BankCode;
      assert c in Codes(show.ResultReconciliation, ResultCode);
      WithCodePermutation(sorted, finalResults, c);
      TotalPermutation(WithCode(sorted, ResultCode, c), WithCode(finalResults, ResultCode, c));
    }
  }
}
