/**
 * What one entry of the reconciliation report says about the uploaded
 * records of its bank code.  `ReconService.Proceed` ensures that the entry of
 * code c summarises to `Total(CodeResults(txs, banks, maxChunk, c))`; the
 * lemmas here read that total back in terms of the upload itself, and work
 * the scenarios of application/recon/service_test.go through the model.
 */
module ReconReport {
  import opened ReconModel
  import opened ReconMatching
  import opened ReconChunking
  import opened ReconMerge
  import opened ReconService
  import Configuration
  import HttpController

  // ---------------------------------------------------------------------------
  // The total of a run of chunk results

  lemma TotalSingle(r: ResultReconciliation)
    ensures Total([r]) == Summarize(r)
  {
    assert [r][..0] == [];
  }

  /**
   * A summary accounts for the records `txs` and `banks` when it counts every
   * transaction once, matched and unmatched split that count, the unmatched
   * count is the length of the transaction-mismatch list, the discrepancy is
   * not negative and the two mismatch lists draw only on those records.
   */
  predicate Accounts(s: Summary, txs: seq<TransactionUploadFile>, banks: seq<BankStatementUploadFile>)
  {
    && s.total == |txs|
    && s.matched + s.unmatched == s.total
    && s.unmatched == |s.txMismatched|
    && s.discrepancy >= 0.0
    && s.txMismatched <= multiset(txs)
    && s.bankMismatched <= multiset(banks)
  }

  lemma ChunkAccounts(txs: seq<TransactionUploadFile>, banks: seq<BankStatementUploadFile>, bc: string)
    ensures Accounts(Summarize(ChunkResult(txs, banks, bc)), txs, banks)
  {
    ChunkResultCounts(txs, banks, bc);
    UnmatchedWithin(txs, BankIndex(banks));
    UnclaimedWithin(banks, ClaimedIds(txs, BankIndex(banks)));
  }

  lemma PlusAccounts(a: Summary, ta: seq<TransactionUploadFile>, ba: seq<BankStatementUploadFile>,
                     b: Summary, tb: seq<TransactionUploadFile>, bb: seq<BankStatementUploadFile>)
    requires Accounts(a, ta, ba) && Accounts(b, tb, bb)
    ensures Accounts(Plus(a, b), ta + tb, ba + bb)
  {
    assert multiset(ta + tb) == multiset(ta) + multiset(tb);
    assert multiset(ba + bb) == multiset(ba) + multiset(bb);
  }

  /** The results of a chunk followed by the results of the chunks after it. */
  lemma TotalFirstChunk(chunks: seq<Chunk>, bc: string)
    requires chunks != []
    ensures Total(ChunkResults(chunks, bc))
         == Plus(Summarize(ChunkResult(chunks[0].txs, chunks[0].banks, bc)), Total(ChunkResults(chunks[1..], bc)))
  {
    var r0 := ChunkResult(chunks[0].txs, chunks[0].banks, bc);
    assert ChunkResults(chunks, bc) == [r0] + ChunkResults(chunks[1..], bc);
    TotalAppend([r0], ChunkResults(chunks[1..], bc));
    TotalSingle(r0);
  }

  /** Over any chunking, the merged total accounts for the chunked records. */
  lemma {:induction false} TotalChunkResults(chunks: seq<Chunk>, bc: string)
    ensures Accounts(Total(ChunkResults(chunks, bc)), ConcatTxs(chunks), ConcatBanks(chunks))
  {
    if chunks != [] {
      TotalChunkResults(chunks[1..], bc);
      TotalFirstChunk(chunks, bc);
      ChunkAccounts(chunks[0].txs, chunks[0].banks, bc);
      PlusAccounts(Summarize(ChunkResult(chunks[0].txs, chunks[0].banks, bc)), chunks[0].txs, chunks[0].banks,
                   Total(ChunkResults(chunks[1..], bc)), ConcatTxs(chunks[1..]), ConcatBanks(chunks[1..]));
    }
  }

  /** Nothing of `txs` was found: none matched, no discrepancy, every one listed, no bank row listed. */
  predicate NoneFound(s: Summary, txs: seq<TransactionUploadFile>)
  {
    s.matched == 0 && s.discrepancy == 0.0 && s.txMismatched == multiset(txs) && s.bankMismatched == multiset{}
  }

  /** No transaction was counted and every row of `banks` is listed. */
  predicate NoneClaimed(s: Summary, banks: seq<BankStatementUploadFile>)
  {
    s.total == 0 && s.discrepancy == 0.0 && s.txMismatched == multiset{} && s.bankMismatched == multiset(banks)
  }

  /** When no chunk carries a bank row, every transaction is a mismatch and nothing is found. */
  lemma {:induction false} NoBankRows(chunks: seq<Chunk>, bc: string)
    requires ConcatBanks(chunks) == []
    ensures NoneFound(Total(ChunkResults(chunks, bc)), ConcatTxs(chunks))
  {
    if chunks != [] {
      var c0 := chunks[0];
      assert c0.banks == [];
      NoBankRows(chunks[1..], bc);
      TotalFirstChunk(chunks, bc);
      NothingToMatch(c0.txs);
      assert BankIndex(c0.banks) == map[];
      assert NoneFound(Summarize(ChunkResult(c0.txs, c0.banks, bc)), c0.txs);
      assert multiset(c0.txs + ConcatTxs(chunks[1..])) == multiset(c0.txs) + multiset(ConcatTxs(chunks[1..]));
    }
  }

  /** When no chunk carries a transaction, nothing is counted and every bank row is a mismatch. */
  lemma {:induction false} NoTransactions(chunks: seq<Chunk>, bc: string)
    requires ConcatTxs(chunks) == []
    ensures NoneClaimed(Total(ChunkResults(chunks, bc)), ConcatBanks(chunks))
  {
    if chunks != [] {
      var c0 := chunks[0];
      assert c0.txs == [];
      NoTransactions(chunks[1..], bc);
      TotalFirstChunk(chunks, bc);
      NothingClaimed(c0.banks);
      assert NoneClaimed(Summarize(ChunkResult(c0.txs, c0.banks, bc)), c0.banks);
      assert multiset(c0.banks + ConcatBanks(chunks[1..])) == multiset(c0.banks) + multiset(ConcatBanks(chunks[1..]));
    }
  }

  // ---------------------------------------------------------------------------
  // The entry of one bank code, in terms of the upload

  /**
   * The entry of code c counts exactly the uploaded transactions of code c,
   * and its mismatch lists hold only records of code c.
   */
  lemma CodeReport(txs: seq<TransactionUploadFile>, banks: seq<BankStatementUploadFile>, maxChunk: int, c: string)
    requires maxChunk >= 1
    ensures Total(CodeResults(txs, banks, maxChunk, c)).total == |WithCode(txs, TxCode, c)|
    ensures Total(CodeResults(txs, banks, maxChunk, c)).matched + Total(CodeResults(txs, banks, maxChunk, c)).unmatched
         == |WithCode(txs, TxCode, c)|
    ensures Total(CodeResults(txs, banks, maxChunk, c)).unmatched == |Total(CodeResults(txs, banks, maxChunk, c)).txMismatched|
    ensures Total(CodeResults(txs, banks, maxChunk, c)).discrepancy >= 0.0
    ensures Total(CodeResults(txs, banks, maxChunk, c)).txMismatched <= multiset(WithCode(txs, TxCode, c))
    ensures Total(CodeResults(txs, banks, maxChunk, c)).bankMismatched <= multiset(WithCode(banks, BankRowCode, c))
  {
    var chunks := Chunks(WithCode(txs, TxCode, c), WithCode(banks, BankRowCode, c), maxChunk);
    ChunkingCovers(WithCode(txs, TxCode, c), WithCode(banks, BankRowCode, c), maxChunk);
    TotalChunkResults(chunks, c);
  }

  /** A code with transactions but no bank rows: all its transactions are reported unmatched. */
  lemma CodeWithoutBankRows(txs: seq<TransactionUploadFile>, banks: seq<BankStatementUploadFile>, maxChunk: int, c: string)
    requires maxChunk >= 1 && c !in Codes(banks, BankRowCode)
    ensures Total(CodeResults(txs, banks, maxChunk, c)).total == |WithCode(txs, TxCode, c)|
    ensures Total(CodeResults(txs, banks, maxChunk, c)).matched == 0
    ensures Total(CodeResults(txs, banks, maxChunk, c)).unmatched == |WithCode(txs, TxCode, c)|
    ensures Total(CodeResults(txs, banks, maxChunk, c)).discrepancy == 0.0
    ensures Total(CodeResults(txs, banks, maxChunk, c)).txMismatched == multiset(WithCode(txs, TxCode, c))
    ensures Total(CodeResults(txs, banks, maxChunk, c)).bankMismatched == multiset{}
  {
    NoRecordsOfCode(banks, BankRowCode, c);
    var chunks := Chunks(WithCode(txs, TxCode, c), WithCode(banks, BankRowCode, c), maxChunk);
    ChunkingCovers(WithCode(txs, TxCode, c), WithCode(banks, BankRowCode, c), maxChunk);
    NoBankRows(chunks, c);
    TotalChunkResults(chunks, c);
  }

  /** A code with bank rows but no transactions: nothing is counted and all its rows are reported unmatched. */
  lemma CodeWithoutTransactions(txs: seq<TransactionUploadFile>, banks: seq<BankStatementUploadFile>, maxChunk: int, c: string)
    requires maxChunk >= 1 && c !in Codes(txs, TxCode)
    ensures Total(CodeResults(txs, banks, maxChunk, c)).total == 0
    ensures Total(CodeResults(txs, banks, maxChunk, c)).matched == 0
    ensures Total(CodeResults(txs, banks, maxChunk, c)).unmatched == 0
    ensures Total(CodeResults(txs, banks, maxChunk, c)).discrepancy == 0.0
    ensures Total(CodeResults(txs, banks, maxChunk, c)).txMismatched == multiset{}
    ensures Total(CodeResults(txs, banks, maxChunk, c)).bankMismatched == multiset(WithCode(banks, BankRowCode, c))
  {
    NoRecordsOfCode(txs, TxCode, c);
    var chunks := Chunks(WithCode(txs, TxCode, c), WithCode(banks, BankRowCode, c), maxChunk);
    ChunkingCovers(WithCode(txs, TxCode, c), WithCode(banks, BankRowCode, c), maxChunk);
    NoTransactions(chunks, c);
    TotalChunkResults(chunks, c);
  }

  lemma NoRecordsOfCode<T>(s: seq<T>, code: T -> string, c: string)
    requires c !in Codes(s, code)
    ensures WithCode(s, code, c) == []
  {
    if WithCode(s, code, c) != [] {
      var x := WithCode(s, code, c)[0];
      WithCodeMembers(s, code, c, x);
      assert false;
    }
  }

  // ---------------------------------------------------------------------------
  // The shape of the report

  /** A report whose entries are strictly ordered has one entry per code. */
  lemma OneCodeReport(rs: seq<ResultReconciliation>, a: string)
    requires StrictlySorted(rs) && Codes(rs, ResultCode) == {a}
    ensures |rs| == 1 && rs[0].BankCode == a
  {
    assert rs != [] by { assert a in Codes(rs, ResultCode); }
    if |rs| >= 2 {
      assert ResultCode(rs[0]) in Codes(rs, ResultCode) && ResultCode(rs[1]) in Codes(rs, ResultCode);
      StrLessIrreflexive(a);
    }
  }

  /** With two codes a < b, the report is the entry of a followed by the entry of b. */
  lemma TwoCodeReport(rs: seq<ResultReconciliation>, a: string, b: string)
    requires StrictlySorted(rs) && Codes(rs, ResultCode) == {a, b} && StrLess(a, b)
    ensures |rs| == 2 && rs[0].BankCode == a && rs[1].BankCode == b
  {
    StrLessIrreflexive(a);
    assert a in Codes(rs, ResultCode) && b in Codes(rs, ResultCode);
    var i :| 0 <= i < |rs| && rs[i].BankCode == a;
    var j :| 0 <= j < |rs| && rs[j].BankCode == b;
    assert i != j;
    if |rs| >= 3 {
      assert ResultCode(rs[0]) in Codes(rs, ResultCode);
      assert ResultCode(rs[1]) in Codes(rs, ResultCode);
      assert ResultCode(rs[2]) in Codes(rs, ResultCode);
      StrLessIrreflexive(b);
      assert false;
    }
    if j < i {
      StrLessAsymmetric(a, b);
      assert false;
    }
  }

  /** A sequence whose records all carry code c is its own bucket of c. */
  lemma {:induction false} AllOfCode<T>(s: seq<T>, code: T -> string, c: string)
    requires forall k :: 0 <= k < |s| ==> code(s[k]) == c
    ensures WithCode(s, code, c) == s
  {
    if s != [] {
      AllOfCode(s[..|s| - 1], code, c);
    }
  }

  // ---------------------------------------------------------------------------
  // The scenarios of the service tests

  const Now: int := 1_700_000_000
  const TwoDaysEarlier: int := Now - 48 * 3600

  const Tx1 := TransactionUploadFile("TX1", "", 1000.0, "", "BANK1", Now)
  const Tx2 := TransactionUploadFile("TX2", "", 2000.0, "", "BANK1", TwoDaysEarlier)
  const Tx3 := TransactionUploadFile("TX3", "", 3000.0, "", "BANK1", Now)
  const Row1 := BankStatementUploadFile("TX1", 1000.0, Now, "BANK1")
  const Row3 := BankStatementUploadFile("TX3", 3500.0, Now, "BANK1")
  const BankOnly := BankStatementUploadFile("BANK_ONLY", 500.0, Now, "BANK1")

  /** The bank file of the filtering scenario of service_test.go. */
  const ScenarioBanks := [Row1, Row3, BankOnly]

  /** Three chunks of one row each, as a chunk size of 1 cuts three positions. */
  lemma ThreeChunks(txs: seq<TransactionUploadFile>, banks: seq<BankStatementUploadFile>)
    requires Max(|txs|, |banks|) == 3
    ensures Chunks(txs, banks, 10)
         == [Chunk(SafeSlice(txs, 0, 1), SafeSlice(banks, 0, 1)),
             Chunk(SafeSlice(txs, 1, 2), SafeSlice(banks, 1, 2)),
             Chunk(SafeSlice(txs, 2, 3), SafeSlice(banks, 2, 3))]
  {
    assert ChunkSize(3, 10) == 1;
    assert ChunksFrom(txs, banks, 1, 3, 3) == [];
  }

  /** The total of three chunk results, first to last. */
  lemma TotalOfThree(chunks: seq<Chunk>, bc: string)
    requires |chunks| == 3
    ensures Total(ChunkResults(chunks, bc))
         == Plus(Summarize(ChunkResult(chunks[0].txs, chunks[0].banks, bc)),
              Plus(Summarize(ChunkResult(chunks[1].txs, chunks[1].banks, bc)),
                Plus(Summarize(ChunkResult(chunks[2].txs, chunks[2].banks, bc)), NoSummary)))
  {
    var c1, c2 := chunks[1..], chunks[2..];
    assert c1[0] == chunks[1] && c1[1..] == c2;
    assert c2[0] == chunks[2] && c2[1..] == [];
    TotalFirstChunk(c2, bc);
    TotalFirstChunk(c1, bc);
    TotalFirstChunk(chunks, bc);
  }

  /** A one-row chunk whose transaction is matched by its bank row. */
  lemma ChunkMatched(tx: TransactionUploadFile, row: BankStatementUploadFile, bc: string)
    requires row.UniqueID == tx.TransactionID && row.Amount == tx.Amount
    ensures Summarize(ChunkResult([tx], [row], bc)) == Summary(1, 1, 0, 0.0, multiset{}, multiset{})
  {
    var index := OneRowIndex(row);
    assert [tx][..0] == [] && [row][..0] == [];
    assert IsMatch(tx, index);
    assert ChunkResult([tx], [row], bc)
        == ResultReconciliation(1, 1, 0, ResultReconciliationDetails([], []), 0.0, bc) by {
      assert MatchedTxs([tx], index) == [tx];
      assert UnmatchedTxs([tx], index) == [];
      assert Discrepancy([tx], index) == 0.0;
      assert ClaimedIds([tx], index) == {tx.TransactionID};
      assert UnclaimedBanks([row], {tx.TransactionID}) == [];
    }
  }

  lemma OneRowIndex(row: BankStatementUploadFile) returns (index: map<string, BankStatementUploadFile>)
    ensures index == BankIndex([row]) && index == map[row.UniqueID := row]
  {
    assert [row][..0] == [];
    index := BankIndex([row]);
  }

  /** A one-row chunk whose transaction finds its bank row with a different amount. */
  lemma ChunkAmountDiffers(tx: TransactionUploadFile, row: BankStatementUploadFile, bc: string)
    requires row.UniqueID == tx.TransactionID && row.Amount != tx.Amount
    ensures Summarize(ChunkResult([tx], [row], bc))
         == Summary(1, 0, 1, Abs(tx.Amount - row.Amount), multiset{tx}, multiset{})
  {
    var index := OneRowIndex(row);
    assert [tx][..0] == [] && [row][..0] == [];
    assert MatchedTxs([tx], index) == [];
    assert UnmatchedTxs([tx], index) == [tx];
    assert Discrepancy([tx], index) == Abs(tx.Amount - row.Amount);
    assert ClaimedIds([tx], index) == {tx.TransactionID};
    assert UnclaimedBanks([row], {tx.TransactionID}) == [];
  }

  /** A one-row chunk whose transaction and bank row carry different keys. */
  lemma ChunkKeysDiffer(tx: TransactionUploadFile, row: BankStatementUploadFile, bc: string)
    requires row.UniqueID != tx.TransactionID
    ensures Summarize(ChunkResult([tx], [row], bc)) == Summary(1, 0, 1, 0.0, multiset{tx}, multiset{row})
  {
    var index := OneRowIndex(row);
    assert [tx][..0] == [] && [row][..0] == [];
    assert MatchedTxs([tx], index) == [];
    assert UnmatchedTxs([tx], index) == [tx];
    assert Discrepancy([tx], index) == 0.0;
    assert ClaimedIds([tx], index) == {};
    assert UnclaimedBanks([row], {}) == [row];
  }

  /** A chunk holding only a bank row. */
  lemma ChunkBankOnly(row: BankStatementUploadFile, bc: string)
    ensures Summarize(ChunkResult([], [row], bc)) == Summary(0, 0, 0, 0.0, multiset{}, multiset{row})
  {
    var index := OneRowIndex(row);
    assert ClaimedIds([], index) == {};
    assert UnclaimedBanks([row], {}) == [row];
  }

  /**
   * With the window already applied (TX2 dropped), the single BANK1 entry
   * counts two transactions, one match, one mismatch (TX3, off by 500) and
   * the bank-only row: the figures the service test expects.
   */
  lemma FilteredScenario()
    ensures Total(CodeResults([Tx1, Tx3], ScenarioBanks, 10, "BANK1"))
         == Summary(2, 1, 1, 500.0, multiset{Tx3}, multiset{BankOnly})
  {
    var chunks := FilteredChunks();
    TotalOfThree(chunks, "BANK1");
    ChunkMatched(Tx1, Row1, "BANK1");
    ChunkAmountDiffers(Tx3, Row3, "BANK1");
    ChunkBankOnly(BankOnly, "BANK1");
    assert Abs(Tx3.Amount - Row3.Amount) == 500.0;
    FilteredSum();
  }

  /** Both files of the filtering scenario carry only BANK1, so the report has one entry. */
  lemma FilteredCodes(show: seq<ResultReconciliation>)
    requires StrictlySorted(show)
    requires Codes(show, ResultCode) == Codes([Tx1, Tx3], TxCode) + Codes(ScenarioBanks, BankRowCode)
    ensures |show| == 1 && show[0].BankCode == "BANK1"
  {
    TxCodesOfScenario([Tx1, Tx3]);
    BankCodesOfScenario();
    OneCodeReport(show, "BANK1");
  }

  /** The chunks of the filtered upload: one row each, aligned by position. */
  lemma FilteredChunks() returns (chunks: seq<Chunk>)
    ensures chunks == [Chunk([Tx1], [Row1]), Chunk([Tx3], [Row3]), Chunk([], [BankOnly])]
    ensures CodeResults([Tx1, Tx3], ScenarioBanks, 10, "BANK1") == ChunkResults(chunks, "BANK1")
  {
    var txs := [Tx1, Tx3];
    AllOfCode(txs, TxCode, "BANK1");
    AllOfCode(ScenarioBanks, BankRowCode, "BANK1");
    assert CodeResults(txs, ScenarioBanks, 10, "BANK1") == ChunkResults(Chunks(txs, ScenarioBanks, 10), "BANK1");
    ThreeChunks(txs, ScenarioBanks);
    assert SafeSlice(txs, 0, 1) == [Tx1] && SafeSlice(txs, 1, 2) == [Tx3] && SafeSlice(txs, 2, 3) == [];
    assert SafeSlice(ScenarioBanks, 0, 1) == [Row1] && SafeSlice(ScenarioBanks, 1, 2) == [Row3];
    assert SafeSlice(ScenarioBanks, 2, 3) == [BankOnly];
    chunks := [Chunk([Tx1], [Row1]), Chunk([Tx3], [Row3]), Chunk([], [BankOnly])];
    assert Chunks(txs, ScenarioBanks, 10) == chunks;
  }

  /** The chunks of the unfiltered upload: TX2 takes the position of the TX3 bank row. */
  lemma UnfilteredChunks() returns (chunks: seq<Chunk>)
    ensures chunks == [Chunk([Tx1], [Row1]), Chunk([Tx2], [Row3]), Chunk([Tx3], [BankOnly])]
    ensures CodeResults([Tx1, Tx2, Tx3], ScenarioBanks, 10, "BANK1") == ChunkResults(chunks, "BANK1")
  {
    var txs := [Tx1, Tx2, Tx3];
    AllOfCode(txs, TxCode, "BANK1");
    AllOfCode(ScenarioBanks, BankRowCode, "BANK1");
    assert CodeResults(txs, ScenarioBanks, 10, "BANK1") == ChunkResults(Chunks(txs, ScenarioBanks, 10), "BANK1");
    ThreeChunks(txs, ScenarioBanks);
    assert SafeSlice(txs, 0, 1) == [Tx1] && SafeSlice(txs, 1, 2) == [Tx2] && SafeSlice(txs, 2, 3) == [Tx3];
    assert SafeSlice(ScenarioBanks, 0, 1) == [Row1] && SafeSlice(ScenarioBanks, 1, 2) == [Row3];
    assert SafeSlice(ScenarioBanks, 2, 3) == [BankOnly];
    chunks := [Chunk([Tx1], [Row1]), Chunk([Tx2], [Row3]), Chunk([Tx3], [BankOnly])];
    assert Chunks(txs, ScenarioBanks, 10) == chunks;
  }

  lemma FilteredSum()
    ensures Plus(Summary(1, 1, 0, 0.0, multiset{}, multiset{}),
              Plus(Summary(1, 0, 1, 500.0, multiset{Tx3}, multiset{}),
                Plus(Summary(0, 0, 0, 0.0, multiset{}, multiset{BankOnly}), NoSummary)))
         == Summary(2, 1, 1, 500.0, multiset{Tx3}, multiset{BankOnly})
  {
  }

  lemma UnfilteredSum()
    ensures Plus(Summary(1, 1, 0, 0.0, multiset{}, multiset{}),
              Plus(Summary(1, 0, 1, 0.0, multiset{Tx2}, multiset{Row3}),
                Plus(Summary(1, 0, 1, 0.0, multiset{Tx3}, multiset{BankOnly}), NoSummary)))
         == Summary(3, 1, 2, 0.0, multiset{Tx2, Tx3}, multiset{Row3, BankOnly})
  {
  }

  lemma TxCodesOfScenario(txs: seq<TransactionUploadFile>)
    requires txs != [] && forall k :: 0 <= k < |txs| ==> txs[k].BankCode == "BANK1"
    ensures Codes(txs, TxCode) == {"BANK1"}
  {
    assert TxCode(txs[0]) in Codes(txs, TxCode);
  }

  lemma BankCodesOfScenario()
    ensures Codes(ScenarioBanks, BankRowCode) == {"BANK1"}
  {
    assert BankRowCode(ScenarioBanks[0]) in Codes(ScenarioBanks, BankRowCode);
  }

  /**
   * The same upload with TX2 still in it, as the service test hands it to
   * the service: chunking by position puts TX3 and its bank row in different
   * chunks, so TX3 is reported without its discrepancy and the TX3 bank row
   * is listed as unmatched.
   */
  lemma UnfilteredScenario()
    ensures Total(CodeResults([Tx1, Tx2, Tx3], ScenarioBanks, 10, "BANK1"))
         == Summary(3, 1, 2, 0.0, multiset{Tx2, Tx3}, multiset{Row3, BankOnly})
  {
    var chunks := UnfilteredChunks();
    TotalOfThree(chunks, "BANK1");
    ChunkMatched(Tx1, Row1, "BANK1");
    ChunkKeysDiffer(Tx2, Row3, "BANK1");
    ChunkKeysDiffer(Tx3, BankOnly, "BANK1");
    UnfilteredSum();
  }

  const B1Tx1 := TransactionUploadFile("B1TX1", "", 100.0, "", "BANK1", Now)
  const B1Tx2 := TransactionUploadFile("B1TX2", "", 200.0, "", "BANK1", Now)
  const B2Tx1 := TransactionUploadFile("B2TX1", "", 300.0, "", "BANK2", Now)
  const B1Row1 := BankStatementUploadFile("B1TX1", 100.0, Now, "BANK1")
  const B1Row2 := BankStatementUploadFile("B1TX2", 200.0, Now, "BANK1")
  const B2Row1 := BankStatementUploadFile("B2TX1", 300.0, Now, "BANK2")

  lemma MultiBankTxCodes()
    ensures Codes([B1Tx1, B1Tx2, B2Tx1], TxCode) == {"BANK1", "BANK2"}
  {
    var txs := [B1Tx1, B1Tx2, B2Tx1];
    assert TxCode(txs[0]) in Codes(txs, TxCode) && TxCode(txs[2]) in Codes(txs, TxCode);
  }

  lemma MultiBankRowCodes()
    ensures Codes([B1Row1, B1Row2, B2Row1], BankRowCode) == {"BANK1", "BANK2"}
  {
    var banks := [B1Row1, B1Row2, B2Row1];
    assert BankRowCode(banks[0]) in Codes(banks, BankRowCode) && BankRowCode(banks[2]) in Codes(banks, BankRowCode);
  }

  lemma Bank1BeforeBank2()
    ensures StrLess("BANK1", "BANK2")
  {
    assert "BANK1"[1..] == "ANK1" && "BANK2"[1..] == "ANK2";
    assert "ANK1"[1..] == "NK1" && "ANK2"[1..] == "NK2";
    assert "NK1"[1..] == "K1" && "NK2"[1..] == "K2";
    assert "K1"[1..] == "1" && "K2"[1..] == "2";
  }

  /**
   * Two banks in both files: the report holds the BANK1 entry and then the
   * BANK2 entry, whatever order the chunk results arrived in.
   */
  lemma MultiBankOrder(show: seq<ResultReconciliation>)
    requires StrictlySorted(show)
    requires Codes(show, ResultCode)
          == Codes([B1Tx1, B1Tx2, B2Tx1], TxCode) + Codes([B1Row1, B1Row2, B2Row1], BankRowCode)
    ensures |show| == 2 && show[0].BankCode == "BANK1" && show[1].BankCode == "BANK2"
  {
    MultiBankTxCodes();
    MultiBankRowCodes();
    Bank1BeforeBank2();
    TwoCodeReport(show, "BANK1", "BANK2");
  }

  /**
   * A code in one file only: the report still holds an entry for each, the
   * BANK1 entry listing its transaction as unmatched and the BANK2 entry
   * listing its bank row as unmatched.
   */
  lemma OneSidedCodes(show: seq<ResultReconciliation>)
    requires StrictlySorted(show)
    requires Codes(show, ResultCode) == Codes([B1Tx1], TxCode) + Codes([B2Row1], BankRowCode)
    requires forall e :: e in show ==> Summarize(e) == Total(CodeResults([B1Tx1], [B2Row1], 2, e.BankCode))
    ensures |show| == 2
    ensures Summarize(show[0]) == Summary(1, 0, 1, 0.0, multiset{B1Tx1}, multiset{})
    ensures Summarize(show[1]) == Summary(0, 0, 0, 0.0, multiset{}, multiset{B2Row1})
  {
    OneSidedCodeSet();
    Bank1BeforeBank2();
    TwoCodeReport(show, "BANK1", "BANK2");
    OneSidedBank1();
    OneSidedBank2();
    assert show[0] in show && show[1] in show;
  }

  lemma OneSidedCodeSet()
    ensures Codes([B1Tx1], TxCode) + Codes([B2Row1], BankRowCode) == {"BANK1", "BANK2"}
  {
    assert TxCode(B1Tx1) in Codes([B1Tx1], TxCode);
    assert BankRowCode(B2Row1) in Codes([B2Row1], BankRowCode);
  }

  lemma OneSidedBank1()
    ensures Total(CodeResults([B1Tx1], [B2Row1], 2, "BANK1")) == Summary(1, 0, 1, 0.0, multiset{B1Tx1}, multiset{})
  {
    assert "BANK1" !in Codes([B2Row1], BankRowCode);
    CodeWithoutBankRows([B1Tx1], [B2Row1], 2, "BANK1");
    AllOfCode([B1Tx1], TxCode, "BANK1");
  }

  lemma OneSidedBank2()
    ensures Total(CodeResults([B1Tx1], [B2Row1], 2, "BANK2")) == Summary(0, 0, 0, 0.0, multiset{}, multiset{B2Row1})
  {
    assert "BANK2" !in Codes([B1Tx1], TxCode);
    CodeWithoutTransactions([B1Tx1], [B2Row1], 2, "BANK2");
    AllOfCode([B2Row1], BankRowCode, "BANK2");
  }

  // ---------------------------------------------------------------------------
  // The row limits and the date window of the service tests

  /** A limit configured as the text "1". */
  lemma LimitOfOne(cfg: Configuration.Config, key: string)
    requires key in cfg.data && cfg.data[key] == Configuration.JString("1")
    ensures Configuration.GetInt(cfg, key) == 1
  {
    assert Configuration.FormatInt(1) == "1";
    Configuration.GetIntFormatted(cfg, key, 1);
  }

  /** Two transactions against a transaction limit of 1: Proceed fails with ErrorMaxRows. */
  lemma TransactionLimitScenario(cfg: Configuration.Config, file: UploadFile)
    requires MaxRowsTransactionsKey in cfg.data && cfg.data[MaxRowsTransactionsKey] == Configuration.JString("1")
    requires |file.transactionFile| == 2
    ensures !WithinLimits(cfg, file)
  {
    LimitOfOne(cfg, MaxRowsTransactionsKey);
  }

  /** Two bank rows against a bank limit of 1: Proceed fails with ErrorMaxRows, whatever the transaction limit. */
  lemma BankLimitScenario(cfg: Configuration.Config, file: UploadFile)
    requires MaxRowsBankKey in cfg.data && cfg.data[MaxRowsBankKey] == Configuration.JString("1")
    requires |file.bankFile| == 2
    ensures !WithinLimits(cfg, file)
  {
    LimitOfOne(cfg, MaxRowsBankKey);
  }

  /** The window of the service tests: one day either side of Now. */
  const StartDate: int := Now - 24 * 3600
  const EndDate: int := Now + 24 * 3600

  /**
   * The controller's window drops TX2 (two days old) and keeps TX1 and TX3,
   * which turns the upload of UnfilteredScenario into that of FilteredScenario.
   */
  lemma ScenarioWindow()
    ensures HttpController.Window([Tx1, Tx2, Tx3], HttpController.TransactionTimeOf, StartDate, EndDate) == [Tx1, Tx3]
  {
    var t := HttpController.TransactionTimeOf;
    assert [Tx1, Tx2, Tx3][..2] == [Tx1, Tx2] && [Tx1, Tx2][..1] == [Tx1] && [Tx1][..0] == [];
    assert HttpController.InWindow(Tx1.TransactionTime, StartDate, EndDate);
    assert !HttpController.InWindow(Tx2.TransactionTime, StartDate, EndDate);
    assert HttpController.InWindow(Tx3.TransactionTime, StartDate, EndDate);
    assert HttpController.Window([Tx1], t, StartDate, EndDate) == [Tx1];
    assert HttpController.Window([Tx1, Tx2], t, StartDate, EndDate) == [Tx1];
  }
}
