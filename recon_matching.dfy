/**
 * The per-chunk matcher of application/recon/service.go (`reconcile`), stated
 * as functions over the chunk's two record sequences.  Every sequence
 * function is defined on the last element, the order in which the source's
 * loops consume their input, so the loops in ReconService keep
 * "value so far == function of the prefix" as their invariants.
 */
module ReconMatching {
  import opened ReconModel

  function Abs(x: real): real { if x < 0.0 then -x else x }

  /**
   * The lookup table `bankMap`: each bank row under its UniqueID, a later row
   * overwriting an earlier one with the same key.
   */
  function BankIndex(banks: seq<BankStatementUploadFile>): (index: map<string, BankStatementUploadFile>)
    ensures forall k :: k in index ==> index[k].UniqueID == k
  {
    if banks == [] then map[]
    else
      var last := banks[|banks| - 1];
      BankIndex(banks[..|banks| - 1])[last.UniqueID := last]
  }

  /** A transaction matches when its key is found and the amounts are equal. */
  predicate IsMatch(tx: TransactionUploadFile, index: map<string, BankStatementUploadFile>)
  {
    tx.TransactionID in index && index[tx.TransactionID].Amount == tx.Amount
  }

  /** The transactions counted as matched, in input order. */
  function MatchedTxs(txs: seq<TransactionUploadFile>, index: map<string, BankStatementUploadFile>): seq<TransactionUploadFile>
  {
    if txs == [] then []
    else
      var tx := txs[|txs| - 1];
      MatchedTxs(txs[..|txs| - 1], index) + (if IsMatch(tx, index) then [tx] else [])
  }

  /** The transaction-mismatch list: every transaction that does not match, in input order. */
  function UnmatchedTxs(txs: seq<TransactionUploadFile>, index: map<string, BankStatementUploadFile>): seq<TransactionUploadFile>
  {
    if txs == [] then []
    else
      var tx := txs[|txs| - 1];
      UnmatchedTxs(txs[..|txs| - 1], index) + (if IsMatch(tx, index) then [] else [tx])
  }

  /** Sum of |tx.Amount - bank.Amount| over the transactions whose key is found with a different amount. */
  function Discrepancy(txs: seq<TransactionUploadFile>, index: map<string, BankStatementUploadFile>): real
  {
    if txs == [] then 0.0
    else
      var tx := txs[|txs| - 1];
      Discrepancy(txs[..|txs| - 1], index)
        + (if tx.TransactionID in index && index[tx.TransactionID].Amount != tx.Amount
           then Abs(tx.Amount - index[tx.TransactionID].Amount) else 0.0)
  }

  /** `matchedBankIDs`: the keys of the transactions that were found in the index, whatever the amount. */
  function ClaimedIds(txs: seq<TransactionUploadFile>, index: map<string, BankStatementUploadFile>): set<string>
  {
    if txs == [] then {}
    else
      var tx := txs[|txs| - 1];
      ClaimedIds(txs[..|txs| - 1], index) + (if tx.TransactionID in index then {tx.TransactionID} else {})
  }

  /** The bank rows whose key is not in `ids`, in input order. */
  function UnclaimedBanks(banks: seq<BankStatementUploadFile>, ids: set<string>): seq<BankStatementUploadFile>
  {
    if banks == [] then []
    else
      var b := banks[|banks| - 1];
      UnclaimedBanks(banks[..|banks| - 1], ids) + (if b.UniqueID in ids then [] else [b])
  }

  /** The keys of all transactions of a chunk. */
  function TxIds(txs: seq<TransactionUploadFile>): set<string>
  {
    set tx | tx in txs :: tx.TransactionID
  }

  /** What `reconcile(txs, banks, bc)` returns. */
  function ChunkResult(txs: seq<TransactionUploadFile>, banks: seq<BankStatementUploadFile>, bc: string): ResultReconciliation
  {
    var index := BankIndex(banks);
    ResultReconciliation(
      |txs|,
      |MatchedTxs(txs, index)|,
      |UnmatchedTxs(txs, index)|,
      ResultReconciliationDetails(UnmatchedTxs(txs, index), UnclaimedBanks(banks, ClaimedIds(txs, index))),
      Discrepancy(txs, index),
      bc)
  }

  // ---------------------------------------------------------------------------
  // The lookup table

  /** A key is in the index iff some bank row of the chunk carries it. */
  lemma {:induction false} BankIndexKeys(banks: seq<BankStatementUploadFile>, k: string)
    ensures k in BankIndex(banks) <==> exists j :: 0 <= j < |banks| && banks[j].UniqueID == k
  {
    if banks != [] {
      var init := banks[..|banks| - 1];
      BankIndexKeys(init, k);
      if k in BankIndex(init) {
        var j :| 0 <= j < |init| && init[j].UniqueID == k;
        assert banks[j] == init[j];
      }
      if exists j :: 0 <= j < |banks| && banks[j].UniqueID == k {
        var j :| 0 <= j < |banks| && banks[j].UniqueID == k;
        if j < |init| { assert init[j] == banks[j]; }
      }
    }
  }

  /** With duplicate keys, the last bank row carrying a key is the one looked up. */
  lemma {:induction false} BankIndexLastWins(banks: seq<BankStatementUploadFile>, j: int)
    requires 0 <= j < |banks|
    requires forall j' :: j < j' < |banks| ==> banks[j'].UniqueID != banks[j].UniqueID
    ensures banks[j].UniqueID in BankIndex(banks)
    ensures BankIndex(banks)[banks[j].UniqueID] == banks[j]
  {
    if j < |banks| - 1 {
      var init := banks[..|banks| - 1];
      assert init[j] == banks[j];
      forall j' | j < j' < |init| ensures init[j'].UniqueID != init[j].UniqueID {
        assert init[j'] == banks[j'];
      }
      BankIndexLastWins(init, j);
    }
  }

  // ---------------------------------------------------------------------------
  // The transaction pass

  /** Every transaction is either matched or in the mismatch list. */
  lemma {:induction false} MatchedPlusUnmatched(txs: seq<TransactionUploadFile>, index: map<string, BankStatementUploadFile>)
    ensures |MatchedTxs(txs, index)| + |UnmatchedTxs(txs, index)| == |txs|
  {
    if txs != [] {
      MatchedPlusUnmatched(txs[..|txs| - 1], index);
    }
  }

  /** A transaction lands in the mismatch list iff it is one of the chunk's transactions and does not match. */
  lemma {:induction false} UnmatchedMembership(txs: seq<TransactionUploadFile>, index: map<string, BankStatementUploadFile>, tx: TransactionUploadFile)
    ensures tx in UnmatchedTxs(txs, index) <==> tx in txs && !IsMatch(tx, index)
    ensures tx in MatchedTxs(txs, index) <==> tx in txs && IsMatch(tx, index)
  {
    if txs != [] {
      var init := txs[..|txs| - 1];
      UnmatchedMembership(init, index, tx);
      assert txs == init + [txs[|txs| - 1]];
    }
  }

  /** The discrepancy total never goes negative. */
  lemma {:induction false} DiscrepancyNonNegative(txs: seq<TransactionUploadFile>, index: map<string, BankStatementUploadFile>)
    ensures Discrepancy(txs, index) >= 0.0
  {
    if txs != [] {
      DiscrepancyNonNegative(txs[..|txs| - 1], index);
    }
  }

  /** Only mismatched transactions contribute: when all transactions match, the discrepancy is zero. */
  lemma {:induction false} DiscrepancyOnlyFromMismatches(txs: seq<TransactionUploadFile>, index: map<string, BankStatementUploadFile>)
    requires UnmatchedTxs(txs, index) == []
    ensures Discrepancy(txs, index) == 0.0
  {
    if txs != [] {
      var init, tx := txs[..|txs| - 1], txs[|txs| - 1];
      assert IsMatch(tx, index) && UnmatchedTxs(init, index) == [];
      DiscrepancyOnlyFromMismatches(init, index);
    }
  }

  /** The claimed keys are exactly the transaction keys that occur in the index. */
  lemma {:induction false} ClaimedIdsAreFoundTxIds(txs: seq<TransactionUploadFile>, index: map<string, BankStatementUploadFile>)
    ensures ClaimedIds(txs, index) == TxIds(txs) * index.Keys
  {
    if txs != [] {
      var init := txs[..|txs| - 1];
      ClaimedIdsAreFoundTxIds(init, index);
      assert txs == init + [txs[|txs| - 1]];
      assert TxIds(txs) == TxIds(init) + {txs[|txs| - 1].TransactionID};
    }
  }

  /** Filtering the bank rows by two key sets that agree on every row's key gives the same list. */
  lemma {:induction false} UnclaimedBanksAgree(banks: seq<BankStatementUploadFile>, ids: set<string>, ids': set<string>)
    requires forall b :: b in banks ==> (b.UniqueID in ids <==> b.UniqueID in ids')
    ensures UnclaimedBanks(banks, ids) == UnclaimedBanks(banks, ids')
  {
    if banks != [] {
      var init := banks[..|banks| - 1];
      assert forall b :: b in init ==> b in banks;
      UnclaimedBanksAgree(init, ids, ids');
    }
  }

  /** A bank row lands in the mismatch list iff it is one of the chunk's rows and its key is not in `ids`. */
  lemma {:induction false} UnclaimedMembership(banks: seq<BankStatementUploadFile>, ids: set<string>, b: BankStatementUploadFile)
    ensures b in UnclaimedBanks(banks, ids) <==> b in banks && b.UniqueID !in ids
  {
    if banks != [] {
      var init := banks[..|banks| - 1];
      UnclaimedMembership(init, ids, b);
      assert banks == init + [banks[|banks| - 1]];
    }
  }

  /** The mismatch list takes each transaction at most as often as it occurs. */
  lemma {:induction false} UnmatchedWithin(txs: seq<TransactionUploadFile>, index: map<string, BankStatementUploadFile>)
    ensures multiset(UnmatchedTxs(txs, index)) <= multiset(txs)
  {
    if txs != [] {
      var init := txs[..|txs| - 1];
      UnmatchedWithin(init, index);
      assert txs == init + [txs[|txs| - 1]];
    }
  }

  /** The bank-mismatch list takes each row at most as often as it occurs. */
  lemma {:induction false} UnclaimedWithin(banks: seq<BankStatementUploadFile>, ids: set<string>)
    ensures multiset(UnclaimedBanks(banks, ids)) <= multiset(banks)
  {
    if banks != [] {
      var init := banks[..|banks| - 1];
      UnclaimedWithin(init, ids);
      assert banks == init + [banks[|banks| - 1]];
    }
  }

  /** Against an empty chunk of bank rows nothing matches and nothing is found. */
  lemma {:induction false} NothingToMatch(txs: seq<TransactionUploadFile>)
    ensures UnmatchedTxs(txs, map[]) == txs
    ensures MatchedTxs(txs, map[]) == []
    ensures Discrepancy(txs, map[]) == 0.0
  {
    if txs != [] {
      var init := txs[..|txs| - 1];
      NothingToMatch(init);
      assert txs == init + [txs[|txs| - 1]];
    }
  }

  /** With no claimed keys every bank row is a mismatch. */
  lemma {:induction false} NothingClaimed(banks: seq<BankStatementUploadFile>)
    ensures UnclaimedBanks(banks, {}) == banks
  {
    if banks != [] {
      var init := banks[..|banks| - 1];
      NothingClaimed(init);
      assert banks == init + [banks[|banks| - 1]];
    }
  }

  // ---------------------------------------------------------------------------
  // The chunk result

  /** The counting invariant of a chunk result. */
  lemma {:induction false} ChunkResultCounts(txs: seq<TransactionUploadFile>, banks: seq<BankStatementUploadFile>, bc: string)
    ensures ChunkResult(txs, banks, bc).TotalNumberOfTransactions == |txs|
    ensures ChunkResult(txs, banks, bc).TotalNumberOfMatchesTransactions
          + ChunkResult(txs, banks, bc).TotalNumberOfUnmatchedTransactions == |txs|
    ensures ChunkResult(txs, banks, bc).TotalNumberOfUnmatchedTransactions
          == |ChunkResult(txs, banks, bc).ResultReconciliationDetails.TransactionMismatched|
    ensures ChunkResult(txs, banks, bc).TotalAmountDiscrepancies >= 0.0
    ensures ChunkResult(txs, banks, bc).BankCode == bc
  {
    MatchedPlusUnmatched(txs, BankIndex(banks));
    DiscrepancyNonNegative(txs, BankIndex(banks));
  }

  /**
   * A transaction of the chunk is in the transaction-mismatch list iff there
   * is no bank row with its key, or the last such row has another amount.
   */
  lemma {:induction false} ChunkTransactionMismatch(txs: seq<TransactionUploadFile>, banks: seq<BankStatementUploadFile>, bc: string, tx: TransactionUploadFile)
    requires tx in txs
    ensures tx in ChunkResult(txs, banks, bc).ResultReconciliationDetails.TransactionMismatched
        <==> !(exists j :: 0 <= j < |banks| && banks[j].UniqueID == tx.TransactionID && banks[j].Amount == tx.Amount
                 && forall j' :: j < j' < |banks| ==> banks[j'].UniqueID != tx.TransactionID)
  {
    var index := BankIndex(banks);
    UnmatchedMembership(txs, index, tx);
    BankIndexKeys(banks, tx.TransactionID);
    if tx.TransactionID in index {
      // the last row carrying the key is the one in the index
      var j :| 0 <= j < |banks| && banks[j].UniqueID == tx.TransactionID;
      var last := LastWithKey(banks, tx.TransactionID, j);
      BankIndexLastWins(banks, last);
      if exists j :: 0 <= j < |banks| && banks[j].UniqueID == tx.TransactionID && banks[j].Amount == tx.Amount
                 && forall j' :: j < j' < |banks| ==> banks[j'].UniqueID != tx.TransactionID {
        var k :| 0 <= k < |banks| && banks[k].UniqueID == tx.TransactionID && banks[k].Amount == tx.Amount
                 && forall j' :: k < j' < |banks| ==> banks[j'].UniqueID != tx.TransactionID;
        assert k == last;
      }
    }
  }

  /** The index of the last row carrying key `k`, found from a row `j` that carries it. */
  function LastWithKey(banks: seq<BankStatementUploadFile>, k: string, j: int): (last: int)
    requires 0 <= j < |banks| && banks[j].UniqueID == k
    ensures j <= last < |banks| && banks[last].UniqueID == k
    ensures forall j' :: last < j' < |banks| ==> banks[j'].UniqueID != k
    decreases |banks| - j
  {
    if exists j' :: j < j' < |banks| && banks[j'].UniqueID == k then
      var j' :| j < j' < |banks| && banks[j'].UniqueID == k;
      LastWithKey(banks, k, j')
    else j
  }

  /**
   * The bank-mismatch list is the chunk's bank rows, in input order, whose
   * key is the key of no transaction of the chunk; amounts play no part.
   */
  lemma {:induction false} ChunkBankMismatch(txs: seq<TransactionUploadFile>, banks: seq<BankStatementUploadFile>, bc: string)
    ensures ChunkResult(txs, banks, bc).ResultReconciliationDetails.BankStatementMismatched
         == UnclaimedBanks(banks, TxIds(txs))
    ensures forall b :: (b in ChunkResult(txs, banks, bc).ResultReconciliationDetails.BankStatementMismatched
                         <==> b in banks && b.UniqueID !in TxIds(txs))
  {
    var index := BankIndex(banks);
    ClaimedIdsAreFoundTxIds(txs, index);
    forall b | b in banks ensures b.UniqueID in index {
      var j :| 0 <= j < |banks| && banks[j] == b;
      BankIndexKeys(banks, b.UniqueID);
    }
    UnclaimedBanksAgree(banks, ClaimedIds(txs, index), TxIds(txs));
    forall b ensures b in UnclaimedBanks(banks, TxIds(txs)) <==> b in banks && b.UniqueID !in TxIds(txs) {
      UnclaimedMembership(banks, TxIds(txs), b);
    }
  }
}
