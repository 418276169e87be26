/**
 * The merge step of application/recon/service.go (`showResultReconciliation`)
 * and the ordering both sorts in that file use: results by bank code,
 * compared as Go compares strings.
 */
module ReconMerge {
  import opened ReconModel
  import opened ReconChunking

  // ---------------------------------------------------------------------------
  // Ordering bank codes

  /**
   * Go's `<` on strings: byte-wise lexicographic order of the UTF-8 encoding,
   * which orders strings exactly as code-point-wise lexicographic order does.
   */
  predicate StrLess(a: string, b: string)
  {
    if a == [] then b != []
    else if b == [] then false
    else a[0] < b[0] || (a[0] == b[0] && StrLess(a[1..], b[1..]))
  }

  lemma {:induction false} StrLessIrreflexive(a: string)
    ensures !StrLess(a, a)
  {
    if a != [] {
      StrLessIrreflexive(a[1..]);
    }
  }

  lemma {:induction false} StrLessTransitive(a: string, b: string, c: string)
    requires StrLess(a, b) && StrLess(b, c)
    ensures StrLess(a, c)
  {
    if a != [] && b != [] && c != [] && a[0] == b[0] && b[0] == c[0] {
      StrLessTransitive(a[1..], b[1..], c[1..]);
    }
  }

  /** Two different codes are always ordered one way or the other. */
  lemma {:induction false} StrLessTotal(a: string, b: string)
    requires a != b
    ensures StrLess(a, b) || StrLess(b, a)
  {
    if a != [] && b != [] && a[0] == b[0] {
      assert a == [a[0]] + a[1..] && b == [b[0]] + b[1..];
      StrLessTotal(a[1..], b[1..]);
    }
  }

  lemma {:induction false} StrLessAsymmetric(a: string, b: string)
    requires StrLess(a, b)
    ensures !StrLess(b, a)
  {
    if a != [] && b != [] && a[0] == b[0] {
      StrLessAsymmetric(a[1..], b[1..]);
    }
  }

  function ResultCode(r: ResultReconciliation): string { r.BankCode }

  /** Ascending by bank code, equal codes allowed. */
  predicate Sorted(rs: seq<ResultReconciliation>)
  {
    forall i, j :: 0 <= i < j < |rs| ==> !StrLess(rs[j].BankCode, rs[i].BankCode)
  }

  /** Strictly ascending by bank code: no code twice. */
  predicate StrictlySorted(rs: seq<ResultReconciliation>)
  {
    forall i, j :: 0 <= i < j < |rs| ==> StrLess(rs[i].BankCode, rs[j].BankCode)
  }

  /** No bank code occurs twice. */
  predicate UniqueCodes(rs: seq<ResultReconciliation>)
  {
    forall i, j :: 0 <= i < j < |rs| ==> rs[i].BankCode != rs[j].BankCode
  }

  /** `x` placed after every element whose code is not above its own. */
  function Insert(rs: seq<ResultReconciliation>, x: ResultReconciliation): (r: seq<ResultReconciliation>)
    ensures multiset(r) == multiset(rs) + multiset{x}
    ensures Sorted(rs) ==> Sorted(r)
    ensures StrictlySorted(rs) && x.BankCode !in Codes(rs, ResultCode) ==> StrictlySorted(r)
  {
    if rs == [] then [x]
    else if StrLess(x.BankCode, rs[0].BankCode) then
      InsertFront(rs, x);
      [x] + rs
    else
      var tail := Insert(rs[1..], x);
      assert rs == [rs[0]] + rs[1..];
      InsertBehind(rs, x, tail);
      [rs[0]] + tail
  }

  lemma InsertFront(rs: seq<ResultReconciliation>, x: ResultReconciliation)
    requires rs != [] && StrLess(x.BankCode, rs[0].BankCode)
    ensures Sorted(rs) ==> Sorted([x] + rs)
    ensures StrictlySorted(rs) ==> StrictlySorted([x] + rs)
  {
    var r := [x] + rs;
    if Sorted(rs) {
      forall j | 1 <= j < |r| ensures !StrLess(r[j].BankCode, x.BankCode) {
        if j > 1 && StrLess(r[j].BankCode, x.BankCode) {
          assert !StrLess(rs[j - 1].BankCode, rs[0].BankCode);
          StrLessTransitive(r[j].BankCode, x.BankCode, rs[0].BankCode);
        }
        if j == 1 {
          StrLessAsymmetric(x.BankCode, rs[0].BankCode);
        }
      }
    }
    if StrictlySorted(rs) {
      forall j | 1 < j < |r| ensures StrLess(x.BankCode, r[j].BankCode) {
        StrLessTransitive(x.BankCode, rs[0].BankCode, r[j].BankCode);
      }
    }
  }

  lemma InsertBehind(rs: seq<ResultReconciliation>, x: ResultReconciliation, tail: seq<ResultReconciliation>)
    requires rs != [] && !StrLess(x.BankCode, rs[0].BankCode)
    requires multiset(tail) == multiset(rs[1..]) + multiset{x}
    requires Sorted(rs[1..]) ==> Sorted(tail)
    requires StrictlySorted(rs[1..]) && x.BankCode !in Codes(rs[1..], ResultCode) ==> StrictlySorted(tail)
    ensures Sorted(rs) ==> Sorted([rs[0]] + tail)
    ensures StrictlySorted(rs) && x.BankCode !in Codes(rs, ResultCode) ==> StrictlySorted([rs[0]] + tail)
  {
    forall j | 0 <= j < |tail| ensures tail[j] == x || tail[j] in rs[1..] {
      assert tail[j] in multiset(tail);
    }
    if Sorted(rs) {
      InsertBehindSorted(rs, x, tail);
    }
    if StrictlySorted(rs) && x.BankCode !in Codes(rs, ResultCode) {
      InsertBehindStrict(rs, x, tail);
    }
  }

  lemma InsertBehindSorted(rs: seq<ResultReconciliation>, x: ResultReconciliation, tail: seq<ResultReconciliation>)
    requires rs != [] && !StrLess(x.BankCode, rs[0].BankCode) && Sorted(rs)
    requires forall j :: 0 <= j < |tail| ==> tail[j] == x || tail[j] in rs[1..]
    requires Sorted(rs[1..]) ==> Sorted(tail)
    ensures Sorted([rs[0]] + tail)
  {
    var r := [rs[0]] + tail;
    assert Sorted(rs[1..]);
    forall j | 1 <= j < |r| ensures !StrLess(r[j].BankCode, rs[0].BankCode) {
      if r[j] != x {
        var k :| 0 <= k < |rs[1..]| && rs[1..][k] == r[j];
        assert rs[k + 1] == r[j];
      }
    }
  }

  lemma InsertBehindStrict(rs: seq<ResultReconciliation>, x: ResultReconciliation, tail: seq<ResultReconciliation>)
    requires rs != [] && !StrLess(x.BankCode, rs[0].BankCode)
    requires StrictlySorted(rs) && x.BankCode !in Codes(rs, ResultCode)
    requires forall j :: 0 <= j < |tail| ==> tail[j] == x || tail[j] in rs[1..]
    requires StrictlySorted(rs[1..]) && x.BankCode !in Codes(rs[1..], ResultCode) ==> StrictlySorted(tail)
    ensures StrictlySorted([rs[0]] + tail)
  {
    var r := [rs[0]] + tail;
    assert StrictlySorted(rs[1..]);
    assert Codes(rs[1..], ResultCode) <= Codes(rs, ResultCode);
    assert rs[0] in rs && ResultCode(rs[0]) == rs[0].BankCode;
    assert x.BankCode != rs[0].BankCode;
    forall j | 1 <= j < |r| ensures StrLess(rs[0].BankCode, r[j].BankCode) {
      if r[j] == x {
        StrLessTotal(x.BankCode, rs[0].BankCode);
      } else {
        var k :| 0 <= k < |rs[1..]| && rs[1..][k] == r[j];
        assert rs[k + 1] == r[j];
      }
    }
  }

  /**
   * `sort.Slice(results, byBankCode)`: a permutation of the input, ascending
   * by code, strictly so when no code occurs twice.  Go's sort is not stable;
   * this insertion sort is one of the orders it may produce.
   */
  function SortByCode(rs: seq<ResultReconciliation>): (r: seq<ResultReconciliation>)
    ensures multiset(r) == multiset(rs)
    ensures Sorted(r)
    ensures UniqueCodes(rs) ==> StrictlySorted(r)
  {
    if rs == [] then []
    else
      var init, last := rs[..|rs| - 1], rs[|rs| - 1];
      var sorted := SortByCode(init);
      assert rs == init + [last];
      LastCodeIsNew(init, last, sorted);
      Insert(sorted, last)
  }

  lemma LastCodeIsNew(init: seq<ResultReconciliation>, last: ResultReconciliation, sorted: seq<ResultReconciliation>)
    requires multiset(sorted) == multiset(init)
    ensures UniqueCodes(init + [last]) ==> UniqueCodes(init) && last.BankCode !in Codes(sorted, ResultCode)
  {
    var rs := init + [last];
    if UniqueCodes(rs) {
      assert forall i, j :: 0 <= i < j < |init| ==> init[i] == rs[i] && init[j] == rs[j];
      forall y | y in sorted ensures y.BankCode != last.BankCode {
        assert y in multiset(init);
        var k :| 0 <= k < |init| && init[k] == y;
        assert rs[k] == y && rs[|rs| - 1] == last;
      }
    }
  }

  // ---------------------------------------------------------------------------
  // Merging chunk results

  /** The update of an `existing` merged entry with one more chunk result of its code. */
  function Accumulate(existing: ResultReconciliation, fr: ResultReconciliation): ResultReconciliation
  {
    existing.(
      TotalNumberOfTransactions := existing.TotalNumberOfTransactions + fr.TotalNumberOfTransactions,
      TotalNumberOfMatchesTransactions := existing.TotalNumberOfMatchesTransactions + fr.TotalNumberOfMatchesTransactions,
      TotalNumberOfUnmatchedTransactions := existing.TotalNumberOfUnmatchedTransactions + fr.TotalNumberOfUnmatchedTransactions,
      TotalAmountDiscrepancies := existing.TotalAmountDiscrepancies + fr.TotalAmountDiscrepancies,
      ResultReconciliationDetails := ResultReconciliationDetails(
        existing.ResultReconciliationDetails.TransactionMismatched + fr.ResultReconciliationDetails.TransactionMismatched,
        existing.ResultReconciliationDetails.BankStatementMismatched + fr.ResultReconciliationDetails.BankStatementMismatched))
  }

  /** The merged entry of a run of results: a copy of the first, accumulated with the others in order. */
  function MergeRun(rs: seq<ResultReconciliation>): ResultReconciliation
    requires rs != []
  {
    if |rs| == 1 then rs[0] else Accumulate(MergeRun(rs[..|rs| - 1]), rs[|rs| - 1])
  }

  /** `mergedMap` after the loop over the results. */
  function MergeMap(rs: seq<ResultReconciliation>): map<string, ResultReconciliation>
  {
    if rs == [] then map[]
    else
      var merged, fr := MergeMap(rs[..|rs| - 1]), rs[|rs| - 1];
      if fr.BankCode in merged then merged[fr.BankCode := Accumulate(merged[fr.BankCode], fr)]
      else merged[fr.BankCode := fr]
  }

  /**
   * The merged map has an entry for a bank code iff some result has that
   * code, and that entry is the merge of the results of that code, in the
   * order they came.
   */
  lemma {:induction false} MergeMapEntries(rs: seq<ResultReconciliation>, c: string)
    ensures c in MergeMap(rs) <==> WithCode(rs, ResultCode, c) != []
    ensures c in MergeMap(rs) ==> MergeMap(rs)[c] == MergeRun(WithCode(rs, ResultCode, c))
  {
    if rs != [] {
      var init, fr := rs[..|rs| - 1], rs[|rs| - 1];
      MergeMapEntries(init, c);
      var runInit := WithCode(init, ResultCode, c);
      assert WithCode(rs, ResultCode, c) == runInit + (if fr.BankCode == c then [fr] else []);
      if fr.BankCode == c {
        assert rs == init + [fr];
        MergeMapStep(init, fr, runInit);
        assert MergeMap(rs)[c] == MergeRun(runInit + [fr]);
      } else {
        assert WithCode(rs, ResultCode, c) == runInit;
      }
    }
  }

  lemma MergeMapStep(init: seq<ResultReconciliation>, fr: ResultReconciliation, runInit: seq<ResultReconciliation>)
    requires runInit == WithCode(init, ResultCode, fr.BankCode)
    requires fr.BankCode in MergeMap(init) <==> runInit != []
    requires fr.BankCode in MergeMap(init) ==> MergeMap(init)[fr.BankCode] == MergeRun(runInit)
    ensures MergeMap(init + [fr])[fr.BankCode] == MergeRun(runInit + [fr])
  {
    var rs := init + [fr];
    assert rs[..|rs| - 1] == init;
    var run := runInit + [fr];
    if runInit == [] {
      assert run == [fr];
    } else {
      assert run[..|run| - 1] == runInit;
    }
  }

  /** The codes of the merged map are exactly the codes of the results. */
  lemma {:induction false} MergeMapCodes(rs: seq<ResultReconciliation>, c: string)
    ensures c in MergeMap(rs) ==> MergeMap(rs)[c].BankCode == c
  {
    if rs != [] {
      MergeMapCodes(rs[..|rs| - 1], c);
    }
  }

  lemma {:induction false} MergeMapKeys(rs: seq<ResultReconciliation>)
    ensures MergeMap(rs).Keys == Codes(rs, ResultCode)
  {
    forall c ensures c in MergeMap(rs) <==> c in Codes(rs, ResultCode) {
      MergeMapEntries(rs, c);
      var run := WithCode(rs, ResultCode, c);
      if run != [] {
        WithCodeMembers(rs, ResultCode, c, run[0]);
      }
      if c in Codes(rs, ResultCode) {
        WithCodeNonEmpty(rs, ResultCode, c);
      }
    }
  }

  // ---------------------------------------------------------------------------
  // What a merged entry says, independent of the order of its chunk results

  /** The order-free content of a result: counts, discrepancy, and the two mismatch lists as multisets. */
  datatype Summary = Summary(
    total: int,
    matched: int,
    unmatched: int,
    discrepancy: real,
    txMismatched: multiset<TransactionUploadFile>,
    bankMismatched: multiset<BankStatementUploadFile>)

  function Summarize(r: ResultReconciliation): Summary
  {
    Summary(
      r.TotalNumberOfTransactions,
      r.TotalNumberOfMatchesTransactions,
      r.TotalNumberOfUnmatchedTransactions,
      r.TotalAmountDiscrepancies,
      multiset(r.ResultReconciliationDetails.TransactionMismatched),
      multiset(r.ResultReconciliationDetails.BankStatementMismatched))
  }

  const NoSummary := Summary(0, 0, 0, 0.0, multiset{}, multiset{})

  function Plus(a: Summary, b: Summary): Summary
  {
    Summary(a.total + b.total, a.matched + b.matched, a.unmatched + b.unmatched,
            a.discrepancy + b.discrepancy, a.txMismatched + b.txMismatched, a.bankMismatched + b.bankMismatched)
  }

  /** The sum of the summaries of a sequence of results. */
  function Total(rs: seq<ResultReconciliation>): Summary
  {
    if rs == [] then NoSummary else Plus(Total(rs[..|rs| - 1]), Summarize(rs[|rs| - 1]))
  }

  /** Merging adds up the counts and discrepancies and pools the mismatch lists. */
  lemma {:induction false} MergeRunTotal(rs: seq<ResultReconciliation>)
    requires rs != []
    ensures Summarize(MergeRun(rs)) == Total(rs)
  {
    if |rs| == 1 {
      assert rs[..0] == [];
    } else {
      MergeRunTotal(rs[..|rs| - 1]);
    }
  }

  lemma PlusAssociative(a: Summary, b: Summary, c: Summary)
    ensures Plus(Plus(a, b), c) == Plus(a, Plus(b, c))
  {
    assert (a.txMismatched + b.txMismatched) + c.txMismatched == a.txMismatched + (b.txMismatched + c.txMismatched);
    assert (a.bankMismatched + b.bankMismatched) + c.bankMismatched == a.bankMismatched + (b.bankMismatched + c.bankMismatched);
  }

  lemma PlusSwap(a: Summary, b: Summary, c: Summary)
    ensures Plus(Plus(a, b), c) == Plus(Plus(a, c), b)
  {
    assert (a.txMismatched + b.txMismatched) + c.txMismatched == (a.txMismatched + c.txMismatched) + b.txMismatched;
    assert (a.bankMismatched + b.bankMismatched) + c.bankMismatched == (a.bankMismatched + c.bankMismatched) + b.bankMismatched;
  }

  lemma {:induction false} TotalAppend(a: seq<ResultReconciliation>, b: seq<ResultReconciliation>)
    ensures Total(a + b) == Plus(Total(a), Total(b))
  {
    if b == [] {
      assert a + b == a;
      assert Total(a).txMismatched + multiset{} == Total(a).txMismatched;
      assert Total(a).bankMismatched + multiset{} == Total(a).bankMismatched;
    } else {
      var init, last := b[..|b| - 1], b[|b| - 1];
      assert (a + b)[..|a + b| - 1] == a + init;
      assert Total(a + b) == Plus(Total(a + init), Summarize(last));
      TotalAppend(a, init);
      PlusAssociative(Total(a), Total(init), Summarize(last));
    }
  }

  /** Taking one result out of the middle of a sequence and adding it at the end keeps the total. */
  lemma MoveToEnd(left: seq<ResultReconciliation>, x: ResultReconciliation, right: seq<ResultReconciliation>)
    ensures Total(left + [x] + right) == Plus(Total(left + right), Summarize(x))
  {
    TotalAppend(left + [x], right);
    TotalAppend(left, [x]);
    TotalAppend(left, right);
    assert Total([x]) == Plus(NoSummary, Summarize(x));
    assert Plus(NoSummary, Summarize(x)) == Summarize(x) by {
      assert multiset{} + Summarize(x).txMismatched == Summarize(x).txMismatched;
      assert multiset{} + Summarize(x).bankMismatched == Summarize(x).bankMismatched;
    }
    PlusSwap(Total(left), Summarize(x), Total(right));
  }

  lemma RemoveOne(init: seq<ResultReconciliation>, x: ResultReconciliation, left: seq<ResultReconciliation>, right: seq<ResultReconciliation>)
    requires multiset(init + [x]) == multiset(left + [x] + right)
    ensures multiset(init) == multiset(left + right)
  {
    calc {
      multiset(init) + multiset{x};
      multiset(init + [x]);
      multiset(left + [x] + right);
      multiset(left) + multiset{x} + multiset(right);
      multiset(left + right) + multiset{x};
    }
    var a, b := multiset(init), multiset(left + right);
    forall y ensures a[y] == b[y] {
      assert (a + multiset{x})[y] == (b + multiset{x})[y];
    }
    assert a == b;
  }

  /** Rearranging the results rearranges each bank code's selection the same way. */
  lemma WithCodePermutation(rs: seq<ResultReconciliation>, rs': seq<ResultReconciliation>, c: string)
    requires multiset(rs) == multiset(rs')
    ensures multiset(WithCode(rs, ResultCode, c)) == multiset(WithCode(rs', ResultCode, c))
  {
    var a, b := multiset(WithCode(rs, ResultCode, c)), multiset(WithCode(rs', ResultCode, c));
    forall x ensures a[x] == b[x] {
      WithCodeMultiplicity(rs, ResultCode, c, x);
      WithCodeMultiplicity(rs', ResultCode, c, x);
    }
    assert a == b;
  }

  /** The total of a sequence depends only on the multiset of its results, not their order. */
  lemma {:induction false} TotalPermutation(rs: seq<ResultReconciliation>, rs': seq<ResultReconciliation>)
    requires multiset(rs) == multiset(rs')
    ensures Total(rs) == Total(rs')
    decreases |rs|
  {
    if rs == [] {
      assert rs' == [];
    } else {
      var init, x := rs[..|rs| - 1], rs[|rs| - 1];
      assert rs == init + [x];
      assert x in multiset(rs');
      var j :| 0 <= j < |rs'| && rs'[j] == x;
      var left, right := rs'[..j], rs'[j + 1..];
      assert rs' == left + [x] + right;
      RemoveOne(init, x, left, right);
      TotalPermutation(init, left + right);
      MoveToEnd(left, x, right);
    }
  }
}
