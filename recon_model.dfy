/**
 * The record types of the reconciliation engine (application/recon/model.go).
 *
 * Amounts are `decimal.Decimal` in the source, an exact arbitrary-precision
 * decimal; they are modelled as `real`, which is exact as well.  Instants
 * (`time.Time`) are modelled as integers ordered like the instants they stand
 * for; the Go zero time is `ZeroTime`.
 */
module ReconModel {

  /** Go's zero `time.Time`, the value a field keeps when it is never set. */
  const ZeroTime: int := 0

  /** One row of the internal (system) transaction file. */
  datatype TransactionUploadFile = TransactionUploadFile(
    TransactionID: string,
    TerminalRRN: string,
    Amount: real,
    TransactionType: string,
    BankCode: string,
    TransactionTime: int)

  /** One row of the bank statement file. */
  datatype BankStatementUploadFile = BankStatementUploadFile(
    UniqueID: string,
    Amount: real,
    Date: int,
    BankCode: string)

  datatype ResultReconciliationDetails = ResultReconciliationDetails(
    TransactionMismatched: seq<TransactionUploadFile>,
    BankStatementMismatched: seq<BankStatementUploadFile>)

  /** The reconciliation of one chunk, or (after the merge) of one bank code. */
  datatype ResultReconciliation = ResultReconciliation(
    TotalNumberOfTransactions: int,
    TotalNumberOfMatchesTransactions: int,
    TotalNumberOfUnmatchedTransactions: int,
    ResultReconciliationDetails: ResultReconciliationDetails,
    TotalAmountDiscrepancies: real,
    BankCode: string)

  datatype ShowResultReconciliation = ShowResultReconciliation(
    ResultReconciliation: seq<ResultReconciliation>)

  /** The two parsed files and the date window they were filtered with. */
  datatype UploadFile = UploadFile(
    transactionFile: seq<TransactionUploadFile>,
    bankFile: seq<BankStatementUploadFile>,
    startDate: int,
    endDate: int)

  /**
   * Packs the parsed files and the window.  A nil Go slice is the empty
   * sequence here, and the result is a value, so it is never nil.
   */
  function NewUploadFile(
    transactionFile: seq<TransactionUploadFile>,
    bankFile: seq<BankStatementUploadFile>,
    startDate: int,
    endDate: int): (f: UploadFile)
    ensures f.transactionFile == transactionFile
    ensures f.bankFile == bankFile
    ensures f.startDate == startDate && f.endDate == endDate
  {
    UploadFile(transactionFile, bankFile, startDate, endDate)
  }
}
