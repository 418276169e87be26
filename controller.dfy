/**
 * The CSV side of delivery/http/controller.go: mapping a CSV row to a record
 * (`parseTransactionRow`, `parseBankRow`) and reading a whole file
 * (`parseTransactionsFromCSV`, `parseBankFromCSV`): the first row is a header
 * and is dropped, every later row is mapped and kept when its instant lies in
 * the inclusive window [startDate, endDate], and the first read error ends
 * the file with that error.
 *
 * `encoding/csv` is represented by the sequence of outcomes its `Read` calls
 * return, the end of the sequence standing for io.EOF.  The two parsers the
 * row mappers call, `decimal.NewFromString` and `time.Parse(time.DateTime, ·)`,
 * are parameters: partial functions from a column to a value.
 */
module HttpController {
  import opened Wrappers
  import opened ReconModel

  /** What one `reader.Read()` returns before io.EOF: a row, or an error. */
  datatype ReadOutcome = Record(fields: seq<string>) | ReadError(message: string)

  /** `decimal.NewFromString` and `time.Parse(time.DateTime, ·)`; None is a parse error. */
  datatype Parsers = Parsers(amount: string -> Option<real>, instant: string -> Option<int>)

  /** Renderers of an amount and an instant as CSV columns, the inverses the round-trip lemmas assume. */
  datatype Formatters = Formatters(amount: real -> string, instant: int -> string)

  // ---------------------------------------------------------------------------
  // Row mapping

  /** Column k of a row, or the zero string when the row is shorter. */
  function Column(row: seq<string>, k: nat): string
  {
    if k < |row| then row[k] else ""
  }

  /** An amount column: its parsed value, or zero when the row is shorter or the text does not parse. */
  function AmountColumn(row: seq<string>, k: nat, p: Parsers): real
  {
    if k < |row| && p.amount(row[k]).Some? then p.amount(row[k]).value else 0.0
  }

  /** An instant column: its parsed value, or the zero time when the row is shorter or the text does not parse. */
  function InstantColumn(row: seq<string>, k: nat, p: Parsers): int
  {
    if k < |row| && p.instant(row[k]).Some? then p.instant(row[k]).value else ZeroTime
  }

  /**
   * `parseTransactionRow`: columns 0..5 are TransactionID, TerminalRRN,
   * Amount, TransactionType, BankCode, TransactionTime.  A row is never
   * rejected: a missing or unparsable column leaves its field at zero.
   */
  function ParseTransactionRow(row: seq<string>, p: Parsers): (tx: TransactionUploadFile)
    ensures |row| == 0 ==> tx == TransactionUploadFile("", "", 0.0, "", "", ZeroTime)
    ensures |row| > 4 ==> tx.TransactionID == row[0] && tx.TerminalRRN == row[1]
                          && tx.TransactionType == row[3] && tx.BankCode == row[4]
    ensures tx.TransactionID == (if |row| > 0 then row[0] else "")
    ensures tx.TerminalRRN == (if |row| > 1 then row[1] else "")
    ensures tx.TransactionType == (if |row| > 3 then row[3] else "")
    ensures tx.BankCode == (if |row| > 4 then row[4] else "")
    ensures |row| > 2 && p.amount(row[2]).Some? ==> tx.Amount == p.amount(row[2]).value
    ensures (|row| <= 2 || p.amount(row[2]).None?) ==> tx.Amount == 0.0
    ensures |row| > 5 && p.instant(row[5]).Some? ==> tx.TransactionTime == p.instant(row[5]).value
    ensures (|row| <= 5 || p.instant(row[5]).None?) ==> tx.TransactionTime == ZeroTime
    ensures tx.Amount != 0.0 ==> |row| > 2 && p.amount(row[2]) == Some(tx.Amount)
    ensures tx.TransactionTime != ZeroTime ==> |row| > 5 && p.instant(row[5]) == Some(tx.TransactionTime)
  {
    TransactionUploadFile(
      Column(row, 0), Column(row, 1), AmountColumn(row, 2, p), Column(row, 3), Column(row, 4), InstantColumn(row, 5, p))
  }

  /**
   * `parseBankRow`: columns 0..3 are UniqueID, Amount, Date, BankCode, with
   * the same zero defaults.
   */
  function ParseBankRow(row: seq<string>, p: Parsers): (b: BankStatementUploadFile)
    ensures |row| == 0 ==> b == BankStatementUploadFile("", 0.0, ZeroTime, "")
    ensures |row| > 3 ==> b.UniqueID == row[0] && b.BankCode == row[3]
    ensures b.UniqueID == (if |row| > 0 then row[0] else "")
    ensures b.BankCode == (if |row| > 3 then row[3] else "")
    ensures |row| > 1 && p.amount(row[1]).Some? ==> b.Amount == p.amount(row[1]).value
    ensures (|row| <= 1 || p.amount(row[1]).None?) ==> b.Amount == 0.0
    ensures |row| > 2 && p.instant(row[2]).Some? ==> b.Date == p.instant(row[2]).value
    ensures (|row| <= 2 || p.instant(row[2]).None?) ==> b.Date == ZeroTime
    ensures b.Amount != 0.0 ==> |row| > 1 && p.amount(row[1]) == Some(b.Amount)
    ensures b.Date != ZeroTime ==> |row| > 2 && p.instant(row[2]) == Some(b.Date)
  {
    BankStatementUploadFile(Column(row, 0), AmountColumn(row, 1, p), InstantColumn(row, 2, p), Column(row, 3))
  }

  /** A transaction written out as the six columns the system file carries. */
  function TransactionRow(tx: TransactionUploadFile, f: Formatters): seq<string>
  {
    [tx.TransactionID, tx.TerminalRRN, f.amount(tx.Amount), tx.TransactionType, tx.BankCode, f.instant(tx.TransactionTime)]
  }

  /** A bank statement line written out as the four columns the bank file carries. */
  function BankRow(b: BankStatementUploadFile, f: Formatters): seq<string>
  {
    [b.UniqueID, f.amount(b.Amount), f.instant(b.Date), b.BankCode]
  }

  /** Reading back a written transaction row gives the transaction, whatever columns follow it. */
  lemma TransactionRowRoundTrip(tx: TransactionUploadFile, f: Formatters, p: Parsers, extra: seq<string>)
    requires p.amount(f.amount(tx.Amount)) == Some(tx.Amount)
    requires p.instant(f.instant(tx.TransactionTime)) == Some(tx.TransactionTime)
    ensures ParseTransactionRow(TransactionRow(tx, f) + extra, p) == tx
  {
    var row := TransactionRow(tx, f) + extra;
    assert row[2] == f.amount(tx.Amount) && row[5] == f.instant(tx.TransactionTime);
  }

  /** Reading back a written bank row gives the bank statement line, whatever columns follow it. */
  lemma BankRowRoundTrip(b: BankStatementUploadFile, f: Formatters, p: Parsers, extra: seq<string>)
    requires p.amount(f.amount(b.Amount)) == Some(b.Amount)
    requires p.instant(f.instant(b.Date)) == Some(b.Date)
    ensures ParseBankRow(BankRow(b, f) + extra, p) == b
  {
    var row := BankRow(b, f) + extra;
    assert row[1] == f.amount(b.Amount) && row[2] == f.instant(b.Date);
  }

  /** An unparsable amount or instant is read as zero rather than rejecting the row. */
  lemma UnparsableColumnsAreZero(row: seq<string>, p: Parsers)
    requires |row| >= 6 && p.amount(row[2]) == None && p.instant(row[5]) == None
    ensures ParseTransactionRow(row, p) == TransactionUploadFile(row[0], row[1], 0.0, row[3], row[4], ZeroTime)
  {
  }

  // ---------------------------------------------------------------------------
  // The date window

  /** `!t.Before(startDate) && !t.After(endDate)`: inclusive at both ends. */
  predicate InWindow(t: int, startDate: int, endDate: int)
  {
    startDate <= t <= endDate
  }

  /** The records whose instant lies in the window, in their original order. */
  function Window<T>(s: seq<T>, instant: T -> int, startDate: int, endDate: int): seq<T>
  {
    if s == [] then []
    else
      Window(s[..|s| - 1], instant, startDate, endDate)
        + (if InWindow(instant(s[|s| - 1]), startDate, endDate) then [s[|s| - 1]] else [])
  }

  /** A record survives the window exactly when it was there and its instant lies in the window. */
  lemma {:induction false} WindowMembers<T>(s: seq<T>, instant: T -> int, startDate: int, endDate: int, x: T)
    ensures x in Window(s, instant, startDate, endDate) <==> x in s && InWindow(instant(x), startDate, endDate)
  {
    if s != [] {
      WindowMembers(s[..|s| - 1], instant, startDate, endDate, x);
      assert s == s[..|s| - 1] + [s[|s| - 1]];
    }
  }

  /** Windowing a concatenation windows each part. */
  lemma {:induction false} WindowAppend<T>(a: seq<T>, b: seq<T>, instant: T -> int, startDate: int, endDate: int)
    ensures Window(a + b, instant, startDate, endDate) == Window(a, instant, startDate, endDate) + Window(b, instant, startDate, endDate)
  {
    if b != [] {
      var init, last := b[..|b| - 1], b[|b| - 1];
      WindowAppend(a, init, instant, startDate, endDate);
      var tail := if InWindow(instant(last), startDate, endDate) then [last] else [];
      assert (a + b)[..|a + b| - 1] == a + init;
      assert (a + b)[|a + b| - 1] == last;
      assert Window(a + b, instant, startDate, endDate) == Window(a + init, instant, startDate, endDate) + tail;
      assert Window(b, instant, startDate, endDate) == Window(init, instant, startDate, endDate) + tail;
    } else {
      assert a + b == a;
    }
  }

  /** An empty window (start after end) keeps nothing. */
  lemma {:induction false} EmptyWindow<T>(s: seq<T>, instant: T -> int, startDate: int, endDate: int)
    requires endDate < startDate
    ensures Window(s, instant, startDate, endDate) == []
  {
    if s != [] {
      EmptyWindow(s[..|s| - 1], instant, startDate, endDate);
    }
  }

  // ---------------------------------------------------------------------------
  // Reading a file

  /** The message of the first read error, if any. */
  function FirstError(input: seq<ReadOutcome>): Option<string>
  {
    if input == [] then None
    else if input[0].ReadError? then Some(input[0].message)
    else FirstError(input[1..])
  }

  /** The fields of the rows read, in order, skipping errors. */
  function Records(input: seq<ReadOutcome>): seq<seq<string>>
  {
    if input == [] then []
    else (if input[0].Record? then [input[0].fields] else []) + Records(input[1..])
  }

  /** Every row mapped to its record. */
  function MapRows<T>(rows: seq<seq<string>>, parse: seq<string> -> T): (s: seq<T>)
    ensures |s| == |rows|
    ensures forall k :: 0 <= k < |rows| ==> s[k] == parse(rows[k])
  {
    if rows == [] then [] else [parse(rows[0])] + MapRows(rows[1..], parse)
  }

  /**
   * The data-row loop, one read at a time: an error ends it with that error,
   * a row is mapped and kept when its instant is in the window.
   */
  function ReadRows<T>(input: seq<ReadOutcome>, parse: seq<string> -> T, instant: T -> int, startDate: int, endDate: int)
    : Result<seq<T>, string>
  {
    if input == [] then Success([])
    else
      match ReadRows(input[..|input| - 1], parse, instant, startDate, endDate)
      case Failure(e) => Failure(e)
      case Success(kept) =>
        match input[|input| - 1]
        case ReadError(m) => Failure(m)
        case Record(fields) =>
          var x := parse(fields);
          Success(if InWindow(instant(x), startDate, endDate) then kept + [x] else kept)
  }

  /** The whole reader: an empty file gives no records, a failing header read its error, otherwise the data rows. */
  function ReadCSV<T>(input: seq<ReadOutcome>, parse: seq<string> -> T, instant: T -> int, startDate: int, endDate: int)
    : Result<seq<T>, string>
  {
    if input == [] then Success([])
    else if input[0].ReadError? then Failure(input[0].message)
    else ReadRows(input[1..], parse, instant, startDate, endDate)
  }

  lemma {:induction false} FirstErrorSnoc(input: seq<ReadOutcome>, x: ReadOutcome)
    ensures FirstError(input + [x]) == if FirstError(input).Some? then FirstError(input)
                                       else if x.ReadError? then Some(x.message) else None
  {
    if input == [] {
      assert input + [x] == [x];
    } else {
      FirstErrorSnoc(input[1..], x);
      assert (input + [x])[1..] == input[1..] + [x];
    }
  }

  lemma {:induction false} RecordsSnoc(input: seq<ReadOutcome>, x: ReadOutcome)
    ensures Records(input + [x]) == Records(input) + (if x.Record? then [x.fields] else [])
  {
    if input == [] {
      assert input + [x] == [x];
    } else {
      RecordsSnoc(input[1..], x);
      assert (input + [x])[1..] == input[1..] + [x];
    }
  }

  lemma MapRowsSnoc<T>(rows: seq<seq<string>>, row: seq<string>, parse: seq<string> -> T)
    ensures MapRows(rows + [row], parse) == MapRows(rows, parse) + [parse(row)]
  {
  }

  /**
   * The interleaved loop agrees with reading everything first: it fails with
   * the first error if there is one, and otherwise keeps exactly the mapped
   * rows whose instant is in the window, in file order.
   */
  lemma {:induction false} ReadRowsReference<T>(input: seq<ReadOutcome>, parse: seq<string> -> T, instant: T -> int,
                                                startDate: int, endDate: int)
    ensures ReadRows(input, parse, instant, startDate, endDate)
         == if FirstError(input).Some? then Failure(FirstError(input).value)
            else Success(Window(MapRows(Records(input), parse), instant, startDate, endDate))
  {
    if input != [] {
      var init, last := input[..|input| - 1], input[|input| - 1];
      assert input == init + [last];
      ReadRowsReference(init, parse, instant, startDate, endDate);
      FirstErrorSnoc(init, last);
      if FirstError(init).Some? {
      } else if last.ReadError? {
      } else {
        RecordsSnoc(init, last);
        var kept := Window(MapRows(Records(init), parse), instant, startDate, endDate);
        assert ReadRows(init, parse, instant, startDate, endDate) == Success(kept);
        var x := parse(last.fields);
        assert ReadRows(input, parse, instant, startDate, endDate)
            == Success(if InWindow(instant(x), startDate, endDate) then kept + [x] else kept);
        WindowSnocRow(Records(init), last.fields, parse, instant, startDate, endDate);
        assert Records(input) == Records(init) + [last.fields];
      }
    }
  }

  lemma WindowSnocRow<T>(rows: seq<seq<string>>, fields: seq<string>, parse: seq<string> -> T, instant: T -> int,
                         startDate: int, endDate: int)
    ensures Window(MapRows(rows + [fields], parse), instant, startDate, endDate)
         == if InWindow(instant(parse(fields)), startDate, endDate)
            then Window(MapRows(rows, parse), instant, startDate, endDate) + [parse(fields)]
            else Window(MapRows(rows, parse), instant, startDate, endDate)
  {
    MapRowsSnoc(rows, fields, parse);
    WindowAppend(MapRows(rows, parse), [parse(fields)], instant, startDate, endDate);
    assert [parse(fields)][..0] == [];
    assert Window(MapRows(rows, parse), instant, startDate, endDate) + []
        == Window(MapRows(rows, parse), instant, startDate, endDate);
  }

  /**
   * The generic body of `parseTransactionsFromCSV` and `parseBankFromCSV`:
   * skip the header, then read rows until io.EOF.
   */
  method ParseRecords<T>(input: seq<ReadOutcome>, parse: seq<string> -> T, instant: T -> int, startDate: int, endDate: int)
    returns (r: Result<seq<T>, string>)
    ensures r == ReadCSV(input, parse, instant, startDate, endDate)
  {
    if |input| == 0 {
      return Success([]);
    }
    if input[0].ReadError? {
      return Failure(input[0].message);
    }
    var kept: seq<T> := [];
    var i := 1;
    while i < |input|
      invariant 1 <= i <= |input|
      invariant ReadRows(input[1..i], parse, instant, startDate, endDate) == Success(kept)
      decreases |input| - i
    {
      assert input[1..i + 1][..i - 1] == input[1..i];
      match input[i] {
        case ReadError(m) =>
          ErrorsPersist(input[1..i + 1], input[i + 1..], parse, instant, startDate, endDate);
          assert input[1..i + 1] + input[i + 1..] == input[1..];
          return Failure(m);
        case Record(fields) =>
          var x := parse(fields);
          if InWindow(instant(x), startDate, endDate) {
            kept := kept + [x];
          }
      }
      i := i + 1;
    }
    assert input[1..i] == input[1..];
    r := Success(kept);
  }

  /** Once the loop has failed, later reads change nothing. */
  lemma {:induction false} ErrorsPersist<T>(a: seq<ReadOutcome>, b: seq<ReadOutcome>, parse: seq<string> -> T,
                                            instant: T -> int, startDate: int, endDate: int)
    requires ReadRows(a, parse, instant, startDate, endDate).Failure?
    ensures ReadRows(a + b, parse, instant, startDate, endDate) == ReadRows(a, parse, instant, startDate, endDate)
  {
    if b != [] {
      ErrorsPersist(a, b[..|b| - 1], parse, instant, startDate, endDate);
      assert (a + b)[..|a + b| - 1] == a + b[..|b| - 1];
      assert a + b != [];
    } else {
      assert a + b == a;
    }
  }

  function TransactionTimeOf(tx: TransactionUploadFile): int { tx.TransactionTime }

  function BankDateOf(b: BankStatementUploadFile): int { b.Date }

  /**
   * `parseTransactionsFromCSV`: fails with the first read error (header
   * included); otherwise returns the data rows mapped by ParseTransactionRow
   * whose TransactionTime is in the window, in file order.
   */
  method ParseTransactionsFromCSV(input: seq<ReadOutcome>, p: Parsers, startDate: int, endDate: int)
    returns (r: Result<seq<TransactionUploadFile>, string>)
    ensures input == [] ==> r == Success([])
    ensures r.Failure? <==> FirstError(input).Some?
    ensures r.Failure? ==> r.error == FirstError(input).value
    ensures r.Success? && input != [] ==>
              r.value == Window(MapRows(Records(input[1..]), row => ParseTransactionRow(row, p)), TransactionTimeOf, startDate, endDate)
    ensures r.Success? ==> forall tx :: tx in r.value ==> InWindow(tx.TransactionTime, startDate, endDate)
  {
    var parse := row => ParseTransactionRow(row, p);
    r := ParseRecords(input, parse, TransactionTimeOf, startDate, endDate);
    CSVReference(input, parse, TransactionTimeOf, startDate, endDate);
    if r.Success? {
      forall tx | tx in r.value ensures InWindow(tx.TransactionTime, startDate, endDate) {
        WindowedCSV(input, parse, TransactionTimeOf, startDate, endDate, tx);
      }
    }
  }

  /**
   * `parseBankFromCSV`: the same reading with ParseBankRow, windowed on Date.
   */
  method ParseBankFromCSV(input: seq<ReadOutcome>, p: Parsers, startDate: int, endDate: int)
    returns (r: Result<seq<BankStatementUploadFile>, string>)
    ensures input == [] ==> r == Success([])
    ensures r.Failure? <==> FirstError(input).Some?
    ensures r.Failure? ==> r.error == FirstError(input).value
    ensures r.Success? && input != [] ==>
              r.value == Window(MapRows(Records(input[1..]), row => ParseBankRow(row, p)), BankDateOf, startDate, endDate)
    ensures r.Success? ==> forall b :: b in r.value ==> InWindow(b.Date, startDate, endDate)
  {
    var parse := row => ParseBankRow(row, p);
    r := ParseRecords(input, parse, BankDateOf, startDate, endDate);
    CSVReference(input, parse, BankDateOf, startDate, endDate);
    if r.Success? {
      forall b | b in r.value ensures InWindow(b.Date, startDate, endDate) {
        WindowedCSV(input, parse, BankDateOf, startDate, endDate, b);
      }
    }
  }

  /** The whole reader against the read-everything-first reference. */
  lemma CSVReference<T>(input: seq<ReadOutcome>, parse: seq<string> -> T, instant: T -> int, startDate: int, endDate: int)
    ensures input == [] ==> ReadCSV(input, parse, instant, startDate, endDate) == Success([])
    ensures ReadCSV(input, parse, instant, startDate, endDate).Failure? <==> FirstError(input).Some?
    ensures ReadCSV(input, parse, instant, startDate, endDate).Failure? ==>
              ReadCSV(input, parse, instant, startDate, endDate).error == FirstError(input).value
    ensures ReadCSV(input, parse, instant, startDate, endDate).Success? && input != [] ==>
              ReadCSV(input, parse, instant, startDate, endDate).value
              == Window(MapRows(Records(input[1..]), parse), instant, startDate, endDate)
  {
    if input != [] {
      ReadRowsReference(input[1..], parse, instant, startDate, endDate);
    }
  }

  /** Every record the reader returns lies in the window. */
  lemma WindowedCSV<T>(input: seq<ReadOutcome>, parse: seq<string> -> T, instant: T -> int, startDate: int, endDate: int, x: T)
    requires ReadCSV(input, parse, instant, startDate, endDate).Success?
    requires x in ReadCSV(input, parse, instant, startDate, endDate).value
    ensures InWindow(instant(x), startDate, endDate)
  {
    CSVReference(input, parse, instant, startDate, endDate);
    WindowMembers(MapRows(Records(input[1..]), parse), instant, startDate, endDate, x);
  }
}
