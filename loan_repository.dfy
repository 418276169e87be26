/**
 * The SQL text and argument assembly of
 * infrastructure/repository/loan_repository_impl.go: the placeholder list
 * `buildWhereIn`, the optional WHERE conditions of `builderWhere`, the
 * optional SET item of `builderUpdate`, and how `FindLoans` and `UpdateLoan`
 * put the query and its arguments together.  The invariant the code relies
 * on is that the query carries exactly one `?` per argument, in argument
 * order.  Executing the statement and scanning rows are not modelled.
 */
module LoanRepository {
  import ReconModel

  /** `LoanEntity` (infrastructure/repository/loan.go); `uint64` as `nat`, instants as integers. */
  datatype LoanEntity = LoanEntity(
    ID: nat,
    Status: string,
    UserID: string,
    DueDate: int,
    Amount: real,
    CreatedAt: int,
    Version: int,
    UpdatedAt: int,
    Statuses: seq<string>)

  /** `LoanEntityUpdate`: the ids to update and the new status. */
  datatype LoanEntityUpdate = LoanEntityUpdate(IDs: seq<nat>, Status: string)

  /** One argument of a prepared statement, by its Go type. */
  datatype SqlArg = IdArg(id: nat) | TextArg(text: string) | TimeArg(instant: int)

  /** The fixed SQL texts, written in pieces short enough to inspect character by character. */
  const QuerySelect := "\n\t\tSELECT id, status, user_id, " + "due_date, amount, created_at, "
    + "version, updated_at \n\t\t" + "FROM loan WHERE TRUE\n\t"
  const QueryUpdate := "\n\t\tUPDATE loan SET\n\t"
  const QueryUpdateWhere := "\n\t\tversion = version + 1," + "\n\t\tupdated_at = now()"
    + "\n\tWHERE \n\t\tid IN\n\t"

  const IdCondition := "AND id = ? "
  const UserIdCondition := "AND user_id = ? "
  const DueDateCondition := "AND due_date < ? "
  const StatusAssignment := "status = ?, "

  /** The number of placeholders in a piece of SQL. */
  function Placeholders(sql: string): nat
  {
    if sql == [] then 0 else Placeholders(sql[..|sql| - 1]) + (if sql[|sql| - 1] == '?' then 1 else 0)
  }

  lemma {:induction false} PlaceholdersAppend(a: string, b: string)
    ensures Placeholders(a + b) == Placeholders(a) + Placeholders(b)
  {
    if b == [] {
      assert a + b == a;
    } else {
      PlaceholdersAppend(a, b[..|b| - 1]);
      assert (a + b)[..|a + b| - 1] == a + b[..|b| - 1];
    }
  }

  lemma {:induction false} NoPlaceholders(sql: string)
    requires forall k :: 0 <= k < |sql| ==> sql[k] != '?'
    ensures Placeholders(sql) == 0
  {
    if sql != [] {
      NoPlaceholders(sql[..|sql| - 1]);
    }
  }

  // ---------------------------------------------------------------------------
  // buildWhereIn

  /** `strings.Repeat(s, n)`. */
  function Repeat(s: string, n: nat): string
  {
    if n == 0 then "" else Repeat(s, n - 1) + s
  }

  /** Drops every leading c. */
  function TrimLeft(s: string, c: char): string
  {
    if s != [] && s[0] == c then TrimLeft(s[1..], c) else s
  }

  /** Drops every trailing c. */
  function TrimRight(s: string, c: char): string
  {
    if s != [] && s[|s| - 1] == c then TrimRight(s[..|s| - 1], c) else s
  }

  /** `strings.Trim(s, string(c))`: drops leading and trailing c. */
  function Trim(s: string, c: char): string
  {
    TrimRight(TrimLeft(s, c), c)
  }

  /** `buildWhereIn(n)`: `strings.Trim(strings.Repeat("?,", n), ",")`. */
  function BuildWhereIn(n: nat): string
  {
    Trim(Repeat("?,", n), ',')
  }

  /** The intended list: n question marks separated by single commas. */
  function InList(n: nat): (list: string)
    ensures n == 0 <==> list == ""
    ensures n > 0 ==> list[0] == '?' && list[|list| - 1] == '?'
  {
    if n == 0 then "" else if n == 1 then "?" else InList(n - 1) + ",?"
  }

  lemma {:induction false} RepeatedPairs(n: nat)
    requires n > 0
    ensures Repeat("?,", n) == InList(n) + ","
  {
    if n > 1 {
      RepeatedPairs(n - 1);
    }
  }

  /** `buildWhereIn(n)` is exactly n question marks separated by single commas; "" for n = 0. */
  lemma BuildWhereInIsList(n: nat)
    ensures BuildWhereIn(n) == InList(n)
  {
    if n > 0 {
      RepeatedPairs(n);
      var r := Repeat("?,", n);
      assert TrimLeft(r, ',') == r;
      assert r[..|r| - 1] == InList(n);
      assert TrimRight(r, ',') == TrimRight(InList(n), ',');
    }
  }

  /** The list holds n placeholders and n - 1 commas. */
  lemma {:induction false} InListCounts(n: nat)
    ensures Placeholders(InList(n)) == n
  {
    if n > 1 {
      InListCounts(n - 1);
      PlaceholdersAppend(InList(n - 1), ",?");
      PlaceholdersAppend(",", "?");
      assert ",?" == "," + "?";
      NoPlaceholders(",");
    }
  }

  // ---------------------------------------------------------------------------
  // builderWhere and builderUpdate

  /** One optional condition: its SQL text and its argument. */
  datatype Condition = Condition(text: string, arg: SqlArg)

  /**
   * The conditions `builderWhere` writes, in the order it writes them: id,
   * user_id, due_date, each only when its field is not the zero value.
   */
  function WhereConditions(e: LoanEntity): seq<Condition>
  {
    var byId := if e.ID != 0 then [Condition(IdCondition, IdArg(e.ID))] else [];
    var byUser := if e.UserID != "" then byId + [Condition(UserIdCondition, TextArg(e.UserID))] else byId;
    if e.DueDate != ReconModel.ZeroTime then byUser + [Condition(DueDateCondition, TimeArg(e.DueDate))] else byUser
  }

  function Texts(conds: seq<Condition>): string
  {
    if conds == [] then "" else Texts(conds[..|conds| - 1]) + conds[|conds| - 1].text
  }

  function Args(conds: seq<Condition>): (args: seq<SqlArg>)
    ensures |args| == |conds|
    ensures forall k :: 0 <= k < |conds| ==> args[k] == conds[k].arg
  {
    if conds == [] then [] else Args(conds[..|conds| - 1]) + [conds[|conds| - 1].arg]
  }

  /** Conditions with one placeholder each give as many placeholders as arguments. */
  lemma {:induction false} ConditionsBalanced(conds: seq<Condition>)
    requires forall k :: 0 <= k < |conds| ==> Placeholders(conds[k].text) == 1
    ensures Placeholders(Texts(conds)) == |Args(conds)|
  {
    if conds != [] {
      ConditionsBalanced(conds[..|conds| - 1]);
      PlaceholdersAppend(Texts(conds[..|conds| - 1]), conds[|conds| - 1].text);
    }
  }

  lemma OnePlaceholder(before: string, after: string)
    requires forall k :: 0 <= k < |before| ==> before[k] != '?'
    requires forall k :: 0 <= k < |after| ==> after[k] != '?'
    ensures Placeholders(before + "?" + after) == 1
  {
    NoPlaceholders(before);
    NoPlaceholders(after);
    PlaceholdersAppend(before, "?");
    PlaceholdersAppend(before + "?", after);
  }

  lemma OnePlaceholderEach()
    ensures Placeholders(IdCondition) == 1 && Placeholders(UserIdCondition) == 1
    ensures Placeholders(DueDateCondition) == 1 && Placeholders(StatusAssignment) == 1
  {
    OnePlaceholder("AND id = ", " ");
    assert IdCondition == "AND id = " + "?" + " ";
    OnePlaceholder("AND user_id = ", " ");
    assert UserIdCondition == "AND user_id = " + "?" + " ";
    OnePlaceholder("AND due_date < ", " ");
    assert DueDateCondition == "AND due_date < " + "?" + " ";
    OnePlaceholder("status = ", ", ");
    assert StatusAssignment == "status = " + "?" + ", ";
  }

  /** Which conditions are present: exactly those whose field is set. */
  lemma WhereConditionsPresent(e: LoanEntity)
    ensures Condition(IdCondition, IdArg(e.ID)) in WhereConditions(e) <==> e.ID != 0
    ensures Condition(UserIdCondition, TextArg(e.UserID)) in WhereConditions(e) <==> e.UserID != ""
    ensures Condition(DueDateCondition, TimeArg(e.DueDate)) in WhereConditions(e) <==> e.DueDate != ReconModel.ZeroTime
    ensures |WhereConditions(e)| <= 3
  {
  }

  lemma AppendCondition(conds: seq<Condition>, c: Condition)
    ensures Texts(conds + [c]) == Texts(conds) + c.text
    ensures Args(conds + [c]) == Args(conds) + [c.arg]
  {
    assert (conds + [c])[..|conds|] == conds;
  }

  /** Every condition carries one placeholder, so the WHERE text carries one per argument. */
  lemma WhereBalanced(e: LoanEntity)
    ensures Placeholders(Texts(WhereConditions(e))) == |Args(WhereConditions(e))|
  {
    var conds := WhereConditions(e);
    forall k | 0 <= k < |conds|
      ensures conds[k].text in {IdCondition, UserIdCondition, DueDateCondition}
    {
    }
    OnePlaceholderEach();
    ConditionsBalanced(conds);
  }

  /**
   * `builderWhere`: the conditions' texts in order, and their arguments in
   * the same order, one placeholder per argument.
   */
  method BuilderWhere(e: LoanEntity) returns (clause: string, args: seq<SqlArg>)
    ensures clause == Texts(WhereConditions(e)) && args == Args(WhereConditions(e))
    ensures Placeholders(clause) == |args|
  {
    clause := "";
    args := [];
    ghost var written: seq<Condition> := [];
    assert clause == Texts(written) && args == Args(written);
    if e.ID != 0 {
      AppendCondition(written, Condition(IdCondition, IdArg(e.ID)));
      clause := clause + IdCondition;
      args := args + [IdArg(e.ID)];
      written := written + [Condition(IdCondition, IdArg(e.ID))];
    }
    assert clause == Texts(written) && args == Args(written);
    if e.UserID != "" {
      AppendCondition(written, Condition(UserIdCondition, TextArg(e.UserID)));
      clause := clause + UserIdCondition;
      args := args + [TextArg(e.UserID)];
      written := written + [Condition(UserIdCondition, TextArg(e.UserID))];
    }
    assert clause == Texts(written) && args == Args(written);
    if e.DueDate != ReconModel.ZeroTime {
      AppendCondition(written, Condition(DueDateCondition, TimeArg(e.DueDate)));
      clause := clause + DueDateCondition;
      args := args + [TimeArg(e.DueDate)];
      written := written + [Condition(DueDateCondition, TimeArg(e.DueDate))];
    }
    assert written == WhereConditions(e);
    WhereBalanced(e);
  }

  /** `builderUpdate`: the status assignment and its one argument, both only when Status is set. */
  method BuilderUpdate(u: LoanEntityUpdate) returns (assignment: string, args: seq<SqlArg>)
    ensures u.Status != "" ==> assignment == StatusAssignment && args == [TextArg(u.Status)]
    ensures u.Status == "" ==> assignment == "" && args == []
    ensures Placeholders(assignment) == |args|
  {
    assignment := "";
    args := [];
    if u.Status != "" {
      assignment := assignment + StatusAssignment;
      args := args + [TextArg(u.Status)];
    }
    OnePlaceholderEach();
  }

  // ---------------------------------------------------------------------------
  // FindLoans and UpdateLoan

  /** The statuses as arguments, in order. */
  function StatusArgs(statuses: seq<string>): (args: seq<SqlArg>)
    ensures |args| == |statuses|
    ensures forall k :: 0 <= k < |statuses| ==> args[k] == TextArg(statuses[k])
  {
    if statuses == [] then [] else StatusArgs(statuses[..|statuses| - 1]) + [TextArg(statuses[|statuses| - 1])]
  }

  /** The ids as arguments, in order. */
  function IdArgs(ids: seq<nat>): (args: seq<SqlArg>)
    ensures |args| == |ids|
    ensures forall k :: 0 <= k < |ids| ==> args[k] == IdArg(ids[k])
  {
    if ids == [] then [] else IdArgs(ids[..|ids| - 1]) + [IdArg(ids[|ids| - 1])]
  }

  /** The SELECT of `FindLoans`: the optional conditions, then the status list. */
  function FindLoansSql(e: LoanEntity): string
  {
    QuerySelect + Texts(WhereConditions(e)) + " AND status IN" + "(" + BuildWhereIn(|e.Statuses|) + ")"
  }

  /** The arguments of `FindLoans`: the conditions' arguments, then every status. */
  function FindLoansArgs(e: LoanEntity): seq<SqlArg>
  {
    Args(WhereConditions(e)) + StatusArgs(e.Statuses)
  }

  /** The UPDATE of `UpdateLoan`: the optional status assignment, the version bump, then the id list. */
  function UpdateLoanSql(u: LoanEntityUpdate): string
  {
    QueryUpdate + (if u.Status != "" then StatusAssignment else "") + QueryUpdateWhere + "(" + BuildWhereIn(|u.IDs|) + ")"
  }

  /** The arguments of `UpdateLoan`: the status when set, then every id. */
  function UpdateLoanArgs(u: LoanEntityUpdate): seq<SqlArg>
  {
    (if u.Status != "" then [TextArg(u.Status)] else []) + IdArgs(u.IDs)
  }

  /**
   * The statement text and argument list `FindLoans` hands to the database
   * (infrastructure/repository/loan_repository_impl.go, before the query runs).
   */
  method FindLoansStatement(e: LoanEntity) returns (query: string, args: seq<SqlArg>)
    ensures query == FindLoansSql(e) && args == FindLoansArgs(e)
    ensures Placeholders(query) == |args|
  {
    var clause, whereArgs := BuilderWhere(e);
    query := QuerySelect + clause + " AND status IN" + "(" + BuildWhereIn(|e.Statuses|) + ")";
    args := whereArgs;
    for i := 0 to |e.Statuses|
      invariant args == whereArgs + StatusArgs(e.Statuses[..i])
    {
      assert e.Statuses[..i + 1][..i] == e.Statuses[..i];
      args := args + [TextArg(e.Statuses[i])];
    }
    assert e.Statuses[..|e.Statuses|] == e.Statuses;
    FindLoansBalanced(e);
  }

  /** The statement text and argument list `UpdateLoan` hands to the database. */
  method UpdateLoanStatement(u: LoanEntityUpdate) returns (query: string, args: seq<SqlArg>)
    ensures query == UpdateLoanSql(u) && args == UpdateLoanArgs(u)
    ensures Placeholders(query) == |args|
  {
    var assignment, setArgs := BuilderUpdate(u);
    query := QueryUpdate + assignment + QueryUpdateWhere + "(" + BuildWhereIn(|u.IDs|) + ")";
    args := setArgs;
    for i := 0 to |u.IDs|
      invariant args == setArgs + IdArgs(u.IDs[..i])
    {
      assert u.IDs[..i + 1][..i] == u.IDs[..i];
      args := args + [IdArg(u.IDs[i])];
    }
    assert u.IDs[..|u.IDs|] == u.IDs;
    UpdateLoanBalanced(u);
  }

  lemma PiecesHavePlaceholdersNone(a: string, b: string, c: string)
    requires Placeholders(a) == 0 && Placeholders(b) == 0 && Placeholders(c) == 0
    ensures Placeholders(a + b + c) == 0
  {
    PlaceholdersAppend(a, b);
    PlaceholdersAppend(a + b, c);
  }

  /** The fixed parts of the SELECT carry no placeholder. */
  lemma SelectTextsHavePlaceholdersNone()
    ensures Placeholders(QuerySelect) == 0
    ensures Placeholders(" AND status IN") == 0 && Placeholders("(") == 0 && Placeholders(")") == 0
  {
    NoPlaceholders("\n\t\tSELECT id, status, user_id, ");
    NoPlaceholders("due_date, amount, created_at, ");
    NoPlaceholders("version, updated_at \n\t\t");
    NoPlaceholders("FROM loan WHERE TRUE\n\t");
    PiecesHavePlaceholdersNone("\n\t\tSELECT id, status, user_id, ", "due_date, amount, created_at, ", "version, updated_at \n\t\t");
    PlaceholdersAppend("\n\t\tSELECT id, status, user_id, " + "due_date, amount, created_at, " + "version, updated_at \n\t\t", "FROM loan WHERE TRUE\n\t");
    NoPlaceholders(" AND status IN");
    NoPlaceholders("(");
    NoPlaceholders(")");
  }

  /** The fixed parts of the UPDATE carry no placeholder. */
  lemma UpdateTextsHavePlaceholdersNone()
    ensures Placeholders(QueryUpdate) == 0 && Placeholders(QueryUpdateWhere) == 0
    ensures Placeholders("(") == 0 && Placeholders(")") == 0
  {
    NoPlaceholders(QueryUpdate);
    NoPlaceholders("\n\t\tversion = version + 1,");
    NoPlaceholders("\n\t\tupdated_at = now()");
    NoPlaceholders("\n\tWHERE \n\t\tid IN\n\t");
    PiecesHavePlaceholdersNone("\n\t\tversion = version + 1,", "\n\t\tupdated_at = now()", "\n\tWHERE \n\t\tid IN\n\t");
    NoPlaceholders("(");
    NoPlaceholders(")");
  }

  /** A statement of six parts, only the second and fifth of which may carry placeholders. */
  lemma SixParts(a: string, b: string, c: string, d: string, e: string, f: string)
    requires Placeholders(a) == 0 && Placeholders(c) == 0 && Placeholders(d) == 0 && Placeholders(f) == 0
    ensures Placeholders(a + b + c + d + e + f) == Placeholders(b) + Placeholders(e)
  {
    PlaceholdersAppend(a, b);
    PlaceholdersAppend(a + b, c);
    PlaceholdersAppend(a + b + c, d);
    PlaceholdersAppend(a + b + c + d, e);
    PlaceholdersAppend(a + b + c + d + e, f);
  }

  /** The SELECT carries exactly one placeholder per argument. */
  lemma FindLoansBalanced(e: LoanEntity)
    ensures Placeholders(FindLoansSql(e)) == |FindLoansArgs(e)|
  {
    WhereBalanced(e);
    SelectTextsHavePlaceholdersNone();
    BuildWhereInIsList(|e.Statuses|);
    InListCounts(|e.Statuses|);
    SixParts(QuerySelect, Texts(WhereConditions(e)), " AND status IN", "(", BuildWhereIn(|e.Statuses|), ")");
  }

  /** The UPDATE carries exactly one placeholder per argument. */
  lemma UpdateLoanBalanced(u: LoanEntityUpdate)
    ensures Placeholders(UpdateLoanSql(u)) == |UpdateLoanArgs(u)|
  {
    OnePlaceholderEach();
    UpdateTextsHavePlaceholdersNone();
    BuildWhereInIsList(|u.IDs|);
    InListCounts(|u.IDs|);
    SixParts(QueryUpdate, if u.Status != "" then StatusAssignment else "", QueryUpdateWhere, "(", BuildWhereIn(|u.IDs|), ")");
  }

  /**
   * The status list and the id list become "IN()" when empty: the code does
   * not guard against an empty list.
   */
  lemma EmptyListsGiveEmptyIn(e: LoanEntity, u: LoanEntityUpdate)
    requires e.Statuses == [] && u.IDs == []
    ensures FindLoansSql(e) == QuerySelect + Texts(WhereConditions(e)) + " AND status IN()"
    ensures UpdateLoanSql(u) == QueryUpdate + (if u.Status != "" then StatusAssignment else "") + QueryUpdateWhere + "()"
  {
    BuildWhereInIsList(0);
  }

  /** Updating ids 10 and 20 to "PAID" binds "PAID", 10, 20 ... */
  lemma PaidUpdateArgs()
    ensures UpdateLoanArgs(LoanEntityUpdate([10, 20], "PAID")) == [TextArg("PAID"), IdArg(10), IdArg(20)]
  {
    assert IdArgs([10, 20]) == [IdArg(10), IdArg(20)];
  }

  /** ... against the list "(?,?)". */
  lemma PaidUpdateSql()
    ensures UpdateLoanSql(LoanEntityUpdate([10, 20], "PAID")) == QueryUpdate + StatusAssignment + QueryUpdateWhere + "(?,?)"
  {
    BuildWhereInIsList(2);
    assert BuildWhereIn(2) == "?,?";
  }

  /** A filter on id, user and due date binds the id, the user, the due date, then the statuses. */
  lemma AllConditionsFind(id: nat, user: string, due: int, statuses: seq<string>)
    requires id != 0 && user != "" && due != ReconModel.ZeroTime
    ensures FindLoansArgs(LoanEntity(id, "", user, due, 0.0, 0, 0, 0, statuses))
      == [IdArg(id), TextArg(user), TimeArg(due)] + StatusArgs(statuses)
    ensures Texts(WhereConditions(LoanEntity(id, "", user, due, 0.0, 0, 0, 0, statuses)))
      == IdCondition + UserIdCondition + DueDateCondition
  {
    var e := LoanEntity(id, "", user, due, 0.0, 0, 0, 0, statuses);
    var conds := [Condition(IdCondition, IdArg(id)), Condition(UserIdCondition, TextArg(user)),
                  Condition(DueDateCondition, TimeArg(due))];
    assert WhereConditions(e) == conds;
    ThreeConditions(conds);
  }

  lemma ThreeConditions(conds: seq<Condition>)
    requires |conds| == 3
    ensures Texts(conds) == conds[0].text + conds[1].text + conds[2].text
    ensures Args(conds) == [conds[0].arg, conds[1].arg, conds[2].arg]
  {
    assert conds[..2][..1] == [conds[0]];
    assert Texts([conds[0]]) == conds[0].text;
  }
}
