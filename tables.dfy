/** The two per-kind tables the PDO storage reads and writes, and what each statement it
    issues means on them (Storage/Pdo.php). The tables follow the Backend migration
    (Storage/Migrations/Backend/Version001_BackendErrorBaseTables.php): an errors table whose
    identity columns carry a unique index, and an occurrences table pointing at it through
    `error_id`. Statements are given by their meaning, not by their SQL text. */
module Tables {
  import opened Values
  import opened StorageRules
  import opened BackendKind

  /** A fetched or stored row: column name to value. */
  type Row = Assoc

  /** The columns of `insectum_<kind>_errors`. */
  function ErrorColumns(): seq<string>
  {
    ["id", "kind", "type", "code", "msg", "file", "line", "created_at", "resolved_at"]
  }

  /** The columns of `insectum_<kind>_occurrences`. */
  function OccurrenceColumns(): seq<string>
  {
    ["id", "error_id", "method", "url", "stage", "server_name", "server_ip", "backtrace", "context",
     "session", "client_type", "client_id", "client_ip", "occurred_at"]
  }

  /** SQL `a = b`: true only for two equal values neither of which is NULL; a comparison with
      NULL is unknown, which a WHERE clause treats as false. */
  predicate SqlEq(a: Value, b: Value)
  {
    a != Null && b != Null && a == b
  }

  /** Lexicographic order on strings, as a column collation that orders by code point. */
  predicate StrLess(a: string, b: string)
  {
    if a == [] then b != []
    else if b == [] then false
    else a[0] < b[0] || (a[0] == b[0] && StrLess(a[1..], b[1..]))
  }

  /** SQL `a < b`: NULL, and values of different types, compare as unknown. Datetime columns hold
      "Y-m-d H:i:s" strings, whose lexicographic order is their time order. */
  predicate SqlLess(a: Value, b: Value)
  {
    match (a, b)
    case (Int(x), Int(y)) => x < y
    case (Str(x), Str(y)) => StrLess(x, y)
    case (Date(x), Date(y)) => x < y
    case (_, _) => false
  }

  lemma {:induction false} StrLessAsymmetric(a: string, b: string)
    ensures !(StrLess(a, b) && StrLess(b, a))
    ensures !StrLess(a, a)
  {
    if a != [] {
      StrLessAsymmetric(a[1..], a[1..]);
      if b != [] {
        StrLessAsymmetric(a[1..], b[1..]);
      }
    }
  }

  /** Any two distinct strings are ordered one way or the other. */
  lemma {:induction false} StrLessTotal(a: string, b: string)
    ensures a == b || StrLess(a, b) || StrLess(b, a)
  {
    if a != [] && b != [] && a[0] == b[0] {
      StrLessTotal(a[1..], b[1..]);
      if a[1..] == b[1..] {
        assert a == [a[0]] + a[1..] && b == [b[0]] + b[1..];
      }
    }
  }

  /** Two values SQL can order: both integers, both strings or both dates. */
  predicate SqlComparable(a: Value, b: Value)
  {
    (a.Int? && b.Int?) || (a.Str? && b.Str?) || (a.Date? && b.Date?)
  }

  /** Between comparable values exactly one of `a < b`, `a = b` and `b < a` holds. */
  lemma SqlTrichotomy(a: Value, b: Value)
    requires SqlComparable(a, b)
    ensures SqlLess(a, b) || SqlEq(a, b) || SqlLess(b, a)
  {
    if a.Str? {
      StrLessTotal(a.s, b.s);
    }
  }

  /** `<` is a strict order: never both ways, never between equal values. */
  lemma SqlLessAsymmetric(a: Value, b: Value)
    ensures !(SqlLess(a, b) && SqlLess(b, a))
    ensures !(SqlLess(a, b) && SqlEq(a, b))
  {
    if a.Str? && b.Str? {
      StrLessAsymmetric(a.s, b.s);
    }
  }

  /** One row of `errors LEFT JOIN occurrences ON oct.error_id = ert.id`: the error row and the
      matching occurrence row, or none (all occurrence columns NULL). */
  datatype Joined = Joined(error: Row, occurrence: Option<Row>)

  /** `oct.occurred_at` of a joined row. */
  function OccurredAt(j: Joined): Value
  {
    match j.occurrence
    case None => Null
    case Some(o) => Get(o, "occurred_at")
  }

  /** The occurrence rows whose `error_id` equals the error row's `id`, in table order. */
  function OccurrencesOf(e: Row, occurrences: seq<Row>): (r: seq<Row>)
    ensures |r| <= |occurrences|
    ensures forall o :: o in r ==> o in occurrences && SqlEq(Get(o, "error_id"), Get(e, "id"))
  {
    if occurrences == [] then []
    else
      (if SqlEq(Get(occurrences[0], "error_id"), Get(e, "id")) then [occurrences[0]] else [])
      + OccurrencesOf(e, occurrences[1..])
  }

  function Pair(e: Row, os: seq<Row>): (r: seq<Joined>)
    ensures |r| == |os| && forall k :: 0 <= k < |os| ==> r[k] == Joined(e, Some(os[k]))
  {
    if os == [] then [] else [Joined(e, Some(os[0]))] + Pair(e, os[1..])
  }

  /** The joined rows of one error row: one per matching occurrence, or one with no occurrence. */
  function JoinOne(e: Row, occurrences: seq<Row>): (r: seq<Joined>)
    ensures |r| >= 1
    ensures forall j :: j in r ==> j.error == e
  {
    var os := OccurrencesOf(e, occurrences);
    if os == [] then [Joined(e, None)] else Pair(e, os)
  }

  /** `errors AS ert LEFT JOIN occurrences AS oct ON oct.error_id = ert.id`, error by error. */
  function LeftJoin(errors: seq<Row>, occurrences: seq<Row>): (r: seq<Joined>)
    ensures |r| >= |errors|
  {
    if errors == [] then [] else JoinOne(errors[0], occurrences) + LeftJoin(errors[1..], occurrences)
  }

  /** Every error row shows up in the join, with or without occurrences. */
  lemma {:induction false} JoinCoversErrors(errors: seq<Row>, occurrences: seq<Row>, i: nat)
    requires i < |errors|
    ensures exists j :: j in LeftJoin(errors, occurrences) && j.error == errors[i]
  {
    var first := JoinOne(errors[0], occurrences);
    if i == 0 {
      assert first[0] in LeftJoin(errors, occurrences);
    } else {
      JoinCoversErrors(errors[1..], occurrences, i - 1);
      var j :| j in LeftJoin(errors[1..], occurrences) && j.error == errors[1..][i - 1];
      assert j in LeftJoin(errors, occurrences);
    }
  }

  /** The WHERE clause of a filtered read or count (Pdo.php, lines 177, 179, 257, 264):
      RESOLVED_ONLY keeps `resolved_at IS NOT NULL AND occurred_at <= resolved_at`,
      UNRESOLVED_ONLY keeps `resolved_at IS NULL OR occurred_at > resolved_at`. */
  predicate Keeps(f: Filter, j: Joined)
  {
    var res := Get(j.error, "resolved_at");
    var occ := OccurredAt(j);
    match f
    case ResolvedOnly => res != Null && (SqlLess(occ, res) || SqlEq(occ, res))
    case UnresolvedOnly => res == Null || SqlLess(res, occ)
  }

  /** The joined rows a filter keeps, in order; no filter keeps them all. */
  function Filtered(f: Option<Filter>, js: seq<Joined>): (r: seq<Joined>)
    ensures |r| <= |js|
    ensures forall j :: j in r ==> j in js && (f.Some? ==> Keeps(f.value, j))
  {
    if js == [] then []
    else (if f.None? || Keeps(f.value, js[0]) then [js[0]] else []) + Filtered(f, js[1..])
  }

  /** No joined row is both resolved and unresolved; an error with no resolution time is
      unresolved whatever its occurrences; a resolved error with no occurrence row is neither,
      because its `occurred_at` is NULL; and when the resolution and occurrence times are values
      SQL can order (both stored as text, say), exactly one of the two filters keeps the row. */
  lemma FilterCases(j: Joined)
    ensures !(Keeps(ResolvedOnly, j) && Keeps(UnresolvedOnly, j))
    ensures Get(j.error, "resolved_at") == Null ==> Keeps(UnresolvedOnly, j) && !Keeps(ResolvedOnly, j)
    ensures Get(j.error, "resolved_at") != Null && j.occurrence.None? ==>
      !Keeps(ResolvedOnly, j) && !Keeps(UnresolvedOnly, j)
    ensures SqlComparable(Get(j.error, "resolved_at"), OccurredAt(j)) ==>
      (Keeps(ResolvedOnly, j) <==> !Keeps(UnresolvedOnly, j))
  {
    SqlLessAsymmetric(OccurredAt(j), Get(j.error, "resolved_at"));
    if SqlComparable(Get(j.error, "resolved_at"), OccurredAt(j)) {
      SqlTrichotomy(OccurredAt(j), Get(j.error, "resolved_at"));
    }
  }

  /** The resolved and unresolved counts together never exceed the joined rows. */
  lemma {:induction false} FilteredCountsBounded(js: seq<Joined>)
    ensures |Filtered(Some(ResolvedOnly), js)| + |Filtered(Some(UnresolvedOnly), js)| <= |js|
  {
    if js != [] {
      FilteredCountsBounded(js[1..]);
      FilterCases(js[0]);
    }
  }

  /** A joined row whose error is unresolved, or whose two times SQL can order. */
  predicate Classified(j: Joined)
  {
    Get(j.error, "resolved_at") == Null || SqlComparable(Get(j.error, "resolved_at"), OccurredAt(j))
  }

  /** When every joined row is classified, the resolved and unresolved counts add up to exactly
      the number of joined rows: each row is counted once, by one of the two filters. */
  lemma {:induction false} FilteredCountsPartition(js: seq<Joined>)
    requires forall j | j in js :: Classified(j)
    ensures |Filtered(Some(ResolvedOnly), js)| + |Filtered(Some(UnresolvedOnly), js)| == |js|
  {
    if js != [] {
      assert js[0] in js;
      FilteredCountsPartition(js[1..]);
      FilterCases(js[0]);
    }
  }

  /** `LIMIT :limit OFFSET :offset` on the filtered joined rows. */
  function Window(js: seq<Joined>, offset: nat, limit: nat): (r: seq<Joined>)
    ensures r == [] <==> offset >= |js| || limit == 0
    ensures |r| <= limit
  {
    if offset >= |js| then []
    else if offset + limit <= |js| then js[offset..offset + limit]
    else js[offset..]
  }

  /** The database: whether the migration has created the kind's tables, their rows in
      insertion order, and the next auto-increment values. */
  datatype Tables = Tables(migrated: bool, errors: seq<Row>, occurrences: seq<Row>, nextErrorId: int, nextOccurrenceId: int)

  /** Two rows agree on every identity column, NULLs never agreeing: what the unique index on
      (kind, type, code, msg, file, line) forbids for two distinct rows. */
  predicate SameIdentity(a: Row, b: Row)
  {
    forall f | f in ErrorFields() :: SqlEq(Get(a, f), Get(b, f))
  }

  /** The row satisfies `WHERE kind = :kind AND ... AND line = :line` with the given bindings. */
  predicate Matches(row: Row, bindings: Assoc)
  {
    forall f | f in ErrorFields() :: SqlEq(Get(row, f), Get(bindings, f))
  }

  predicate HasMatch(t: Tables, bindings: Assoc)
  {
    exists i | 0 <= i < |t.errors| :: Matches(t.errors[i], bindings)
  }

  /** The first error row matching the bindings (`LIMIT 1`), or none. */
  function FirstMatch(errors: seq<Row>, bindings: Assoc): (r: seq<Row>)
    ensures |r| <= 1
    ensures r != [] ==> r[0] in errors && Matches(r[0], bindings)
    ensures r == [] <==> forall i | 0 <= i < |errors| :: !Matches(errors[i], bindings)
  {
    if errors == [] then []
    else if Matches(errors[0], bindings) then [errors[0]]
    else
      var r := FirstMatch(errors[1..], bindings);
      assert forall i | 1 <= i < |errors| :: errors[i] == errors[1..][i - 1];
      r
  }

  /** The unique index holds, and the tables hold rows only once the migration created them. */
  ghost predicate Valid(t: Tables)
  {
    && (!t.migrated ==> t.errors == [] && t.occurrences == [])
    && (forall i, j | 0 <= i < j < |t.errors| :: !SameIdentity(t.errors[i], t.errors[j]))
  }

  /** Every named placeholder has a binding and every binding a placeholder, which PDO demands. */
  predicate BindsExactly(placeholders: seq<string>, bindings: Assoc)
  {
    (forall p | p in placeholders :: p in Keys(bindings)) && (forall k | k in Keys(bindings) :: k in placeholders)
  }

  /** The columns of an insert exist in the table and are bound, and the NOT NULL column holds a value. */
  predicate Insertable(columns: seq<string>, bindings: Assoc, table: seq<string>, notNull: string)
  {
    && (forall c | c in columns :: c in table && c != "id")
    && BindsExactly(columns, bindings)
    && Get(bindings, notNull) != Null
  }

  function ColumnValues(columns: seq<string>, bindings: Assoc): (r: Row)
    ensures Keys(r) == columns
  {
    if columns == [] then [] else [(columns[0], Get(bindings, columns[0]))] + ColumnValues(columns[1..], bindings)
  }

  lemma {:induction false} ColumnValuesGet(columns: seq<string>, bindings: Assoc, c: string)
    requires c in columns
    ensures Get(ColumnValues(columns, bindings), c) == Get(bindings, c)
  {
    if columns[0] != c {
      ColumnValuesGet(columns[1..], bindings, c);
    }
  }

  /** The stored row of an insert: the auto-increment id, then each listed column's bound value. */
  function NewRow(id: int, columns: seq<string>, bindings: Assoc): Row
  {
    [("id", Int(id))] + ColumnValues(columns, bindings)
  }

  /** A listed column of an inserted row reads back as its binding, and the id as the one given. */
  lemma NewRowGet(id: int, columns: seq<string>, bindings: Assoc, c: string)
    requires c in columns && c != "id"
    ensures Get(NewRow(id, columns, bindings), c) == Get(bindings, c)
    ensures Get(NewRow(id, columns, bindings), "id") == Int(id)
  {
    ColumnValuesGet(columns, bindings, c);
  }

  /** The statements the PDO storage issues, each for one error kind. */
  datatype Statement =
    | FindError(kind: string, bindings: Assoc)                           // getErrorItem's lookup
    | InsertError(kind: string, columns: seq<string>, bindings: Assoc)   // getErrorItem's insert
    | InsertOccurrence(kind: string, columns: seq<string>, bindings: Assoc)
    | SelectErrors(kind: string, filter: Option<Filter>, offset: int, limit: int)  // read's first query
    | SelectOccurrences(kind: string, fetched: seq<Row>)                 // read's second query
    | CountRows(kind: string, filter: Option<Filter>)                    // countErrors

  /** What a statement that succeeded hands back. */
  datatype Answer = Found(rows: seq<Row>) | Page(joined: seq<Joined>) | Total(n: nat) | Inserted

  /** The effect of one statement on the tables, or None where the database raises an error:
      the kind's tables do not exist (the migration has not run, or the kind has none), a
      placeholder is unbound, a column is unknown, a NOT NULL column is null, the unique index
      is violated, or LIMIT/OFFSET is negative. The second read query binds a comma-joined id
      list to a single placeholder; what it returns depends on the driver, so its rows are
      part of the statement. */
  function Run(st: Statement, t: Tables): (r: Option<(Answer, Tables)>)
  {
    if !t.migrated || Lower(st.kind) != Kind then None
    else match st
      case FindError(_, b) =>
        if BindsExactly(ErrorFields(), b) then Some((Found(FirstMatch(t.errors, b)), t)) else None
      case InsertError(_, cols, b) =>
        var row := NewRow(t.nextErrorId, cols, b);
        if !Insertable(cols, b, ErrorColumns(), "kind") then None
        else if exists i | 0 <= i < |t.errors| :: SameIdentity(t.errors[i], row) then None
        else Some((Inserted, t.(errors := t.errors + [row], nextErrorId := t.nextErrorId + 1)))
      case InsertOccurrence(_, cols, b) =>
        if !Insertable(cols, b, OccurrenceColumns(), "error_id") then None
        else
          var row := NewRow(t.nextOccurrenceId, cols, b);
          Some((Inserted, t.(occurrences := t.occurrences + [row], nextOccurrenceId := t.nextOccurrenceId + 1)))
      case SelectErrors(_, f, offset, limit) =>
        if offset < 0 || limit < 0 then None
        else Some((Page(Window(Filtered(f, LeftJoin(t.errors, t.occurrences)), offset, limit)), t))
      case SelectOccurrences(_, fetched) =>
        Some((Found(fetched), t))
      case CountRows(_, f) =>
        var n := if f.None? then |t.errors| else |Filtered(f, LeftJoin(t.errors, t.occurrences))|;
        Some((Total(n), t))
  }

  /** What the migration does to the tables: nothing once they exist, empty tables for the
      Backend kind otherwise, and an exception (None) for a kind with no migrations. */
  function Migrate(kind: string, t: Tables): (r: Option<Tables>)
    ensures r.Some? <==> Lower(kind) == Kind
    ensures r.Some? ==> r.value.migrated
  {
    if Lower(kind) != Kind then None
    else if t.migrated then Some(t)
    else Some(Tables(true, [], [], 1, 1))
  }

  /** Each statement keeps the unique index; only inserts change the tables, each appending one
      row to its own table and leaving the other one as it was. */
  lemma RunKeepsValid(st: Statement, t: Tables)
    requires Valid(t) && Run(st, t).Some?
    ensures Valid(Run(st, t).value.1)
    ensures !st.InsertError? && !st.InsertOccurrence? ==> Run(st, t).value.1 == t
    ensures st.InsertError? ==>
      (Run(st, t).value.1.occurrences == t.occurrences
       && Run(st, t).value.1.errors == t.errors + [NewRow(t.nextErrorId, st.columns, st.bindings)])
    ensures st.InsertOccurrence? ==>
      (Run(st, t).value.1.errors == t.errors
       && Run(st, t).value.1.occurrences == t.occurrences + [NewRow(t.nextOccurrenceId, st.columns, st.bindings)])
  {
  }

  /** The migration never touches existing rows and leaves the tables valid. */
  lemma MigrateKeepsRows(kind: string, t: Tables)
    requires Valid(t) && Migrate(kind, t).Some?
    ensures Valid(Migrate(kind, t).value)
    ensures Migrate(kind, t).value.errors == t.errors && Migrate(kind, t).value.occurrences == t.occurrences
  {
  }

  /** Find-or-insert cannot duplicate an identity: once a row matches the lookup's bindings, an
      insert whose identity columns are bound to the same values is refused. */
  lemma InsertOfExistingIdentityFails(t: Tables, lookup: Assoc, cols: seq<string>, b: Assoc, kind: string)
    requires HasMatch(t, lookup)
    requires forall f | f in ErrorFields() :: f in cols && Get(b, f) == Get(lookup, f)
    ensures Run(InsertError(kind, cols, b), t).None?
  {
    var i :| 0 <= i < |t.errors| && Matches(t.errors[i], lookup);
    var row := NewRow(t.nextErrorId, cols, b);
    forall f | f in ErrorFields() ensures SqlEq(Get(t.errors[i], f), Get(row, f)) {
      if f != "id" {
        NewRowGet(t.nextErrorId, cols, b, f);
      }
    }
    assert SameIdentity(t.errors[i], row);
  }

  /** A successful insert makes its row findable by a lookup bound to the same identity values,
      provided none of them is NULL. */
  lemma InsertedIdentityFound(t: Tables, lookup: Assoc, cols: seq<string>, b: Assoc, kind: string)
    requires Run(InsertError(kind, cols, b), t).Some?
    requires forall f | f in ErrorFields() :: f in cols && Get(b, f) == Get(lookup, f) && Get(lookup, f) != Null
    ensures HasMatch(Run(InsertError(kind, cols, b), t).value.1, lookup)
  {
    var t' := Run(InsertError(kind, cols, b), t).value.1;
    var row := NewRow(t.nextErrorId, cols, b);
    assert t'.errors == t.errors + [row];
    forall f | f in ErrorFields() ensures SqlEq(Get(row, f), Get(lookup, f)) {
      NewRowGet(t.nextErrorId, cols, b, f);
    }
    assert Matches(t'.errors[|t.errors|], lookup);
  }

  lemma KindIsLower()
    ensures Lower(Kind) == Kind
  {
    assert Lower(Kind) == "backend";
  }

  /** The count a CountRows statement answers on existing Backend tables. */
  lemma RunCount(f: Option<Filter>, t: Tables)
    requires t.migrated
    ensures Run(CountRows(Kind, f), t)
      == Some((Total(if f.None? then |t.errors| else |Filtered(f, LeftJoin(t.errors, t.occurrences))|), t))
  {
    KindIsLower();
  }

  lemma JoinOfOneError(e: Row, o1: Row, o2: Row)
    requires Get(e, "id") != Null && Get(o1, "error_id") == Get(e, "id") && Get(o2, "error_id") == Get(e, "id")
    ensures LeftJoin([e], [o1, o2]) == [Joined(e, Some(o1)), Joined(e, Some(o2))]
  {
    assert OccurrencesOf(e, [o2]) == [o2];
    assert OccurrencesOf(e, [o1, o2]) == [o1, o2];
    assert JoinOne(e, [o1, o2]) == [Joined(e, Some(o1)), Joined(e, Some(o2))];
    assert [e][1..] == [] && LeftJoin([], [o1, o2]) == [];
  }

  /** The unfiltered total counts error rows, while a filtered count counts joined rows: one
      unresolved error with two occurrences is one error, but two unresolved rows. */
  lemma FilteredCountCountsJoinedRows(t: Tables, e: Row, o1: Row, o2: Row)
    requires t.migrated && t.errors == [e] && t.occurrences == [o1, o2]
    requires Get(e, "id") != Null && Get(o1, "error_id") == Get(e, "id") && Get(o2, "error_id") == Get(e, "id")
    requires Get(e, "resolved_at") == Null
    ensures Run(CountRows(Kind, None), t) == Some((Total(1), t))
    ensures Run(CountRows(Kind, Some(UnresolvedOnly)), t) == Some((Total(2), t))
  {
    JoinOfOneError(e, o1, o2);
    RunCount(None, t);
    RunCount(Some(UnresolvedOnly), t);
    var js := LeftJoin([e], [o1, o2]);
    assert Keeps(UnresolvedOnly, js[0]) && Keeps(UnresolvedOnly, js[1]);
    assert Filtered(Some(UnresolvedOnly), js[1..]) == js[1..];
    assert |Filtered(Some(UnresolvedOnly), js)| == 2;
  }
}
