/** The PDO storage (Storage/Pdo.php) together with the template method it inherits
    (Contracts/StorageAbstract.php, `write`): find-or-insert of the error row, the occurrence
    insert, the paged read that groups rows into log items, and the counts. The database is the
    `Tables` model; whether the connection fails a given statement or migration is the
    `Executor` parameter. */
module PdoStore {
  import opened Values
  import opened Fields
  import opened BackendKind
  import opened StorageRules
  import opened Records
  import opened Items
  import opened Tables
  import opened Grouping

  /** What the model does not see of the connection: whether it fails the n-th statement it is
      handed (a lost connection, a lock, a full disk), and whether the n-th migration throws. */
  datatype Executor = Executor(down: nat -> bool, migrationFails: nat -> bool)

  /** The storage's view of the database: the tables, and how many statements and migrations
      have been attempted. */
  datatype Store = Store(db: Tables, executed: nat, migrations: nat)

  /** What `runStatement` hands back: the executed statement (Answered), the null that the
      retry after a migration returns (Dropped: its catch block has no `return`), or an
      exception (Threw). */
  datatype Outcome = Answered(answer: Answer) | Dropped | Threw

  /** One try of a statement: None when the connection fails it or the database refuses it. */
  function Attempt(x: Executor, st: Statement, s: Store): Option<(Answer, Tables)>
  {
    if x.down(s.executed) then None else Run(st, s.db)
  }

  /** One run of the migrator: None when it throws. */
  function MigrateStep(x: Executor, kind: string, s: Store): Option<Tables>
  {
    if x.migrationFails(s.migrations) then None else Migrate(kind, s.db)
  }

  /** `runStatement($statement, $bindings, $kind, $attempt)`: a failed first attempt migrates
      and retries once, a failed retry throws, and a migration that throws propagates. */
  function RunOutcome(x: Executor, st: Statement, attempt: nat, s: Store): (Outcome, Store)
    requires attempt <= 1
    decreases 1 - attempt
  {
    var s1 := s.(executed := s.executed + 1);
    match Attempt(x, st, s)
    case Some((a, t)) => (Answered(a), s1.(db := t))
    case None =>
      if attempt != 0 then (Threw, s1)
      else
        var s2 := s1.(migrations := s1.migrations + 1);
        match MigrateStep(x, st.kind, s1)
        case None => (Threw, s2)
        case Some(t) =>
          var retry := RunOutcome(x, st, 1, s2.(db := t));
          (if retry.0.Answered? then Dropped else retry.0, retry.1)
  }

  /** The tables a statement that did not throw ran on: the ones it was given, or, after a
      failed first attempt, the migrated ones. */
  function RanOn(x: Executor, st: Statement, s: Store): Tables
  {
    if Attempt(x, st, s).Some? then s.db
    else
      match MigrateStep(x, st.kind, s.(executed := s.executed + 1))
      case Some(t) => t
      case None => s.db
  }

  /** What one `runStatement` call does to the counters: at most one migration; an answer comes
      from the first attempt, on the tables as given; a null only from a first call. */
  lemma {:induction false} RunOutcomeSteps(x: Executor, st: Statement, attempt: nat, s: Store)
    requires attempt <= 1
    decreases 1 - attempt
    ensures var (o, s') := RunOutcome(x, st, attempt, s);
      && s'.executed > s.executed
      && s.migrations <= s'.migrations <= s.migrations + 1
      && (o.Answered? ==> s'.migrations == s.migrations && Attempt(x, st, s) == Some((o.answer, s'.db)))
      && (o.Dropped? ==> attempt == 0 && s'.migrations == s.migrations + 1)
  {
    var s1 := s.(executed := s.executed + 1);
    if Attempt(x, st, s).None? && attempt == 0 {
      var s2 := s1.(migrations := s1.migrations + 1);
      var m := MigrateStep(x, st.kind, s1);
      if m.Some? {
        RunOutcomeSteps(x, st, 1, s2.(db := m.value));
      }
    }
  }

  /** What one `runStatement` call does to the rows: a statement that did not throw ran on the
      given tables or, after a failed first attempt, on the migrated ones, which hold the same
      rows, and the new tables are what it made of them. An exception leaves every row as it
      was, only inserts change rows, and the unique index always holds. */
  lemma {:induction false} RunOutcomeRows(x: Executor, st: Statement, attempt: nat, s: Store)
    requires attempt <= 1 && Valid(s.db)
    decreases 1 - attempt, 1
    ensures var (o, s') := RunOutcome(x, st, attempt, s);
      && Valid(s'.db)
      && (o.Threw? ==> s'.db.errors == s.db.errors && s'.db.occurrences == s.db.occurrences)
      && (!o.Threw? ==>
           && RanOn(x, st, s).errors == s.db.errors && RanOn(x, st, s).occurrences == s.db.occurrences
           && Run(st, RanOn(x, st, s)).Some? && Run(st, RanOn(x, st, s)).value.1 == s'.db)
  {
    if Attempt(x, st, s).Some? {
      RunOutcomeRowsAnswered(x, st, attempt, s);
    } else if attempt == 0 {
      RunOutcomeRowsRetried(x, st, s);
    }
  }

  /** A first attempt that answers ran on the tables as given. */
  lemma RunOutcomeRowsAnswered(x: Executor, st: Statement, attempt: nat, s: Store)
    requires attempt <= 1 && Valid(s.db) && Attempt(x, st, s).Some?
    ensures var (o, s') := RunOutcome(x, st, attempt, s);
      && Valid(s'.db)
      && (o.Threw? ==> s'.db.errors == s.db.errors && s'.db.occurrences == s.db.occurrences)
      && (!o.Threw? ==>
           && RanOn(x, st, s).errors == s.db.errors && RanOn(x, st, s).occurrences == s.db.occurrences
           && Run(st, RanOn(x, st, s)).Some? && Run(st, RanOn(x, st, s)).value.1 == s'.db)
  {
    RunKeepsValid(st, s.db);
  }

  /** A first attempt that fails either throws from the migrator or retries on the migrated
      tables, which hold the same rows. */
  lemma {:induction false} RunOutcomeRowsRetried(x: Executor, st: Statement, s: Store)
    requires Valid(s.db) && Attempt(x, st, s).None?
    decreases 1, 0
    ensures var (o, s') := RunOutcome(x, st, 0, s);
      && Valid(s'.db)
      && (o.Threw? ==> s'.db.errors == s.db.errors && s'.db.occurrences == s.db.occurrences)
      && (!o.Threw? ==>
           && RanOn(x, st, s).errors == s.db.errors && RanOn(x, st, s).occurrences == s.db.occurrences
           && Run(st, RanOn(x, st, s)).Some? && Run(st, RanOn(x, st, s)).value.1 == s'.db)
  {
    var s1 := s.(executed := s.executed + 1);
    var s2 := s1.(migrations := s1.migrations + 1);
    var m := MigrateStep(x, st.kind, s1);
    if m.Some? {
      var s3 := s2.(db := m.value);
      MigrateKeepsRows(st.kind, s.db);
      RunOutcomeRows(x, st, 1, s3);
      var retry := RunOutcome(x, st, 1, s3);
      assert RanOn(x, st, s) == m.value;
      assert RunOutcome(x, st, 0, s) == (if retry.0.Answered? then Dropped else retry.0, retry.1);
      if !retry.0.Threw? {
        assert RanOn(x, st, s3) == m.value;
      }
    }
  }

  /** Statements other than inserts leave the rows as they were. */
  lemma RunOutcomeReads(x: Executor, st: Statement, attempt: nat, s: Store)
    requires attempt <= 1 && Valid(s.db)
    requires !st.InsertError? && !st.InsertOccurrence?
    ensures RunOutcome(x, st, attempt, s).1.db.errors == s.db.errors
    ensures RunOutcome(x, st, attempt, s).1.db.occurrences == s.db.occurrences
  {
    RunOutcomeRows(x, st, attempt, s);
    var (o, s') := RunOutcome(x, st, attempt, s);
    if !o.Threw? {
      RunKeepsValid(st, RanOn(x, st, s));
    }
  }

  /** The Backend record `new $class($row, $id)` builds from a fetched row. */
  function Hydrated(row: Row, id: Value): Snapshot
  {
    Snapshot(ErrorOf(Kind), if id == Null then None else Some(IntVal(id)), Arr(row), ConstructedSchema(), map[])
  }

  /** The lookup bindings of getErrorItem: the identity fields of `storable()`. */
  function Identity(s: Snapshot, lib: Lib): Assoc
  {
    Only(s.Storable(lib), ErrorFields())
  }

  /** The insert bindings of getErrorItem: `storable()`, with `created_at` set to the current
      time when it is empty. */
  function ErrorBindings(s: Snapshot, lib: Lib, now: int): Assoc
  {
    Dated(lib, s.Storable(lib), "created_at", now)
  }

  /** `new Carbon()` as a statement binding: PDO binds the object as its text, the
      `Y-m-d H:i:s` form of the current time, the same form `storable()` gives a stored date. */
  function CarbonNow(lib: Lib, now: int): Value
  {
    Str(lib.format(now))
  }

  /** `if (empty($data[$field])) $data[$field] = new Carbon();` */
  function Dated(lib: Lib, d: Assoc, field: string, now: int): (r: Assoc)
    ensures Empty(Get(d, field)) ==> Get(r, field) == CarbonNow(lib, now)
    ensures !Empty(Get(d, field)) ==> Get(r, field) == Get(d, field)
    ensures field in Keys(r) && forall f | f in Keys(d) :: f in Keys(r)
    ensures forall f | f != field :: Get(r, f) == Get(d, f)
  {
    if Empty(Get(d, field)) then Put(d, field, CarbonNow(lib, now))
    else
      assert field in Keys(d) by {
        if field !in Keys(d) { GetAbsent(d, field); }
      }
      d
  }

  /** For a Backend record, the lookup binds every identity placeholder and nothing else, to a
      string; the insert names every identity column and binds it to the lookup's value. */
  lemma IdentityBindings(s: Snapshot, lib: Lib, now: int)
    requires s.role == ErrorOf(Kind) && Shaped(s.schema)
    ensures BindsExactly(ErrorFields(), Identity(s, lib))
    ensures forall f | f in ErrorFields() ::
      && f in Keys(s.Storable(lib))
      && Get(ErrorBindings(s, lib, now), f) == Get(Identity(s, lib), f)
      && Get(Identity(s, lib), f).Str?
  {
    IdentityValuesAreStrings(s, lib);
    CreatedAtIsNoIdentity();
    OnlyAndDated(lib, s.Storable(lib), ErrorFields(), "created_at", now);
  }

  lemma CreatedAtIsNoIdentity()
    ensures "created_at" !in ErrorFields()
  {
  }

  /** Restricting to `keys` and defaulting a field outside them agree on `keys`; the
      restriction keeps the present keys among `keys` and no other. */
  lemma OnlyAndDated(lib: Lib, a: Assoc, keys: seq<string>, field: string, now: int)
    requires field !in keys
    ensures forall f | f in keys :: Get(Dated(lib, a, field, now), f) == Get(Only(a, keys), f) == Get(a, f)
    ensures forall f | f in keys && f in Keys(a) :: f in Keys(Only(a, keys))
    ensures forall k | k in Keys(Only(a, keys)) :: k in keys
  {
    forall f | f in keys ensures Get(Only(a, keys), f) == Get(a, f) && (f in Keys(a) ==> f in Keys(Only(a, keys))) {
      OnlyGet(a, keys, f);
    }
    forall k | k in Keys(Only(a, keys)) ensures k in keys {
      OnlyGet(a, keys, k);
    }
  }

  /** The insert names every identity column and binds it to the lookup's value, which is not
      null. */
  predicate BindsIdentity(insert: Statement, lookup: Assoc)
  {
    && insert.InsertError?
    && forall f | f in ErrorFields() ::
         f in insert.columns && Get(insert.bindings, f) == Get(lookup, f) && Get(lookup, f) != Null
  }

  /** getErrorItem's statements for a record in state `s` satisfy that. */
  lemma RecordBindsIdentity(s: Snapshot, lib: Lib, now: int)
    requires s.role == ErrorOf(Kind) && Shaped(s.schema)
    ensures BindsIdentity(InsertError(Kind, Keys(s.Storable(lib)), ErrorBindings(s, lib, now)), Identity(s, lib))
  {
    IdentityBindings(s, lib, now);
  }

  /** A lookup that runs answers with the first row matching its bindings, if any. */
  lemma LookupAnswer(kind: string, lookup: Assoc, t: Tables)
    requires Run(FindError(kind, lookup), t).Some?
    ensures Run(FindError(kind, lookup), t).value == (Found(FirstMatch(t.errors, lookup)), t)
  {
  }

  /** The lookup of getErrorItem changes no row, and a row it answers with is a stored row with
      the identity looked up. */
  lemma FindOutcome(x: Executor, lookup: Assoc, s: Store)
    requires Valid(s.db)
    ensures var (o, s') := RunOutcome(x, FindError(Kind, lookup), 0, s);
      && Valid(s'.db) && s'.db.errors == s.db.errors && s'.db.occurrences == s.db.occurrences
      && (o.Answered? && o.answer.Found? && o.answer.rows != [] ==>
            o.answer.rows[0] in s'.db.errors && Matches(o.answer.rows[0], lookup))
  {
    var st := FindError(Kind, lookup);
    RunOutcomeRows(x, st, 0, s);
    RunOutcomeReads(x, st, 0, s);
    var (o, s') := RunOutcome(x, st, 0, s);
    if o.Answered? {
      RunOutcomeSteps(x, st, 0, s);
      LookupAnswer(Kind, lookup, s.db);
    }
  }

  /** Records that answer every read alike store the same row and look it up alike. */
  lemma SameReadsSameRow(s: Snapshot, t: Snapshot, lib: Lib)
    requires s.SameReads(lib, t)
    ensures s.Storable(lib) == t.Storable(lib) && Identity(s, lib) == Identity(t, lib)
  {
    StorableSetSameReads(s, t, lib, s.schema.fields);
  }

  /** Find-or-insert never duplicates an identity: the insert throws when the identity is
      stored, and otherwise either throws, leaving the rows alone, or appends one row with it. */
  lemma InsertOutcome(x: Executor, st: Store, lookup: Assoc, insert: Statement)
    requires Valid(st.db) && BindsIdentity(insert, lookup)
    ensures var (o, st') := RunOutcome(x, insert, 0, st);
      && Valid(st'.db) && st'.db.occurrences == st.db.occurrences
      && (HasMatch(st.db, lookup) ==> o.Threw?)
      && (o.Threw? ==> st'.db.errors == st.db.errors)
      && (!o.Threw? ==>
           && HasMatch(st'.db, lookup)
           && |st'.db.errors| == |st.db.errors| + 1 && st'.db.errors[..|st.db.errors|] == st.db.errors)
  {
    RunOutcomeRows(x, insert, 0, st);
    if HasMatch(st.db, lookup) {
      InsertOfStoredIdentityThrows(x, st, lookup, insert);
    }
    var (o, st') := RunOutcome(x, insert, 0, st);
    if !o.Threw? {
      var t := RanOn(x, insert, st);
      RunKeepsValid(insert, t);
      InsertedRowMatches(t.nextErrorId, insert.columns, insert.bindings, lookup);
      assert st'.db.errors[|st'.db.errors| - 1] == NewRow(t.nextErrorId, insert.columns, insert.bindings);
      assert st'.db.errors[..|st.db.errors|] == st.db.errors;
    }
  }

  /** Once the identity is stored, inserting it again throws, migration or not. */
  lemma InsertOfStoredIdentityThrows(x: Executor, s: Store, lookup: Assoc, insert: Statement)
    requires Valid(s.db) && HasMatch(s.db, lookup) && BindsIdentity(insert, lookup)
    ensures RunOutcome(x, insert, 0, s).0 == Threw
  {
    InsertOfExistingIdentityFails(s.db, lookup, insert.columns, insert.bindings, insert.kind);
    var s1 := s.(executed := s.executed + 1);
    var m := MigrateStep(x, insert.kind, s1);
    if m.Some? {
      MigrateKeepsRows(insert.kind, s.db);
      assert HasMatch(m.value, lookup);
      InsertOfExistingIdentityFails(m.value, lookup, insert.columns, insert.bindings, insert.kind);
    }
  }

  /** The identity just inserted is found. */
  lemma InsertedRowMatches(id: int, cols: seq<string>, b: Assoc, lookup: Assoc)
    requires forall f | f in ErrorFields() :: f in cols && Get(b, f) == Get(lookup, f) && Get(lookup, f) != Null
    ensures Matches(NewRow(id, cols, b), lookup)
  {
    forall f | f in ErrorFields() ensures SqlEq(Get(NewRow(id, cols, b), f), Get(lookup, f)) {
      NewRowGet(id, cols, b, f);
    }
  }

  /** The message storeOccurrence throws for an error item that was never stored. */
  const NotStored := "You should pass a stored error item"

  /** storeOccurrence's bindings: the stored occurrence `d` with `error_id` and `stage` set, and
      `occurred_at` set to the current time when empty. */
  function Stamped(lib: Lib, d: Assoc, errorId: Value, stage: string, now: int): Assoc
  {
    Dated(lib, Put(Put(d, "error_id", errorId), "stage", Str(stage)), "occurred_at", now)
  }

  /** The bindings name the error and the stage, carry the stored occurrence time or, when that
      is empty, the current time as text, and keep every other value of the stored occurrence. */
  lemma StampedValues(lib: Lib, d: Assoc, errorId: Value, stage: string, now: int)
    ensures Get(Stamped(lib, d, errorId, stage, now), "error_id") == errorId
    ensures Get(Stamped(lib, d, errorId, stage, now), "stage") == Str(stage)
    ensures Empty(Get(d, "occurred_at")) ==> Get(Stamped(lib, d, errorId, stage, now), "occurred_at") == CarbonNow(lib, now)
    ensures !Empty(Get(d, "occurred_at")) ==> Get(Stamped(lib, d, errorId, stage, now), "occurred_at") == Get(d, "occurred_at")
    ensures forall f | f != "error_id" && f != "stage" && f != "occurred_at" :: Get(Stamped(lib, d, errorId, stage, now), f) == Get(d, f)
  {
    PutPutDated(lib, d, "error_id", errorId, "stage", Str(stage), "occurred_at", now);
  }

  /** Two assignments followed by a default for a third field, on distinct fields. */
  lemma PutPutDated(lib: Lib, d: Assoc, k1: string, v1: Value, k2: string, v2: Value, k3: string, now: int)
    requires k1 != k2 && k1 != k3 && k2 != k3
    ensures Get(Dated(lib, Put(Put(d, k1, v1), k2, v2), k3, now), k1) == v1
    ensures Get(Dated(lib, Put(Put(d, k1, v1), k2, v2), k3, now), k2) == v2
    ensures forall f | f != k1 && f != k2 && f != k3 :: Get(Dated(lib, Put(Put(d, k1, v1), k2, v2), k3, now), f) == Get(d, f)
  {
  }

  /** The bindings hold every field of the stored occurrence, and `error_id`, `stage` and
      `occurred_at`. */
  lemma StampedKeys(lib: Lib, d: Assoc, errorId: Value, stage: string, now: int)
    ensures var b := Stamped(lib, d, errorId, stage, now);
      && "error_id" in Keys(b) && "stage" in Keys(b) && "occurred_at" in Keys(b)
      && (forall f | f in Keys(d) :: f in Keys(b))
  {
    var d1 := Put(d, "error_id", errorId);
    PutKeepsKeys(d, "error_id", errorId);
    PutKeepsKeys(d1, "stage", Str(stage));
  }

  /** `storeOccurrence` once its bindings `b` are built: refused without an error id, otherwise
      the insert into the logged error's kind's occurrence table. */
  function StoreOutcome(x: Executor, b: Assoc, kind: string, s: Store): (Result<()>, Store)
  {
    if Empty(Get(b, "error_id")) then (Err(InvalidArgument(NotStored)), s)
    else
      var (o, s') := RunOutcome(x, InsertOccurrence(kind, Keys(b), b), 0, s);
      (if o.Threw? then Err(StatementFailed) else Ok(()), s')
  }

  /** An error item without a stored id is refused before any statement runs. Otherwise exactly
      one occurrence row is appended, holding the bound values, or nothing changes; error rows
      never change. */
  lemma StoreOutcomeRows(x: Executor, b: Assoc, kind: string, s: Store)
    requires Valid(s.db)
    ensures var (r, s') := StoreOutcome(x, b, kind, s);
      && Valid(s'.db) && s'.db.errors == s.db.errors
      && (Empty(Get(b, "error_id")) ==> r == Err(InvalidArgument(NotStored)) && s' == s)
      && (r.Err? ==> s'.db.occurrences == s.db.occurrences)
      && (r.Ok? ==>
           && !Empty(Get(b, "error_id"))
           && |s'.db.occurrences| == |s.db.occurrences| + 1
           && s'.db.occurrences[..|s.db.occurrences|] == s.db.occurrences
           && forall f | f in Keys(b) && f != "id" :: Get(s'.db.occurrences[|s.db.occurrences|], f) == Get(b, f))
  {
    if !Empty(Get(b, "error_id")) {
      var st := InsertOccurrence(kind, Keys(b), b);
      RunOutcomeRows(x, st, 0, s);
      var (o, s') := RunOutcome(x, st, 0, s);
      if !o.Threw? {
        var t := RanOn(x, st, s);
        RunKeepsValid(st, t);
        var row := NewRow(t.nextOccurrenceId, Keys(b), b);
        assert s'.db.occurrences[|s.db.occurrences|] == row;
        forall f | f in Keys(b) && f != "id" ensures Get(row, f) == Get(b, f) {
          NewRowGet(t.nextOccurrenceId, Keys(b), b, f);
        }
        assert s'.db.occurrences[..|s.db.occurrences|] == s.db.occurrences;
      }
    }
  }

  /** What storeOccurrence does to the tables once the error row is known: error rows stay, and
      on success exactly one occurrence row is appended, carrying the stage and the error id,
      which is then not empty. */
  lemma StoreStampedRows(x: Executor, lib: Lib, d: Assoc, id: Value, stage: string, now: int, kind: string, s: Store)
    requires Valid(s.db)
    ensures var (r, s') := StoreOutcome(x, Stamped(lib, d, id, stage, now), kind, s);
      && Valid(s'.db) && s'.db.errors == s.db.errors
      && (r.Err? ==> s'.db.occurrences == s.db.occurrences)
      && (r.Ok? ==>
           && !Empty(id)
           && |s'.db.occurrences| == |s.db.occurrences| + 1
           && s'.db.occurrences[..|s.db.occurrences|] == s.db.occurrences
           && Get(s'.db.occurrences[|s.db.occurrences|], "stage") == Str(stage)
           && Get(s'.db.occurrences[|s.db.occurrences|], "error_id") == id)
  {
    var b := Stamped(lib, d, id, stage, now);
    StampedValues(lib, d, id, stage, now);
    StampedKeys(lib, d, id, stage, now);
    StoreOutcomeRows(x, b, kind, s);
  }

  /** A hydrated row's id, once not empty, is the row's `id` column read as an integer. */
  lemma HydratedId(row: Row)
    ensures var id := IdValue(Hydrated(row, Get(row, "id")).id);
      !Empty(id) ==> id == Int(IntVal(Get(row, "id")))
  {
  }

  /** `fetchAll()` on a statement that answered with rows. */
  function FetchAll(a: Answer): seq<Row>
  {
    if a.Found? then a.rows else []
  }

  /** The queries of `read`: the kind must name an error class; then the page of joined rows is
      fetched, and when it is empty `read` returns an empty list (None here); otherwise the
      rows of the second query are fetched for grouping. A retried statement hands back null,
      and `fetchAll()` on it fails. */
  function ReadQueries(x: Executor, kind: string, status: Option<int>, offset: int, limit: int,
                       fetched: seq<Row>, s: Store): (Result<Option<seq<Row>>>, Store)
  {
    match ClassOfKind(kind)
    case Err(e) => (Err(e), s)
    case Ok(_) =>
      var (first, s1) := RunOutcome(x, SelectErrors(kind, FilterOf(status), offset, limit), 0, s);
      if first.Threw? then (Err(StatementFailed), s1)
      else if first.Dropped? then (Err(CallOnNull), s1)
      else if first.answer == Page([]) then (Ok(None), s1)
      else
        var (second, s2) := RunOutcome(x, SelectOccurrences(kind, fetched), 0, s1);
        if second.Threw? then (Err(StatementFailed), s2)
        else if second.Dropped? then (Err(CallOnNull), s2)
        else (Ok(Some(FetchAll(second.answer))), s2)
  }

  /** `read($kind, $resolvedStatus, $offset, $limit)`: the pool the fetched rows are grouped
      into, each row handed to the Backend constructor in the form `pass` gives. */
  function ReadOutcome(x: Executor, pass: Row -> Argument, kind: string, status: Option<int>, offset: int,
                       limit: int, fetched: seq<Row>, s: Store): (Result<seq<(Key, seq<Assoc>)>>, Store)
  {
    var (q, s') := ReadQueries(x, kind, status, offset, limit, fetched, s);
    match q
    case Err(e) => (Err(e), s')
    case Ok(None) => (Ok([]), s')
    case Ok(Some(rows)) => (BuildPool(rows, pass), s')
  }

  /** `read` changes no row, and the rows it groups are those of the second query. */
  lemma ReadQueriesRows(x: Executor, kind: string, status: Option<int>, offset: int, limit: int,
                        fetched: seq<Row>, s: Store)
    requires Valid(s.db)
    ensures var (q, s') := ReadQueries(x, kind, status, offset, limit, fetched, s);
      && Valid(s'.db) && s'.db.errors == s.db.errors && s'.db.occurrences == s.db.occurrences
      && (q.Ok? && q.value.Some? ==> q.value.value == fetched)
  {
    if ClassOfKind(kind).Ok? {
      var first := SelectErrors(kind, FilterOf(status), offset, limit);
      RunOutcomeReads(x, first, 0, s);
      RunOutcomeRows(x, first, 0, s);
      var (o1, s1) := RunOutcome(x, first, 0, s);
      if o1.Answered? && o1.answer != Page([]) {
        var second := SelectOccurrences(kind, fetched);
        RunOutcomeReads(x, second, 0, s1);
        RunOutcomeRows(x, second, 0, s1);
        RunOutcomeSteps(x, second, 0, s1);
      }
    }
  }

  /** LIMIT and OFFSET apply to the joined rows: once the offset reaches their number, the
      first query finds nothing and `read` returns an empty list, whatever errors exist. */
  lemma ReadPastEnd(x: Executor, pass: Row -> Argument, kind: string, status: Option<int>, offset: int,
                    limit: int, fetched: seq<Row>, s: Store)
    requires ClassOfKind(kind).Ok? && s.db.migrated && !x.down(s.executed) && 0 <= limit
    requires |Filtered(FilterOf(status), LeftJoin(s.db.errors, s.db.occurrences))| <= offset
    ensures ReadOutcome(x, pass, kind, status, offset, limit, fetched, s) == (Ok([]), s.(executed := s.executed + 1))
  {
    ClassOfKindSupported(kind);
    var st := SelectErrors(kind, FilterOf(status), offset, limit);
    assert Run(st, s.db) == Some((Page([]), s.db));
    assert RunOutcome(x, st, 0, s) == (Answered(Page([])), s.(executed := s.executed + 1));
    assert ReadQueries(x, kind, status, offset, limit, fetched, s) == (Ok(None), s.(executed := s.executed + 1));
  }

  /** As written, the constructor receives the row objects themselves: `read` never returns a
      group, and wherever the rows cast to arrays would be grouped it fails with a TypeError. */
  lemma ReadAsWrittenFails(x: Executor, kind: string, status: Option<int>, offset: int, limit: int,
                           fetched: seq<Row>, s: Store)
    ensures var (w, ws) := ReadOutcome(x, AsObject, kind, status, offset, limit, fetched, s);
      var (c, cs) := ReadOutcome(x, AsArray, kind, status, offset, limit, fetched, s);
      && ws == cs
      && (w.Ok? ==> w == Ok([]) && c == Ok([]))
      && (c.Ok? && c.value != [] ==> w == Err(TypeMismatch))
  {
    var (q, _) := ReadQueries(x, kind, status, offset, limit, fetched, s);
    if q.Ok? && q.value.Some? {
      PoolAsWrittenFails(q.value.value);
    }
  }

  /** With the rows cast to arrays, a read that reaches the pool returns the grouping of the
      fetched rows by `error_id`, or fails on an `error_id` that is not a legal array key. */
  lemma ReadGroups(x: Executor, kind: string, status: Option<int>, offset: int, limit: int,
                   fetched: seq<Row>, s: Store)
    requires Valid(s.db)
    ensures var c := ReadOutcome(x, AsArray, kind, status, offset, limit, fetched, s).0;
      && (c.Ok? && c.value != [] ==> Keyed(fetched) && c.value == GroupRows(fetched))
      && (ReadQueries(x, kind, status, offset, limit, fetched, s).0 == Ok(Some(fetched)) ==>
            c == if Keyed(fetched) then Ok(GroupRows(fetched)) else Err(IllegalOffset))
  {
    ReadQueriesRows(x, kind, status, offset, limit, fetched, s);
    var q := ReadQueries(x, kind, status, offset, limit, fetched, s).0;
    var c := ReadOutcome(x, AsArray, kind, status, offset, limit, fetched, s).0;
    match q
    case Err(e) =>
      assert c == Err(e);
    case Ok(None) =>
      assert c == Ok([]);
    case Ok(Some(rows)) =>
      assert rows == fetched && c == BuildPool(fetched, AsArray);
      PoolWithCastGroups(fetched);
  }

  /** The total a count statement answered with, as `intval` reads it. */
  function TotalOf(a: Answer): int
  {
    if a.Total? then a.n else 0
  }

  /** `countErrors($kind, $resolvedStatus)`: `intval($res->fetch()->total)`, where a retried
      statement hands back null and `fetch()` on it fails. */
  function CountOutcome(x: Executor, kind: string, status: Option<int>, s: Store): (Result<int>, Store)
  {
    var (o, s') := RunOutcome(x, CountRows(kind, FilterOf(status)), 0, s);
    match o
    case Threw => (Err(StatementFailed), s')
    case Dropped => (Err(CallOnNull), s')
    case Answered(a) => (Ok(TotalOf(a)), s')
  }

  /** A count changes no row; when it answers, the unfiltered count is the number of error rows
      and a filtered one the number of joined rows the filter keeps. */
  lemma CountOutcomeRows(x: Executor, kind: string, status: Option<int>, s: Store)
    requires Valid(s.db)
    ensures var (r, s') := CountOutcome(x, kind, status, s);
      && Valid(s'.db) && s'.db.errors == s.db.errors && s'.db.occurrences == s.db.occurrences
      && (r.Ok? ==> r.value == if FilterOf(status).None? then |s.db.errors|
                               else |Filtered(FilterOf(status), LeftJoin(s.db.errors, s.db.occurrences))|)
  {
    var st := CountRows(kind, FilterOf(status));
    RunOutcomeReads(x, st, 0, s);
    RunOutcomeRows(x, st, 0, s);
    RunOutcomeSteps(x, st, 0, s);
  }

  /** On the same tables, the resolved and the unresolved counts add up to at most the number
      of joined rows. */
  lemma CountsBounded(x: Executor, kind: string, s: Store)
    requires Valid(s.db)
    ensures var resolved := CountOutcome(x, kind, Some(RESOLVED_ONLY), s).0;
      var unresolved := CountOutcome(x, kind, Some(UNRESOLVED_ONLY), s).0;
      resolved.Ok? && unresolved.Ok? ==>
        resolved.value + unresolved.value <= |LeftJoin(s.db.errors, s.db.occurrences)|
  {
    CountOutcomeRows(x, kind, Some(RESOLVED_ONLY), s);
    CountOutcomeRows(x, kind, Some(UNRESOLVED_ONLY), s);
    FilteredCountsBounded(LeftJoin(s.db.errors, s.db.occurrences));
  }

  /** When every joined row is unresolved or has times SQL can order (as it does when both are
      stored as `Y-m-d H:i:s` text), the resolved and unresolved counts add up to exactly the
      number of joined rows. */
  lemma CountsPartition(x: Executor, kind: string, s: Store)
    requires Valid(s.db)
    requires forall j | j in LeftJoin(s.db.errors, s.db.occurrences) :: Classified(j)
    ensures var resolved := CountOutcome(x, kind, Some(RESOLVED_ONLY), s).0;
      var unresolved := CountOutcome(x, kind, Some(UNRESOLVED_ONLY), s).0;
      resolved.Ok? && unresolved.Ok? ==>
        resolved.value + unresolved.value == |LeftJoin(s.db.errors, s.db.occurrences)|
  {
    CountOutcomeRows(x, kind, Some(RESOLVED_ONLY), s);
    CountOutcomeRows(x, kind, Some(UNRESOLVED_ONLY), s);
    FilteredCountsPartition(LeftJoin(s.db.errors, s.db.occurrences));
  }

  /** Each record of a group is built by `new Backend($row, $row->error_id)` from the row at
      the same place. */
  ghost predicate Hydrates(recs: seq<Record>, rows: seq<Assoc>)
    reads set j | 0 <= j < |recs| :: recs[j]
  {
    && |recs| == |rows|
    && forall j | 0 <= j < |recs| :: recs[j].Snap() == Hydrated(rows[j], Get(rows[j], "error_id"))
  }

  /** The records of a pool are hydrated from the rows of the same groups: same keys, and each
      group of records hydrated from the group of rows. */
  ghost predicate Mirrors(pool: seq<(Key, seq<Record>)>, groups: seq<(Key, seq<Assoc>)>)
    reads set g, j | 0 <= g < |pool| && 0 <= j < |pool[g].1| :: pool[g].1[j]
  {
    && |pool| == |groups|
    && forall g | 0 <= g < |pool| :: pool[g].0 == groups[g].0 && Hydrates(pool[g].1, groups[g].1)
  }

  /** Appending a record and the row it was built from keeps a group hydrated. */
  lemma HydratesAppend(recs: seq<Record>, rows: seq<Assoc>, rec: Record, row: Assoc)
    requires Hydrates(recs, rows) && rec.Snap() == Hydrated(row, Get(row, "error_id"))
    ensures Hydrates(recs + [rec], rows + [row])
  {
  }

  /** A mirrored group in front of a mirrored pool keeps the mirror. */
  lemma MirrorsCons(p: (Key, seq<Record>), q: (Key, seq<Assoc>),
                    pool: seq<(Key, seq<Record>)>, groups: seq<(Key, seq<Assoc>)>)
    requires p.0 == q.0 && Hydrates(p.1, q.1) && Mirrors(pool, groups)
    ensures Mirrors([p] + pool, [q] + groups)
  {
    forall g | 0 <= g < |[p] + pool|
      ensures ([p] + pool)[g].0 == ([q] + groups)[g].0 && Hydrates(([p] + pool)[g].1, ([q] + groups)[g].1)
    {
      if g > 0 {
        assert ([p] + pool)[g] == pool[g - 1] && ([q] + groups)[g] == groups[g - 1];
      }
    }
  }

  /** Filing a record and the row it was built from under the same key keeps the mirror. */
  lemma {:induction false} AddToMirrors(pool: seq<(Key, seq<Record>)>, groups: seq<(Key, seq<Assoc>)>,
                                        k: Key, rec: Record, row: Assoc)
    requires Mirrors(pool, groups)
    requires rec.Snap() == Hydrated(row, Get(row, "error_id"))
    ensures Mirrors(AddTo(pool, k, rec), AddTo(groups, k, row))
  {
    if pool == [] {
      HydratesAppend([], [], rec, row);
      MirrorsCons((k, [rec]), (k, [row]), [], []);
    } else {
      assert pool[0].0 == groups[0].0 && Hydrates(pool[0].1, groups[0].1);
      assert Mirrors(pool[1..], groups[1..]) by {
        forall g | 0 <= g < |pool[1..]|
          ensures pool[1..][g].0 == groups[1..][g].0 && Hydrates(pool[1..][g].1, groups[1..][g].1)
        {
          assert pool[1..][g] == pool[g + 1] && groups[1..][g] == groups[g + 1];
        }
      }
      if pool[0].0 == k {
        HydratesAppend(pool[0].1, groups[0].1, rec, row);
        MirrorsCons((k, pool[0].1 + [rec]), (k, groups[0].1 + [row]), pool[1..], groups[1..]);
      } else {
        AddToMirrors(pool[1..], groups[1..], k, rec, row);
        MirrorsCons(pool[0], groups[0], AddTo(pool[1..], k, rec), AddTo(groups[1..], k, row));
      }
    }
  }

  /** Every group of a filled pool holds at least one record. */
  lemma PoolGroupsNonEmpty(rows: seq<Row>, pool: seq<(Key, seq<Record>)>, groups: seq<(Key, seq<Assoc>)>)
    requires BuildPool(rows, AsArray) == Ok(groups) && Mirrors(pool, groups)
    ensures forall g | 0 <= g < |pool| :: pool[g].1 != []
  {
    PoolWithCastGroups(rows);
    GroupRowsSpec(rows);
    forall g | 0 <= g < |pool| ensures pool[g].1 != [] {
      assert Hydrates(pool[g].1, groups[g].1) && groups[g].1 != [];
    }
  }

  /** Each log item holds one group of records, its base being the group's first record, with
      nothing computed yet. */
  ghost predicate Lists(items: seq<(Key, LogItem)>, pool: seq<(Key, seq<Record>)>)
    reads set g | 0 <= g < |items| :: items[g].1
  {
    && |items| == |pool|
    && forall g | 0 <= g < |items| ::
         && items[g].0 == pool[g].0
         && pool[g].1 != []
         && items[g].1.base == pool[g].1[0] && items[g].1.errors == pool[g].1
         && items[g].1.occurrencesTotal.None? && items[g].1.occurrencesUnresolved.None?
  }

  /** The loop of `read` that fills `$pool`, each row cast to an array before it is handed to
      the Backend constructor (the cast getErrorItem makes): `$pool[$oc->error_id][] = new
      Backend((array)$oc, $oc->error_id)`. */
  method FillPool(rows: seq<Row>) returns (r: Result<seq<(Key, seq<Record>)>>, ghost groups: seq<(Key, seq<Assoc>)>)
    ensures r.Err? ==> BuildPool(rows, AsArray) == Err(r.error)
    ensures r.Ok? ==> BuildPool(rows, AsArray) == Ok(groups) && Mirrors(r.value, groups)
  {
    var pool: seq<(Key, seq<Record>)> := [];
    groups := [];
    var i := 0;
    while i < |rows|
      invariant 0 <= i <= |rows|
      invariant BuildPool(rows[..i], AsArray) == Ok(groups)
      invariant Mirrors(pool, groups)
    {
      var row := rows[i];
      BuildPoolStep(rows, i, groups);
      var key := RowKey(row);
      if key.None? {
        PoolErrorSticks(rows, i + 1, AsArray);
        return Err(IllegalOffset), groups;
      }
      ghost var before := pool;
      var rec := new Record.Backend(row, Get(row, "error_id"));
      assert Mirrors(before, groups);
      AddToMirrors(pool, groups, key.value, rec, row);
      pool := AddTo(pool, key.value, rec);
      groups := AddTo(groups, key.value, row);
      i := i + 1;
    }
    assert rows[..i] == rows;
    r := Ok(pool);
  }

  /** One more row cast to an array either files it under its key or fails on the key. */
  lemma BuildPoolStep(rows: seq<Row>, i: nat, groups: seq<(Key, seq<Assoc>)>)
    requires i < |rows| && BuildPool(rows[..i], AsArray) == Ok(groups)
    ensures BuildPool(rows[..i + 1], AsArray)
              == if RowKey(rows[i]).None? then Err(IllegalOffset) else Ok(AddTo(groups, RowKey(rows[i]).value, rows[i]))
  {
    assert rows[..i + 1][..i] == rows[..i];
  }

  /** Once a prefix of the rows fails, the whole pool fails the same way. */
  lemma {:induction false} PoolErrorSticks(rows: seq<Row>, k: nat, pass: Row -> Argument)
    requires k <= |rows| && BuildPool(rows[..k], pass).Err?
    ensures BuildPool(rows, pass) == BuildPool(rows[..k], pass)
    decreases |rows| - k
  {
    if k < |rows| {
      assert rows[..k + 1][..k] == rows[..k];
      PoolErrorSticks(rows, k + 1, pass);
    } else {
      assert rows[..k] == rows;
    }
  }

  /** `array_walk($pool, fn (&$item) => $item = new LogItem($item[0], $item))`. */
  method MakeItems(pool: seq<(Key, seq<Record>)>) returns (items: seq<(Key, LogItem)>)
    requires forall g | 0 <= g < |pool| :: pool[g].1 != []
    ensures Lists(items, pool)
    ensures forall g | 0 <= g < |items| :: fresh(items[g].1)
  {
    items := [];
    var g := 0;
    while g < |pool|
      invariant 0 <= g <= |pool|
      invariant Lists(items, pool[..g])
      invariant forall h | 0 <= h < |items| :: fresh(items[h].1)
    {
      var item := new LogItem(pool[g].1[0], pool[g].1);
      items := items + [(pool[g].0, item)];
      g := g + 1;
    }
    assert pool[..g] == pool;
  }

  /** What getErrorItem does to the tables: the occurrences stay, and error rows only grow, by
      at most one and never for a stored identity. */
  ghost predicate LookupEffect(before: Tables, after: Tables, identity: Assoc)
  {
    ErrorsGrow(before, after, identity) && after.occurrences == before.occurrences
  }

  /** What storeOccurrence does to the tables: error rows stay; on success one occurrence row
      with the stage and the error id is appended, and on failure nothing changes. */
  ghost predicate StoreEffect(before: Tables, after: Tables, stage: string, errorId: Value, ok: bool)
  {
    && Valid(after) && after.errors == before.errors
    && (!ok ==> after.occurrences == before.occurrences)
    && (ok ==>
      && |after.occurrences| == |before.occurrences| + 1
      && after.occurrences[..|before.occurrences|] == before.occurrences
      && Get(after.occurrences[|before.occurrences|], "stage") == Str(stage)
      && Get(after.occurrences[|before.occurrences|], "error_id") == errorId)
  }

  /** Statements that keep the rows have the effect of a lookup. */
  lemma LookupEffectSameRows(before: Tables, after: Tables, identity: Assoc)
    requires Valid(after) && after.errors == before.errors && after.occurrences == before.occurrences
    ensures LookupEffect(before, after, identity)
  {
    assert before.errors[..|before.errors|] == before.errors;
  }

  /** A lookup that only read the rows, followed by another lookup, is one lookup. */
  lemma LookupEffectAfterRead(t0: Tables, t1: Tables, t2: Tables, identity: Assoc)
    requires t1.errors == t0.errors && t1.occurrences == t0.occurrences
    requires LookupEffect(t1, t2, identity)
    ensures LookupEffect(t0, t2, identity)
  {
  }

  /** An insert of the identity, followed by a lookup that finds it, is one lookup. */
  lemma LookupEffectAfterInsert(t0: Tables, t1: Tables, t2: Tables, identity: Assoc)
    requires LookupEffect(t0, t1, identity) && HasMatch(t1, identity)
    requires LookupEffect(t1, t2, identity)
    ensures LookupEffect(t0, t2, identity)
  {
  }

  /** A lookup that failed wrote no occurrence. */
  lemma WriteOfFailedLookup(t0: Tables, t1: Tables, identity: Assoc, stage: string)
    requires LookupEffect(t0, t1, identity)
    ensures WriteEffect(t0, t1, identity, stage, false)
  {
  }

  /** A lookup followed by storing the occurrence against the row it found is one write. */
  lemma WriteOfParts(t0: Tables, t1: Tables, t2: Tables, identity: Assoc, stage: string, row: Row, ok: bool)
    requires LookupEffect(t0, t1, identity) && row in t1.errors && Matches(row, identity)
    requires StoreEffect(t1, t2, stage, Int(IntVal(Get(row, "id"))), ok)
    ensures WriteEffect(t0, t2, identity, stage, ok)
  {
    assert row in t2.errors;
  }

  /** What one write does to the tables. Error rows only grow, by at most one and never for a
      stored identity. Occurrence rows grow by exactly one when the write succeeds, and stay as
      they were when it fails. The new occurrence carries the stage and points at a stored row
      with the error's identity. */
  ghost predicate WriteEffect(before: Tables, after: Tables, identity: Assoc, stage: string, ok: bool)
  {
    ErrorsGrow(before, after, identity) && OccurrenceLogged(before, after, identity, stage, ok)
  }

  /** Error rows only grow, by at most one and never for a stored identity, and the tables stay
      valid. */
  ghost predicate ErrorsGrow(before: Tables, after: Tables, identity: Assoc)
  {
    && Valid(after)
    && |before.errors| <= |after.errors| <= |before.errors| + 1
    && after.errors[..|before.errors|] == before.errors
    && (HasMatch(before, identity) ==> after.errors == before.errors)
  }

  /** Occurrence rows grow by exactly one when `ok`, the new one carrying the stage and pointing
      at a stored row with the identity, and stay as they were otherwise. */
  ghost predicate OccurrenceLogged(before: Tables, after: Tables, identity: Assoc, stage: string, ok: bool)
  {
    && (!ok ==> after.occurrences == before.occurrences)
    && (ok ==>
      && |after.occurrences| == |before.occurrences| + 1
      && after.occurrences[..|before.occurrences|] == before.occurrences
      && Get(after.occurrences[|before.occurrences|], "stage") == Str(stage)
      && exists row :: row in after.errors && Matches(row, identity)
           && Get(after.occurrences[|before.occurrences|], "error_id") == Int(IntVal(Get(row, "id"))))
  }

  /** A write that stops before any statement leaves an effect of its own kind: nothing. */
  lemma NoWriteEffect(t: Tables, identity: Assoc, stage: string)
    requires Valid(t)
    ensures WriteEffect(t, t, identity, stage, false)
  {
    assert t.errors[..|t.errors|] == t.errors;
  }

  class PdoStorage {
    const exec: Executor
    var db: Tables
    var executed: nat
    var migrations: nat

    function State(): Store
      reads this
    {
      Store(db, executed, migrations)
    }

    /** `new Pdo(...)` over a database in the given state. */
    constructor (x: Executor, initial: Tables)
      requires Valid(initial)
      ensures exec == x && State() == Store(initial, 0, 0)
    {
      exec := x;
      db := initial;
      executed := 0;
      migrations := 0;
    }

    /** `migrate($kind)`. */
    method Migrate(kind: string) returns (ok: bool)
      modifies this`db, this`migrations
      ensures var m := MigrateStep(exec, kind, old(State()));
        && ok == m.Some?
        && migrations == old(migrations) + 1
        && db == (if ok then m.value else old(db))
    {
      var m := MigrateStep(exec, kind, State());
      migrations := migrations + 1;
      ok := m.Some?;
      if ok {
        db := m.value;
      }
    }

    /** `runStatement($statement, $bindings, $kind, $attempt)`. */
    method RunStatement(st: Statement, attempt: nat) returns (out: Outcome)
      requires attempt <= 1
      modifies this`db, this`executed, this`migrations
      ensures (out, State()) == RunOutcome(exec, st, attempt, old(State()))
      decreases 1 - attempt
    {
      var tried := Attempt(exec, st, State());
      executed := executed + 1;
      if tried.Some? {
        db := tried.value.1;
        return Answered(tried.value.0);
      }
      if attempt != 0 {
        return Threw;
      }
      var ok := Migrate(st.kind);
      if !ok {
        return Threw;
      }
      var retry := RunStatement(st, attempt + 1);
      out := if retry.Answered? then Dropped else retry;
    }

    /** The lookup half of getErrorItem: `storable()` cut down to the identity fields, bound to
        the SELECT over the identity columns. */
    method FindStored(lib: Lib, error: Record) returns (found: Outcome, ghost lookup: Assoc)
      requires error.role == ErrorOf(Kind)
      modifies this`db, this`executed, this`migrations, error`cache
      ensures old(error.Snap()).SameReads(lib, error.Snap())
      ensures lookup == Identity(old(error.Snap()), lib)
      ensures (found, State()) == RunOutcome(exec, FindError(Kind, lookup), 0, old(State()))
    {
      ghost var s0 := error.Snap();
      GetAllAt(s0, lib, s0.schema.fields);
      var stored := error.Storable(lib);
      lookup := Only(stored, ErrorFields());
      found := RunStatement(FindError(error.role.kind, Only(stored, ErrorFields())), 0);
    }

    /** The INSERT getErrorItem builds: the columns are the keys of one `storable()` call, the
        bindings those of another, with `created_at` filled in when empty. */
    method InsertStatement(lib: Lib, error: Record, now: int) returns (insert: Statement)
      requires error.role == ErrorOf(Kind)
      modifies error`cache
      ensures old(error.Snap()).SameReads(lib, error.Snap())
      ensures insert == InsertError(Kind, Keys(old(error.Snap()).Storable(lib)), ErrorBindings(old(error.Snap()), lib, now))
    {
      ghost var s0 := error.Snap();
      GetAllAt(s0, lib, s0.schema.fields);
      var columns := error.Storable(lib);
      ghost var s1 := error.Snap();
      GetAllAt(s1, lib, s1.schema.fields);
      var data := error.Storable(lib);
      SameReadsTrans(s0, s1, error.Snap(), lib);
      SameReadsSameRow(s0, s1, lib);
      if Empty(Get(data, "created_at")) {
        data := Put(data, "created_at", CarbonNow(lib, now));
      }
      assert data == ErrorBindings(s0, lib, now);
      insert := InsertError(error.role.kind, Keys(columns), data);
    }

    /** `getErrorItem($error)`: the stored row with the error's identity, inserted first when
        there is none. The error table only grows, by at most one row and never when the
        identity is already stored; a returned record is a fresh Backend hydrated from a row
        with that identity. */
    method GetErrorItem(lib: Lib, error: Record, now: int) returns (r: Result<Record>)
      requires Valid(db)
      requires error.role == ErrorOf(Kind) && Shaped(error.Snap().schema)
      modifies this`db, this`executed, this`migrations, error`cache
      ensures LookupEffect(old(db), db, Identity(old(error.Snap()), lib))
      ensures old(error.Snap()).SameReads(lib, error.Snap())
      ensures r.Err? ==> r.error == StatementFailed
      ensures r.Ok? ==> fresh(r.value) && r.value.occurrenceCached == Unset
      ensures r.Ok? ==> exists row :: row in db.errors && Matches(row, Identity(old(error.Snap()), lib))
                                      && r.value.Snap() == Hydrated(row, Get(row, "id"))
      decreases if HasMatch(db, Identity(error.Snap(), lib)) then 1 else 2, 1
    {
      ghost var s0 := error.Snap();
      ghost var start := State();
      var found, lookup := FindStored(lib, error);
      FindOutcome(exec, lookup, start);
      LookupEffectSameRows(start.db, db, lookup);
      if found.Threw? {
        return Err(StatementFailed);
      }
      if found.Answered? && found.answer.Found? && found.answer.rows != [] {
        var row := found.answer.rows[0];
        assert row in db.errors && Matches(row, lookup);
        var item := new Record.Backend(row, Get(row, "id"));
        assert item.Snap() == Hydrated(row, Get(row, "id"));
        return Ok(item);
      }
      ghost var t1 := db;
      ghost var s1 := error.Snap();
      SameReadsSameRow(s0, s1, lib);
      r := InsertThenFetch(lib, error, now);
      LookupEffectAfterRead(start.db, t1, db, lookup);
      SameReadsTrans(s0, s1, error.Snap(), lib);
    }

    /** The `else` branch of getErrorItem: insert the row, then look it up again. */
    method InsertThenFetch(lib: Lib, error: Record, now: int) returns (r: Result<Record>)
      requires Valid(db)
      requires error.role == ErrorOf(Kind) && Shaped(error.Snap().schema)
      modifies this`db, this`executed, this`migrations, error`cache
      ensures LookupEffect(old(db), db, Identity(old(error.Snap()), lib))
      ensures old(error.Snap()).SameReads(lib, error.Snap())
      ensures r.Err? ==> r.error == StatementFailed
      ensures r.Ok? ==> fresh(r.value) && r.value.occurrenceCached == Unset
      ensures r.Ok? ==> exists row :: row in db.errors && Matches(row, Identity(old(error.Snap()), lib))
                                      && r.value.Snap() == Hydrated(row, Get(row, "id"))
      decreases if HasMatch(db, Identity(error.Snap(), lib)) then 1 else 2, 0
    {
      ghost var s0 := error.Snap();
      ghost var start := State();
      ghost var identity := Identity(s0, lib);
      var insert := InsertStatement(lib, error, now);
      RecordBindsIdentity(s0, lib, now);
      var inserted := RunStatement(insert, 0);
      InsertOutcome(exec, start, identity, insert);
      if inserted.Threw? {
        LookupEffectSameRows(start.db, db, identity);
        return Err(StatementFailed);
      }
      ghost var grown := db;
      assert LookupEffect(start.db, grown, identity);
      SameReadsSameRow(s0, error.Snap(), lib);
      r := GetErrorItem(lib, error, now);
      LookupEffectAfterInsert(start.db, grown, db, identity);
    }

    /** The bindings storeOccurrence builds from the occurrence record and the logged error. */
    method OccurrenceData(lib: Lib, logged: Record, occurrence: Record, stage: string, now: int) returns (data: Assoc)
      requires logged.role.ErrorOf?
      modifies occurrence`cache, logged`cache
      ensures data == Stamped(lib, old(occurrence.Snap()).Storable(lib), IdValue(old(logged.id)), stage, now)
    {
      data := occurrence.Storable(lib);
      var id := logged.Get(lib, "id");
      data := Put(data, "error_id", id);
      data := Put(data, "stage", Str(stage));
      if Empty(Get(data, "occurred_at")) {
        data := Put(data, "occurred_at", CarbonNow(lib, now));
      }
    }

    /** `storeOccurrence($loggedError, $error, $stage)`: the occurrence of `error` (a `false`
        occurrence fails on the method call), linked to the logged error's id. */
    method StoreOccurrence(lib: Lib, logged: Record, error: Record, stage: string, now: int) returns (r: Result<()>, ghost view: Option<Snapshot>)
      requires logged.role.ErrorOf?
      modifies this`db, this`executed, this`migrations, logged`cache, error`occurrenceCached, error.occurrenceCached.Objects()
      ensures view == old(error.OccurrenceView())
      ensures view.None? ==> r == Err(CallOnBool) && State() == old(State())
      ensures view.Some? ==>
        (r, State()) == StoreOutcome(exec, Stamped(lib, view.value.Storable(lib), IdValue(old(logged.id)), stage, now),
                                     old(logged.role.kind), old(State()))
    {
      ghost var start := State();
      ghost var logKind := logged.role.kind;
      ghost var logId := logged.id;
      view := error.OccurrenceView();
      var o := error.Occurrence();
      if !o.Built? {
        r := Err(CallOnBool);
        return;
      }
      assert o.rec.Snap() == view.value;
      var data := OccurrenceData(lib, logged, o.rec, stage, now);
      assert data == Stamped(lib, view.value.Storable(lib), IdValue(logId), stage, now);
      assert State() == start;
      if Empty(Get(data, "error_id")) {
        r := Err(InvalidArgument(NotStored));
        return;
      }
      var kind := logged.Get(lib, "kind");
      assert kind == Str(logKind);
      var out := RunStatement(InsertOccurrence(kind.s, Keys(data), data), 0);
      r := if out.Threw? then Err(StatementFailed) else Ok(());
      assert (r, State()) == StoreOutcome(exec, data, logKind, start);
    }

    /** storeOccurrence for the record getErrorItem hydrated from `row`: error rows stay; on
        success one occurrence row is appended, carrying the stage and the row's id. */
    method StoreAgainst(lib: Lib, logged: Record, error: Record, stage: string, now: int, ghost row: Row) returns (r: Result<()>)
      requires Valid(db)
      requires logged.Snap() == Hydrated(row, Get(row, "id"))
      modifies this`db, this`executed, this`migrations, logged`cache, error`occurrenceCached, error.occurrenceCached.Objects()
      ensures StoreEffect(old(db), db, stage, Int(IntVal(Get(row, "id"))), r.Ok?)
    {
      ghost var start := State();
      ghost var id := IdValue(logged.id);
      ghost var view;
      r, view := StoreOccurrence(lib, logged, error, stage, now);
      if view.Some? {
        StoreStampedRows(exec, lib, view.value.Storable(lib), id, stage, now, Kind, start);
        HydratedId(row);
      }
    }

    /** `write($error, $stage)` (StorageAbstract): find or store the error row, then store this
        occurrence against it. Error rows only grow, by at most one and never for a stored
        identity; occurrence rows grow by exactly one when the write succeeds and stay as they
        were when it fails; the new occurrence points at a stored row with the error's identity. */
    method Write(lib: Lib, error: Record, stage: string, now: int) returns (r: Result<()>)
      requires Valid(db)
      requires error.role == ErrorOf(Kind) && Shaped(error.Snap().schema)
      modifies this`db, this`executed, this`migrations, error`cache, error`occurrenceCached, error.occurrenceCached.Objects()
      ensures WriteEffect(old(db), db, Identity(old(error.Snap()), lib), stage, r.Ok?)
    {
      ghost var t0 := db;
      ghost var identity := Identity(error.Snap(), lib);
      var logged := GetErrorItem(lib, error, now);
      if logged.Err? {
        WriteOfFailedLookup(t0, db, identity, stage);
        return Err(logged.error);
      }
      ghost var row :| row in db.errors && Matches(row, identity)
                       && logged.value.Snap() == Hydrated(row, Get(row, "id"));
      ghost var t1 := db;
      r := StoreAgainst(lib, logged.value, error, stage, now, row);
      WriteOfParts(t0, t1, db, identity, stage, row, r.Ok?);
    }

    /** The queries of `read($kind, $resolvedStatus, $offset, $limit)`. */
    method ReadRows(kind: string, status: Option<int>, offset: int, limit: int, fetched: seq<Row>)
      returns (q: Result<Option<seq<Row>>>)
      modifies this`db, this`executed, this`migrations
      ensures (q, State()) == ReadQueries(exec, kind, status, offset, limit, fetched, old(State()))
    {
      var c := ClassOfKind(kind);
      if c.Err? {
        return Err(c.error);
      }
      var first := RunStatement(SelectErrors(kind, FilterOf(status), offset, limit), 0);
      if first.Threw? {
        return Err(StatementFailed);
      }
      if first.Dropped? {
        return Err(CallOnNull);
      }
      if first.answer == Page([]) {
        return Ok(None);
      }
      var second := RunStatement(SelectOccurrences(kind, fetched), 0);
      if second.Threw? {
        return Err(StatementFailed);
      }
      if second.Dropped? {
        return Err(CallOnNull);
      }
      q := Ok(Some(FetchAll(second.answer)));
    }

    /** `read($kind, $resolvedStatus, $offset, $limit)`, with the rows of the second query
        given as `fetched` and cast to arrays before construction: the log items of the
        groups, keyed by `error_id`. */
    method Read(kind: string, status: Option<int>, offset: int, limit: int, fetched: seq<Row>)
      returns (r: Result<seq<(Key, LogItem)>>, ghost pool: seq<(Key, seq<Record>)>)
      modifies this`db, this`executed, this`migrations
      ensures var (o, s') := ReadOutcome(exec, AsArray, kind, status, offset, limit, fetched, old(State()));
        && State() == s'
        && (r.Err? <==> o.Err?) && (r.Err? ==> r.error == o.error)
        && (r.Ok? ==> Mirrors(pool, o.value) && Lists(r.value, pool))
      ensures r.Ok? ==> forall g | 0 <= g < |r.value| :: fresh(r.value[g].1)
    {
      ghost var start := State();
      var q := ReadRows(kind, status, offset, limit, fetched);
      ghost var o := ReadOutcome(exec, AsArray, kind, status, offset, limit, fetched, start).0;
      if q.Err? {
        assert o == Err(q.error);
        return Err(q.error), [];
      }
      if q.value.None? {
        assert o == Ok([]);
        return Ok([]), [];
      }
      var rows := q.value.value;
      assert o == BuildPool(rows, AsArray);
      var filled, groups := FillPool(rows);
      if filled.Err? {
        return Err(filled.error), [];
      }
      assert o == Ok(groups);
      PoolGroupsNonEmpty(rows, filled.value, groups);
      pool := filled.value;
      var items := MakeItems(filled.value);
      r := Ok(items);
    }

    /** `countErrors($kind, $resolvedStatus)`. */
    method CountErrors(kind: string, status: Option<int>) returns (r: Result<int>)
      modifies this`db, this`executed, this`migrations
      ensures (r, State()) == CountOutcome(exec, kind, status, old(State()))
    {
      var out := RunStatement(CountRows(kind, FilterOf(status)), 0);
      if out.Threw? {
        return Err(StatementFailed);
      }
      if out.Dropped? {
        return Err(CallOnNull);
      }
      r := Ok(TotalOf(out.answer));
    }

    /** `total($kind)`: every error row. */
    method Total(kind: string) returns (r: Result<int>)
      modifies this`db, this`executed, this`migrations
      ensures (r, State()) == CountOutcome(exec, kind, None, old(State()))
    {
      r := CountErrors(kind, None);
    }

    /** `totalResolved($kind)`. */
    method TotalResolved(kind: string) returns (r: Result<int>)
      modifies this`db, this`executed, this`migrations
      ensures (r, State()) == CountOutcome(exec, kind, Some(RESOLVED_ONLY), old(State()))
    {
      r := CountErrors(kind, Some(RESOLVED_ONLY));
    }

    /** `totalUnresolved($kind)`. */
    method TotalUnresolved(kind: string) returns (r: Result<int>)
      modifies this`db, this`executed, this`migrations
      ensures (r, State()) == CountOutcome(exec, kind, Some(UNRESOLVED_ONLY), old(State()))
    {
      r := CountErrors(kind, Some(UNRESOLVED_ONLY));
    }
  }
}
