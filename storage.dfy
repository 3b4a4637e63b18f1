/** The kind-independent storage rules (Contracts/StorageAbstract.php) and the table naming
    of the PDO storage (Storage/Pdo.php): filter constants, the kind-to-class lookup and the
    per-kind table names. */
module StorageRules {
  import opened Values

  /** `StorageAbstract::RESOLVED_ONLY` and `UNRESOLVED_ONLY`. */
  const RESOLVED_ONLY: int := 1
  const UNRESOLVED_ONLY: int := -1

  /** The two filters a read or a count can apply. */
  datatype Filter = ResolvedOnly | UnresolvedOnly

  /** How `read` and `countErrors` interpret `$resolvedStatus`: null, or a value equal to
      neither constant, applies no filter. */
  function FilterOf(status: Option<int>): (f: Option<Filter>)
    ensures f == Some(ResolvedOnly) <==> status == Some(RESOLVED_ONLY)
    ensures f == Some(UnresolvedOnly) <==> status == Some(UNRESOLVED_ONLY)
    ensures f == None <==> status.None? || (status.value != RESOLVED_ONLY && status.value != UNRESOLVED_ONLY)
  {
    match status
    case None => None
    case Some(s) =>
      if s == RESOLVED_ONLY then Some(ResolvedOnly)
      else if s == UNRESOLVED_ONLY then Some(UnresolvedOnly)
      else None
  }

  /** The prefix of every error class name. */
  const ErrorsNamespace: string := "\\Insectum\\Insectum\\Errors\\"

  /** The error classes the model lets a kind resolve to: it closes the kind set to Backend.
      `Errors\Occurrence` also exists in the source and is not among them. */
  function KnownClasses(): seq<string>
  {
    [ErrorsNamespace + "Backend"]
  }

  /** The class name a kind maps to. */
  function ClassName(kind: string): string
  {
    ErrorsNamespace + UcFirst(Lower(kind))
  }

  /** `getClassOfKind($kind)`: the class name, or the "Unsupported error kind" exception when
      no such class exists. */
  function ClassOfKind(kind: string): (r: Result<string>)
    ensures r.Ok? ==> r.value == ClassName(kind) && r.value in KnownClasses()
    ensures r.Err? ==> r.error == InvalidArgument("Unsupported error kind")
  {
    var c := ClassName(kind);
    if c in KnownClasses() then Ok(c) else Err(InvalidArgument("Unsupported error kind"))
  }

  /** Kinds that differ only in letter case map to the same class. */
  lemma ClassOfKindIgnoresCase(a: string, b: string)
    requires Lower(a) == Lower(b)
    ensures ClassOfKind(a) == ClassOfKind(b)
  {
  }

  /** In the model, whose kind set is closed to Backend, a kind is supported exactly when it
      spells "backend" in any letter case. */
  lemma {:induction false} ClassOfKindSupported(kind: string)
    ensures ClassOfKind(kind).Ok? <==> Lower(kind) == "backend"
  {
    var n := ErrorsNamespace;
    var u := UcFirst(Lower(kind));
    if Lower(kind) == "backend" {
      assert u == "Backend";
    }
    if ClassOfKind(kind).Ok? {
      assert n + u == n + "Backend";
      assert u == (n + u)[|n|..] == (n + "Backend")[|n|..] == "Backend";
      assert |Lower(kind)| == 7;
      forall i | 0 <= i < 7 ensures Lower(kind)[i] == "backend"[i] {
        if i == 0 {
          assert UpperChar(Lower(kind)[0]) == 'B';
          assert Lower(kind)[0] == LowerChar(kind[0]);
        } else {
          assert Lower(kind)[i] == u[i];
        }
      }
    }
  }

  /** `getErrorsTableOfKind`. */
  function ErrorsTable(kind: string): string
  {
    "insectum_" + Lower(kind) + "_errors"
  }

  /** `getOccurrencesTableOfKind`. */
  function OccurrencesTable(kind: string): string
  {
    "insectum_" + Lower(kind) + "_occurrences"
  }

  /** Two kinds share their tables exactly when they agree up to letter case, and a kind's
      errors table is never its occurrences table. */
  lemma TableNames(a: string, b: string)
    ensures ErrorsTable(a) == ErrorsTable(b) <==> Lower(a) == Lower(b)
    ensures OccurrencesTable(a) == OccurrencesTable(b) <==> Lower(a) == Lower(b)
    ensures ErrorsTable(a) != OccurrencesTable(b)
  {
    var p := "insectum_";
    if ErrorsTable(a) == ErrorsTable(b) {
      assert |Lower(a)| == |Lower(b)|;
      assert Lower(a) == ErrorsTable(a)[|p|..|p| + |Lower(a)|] == ErrorsTable(b)[|p|..|p| + |Lower(b)|] == Lower(b);
    }
    if OccurrencesTable(a) == OccurrencesTable(b) {
      assert |Lower(a)| == |Lower(b)|;
      assert Lower(a) == OccurrencesTable(a)[|p|..|p| + |Lower(a)|] == OccurrencesTable(b)[|p|..|p| + |Lower(b)|] == Lower(b);
    }
    var e := ErrorsTable(a);
    var o := OccurrencesTable(b);
    assert e[|e| - 2] == 'r';
    assert o[|o| - 2] == 'e';
  }
}
