/** The read-time aggregate (LogItem.php): one base error record with the rows of its
    occurrences, and three derived values computed on first use and kept. */
module Items {
  import opened Values
  import opened Fields
  import opened BackendKind
  import opened Records

  /** PHP's loose `$a > $b` for the pairs an occurrence time and a resolution time can form.
      Null is never greater; against null a value is greater when it is truthy (a string when it
      is not ""); dates and integers compare by value. Pairs of other types are not modelled and
      compare as not greater. */
  predicate PhpGreater(a: Value, b: Value)
  {
    match (a, b)
    case (Null, _) => false
    case (Bool(x), Null) => x
    case (Int(x), Null) => x != 0
    case (Str(x), Null) => x != ""
    case (Date(_), Null) => true
    case (Arr(e), Null) => e != []
    case (Date(x), Date(y)) => x > y
    case (Int(x), Int(y)) => x > y
    case (_, _) => false
  }

  /** How many of `xs` are greater than `bound`. */
  function CountGreater(xs: seq<Value>, bound: Value): (n: nat)
    ensures n <= |xs|
  {
    if xs == [] then 0
    else CountGreater(xs[..|xs| - 1], bound) + (if PhpGreater(xs[|xs| - 1], bound) then 1 else 0)
  }

  lemma CountGreaterStep(xs: seq<Value>, i: nat, bound: Value)
    requires i < |xs|
    ensures CountGreater(xs[..i + 1], bound) == CountGreater(xs[..i], bound) + (if PhpGreater(xs[i], bound) then 1 else 0)
  {
    assert xs[..i + 1][..i] == xs[..i];
  }

  /** Nothing null is ever counted. */
  lemma {:induction false} CountGreaterNulls(xs: seq<Value>, bound: Value)
    requires forall i :: 0 <= i < |xs| ==> xs[i] == Null
    ensures CountGreater(xs, bound) == 0
  {
    if xs != [] {
      CountGreaterNulls(xs[..|xs| - 1], bound);
    }
  }

  /** When nothing is resolved yet, every row with a truthy occurrence time counts. */
  lemma {:induction false} CountGreaterUnresolved(xs: seq<Value>)
    requires forall i :: 0 <= i < |xs| ==> xs[i].Date?
    ensures CountGreater(xs, Null) == |xs|
  {
    if xs != [] {
      CountGreaterUnresolved(xs[..|xs| - 1]);
    }
  }

  /** The `occurred_at` each row's accessor answers. */
  ghost function OccurredAts(lib: Lib, rows: seq<Record>): (xs: seq<Value>)
    reads set r | r in rows
    ensures |xs| == |rows|
    ensures forall j :: 0 <= j < |rows| ==> xs[j] == rows[j].Snap().Get(lib, "occurred_at")
  {
    if rows == [] then [] else [rows[0].Snap().Get(lib, "occurred_at")] + OccurredAts(lib, rows[1..])
  }

  /** `occurrence()->occurred_at` for an occurrence container as `OccurrenceView` gives it;
      a property read on `false` yields null. */
  function OccurredAtOf(view: Option<Snapshot>, lib: Lib): Value
  {
    match view
    case None => Null
    case Some(s) => s.Get(lib, "occurred_at")
  }

  /** Each row reads `xs` at its own position as its `occurred_at`. */
  ghost predicate Answers(lib: Lib, rows: seq<Record>, xs: seq<Value>)
    reads set r | r in rows
  {
    |xs| == |rows| && forall j :: 0 <= j < |rows| ==> rows[j].Snap().Get(lib, "occurred_at") == xs[j]
  }

  /** What each of `rows` answers through the accessor, as snapshots. */
  ghost function Snaps(rows: seq<Record>): (ss: seq<Snapshot>)
    reads set r | r in rows
    ensures |ss| == |rows|
    ensures forall j :: 0 <= j < |rows| ==> ss[j] == rows[j].Snap()
  {
    if rows == [] then [] else [rows[0].Snap()] + Snaps(rows[1..])
  }

  /** `after` answers every field through the accessor as `before` did. */
  ghost predicate AnswersAsBefore(lib: Lib, before: Snapshot, after: Snapshot)
  {
    forall f :: before.Get(lib, f) == after.Get(lib, f)
  }

  /** Every row still answers every field as it did in `before`. */
  ghost predicate KeepsReads(lib: Lib, before: seq<Snapshot>, rows: seq<Record>)
    reads set r | r in rows
  {
    |before| == |rows| && forall j :: 0 <= j < |rows| ==> AnswersAsBefore(lib, before[j], rows[j].Snap())
  }

  /** A record either untouched by a `__get`, or the one it was called on, answers as before. */
  lemma OneGetKeepsReads(lib: Lib, before: Snapshot, after: Snapshot, name: string)
    requires after == before || after == before.AfterGet(lib, name)
    ensures AnswersAsBefore(lib, before, after)
  {
    AfterGetKeepsReads(before, lib, name);
  }

  lemma AnswersTrans(lib: Lib, s0: Snapshot, s1: Snapshot, s2: Snapshot)
    requires AnswersAsBefore(lib, s0, s1) && AnswersAsBefore(lib, s1, s2)
    ensures AnswersAsBefore(lib, s0, s2)
  {
  }

  /** Two steps that each keep every row's answers keep them together. */
  lemma KeepsReadsTrans(lib: Lib, s0: seq<Snapshot>, s1: seq<Snapshot>, s2: seq<Snapshot>)
    requires |s0| == |s1| == |s2|
    requires forall j :: 0 <= j < |s0| ==> AnswersAsBefore(lib, s0[j], s1[j])
    requires forall j :: 0 <= j < |s0| ==> AnswersAsBefore(lib, s1[j], s2[j])
    ensures forall j :: 0 <= j < |s0| ==> AnswersAsBefore(lib, s0[j], s2[j])
  {
    forall j | 0 <= j < |s0| ensures AnswersAsBefore(lib, s0[j], s2[j]) {
      AnswersTrans(lib, s0[j], s1[j], s2[j]);
    }
  }

  /** `$c->name` read through the accessor of `c`: every row, the base and `c` itself still
      answer every field as before. */
  method ReadThrough(lib: Lib, rows: seq<Record>, b: Record, c: Record, name: string) returns (v: Value)
    modifies c`cache
    ensures v == old(c.Snap()).Get(lib, name)
    ensures KeepsReads(lib, old(Snaps(rows)), rows)
    ensures AnswersAsBefore(lib, old(b.Snap()), b.Snap())
    ensures AnswersAsBefore(lib, old(c.Snap()), c.Snap())
  {
    ghost var s1, b1, c1 := Snaps(rows), b.Snap(), c.Snap();
    v := c.Get(lib, name);
    ghost var s2 := Snaps(rows);
    forall j | 0 <= j < |rows| ensures AnswersAsBefore(lib, s1[j], s2[j]) {
      OneGetKeepsReads(lib, s1[j], s2[j], name);
    }
    OneGetKeepsReads(lib, b1, b.Snap(), name);
    OneGetKeepsReads(lib, c1, c.Snap(), name);
  }

  /** One step of the `foreach` in `occurrencesUnresolved()`: `$error->occurred_at >
      $this->baseError->resolved_at`, both read through the accessor; the reads keep what
      every row and the base answer. */
  method CompareStep(lib: Lib, rows: seq<Record>, i: nat, b: Record, ghost xs: seq<Value>, ghost bound: Value)
    returns (greater: bool)
    requires i < |rows| && |xs| == |rows|
    requires Answers(lib, rows, xs)
    requires b.Snap().Get(lib, "resolved_at") == bound
    modifies rows[i], b
    ensures greater == PhpGreater(xs[i], bound)
    ensures Answers(lib, rows, xs)
    ensures b.Snap().Get(lib, "resolved_at") == bound
    ensures KeepsReads(lib, old(Snaps(rows)), rows)
    ensures AnswersAsBefore(lib, old(b.Snap()), b.Snap())
  {
    ghost var s0, b0 := Snaps(rows), b.Snap();
    label before:
    assert forall j :: 0 <= j < |rows| ==> rows[j].Snap().Get(lib, "occurred_at") == xs[j];
    var occurredAt := rows[i].Get(lib, "occurred_at");
    forall j | 0 <= j < |rows| ensures rows[j].Snap().Get(lib, "occurred_at") == xs[j] {
      ReadKept(old@before(rows[j].Snap()), rows[j].Snap(), lib, "occurred_at", "occurred_at");
    }
    ReadKept(old@before(b.Snap()), b.Snap(), lib, "occurred_at", "resolved_at");
    ghost var s1, b1 := Snaps(rows), b.Snap();
    forall j | 0 <= j < |rows| ensures AnswersAsBefore(lib, s0[j], s1[j]) {
      OneGetKeepsReads(lib, s0[j], s1[j], "occurred_at");
    }
    OneGetKeepsReads(lib, b0, b1, "occurred_at");
    label middle:
    var resolvedAt := b.Get(lib, "resolved_at");
    forall j | 0 <= j < |rows| ensures rows[j].Snap().Get(lib, "occurred_at") == xs[j] {
      ReadKept(old@middle(rows[j].Snap()), rows[j].Snap(), lib, "resolved_at", "occurred_at");
    }
    ReadKept(old@middle(b.Snap()), b.Snap(), lib, "resolved_at", "resolved_at");
    ghost var s2 := Snaps(rows);
    forall j | 0 <= j < |rows| ensures AnswersAsBefore(lib, s1[j], s2[j]) {
      OneGetKeepsReads(lib, s1[j], s2[j], "resolved_at");
    }
    OneGetKeepsReads(lib, b1, b.Snap(), "resolved_at");
    KeepsReadsTrans(lib, s0, s1, s2);
    AnswersTrans(lib, b0, b1, b.Snap());
    greater := PhpGreater(occurredAt, resolvedAt);
  }

  /** One pass of the loop in `CountRows`: the count over the first `i` rows grows to the count
      over the first `i + 1`, and every row and the base still answer as at the start. */
  method CountStep(lib: Lib, rows: seq<Record>, i: nat, b: Record, ghost xs: seq<Value>, ghost bound: Value,
                   ghost s0: seq<Snapshot>, ghost b0: Snapshot, count: nat)
    returns (count': nat)
    requires i < |rows| && Answers(lib, rows, xs) && b.Snap().Get(lib, "resolved_at") == bound
    requires count == CountGreater(xs[..i], bound)
    requires KeepsReads(lib, s0, rows) && AnswersAsBefore(lib, b0, b.Snap())
    modifies rows[i], b
    ensures count' == CountGreater(xs[..i + 1], bound)
    ensures Answers(lib, rows, xs) && b.Snap().Get(lib, "resolved_at") == bound
    ensures KeepsReads(lib, s0, rows) && AnswersAsBefore(lib, b0, b.Snap())
  {
    CountGreaterStep(xs, i, bound);
    ghost var s1, b1 := Snaps(rows), b.Snap();
    var greater := CompareStep(lib, rows, i, b, xs, bound);
    KeepsReadsTrans(lib, s0, s1, Snaps(rows));
    AnswersTrans(lib, b0, b1, b.Snap());
    count' := if greater then count + 1 else count;
  }

  /** The `foreach` of `occurrencesUnresolved()`: each row's `occurred_at` against the
      base's `resolved_at`, both read through the accessor on every step. */
  method CountRows(lib: Lib, rows: seq<Record>, b: Record) returns (count: nat)
    modifies rows, b
    ensures count == CountGreater(old(OccurredAts(lib, rows)), old(b.Snap()).Get(lib, "resolved_at"))
    ensures KeepsReads(lib, old(Snaps(rows)), rows)
    ensures AnswersAsBefore(lib, old(b.Snap()), b.Snap())
  {
    ghost var s0, b0 := Snaps(rows), b.Snap();
    ghost var xs := OccurredAts(lib, rows);
    ghost var bound := b.Snap().Get(lib, "resolved_at");
    count := 0;
    var i := 0;
    while i < |rows|
      invariant 0 <= i <= |rows|
      invariant count == CountGreater(xs[..i], bound)
      invariant Answers(lib, rows, xs)
      invariant b.Snap().Get(lib, "resolved_at") == bound
      invariant KeepsReads(lib, s0, rows) && AnswersAsBefore(lib, b0, b.Snap())
    {
      count := CountStep(lib, rows, i, b, xs, bound, s0, b0, count);
      i := i + 1;
    }
    assert xs[..i] == xs;
  }

  class LogItem {
    var base: Record
    var errors: seq<Record>
    var lastOccurrence: Value
    var occurrencesTotal: Option<nat>
    var occurrencesUnresolved: Option<nat>

    /** A cached total is the number of rows. */
    ghost predicate Valid()
      reads this
    {
      occurrencesTotal.Some? ==> occurrencesTotal.value == |errors|
    }

    /** `new LogItem($baseError, $errors)`: both stored as given, nothing computed yet. */
    constructor (baseError: Record, rows: seq<Record>)
      ensures base == baseError && errors == rows
      ensures lastOccurrence == Null && occurrencesTotal == None && occurrencesUnresolved == None
      ensures Valid()
    {
      base := baseError;
      errors := rows;
      lastOccurrence := Null;
      occurrencesTotal := None;
      occurrencesUnresolved := None;
    }

    /** `__get($name)`: the base error's accessor. */
    method Get(lib: Lib, name: string) returns (v: Value)
      modifies base`cache
      ensures v == old(base.Snap()).Get(lib, name)
      ensures base.Snap() == old(base.Snap()).AfterGet(lib, name)
    {
      v := base.Get(lib, name);
    }

    /** `occurrencesTotal()`: the number of rows, computed once. */
    method OccurrencesTotal() returns (n: nat)
      requires Valid()
      modifies this`occurrencesTotal
      ensures n == |errors| && occurrencesTotal == Some(n) && Valid()
    {
      if occurrencesTotal.None? {
        occurrencesTotal := Some(|errors|);
      }
      n := occurrencesTotal.value;
    }

    /** `occurrencesUnresolved()`: on the first call, the rows whose `occurred_at` is greater
        than the base's `resolved_at`, each compared as PHP does; later calls return that count. */
    method OccurrencesUnresolved(lib: Lib) returns (n: nat)
      modifies this`occurrencesUnresolved, errors, base
      ensures old(occurrencesUnresolved).Some? ==> n == old(occurrencesUnresolved).value
      ensures old(occurrencesUnresolved).None? ==>
        n == CountGreater(old(OccurredAts(lib, errors)), old(base.Snap()).Get(lib, "resolved_at")) && n <= |errors|
      ensures occurrencesUnresolved == Some(n)
      ensures errors == old(errors) && base == old(base)
      ensures KeepsReads(lib, old(Snaps(errors)), errors)
      ensures AnswersAsBefore(lib, old(base.Snap()), base.Snap())
    {
      if occurrencesUnresolved.Some? {
        n := occurrencesUnresolved.value;
        return;
      }
      var count := CountUnresolved(lib);
      occurrencesUnresolved := Some(count);
      n := count;
    }

    /** The `foreach` of `occurrencesUnresolved()` over this item's rows and base. */
    method CountUnresolved(lib: Lib) returns (count: nat)
      modifies errors, base
      ensures count == CountGreater(old(OccurredAts(lib, errors)), old(base.Snap()).Get(lib, "resolved_at"))
      ensures KeepsReads(lib, old(Snaps(errors)), errors)
      ensures AnswersAsBefore(lib, old(base.Snap()), base.Snap())
    {
      count := CountRows(lib, errors, base);
    }

    /** `lastOccurrence()`: the `occurred_at` of the FIRST row's occurrence container, kept once
        it is not null; an empty row list fails on the null `$this->errors[0]` gives. */
    method LastOccurrence(lib: Lib) returns (r: Result<Value>)
      modifies this`lastOccurrence, errors, if errors == [] then {} else errors[0].occurrenceCached.Objects()
      ensures old(lastOccurrence) != Null ==> r == Ok(old(lastOccurrence))
      ensures old(lastOccurrence) == Null && errors == [] ==> r == Err(MissingIndex)
      ensures old(lastOccurrence) == Null && errors != [] ==>
        r == Ok(OccurredAtOf(old(errors[0].OccurrenceView()), lib))
      ensures r.Ok? ==> lastOccurrence == r.value
      ensures errors == old(errors) && base == old(base)
      ensures KeepsReads(lib, old(Snaps(errors)), errors)
      ensures AnswersAsBefore(lib, old(base.Snap()), base.Snap())
      ensures errors != [] && old(errors[0].occurrenceCached).Built? ==>
        errors[0].occurrenceCached == old(errors[0].occurrenceCached) &&
        AnswersAsBefore(lib, old(errors[0].occurrenceCached.rec.Snap()), errors[0].occurrenceCached.rec.Snap())
    {
      if lastOccurrence != Null || |errors| == 0 {
        KeepsReadsNow(lib, errors, base);
        r := if lastOccurrence != Null then Ok(lastOccurrence) else Err(MissingIndex);
        return;
      }
      var v := FirstOccurredAt(lib, errors, base);
      lastOccurrence := v;
      r := Ok(v);
    }
  }

  /** Before any call, every row and the base answer as they do. */
  lemma KeepsReadsNow(lib: Lib, rows: seq<Record>, b: Record)
    ensures KeepsReads(lib, Snaps(rows), rows)
    ensures AnswersAsBefore(lib, b.Snap(), b.Snap())
  {
  }

  /** `$this->errors[0]->occurrence()->occurred_at`: the first row's occurrence container, built
      and kept on first use, read through its accessor; `false` reads as null. */
  method FirstOccurredAt(lib: Lib, rows: seq<Record>, b: Record) returns (v: Value)
    requires rows != []
    modifies rows, rows[0].occurrenceCached.Objects()
    ensures v == OccurredAtOf(old(rows[0].OccurrenceView()), lib)
    ensures KeepsReads(lib, old(Snaps(rows)), rows)
    ensures AnswersAsBefore(lib, old(b.Snap()), b.Snap())
    ensures old(rows[0].occurrenceCached).Built? ==>
      rows[0].occurrenceCached == old(rows[0].occurrenceCached) &&
      AnswersAsBefore(lib, old(rows[0].occurrenceCached.rec.Snap()), rows[0].occurrenceCached.rec.Snap())
  {
    var o := rows[0].Occurrence();
    if o.Built? {
      v := ReadThrough(lib, rows, b, o.rec, "occurred_at");
    } else {
      KeepsReadsNow(lib, rows, b);
      v := Null;
    }
  }

  /** For Backend rows the unresolved count is always 0: the rows' accessor knows no
      `occurred_at` field, and a null is never greater than anything. */
  lemma BackendUnresolvedIsZero(lib: Lib, rows: seq<Snapshot>, bound: Value)
    requires forall j :: 0 <= j < |rows| ==> rows[j].role == ErrorOf(Kind) && Shaped(rows[j].schema)
    ensures CountGreater(seq(|rows|, j requires 0 <= j < |rows| => rows[j].Get(lib, "occurred_at")), bound) == 0
  {
    var xs := seq(|rows|, j requires 0 <= j < |rows| => rows[j].Get(lib, "occurred_at"));
    forall j | 0 <= j < |rows| ensures xs[j] == Null {
      OccurredAtUnknown(rows[j], lib);
    }
    CountGreaterNulls(xs, bound);
  }

  /** For a Backend occurrence container the last occurrence reads as null, so it is never kept
      and every call looks again. */
  lemma BackendLastOccurrenceIsNull(s: Snapshot, lib: Lib)
    requires s.schema.fields == OccurrenceFields()
    ensures OccurredAtOf(Some(s), lib) == Null && OccurredAtOf(None, lib) == Null
  {
    OccurredAtUnknown(s, lib);
  }
}
