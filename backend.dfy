/** The Backend error kind (Errors/Backend.php): its schema and its summary line. */
module BackendKind {
  import opened Values
  import opened Fields

  /** The `$kind` property of a Backend error. */
  const Kind: string := "backend"

  /** `listErrorFields()`: the identity fields. */
  function ErrorFields(): seq<string>
  {
    ["kind", "type", "code", "msg", "file", "line"]
  }

  /** `listErrorOccurrenceFields()`. */
  function OccurrenceFields(): seq<string>
  {
    ["method", "url", "stage", "server_name", "server_ip", "backtrace", "context", "session", "client_ip"]
  }

  /** The schema Backend::initFields leaves (ErrorAbstract::initFields, then the Backend date and serialized lists). */
  function InitialSchema(): Schema
  {
    Schema(ErrorFields(), ["resolved_at"], ["session"])
  }

  /** The schema after the constructor has also run ensureSystemFields. */
  function ConstructedSchema(): Schema
  {
    var s := InitialSchema();
    Schema(WithSystemFields(s.fields), WithSystemFields(s.dates), s.serialized)
  }

  /** The two schemas a Backend record can have: after construction, and after `unserialize`,
      which reruns initFields but not ensureSystemFields. */
  ghost predicate Shaped(s: Schema)
  {
    s == ConstructedSchema() || s == InitialSchema()
  }

  /** After construction: fields are the identity fields followed by created_at and resolved_at,
      dates are [resolved_at, created_at], the one serialized field is the session; the identity
      and occurrence field lists are duplicate-free and share no field, and no identity field is
      a date or serialized. */
  lemma SchemaFacts()
    ensures ConstructedSchema() == Schema(ErrorFields() + ["created_at", "resolved_at"], ["resolved_at", "created_at"], ["session"])
    ensures NoDup(ErrorFields()) && NoDup(OccurrenceFields()) && NoDup(ConstructedSchema().fields)
    ensures forall f :: f in ErrorFields() ==> f !in OccurrenceFields()
    ensures forall f :: f in ErrorFields() ==> f !in ConstructedSchema().dates && f !in ["session"]
    ensures |ErrorFields()| == 6 && |OccurrenceFields()| == 9
  {
    ConstructedSchemaShape();
    IdentityFieldsNoDup();
    OccurrenceFieldsNoDup();
    FieldListsDisjoint();
  }

  /** ensureSystemFields appends created_at and resolved_at, neither of them already there. */
  lemma ConstructedSchemaShape()
    ensures ConstructedSchema() == Schema(ErrorFields() + ["created_at", "resolved_at"], ["resolved_at", "created_at"], ["session"])
  {
    assert "created_at" !in ErrorFields();
    assert "resolved_at" !in ErrorFields() + ["created_at"];
    assert "created_at" !in ["resolved_at"];
  }

  lemma IdentityFieldsNoDup()
    ensures NoDup(ErrorFields()) && NoDup(ErrorFields() + ["created_at", "resolved_at"])
  {
  }

  lemma OccurrenceFieldsNoDup()
    ensures NoDup(OccurrenceFields())
  {
  }

  lemma FieldListsDisjoint()
    ensures forall f :: f in ErrorFields() ==> f !in OccurrenceFields()
    ensures forall f :: f in ErrorFields() ==> f !in ["resolved_at", "created_at"] && f !in ["session"]
  {
  }

  /** What both Backend schemas share: the identity fields come first, the field list is
      duplicate-free, and no identity field is a date or serialized. */
  lemma ShapedFacts(sc: Schema)
    requires Shaped(sc)
    ensures |sc.fields| >= 6 && sc.fields[..6] == ErrorFields() && NoDup(sc.fields)
    ensures forall f :: f in ErrorFields() ==> f !in sc.dates && f !in sc.serialized
  {
    SchemaFacts();
  }

  /** One identity field of a Backend record, read back out of `storable()`. */
  lemma IdentityValueIsString(s: Snapshot, lib: Lib, f: string)
    requires s.role == ErrorOf(Kind) && Shaped(s.schema)
    requires f in ErrorFields()
    ensures f in Keys(s.Storable(lib)) && Get(s.Storable(lib), f).Str?
  {
    ShapedFacts(s.schema);
    var i :| 0 <= i < 6 && ErrorFields()[i] == f;
    assert s.schema.fields[..6][i] == f;
    StoredPlainIsString(s, lib, i);
  }

  /** A field that is neither a date nor serialized is stored as a string. */
  lemma StoredPlainIsString(s: Snapshot, lib: Lib, i: nat)
    requires NoDup(s.schema.fields) && i < |s.schema.fields|
    requires s.schema.fields[i] !in s.schema.dates && s.schema.fields[i] !in s.schema.serialized
    ensures s.schema.fields[i] in Keys(s.Storable(lib)) && Get(s.Storable(lib), s.schema.fields[i]).Str?
  {
    StoredField(s, lib, i);
  }

  /** Every identity field of a Backend record is stored as a string, never null, and the `kind`
      column is "backend" whatever the payload's own `kind` key holds. */
  lemma IdentityValuesAreStrings(s: Snapshot, lib: Lib)
    requires s.role == ErrorOf(Kind) && Shaped(s.schema)
    ensures forall f :: f in ErrorFields() ==> f in Keys(s.Storable(lib)) && Get(s.Storable(lib), f).Str?
    ensures Get(s.Storable(lib), "kind") == Str(Kind)
  {
    forall f | f in ErrorFields() ensures f in Keys(s.Storable(lib)) && Get(s.Storable(lib), f).Str? {
      IdentityValueIsString(s, lib, f);
    }
    KindColumn(s, lib);
  }

  /** The `kind` column is the record's kind, read through the overriding `__get`. */
  lemma KindColumn(s: Snapshot, lib: Lib)
    requires s.role == ErrorOf(Kind) && Shaped(s.schema)
    ensures Get(s.Storable(lib), "kind") == Str(Kind)
  {
    var sc := s.schema;
    ShapedFacts(sc);
    assert sc.fields[0] == "kind" by {
      assert sc.fields[..6][0] == "kind";
    }
    assert "kind" !in sc.dates && "kind" !in sc.serialized;
    StoredField(s, lib, 0);
    assert s.Get(lib, "kind") == Str(Kind);
    assert Normalize(lib, sc, "kind", Str(Kind)) == Str(Kind);
  }

  /** The summary line `sprintf('%s in %s on line %s', type, file, line)`. */
  function SummaryText(lib: Lib, errorType: Value, file: Value, line: Value): string
  {
    ToText(lib, errorType) + " in " + ToText(lib, file) + " on line " + ToText(lib, line)
  }

  /** What `summary()` returns for a record in state `s`. */
  function SummaryOf(s: Snapshot, lib: Lib): string
  {
    SummaryText(lib, s.Get(lib, "type"), s.Get(lib, "file"), s.Get(lib, "line"))
  }

  /** The message never reaches the summary: changing the payload's `msg` leaves it as it was. */
  lemma SummaryIgnoresMsg(s: Snapshot, lib: Lib, m: Value)
    requires s.data.Arr?
    ensures SummaryOf(s.(data := Arr(Put(s.data.entries, "msg", m))), lib) == SummaryOf(s, lib)
  {
    assert |"msg"| == 3 && |"type"| == |"file"| == |"line"| == 4;
    PutOtherKeepsGet(s, lib, "msg", m, "type");
    PutOtherKeepsGet(s, lib, "msg", m, "file");
    PutOtherKeepsGet(s, lib, "msg", m, "line");
  }

  /** Setting one payload key leaves what every other field reads. */
  lemma PutOtherKeepsGet(s: Snapshot, lib: Lib, k: string, m: Value, f: string)
    requires s.data.Arr? && f != k
    ensures s.(data := Arr(Put(s.data.entries, k, m))).Get(lib, f) == s.Get(lib, f)
  {
    assert Raw(Arr(Put(s.data.entries, k, m)), f) == Raw(s.data, f);
  }

  /** `occurred_at` is neither an identity field nor an occurrence field of the Backend kind, so
      a Backend record and its occurrence container both read it as null. */
  lemma OccurredAtUnknown(s: Snapshot, lib: Lib)
    requires (s.role == ErrorOf(Kind) && Shaped(s.schema)) || s.schema.fields == OccurrenceFields()
    ensures s.Get(lib, "occurred_at") == Null
  {
    SchemaFacts();
  }
}
