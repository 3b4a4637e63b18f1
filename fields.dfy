/** The typed field container (ContainerAbstract, with ErrorAbstract's accessor override)
    as values: the coercion `__get` applies, the normalisation `storable()` applies, and
    the state a record's accessor reads and writes, including its memo cache. */
module Fields {
  import opened Values

  /** A plain container (an occurrence) or an error record whose `$kind` property is `kind`. */
  datatype Role = Plain | ErrorOf(kind: string)

  /** The per-kind schema: field list, date fields and serialized fields. */
  datatype Schema = Schema(fields: seq<string>, dates: seq<string>, serialized: seq<string>)

  /** `Arr::get($this->data, $field, null)`: null for a missing key or for data that is not an array. */
  function Raw(data: Value, field: string): Value
  {
    if data.Arr? then Get(data.entries, field) else Null
  }

  /** The coercion `__get` applies to a raw value (ContainerAbstract.php, lines 97-107). */
  function Coerce(lib: Lib, s: Schema, field: string, v: Value): Value
  {
    if field in s.dates && v != Null then Date(lib.carbon(v))
    else if field in s.serialized && v != Null && v.Str? then
      var check := Unserialize(lib, v.s);
      if check != Bool(false) || v.s == "b:0;" then check else v
    else v
  }

  /** What `storableSet` makes of the value `__get` returned for `field` (lines 146-172). */
  function Normalize(lib: Lib, s: Schema, field: string, v: Value): Value
  {
    if field in s.dates then
      if v.Str? then Str(lib.format(lib.carbon(v)))
      else if v.Date? then Str(lib.format(v.t))
      else v
    else if field in s.serialized then
      if !v.Str? then
        if lib.serializable(v) then Str(lib.serialize(v)) else Str(lib.printR(v))
      else if Unserialize(lib, v.s) == Bool(false) && v.s != "b:0;" then Str(lib.serialize(v))
      else v
    else if !v.Str? then Str(lib.printR(v))
    else v
  }

  function IdValue(id: Option<int>): Value
  {
    match id
    case None => Null
    case Some(n) => Int(n)
  }

  /** `array_combine($keys, $vals)`: later duplicates overwrite earlier ones in place. */
  function Combine(keys: seq<string>, vals: seq<Value>): Assoc
    requires |keys| == |vals|
  {
    CombineInto([], keys, vals)
  }

  function CombineInto(acc: Assoc, keys: seq<string>, vals: seq<Value>): Assoc
    requires |keys| == |vals|
    decreases |keys|
  {
    if keys == [] then acc else CombineInto(Put(acc, keys[0], vals[0]), keys[1..], vals[1..])
  }

  /** With distinct keys, `array_combine` pairs the i-th key with the i-th value, in order. */
  lemma {:induction false} CombineDistinct(keys: seq<string>, vals: seq<Value>)
    requires |keys| == |vals| && NoDup(keys)
    ensures Keys(Combine(keys, vals)) == keys
    ensures forall i :: 0 <= i < |keys| ==> Combine(keys, vals)[i] == (keys[i], vals[i])
  {
    CombineIntoDistinct([], keys, vals);
  }

  lemma {:induction false} CombineIntoDistinct(acc: Assoc, keys: seq<string>, vals: seq<Value>)
    requires |keys| == |vals| && NoDup(keys)
    requires forall k :: k in keys ==> k !in Keys(acc)
    ensures |CombineInto(acc, keys, vals)| == |acc| + |keys|
    ensures CombineInto(acc, keys, vals)[..|acc|] == acc
    ensures forall i :: 0 <= i < |keys| ==> CombineInto(acc, keys, vals)[|acc| + i] == (keys[i], vals[i])
    decreases |keys|
  {
    if keys != [] {
      PutAbsent(acc, keys[0], vals[0]);
      var acc' := acc + [(keys[0], vals[0])];
      assert Keys(acc') == Keys(acc) + [keys[0]];
      forall k | k in keys[1..] ensures k !in Keys(acc') {
        assert k != keys[0];
      }
      CombineIntoDistinct(acc', keys[1..], vals[1..]);
      var r := CombineInto(acc', keys[1..], vals[1..]);
      assert r[..|acc'|] == acc';
      forall i | 0 <= i < |keys| ensures r[|acc| + i] == (keys[i], vals[i]) {
        if i == 0 {
          assert r[|acc|] == r[..|acc'|][|acc|];
        } else {
          assert r[|acc'| + (i - 1)] == (keys[1..][i - 1], vals[1..][i - 1]);
        }
      }
      assert r[..|acc|] == r[..|acc'|][..|acc|];
    }
  }

  /** The state a record's accessor reads and writes (ContainerAbstract's `$data`, field lists and
      `$cache`; for an error record also ErrorAbstract's `$id` and `$kind`). */
  datatype Snapshot = Snapshot(role: Role, id: Option<int>, data: Value, schema: Schema, cache: map<string, Value>)
  {
    /** ErrorAbstract::__get answers `id` and `kind` from the object's own properties. */
    predicate Intercepts(field: string)
    {
      role.ErrorOf? && (field == "id" || field == "kind")
    }

    /** `isset($this->cache[$field])`: present and not null. */
    predicate Cached(field: string)
    {
      field in cache && cache[field] != Null
    }

    function Fresh(lib: Lib, field: string): Value
    {
      Coerce(lib, schema, field, Raw(data, field))
    }

    /** The value `__get($field)` returns. */
    function Get(lib: Lib, field: string): Value
    {
      if Intercepts(field) then (if field == "id" then IdValue(id) else Str(role.kind))
      else if field !in schema.fields then Null
      else if Cached(field) then cache[field]
      else Fresh(lib, field)
    }

    /** The state after `__get($field)`: the computed value is cached, for fields in the schema only. */
    function AfterGet(lib: Lib, field: string): Snapshot
    {
      if Intercepts(field) || field !in schema.fields || Cached(field) then this
      else this.(cache := cache[field := Fresh(lib, field)])
    }

    /** `array_map` of `__get` over `list`, each call seeing the cache the previous ones left. */
    function GetAll(lib: Lib, list: seq<string>): (vs: seq<Value>)
      ensures |vs| == |list|
      decreases |list|
    {
      if list == [] then [] else [Get(lib, list[0])] + AfterGet(lib, list[0]).GetAll(lib, list[1..])
    }

    function AfterGetAll(lib: Lib, list: seq<string>): Snapshot
      decreases |list|
    {
      if list == [] then this else AfterGet(lib, list[0]).AfterGetAll(lib, list[1..])
    }

    /** The closure of `storableSet` mapped over `list`. */
    function NormalizeAll(lib: Lib, list: seq<string>): (vs: seq<Value>)
      ensures |vs| == |list|
      decreases |list|
    {
      if list == [] then []
      else [Normalize(lib, schema, list[0], Get(lib, list[0]))] + AfterGet(lib, list[0]).NormalizeAll(lib, list[1..])
    }

    /** `storableSet($list)` (lines 138-178). */
    function StorableSet(lib: Lib, list: seq<string>): Assoc
    {
      Combine(list, NormalizeAll(lib, list))
    }

    /** `storable()` (lines 128-131). */
    function Storable(lib: Lib): Assoc
    {
      StorableSet(lib, schema.fields)
    }

    /** `toArray()` (lines 73-80). */
    function ToArray(lib: Lib): Assoc
    {
      Combine(schema.fields, GetAll(lib, schema.fields))
    }

    /** Two states a caller cannot tell apart through the accessor. */
    ghost predicate SameReads(lib: Lib, other: Snapshot)
    {
      && role == other.role && id == other.id && data == other.data && schema == other.schema
      && forall f :: Get(lib, f) == other.Get(lib, f)
    }
  }

  /** `__get` is memoised transparently: the state it leaves answers every field as before,
      and a second call for the same field changes nothing more (a cached null is recomputed
      to the same null). */
  lemma AfterGetKeepsReads(s: Snapshot, lib: Lib, field: string)
    ensures s.SameReads(lib, s.AfterGet(lib, field))
    ensures s.AfterGet(lib, field).AfterGet(lib, field) == s.AfterGet(lib, field)
  {
  }

  lemma SameReadsTrans(s: Snapshot, t: Snapshot, u: Snapshot, lib: Lib)
    requires s.SameReads(lib, t) && t.SameReads(lib, u)
    ensures s.SameReads(lib, u)
  {
  }

  /** A read of `field` answers the same before and after a `__get(g)`. */
  lemma ReadKept(s: Snapshot, t: Snapshot, lib: Lib, g: string, field: string)
    requires t == s || t == s.AfterGet(lib, g)
    ensures t.Get(lib, field) == s.Get(lib, field)
  {
  }

  /** A name outside the field list (and, on an error record, other than `id` and `kind`)
      reads as null and leaves the cache alone (lines 88-91). */
  lemma UnknownFieldIsNull(s: Snapshot, lib: Lib, field: string)
    requires field !in s.schema.fields && !s.Intercepts(field)
    ensures s.Get(lib, field) == Null
    ensures s.AfterGet(lib, field) == s
  {
  }

  /** The coercion rules of `__get` for a field read from the raw data: dates become Carbon
      instances, a serialized string is replaced by its decoded value exactly when it decodes,
      everything else comes back raw. */
  lemma CoercionRules(s: Snapshot, lib: Lib, field: string)
    requires Lawful(lib)
    requires field in s.schema.fields && !s.Intercepts(field) && !s.Cached(field)
    ensures var v := Raw(s.data, field);
      && (field in s.schema.dates && v != Null ==> s.Get(lib, field) == Date(lib.carbon(v)))
      && (field !in s.schema.dates && field in s.schema.serialized && v.Str? ==>
            s.Get(lib, field) == (if lib.unserialize(v.s).Some? then lib.unserialize(v.s).value else v))
      && (v == Null || (field !in s.schema.dates && (field !in s.schema.serialized || !v.Str?)) ==>
            s.Get(lib, field) == v)
  {
    var v := Raw(s.data, field);
    if field !in s.schema.dates && field in s.schema.serialized && v.Str? {
      DecodeTest(lib, v.s);
    }
  }

  lemma {:induction false} GetAllAt(s: Snapshot, lib: Lib, list: seq<string>)
    ensures forall i :: 0 <= i < |list| ==> s.GetAll(lib, list)[i] == s.Get(lib, list[i])
    ensures forall i :: 0 <= i < |list| ==> s.NormalizeAll(lib, list)[i] == Normalize(lib, s.schema, list[i], s.Get(lib, list[i]))
    ensures s.SameReads(lib, s.AfterGetAll(lib, list))
    decreases |list|
  {
    if list != [] {
      var t := s.AfterGet(lib, list[0]);
      AfterGetKeepsReads(s, lib, list[0]);
      GetAllAt(t, lib, list[1..]);
      forall i | 0 < i < |list|
        ensures s.GetAll(lib, list)[i] == s.Get(lib, list[i])
        ensures s.NormalizeAll(lib, list)[i] == Normalize(lib, s.schema, list[i], s.Get(lib, list[i]))
      {
        assert list[1..][i - 1] == list[i];
      }
    }
  }

  /** `storable()` and `toArray()` have exactly the field list as keys, in order; each value is
      the normalised (for `storable`) or plain (for `toArray`) accessor value of its field, as the
      record answered before the call; and the calls leave the accessor's answers unchanged. */
  lemma StorableShape(s: Snapshot, lib: Lib)
    requires NoDup(s.schema.fields)
    ensures Keys(s.Storable(lib)) == s.schema.fields && Keys(s.ToArray(lib)) == s.schema.fields
    ensures forall i :: 0 <= i < |s.schema.fields| ==>
      s.Storable(lib)[i].1 == Normalize(lib, s.schema, s.schema.fields[i], s.Get(lib, s.schema.fields[i]))
    ensures forall i :: 0 <= i < |s.schema.fields| ==>
      s.ToArray(lib)[i].1 == s.Get(lib, s.schema.fields[i])
    ensures s.SameReads(lib, s.AfterGetAll(lib, s.schema.fields))
  {
    GetAllAt(s, lib, s.schema.fields);
    CombineDistinct(s.schema.fields, s.NormalizeAll(lib, s.schema.fields));
    CombineDistinct(s.schema.fields, s.GetAll(lib, s.schema.fields));
  }

  /** Reading one field back out of `storable()`: it is a key, and it holds the normalised accessor value. */
  lemma StoredField(s: Snapshot, lib: Lib, i: nat)
    requires NoDup(s.schema.fields) && i < |s.schema.fields|
    ensures s.schema.fields[i] in Keys(s.Storable(lib))
    ensures Get(s.Storable(lib), s.schema.fields[i]) == Normalize(lib, s.schema, s.schema.fields[i], s.Get(lib, s.schema.fields[i]))
  {
    StorableShape(s, lib);
    var st := s.Storable(lib);
    assert Keys(st)[i] == st[i].0;
    GetPresent(st, i);
  }

  /** `storableSet` gives the same array on a state that answers every field the same way;
      in particular a second `storable()` call repeats the first. */
  lemma {:induction false} StorableSetSameReads(s: Snapshot, t: Snapshot, lib: Lib, list: seq<string>)
    requires s.SameReads(lib, t)
    ensures s.NormalizeAll(lib, list) == t.NormalizeAll(lib, list)
    ensures s.StorableSet(lib, list) == t.StorableSet(lib, list)
  {
    GetAllAt(s, lib, list);
    GetAllAt(t, lib, list);
  }

  /** A date field is stored as a formatted string when it holds a string or a date, and null stays null. */
  lemma NormalizeDate(lib: Lib, s: Schema, field: string, v: Value)
    requires field in s.dates
    ensures v.Str? ==> Normalize(lib, s, field, v) == Str(lib.format(lib.carbon(v)))
    ensures v.Date? ==> Normalize(lib, s, field, v) == Str(lib.format(v.t))
    ensures v == Null ==> Normalize(lib, s, field, v) == Null
  {
  }

  /** A field that is neither a date nor serialized is always stored as a string: strings unchanged,
      anything else as its `print_r` rendering, null as "". */
  lemma NormalizePlain(lib: Lib, s: Schema, field: string, v: Value)
    requires Lawful(lib)
    requires field !in s.dates && field !in s.serialized
    ensures Normalize(lib, s, field, v).Str?
    ensures v.Str? ==> Normalize(lib, s, field, v) == v
    ensures !v.Str? ==> Normalize(lib, s, field, v) == Str(lib.printR(v))
    ensures v == Null ==> Normalize(lib, s, field, v) == Str("")
  {
  }

  /** A serialized field is stored as a string that decodes, except on the `print_r` fallback for a
      value `serialize` rejects; a string that already decodes is kept, and one that does not is
      encoded, so that it decodes back to itself. */
  lemma NormalizeSerialized(lib: Lib, s: Schema, field: string, v: Value)
    requires Lawful(lib)
    requires field !in s.dates && field in s.serialized
    ensures var r := Normalize(lib, s, field, v);
      && r.Str?
      && (lib.unserialize(r.s).Some? || (!v.Str? && !lib.serializable(v) && r == Str(lib.printR(v))))
    ensures v.Str? && lib.unserialize(v.s).Some? ==> Normalize(lib, s, field, v) == v
    ensures v.Str? && lib.unserialize(v.s).None? ==> lib.unserialize(Normalize(lib, s, field, v).s) == Some(v)
  {
    if v.Str? {
      DecodeTest(lib, v.s);
    }
  }

  /** `in_array` then append: the step ensureSystemFields applies to each system field. */
  function AppendAbsent(xs: seq<string>, x: string): (r: seq<string>)
  {
    if x in xs then xs else xs + [x]
  }

  /** ErrorAbstract::ensureSystemFields applied to one list (ErrorAbstract.php, lines 56-70). */
  function WithSystemFields(xs: seq<string>): seq<string>
  {
    AppendAbsent(AppendAbsent(xs, "created_at"), "resolved_at")
  }

  function Count(xs: seq<string>, x: string): nat
  {
    if xs == [] then 0 else (if xs[0] == x then 1 else 0) + Count(xs[1..], x)
  }

  lemma {:induction false} CountAppend(xs: seq<string>, y: string, x: string)
    ensures Count(xs + [y], x) == Count(xs, x) + (if y == x then 1 else 0)
  {
    if xs != [] {
      assert (xs + [y])[1..] == xs[1..] + [y];
      CountAppend(xs[1..], y, x);
    }
  }

  lemma {:induction false} CountZero(xs: seq<string>, x: string)
    ensures Count(xs, x) == 0 <==> x !in xs
  {
    if xs != [] {
      CountZero(xs[1..], x);
      assert xs == [xs[0]] + xs[1..];
    }
  }

  /** After ensureSystemFields each system field is in the list exactly once (given at most once
      before), the old entries keep their order as a prefix, only absent system fields are
      appended, and applying the step again changes nothing. */
  lemma SystemFieldsOnce(xs: seq<string>)
    requires Count(xs, "created_at") <= 1 && Count(xs, "resolved_at") <= 1
    ensures var r := WithSystemFields(xs);
      && Count(r, "created_at") == 1 && Count(r, "resolved_at") == 1
      && r[..|xs|] == xs
      && (forall i :: |xs| <= i < |r| ==> r[i] in ["created_at", "resolved_at"] && r[i] !in xs)
      && WithSystemFields(r) == r
  {
    var a := AppendAbsent(xs, "created_at");
    CountZero(xs, "created_at");
    CountAppend(xs, "created_at", "created_at");
    CountAppend(xs, "created_at", "resolved_at");
    CountZero(a, "resolved_at");
    CountAppend(a, "resolved_at", "resolved_at");
    CountAppend(a, "resolved_at", "created_at");
    var r := WithSystemFields(xs);
    assert r[..|xs|] == xs by {
      assert a[..|xs|] == xs;
      assert r[..|a|] == a;
    }
  }
}
