/** Records as objects: the container (Contracts/ContainerAbstract.php), the error record
    (Contracts/ErrorAbstract.php) and the Backend kind (Errors/Backend.php) in one class whose
    `role` says whether it is a plain occurrence container or an error record. Every method
    that reads a field goes through `Get`, which fills the memo cache as the source does; the
    values it returns are stated through the `Fields.Snapshot` of the record. */
module Records {
  import opened Values
  import opened Fields
  import opened BackendKind

  /** ErrorAbstract's `$occurrenceCached`: null before the first `occurrence()` call, `false`
      when the payload held no occurrence field, otherwise the occurrence container. */
  datatype OccurrenceSlot = Unset | Missing | Built(rec: Record)
  {
    function Objects(): set<Record>
    {
      if Built? then {rec} else {}
    }
  }

  /** `count(Arr::only($data, $occurrenceFields)) > 0` for a payload that may not be an array. */
  predicate HasOccurrenceData(data: Value, occurrenceFields: seq<string>)
  {
    data.Arr? && |Only(data.entries, occurrenceFields)| > 0
  }

  class Record {
    var role: Role
    var id: Option<int>
    var data: Value
    var fields: seq<string>
    var dates: seq<string>
    var serialized: seq<string>
    var cache: map<string, Value>
    var position: nat
    var occurrenceFields: seq<string>
    var occurrenceCached: OccurrenceSlot

    /** What the accessor sees of this record. */
    function Snap(): Snapshot
      reads this
    {
      Snapshot(role, id, data, Schema(fields, dates, serialized), cache)
    }

    /** The snapshot of the occurrence container `occurrence()` returns (None for `false`),
        whether it is already cached or would be built now. */
    ghost function OccurrenceView(): Option<Snapshot>
      reads this, occurrenceCached.Objects()
    {
      match occurrenceCached
      case Built(r) => Some(r.Snap())
      case Missing => None
      case Unset =>
        if HasOccurrenceData(data, occurrenceFields)
        then Some(Snapshot(Plain, None, data, Schema(occurrenceFields, dates, serialized), map[]))
        else None
    }

    /** `new Backend($data, $id)`: ContainerAbstract's constructor stores the payload and runs
        initFields, then ErrorAbstract adds the system fields and sets the id to `intval($id)`,
        or null when no id is given. */
    constructor Backend(payload: Assoc, givenId: Value)
      ensures Snap() == Snapshot(ErrorOf(Kind), if givenId == Null then None else Some(IntVal(givenId)),
                                 Arr(payload), ConstructedSchema(), map[])
      ensures occurrenceFields == OccurrenceFields() && occurrenceCached == Unset && position == 0
    {
      role := ErrorOf(Kind);
      data := Arr(payload);
      cache := map[];
      position := 0;
      fields := [];
      dates := [];
      serialized := [];
      occurrenceFields := [];
      occurrenceCached := Unset;
      id := None;
      new;
      InitFields();
      EnsureSystemFields();
      id := if givenId == Null then None else Some(IntVal(givenId));
    }

    /** `new Occurrence($data, $fields, $serialized, $dates)`: a plain container over the whole
        payload with the given lists. */
    constructor Container(payload: Value, fieldList: seq<string>, serializedList: seq<string>, dateList: seq<string>)
      ensures Snap() == Snapshot(Plain, None, payload, Schema(fieldList, dateList, serializedList), map[])
      ensures occurrenceFields == [] && occurrenceCached == Unset && position == 0
    {
      role := Plain;
      id := None;
      data := payload;
      fields := fieldList;
      dates := dateList;
      serialized := serializedList;
      cache := map[];
      position := 0;
      occurrenceFields := [];
      occurrenceCached := Unset;
    }

    /** Backend::initFields (after ErrorAbstract::initFields): the identity and occurrence
        field lists, `resolved_at` as the one date and `session` as the one serialized field.
        A plain container keeps its lists. */
    method InitFields()
      modifies this`fields, this`occurrenceFields, this`dates, this`serialized
      ensures role.ErrorOf? ==> Snap().schema == InitialSchema() && occurrenceFields == OccurrenceFields()
      ensures role.Plain? ==> Snap() == old(Snap()) && occurrenceFields == old(occurrenceFields)
    {
      if role.ErrorOf? {
        fields := ErrorFields();
        occurrenceFields := OccurrenceFields();
        dates := ["resolved_at"];
        serialized := ["session"];
      }
    }

    /** ErrorAbstract::ensureSystemFields: append `created_at` and `resolved_at` to the field
        and date lists where absent. */
    method EnsureSystemFields()
      modifies this`fields, this`dates
      ensures fields == WithSystemFields(old(fields)) && dates == WithSystemFields(old(dates))
    {
      if "created_at" !in fields {
        fields := fields + ["created_at"];
      }
      if "resolved_at" !in fields {
        fields := fields + ["resolved_at"];
      }
      if "created_at" !in dates {
        dates := dates + ["created_at"];
      }
      if "resolved_at" !in dates {
        dates := dates + ["resolved_at"];
      }
    }

    /** `__get($field)`, with ErrorAbstract's override for `id` and `kind`: returns what the
        snapshot answers, caches the value for a schema field, and leaves every answer as it was. */
    method Get(lib: Lib, field: string) returns (v: Value)
      modifies this`cache
      ensures v == old(Snap()).Get(lib, field)
      ensures Snap() == old(Snap()).AfterGet(lib, field)
    {
      if role.ErrorOf? && (field == "id" || field == "kind") {
        v := if field == "id" then IdValue(id) else Str(role.kind);
      } else if field !in fields {
        v := Null;
      } else if field in cache && cache[field] != Null {
        v := cache[field];
      } else {
        v := Raw(data, field);
        if field in dates && v != Null {
          v := Date(lib.carbon(v));
        } else if field in serialized && v != Null {
          if v.Str? {
            var check := Values.Unserialize(lib, v.s);
            if check != Bool(false) || v.s == "b:0;" {
              v := check;
            }
          }
        }
        cache := cache[field := v];
      }
    }

    /** `storableSet($list)`: each listed field read through the accessor, in order, then normalised. */
    method StorableSet(lib: Lib, list: seq<string>) returns (r: Assoc)
      modifies this`cache
      ensures r == old(Snap()).StorableSet(lib, list)
      ensures Snap() == old(Snap()).AfterGetAll(lib, list)
    {
      ghost var s0 := Snap();
      var vals: seq<Value> := [];
      var i := 0;
      while i < |list|
        invariant 0 <= i <= |list|
        invariant vals + Snap().NormalizeAll(lib, list[i..]) == s0.NormalizeAll(lib, list)
        invariant Snap().AfterGetAll(lib, list[i..]) == s0.AfterGetAll(lib, list)
      {
        ghost var s := Snap();
        assert list[i..][0] == list[i] && list[i..][1..] == list[i + 1..];
        ghost var n := Normalize(lib, s.schema, list[i], s.Get(lib, list[i]));
        ghost var rest := s.AfterGet(lib, list[i]).NormalizeAll(lib, list[i + 1..]);
        assert s.NormalizeAll(lib, list[i..]) == [n] + rest;
        assert s.AfterGetAll(lib, list[i..]) == s.AfterGet(lib, list[i]).AfterGetAll(lib, list[i + 1..]);
        var v := Get(lib, list[i]);
        vals := vals + [Normalize(lib, Schema(fields, dates, serialized), list[i], v)];
        assert vals + rest == s0.NormalizeAll(lib, list);
        i := i + 1;
      }
      assert list[i..] == [];
      assert vals == vals + Snap().NormalizeAll(lib, list[i..]);
      r := Combine(list, vals);
    }

    /** `storable()`: `storableSet` over the whole field list. */
    method Storable(lib: Lib) returns (r: Assoc)
      modifies this`cache
      ensures r == old(Snap()).Storable(lib)
      ensures Snap() == old(Snap()).AfterGetAll(lib, old(fields))
    {
      r := StorableSet(lib, fields);
    }

    /** `toArray()`: every field's accessor value under its name. */
    method ToArray(lib: Lib) returns (r: Assoc)
      modifies this`cache
      ensures r == old(Snap()).ToArray(lib)
      ensures Snap() == old(Snap()).AfterGetAll(lib, old(fields))
    {
      ghost var s0 := Snap();
      var vals: seq<Value> := [];
      var i := 0;
      while i < |fields|
        invariant 0 <= i <= |fields|
        invariant vals + Snap().GetAll(lib, fields[i..]) == s0.GetAll(lib, fields)
        invariant Snap().AfterGetAll(lib, fields[i..]) == s0.AfterGetAll(lib, fields)
      {
        var v := Get(lib, fields[i]);
        vals := vals + [v];
        assert fields[i..][1..] == fields[i + 1..];
        i := i + 1;
      }
      assert fields[i..] == [];
      assert vals == vals + Snap().GetAll(lib, fields[i..]);
      r := Combine(fields, vals);
    }

    /** `rewind()`. */
    method Rewind()
      modifies this`position
      ensures position == 0
    {
      position := 0;
    }

    /** `next()`. */
    method Next()
      modifies this`position
      ensures position == old(position) + 1
    {
      position := position + 1;
    }

    /** `valid()`: `isset($this->fields[$pos])`, a field list holding no nulls. */
    predicate IteratorValid()
      reads this
    {
      position < |fields|
    }

    /** `key()`: the field under the cursor; null past the end. */
    function Key(): (k: Value)
      reads this
      ensures IteratorValid() ==> k == Str(fields[position])
      ensures !IteratorValid() ==> k == Null
    {
      if position < |fields| then Str(fields[position]) else Null
    }

    /** `current()`: the accessor value of the field under the cursor. Past the end the lookup
        yields null, and `__get(null)` answers null. */
    method Current(lib: Lib) returns (v: Value)
      modifies this`cache
      ensures IteratorValid() ==> v == old(Snap()).Get(lib, fields[position]) && Snap() == old(Snap()).AfterGet(lib, fields[position])
      ensures !IteratorValid() ==> v == Null && Snap() == old(Snap())
    {
      if position < |fields| {
        v := Get(lib, fields[position]);
      } else {
        v := Null;
      }
    }

    /** `offsetExists($offset)`. */
    predicate OffsetExists(offset: string)
      reads this
    {
      offset in fields
    }

    /** `offsetGet($offset)`: the accessor. */
    method OffsetGet(lib: Lib, offset: string) returns (v: Value)
      modifies this`cache
      ensures v == old(Snap()).Get(lib, offset)
      ensures Snap() == old(Snap()).AfterGet(lib, offset)
      ensures !OffsetExists(offset) && !Snap().Intercepts(offset) ==> v == Null && Snap() == old(Snap())
    {
      v := Get(lib, offset);
    }

    /** `offsetSet`: not supported, changes nothing. */
    method OffsetSet(offset: string, value: Value)
      ensures Snap() == old(Snap())
    {
    }

    /** `offsetUnset`: not supported, changes nothing. */
    method OffsetUnset(offset: string)
      ensures Snap() == old(Snap())
    {
    }

    /** `serialize()`: the encoded payload; None where PHP's `serialize` throws. */
    method Serialize(lib: Lib) returns (r: Option<string>)
      ensures lib.serializable(data) ==> r == Some(lib.serialize(data))
      ensures !lib.serializable(data) ==> r == None
    {
      if lib.serializable(data) {
        r := Some(lib.serialize(data));
      } else {
        r := None;
      }
    }

    /** The `unserialize($s)` method called on this existing record: it replaces the payload by
        the decoded value (false when it does not decode) and reruns initFields; it neither
        clears the cache nor adds the system fields. PHP's `unserialize()` function instead
        makes a fresh object without running the constructor and then calls this method, so
        there the id is null and the cache empty. */
    method Unserialize(lib: Lib, s: string)
      modifies this`data, this`fields, this`occurrenceFields, this`dates, this`serialized
      ensures Snap() == Unserialized(old(Snap()), lib, s)
      ensures data == Values.Unserialize(lib, s)
      ensures cache == old(cache) && role == old(role) && id == old(id)
      ensures role.ErrorOf? ==> Snap().schema == InitialSchema() && occurrenceFields == OccurrenceFields()
      ensures role.Plain? ==> Snap().schema == old(Snap().schema) && occurrenceFields == old(occurrenceFields)
    {
      data := Values.Unserialize(lib, s);
      InitFields();
    }

    /** `occurrence()`: built once from (payload, occurrence fields, serialized, dates) when the
        payload holds an occurrence field, `false` otherwise; either answer is kept for later calls. */
    method Occurrence() returns (o: OccurrenceSlot)
      modifies this`occurrenceCached
      ensures o != Unset && occurrenceCached == o
      ensures old(occurrenceCached) != Unset ==> o == old(occurrenceCached)
      ensures old(occurrenceCached) == Unset && HasOccurrenceData(data, occurrenceFields) ==>
        o.Built? && fresh(o.rec) && o.rec.Snap() == old(OccurrenceView()).value
      ensures old(occurrenceCached) == Unset && !HasOccurrenceData(data, occurrenceFields) ==> o == Missing
    {
      if occurrenceCached == Unset {
        if data.Arr? && |Only(data.entries, occurrenceFields)| > 0 {
          var r := new Record.Container(data, occurrenceFields, serialized, dates);
          occurrenceCached := Built(r);
        } else {
          occurrenceCached := Missing;
        }
      }
      o := occurrenceCached;
    }

    /** `isResolved()`: false when `resolved_at` reads as null; the other branch is a TODO that
        returns nothing (None). */
    method IsResolved(lib: Lib) returns (r: Option<bool>)
      modifies this`cache
      ensures r == Some(false) <==> old(Snap()).Get(lib, "resolved_at") == Null
      ensures r == None <==> old(Snap()).Get(lib, "resolved_at") != Null
      ensures Snap() == old(Snap()).AfterGet(lib, "resolved_at")
    {
      var v := Get(lib, "resolved_at");
      if v == Null {
        r := Some(false);
      } else {
        r := None;
      }
    }

    /** Backend::summary. `empty($this->msg)` finds no `__isset`, so it is always true and the
        formatted line is returned, whatever the message holds. */
    method Summary(lib: Lib) returns (r: string)
      modifies this`cache
      ensures r == SummaryOf(old(Snap()), lib)
      ensures old(Snap()).SameReads(lib, Snap())
    {
      ghost var s0 := Snap();
      var errorType := Get(lib, "type");
      ghost var s1 := Snap();
      var file := Get(lib, "file");
      ghost var s2 := Snap();
      var line := Get(lib, "line");
      ReadKept(s0, s1, lib, "type", "file");
      ReadKept(s1, s2, lib, "file", "line");
      ReadKept(s0, s1, lib, "type", "line");
      AfterGetKeepsReads(s0, lib, "type");
      AfterGetKeepsReads(s1, lib, "file");
      AfterGetKeepsReads(s2, lib, "line");
      SameReadsTrans(s0, s1, s2, lib);
      SameReadsTrans(s0, s2, Snap(), lib);
      r := SummaryText(lib, errorType, file, line);
    }
  }

  /** The values a full `foreach` over a record visits from cursor position `pos`:
      `valid()`, then `key()` and `current()`, then `next()`. */
  function Pass(s: Snapshot, lib: Lib, pos: nat): Assoc
    decreases |s.schema.fields| - pos
  {
    if pos < |s.schema.fields| then
      var f := s.schema.fields[pos];
      [(f, s.Get(lib, f))] + Pass(s.AfterGet(lib, f), lib, pos + 1)
    else []
  }

  lemma {:induction false} PassAt(s: Snapshot, lib: Lib, pos: nat)
    requires pos <= |s.schema.fields|
    ensures |Pass(s, lib, pos)| == |s.schema.fields| - pos
    ensures forall i :: 0 <= i < |s.schema.fields| - pos ==>
      Pass(s, lib, pos)[i] == (s.schema.fields[pos + i], s.GetAll(lib, s.schema.fields[pos..])[i])
    decreases |s.schema.fields| - pos
  {
    if pos < |s.schema.fields| {
      var f := s.schema.fields[pos];
      var t := s.AfterGet(lib, f);
      PassAt(t, lib, pos + 1);
      assert s.schema.fields[pos..][1..] == s.schema.fields[pos + 1..];
    }
  }

  /** A full pass from `rewind()` visits every field once, in list order, with the values
      `toArray()` gives. */
  lemma FullPass(s: Snapshot, lib: Lib)
    requires NoDup(s.schema.fields)
    ensures Pass(s, lib, 0) == s.ToArray(lib)
  {
    PassAt(s, lib, 0);
    GetAllAt(s, lib, s.schema.fields);
    CombineDistinct(s.schema.fields, s.GetAll(lib, s.schema.fields));
    assert s.schema.fields[0..] == s.schema.fields;
  }

  /** The state `unserialize($text)` leaves a record in: the decoded payload and the field lists
      initFields gives (for an error record, without the system fields); role, id and cache kept. */
  function Unserialized(s: Snapshot, lib: Lib, text: string): Snapshot
  {
    s.(data := Values.Unserialize(lib, text), schema := if s.role.ErrorOf? then InitialSchema() else s.schema)
  }

  /** The `unserialize` method, called on the record itself with the string `serialize()`
      returned (`Some(lib.serialize(data))` for a serializable payload), restores the payload,
      the role, the id and the cache. A container,
      or an error record whose lists are initFields' own, comes back exactly as it was and so
      answers every field as before; a constructed error record comes back without its system
      fields, since `unserialize` does not rerun ensureSystemFields. */
  lemma SerializeRoundTrip(s: Snapshot, lib: Lib)
    requires Lawful(lib) && lib.serializable(s.data)
    ensures var t := Unserialized(s, lib, lib.serialize(s.data));
      && t.data == s.data && t.role == s.role && t.id == s.id && t.cache == s.cache
      && (s.role.Plain? || s.schema == InitialSchema() ==> t == s)
      && (s.role.ErrorOf? && s.schema == ConstructedSchema() ==>
            t.schema == InitialSchema() && "created_at" !in t.schema.fields && "resolved_at" !in t.schema.fields)
  {
    UnserializeSerialized(lib, s.data);
    ConstructedSchemaShape();
  }

  /** `occurrence()` finds occurrence data exactly when some occurrence field is a key of the payload. */
  lemma OccurrenceDataPresent(data: Value, occurrenceFields: seq<string>)
    ensures HasOccurrenceData(data, occurrenceFields) <==>
      data.Arr? && exists k :: k in occurrenceFields && k in Keys(data.entries)
  {
    if data.Arr? {
      OnlyNonEmpty(data.entries, occurrenceFields);
    }
  }
}
