/** The logging facade (Log.php): it builds the error record of a kind from a payload and
    hands it to the storage, and maps each read and count onto the storage with the right
    filter constant. Hooks are never registered, so running them does nothing. */
module LogFacade {
  import opened Values
  import opened Fields
  import opened BackendKind
  import opened StorageRules
  import opened Records
  import opened Items
  import opened Tables
  import opened Grouping
  import opened PdoStore

  /** The stage `write` records when none is given. */
  const DefaultStage := "production"

  class Log {
    const config: Assoc
    const storage: PdoStorage
    var hooks: seq<string>

    /** `new Log($config, $storage)`: `registerHooks` returns an empty list whatever the
        configuration says. */
    constructor (config: Assoc, storage: PdoStorage)
      ensures this.config == config && this.storage == storage && hooks == []
    {
      this.config := config;
      this.storage := storage;
      hooks := [];
    }

    /** `write($kind, $payload, $stage)`: a new error of the kind's class over the payload,
        written once to the storage and returned as built, with no id, rather than as stored.
        A kind with no error class stops at `new`, before the storage is touched. */
    method Write(lib: Lib, kind: string, payload: Assoc, now: int, stage: string := DefaultStage)
      returns (r: Result<Record>)
      requires Valid(storage.db)
      modifies storage`db, storage`executed, storage`migrations
      ensures ClassOfKind(kind).Err? ==> r == Err(ClassNotFound) && storage.State() == old(storage.State())
      ensures r.Ok? ==> fresh(r.value) && r.value.id == None && r.value.data == Arr(payload)
      ensures WriteEffect(old(storage.db), storage.db,
        Identity(Snapshot(ErrorOf(Kind), None, Arr(payload), ConstructedSchema(), map[]), lib), stage, r.Ok?)
    {
      ghost var built := Snapshot(ErrorOf(Kind), None, Arr(payload), ConstructedSchema(), map[]);
      if ClassOfKind(kind).Err? {
        NoWriteEffect(storage.db, Identity(built, lib), stage);
        return Err(ClassNotFound);
      }
      var error := new Record.Backend(payload, Null);
      assert error.Snap() == built && Shaped(built.schema);
      assert error.occurrenceCached.Objects() == {};
      var w := storage.Write(lib, error, stage, now);
      assert error.id == None && error.data == Arr(payload);
      if w.Err? {
        return Err(w.error);
      }
      r := Ok(error);
    }

    /** `read($kind, $offset, $limit)`: no filter, offset and limit passed on unchanged. */
    method Read(kind: string, fetched: seq<Row>, offset: int := 0, limit: int := 10)
      returns (r: Result<seq<(Key, LogItem)>>, ghost pool: seq<(Key, seq<Record>)>)
      modifies storage`db, storage`executed, storage`migrations
      ensures var (o, s') := ReadOutcome(storage.exec, AsArray, kind, None, offset, limit, fetched, old(storage.State()));
        && storage.State() == s'
        && (r.Err? <==> o.Err?) && (r.Err? ==> r.error == o.error)
        && (r.Ok? ==> Mirrors(pool, o.value) && Lists(r.value, pool))
    {
      r, pool := storage.Read(kind, None, offset, limit, fetched);
    }

    /** `readUnresolved($kind, $offset, $limit)`: the UNRESOLVED_ONLY filter. */
    method ReadUnresolved(kind: string, fetched: seq<Row>, offset: int := 0, limit: int := 10)
      returns (r: Result<seq<(Key, LogItem)>>, ghost pool: seq<(Key, seq<Record>)>)
      modifies storage`db, storage`executed, storage`migrations
      ensures var (o, s') := ReadOutcome(storage.exec, AsArray, kind, Some(UNRESOLVED_ONLY), offset, limit, fetched,
                                         old(storage.State()));
        && storage.State() == s'
        && (r.Err? <==> o.Err?) && (r.Err? ==> r.error == o.error)
        && (r.Ok? ==> Mirrors(pool, o.value) && Lists(r.value, pool))
    {
      r, pool := storage.Read(kind, Some(UNRESOLVED_ONLY), offset, limit, fetched);
    }

    /** `readResolved($kind, $offset, $limit)`: the RESOLVED_ONLY filter. */
    method ReadResolved(kind: string, fetched: seq<Row>, offset: int := 0, limit: int := 10)
      returns (r: Result<seq<(Key, LogItem)>>, ghost pool: seq<(Key, seq<Record>)>)
      modifies storage`db, storage`executed, storage`migrations
      ensures var (o, s') := ReadOutcome(storage.exec, AsArray, kind, Some(RESOLVED_ONLY), offset, limit, fetched,
                                         old(storage.State()));
        && storage.State() == s'
        && (r.Err? <==> o.Err?) && (r.Err? ==> r.error == o.error)
        && (r.Ok? ==> Mirrors(pool, o.value) && Lists(r.value, pool))
    {
      r, pool := storage.Read(kind, Some(RESOLVED_ONLY), offset, limit, fetched);
    }

    /** `total($kind)`: the storage's answer, unchanged. */
    method Total(kind: string) returns (r: Result<int>)
      modifies storage`db, storage`executed, storage`migrations
      ensures (r, storage.State()) == CountOutcome(storage.exec, kind, None, old(storage.State()))
    {
      r := storage.Total(kind);
    }

    /** `totalResolved($kind)`. */
    method TotalResolved(kind: string) returns (r: Result<int>)
      modifies storage`db, storage`executed, storage`migrations
      ensures (r, storage.State()) == CountOutcome(storage.exec, kind, Some(RESOLVED_ONLY), old(storage.State()))
    {
      r := storage.TotalResolved(kind);
    }

    /** `totalUnresolved($kind)`. */
    method TotalUnresolved(kind: string) returns (r: Result<int>)
      modifies storage`db, storage`executed, storage`migrations
      ensures (r, storage.State()) == CountOutcome(storage.exec, kind, Some(UNRESOLVED_ONLY), old(storage.State()))
    {
      r := storage.TotalUnresolved(kind);
    }
  }
}
