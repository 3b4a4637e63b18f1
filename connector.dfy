/** The connection-string logic of the PDO connector (Storage/Tools/PDOConnector.php): which
    handle and database name `initConnection` settles on for each form of its argument, the DSN
    `getDsn` builds from a configuration array, and the database name `getDbNameFromDsn` reads
    back out of a DSN. Opening a connection is a parameter: whether the driver accepts a DSN. */
module Connector {
  import opened Values

  /** `explode($d, $s)`: the pieces between the delimiters, one more than there are
      delimiters, none containing one. */
  function Explode(s: string, d: char): (parts: seq<string>)
    ensures |parts| >= 1
    ensures forall i | 0 <= i < |parts| :: d !in parts[i]
  {
    if s == [] then [""]
    else
      var rest := Explode(s[1..], d);
      if s[0] == d then [""] + rest else [[s[0]] + rest[0]] + rest[1..]
  }

  /** `implode($d, $parts)`. */
  function Implode(parts: seq<string>, d: char): string
  {
    if parts == [] then ""
    else if |parts| == 1 then parts[0]
    else parts[0] + [d] + Implode(parts[1..], d)
  }

  /** Joining the pieces back with the delimiter gives the string that was split. */
  lemma {:induction false} ImplodeExplode(s: string, d: char)
    ensures Implode(Explode(s, d), d) == s
  {
    if s != [] {
      var rest := Explode(s[1..], d);
      ImplodeExplode(s[1..], d);
      if s[0] == d {
        assert Implode([""] + rest, d) == "" + [d] + Implode(rest, d);
      } else if |rest| == 1 {
        assert Implode(rest, d) == rest[0];
      } else {
        var parts := [[s[0]] + rest[0]] + rest[1..];
        assert parts[1..] == rest[1..];
        assert Implode(rest, d) == rest[0] + [d] + Implode(rest[1..], d);
      }
    }
  }

  /** A string without the delimiter is a single piece. */
  lemma {:induction false} ExplodeWhole(p: string, d: char)
    requires d !in p
    ensures Explode(p, d) == [p]
  {
    if p != [] {
      ExplodeWhole(p[1..], d);
      assert [p[0]] + p[1..] == p;
    }
  }

  /** A piece followed by the delimiter splits off first. */
  lemma {:induction false} ExplodeFirst(p: string, rest: string, d: char)
    requires d !in p
    ensures Explode(p + [d] + rest, d) == [p] + Explode(rest, d)
  {
    if p == [] {
      assert p + [d] + rest == [d] + rest;
      assert ([d] + rest)[1..] == rest;
    } else {
      assert (p + [d] + rest)[1..] == p[1..] + [d] + rest;
      ExplodeFirst(p[1..], rest, d);
      assert [p[0]] + p[1..] == p;
    }
  }

  /** Splitting a join of delimiter-free pieces gives the pieces back. */
  lemma {:induction false} ExplodeImplode(parts: seq<string>, d: char)
    requires parts != [] && forall i | 0 <= i < |parts| :: d !in parts[i]
    ensures Explode(Implode(parts, d), d) == parts
  {
    if |parts| == 1 {
      ExplodeWhole(parts[0], d);
    } else {
      ExplodeImplode(parts[1..], d);
      ExplodeFirst(parts[0], Implode(parts[1..], d), d);
    }
  }

  /** One `key=value` parameter of a DSN; a parameter without '=' has a null value, and only
      the text up to a second '=' is kept. */
  datatype Param = Param(key: string, value: Option<string>)

  function ParseParam(item: string): (p: Param)
    ensures '=' !in p.key
  {
    var ar := Explode(item, '=');
    Param(ar[0], if |ar| > 1 then Some(ar[1]) else None)
  }

  lemma ParseKeyValue(k: string, v: string)
    requires '=' !in k && '=' !in v
    ensures ParseParam(k + "=" + v) == Param(k, Some(v))
  {
    ExplodeFirst(k, v, '=');
    ExplodeWhole(v, '=');
  }

  /** The keys that name the database. */
  predicate NamesDb(p: Param)
  {
    p.key == "dbname" || p.key == "Database"
  }

  /** The value of the first parameter naming the database, or null. */
  function FirstDbName(params: seq<Param>): Option<string>
  {
    if params == [] then None
    else if NamesDb(params[0]) then params[0].value
    else FirstDbName(params[1..])
  }

  /** It is the value of the earliest parameter that names the database, and null when none
      does. */
  lemma {:induction false} FirstDbNameSpec(params: seq<Param>, i: nat)
    requires i <= |params| && forall j | 0 <= j < i :: !NamesDb(params[j])
    ensures i == |params| ==> FirstDbName(params) == None
    ensures i < |params| && NamesDb(params[i]) ==> FirstDbName(params) == params[i].value
  {
    if i > 0 {
      FirstDbNameSpec(params[1..], i - 1);
    } else if params != [] && !NamesDb(params[0]) {
      FirstDbNameSpec(params[1..], 0);
    }
  }

  function ParseParams(items: seq<string>): (ps: seq<Param>)
    ensures |ps| == |items| && forall i | 0 <= i < |items| :: ps[i] == ParseParam(items[i])
  {
    if items == [] then [] else [ParseParam(items[0])] + ParseParams(items[1..])
  }

  /** The text `getDbNameFromDsn` scans: the second ':'-separated piece (`$split[1]`), which
      is null, and so splits into a single empty parameter, when the DSN has no ':'. */
  function ParamText(dsn: string): string
  {
    var split := Explode(dsn, ':');
    if |split| > 1 then split[1] else ""
  }

  /** `getDbNameFromDsn($dsn)`. */
  function DbNameFromDsn(dsn: string): Option<string>
  {
    FirstDbName(ParseParams(Explode(ParamText(dsn), ';')))
  }

  /** `getDbNameFromDsn($dsn)` as the source runs it: `array_walk` rewrites each parameter in
      place, then a `foreach` stops at the first one naming the database. */
  method GetDbNameFromDsn(dsn: string) returns (dbName: Option<string>)
    ensures dbName == DbNameFromDsn(dsn)
  {
    var split := Explode(dsn, ':');
    var items := Explode(if |split| > 1 then split[1] else "", ';');
    var params := WalkParams(items);
    // `foreach` walks a copy of the array.
    dbName := ScanParams(params[..]);
  }

  /** The `array_walk` pass: each `key=value` piece is rewritten in place into its parameter. */
  method WalkParams(items: seq<string>) returns (params: array<Param>)
    ensures fresh(params) && params[..] == ParseParams(items)
  {
    params := new Param[|items|];
    var i := 0;
    while i < |items|
      invariant 0 <= i <= |items|
      invariant forall j | 0 <= j < i :: params[j] == ParseParam(items[j])
    {
      params[i] := ParseParam(items[i]);
      i := i + 1;
    }
  }

  /** The `foreach` with `break`: the value of the first parameter naming the database. */
  method ScanParams(params: seq<Param>) returns (dbName: Option<string>)
    ensures dbName == FirstDbName(params)
  {
    var i := 0;
    while i < |params|
      invariant 0 <= i <= |params|
      invariant FirstDbName(params) == FirstDbName(params[i..])
    {
      FirstDbNameAt(params, i);
      if NamesDb(params[i]) {
        return params[i].value;
      }
      i := i + 1;
    }
    assert params[i..] == [];
    return None;
  }

  /** The scan from position `i` stops there or goes on from `i + 1`. */
  lemma FirstDbNameAt(params: seq<Param>, i: nat)
    requires i < |params|
    ensures FirstDbName(params[i..]) == if NamesDb(params[i]) then params[i].value else FirstDbName(params[i + 1..])
  {
    assert params[i..][0] == params[i];
    assert params[i..][1..] == params[i + 1..];
  }

  /** Only the text between the first and the second ':' is scanned: whatever follows a
      second ':' is ignored. */
  lemma DbNameIgnoresLaterColons(driver: string, params: string, rest: string)
    requires ':' !in driver && ':' !in params
    ensures DbNameFromDsn(driver + ":" + params + ":" + rest) == DbNameFromDsn(driver + ":" + params)
  {
    assert driver + ":" + params + ":" + rest == driver + [':'] + (params + [':'] + rest);
    assert driver + ":" + params == driver + [':'] + params;
    ExplodeFirst(driver, params + [':'] + rest, ':');
    ExplodeFirst(params, rest, ':');
    ExplodeFirst(driver, params, ':');
    ExplodeWhole(params, ':');
  }

  /** The database configuration `parseConfigArray` collects. */
  datatype DbConfig = DbConfig(host: Value, port: Value, unixSocket: Value, username: Value, password: Value, database: Value)

  /** `Arr::get($a, $key, $default)`: the value under the key, or the default when it is
      absent or null. */
  function ArrGet(a: Assoc, key: string, default: Value): (v: Value)
    ensures v == Null ==> default == Null
  {
    if Get(a, key) == Null then default else Get(a, key)
  }

  /** `parseConfigArray`: the driver, 'mysql' by default, and the configuration, with the host
      defaulting to '' and every other entry to null. */
  function ParseConfig(connect: Assoc): (Value, DbConfig)
  {
    (ArrGet(connect, "driver", Str("mysql")),
     DbConfig(ArrGet(connect, "host", Str("")), ArrGet(connect, "port", Null), ArrGet(connect, "unix_socket", Null),
              ArrGet(connect, "username", Null), ArrGet(connect, "password", Null), ArrGet(connect, "database", Null)))
  }

  /** With no key given, the configuration is a mysql one on an empty host, with nothing else
      set. */
  lemma EmptyConfigIsMysql()
    ensures ParseConfig([]) == (Str("mysql"), DbConfig(Str(""), Null, Null, Null, Null, Null))
  {
  }

  const UnsupportedDriver := "Unsupported driver. Currently supported: sqlite, mysql, pgsql, sqlsrv, dblib"

  /** `";port={$port}"` when the port is truthy. */
  function Suffix(lib: Lib, name: string, v: Value): string
  {
    if Empty(v) then "" else ";" + name + "=" + ToText(lib, v)
  }

  /** `getDsn($driver, $config)`, with `in_array('dblib', \PDO::getAvailableDrivers())` given as
      `dblib`; a driver that is not one of the five strings is refused. */
  function GetDsn(lib: Lib, driver: Value, c: DbConfig, dblib: bool): (r: Result<string>)
    ensures r.Err? <==> !(driver.Str? && driver.s in ["sqlite", "mysql", "pgsql", "sqlsrv", "dblib"])
    ensures r.Err? ==> r.error == InvalidArgument(UnsupportedDriver)
  {
    var host := ToText(lib, c.host);
    var db := ToText(lib, c.database);
    if driver == Str("sqlite") then Ok("sqlite:" + db)
    else if driver == Str("mysql") then
      Ok("mysql:host=" + host + ";dbname=" + db + Suffix(lib, "port", c.port) + Suffix(lib, "unix_socket", c.unixSocket))
    else if driver == Str("pgsql") then
      Ok(PgsqlDsnAsWritten(host, db, Suffix(lib, "port", c.port)))
    else if driver == Str("sqlsrv") || driver == Str("dblib") then
      var port := CommaPort(lib, c);
      if dblib then Ok("dblib:host=" + host + port + ";dbname=" + db)
      else Ok("sqlsrv:Server=" + host + port + (if Empty(c.database) then "" else ";Database=" + db))
    else Err(InvalidArgument(UnsupportedDriver))
  }

  /** The pgsql DSN as line 154 builds it: the host text runs straight into `dbname=`, so a
      configured host turns the database parameter into one with another key. */
  function PgsqlDsnAsWritten(host: string, db: string, port: string): string
  {
    "pgsql:" + host + "dbname=" + db + port
  }

  /** The pgsql DSN with the host as a `host=` parameter of its own when one is configured,
      the shape the other drivers' branches use. */
  function PgsqlDsn(host: string, db: string, port: string): string
  {
    "pgsql:" + (if host == "" then "" else "host=" + host + ";") + "dbname=" + db + port
  }

  /** A piece of a DSN that no separator can split. */
  predicate Plain(s: string)
  {
    ':' !in s && ';' !in s && '=' !in s
  }

  lemma PlainSuffix(lib: Lib, name: string, v: Value)
    requires Plain(name) && Plain(ToText(lib, v))
    ensures ':' !in Suffix(lib, name, v)
    ensures !Empty(v) ==> Suffix(lib, name, v) == [';'] + (name + "=" + ToText(lib, v))
  {
  }

  /** Joining pieces free of a character with another delimiter leaves it out. */
  lemma {:induction false} ImplodeAvoids(parts: seq<string>, d: char, c: char)
    requires c != d && forall i | 0 <= i < |parts| :: c !in parts[i]
    ensures c !in Implode(parts, d)
  {
    if |parts| > 1 {
      ImplodeAvoids(parts[1..], d, c);
    }
  }

  /** The parameters of a DSN `driver:p1;p2;...` are its pieces. */
  lemma ParamsOfDsn(driver: string, pieces: seq<string>)
    requires ':' !in driver && pieces != []
    requires forall i | 0 <= i < |pieces| :: ':' !in pieces[i] && ';' !in pieces[i]
    ensures Explode(ParamText(driver + [':'] + Implode(pieces, ';')), ';') == pieces
  {
    ImplodeAvoids(pieces, ';', ':');
    var text := Implode(pieces, ';');
    ExplodeFirst(driver, text, ':');
    ExplodeWhole(text, ':');
    ExplodeImplode(pieces, ';');
  }

  /** When the first parameter of a DSN does not name the database and the second does, the
      database name is the second one's value. */
  lemma DbNameOfSecond(driver: string, pieces: seq<string>)
    requires ':' !in driver && |pieces| >= 2
    requires forall i | 0 <= i < |pieces| :: ':' !in pieces[i] && ';' !in pieces[i]
    requires !NamesDb(ParseParam(pieces[0])) && NamesDb(ParseParam(pieces[1]))
    ensures DbNameFromDsn(driver + [':'] + Implode(pieces, ';')) == ParseParam(pieces[1]).value
  {
    var dsn := driver + [':'] + Implode(pieces, ';');
    ParamsOfDsn(driver, pieces);
    var ps := ParseParams(pieces);
    assert DbNameFromDsn(dsn) == FirstDbName(ps);
    assert !NamesDb(ps[0]) && NamesDb(ps[1]);
    FirstDbNameAt(ps, 0);
    FirstDbNameAt(ps, 1);
    assert ps[0..] == ps;
  }

  /** The database name of a DSN `driver:k=v;dk=D;...` whose first key does not name the
      database and whose second does. */
  lemma DbNameOfSecondParam(driver: string, k: string, v: string, dk: string, db: string, extras: seq<string>)
    requires Plain(driver) && Plain(k) && Plain(v) && Plain(dk) && Plain(db)
    requires forall i | 0 <= i < |extras| :: ':' !in extras[i] && ';' !in extras[i]
    requires !NamesDb(Param(k, None)) && NamesDb(Param(dk, None))
    ensures DbNameFromDsn(driver + [':'] + Implode([k + "=" + v, dk + "=" + db] + extras, ';')) == Some(db)
  {
    var pieces := [k + "=" + v, dk + "=" + db] + extras;
    SecondParamPieces(k, v, dk, db, extras, pieces);
    DbNameOfSecond(driver, pieces);
  }

  lemma SecondParamPieces(k: string, v: string, dk: string, db: string, extras: seq<string>, pieces: seq<string>)
    requires Plain(k) && Plain(v) && Plain(dk) && Plain(db)
    requires forall i | 0 <= i < |extras| :: ':' !in extras[i] && ';' !in extras[i]
    requires !NamesDb(Param(k, None)) && NamesDb(Param(dk, None))
    requires pieces == [k + "=" + v, dk + "=" + db] + extras
    ensures |pieces| >= 2 && forall i | 0 <= i < |pieces| :: ':' !in pieces[i] && ';' !in pieces[i]
    ensures !NamesDb(ParseParam(pieces[0])) && ParseParam(pieces[1]) == Param(dk, Some(db))
  {
    PlainPair(k, v);
    PlainPair(dk, db);
    ParseKeyValue(k, v);
    ParseKeyValue(dk, db);
    forall i | 0 <= i < |pieces| ensures ':' !in pieces[i] && ';' !in pieces[i] {
      if i >= 2 {
        assert pieces[i] == extras[i - 2];
      }
    }
  }

  /** A `key=value` parameter of plain parts holds no ':' and no ';'. */
  lemma PlainPair(k: string, v: string)
    requires Plain(k) && Plain(v)
    ensures ':' !in k + "=" + v && ';' !in k + "=" + v
  {
    var p := k + "=" + v;
    forall i | 0 <= i < |p| ensures p[i] != ':' && p[i] != ';' {
      if i < |k| {
        assert p[i] == k[i];
      } else if i > |k| {
        assert p[i] == v[i - |k| - 1];
      }
    }
  }

  /** The optional `name=value` parameter a truthy value adds. */
  function Pieces(lib: Lib, name: string, v: Value): seq<string>
  {
    if Empty(v) then [] else [name + "=" + ToText(lib, v)]
  }

  /** The text that follows the last fixed parameter: nothing, or ';' and the rest joined. */
  function Tail(extras: seq<string>): string
  {
    if extras == [] then "" else [';'] + Implode(extras, ';')
  }

  lemma ImplodeTail(x: string, extras: seq<string>)
    ensures Implode([x] + extras, ';') == x + Tail(extras)
  {
    if extras != [] {
      assert ([x] + extras)[1..] == extras;
    }
  }

  lemma SuffixesTail(lib: Lib, n1: string, v1: Value, n2: string, v2: Value)
    ensures Suffix(lib, n1, v1) + Suffix(lib, n2, v2) == Tail(Pieces(lib, n1, v1) + Pieces(lib, n2, v2))
  {
    SuffixIsTail(lib, n1, v1);
    SuffixIsTail(lib, n2, v2);
    TailConcat(Pieces(lib, n1, v1), Pieces(lib, n2, v2));
  }

  lemma SuffixIsTail(lib: Lib, name: string, v: Value)
    ensures Suffix(lib, name, v) == Tail(Pieces(lib, name, v))
  {
    if !Empty(v) {
      assert Suffix(lib, name, v) == [';'] + (name + "=" + ToText(lib, v));
    }
  }

  lemma {:induction false} TailConcat(e1: seq<string>, e2: seq<string>)
    ensures Tail(e1) + Tail(e2) == Tail(e1 + e2)
  {
    if e1 != [] {
      var x := e1[0];
      var r := e1[1..];
      assert e1 == [x] + r;
      assert e1 + e2 == [x] + (r + e2);
      calc {
        Tail(e1 + e2);
        [';'] + Implode([x] + (r + e2), ';');
        { ImplodeTail(x, r + e2); }
        [';'] + (x + Tail(r + e2));
        { TailConcat(r, e2); }
        [';'] + (x + (Tail(r) + Tail(e2)));
        ([';'] + (x + Tail(r))) + Tail(e2);
        { ImplodeTail(x, r); }
        ([';'] + Implode([x] + r, ';')) + Tail(e2);
        Tail(e1) + Tail(e2);
      }
    } else {
      assert e1 + e2 == e2;
    }
  }

  /** `driver:k=v;dk=D` followed by a tail, as a join of its parameters. */
  lemma TwoParams(driver: string, k: string, v: string, dk: string, db: string, extras: seq<string>)
    ensures driver + [':'] + Implode([k + "=" + v, dk + "=" + db] + extras, ';')
         == driver + [':'] + (k + "=" + v) + [';'] + (dk + "=" + db) + Tail(extras)
  {
    var pieces := [k + "=" + v, dk + "=" + db] + extras;
    assert pieces == [k + "=" + v] + ([dk + "=" + db] + extras);
    ImplodeTail(k + "=" + v, [dk + "=" + db] + extras);
    ImplodeTail(dk + "=" + db, extras);
  }

  /** The mysql DSN is `mysql:host=H;dbname=D`, then the port and the socket parameters. */
  lemma MysqlDsnShape(lib: Lib, c: DbConfig, dblib: bool)
    ensures var extras := Pieces(lib, "port", c.port) + Pieces(lib, "unix_socket", c.unixSocket);
      GetDsn(lib, Str("mysql"), c, dblib)
        == Ok("mysql" + [':'] + Implode(["host" + "=" + ToText(lib, c.host), "dbname" + "=" + ToText(lib, c.database)] + extras, ';'))
  {
    var host := ToText(lib, c.host);
    var db := ToText(lib, c.database);
    var extras := Pieces(lib, "port", c.port) + Pieces(lib, "unix_socket", c.unixSocket);
    var s1 := Suffix(lib, "port", c.port);
    var s2 := Suffix(lib, "unix_socket", c.unixSocket);
    var head := "mysql:host=" + host + ";dbname=" + db;
    assert GetDsn(lib, Str("mysql"), c, dblib) == Ok(head + s1 + s2);
    MysqlHead(host, db);
    SuffixesTail(lib, "port", c.port, "unix_socket", c.unixSocket);
    TwoParams("mysql", "host", host, "dbname", db, extras);
    AppendAssoc(head, s1, s2);
  }

  lemma AppendAssoc(x: string, y: string, z: string)
    ensures x + y + z == x + (y + z)
  {
  }

  lemma MysqlHead(host: string, db: string)
    ensures "mysql:host=" + host + ";dbname=" + db == "mysql" + [':'] + ("host" + "=" + host) + [';'] + ("dbname" + "=" + db)
  {
    assert "mysql:host=" == "mysql" + [':'] + "host" + "=";
    assert ";dbname=" == [';'] + "dbname" + "=";
  }

  /** Reading the database name back from the mysql DSN built from a configuration gives the
      configured database, when no configured value holds a separator. */
  lemma MysqlRoundTrip(lib: Lib, c: DbConfig, dblib: bool)
    requires Plain(ToText(lib, c.host)) && Plain(ToText(lib, c.database))
    requires Plain(ToText(lib, c.port)) && Plain(ToText(lib, c.unixSocket))
    ensures GetDsn(lib, Str("mysql"), c, dblib).Ok?
    ensures DbNameFromDsn(GetDsn(lib, Str("mysql"), c, dblib).value) == Some(ToText(lib, c.database))
  {
    MysqlDsnShape(lib, c, dblib);
    var extras := Pieces(lib, "port", c.port) + Pieces(lib, "unix_socket", c.unixSocket);
    forall i | 0 <= i < |extras| ensures ':' !in extras[i] && ';' !in extras[i] {
      PiecesPlain(lib, "port", c.port);
      PiecesPlain(lib, "unix_socket", c.unixSocket);
      if i < |Pieces(lib, "port", c.port)| {
        assert extras[i] in Pieces(lib, "port", c.port);
      } else {
        assert extras[i] in Pieces(lib, "unix_socket", c.unixSocket);
      }
    }
    DbNameOfSecondParam("mysql", "host", ToText(lib, c.host), "dbname", ToText(lib, c.database), extras);
  }

  lemma PiecesPlain(lib: Lib, name: string, v: Value)
    requires Plain(name) && Plain(ToText(lib, v))
    ensures forall p | p in Pieces(lib, name, v) :: ':' !in p && ';' !in p
  {
    if !Empty(v) {
      PlainPair(name, ToText(lib, v));
    }
  }

  /** The database name of a DSN `driver:p1;p2;...` is the first one among its parameters. */
  lemma DbNameOfPieces(driver: string, pieces: seq<string>)
    requires ':' !in driver && pieces != []
    requires forall i | 0 <= i < |pieces| :: ':' !in pieces[i] && ';' !in pieces[i]
    ensures DbNameFromDsn(driver + [':'] + Implode(pieces, ';')) == FirstDbName(ParseParams(pieces))
  {
    ParamsOfDsn(driver, pieces);
  }

  /** `driver:p` followed by a tail, as a join of its parameters. */
  lemma OneParam(driver: string, p: string, extras: seq<string>)
    ensures driver + [':'] + Implode([p] + extras, ';') == driver + [':'] + p + Tail(extras)
  {
    ImplodeTail(p, extras);
  }

  /** The parameters a truthy port adds hold no separator and do not name the database. */
  lemma PortPieces(lib: Lib, v: Value)
    requires Plain(ToText(lib, v))
    ensures forall i | 0 <= i < |Pieces(lib, "port", v)| ::
      var p := Pieces(lib, "port", v)[i]; ':' !in p && ';' !in p && !NamesDb(ParseParam(p))
  {
    if !Empty(v) {
      PlainPair("port", ToText(lib, v));
      ParseKeyValue("port", ToText(lib, v));
    }
  }

  /** With the host as a parameter of its own, the pgsql DSN of a configuration reads back
      its database, whether or not a host is configured, when no configured value holds a
      separator. */
  lemma PgsqlRoundTrip(lib: Lib, c: DbConfig)
    requires Plain(ToText(lib, c.host)) && Plain(ToText(lib, c.database)) && Plain(ToText(lib, c.port))
    ensures DbNameFromDsn(PgsqlDsn(ToText(lib, c.host), ToText(lib, c.database), Suffix(lib, "port", c.port)))
         == Some(ToText(lib, c.database))
  {
    var host := ToText(lib, c.host);
    var db := ToText(lib, c.database);
    var extras := Pieces(lib, "port", c.port);
    SuffixIsTail(lib, "port", c.port);
    PortPieces(lib, c.port);
    if host == "" {
      PgsqlDbOnly(db, extras);
    } else {
      PgsqlHostAndDb(host, db, extras);
    }
  }

  lemma PgsqlDbOnly(db: string, extras: seq<string>)
    requires Plain(db)
    requires forall i | 0 <= i < |extras| :: ':' !in extras[i] && ';' !in extras[i]
    ensures DbNameFromDsn(PgsqlDsn("", db, Tail(extras))) == Some(db)
  {
    OneParam("pgsql", "dbname" + "=" + db, extras);
    assert PgsqlDsn("", db, Tail(extras)) == "pgsql" + [':'] + ("dbname" + "=" + db) + Tail(extras);
    var pieces := ["dbname" + "=" + db] + extras;
    PlainPair("dbname", db);
    ParseKeyValue("dbname", db);
    forall i | 0 <= i < |pieces| ensures ':' !in pieces[i] && ';' !in pieces[i] {
      if i > 0 {
        assert pieces[i] == extras[i - 1];
      }
    }
    DbNameOfPieces("pgsql", pieces);
    assert ParseParams(pieces)[0] == Param("dbname", Some(db));
  }

  lemma PgsqlHostAndDb(host: string, db: string, extras: seq<string>)
    requires Plain(host) && host != "" && Plain(db)
    requires forall i | 0 <= i < |extras| :: ':' !in extras[i] && ';' !in extras[i]
    ensures DbNameFromDsn(PgsqlDsn(host, db, Tail(extras))) == Some(db)
  {
    TwoParams("pgsql", "host", host, "dbname", db, extras);
    assert PgsqlDsn(host, db, Tail(extras))
        == "pgsql" + [':'] + ("host" + "=" + host) + [';'] + ("dbname" + "=" + db) + Tail(extras);
    DbNameOfSecondParam("pgsql", "host", host, "dbname", db, extras);
  }

  /** As written, a configured host hides the database: the DSN's first parameter has the key
      `<host>dbname`, no later one names the database, and the name read back is null. */
  lemma PgsqlAsWrittenLosesDbName(lib: Lib, c: DbConfig, dblib: bool)
    requires Plain(ToText(lib, c.host)) && ToText(lib, c.host) != ""
    requires Plain(ToText(lib, c.database)) && Plain(ToText(lib, c.port))
    ensures GetDsn(lib, Str("pgsql"), c, dblib).Ok?
    ensures DbNameFromDsn(GetDsn(lib, Str("pgsql"), c, dblib).value) == None
  {
    var host := ToText(lib, c.host);
    var db := ToText(lib, c.database);
    assert GetDsn(lib, Str("pgsql"), c, dblib) == Ok(PgsqlDsnAsWritten(host, db, Suffix(lib, "port", c.port)));
    SuffixIsTail(lib, "port", c.port);
    PortPieces(lib, c.port);
    HostedDsnNoDb(host, db, Pieces(lib, "port", c.port));
  }

  /** The as-written pgsql DSN as a join of parameters, the first keyed `<host>dbname`. */
  lemma PgsqlAsWrittenText(host: string, db: string, extras: seq<string>)
    ensures PgsqlDsnAsWritten(host, db, Tail(extras))
         == "pgsql" + [':'] + Implode([(host + "dbname") + "=" + db] + extras, ';')
  {
    OneParam("pgsql", (host + "dbname") + "=" + db, extras);
    assert "pgsql:" == "pgsql" + [':'];
    assert "dbname=" == "dbname" + "=";
  }

  /** With a non-empty host, no parameter of the as-written pgsql DSN names the database. */
  lemma HostedDsnNoDb(host: string, db: string, extras: seq<string>)
    requires Plain(host) && host != "" && Plain(db)
    requires forall i | 0 <= i < |extras| :: ':' !in extras[i] && ';' !in extras[i] && !NamesDb(ParseParam(extras[i]))
    ensures DbNameFromDsn(PgsqlDsnAsWritten(host, db, Tail(extras))) == None
  {
    PgsqlAsWrittenText(host, db, extras);
    var key := host + "dbname";
    assert Plain("dbname");
    assert Plain(key);
    var pieces := [key + "=" + db] + extras;
    PlainPair(key, db);
    ParseKeyValue(key, db);
    HostedKeyNamesNoDb(host);
    forall i | 0 <= i < |pieces| ensures ':' !in pieces[i] && ';' !in pieces[i] && !NamesDb(ParseParams(pieces)[i]) {
      if i > 0 {
        assert pieces[i] == extras[i - 1];
      }
    }
    assert ':' !in "pgsql";
    DbNameOfPieces("pgsql", pieces);
    FirstDbNameSpec(ParseParams(pieces), |pieces|);
  }

  /** With no host configured, the as-written pgsql DSN does read back its database. */
  lemma PgsqlWithoutHost(lib: Lib, c: DbConfig, dblib: bool)
    requires ToText(lib, c.host) == ""
    ensures GetDsn(lib, Str("pgsql"), c, dblib).Ok?
    ensures GetDsn(lib, Str("pgsql"), c, dblib).value
         == PgsqlDsn(ToText(lib, c.host), ToText(lib, c.database), Suffix(lib, "port", c.port))
  {
  }

  /** A non-empty host followed by `dbname` is neither `dbname` nor `Database`. */
  lemma HostedKeyNamesNoDb(host: string)
    requires host != ""
    ensures !NamesDb(Param(host + "dbname", None))
  {
    var key := host + "dbname";
    if |key| == 8 {
      assert key[2] == 'd';
    }
  }

  /** The text after the host in an sqlsrv or dblib DSN: ',' and the port when it is truthy. */
  function CommaPort(lib: Lib, c: DbConfig): string
  {
    if Empty(c.port) then "" else "," + ToText(lib, c.port)
  }

  lemma SqlServerDsn(lib: Lib, driver: Value, c: DbConfig, dblib: bool)
    requires driver == Str("sqlsrv") || driver == Str("dblib")
    ensures var host := ToText(lib, c.host); var db := ToText(lib, c.database);
      GetDsn(lib, driver, c, dblib)
        == Ok(if dblib then "dblib:host=" + (host + CommaPort(lib, c)) + ";dbname=" + db
              else if Empty(c.database) then "sqlsrv:Server=" + (host + CommaPort(lib, c))
              else "sqlsrv:Server=" + (host + CommaPort(lib, c)) + ";Database=" + db)
  {
    var host := ToText(lib, c.host);
    var port := CommaPort(lib, c);
    assert "dblib:host=" + host + port == "dblib:host=" + (host + port);
    var server := "sqlsrv:Server=" + host + port;
    assert server == "sqlsrv:Server=" + (host + port);
    assert server + "" == server;
    assert server + (";Database=" + ToText(lib, c.database)) == server + ";Database=" + ToText(lib, c.database);
  }

  lemma CommaPortPlain(lib: Lib, c: DbConfig)
    requires Plain(ToText(lib, c.host)) && Plain(ToText(lib, c.port))
    ensures Plain(ToText(lib, c.host) + CommaPort(lib, c))
  {
  }

  lemma DblibText(v: string, db: string)
    ensures "dblib:host=" + v + ";dbname=" + db
         == "dblib" + [':'] + Implode(["host" + "=" + v, "dbname" + "=" + db] + [], ';')
  {
    assert "dblib:host=" == "dblib" + [':'] + "host" + "=";
    assert ";dbname=" == [';'] + "dbname" + "=";
    TwoParams("dblib", "host", v, "dbname", db, []);
  }

  lemma SqlsrvText(v: string, db: string)
    ensures "sqlsrv:Server=" + v + ";Database=" + db
         == "sqlsrv" + [':'] + Implode(["Server" + "=" + v, "Database" + "=" + db] + [], ';')
    ensures "sqlsrv:Server=" + v == "sqlsrv" + [':'] + Implode(["Server" + "=" + v], ';')
  {
    assert "sqlsrv:Server=" == "sqlsrv" + [':'] + "Server" + "=";
    assert ";Database=" == [';'] + "Database" + "=";
    TwoParams("sqlsrv", "Server", v, "Database", db, []);
  }

  /** The dblib DSN of a configuration, `dblib:host=H[,P];dbname=D`, reads back its
      database. */
  lemma DblibRoundTrip(lib: Lib, driver: Value, c: DbConfig)
    requires driver == Str("sqlsrv") || driver == Str("dblib")
    requires Plain(ToText(lib, c.host)) && Plain(ToText(lib, c.database)) && Plain(ToText(lib, c.port))
    ensures GetDsn(lib, driver, c, true).Ok?
    ensures DbNameFromDsn(GetDsn(lib, driver, c, true).value) == Some(ToText(lib, c.database))
  {
    var db := ToText(lib, c.database);
    var v := ToText(lib, c.host) + CommaPort(lib, c);
    SqlServerDsn(lib, driver, c, true);
    CommaPortPlain(lib, c);
    DblibText(v, db);
    DbNameOfSecondParam("dblib", "host", v, "dbname", db, []);
  }

  /** The sqlsrv DSN of a configuration reads back its database when one is configured, and
      null otherwise. */
  lemma SqlsrvRoundTrip(lib: Lib, driver: Value, c: DbConfig)
    requires driver == Str("sqlsrv") || driver == Str("dblib")
    requires Plain(ToText(lib, c.host)) && Plain(ToText(lib, c.database)) && Plain(ToText(lib, c.port))
    ensures GetDsn(lib, driver, c, false).Ok?
    ensures DbNameFromDsn(GetDsn(lib, driver, c, false).value)
         == if Empty(c.database) then None else Some(ToText(lib, c.database))
  {
    var db := ToText(lib, c.database);
    var v := ToText(lib, c.host) + CommaPort(lib, c);
    SqlServerDsn(lib, driver, c, false);
    CommaPortPlain(lib, c);
    SqlsrvText(v, db);
    if Empty(c.database) {
      ServerOnly(v);
    } else {
      SqlsrvKeys();
      DbNameOfSecondParam("sqlsrv", "Server", v, "Database", db, []);
    }
  }

  lemma SqlsrvKeys()
    ensures Plain("sqlsrv") && Plain("Server") && Plain("Database")
    ensures !NamesDb(Param("Server", None)) && NamesDb(Param("Database", None))
  {
  }

  /** `sqlsrv:Server=S` names no database. */
  lemma ServerOnly(v: string)
    requires Plain(v)
    ensures DbNameFromDsn("sqlsrv" + [':'] + Implode(["Server" + "=" + v], ';')) == None
  {
    PlainPair("Server", v);
    ParseKeyValue("Server", v);
    DbNameOfPieces("sqlsrv", ["Server" + "=" + v]);
  }

  /** The sqlite DSN `sqlite:D` has a single parameter without '=', so no database name is
      read back from it. */
  lemma SqliteHasNoDbName(lib: Lib, c: DbConfig, dblib: bool)
    requires Plain(ToText(lib, c.database))
    ensures GetDsn(lib, Str("sqlite"), c, dblib).Ok?
    ensures DbNameFromDsn(GetDsn(lib, Str("sqlite"), c, dblib).value) == None
  {
    var db := ToText(lib, c.database);
    assert "sqlite:" == "sqlite" + [':'];
    assert Implode([db], ';') == db;
    assert GetDsn(lib, Str("sqlite"), c, dblib).value == "sqlite" + [':'] + Implode([db], ';');
    ExplodeWhole(db, '=');
    DbNameOfPieces("sqlite", [db]);
  }

  /** The connection handle: a PDO object handed in, or one opened on a DSN. */
  datatype Handle = Supplied(id: nat) | Opened(dsn: string)

  /** The constructor's first argument, by its PHP type. */
  datatype ConnectArg = GivenPdo(id: nat) | GivenDsn(dsn: string) | GivenConfig(config: Assoc) | GivenOther

  /** What the connector depends on outside itself: the PHP library, whether `new \PDO($dsn)`
      succeeds on a DSN, and whether the dblib driver is available. */
  datatype Env = Env(lib: Lib, opens: string -> bool, dblibAvailable: bool)

  const NoDbName := "You should provide DB name"

  /** `initConnection($connect, $dbName)`: the handle and the database name it settles on, or
      None when the argument is of no type it handles and nothing is set. A configuration goes
      through `parseConfigArray`, which builds a DSN and connects with it and no name. */
  function Connection(env: Env, arg: ConnectArg, name: Option<string>): (r: Result<Option<(Handle, Option<string>)>>)
    decreases if arg.GivenConfig? then 1 else 0
    ensures (r.Ok? && r.value.None?) <==> arg.GivenOther?
    ensures arg.GivenPdo? ==> (r.Err? <==> name.None?)
    ensures arg.GivenDsn? ==> (r.Err? <==> !env.opens(arg.dsn))
    ensures r.Err? && arg.GivenPdo? ==> r.error == InvalidArgument(NoDbName)
    ensures r.Err? && arg.GivenDsn? ==> r.error == ConnectFailed
    ensures r.Ok? && r.value.Some? && arg.GivenPdo? ==> r.value.value == (Supplied(arg.id), name)
    ensures r.Ok? && r.value.Some? && !arg.GivenPdo? ==>
      var (h, db) := r.value.value; h.Opened? && db == DbNameFromDsn(h.dsn)
  {
    match arg
    case GivenPdo(id) =>
      if name.None? then Err(InvalidArgument(NoDbName)) else Ok(Some((Supplied(id), name)))
    case GivenDsn(dsn) =>
      if env.opens(dsn) then Ok(Some((Opened(dsn), DbNameFromDsn(dsn)))) else Err(ConnectFailed)
    case GivenConfig(config) =>
      var (driver, c) := ParseConfig(config);
      var dsn := GetDsn(env.lib, driver, c, env.dblibAvailable);
      if dsn.Err? then Err(dsn.error) else Connection(env, GivenDsn(dsn.value), None)
    case GivenOther => Ok(None)
  }

  /** A configuration connects exactly as its DSN does, and fails with `getDsn`'s error when it
      names no supported driver; the name given alongside plays no part. */
  lemma ConfigConnectsThroughDsn(env: Env, config: Assoc, name: Option<string>)
    ensures var (driver, c) := ParseConfig(config);
      var dsn := GetDsn(env.lib, driver, c, env.dblibAvailable);
      && (dsn.Err? ==> Connection(env, GivenConfig(config), name) == Err(InvalidArgument(UnsupportedDriver)))
      && (dsn.Ok? ==> Connection(env, GivenConfig(config), name) == Connection(env, GivenDsn(dsn.value), name))
  {
  }

  /** A mysql configuration whose values hold no separator connects with its own database as
      the database name, when the DSN opens. */
  lemma MysqlConfigDbName(env: Env, config: Assoc, name: Option<string>)
    requires var (driver, c) := ParseConfig(config);
      && driver == Str("mysql")
      && Plain(ToText(env.lib, c.host)) && Plain(ToText(env.lib, c.database))
      && Plain(ToText(env.lib, c.port)) && Plain(ToText(env.lib, c.unixSocket))
    ensures var (driver, c) := ParseConfig(config);
      var dsn := GetDsn(env.lib, driver, c, env.dblibAvailable);
      && dsn.Ok?
      && Connection(env, GivenConfig(config), name)
         == if env.opens(dsn.value) then Ok(Some((Opened(dsn.value), Some(ToText(env.lib, c.database)))))
            else Err(ConnectFailed)
  {
    var (driver, c) := ParseConfig(config);
    MysqlRoundTrip(env.lib, c, env.dblibAvailable);
  }

  /** The connector's state: `$connect` and `$dbName`, both null until a connection is made. */
  class PdoConnector {
    var connect: Option<Handle>
    var dbName: Option<string>

    /** The object before `initConnection` runs: both properties null. */
    constructor Unset()
      ensures connect == None && dbName == None
    {
      connect := None;
      dbName := None;
    }

    /** `new PDOConnector($connect, $dbName)`: a connector in the state `initConnection`
        settles on, or the exception it throws. */
    static method Create(env: Env, arg: ConnectArg, name: Option<string>) returns (r: Result<PdoConnector>)
      ensures var c := Connection(env, arg, name);
        && (r.Err? <==> c.Err?)
        && (r.Err? ==> r.error == c.error)
        && (r.Ok? ==>
              && fresh(r.value)
              && r.value.connect == (if c.value.Some? then Some(c.value.value.0) else None)
              && r.value.dbName == (if c.value.Some? then c.value.value.1 else None))
    {
      var conn := new PdoConnector.Unset();
      var res := conn.InitConnection(env, arg, name);
      if res.Err? {
        r := Err(res.error);
      } else {
        r := Ok(conn);
      }
    }

    /** `initConnection($connect, $dbName)`: sets both properties as `Connection` says, and
        leaves them as they were when it throws or when the argument is of no handled type. */
    method InitConnection(env: Env, arg: ConnectArg, name: Option<string>) returns (r: Result<()>)
      modifies this
      decreases if arg.GivenConfig? then 2 else 0
      ensures var c := Connection(env, arg, name);
        && (r.Err? <==> c.Err?)
        && (r.Err? ==> r.error == c.error)
        && (c.Ok? && c.value.Some? ==> connect == Some(c.value.value.0) && dbName == c.value.value.1)
        && (c.Err? || c.value.None? ==> connect == old(connect) && dbName == old(dbName))
    {
      match arg
      case GivenPdo(id) =>
        if name.None? {
          return Err(InvalidArgument(NoDbName));
        }
        connect := Some(Supplied(id));
        dbName := name;
        r := Ok(());
      case GivenDsn(dsn) =>
        if !env.opens(dsn) {
          return Err(ConnectFailed);
        }
        connect := Some(Opened(dsn));
        dbName := GetDbNameFromDsn(dsn);
        r := Ok(());
      case GivenConfig(config) =>
        r := ParseConfigArray(env, config);
      case GivenOther =>
        r := Ok(());
    }

    /** `parseConfigArray($connect)`: connects with the DSN `getDsn` builds from the
        configuration. */
    method ParseConfigArray(env: Env, config: Assoc) returns (r: Result<()>)
      modifies this
      decreases 1
      ensures var c := Connection(env, GivenConfig(config), None);
        && (r.Err? <==> c.Err?)
        && (r.Err? ==> r.error == c.error)
        && (c.Ok? ==> connect == Some(c.value.value.0) && dbName == c.value.value.1)
        && (c.Err? ==> connect == old(connect) && dbName == old(dbName))
    {
      var (driver, c) := ParseConfig(config);
      var dsn := GetDsn(env.lib, driver, c, env.dblibAvailable);
      if dsn.Err? {
        return Err(dsn.error);
      }
      r := InitConnection(env, GivenDsn(dsn.value), None);
    }

    /** `pdo()`. */
    function Pdo(): Option<Handle>
      reads this
    {
      connect
    }

    /** `dbName()`. */
    function DbName(): Option<string>
      reads this
    {
      dbName
    }
  }
}
