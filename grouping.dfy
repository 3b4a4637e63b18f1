/** How `read` groups the rows of its second query by `error_id` (Storage/Pdo.php, lines
    205-216): PHP array keys, `$pool[$key][] = $x`, and the grouping it produces. */
module Grouping {
  import opened Values
  import opened Tables

  /** A PHP array key. */
  datatype Key = IntKey(i: int) | StrKey(s: string)

  /** What a value becomes as an array key: null is "", booleans and integers are integers, a
      string spelling an integer in canonical decimal form is that integer, any other string
      stays a string; an object or an array is an illegal offset (None). */
  function ArrayKey(v: Value): (k: Option<Key>)
    ensures k.None? <==> v.Date? || v.Arr?
  {
    match v
    case Null => Some(StrKey(""))
    case Bool(b) => Some(IntKey(if b then 1 else 0))
    case Int(i) => Some(IntKey(i))
    case Str(s) => if IntToString(StrToInt(s)) == s then Some(IntKey(StrToInt(s))) else Some(StrKey(s))
    case Date(_) => None
    case Arr(_) => None
  }

  lemma {:induction false} LeadingDigitsAppend(s: string, d: char, acc: nat)
    requires forall i | 0 <= i < |s| :: IsDigit(s[i])
    requires IsDigit(d)
    ensures LeadingDigits(s + [d], acc) == LeadingDigits(s, acc) * 10 + (d as int - '0' as int)
  {
    if s != [] {
      assert (s + [d])[1..] == s[1..] + [d];
      LeadingDigitsAppend(s[1..], d, acc * 10 + (s[0] as int - '0' as int));
    }
  }

  lemma {:induction false} DigitCharValue(d: nat)
    requires d < 10
    ensures IsDigit(DigitChar(d)) && DigitChar(d) as int - '0' as int == d
  {
  }

  /** Reading back the decimal digits of `n`. */
  lemma {:induction false} LeadingDigitsOfNat(n: nat)
    ensures LeadingDigits(NatToString(n), 0) == n
    decreases n
  {
    DigitCharValue(n % 10);
    if n < 10 {
      assert NatToString(n) == [DigitChar(n)];
    } else {
      LeadingDigitsOfNat(n / 10);
      LeadingDigitsAppend(NatToString(n / 10), DigitChar(n % 10), 0);
    }
  }

  /** `intval` reads back what integer-to-string conversion wrote. */
  lemma IntToStringRoundTrip(i: int)
    ensures StrToInt(IntToString(i)) == i
  {
    if i < 0 {
      var t := IntToString(i);
      assert t == "-" + NatToString(-i) && t[1..] == NatToString(-i);
      assert TrimLeft(t) == t;
      LeadingDigitsOfNat(-i);
    } else {
      var t := NatToString(i);
      assert IsDigit(t[0]);
      assert TrimLeft(t) == t;
      LeadingDigitsOfNat(i);
    }
  }

  /** An integer id and its decimal string are the same array key, so rows whose `error_id`
      comes back as 5 or as "5" land in the same group. */
  lemma IntegerStringKey(i: int)
    ensures ArrayKey(Str(IntToString(i))) == ArrayKey(Int(i)) == Some(IntKey(i))
  {
    IntToStringRoundTrip(i);
  }

  /** `$pool[$k][] = $x`: appends to the group under `k`, or opens a new group at the end. */
  function AddTo<T>(pool: seq<(Key, seq<T>)>, k: Key, x: T): (r: seq<(Key, seq<T>)>)
    ensures |r| == |pool| || |r| == |pool| + 1
  {
    if pool == [] then [(k, [x])]
    else if pool[0].0 == k then [(k, pool[0].1 + [x])] + pool[1..]
    else [pool[0]] + AddTo(pool[1..], k, x)
  }

  function KeysOf<T>(pool: seq<(Key, seq<T>)>): (ks: seq<Key>)
    ensures |ks| == |pool| && forall g | 0 <= g < |pool| :: ks[g] == pool[g].0
  {
    if pool == [] then [] else [pool[0].0] + KeysOf(pool[1..])
  }

  ghost predicate DistinctKeys<T>(pool: seq<(Key, seq<T>)>)
  {
    forall g, h | 0 <= g < h < |pool| :: pool[g].0 != pool[h].0
  }

  /** `$pool[$k][] = $x` keeps the keys, in order, adding `k` last when it is new. */
  lemma {:induction false} AddToKeys<T>(pool: seq<(Key, seq<T>)>, k: Key, x: T)
    ensures KeysOf(AddTo(pool, k, x)) == if k in KeysOf(pool) then KeysOf(pool) else KeysOf(pool) + [k]
  {
    if pool != [] {
      var rest := pool[1..];
      AddToKeys(rest, k, x);
      assert KeysOf(pool) == [pool[0].0] + KeysOf(rest);
      if pool[0].0 != k {
        assert KeysOf(AddTo(pool, k, x)) == [pool[0].0] + KeysOf(AddTo(rest, k, x));
        if k !in KeysOf(rest) {
          assert [pool[0].0] + (KeysOf(rest) + [k]) == ([pool[0].0] + KeysOf(rest)) + [k];
        }
      }
    }
  }

  /** With distinct keys, each existing group is extended when it is the one under `k`, and
      kept otherwise. */
  lemma {:induction false} AddToGroups<T>(pool: seq<(Key, seq<T>)>, k: Key, x: T)
    requires DistinctKeys(pool)
    ensures k !in KeysOf(pool) ==> AddTo(pool, k, x) == pool + [(k, [x])]
    ensures forall g | 0 <= g < |pool| ::
      AddTo(pool, k, x)[g] == if pool[g].0 == k then (k, pool[g].1 + [x]) else pool[g]
  {
    if pool != [] {
      var rest := pool[1..];
      assert DistinctKeys(rest) by {
        forall g, h | 0 <= g < h < |rest| ensures rest[g].0 != rest[h].0 {
          assert rest[g] == pool[g + 1] && rest[h] == pool[h + 1];
        }
      }
      AddToGroups(rest, k, x);
      assert KeysOf(pool) == [pool[0].0] + KeysOf(rest);
      if pool[0].0 == k {
        forall g | 1 <= g < |pool| ensures pool[g].0 != k {
          assert pool[0].0 != pool[g].0;
        }
      } else {
        assert AddTo(pool, k, x) == [pool[0]] + AddTo(rest, k, x);
      }
    }
  }

  /** With distinct keys, `$pool[$k][] = $x` extends exactly the group under `k` (or opens it
      last), leaves every other group as it was, and keeps the keys distinct. */
  lemma AddToSpec<T>(pool: seq<(Key, seq<T>)>, k: Key, x: T)
    requires DistinctKeys(pool)
    ensures DistinctKeys(AddTo(pool, k, x))
    ensures k in KeysOf(pool) ==> |AddTo(pool, k, x)| == |pool|
    ensures k !in KeysOf(pool) ==> AddTo(pool, k, x) == pool + [(k, [x])]
    ensures forall g | 0 <= g < |pool| ::
      AddTo(pool, k, x)[g] == if pool[g].0 == k then (k, pool[g].1 + [x]) else pool[g]
  {
    AddToKeys(pool, k, x);
    AddToGroups(pool, k, x);
    var r := AddTo(pool, k, x);
    var ks := KeysOf(pool);
    forall g, h | 0 <= g < h < |r| ensures r[g].0 != r[h].0 {
      assert r[g].0 == KeysOf(r)[g] && r[h].0 == KeysOf(r)[h];
      if h == |pool| {
        assert KeysOf(r)[h] == k && KeysOf(r)[g] == ks[g];
      }
    }
  }

  /** The group key of a fetched row: its `error_id` as an array key. */
  function RowKey(row: Row): Option<Key>
  {
    ArrayKey(Get(row, "error_id"))
  }

  predicate Keyed(rows: seq<Row>)
  {
    forall i | 0 <= i < |rows| :: RowKey(rows[i]).Some?
  }

  /** The rows of `read`'s pool, grouped by `error_id` the way the loop fills `$pool`. */
  function GroupRows(rows: seq<Row>): seq<(Key, seq<Row>)>
    requires Keyed(rows)
  {
    if rows == [] then []
    else
      var last := rows[|rows| - 1];
      AddTo(GroupRows(rows[..|rows| - 1]), RowKey(last).value, last)
  }

  /** The rows whose key is `k`, in fetch order. */
  function Select(rows: seq<Row>, k: Key): seq<Row>
  {
    if rows == [] then []
    else
      var last := rows[|rows| - 1];
      Select(rows[..|rows| - 1], k) + (if RowKey(last) == Some(k) then [last] else [])
  }

  /** The grouping `read` performs: the group keys are distinct and are exactly the keys of the
      fetched rows; each group is non-empty and holds exactly the rows with its key, in fetch
      order, so every row lands in exactly one group. */
  lemma {:induction false} GroupRowsSpec(rows: seq<Row>)
    requires Keyed(rows)
    ensures DistinctKeys(GroupRows(rows))
    ensures forall i | 0 <= i < |rows| :: RowKey(rows[i]).value in KeysOf(GroupRows(rows))
    ensures forall g | 0 <= g < |GroupRows(rows)| ::
      GroupRows(rows)[g].1 == Select(rows, GroupRows(rows)[g].0) && GroupRows(rows)[g].1 != []
  {
    if rows != [] {
      var init := rows[..|rows| - 1];
      var last := rows[|rows| - 1];
      assert rows == init + [last];
      assert Keyed(init);
      GroupRowsSpec(init);
      AddToSpec(GroupRows(init), RowKey(last).value, last);
      GroupStepCovers(init, last);
      GroupStepSelects(init, last);
    }
  }

  /** One more row: every row's key is still a group key. */
  lemma GroupStepCovers(init: seq<Row>, last: Row)
    requires Keyed(init + [last]) && Keyed(init)
    requires forall i | 0 <= i < |init| :: RowKey(init[i]).value in KeysOf(GroupRows(init))
    ensures forall i | 0 <= i < |init + [last]| :: RowKey((init + [last])[i]).value in KeysOf(GroupRows(init + [last]))
  {
    var rows := init + [last];
    assert rows[..|rows| - 1] == init && rows[|rows| - 1] == last;
    var k := RowKey(last).value;
    AddToKeys(GroupRows(init), k, last);
    assert k in KeysOf(GroupRows(rows));
    forall i | 0 <= i < |rows| ensures RowKey(rows[i]).value in KeysOf(GroupRows(rows)) {
      if i < |init| {
        assert rows[i] == init[i];
      }
    }
  }

  /** One more row: each group still holds exactly the rows with its key, and is non-empty. */
  lemma GroupStepSelects(init: seq<Row>, last: Row)
    requires Keyed(init + [last]) && Keyed(init)
    requires DistinctKeys(GroupRows(init))
    requires forall i | 0 <= i < |init| :: RowKey(init[i]).value in KeysOf(GroupRows(init))
    requires forall g | 0 <= g < |GroupRows(init)| ::
      GroupRows(init)[g].1 == Select(init, GroupRows(init)[g].0) && GroupRows(init)[g].1 != []
    ensures forall g | 0 <= g < |GroupRows(init + [last])| ::
      GroupRows(init + [last])[g].1 == Select(init + [last], GroupRows(init + [last])[g].0)
      && GroupRows(init + [last])[g].1 != []
  {
    var rows := init + [last];
    assert rows[..|rows| - 1] == init && rows[|rows| - 1] == last;
    var k := RowKey(last).value;
    var p := GroupRows(init);
    var r := GroupRows(rows);
    assert r == AddTo(p, k, last);
    AddToKeys(p, k, last);
    AddToGroups(p, k, last);
    forall g | 0 <= g < |r| ensures r[g].1 == Select(rows, r[g].0) && r[g].1 != [] {
      if g < |p| {
        assert Select(rows, p[g].0) == Select(init, p[g].0) + (if k == p[g].0 then [last] else []);
      } else {
        assert r == p + [(k, [last])];
        SelectNone(init, k);
      }
    }
  }

  /** No row has key `k`: nothing is selected. */
  lemma {:induction false} SelectNone(rows: seq<Row>, k: Key)
    requires forall i | 0 <= i < |rows| :: RowKey(rows[i]) != Some(k)
    ensures Select(rows, k) == []
  {
    if rows != [] {
      SelectNone(rows[..|rows| - 1], k);
    }
  }

  /** What the Backend constructor is handed as its `array $data` argument. */
  datatype Argument = ArrayArg(entries: Assoc) | ObjectArg(properties: Row)

  /** The constructor's parameter type: an array is accepted, an object (a `FETCH_OBJ` row)
      raises a TypeError. */
  function ConstructorData(arg: Argument): (r: Result<Assoc>)
    ensures r.Ok? <==> arg.ArrayArg?
  {
    match arg
    case ArrayArg(a) => Ok(a)
    case ObjectArg(_) => Err(TypeMismatch)
  }

  /** The row objects passed as they are, as line 208 does. */
  function AsObject(row: Row): Argument { ObjectArg(row) }

  /** The row cast with `(array)`, as getErrorItem does on line 73. */
  function AsArray(row: Row): Argument { ArrayArg(row) }

  /** The loop filling `$pool`: each fetched row is handed to the constructor in the form `pass`
      gives, then filed under its `error_id`. */
  function BuildPool(fetched: seq<Row>, pass: Row -> Argument): Result<seq<(Key, seq<Assoc>)>>
  {
    if fetched == [] then Ok([])
    else
      var last := fetched[|fetched| - 1];
      match BuildPool(fetched[..|fetched| - 1], pass)
      case Err(e) => Err(e)
      case Ok(pool) =>
        match ConstructorData(pass(last))
        case Err(e) => Err(e)
        case Ok(data) =>
          match RowKey(last)
          case None => Err(IllegalOffset)
          case Some(k) => Ok(AddTo(pool, k, data))
  }

  /** As written, `read` fails with a TypeError as soon as its second query returns a row. */
  lemma {:induction false} PoolAsWrittenFails(fetched: seq<Row>)
    ensures fetched != [] ==> BuildPool(fetched, AsObject) == Err(TypeMismatch)
    ensures fetched == [] ==> BuildPool(fetched, AsObject) == Ok([])
  {
    if fetched != [] {
      PoolAsWrittenFails(fetched[..|fetched| - 1]);
    }
  }

  /** With the `(array)` cast, the pool is the grouping of the fetched rows, unless some
      `error_id` is an illegal offset. */
  lemma {:induction false} PoolWithCastGroups(fetched: seq<Row>)
    ensures Keyed(fetched) ==> BuildPool(fetched, AsArray) == Ok(GroupRows(fetched))
    ensures !Keyed(fetched) ==> BuildPool(fetched, AsArray) == Err(IllegalOffset)
  {
    if fetched != [] {
      var init := fetched[..|fetched| - 1];
      PoolWithCastGroups(init);
      if !Keyed(init) {
        var i :| 0 <= i < |init| && RowKey(init[i]).None?;
        assert fetched[i] == init[i];
      }
      if Keyed(init) && RowKey(fetched[|fetched| - 1]).Some? {
        assert forall i | 0 <= i < |fetched| :: RowKey(fetched[i]).Some? by {
          forall i | 0 <= i < |fetched| ensures RowKey(fetched[i]).Some? {
            if i < |init| { assert fetched[i] == init[i]; }
          }
        }
      }
    }
  }
}
