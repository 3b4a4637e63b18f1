/** PHP values and the few PHP and library primitives the error tracker relies on.
    Library behaviour (serialize, unserialize, Carbon, print_r) is not defined here:
    it is a `Lib` value handed to the model, and `Lawful` states what the model
    assumes of it. */
module Values {

  datatype Option<T> = None | Some(value: T)

  /** Why an operation stopped: an exception or a fatal error in the source. */
  datatype Failure =
    | InvalidArgument(message: string)  // \InvalidArgumentException
    | StatementFailed                   // a PDO statement failed twice, or the migration threw
    | CallOnNull                        // a method called on the null a retried statement leaves behind
    | CallOnBool                        // a method called on the `false` of a missing occurrence
    | MissingIndex                      // `$this->errors[0]` on an empty list
    | IllegalOffset                     // an object or array used as an array key
    | ClassNotFound                     // `new $class` for a class that does not exist
    | ConnectFailed                     // `new \PDO($dsn)` threw
    | TypeMismatch                      // an argument refused by a parameter's declared type

  datatype Result<T> = Ok(value: T) | Err(error: Failure)

  /** A PHP value. `Date` is a Carbon instance, given by its timestamp;
      `Arr` is a PHP array with string keys, in insertion order. */
  datatype Value =
    | Null
    | Bool(b: bool)
    | Int(i: int)
    | Str(s: string)
    | Date(t: int)
    | Arr(entries: seq<(string, Value)>)

  /** A PHP array with string keys, kept in insertion order. */
  type Assoc = seq<(string, Value)>

  function Keys(a: Assoc): (ks: seq<string>)
    ensures |ks| == |a| && forall i :: 0 <= i < |a| ==> ks[i] == a[i].0
  {
    if a == [] then [] else [a[0].0] + Keys(a[1..])
  }

  /** `$a[$k] ?? null`: the value stored under `k`, null when absent. */
  function Get(a: Assoc, k: string): Value
  {
    if a == [] then Null else if a[0].0 == k then a[0].1 else Get(a[1..], k)
  }

  /** `$a[$k] = $v`: replaces the value in place when `k` is present, appends otherwise. */
  function Put(a: Assoc, k: string, v: Value): (r: Assoc)
    ensures Get(r, k) == v
    ensures forall j :: j != k ==> Get(r, j) == Get(a, j)
    ensures k in Keys(a) ==> Keys(r) == Keys(a)
    ensures k !in Keys(a) ==> Keys(r) == Keys(a) + [k]
  {
    if a == [] then [(k, v)]
    else if a[0].0 == k then [(k, v)] + a[1..]
    else
      var r := [a[0]] + Put(a[1..], k, v);
      assert Keys(r) == [a[0].0] + Keys(Put(a[1..], k, v));
      r
  }

  /** After `$a[$k] = $v` the array holds `k` and every key it held before. */
  lemma PutKeepsKeys(a: Assoc, k: string, v: Value)
    ensures k in Keys(Put(a, k, v)) && forall f | f in Keys(a) :: f in Keys(Put(a, k, v))
  {
    if k !in Keys(a) {
      assert Keys(Put(a, k, v)) == Keys(a) + [k];
    }
  }

  lemma {:induction false} GetAbsent(a: Assoc, k: string)
    requires k !in Keys(a)
    ensures Get(a, k) == Null
  {
    if a != [] {
      assert Keys(a) == [a[0].0] + Keys(a[1..]);
      GetAbsent(a[1..], k);
    }
  }

  /** `$a[$k] = $v` for a key not yet present appends the pair at the end. */
  lemma {:induction false} PutAbsent(a: Assoc, k: string, v: Value)
    requires k !in Keys(a)
    ensures Put(a, k, v) == a + [(k, v)]
  {
    if a != [] {
      assert Keys(a) == [a[0].0] + Keys(a[1..]);
      assert a[0].0 != k && k !in Keys(a[1..]);
      assert Put(a, k, v) == [a[0]] + Put(a[1..], k, v);
      PutAbsent(a[1..], k, v);
      assert [a[0]] + (a[1..] + [(k, v)]) == a + [(k, v)];
    }
  }

  lemma {:induction false} GetPresent(a: Assoc, i: nat)
    requires i < |a|
    requires forall j :: 0 <= j < i ==> a[j].0 != a[i].0
    ensures Get(a, a[i].0) == a[i].1
  {
    if i > 0 {
      GetPresent(a[1..], i - 1);
    }
  }

  /** `Arr::only($a, $keys)`: the entries whose key is listed, in their original order. */
  function Only(a: Assoc, keys: seq<string>): (r: Assoc)
    ensures |r| <= |a|
  {
    if a == [] then []
    else (if a[0].0 in keys then [a[0]] else []) + Only(a[1..], keys)
  }

  /** `count(Arr::only($a, $keys)) > 0` exactly when one of the keys is present. */
  lemma {:induction false} OnlyNonEmpty(a: Assoc, keys: seq<string>)
    ensures |Only(a, keys)| > 0 <==> exists k :: k in keys && k in Keys(a)
  {
    if a != [] {
      OnlyNonEmpty(a[1..], keys);
      assert Keys(a) == [a[0].0] + Keys(a[1..]);
      if a[0].0 in keys {
        assert a[0].0 in Keys(a);
      }
    }
  }

  /** `Arr::only` keeps a listed key's value and drops every key not listed. */
  lemma {:induction false} OnlyGet(a: Assoc, keys: seq<string>, k: string)
    ensures k in keys ==> Get(Only(a, keys), k) == Get(a, k)
    ensures k in Keys(Only(a, keys)) <==> k in keys && k in Keys(a)
  {
    if a != [] {
      OnlyGet(a[1..], keys, k);
      assert Keys(a) == [a[0].0] + Keys(a[1..]);
      var rest := Only(a[1..], keys);
      if a[0].0 in keys {
        assert Keys([a[0]] + rest) == [a[0].0] + Keys(rest);
      } else {
        assert Only(a, keys) == rest;
      }
    }
  }

  ghost predicate NoDup<T>(xs: seq<T>)
  {
    forall i, j :: 0 <= i < j < |xs| ==> xs[i] != xs[j]
  }

  /** The collaborators the core calls but does not define:
      - serialize / serializable: PHP `serialize`; `serializable(v)` is false when it throws;
      - unserialize: PHP `unserialize`, None where PHP returns false for a failure;
      - carbon: `new \Carbon\Carbon($v)`, giving a timestamp;
      - format: `->format('Y-m-d H:i:s')`, also what a Carbon instance turns into as a string;
      - printR: `print_r($v, true)`. */
  datatype Lib = Lib(
    serialize: Value -> string,
    serializable: Value -> bool,
    unserialize: string -> Option<Value>,
    carbon: Value -> int,
    format: int -> string,
    printR: Value -> string)

  /** What the model assumes of the library: decoding inverts encoding, strings always
      encode, "b:0;" is the one and only encoding of `false`, and `print_r(null, true)` is "". */
  ghost predicate Lawful(lib: Lib)
  {
    && (forall v | lib.serializable(v) :: lib.unserialize(lib.serialize(v)) == Some(v))
    && (forall s :: lib.serializable(Str(s)))
    && (forall s :: lib.unserialize(s) == Some(Bool(false)) <==> s == "b:0;")
    && lib.printR(Null) == ""
  }

  /** What PHP's `@unserialize($s)` evaluates to: the decoded value, or `false` on failure.
      A `false` result is ambiguous: the string failed to decode, or it encoded `false`. */
  function Unserialize(lib: Lib, s: string): (r: Value)
    ensures r != Bool(false) ==> lib.unserialize(s) == Some(r)
    ensures r == Bool(false) <==> lib.unserialize(s) == None || lib.unserialize(s) == Some(Bool(false))
  {
    match lib.unserialize(s)
    case Some(v) => v
    case None => Bool(false)
  }

  /** Under the library's laws, decoding what was encoded gives the value back. */
  lemma UnserializeSerialized(lib: Lib, v: Value)
    requires Lawful(lib) && lib.serializable(v)
    ensures Unserialize(lib, lib.serialize(v)) == v
  {
  }

  /** Under the library's laws, PHP's test `$check !== false || $s === 'b:0;'`
      holds exactly when the string decodes. */
  lemma DecodeTest(lib: Lib, s: string)
    requires Lawful(lib)
    ensures (Unserialize(lib, s) != Bool(false) || s == "b:0;") <==> lib.unserialize(s).Some?
  {
  }

  /** PHP `empty($v)`. */
  predicate Empty(v: Value)
  {
    match v
    case Null => true
    case Bool(b) => !b
    case Int(i) => i == 0
    case Str(s) => s == "" || s == "0"
    case Date(_) => false
    case Arr(e) => e == []
  }

  predicate IsDigit(c: char) { '0' <= c <= '9' }

  /** The value of the longest run of decimal digits at the start of `s`. */
  function LeadingDigits(s: string, acc: nat): nat
  {
    if s == [] || !IsDigit(s[0]) then acc
    else LeadingDigits(s[1..], acc * 10 + (s[0] as int - '0' as int))
  }

  predicate IsSpace(c: char) { c == ' ' || c == '\t' || c == '\n' || c == '\r' || c == '\U{000B}' || c == '\U{000C}' }

  function TrimLeft(s: string): (r: string)
    ensures |r| <= |s|
  {
    if s != [] && IsSpace(s[0]) then TrimLeft(s[1..]) else s
  }

  /** `intval` of a string: optional leading white space and sign, then the leading digits; 0 when there are none. */
  function StrToInt(s: string): int
  {
    var t := TrimLeft(s);
    if t != [] && t[0] == '-' then 0 - LeadingDigits(t[1..], 0)
    else if t != [] && t[0] == '+' then LeadingDigits(t[1..], 0)
    else LeadingDigits(t, 0)
  }

  /** PHP `intval($v)`. */
  function IntVal(v: Value): int
  {
    match v
    case Null => 0
    case Bool(b) => if b then 1 else 0
    case Int(i) => i
    case Str(s) => StrToInt(s)
    case Date(_) => 1
    case Arr(e) => if e == [] then 0 else 1
  }

  function DigitChar(d: nat): char
    requires d < 10
  {
    ['0', '1', '2', '3', '4', '5', '6', '7', '8', '9'][d]
  }

  function NatToString(n: nat): (r: string)
    ensures r != []
    ensures forall i :: 0 <= i < |r| ==> IsDigit(r[i])
    decreases n
  {
    if n < 10 then [DigitChar(n)] else NatToString(n / 10) + [DigitChar(n % 10)]
  }

  function IntToString(i: int): string
  {
    if i < 0 then "-" + NatToString(-i) else NatToString(i)
  }

  /** What a value becomes inside a double-quoted string or under `%s`. */
  function ToText(lib: Lib, v: Value): string
  {
    match v
    case Null => ""
    case Bool(b) => if b then "1" else ""
    case Int(i) => IntToString(i)
    case Str(s) => s
    case Date(t) => lib.format(t)
    case Arr(_) => "Array"
  }

  function LowerChar(c: char): (r: char)
  {
    if 'A' <= c <= 'Z' then (c as int + 32) as char else c
  }

  function UpperChar(c: char): (r: char)
  {
    if 'a' <= c <= 'z' then (c as int - 32) as char else c
  }

  /** `strtolower` on ASCII letters. */
  function Lower(s: string): (r: string)
    ensures |r| == |s|
  {
    seq(|s|, i requires 0 <= i < |s| => LowerChar(s[i]))
  }

  /** The lower case of a string is the same string up to case, with no upper-case letter left;
      a string without upper-case letters is its own lower case. */
  lemma LowerIsLowerCase(s: string)
    ensures forall i :: 0 <= i < |s| ==> !('A' <= Lower(s)[i] <= 'Z') && UpperChar(Lower(s)[i]) == UpperChar(s[i])
    ensures (forall i :: 0 <= i < |s| ==> !('A' <= s[i] <= 'Z')) ==> Lower(s) == s
  {
  }

  /** `ucfirst` on ASCII letters: the first character is the same up to case and not a
      lower-case letter; every other character is kept. */
  function UcFirst(s: string): (r: string)
    ensures |r| == |s|
    ensures forall i :: 1 <= i < |s| ==> r[i] == s[i]
    ensures s != [] ==> !('a' <= r[0] <= 'z') && LowerChar(r[0]) == LowerChar(s[0])
  {
    if s == [] then [] else [UpperChar(s[0])] + s[1..]
  }

  lemma LowerIdempotent(s: string)
    ensures Lower(Lower(s)) == Lower(s)
  {
    assert forall i | 0 <= i < |s| :: Lower(Lower(s))[i] == Lower(s)[i];
  }
}
