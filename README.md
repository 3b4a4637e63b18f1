# Insectum error tracker: a Dafny model of its core

Insectum records application errors. An error is a record of a *kind* (the model closes the
kind set to `backend`, the one kind whose error class it models). An error has identity fields (kind, type, code, msg, file, line), occurrence fields
(method, url, stage, server name and address, backtrace, context, session, client address)
and system fields (`created_at`, `resolved_at`).

The storage deduplicates by identity. A write finds the stored row with the same identity or
inserts one, then appends an occurrence row that points at it. Reads page over the
errors ⟕ occurrences left join and group the fetched rows into log items. Counts count error
rows when no filter is given, and joined rows under a filter. A small connector turns a PDO
handle, a DSN or a configuration array into a connection, and reads the database name out of
the DSN. The `Log` facade maps its calls onto the storage.

The model follows the PHP code file by file:

| Dafny file | models |
|---|---|
| `values.dfy` | PHP values, arrays with string keys, `intval`, `strtolower`/`ucfirst`, `empty`, and the library primitives as a `Lib` value with their laws (`Lawful`) |
| `fields.dfy` | the pure part of `ContainerAbstract`: the accessor, its memo cache, `storableSet`/`toArray`, and `ensureSystemFields` on one list |
| `backend.dfy` | the Backend schema and `summary` |
| `records.dfy` | class `Record`: `ContainerAbstract` + `ErrorAbstract` + `Backend` (and the occurrence container) with their state |
| `items.dfy` | class `LogItem` with its lazily cached counters |
| `storage.dfy` | `StorageAbstract`'s constants, `getClassOfKind`, the table names |
| `tables.dfy` | the two tables, what each statement means on them, the left join and the filters |
| `grouping.dfy` | PHP array keys and the grouping `read` performs |
| `pdo.dfy` | class `PdoStorage`: `runStatement`, `getErrorItem`, `storeOccurrence`, `write`, `read`, `countErrors` and the totals |
| `connector.dfy` | `PDOConnector`: `getDbNameFromDsn`, `parseConfigArray`, `getDsn` and `initConnection` |
| `log.dfy` | class `Log` |

The code works on a database through an executor. That executor is an oracle here: it says
whether the n-th statement fails and whether the n-th migration throws. Each statement's
meaning is a function on the tables: an equality lookup, an insert of the listed columns, the
filtered join page, or a count. The library functions (`serialize`, `unserialize`, Carbon
parsing and formatting, `print_r`) are fields of `Lib`. The clock is a `now` parameter.

Where the code and its documented design disagree, the model follows the code.
`lastOccurrence` is meant to be the latest occurrence time. The code takes the first row's
value (`LogItem.php:61`), and so does the model.

## Model

| member | source | states |
|---|---|---|
| Values.Put | src/Insectum/Insectum/Storage/Pdo.php:304-305 | `$a[$k] = $v` sets `k` and leaves every other key; an existing key keeps its place, a new one is appended |
| Values.Only | src/Insectum/Insectum/Contracts/ErrorAbstract.php:85 | `Arr::only` keeps at most the entries it is given |
| Values.OnlyNonEmpty | src/Insectum/Insectum/Contracts/ErrorAbstract.php:85 | `count(Arr::only($data, $keys)) > 0` exactly when one of the keys is present |
| Values.OnlyGet | src/Insectum/Insectum/Storage/Pdo.php:64 | restricting to the listed keys keeps their values and drops every other key |
| Values.Unserialize | src/Insectum/Insectum/Contracts/ContainerAbstract.php:103 | a result other than `false` is what the string decodes to; `false` means the string failed to decode or encoded `false` |
| Values.UnserializeSerialized | src/Insectum/Insectum/Contracts/ContainerAbstract.php:186-204 | under the library's laws, decoding an encoded value gives it back |
| Values.DecodeTest | src/Insectum/Insectum/Contracts/ContainerAbstract.php:104 | under the library's laws, `$check !== false \|\| $v === 'b:0;'` holds exactly when the string decodes |
| Values.LowerIsLowerCase | src/Insectum/Insectum/Contracts/StorageAbstract.php:84 | `strtolower` gives the same string up to case with no upper-case letter left; a string with no upper-case letter is unchanged |
| Values.UcFirst | src/Insectum/Insectum/Contracts/StorageAbstract.php:84 | `ucfirst` keeps the length and every character after the first; the first is the same up to case and not a lower-case letter |
| Values.LowerIdempotent | src/Insectum/Insectum/Storage/Pdo.php:104 | lowering twice is lowering once |
| Fields.CombineDistinct | src/Insectum/Insectum/Contracts/ContainerAbstract.php:177 | with distinct keys, `array_combine` pairs the i-th key with the i-th value, in order |
| Fields.GetAll | src/Insectum/Insectum/Contracts/ContainerAbstract.php:75-77 | `array_map` of the accessor yields one value per listed field |
| Fields.AfterGetKeepsReads | src/Insectum/Insectum/Contracts/ContainerAbstract.php:93-110 | `__get` is memoised transparently: every field answers as before, and a second call changes nothing (a cached null is recomputed to the same null) |
| Fields.UnknownFieldIsNull | src/Insectum/Insectum/Contracts/ContainerAbstract.php:88-91 | a name outside the field list (other than `id`/`kind` on an error) reads as null and caches nothing |
| Fields.CoercionRules | src/Insectum/Insectum/Contracts/ContainerAbstract.php:97-107 | a non-null date field becomes a date; a serialized string is replaced by its decoded value exactly when it decodes; anything else comes back raw |
| Fields.GetAllAt | src/Insectum/Insectum/Contracts/ContainerAbstract.php:140-175 | each value of the mapped accessor is the value the record answered before the call, and the calls keep every answer |
| Fields.StorableShape | src/Insectum/Insectum/Contracts/ContainerAbstract.php:73-131 | `storable()` and `toArray()` have exactly the field list as keys, in order, holding the normalised and the plain accessor values |
| Fields.StoredField | src/Insectum/Insectum/Contracts/ContainerAbstract.php:128-131 | each schema field is a key of `storable()` and holds its normalised value |
| Fields.StorableSetSameReads | src/Insectum/Insectum/Contracts/ContainerAbstract.php:138-178 | `storableSet` depends only on what the accessor answers, so a second `storable()` repeats the first |
| Fields.NormalizeDate | src/Insectum/Insectum/Contracts/ContainerAbstract.php:146-152 | a date field holding a string or a date is stored as its "Y-m-d H:i:s" text; null stays null |
| Fields.NormalizePlain | src/Insectum/Insectum/Contracts/ContainerAbstract.php:170-172 | a plain field is always stored as a string: strings unchanged, other values as `print_r` text, null as "" |
| Fields.NormalizeSerialized | src/Insectum/Insectum/Contracts/ContainerAbstract.php:154-168 | a serialized field is stored as a decodable string, except on the `print_r` fallback; a decodable string is kept, an undecodable one is encoded and decodes back to itself |
| Fields.CountAppend | src/Insectum/Insectum/Contracts/ErrorAbstract.php:58-60 | appending adds one occurrence of the appended name and none of any other |
| Fields.CountZero | src/Insectum/Insectum/Contracts/ErrorAbstract.php:58 | a name occurs zero times exactly when `in_array` is false |
| Fields.SystemFieldsOnce | src/Insectum/Insectum/Contracts/ErrorAbstract.php:56-70 | after `ensureSystemFields` each system field occurs exactly once; the old entries stay as a prefix, only absent system fields are appended, and a second run changes nothing |
| BackendKind.SchemaFacts | src/Insectum/Insectum/Errors/Backend.php:25-64 | the constructed schema is the six identity fields plus `created_at`, `resolved_at`; dates `[resolved_at, created_at]`; serialized `[session]`; nine occurrence fields; the lists are duplicate-free and disjoint |
| BackendKind.ShapedFacts | src/Insectum/Insectum/Errors/Backend.php:59-64 | both Backend schemas start with the identity fields, are duplicate-free, and mark no identity field as date or serialized |
| BackendKind.IdentityValueIsString | src/Insectum/Insectum/Storage/Pdo.php:64 | each identity field of a Backend record is a key of `storable()` holding a string |
| BackendKind.IdentityValuesAreStrings | src/Insectum/Insectum/Errors/Backend.php:9 | every identity value is a string, and the `kind` column is "backend" whatever the payload's `kind` holds |
| BackendKind.SummaryIgnoresMsg | src/Insectum/Insectum/Errors/Backend.php:15-19 | the summary never depends on `msg`, because `empty($this->msg)` is always true without `__isset` |
| BackendKind.OccurredAtUnknown | src/Insectum/Insectum/LogItem.php:51 | `occurred_at` is in no Backend field list, so Backend records and their occurrence containers read it as null |
| Records.Record.Backend | src/Insectum/Insectum/Contracts/ErrorAbstract.php:38-44 | construction stores the payload, sets the Backend schema with the system fields, and sets the id to `intval($id)`, or null when none is given |
| Records.Record.Container | src/Insectum/Insectum/Contracts/ContainerAbstract.php:49-53 | an occurrence container over the payload with the given lists |
| Records.Record.InitFields | src/Insectum/Insectum/Errors/Backend.php:59-64 | an error record gets the identity and occurrence field lists, `[resolved_at]` as dates and `[session]` as serialized |
| Records.Record.EnsureSystemFields | src/Insectum/Insectum/Contracts/ErrorAbstract.php:56-70 | fields and dates become their lists with the absent system fields appended |
| Records.Record.Get | src/Insectum/Insectum/Contracts/ErrorAbstract.php:46-51 | returns what the record answers (its own `id`/`kind`, else the container accessor) and caches it |
| Records.Record.StorableSet | src/Insectum/Insectum/Contracts/ContainerAbstract.php:138-178 | the loop over the list returns `storableSet` of the state before the call |
| Records.Record.Storable | src/Insectum/Insectum/Contracts/ContainerAbstract.php:128-131 | `storable()` is `storableSet` over the field list |
| Records.Record.ToArray | src/Insectum/Insectum/Contracts/ContainerAbstract.php:73-80 | the loop returns each field's accessor value under its name |
| Records.Record.Rewind | src/Insectum/Insectum/Contracts/ContainerAbstract.php:258-261 | the cursor goes back to 0 |
| Records.Record.Next | src/Insectum/Insectum/Contracts/ContainerAbstract.php:224-227 | the cursor advances by one |
| Records.Record.Key | src/Insectum/Insectum/Contracts/ContainerAbstract.php:235-238 | the field under the cursor, null past the end |
| Records.Record.Current | src/Insectum/Insectum/Contracts/ContainerAbstract.php:212-216 | the accessor value of the field under the cursor, null past the end |
| Records.Record.OffsetGet | src/Insectum/Insectum/Contracts/ContainerAbstract.php:275-292 | array access reads through the accessor; a name that is not a field reads null and changes nothing |
| Records.Record.OffsetSet | src/Insectum/Insectum/Contracts/ContainerAbstract.php:306-309 | writing through array access changes nothing |
| Records.Record.OffsetUnset | src/Insectum/Insectum/Contracts/ContainerAbstract.php:320-323 | unsetting through array access changes nothing |
| Records.Record.Serialize | src/Insectum/Insectum/Contracts/ContainerAbstract.php:186-189 | the encoded payload, or an exception where `serialize` throws |
| Records.Record.Unserialize | src/Insectum/Insectum/Contracts/ContainerAbstract.php:200-204 | the `unserialize` method called on the existing record (not PHP's `unserialize()` function, which builds a fresh object with a null id and an empty cache first): the payload becomes the decoded value and initFields reruns; the cache is kept and no system field is added |
| Records.Record.Occurrence | src/Insectum/Insectum/Contracts/ErrorAbstract.php:82-96 | the occurrence container is built once when the payload holds an occurrence field, else `false`; either answer is kept for later calls |
| Records.Record.IsResolved | src/Insectum/Insectum/Contracts/ErrorAbstract.php:101-109 | false exactly when `resolved_at` reads null, and no value otherwise |
| Records.Record.Summary | src/Insectum/Insectum/Errors/Backend.php:15-19 | returns the formatted type, file and line, and keeps every accessor answer |
| Records.PassAt | src/Insectum/Insectum/Contracts/ContainerAbstract.php:212-261 | a `foreach` from a cursor position visits the remaining fields in order with their accessor values |
| Records.FullPass | src/Insectum/Insectum/Contracts/ContainerAbstract.php:212-261 | a full pass from `rewind()` visits each field once, in order, with the values `toArray()` gives |
| Records.SerializeRoundTrip | src/Insectum/Insectum/Contracts/ContainerAbstract.php:186-204 | the `unserialize` method, called on the same record with what `serialize()` returned restores the payload, role, id and cache; a container, or an error record with initFields' lists, comes back exactly; a constructed error record loses its system fields |
| Records.OccurrenceDataPresent | src/Insectum/Insectum/Contracts/ErrorAbstract.php:85 | occurrence data exists exactly when some occurrence field is a key of the payload |
| Items.CountGreater | src/Insectum/Insectum/LogItem.php:50-54 | the number of values greater than the bound is at most their number |
| Items.CountGreaterStep | src/Insectum/Insectum/LogItem.php:50-54 | each loop step adds one exactly when the row compares greater |
| Items.CountGreaterNulls | src/Insectum/Insectum/LogItem.php:51 | null is never greater, so null times count nothing |
| Items.CountGreaterUnresolved | src/Insectum/Insectum/LogItem.php:51 | against a null `resolved_at`, every present time counts |
| Items.OccurredAts | src/Insectum/Insectum/LogItem.php:51 | each row's `occurred_at` as its accessor answers |
| Items.LogItem.constructor | src/Insectum/Insectum/LogItem.php:22-26 | the base and the rows are stored as given, nothing computed |
| Items.LogItem.Get | src/Insectum/Insectum/LogItem.php:33-36 | a property read is the base error's accessor |
| Items.LogItem.OccurrencesTotal | src/Insectum/Insectum/LogItem.php:38-44 | the number of rows, cached |
| Items.LogItem.OccurrencesUnresolved | src/Insectum/Insectum/LogItem.php:46-57 | first call: the rows whose `occurred_at` is loosely greater than the base's `resolved_at`, at most the row count; later calls return the cached count; the base and every row answer every field as before |
| Items.LogItem.CountUnresolved | src/Insectum/Insectum/LogItem.php:49-54 | the `foreach` counts the rows comparing greater; the base and every row answer every field as before |
| Items.CountRows | src/Insectum/Insectum/LogItem.php:49-54 | the loop over the rows counts those comparing greater than the base's `resolved_at`, and every read keeps what each record answers |
| Items.CountStep | src/Insectum/Insectum/LogItem.php:50-54 | one loop pass extends the count by the next row and keeps every record's answers |
| Items.CompareStep | src/Insectum/Insectum/LogItem.php:51 | the comparison reads both times through the accessor and changes no record's answers |
| Items.ReadThrough | src/Insectum/Insectum/LogItem.php:61 | a property read through the accessor returns the field's value and changes no record's answers |
| Items.LogItem.LastOccurrence | src/Insectum/Insectum/LogItem.php:59-64 | the first row's occurrence time (not a maximum), kept once not null; an empty list fails; the base, every row and a cached occurrence container answer every field as before |
| Items.FirstOccurredAt | src/Insectum/Insectum/LogItem.php:61 | the first row's occurrence container read for `occurred_at` (null for `false`), keeping every record's answers |
| Items.BackendUnresolvedIsZero | src/Insectum/Insectum/LogItem.php:51 | for Backend rows the unresolved count is always 0 |
| Items.BackendLastOccurrenceIsNull | src/Insectum/Insectum/LogItem.php:61 | for a Backend occurrence container the last occurrence is null, so it is never cached |
| StorageRules.FilterOf | src/Insectum/Insectum/Storage/Pdo.php:175-181 | RESOLVED_ONLY and UNRESOLVED_ONLY select their filters; null or any other value selects none |
| StorageRules.ClassOfKind | src/Insectum/Insectum/Contracts/StorageAbstract.php:82-91 | the namespace plus `ucfirst(strtolower(kind))` when that class exists, else "Unsupported error kind" |
| StorageRules.ClassOfKindIgnoresCase | src/Insectum/Insectum/Contracts/StorageAbstract.php:84 | kinds equal up to letter case map to the same class |
| StorageRules.ClassOfKindSupported | src/Insectum/Insectum/Contracts/StorageAbstract.php:84-88 | with the kind set closed to Backend, a kind is supported exactly when it spells "backend" in any case |
| StorageRules.TableNames | src/Insectum/Insectum/Storage/Pdo.php:102-105 | two kinds share tables exactly when equal up to case, and an errors table is never an occurrences table (whose name `getOccurrencesTableOfKind`, Pdo.php:223-226, builds the same way) |
| Tables.SqlLessAsymmetric | src/Insectum/Insectum/Storage/Pdo.php:177-179 | SQL `<` is strict: never both ways, never between equal values |
| Tables.StrLessAsymmetric | src/Insectum/Insectum/Storage/Pdo.php:177-179 | the string order SQL `<` uses on date texts is strict |
| Tables.OccurrencesOf | src/Insectum/Insectum/Storage/Pdo.php:174 | the occurrences joined to an error are rows whose `error_id` equals its id |
| Tables.JoinOne | src/Insectum/Insectum/Storage/Pdo.php:174 | every error row yields at least one joined row |
| Tables.LeftJoin | src/Insectum/Insectum/Storage/Pdo.php:174 | the join has at least as many rows as there are errors |
| Tables.JoinCoversErrors | src/Insectum/Insectum/Storage/Pdo.php:174 | every error row appears in the join |
| Tables.Filtered | src/Insectum/Insectum/Storage/Pdo.php:175-181 | a filter keeps only joined rows meeting its WHERE clause, in order |
| Tables.FilterCases | src/Insectum/Insectum/Storage/Pdo.php:177-179 | no row is both resolved and unresolved; a null `resolved_at` is unresolved; a resolved error without occurrences is neither; when both times are orderable values, exactly one filter keeps the row |
| Tables.FilteredCountsBounded | src/Insectum/Insectum/Storage/Pdo.php:252-264 | the resolved and unresolved counts together never exceed the joined rows |
| Tables.FilteredCountsPartition | src/Insectum/Insectum/Storage/Pdo.php:252-264 | when every joined row is unresolved or has orderable times, the two counts add up to exactly the joined rows |
| Tables.StrLessTotal | src/Insectum/Insectum/Storage/Pdo.php:177-179 | two distinct strings are ordered one way or the other |
| Tables.SqlTrichotomy | src/Insectum/Insectum/Storage/Pdo.php:177-179 | between comparable values, one of `<`, `=` and `>` holds |
| Tables.Window | src/Insectum/Insectum/Storage/Pdo.php:182 | `LIMIT/OFFSET` is empty exactly when the offset passes the rows or the limit is 0, and has at most `limit` rows |
| Tables.FirstMatch | src/Insectum/Insectum/Storage/Pdo.php:62 | `LIMIT 1` gives a matching row, and none exactly when no row matches |
| Tables.ColumnValues | src/Insectum/Insectum/Storage/Pdo.php:76-86 | the inserted columns are exactly those listed |
| Tables.NewRowGet | src/Insectum/Insectum/Storage/Pdo.php:86-93 | an inserted row reads back its bindings and its auto-increment id |
| Tables.Migrate | src/Insectum/Insectum/Storage/Pdo.php:151-155 | the migration succeeds exactly for the backend kind and leaves the tables created |
| Tables.RunKeepsValid | src/Insectum/Insectum/Storage/Migrations/Backend/Version001_BackendErrorBaseTables.php:24-31 | every statement keeps the unique identity index; only inserts change rows, each appending one row to its own table |
| Tables.MigrateKeepsRows | src/Insectum/Insectum/Storage/Pdo.php:151-155 | the migration keeps existing rows and the index |
| Tables.InsertOfExistingIdentityFails | src/Insectum/Insectum/Storage/Migrations/Backend/Version001_BackendErrorBaseTables.php:24-31 | inserting an identity that is already stored is refused |
| Tables.InsertedIdentityFound | src/Insectum/Insectum/Storage/Pdo.php:93-94 | after a successful insert the identity lookup finds a row |
| Tables.RunCount | src/Insectum/Insectum/Storage/Pdo.php:243-272 | the unfiltered count is the number of error rows, a filtered one the number of joined rows kept |
| Tables.JoinOfOneError | src/Insectum/Insectum/Storage/Pdo.php:174 | an error with two occurrences joins to two rows, one per occurrence, in order |
| Tables.FilteredCountCountsJoinedRows | src/Insectum/Insectum/Storage/Pdo.php:248-264 | one unresolved error with two occurrences counts 1 in total but 2 as unresolved |
| Grouping.ArrayKey | src/Insectum/Insectum/Storage/Pdo.php:208 | a value is an illegal array key exactly when it is a date object or an array |
| Grouping.IntToStringRoundTrip | src/Insectum/Insectum/Storage/Pdo.php:208 | `intval` reads back the decimal text of an integer |
| Grouping.IntegerStringKey | src/Insectum/Insectum/Storage/Pdo.php:208 | an id and its decimal string are the same array key |
| Grouping.AddToSpec | src/Insectum/Insectum/Storage/Pdo.php:208 | `$pool[$k][] = $x` extends exactly the group under `k`, or opens it last |
| Grouping.GroupRowsSpec | src/Insectum/Insectum/Storage/Pdo.php:206-209 | the groups have distinct keys, cover every row's key, are non-empty, and each holds exactly its key's rows in fetch order |
| Grouping.ConstructorData | src/Insectum/Insectum/Contracts/ErrorAbstract.php:38 | the `array` parameter accepts an array and rejects a row object |
| Grouping.PoolAsWrittenFails | src/Insectum/Insectum/Storage/Pdo.php:208 | passing the row objects fails as soon as one row is fetched |
| Grouping.PoolWithCastGroups | src/Insectum/Insectum/Storage/Pdo.php:206-209 | with the `(array)` cast the pool is the grouping, or fails on an illegal `error_id` |
| PdoStore.RunOutcomeSteps | src/Insectum/Insectum/Storage/Pdo.php:116-146 | `runStatement` migrates at most once; an answer comes from the first attempt; the retry's result is dropped, giving null |
| PdoStore.RunOutcomeRows | src/Insectum/Insectum/Storage/Pdo.php:137-145 | an exception leaves every row; otherwise the statement ran on the same rows, possibly migrated; the index holds |
| PdoStore.RunOutcomeReads | src/Insectum/Insectum/Storage/Pdo.php:116-146 | non-insert statements leave the rows as they were |
| PdoStore.Dated | src/Insectum/Insectum/Storage/Pdo.php:89-91 | an empty field is set to the current time as Carbon's text, a non-empty one is kept, and no other field changes |
| PdoStore.IdentityBindings | src/Insectum/Insectum/Storage/Pdo.php:57-91 | the lookup binds exactly the identity placeholders, to strings, and the insert binds each identity column to the same value |
| PdoStore.OnlyAndDated | src/Insectum/Insectum/Storage/Pdo.php:64-91 | restricting to the identity fields and defaulting `created_at` agree on the identity fields |
| PdoStore.RecordBindsIdentity | src/Insectum/Insectum/Storage/Pdo.php:57-93 | getErrorItem's insert names every identity column with the lookup's non-null value |
| PdoStore.LookupAnswer | src/Insectum/Insectum/Storage/Pdo.php:62-69 | the lookup answers with the first matching row, if any |
| PdoStore.SameReadsSameRow | src/Insectum/Insectum/Storage/Pdo.php:64-88 | records answering alike store and look up alike |
| PdoStore.InsertOutcome | src/Insectum/Insectum/Storage/Pdo.php:74-94 | the insert throws when the identity is stored; otherwise it throws with no change or appends one row that the lookup then finds |
| PdoStore.InsertOfStoredIdentityThrows | src/Insectum/Insectum/Storage/Pdo.php:93 | re-inserting a stored identity throws, with or without migration |
| PdoStore.InsertedRowMatches | src/Insectum/Insectum/Storage/Pdo.php:93-94 | the row just inserted matches the lookup |
| PdoStore.StampedValues | src/Insectum/Insectum/Storage/Pdo.php:303-308 | the occurrence bindings carry the error id and stage, the stored occurrence time or else the current time as Carbon's text, and every other stored value |
| PdoStore.StampedKeys | src/Insectum/Insectum/Storage/Pdo.php:303-308 | the bindings hold every stored field plus `error_id`, `stage`, `occurred_at` |
| PdoStore.StoreOutcomeRows | src/Insectum/Insectum/Storage/Pdo.php:310-328 | an empty error id is refused before any statement; otherwise one occurrence row with the bindings is appended, or nothing changes; error rows never change |
| PdoStore.StoreStampedRows | src/Insectum/Insectum/Storage/Pdo.php:301-329 | on success one occurrence row with the stage and a non-empty error id is appended |
| PdoStore.HydratedId | src/Insectum/Insectum/Contracts/ErrorAbstract.php:43 | a hydrated row's non-empty id is `intval` of its `id` column |
| PdoStore.ReadQueriesRows | src/Insectum/Insectum/Storage/Pdo.php:166-203 | `read` changes no row, and the rows it groups are the second query's |
| PdoStore.ReadPastEnd | src/Insectum/Insectum/Storage/Pdo.php:182-190 | once the offset reaches the number of joined rows, `read` returns an empty list whatever errors exist |
| PdoStore.ReadAsWrittenFails | src/Insectum/Insectum/Storage/Pdo.php:206-209 | as written, `read` never returns a group: where the cast rows would be grouped it fails with a TypeError |
| PdoStore.ReadGroups | src/Insectum/Insectum/Storage/Pdo.php:188-216 | with the cast, a read reaching the pool returns the grouping of the fetched rows by `error_id`, or fails on an illegal key |
| PdoStore.CountOutcomeRows | src/Insectum/Insectum/Storage/Pdo.php:243-272 | a count changes no row; unfiltered it is the number of error rows, filtered the number of joined rows kept |
| PdoStore.CountsBounded | src/Insectum/Insectum/Storage/Pdo.php:252-264 | the resolved and unresolved counts add up to at most the joined rows |
| PdoStore.CountsPartition | src/Insectum/Insectum/Storage/Pdo.php:252-264 | when every joined row is unresolved or has times stored in one orderable form, the resolved and unresolved counts add up to exactly the joined rows |
| PdoStore.AddToMirrors | src/Insectum/Insectum/Storage/Pdo.php:208 | filing a record and its row under the same key keeps pool and rows in step |
| PdoStore.FillPool | src/Insectum/Insectum/Storage/Pdo.php:206-209 | the loop fills a pool of fresh records mirroring the grouping of the rows, or fails as the grouping does |
| PdoStore.PoolErrorSticks | src/Insectum/Insectum/Storage/Pdo.php:207-209 | once a row fails, the whole loop fails the same way |
| PdoStore.MakeItems | src/Insectum/Insectum/Storage/Pdo.php:212-214 | each group becomes a fresh log item whose base is the group's first record |
| PdoStore.PdoStorage.constructor | src/Insectum/Insectum/Storage/Pdo.php:41-46 | storage over the given tables with nothing executed |
| PdoStore.PdoStorage.Migrate | src/Insectum/Insectum/Storage/Pdo.php:151-155 | one migration attempt; the tables change only when it succeeds |
| PdoStore.PdoStorage.RunStatement | src/Insectum/Insectum/Storage/Pdo.php:116-146 | the outcome and state are those of `RunOutcome` |
| PdoStore.PdoStorage.FindStored | src/Insectum/Insectum/Storage/Pdo.php:55-66 | runs the identity lookup bound to the identity part of `storable()` |
| PdoStore.PdoStorage.InsertStatement | src/Insectum/Insectum/Storage/Pdo.php:76-91 | the insert lists `storable()`'s keys and binds its values, with an empty `created_at` set to the current time as Carbon's text |
| PdoStore.PdoStorage.GetErrorItem | src/Insectum/Insectum/Storage/Pdo.php:53-96 | find-or-insert: error rows grow by at most one and not for a stored identity; the result is a fresh Backend hydrated from a row with the error's identity |
| PdoStore.PdoStorage.InsertThenFetch | src/Insectum/Insectum/Storage/Pdo.php:74-95 | the insert branch keeps the same guarantees, ending in the recursive lookup |
| PdoStore.PdoStorage.OccurrenceData | src/Insectum/Insectum/Storage/Pdo.php:303-308 | the bindings are the occurrence's `storable()` stamped with the logged id and stage, with an empty `occurred_at` set to the current time as Carbon's text |
| PdoStore.PdoStorage.StoreOccurrence | src/Insectum/Insectum/Storage/Pdo.php:301-329 | a `false` occurrence fails on the method call with nothing changed; otherwise the outcome of storing its stamped bindings |
| PdoStore.PdoStorage.StoreAgainst | src/Insectum/Insectum/Storage/Pdo.php:301-329 | for a record hydrated from a stored row, success appends one occurrence row with the stage and that row's id |
| PdoStore.PdoStorage.Write | src/Insectum/Insectum/Contracts/StorageAbstract.php:22-27 | getErrorItem then storeOccurrence: error rows grow by at most one and not for a stored identity; success appends exactly one occurrence pointing at a stored row with the error's identity; failure adds none |
| PdoStore.PdoStorage.ReadRows | src/Insectum/Insectum/Storage/Pdo.php:166-203 | the two queries of `read`, with the class check first |
| PdoStore.PdoStorage.Read | src/Insectum/Insectum/Storage/Pdo.php:166-217 | the log items of the grouped rows (cast to arrays), one fresh item per group, or `read`'s error |
| PdoStore.PdoStorage.CountErrors | src/Insectum/Insectum/Storage/Pdo.php:243-272 | result and state are `CountOutcome`'s |
| PdoStore.PdoStorage.Total | src/Insectum/Insectum/Storage/Pdo.php:233-236 | the unfiltered count |
| PdoStore.PdoStorage.TotalResolved | src/Insectum/Insectum/Storage/Pdo.php:279-282 | the RESOLVED_ONLY count: the joined rows of resolved errors whose occurrence is no later than the resolution |
| PdoStore.PdoStorage.TotalUnresolved | src/Insectum/Insectum/Storage/Pdo.php:289-292 | the UNRESOLVED_ONLY count: the joined rows of unresolved errors or with an occurrence after the resolution |
| Connector.Explode | src/Insectum/Insectum/Storage/Tools/PDOConnector.php:85-89 | `explode` gives at least one piece, none holding the delimiter |
| Connector.ImplodeExplode | src/Insectum/Insectum/Storage/Tools/PDOConnector.php:85-87 | joining the pieces back gives the string |
| Connector.ExplodeImplode | src/Insectum/Insectum/Storage/Tools/PDOConnector.php:85-87 | splitting a join of delimiter-free pieces gives the pieces |
| Connector.ParseParam | src/Insectum/Insectum/Storage/Tools/PDOConnector.php:88-94 | a parameter's key holds no '='; without '=' its value is null |
| Connector.ParseParams | src/Insectum/Insectum/Storage/Tools/PDOConnector.php:88-94 | `array_walk` parses every piece in place, one parameter per piece, in order |
| Connector.ParseKeyValue | src/Insectum/Insectum/Storage/Tools/PDOConnector.php:89-93 | `k=v` parses to key `k` and value `v` |
| Connector.FirstDbNameSpec | src/Insectum/Insectum/Storage/Tools/PDOConnector.php:95-100 | the name is the value of the first parameter keyed `dbname` or `Database`, and null when none is |
| Connector.WalkParams | src/Insectum/Insectum/Storage/Tools/PDOConnector.php:88-94 | the `array_walk` over the pieces leaves, in a new array, exactly the parsed parameter of each piece, in order |
| Connector.ScanParams | src/Insectum/Insectum/Storage/Tools/PDOConnector.php:95-102 | the `foreach` with `break` answers the value of the first parameter naming the database, and null when none does |
| Connector.GetDbNameFromDsn | src/Insectum/Insectum/Storage/Tools/PDOConnector.php:80-103 | the `array_walk` and the `foreach` with `break` compute `DbNameFromDsn` |
| Connector.DbNameIgnoresLaterColons | src/Insectum/Insectum/Storage/Tools/PDOConnector.php:85-87 | only the text between the first and second ':' is scanned |
| Connector.ArrGet | src/Insectum/Insectum/Storage/Tools/PDOConnector.php:112-119 | `Arr::get` yields null only when the default is null |
| Connector.EmptyConfigIsMysql | src/Insectum/Insectum/Storage/Tools/PDOConnector.php:112-119 | an empty configuration is mysql on host '' with every other entry null |
| Connector.GetDsn | src/Insectum/Insectum/Storage/Tools/PDOConnector.php:136-175 | fails with the "Unsupported driver" message exactly for a driver that is not one of the five names |
| Connector.MysqlDsnShape | src/Insectum/Insectum/Storage/Tools/PDOConnector.php:144-152 | the mysql DSN is `mysql:` then `host=H;dbname=D`, followed by the port and socket parameters when truthy, in that order |
| Connector.MysqlRoundTrip | src/Insectum/Insectum/Storage/Tools/PDOConnector.php:144-152 | for separator-free values, reading the name back from the mysql DSN gives the configured database |
| Connector.PgsqlAsWrittenLosesDbName | src/Insectum/Insectum/Storage/Tools/PDOConnector.php:154 | with a configured host, the pgsql DSN's first key is `<host>dbname` and the name read back is null |
| Connector.PgsqlWithoutHost | src/Insectum/Insectum/Storage/Tools/PDOConnector.php:154 | without a host, the as-written pgsql DSN equals the corrected one |
| Connector.PgsqlRoundTrip | src/Insectum/Insectum/Storage/Tools/PDOConnector.php:153-158 | with the host as its own parameter, the pgsql DSN reads back the database, host or not |
| Connector.SqlServerDsn | src/Insectum/Insectum/Storage/Tools/PDOConnector.php:159-170 | sqlsrv and dblib share one branch: the port becomes ",P" or ""; dblib form when available, else `sqlsrv:Server=` plus `;Database=D` only for a non-empty database |
| Connector.DblibRoundTrip | src/Insectum/Insectum/Storage/Tools/PDOConnector.php:159-163 | the dblib DSN reads back the configured database |
| Connector.SqlsrvRoundTrip | src/Insectum/Insectum/Storage/Tools/PDOConnector.php:164-168 | the sqlsrv DSN reads back the database when configured, and null otherwise |
| Connector.SqliteHasNoDbName | src/Insectum/Insectum/Storage/Tools/PDOConnector.php:141-143 | the sqlite DSN has no `key=value` parameter, so no database name is read back |
| Connector.Connection | src/Insectum/Insectum/Storage/Tools/PDOConnector.php:45-74 | a PDO handle without a name is refused; a DSN that does not open fails; on success the name is the given one for a handle, else the DSN's; other arguments set nothing |
| Connector.ConfigConnectsThroughDsn | src/Insectum/Insectum/Storage/Tools/PDOConnector.php:108-128 | a configuration connects exactly as its built DSN does, or fails with `getDsn`'s error; the accompanying name plays no part |
| Connector.MysqlConfigDbName | src/Insectum/Insectum/Storage/Tools/PDOConnector.php:108-128 | a mysql configuration connects with its own database as the name when the DSN opens |
| Connector.PdoConnector.Unset | src/Insectum/Insectum/Storage/Tools/PDOConnector.php:20-28 | both properties start null |
| Connector.PdoConnector.Create | src/Insectum/Insectum/Storage/Tools/PDOConnector.php:34-37 | a fresh connector in the state `initConnection` settles on, or its exception |
| Connector.PdoConnector.InitConnection | src/Insectum/Insectum/Storage/Tools/PDOConnector.php:45-74 | sets both properties as `Connection` says; leaves them when it throws or the argument is of no handled type |
| Connector.PdoConnector.ParseConfigArray | src/Insectum/Insectum/Storage/Tools/PDOConnector.php:108-128 | connects with the DSN built from the configuration, or throws `getDsn`'s error with nothing set |
| LogFacade.Log.constructor | src/Insectum/Insectum/Log.php:35-51 | stores the configuration and storage; the hook list is empty whatever the configuration says |
| LogFacade.Log.Write | src/Insectum/Insectum/Log.php:59-68 | a kind with no class fails before the storage is touched; otherwise a fresh error with no id over the payload is written once (stage "production" by default) and returned as built |
| LogFacade.Log.Read | src/Insectum/Insectum/Log.php:88-91 | the storage's `read` with no filter, offset 0 and limit 10 by default, passed on unchanged |
| LogFacade.Log.ReadUnresolved | src/Insectum/Insectum/Log.php:100-103 | the storage's `read` with UNRESOLVED_ONLY |
| LogFacade.Log.ReadResolved | src/Insectum/Insectum/Log.php:112-115 | the storage's `read` with RESOLVED_ONLY |
| LogFacade.Log.Total | src/Insectum/Insectum/Log.php:122-125 | the storage's total, unchanged |
| LogFacade.Log.TotalResolved | src/Insectum/Insectum/Log.php:132-135 | the storage's resolved total, unchanged |
| LogFacade.Log.TotalUnresolved | src/Insectum/Insectum/Log.php:142-145 | the storage's unresolved total, unchanged |

## Left out

- The database engine and SQL text. Each statement is modelled by its meaning on two row lists. The PDO error-mode save and restore (`Pdo.php:123-131`) is left out.
- `new \PDO($dsn)` and `setAttribute` (`PDOConnector.php:60-61`): whether a DSN opens is the parameter `Env.opens`. An exception from `setAttribute` after the handle is assigned is not modelled.
- `\PDO::getAvailableDrivers()` (`PDOConnector.php:162`) is the boolean `Env.dblibAvailable`.
- `PDOConnector::dbal()` (`PDOConnector.php:180-208`) builds a Doctrine connection and is not modelled. `pdo()` and `dbName()` are plain getters (`PdoConnector.Pdo`, `PdoConnector.DbName`).
- `array_diff_key` options (`PDOConnector.php:122`) are computed and never used, so they are left out.
- The Doctrine migrator (`Storage/Tools/Migrator.php`) is not modelled. The migration is the function `Tables.Migrate` (create the backend tables), and whether a migration throws is an oracle.
- The schema file is taken as the column lists and the unique identity index, as an invariant of the errors table.
- The second query of `read` binds an imploded id list to one placeholder, so its rows depend on the driver. They are the parameter `fetched`. ORDER BY `created_at` is not modelled: only the emptiness of the first page is used.
- `Insectum\Helpers\Arr` is not part of this model. `Arr::get` is taken as "the value, or the default when the key is absent or the value is null", and `Arr::only` as "the listed keys, in array order".
- Library behaviour (`serialize`, `unserialize`, Carbon parsing and formatting, `print_r`) is abstract, given by `Lib`. The laws assumed of it are stated by `Lawful`. Dates are integer timestamps. A Carbon object bound to a statement is bound as its `Y-m-d H:i:s` text (`PdoStore.CarbonNow`).
- Fields.Coerce: `new Carbon($v)` (`ContainerAbstract.php:100`) throws on a string it cannot parse. `lib.carbon` is total, so the model reads such a string as some date instead of failing.
- Fields.CoercionRules: the date rule is stated for every non-null raw value, because `lib.carbon` is total; the exception Carbon throws on an unparseable string is not modelled.
- Fields.Normalize: `new Carbon($value)` in `storableSet` (`ContainerAbstract.php:149`) throws on an unparseable string; here it formats some date instead.
- The clock: "now" defaults (`Pdo.php:90,307`) take the parameter `now`.
- Dynamic dispatch: `LogItem::__call` (`LogItem.php:28-31`) is left out. Classes instantiated by name (`Log.php:61-62`, `Pdo.php:72,208`) are limited to Backend, the one error class the model closes the kind set to; any other kind fails.
- `ContainerAbstract::getData` (`ContainerAbstract.php:64-67`) calls itself without end and is not modelled.
- StorageRules.ClassOfKind, StorageRules.ClassOfKindSupported: the source also resolves `occurrence`, in any letter case, to the existing class `Errors\Occurrence` (`StorageAbstract.php:84-90`, `ErrorAbstract.php:5` and `:86`); the model refuses it with "Unsupported error kind", because that class's source is not part of this model. This changes what is reported for that kind: the source's `read` and counts pass the class check (`Pdo.php:168`) and fail later, at the statement or the migration, and its `Log::write` builds an `Occurrence` and fails with a TypeError at `StorageAbstract::write(ErrorAbstract $error, …)` (`StorageAbstract.php:22`), where the model reports "Unsupported error kind" and `ClassNotFound`.
- The `Errors\Occurrence` class is not part of this model. It is taken as a plain container over (data, fields, serialized, dates).
- Concurrency and races on the unique index: the code has no handling for them.
- Connector.GetDsn: a driver value that is not a string is refused. PHP's loose `switch` comparison of non-string values is not modelled.
- Connector.DbNameFromDsn and the DSN round-trip lemmas only hold for values free of ':', ';' and '='.
- PdoStore.PdoStorage.GetErrorItem: on the found path the model skips the `getClassOfKind` check (`Pdo.php:72`), because the kind is always backend there.
- PdoStore.PdoStorage.Read: the model hands each fetched row to the constructor cast to an array, as `getErrorItem` does on `Pdo.php:73`. The as-written object argument is `Grouping.PoolAsWrittenFails` (see Findings).
- Items.PhpGreater compares only the type pairs an occurrence time and a resolution time can form. Other pairs count as not greater.
- Log hooks: `registerHooks` returns an empty list and `runHooks` does nothing with it, so neither is modelled beyond the empty `hooks` field.

## Findings

| source | as written | input that shows it | evidently intended | confidence | as-written member | corrected member |
|---|---|---|---|---|---|---|
| src/Insectum/Insectum/Storage/Pdo.php:208 | `new $class($oc, $oc->error_id)` passes the `FETCH_OBJ` row object to a constructor whose parameter is `array $data` | any read whose second query returns one row: the TypeError stops `read` | pass `(array)$oc`, as `getErrorItem` does on line 73, and group the rows by `error_id` | medium, not executed | Grouping.PoolAsWrittenFails | Grouping.PoolWithCastGroups |
| src/Insectum/Insectum/Storage/Tools/PDOConnector.php:154 | `"pgsql:{$config['host']}dbname=..."` glues the host onto `dbname=` | host "db1", database "app": the DSN `pgsql:db1dbname=app` has the key `db1dbname`, so no database name is read back (and the host is not passed as `host=`) | `pgsql:host=H;dbname=D` when a host is configured, `pgsql:dbname=D` otherwise | medium, not executed | Connector.PgsqlAsWrittenLosesDbName | Connector.PgsqlRoundTrip |
