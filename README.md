# ZomboDB term queries and index-drop handling, in Dafny

This project models two parts of ZomboDB, the Postgres extension that keeps
indices in Elasticsearch.

- **Term-query construction** (`src/query_dsl/term.rs`). Twelve typed entry
  points build the Elasticsearch `term` query
  `{"term": {<field>: {"value": <v>, "boost": <b>}}}`. Each one wraps its argument
  in `Term`. `"boost"` is left out when no boost is given.
  - `TermDsl` models the JSON the builder emits and the entry points. It also
    has a reader, `ReadTermQuery`, that refuses values no term serialises to
    (such as `null`) and is proved to be the exact inverse of the builder.
  - `Temporal` gives zero-padded textual forms for dates, times and
    timestamps. Each form comes with a parser and round-trip and
    canonical-form lemmas.
  - `TermExamples` states every case of the file's test module as a lemma
    over the exact expected document.
- **Drop handling** (`src/executor_manager/drop.rs`). It turns a drop of an
  index, table, schema or extension into transaction callbacks. Each callback
  deletes the remote Elasticsearch index when the transaction commits.
  - `Drop.Backend` is a class. Its `pending` field is the list of registered
    callbacks, and the drop methods append to it with loops over index lists
    and query rows.
  - `Drop.Registrations` is the function that specifies what is appended. The
    lemmas beside it say which indices get callbacks, how many, and in what
    order.

Files:
- `wrappers.dfy`: `Option`.
- `json.dfy`: JSON values, with objects as ordered key/value lists.
- `temporal.dfy`: the date and time forms.
- `term.dfy`: the term-query builder.
- `term_examples.dfy`: the test cases.
- `drop.dfy`: the drop hooks.

## Model

| member | source | states |
|---|---|---|
| Temporal.FormatDate | src/query_dsl/term.rs:685-719 | a date is written as ten characters `YYYY-MM-DD`: four, two and two decimal digits separated by `-` |
| Temporal.FormatTime | src/query_dsl/term.rs:722-775 | a time is written `HH:MM:SS` then `Z`, 9 characters, or with `.fff` before the `Z`, 13 characters, exactly when there are milliseconds |
| Temporal.FormatTimestamp | src/query_dsl/term.rs:835-889 | a timestamp is the date form, `T`, then the time form |
| Temporal.DateRoundTrip | src/query_dsl/term.rs:685-719 | the date form reads back as the same date |
| Temporal.DateCanonical | src/query_dsl/term.rs:685-719 | every string the date reader accepts is the date form of what it reads, so the form is canonical |
| Temporal.TimeRoundTrip | src/query_dsl/term.rs:722-775 | the time form reads back as the same time, milliseconds included |
| Temporal.TimeCanonical | src/query_dsl/term.rs:722-775 | every string the time reader accepts, with or without a fraction, is the time form of what it reads |
| Temporal.TimestampRoundTrip | src/query_dsl/term.rs:835-889 | the timestamp form reads back as the same timestamp |
| Temporal.TimestampCanonical | src/query_dsl/term.rs:835-889 | every string the timestamp reader accepts is the timestamp form of what it reads |
| Temporal.FormatDate20200101 | src/query_dsl/term.rs:685-700 | 2020-01-01 is written `"2020-01-01"` |
| Temporal.FormatDate20121212 | src/query_dsl/term.rs:835-851 | 2012-12-12 is written `"2012-12-12"` |
| Temporal.FormatDate20130410 | src/query_dsl/term.rs:854-870 | 2013-04-10 is written `"2013-04-10"` |
| Temporal.FormatDate20190915 | src/query_dsl/term.rs:873-889 | 2019-09-15 is written `"2019-09-15"` |
| Temporal.FormatTime131535 | src/query_dsl/term.rs:722-737 | 13:15:35 is written `"13:15:35Z"` |
| Temporal.FormatTime125935 | src/query_dsl/term.rs:740-756 | 12:59:35 is written `"12:59:35Z"` |
| Temporal.FormatTime125935567 | src/query_dsl/term.rs:759-775 | 12:59:35.567 is written `"12:59:35.567Z"` |
| Temporal.FormatTimestamp20121212131535 | src/query_dsl/term.rs:835-851 | 2012-12-12 13:15:35 is written `"2012-12-12T13:15:35Z"` |
| Temporal.FormatTimestamp20130410125935 | src/query_dsl/term.rs:854-870 | 2013-04-10 12:59:35 is written `"2013-04-10T12:59:35Z"` |
| Temporal.FormatTimestamp20190915125935567 | src/query_dsl/term.rs:873-889 | 2019-09-15 12:59:35.567 is written `"2019-09-15T12:59:35.567Z"` |
| TermDsl.SerializeTerm | src/query_dsl/term.rs:12-17 | a term serialises to an object whose keys are `value` then `boost`, or `value` alone when the boost is absent; `value` holds the serialised value and `boost` the boost |
| TermDsl.MakeTermDsl | src/query_dsl/term.rs:176-184 | the query has the single key `term`, holding an object whose single key is the field name, verbatim, holding the serialised term |
| TermDsl.ReadMakeTermDsl | src/query_dsl/term.rs:176-184 | reading the built query back gives the field, the serialised value and the boost |
| TermDsl.SerializeValue | src/query_dsl/term.rs:13-14 | a value serialises to a string (text and the temporal kinds), a boolean, an integer within 64 bits or a float, never `null` or an object |
| TermDsl.MakeTermDslOfRead | src/query_dsl/term.rs:176-184 | a document the reader accepts is rebuilt by the builder from the field and boost read and any value whose serialisation is the value read |
| TermDsl.ReadOnlyBuilt | src/query_dsl/term.rs:176-184 | every document the reader accepts holds a value some term serialises to and is the builder's output for such a term: the reader is an exact inverse |
| TermDsl.ReadRefusesNull | src/query_dsl/term.rs:176-184 | a document with a `null` value, which the builder never makes, is refused |
| TermDsl.MakeTermDslInjective | src/query_dsl/term.rs:176-184 | two built queries are equal if and only if their fields, boosts and serialised values are equal |
| TermDsl.TermStr | src/query_dsl/term.rs:23-30 | a string term carries the string unchanged; the result reads back as a term query on the given field with the given boost, `boost` left out when absent |
| TermDsl.TermBool | src/query_dsl/term.rs:36-43 | a boolean term carries the boolean; the result reads back as a term query on the given field with the given boost, `boost` left out when absent |
| TermDsl.TermI16 | src/query_dsl/term.rs:49-56 | a 16-bit integer term carries the integer unchanged, extremes included; the result reads back as a term query on the given field with the given boost, `boost` left out when absent |
| TermDsl.TermI32 | src/query_dsl/term.rs:62-69 | a 32-bit integer term carries the integer unchanged; the result reads back as a term query on the given field with the given boost, `boost` left out when absent |
| TermDsl.TermI64 | src/query_dsl/term.rs:75-82 | a 64-bit integer term carries the integer unchanged; the result reads back as a term query on the given field with the given boost, `boost` left out when absent |
| TermDsl.TermF32 | src/query_dsl/term.rs:88-95 | a 32-bit float term carries the float, bit for bit, whatever its value; the result reads back as a term query on the given field with the given boost, `boost` left out when absent |
| TermDsl.TermF64 | src/query_dsl/term.rs:101-108 | a 64-bit float term carries the float, bit for bit, whatever its value; the result reads back as a term query on the given field with the given boost, `boost` left out when absent |
| TermDsl.TermTime | src/query_dsl/term.rs:114-121 | a time term carries the time form of its value; the result reads back as a term query on the given field with the given boost, `boost` left out when absent |
| TermDsl.TermDate | src/query_dsl/term.rs:127-134 | a date term carries the date form of its value; the result reads back as a term query on the given field with the given boost, `boost` left out when absent |
| TermDsl.TermTimeWithTimeZone | src/query_dsl/term.rs:140-147 | a time-with-zone term carries the time form of its UTC reading; the result reads back as a term query on the given field with the given boost, `boost` left out when absent |
| TermDsl.TermTimestamp | src/query_dsl/term.rs:153-160 | a timestamp term carries the timestamp form of its value; the result reads back as a term query on the given field with the given boost, `boost` left out when absent |
| TermDsl.TermTimestampWithTimeZone | src/query_dsl/term.rs:166-173 | a timestamp-with-zone term carries the timestamp form of its UTC reading; the result reads back as a term query on the given field with the given boost, `boost` left out when absent |
| TermDsl.TimeZoneVariantAgrees | src/query_dsl/term.rs:140-147 | the time-with-zone entry point gives the same document as the time entry point for the same UTC reading |
| TermDsl.TimestampZoneVariantAgrees | src/query_dsl/term.rs:166-173 | the timestamp-with-zone entry point gives the same document as the timestamp entry point for the same UTC reading |
| TermExamples.TestTermStr | src/query_dsl/term.rs:195-211 | the entry point returns exactly the expected document: `"test value"` with boost 42.0 |
| TermExamples.TestTermStrWithDefaultBoost | src/query_dsl/term.rs:214-228 | the entry point returns exactly the expected document: `"test value"` without boost: no `boost` key |
| TermExamples.TestTermBoolTrue | src/query_dsl/term.rs:231-245 | the entry point returns exactly the expected document: `true` with boost 42.0 |
| TermExamples.TestTermBoolFalse | src/query_dsl/term.rs:248-262 | the entry point returns exactly the expected document: `false` with boost 42.0 |
| TermExamples.TestTermBoolTrueWithDefaultBoost | src/query_dsl/term.rs:265-279 | the entry point returns exactly the expected document: `true` without boost |
| TermExamples.TestTermBoolFalseWithDefaultBoost | src/query_dsl/term.rs:282-296 | the entry point returns exactly the expected document: `false` without boost |
| TermExamples.TestTermPositiveI16 | src/query_dsl/term.rs:299-313 | the entry point returns exactly the expected document: 32767 with boost 42.0 |
| TermExamples.TestTermNegativeI16 | src/query_dsl/term.rs:316-330 | the entry point returns exactly the expected document: -32700 with boost 42.0 |
| TermExamples.TestTermI16WithDefaultBoost | src/query_dsl/term.rs:333-347 | the entry point returns exactly the expected document: 32767 without boost |
| TermExamples.TestTermPositiveI32 | src/query_dsl/term.rs:350-365 | the entry point returns exactly the expected document: 2147483647 with boost 42.0 |
| TermExamples.TestTermNegativeI32 | src/query_dsl/term.rs:368-383 | the entry point returns exactly the expected document: -2147483648 with boost 42.0 |
| TermExamples.TestTermI32WithDefaultBoost | src/query_dsl/term.rs:386-400 | the entry point returns exactly the expected document: 2147483647 without boost |
| TermExamples.TestTermPositiveI64 | src/query_dsl/term.rs:403-419 | the entry point returns exactly the expected document: 214740083647 with boost 42.0 |
| TermExamples.TestTermNegativeI64 | src/query_dsl/term.rs:422-438 | the entry point returns exactly the expected document: -214740083647 with boost 42.0 |
| TermExamples.TestTermI64WithDefaultBoost | src/query_dsl/term.rs:441-457 | the entry point returns exactly the expected document: 9223372036854775000 without boost |
| TermExamples.TestTermPositiveF32 | src/query_dsl/term.rs:460-476 | the entry point returns exactly the expected document: f32 4.6 with boost 42.0 |
| TermExamples.TestTermNegativeF32 | src/query_dsl/term.rs:479-494 | the entry point returns exactly the expected document: f32 -4.8 with boost 42.0 |
| TermExamples.TestTermF32WithDefaultBoost | src/query_dsl/term.rs:497-513 | the entry point returns exactly the expected document: f32 5.6 without boost |
| TermExamples.TestTermF32WithPositiveInfinity | src/query_dsl/term.rs:516-531 | the entry point returns exactly the expected document: f32 infinity without boost |
| TermExamples.TestTermF32WithNegativeInfinity | src/query_dsl/term.rs:534-549 | the entry point returns exactly the expected document: f32 negative infinity without boost |
| TermExamples.TestTermF32WithNan | src/query_dsl/term.rs:552-567 | the entry point returns exactly the expected document: f32 NaN without boost |
| TermExamples.TestTermPositiveF64 | src/query_dsl/term.rs:570-585 | the entry point returns exactly the expected document: f64 5.6 with boost 42.0 |
| TermExamples.TestTermNegativeF64 | src/query_dsl/term.rs:588-603 | the entry point returns exactly the expected document: f64 -5.6 with boost 42.0 |
| TermExamples.TestTermF64WithDefaultBoost | src/query_dsl/term.rs:606-624 | the entry point returns exactly the expected document: f64 5.6 without boost |
| TermExamples.TestTermF64WithInfinity | src/query_dsl/term.rs:627-643 | the entry point returns exactly the expected document: f64 infinity without boost |
| TermExamples.TestTermF64WithNegativeInfinity | src/query_dsl/term.rs:646-663 | the entry point returns exactly the expected document: f64 negative infinity without boost |
| TermExamples.TestTermF64WithNan | src/query_dsl/term.rs:666-682 | the entry point returns exactly the expected document: f64 NaN without boost |
| TermExamples.TestTermDate | src/query_dsl/term.rs:685-700 | the entry point returns exactly the expected document: date 2020-01-01 gives `"2020-01-01"` |
| TermExamples.TestTermDateWithBoost | src/query_dsl/term.rs:703-719 | the entry point returns exactly the expected document: date 2020-01-01 with boost 42.0 |
| TermExamples.TestTermTime | src/query_dsl/term.rs:722-737 | the entry point returns exactly the expected document: time 13:15:35 gives `"13:15:35Z"` |
| TermExamples.TestTermTimeWithBoost | src/query_dsl/term.rs:740-756 | the entry point returns exactly the expected document: time 12:59:35 with boost 42.0 gives `"12:59:35Z"` |
| TermExamples.TestTermTimeWithMillisecondsAndWithBoost | src/query_dsl/term.rs:759-775 | the entry point returns exactly the expected document: time 12:59:35.567 with boost gives `"12:59:35.567Z"` |
| TermExamples.TestTermTimeWithTimezone | src/query_dsl/term.rs:778-794 | the entry point returns exactly the expected document: `13:15:35 +0900` cast to a time gives `"13:15:35Z"`, the zone dropped |
| TermExamples.TestTermTimeWithBoostAndWithTimezone | src/query_dsl/term.rs:797-813 | the entry point returns exactly the expected document: `12:59:35 +0830` cast to a time, with boost, gives `"12:59:35Z"` |
| TermExamples.TestTermTimeWithMillisecondsWithTimezoneAndWithBoost | src/query_dsl/term.rs:816-832 | the entry point returns exactly the expected document: `12:59:35.567 -1200` cast to a time, with boost, gives `"12:59:35.567Z"` |
| TermExamples.TestTermTimestamp | src/query_dsl/term.rs:835-851 | the entry point returns exactly the expected document: timestamp 2012-12-12 13:15:35 gives `"2012-12-12T13:15:35Z"` |
| TermExamples.TestTermTimestampWithBoost | src/query_dsl/term.rs:854-870 | the entry point returns exactly the expected document: timestamp 2013-04-10 12:59:35 with boost |
| TermExamples.TestTermTimestampWithMillisecondsAndWithBoost | src/query_dsl/term.rs:873-889 | the entry point returns exactly the expected document: timestamp 2019-09-15 12:59:35.567 with boost gives `"2019-09-15T12:59:35.567Z"` |
| TermExamples.TestTermTimestampWithTimezone | src/query_dsl/term.rs:892-908 | the entry point returns exactly the expected document: a `-0700` timestamp literal cast to a timestamp keeps its clock reading |
| TermExamples.TestTermTimestampWithTimezoneWithBoost | src/query_dsl/term.rs:911-927 | the entry point returns exactly the expected document: the same with boost 42.0 |
| TermExamples.TestTermTimestampWithTimezoneWithMillisecondsAndWithBoost | src/query_dsl/term.rs:930-946 | the entry point returns exactly the expected document: the same with milliseconds and boost 42.0 |
| TermExamples.CastAsTime | src/query_dsl/term.rs:778-832 | the definition of `CAST(... AS time)` of a literal with an offset; what it means is stated by `TermExamples.CastAsTimeIgnoresOffset` and `TermExamples.CastDropsZone` |
| TermExamples.CastAsTimeIgnoresOffset | src/query_dsl/term.rs:778-832 | two time literals with the same clock reading and any two offsets cast to the same time, that clock reading |
| TermExamples.CastAsTimestamp | src/query_dsl/term.rs:892-946 | the definition of `CAST(... AS timestamp)` of a literal with an offset; what it means is stated by `TermExamples.CastAsTimestampIgnoresOffset` and `TermExamples.CastDropsZone` |
| TermExamples.CastAsTimestampIgnoresOffset | src/query_dsl/term.rs:892-946 | two timestamp literals with the same clock reading and any two offsets cast to the same timestamp, that clock reading |
| TermExamples.CastDropsZone | src/query_dsl/term.rs:778-946 | a zone-bearing literal cast to `time` or `timestamp` is written as its bare clock reading |
| Drop.IsZdbIndex | src/executor_manager/drop.rs:12 | only an index the catalog knows can be a ZomboDB index; it is one when its access method is ZomboDB's |
| Drop.IndexList | src/executor_manager/drop.rs:30 | the definition of `table.indicies()` on the catalog; what the list holds is stated by `Drop.IndexListOfValid` |
| Drop.IndexListOfValid | src/executor_manager/drop.rs:30 | on a consistent catalog a table's index list holds each index of the table once and nothing else |
| Drop.InSchemaQuery | src/executor_manager/drop.rs:39-41 | the schema query selects an index exactly when it is a ZomboDB index in that schema |
| Drop.InExtensionQuery | src/executor_manager/drop.rs:54-55 | the extension query selects an index exactly when it is a ZomboDB index |
| Drop.Registration | src/executor_manager/drop.rs:12-25 | what `drop_index` registers for one index; its meaning is stated by `Drop.RegistrationDecision` |
| Drop.RegistrationDecision | src/executor_manager/drop.rs:12-25 | `drop_index` registers nothing for an index that is not a ZomboDB index, and otherwise exactly one commit callback for the index's own handle |
| Drop.Registrations | src/executor_manager/drop.rs:29-34 | dropping a sequence of indices registers no more callbacks than there are indices |
| Drop.RegistrationsSound | src/executor_manager/drop.rs:10-27 | every registered callback waits for commit and targets a dropped ZomboDB index |
| Drop.RegistrationsComplete | src/executor_manager/drop.rs:10-27 | every ZomboDB index among the dropped ones gets a commit callback for its own handle |
| Drop.RegistrationsAppend | src/executor_manager/drop.rs:29-34 | dropping two batches one after the other registers the callbacks of the first batch, then those of the second |
| Drop.RegistrationsOfGoverned | src/executor_manager/drop.rs:65-73 | when every dropped index is a ZomboDB index there is exactly one callback per index, in the same order |
| Drop.RegistrationsCount | src/executor_manager/drop.rs:29-34 | without repeated indices, the number of callbacks is the number of distinct ZomboDB indices dropped |
| Drop.NoDeduplication | src/executor_manager/drop.rs:65-73 | nothing is deduplicated: dropping the same indices twice registers each callback twice |
| Drop.TableRegistrations | src/executor_manager/drop.rs:29-34 | on a consistent catalog, a table drop registers exactly one commit callback per ZomboDB index of the table, and none for its other indices |
| Drop.QueryRegistrations | src/executor_manager/drop.rs:65-73 | dropping the rows of a query that selects ZomboDB indices gives one callback per row, in row order, and one per selected index |
| Drop.SchemaRegistrations | src/executor_manager/drop.rs:36-48 | the schema query's rows yield exactly one commit callback per ZomboDB index in the schema |
| Drop.ExtensionRegistrations | src/executor_manager/drop.rs:50-63 | the extension query's rows yield exactly one commit callback per ZomboDB index in the database |
| Drop.Values | src/executor_manager/drop.rs:66-69 | the oids read from NULL-free rows, one per row, in order |
| Drop.FirstNull | src/executor_manager/drop.rs:66-69 | the rows before the first NULL row are NULL-free, and the row there, if any, is NULL |
| Drop.FirstNullAt | src/executor_manager/drop.rs:66-69 | the first NULL position is unique |
| Drop.ScanResult | src/executor_manager/drop.rs:65-73 | a pass that stopped at a NULL row or at the end has handled exactly the oids before the first NULL, and was complete exactly when no row is NULL |
| Drop.AbortCallbacksUnchanged | src/executor_manager/drop.rs:16 | the drop hooks register for commit only: the callbacks waiting for abort are unchanged |
| Drop.Ok | src/executor_manager/drop.rs:24 | the definition of `.ok()` on the delete's response; what it means for the callback is stated by `Drop.DiscardingPreventsRaise` |
| Drop.RunCallback | src/executor_manager/drop.rs:16-25 | a callback deletes the index of the handle it captured and, after `.ok()`, returns normally whatever the delete request answers |
| Drop.DiscardingPreventsRaise | src/executor_manager/drop.rs:22-24 | `.ok()` has a value exactly when the delete succeeded; the callback as written and one that passed the error on (the alternative the source's comment rules out) end alike exactly then, and the latter raises the delete's own reason otherwise |
| Drop.TupleTable.Next | src/executor_manager/drop.rs:66 | the cursor moves to the next row and says whether there was one |
| Drop.TupleTable.GetOne | src/executor_manager/drop.rs:67-69 | the first column of the current row, `None` for NULL |
| Drop.Backend.RegisterXactCallback | src/executor_manager/drop.rs:16-25 | the callback is appended to the pending list |
| Drop.Backend.LockIndex | src/executor_manager/drop.rs:31 | the index is recorded as locked |
| Drop.Backend.LockAndDrop | src/executor_manager/drop.rs:31-32 | the index is locked and exactly `drop_index`'s registration for it is appended |
| Drop.Backend.DropCurrentRow | src/executor_manager/drop.rs:67-71 | on a NULL row nothing changes; otherwise the row's index is locked, its registration appended and the cursor moved to the next row |
| Drop.Backend.DropIndex | src/executor_manager/drop.rs:10-27 | appends one commit callback for the index if it is a ZomboDB index and nothing otherwise; the catalog is unchanged |
| Drop.Backend.DropTable | src/executor_manager/drop.rs:29-34 | locks every index on the table's list and appends their registrations in list order; on a consistent catalog one callback per ZomboDB index of the table |
| Drop.Backend.DropIndexOids | src/executor_manager/drop.rs:65-73 | locks and drops the index of each remaining row in order; completes exactly when no row is NULL, and otherwise has handled exactly the rows before the first NULL |
| Drop.Backend.DropSchema | src/executor_manager/drop.rs:36-48 | appends one commit callback for each ZomboDB index in the schema, and no other, and locks every index the rows name |
| Drop.Backend.DropExtension | src/executor_manager/drop.rs:50-63 | for ZomboDB's extension appends one commit callback per ZomboDB index and locks every index the rows name; for any other extension changes nothing |

## Left out

- Floats are opaque bit patterns that are passed through unchanged. IEEE semantics is not modelled.
- TermDsl.TermF32: serde_json turns a non-finite value into JSON `null`. This happens on both sides of the infinity and NaN tests. The model carries the bits through instead, so it does not say that such a value becomes `null`.
- TermDsl.TermF64: serde_json turns a non-finite value into JSON `null`, as for `TermF32`. The model carries the bits through.
- TermDsl.SerializeTerm: a non-finite boost would also be written as `null`. The model writes every boost as a float.
- The tests compare the `f32` boost `42.0 as f32` through serde_json numbers, which widen to `f64`. That widening is not modelled; the boost is compared as the same `f32` bits.
- The temporal serialisers belong to the Postgres binding library, and their code is not part of this model. The formats are written to reproduce the strings the tests expect.
  - Precision is milliseconds. Postgres keeps microseconds.
  - Years are limited to 1..9999. BC dates, `24:00:00` and leap seconds are not modelled.
  - Dates are not checked against the calendar, so a day of 31 is accepted in any month.
- TermDsl.TermTimeWithTimeZone: converting to UTC happens before serialisation and is not modelled. The value is taken as its UTC reading, and no test calls this entry point.
- TermDsl.TermTimestampWithTimeZone: converting to UTC is not modelled, as for `TermTimeWithTimeZone`. No test calls this entry point.
- JSON objects keep their members in insertion order, as serde_json's `Map` does with its `preserve_order` feature. Equality of `Json` values is order-sensitive, while serde_json's `Value` equality is not. The builder always writes `value` before `boost`.
- The `ZDBQuery` wrapper (`ZDBQuery::new_with_query_dsl`), the extension attributes on the entry points, the SQL overload resolution the tests go through, and the SPI plumbing of the tests are not modelled. A SQL `NULL` boost is `None`.
- `is_zdb_index` and `lookup_zdb_extension_oid` come from `src/utils.rs`, which is not part of this model. The first is taken to mean "the index uses the `zombodb` access method". The second is a field of the catalog.
- The SQL of the schema and extension queries is not run. The query rows are a parameter. `AnswersSchemaQuery` and `AnswersExtensionQuery` state which oids the rows hold, and `DropSchema` and `DropExtension` require their rows to satisfy them.
- Drop.Backend.DropIndexOids: the `expect` on a NULL oid panics, which aborts the transaction. The model returns `NullOid` instead. It keeps the callbacks already registered and says which rows were handled. It does not model the abort.
- Locking: `PgRelation::with_lock` is recorded only as a set of locked oids. Lock-manager semantics are not modelled.
- When pending callbacks run or are discarded belongs to `register_xact_callback` and is not modelled. `RunCallback` states what one call does.
  - The HTTP delete request is a parameter: its response.
  - The log line the callback writes and the base-URL formatting are not modelled.
- `Spi::connect`'s return value is not modelled, since nothing reads it.
