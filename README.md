# spf4j retry decisions and Avro measurement-store reader, in Dafny

This project models two pieces of spf4j:

- **`RetryDecision`** (module `Failsafe`, `retry_decision.dfy`). This is the immutable value a retry
  predicate returns. It is either Abort or Retry and carries a delay in nanoseconds, an optional
  substitute exception and an optional replacement callable. Every decision is built by one
  validating constructor, which refuses an Abort with a positive delay. The three factories
  (`abort()`, `abort(e)`, `retry(n, c)`) and the copy operation `withDelayNanos` all go through
  that constructor. The exception type and the callable type are opaque type parameters.
- **`AvroMeasurementStoreReader`** (module `MeasurementStore`, `measurement_store_reader.dfy`).
  The model keeps the reader's own logic and replaces the file system and the Avro container with
  parameters. A directory listing is a sequence of paths, and `Files.isDirectory` is a function.
  The info file's table definitions are a sequence of records, and `TableDefs.createSchema` is an
  opaque function. Opening a data file is a function that gives either the file's `timeRef` and
  records, or an I/O failure. `Closeables.closeAll` is a function from the paths whose streams it
  closes to the failure it reports, if any. With these parameters the model covers:
  - the selection of observation files next to an info file;
  - the grouping of table definitions by name;
  - the concatenation of the data files' observations, each shifted by its own file's time
    reference;
  - the cleanup when opening a data file fails.

Shared helpers: `Wrappers` (`Option` for Java's nullable references, `Result` for a value or a
thrown exception) and `JavaTypes` (`long` and `int` as subset types, with `long` addition wrapping
modulo 2^64 as Java's does).

How the delays behave:

- Abort decisions store a delay of -1 (`RetryDecision.java:45` and `:78`).
- The guard at `RetryDecision.java:63` refuses only an Abort with a positive delay. An Abort with
  delay 0 or with any negative delay is accepted.
- Retry delays are never checked, so a negative Retry delay is accepted.

## Model

| member | source | states |
|---|---|---|
| `Failsafe.New` | spf4j-experimental/src/main/java/org/spf4j/failsafe/RetryDecision.java:59-70 | Fails with an IllegalArgument carrying the delay exactly when the type is Abort and the delay is positive. Otherwise the decision holds the given type, delay, exception and callable and is a `ValidDecision` (Abort ⇒ delay ≤ 0). |
| `Failsafe.SharedAbort` | spf4j-experimental/src/main/java/org/spf4j/failsafe/RetryDecision.java:88-90 | `abort()` is a valid Abort with delay -1, no exception and no callable. |
| `Failsafe.SharedAbortIsCanonical` | spf4j-experimental/src/main/java/org/spf4j/failsafe/RetryDecision.java:45 | The singleton is the only Abort with delay -1 and neither exception nor callable. `abort(e)` differs from it only in its exception. |
| `Failsafe.AbortWith` | spf4j-experimental/src/main/java/org/spf4j/failsafe/RetryDecision.java:77-79 | `abort(e)` is a valid Abort with delay -1, exception `e` and no callable. |
| `Failsafe.RetryAfter` | spf4j-experimental/src/main/java/org/spf4j/failsafe/RetryDecision.java:81-83 | `retry(n, c)` never fails, for any `n` including negative ones. It is a Retry with delay exactly `n`, no exception and callable `c`. |
| `Failsafe.RetryDecision.WithDelayNanos` | spf4j-experimental/src/main/java/org/spf4j/failsafe/RetryDecision.java:107-109 | Fails exactly for an Abort given a positive delay. Otherwise the result is the receiver with only its delay replaced. The receiver itself is a value and stays unchanged. |
| `Failsafe.WithDelayNanosAccepts` | spf4j-experimental/src/main/java/org/spf4j/failsafe/RetryDecision.java:63-65 | A Retry accepts every new delay. An Abort accepts a new delay if and only if it is ≤ 0, whatever delay it had before. |
| `Failsafe.WithDelayNanosLastWins` | spf4j-experimental/src/main/java/org/spf4j/failsafe/RetryDecision.java:107-109 | Replacing the delay twice gives the same result as replacing it once with the second value. |
| `Failsafe.WithDelayNanosRestores` | spf4j-experimental/src/main/java/org/spf4j/failsafe/RetryDecision.java:107-109 | Re-applying a valid decision's own delay, when it fits an `int`, gives back the same decision. |
| `Failsafe.GettersRoundTrip` | spf4j-experimental/src/main/java/org/spf4j/failsafe/RetryDecision.java:92-114 | The constructor accepts a decision's four getter values exactly when the decision is valid. When it does, it rebuilds the same decision, so the getters return what was stored. |
| `JavaTypes.WrapLong` | spf4j-core/src/main/java/org/spf4j/perf/impl/ms/tsdb/AvroMeasurementStoreReader.java:202 | The result is a `long` congruent to the input modulo 2^64. It equals the input when the input is in range. |
| `JavaTypes.AddLong` | spf4j-core/src/main/java/org/spf4j/perf/impl/ms/tsdb/AvroMeasurementStoreReader.java:202 | Java `long` addition: the exact sum if it is in range; otherwise the sum minus 2^64 on overflow, or plus 2^64 on underflow. |
| `JavaTypes.AddNegateCancels` | spf4j-core/src/main/java/org/spf4j/perf/impl/ms/tsdb/AvroMeasurementStoreReader.java:202 | Adding `-a` undoes adding `a` for every pair of `long`s, including when the first addition overflows. |
| `MeasurementStore.ObservationPrefix` | spf4j-core/src/main/java/org/spf4j/perf/impl/ms/tsdb/AvroMeasurementStoreReader.java:95 | The prefix is the start of the file name, 14 characters shorter. A name shorter than 14 characters gives StringIndexOutOfBounds with end index length-14. |
| `MeasurementStore.PrefixIgnoresSuffix` | spf4j-core/src/main/java/org/spf4j/perf/impl/ms/tsdb/AvroMeasurementStoreReader.java:95 | For every `stem` and every 14-character `tail`, the prefix of `stem + tail` is `stem`: `stem + ".tabledef.avro"` yields `stem`, and the last 14 characters are dropped unchecked. |
| `MeasurementStore.SelectedMembers` | spf4j-core/src/main/java/org/spf4j/perf/impl/ms/tsdb/AvroMeasurementStoreReader.java:104-113 | An entry is selected if and only if it is listed, is not a directory, has a file name, starts with the prefix and ends with ".observation.avro". |
| `MeasurementStore.SelectedAppend` | spf4j-core/src/main/java/org/spf4j/perf/impl/ms/tsdb/AvroMeasurementStoreReader.java:115-117 | Selection keeps listing order and adds nothing: selecting from `xs + ys` gives the selection from `xs` followed by the selection from `ys`. |
| `MeasurementStore.LookupObservationFiles` | spf4j-core/src/main/java/org/spf4j/perf/impl/ms/tsdb/AvroMeasurementStoreReader.java:88-120 | Fails with InvalidInfoFile when the info path has no file name or no parent. Fails with StringIndexOutOfBounds when the name is under 14 characters; that check comes before the parent check. Otherwise the loop returns exactly the accepted entries, in listing order. |
| `MeasurementStore.OpenReader` | spf4j-core/src/main/java/org/spf4j/perf/impl/ms/tsdb/AvroMeasurementStoreReader.java:78-86 | The one-argument constructor, corrected: it fails as the lookup fails. Otherwise the reader's data files are exactly the looked-up files. |
| `MeasurementStore.DataFilesArray` | spf4j-core/src/main/java/org/spf4j/perf/impl/ms/tsdb/AvroMeasurementStoreReader.java:79 | `toArray(new Path[1])` as written. A non-empty list is copied in order. An empty list gives a one-slot array holding null. |
| `MeasurementStore.EmptyLookupLeavesNullDataFile` | spf4j-core/src/main/java/org/spf4j/perf/impl/ms/tsdb/AvroMeasurementStoreReader.java:79 | With no observation file found, the array handed to the reader has length 1 and its only entry is null. |
| `MeasurementStore.FirstIndex` | spf4j-core/src/main/java/org/spf4j/perf/impl/ms/tsdb/AvroMeasurementStoreReader.java:130-136 | The position of the first table definition with a given name: it has that name and no earlier record does. |
| `MeasurementStore.GroupedSpec` | spf4j-core/src/main/java/org/spf4j/perf/impl/ms/tsdb/AvroMeasurementStoreReader.java:127-141 | A name is grouped if and only if it passes the filter and some record has it. Its schema comes from the first record with that name. Its ids are exactly the ids of all records with that name. |
| `MeasurementStore.GroupTableDefs` | spf4j-core/src/main/java/org/spf4j/perf/impl/ms/tsdb/AvroMeasurementStoreReader.java:124-141 | The in-place map/set loop computes the grouping fold over the records in stream order. |
| `MeasurementStore.Project` | spf4j-core/src/main/java/org/spf4j/perf/impl/ms/tsdb/AvroMeasurementStoreReader.java:143-147 | Lists every group's schema with its ids attached, each group exactly once (as many entries as groups), in an unspecified order. |
| `MeasurementStore.GetMeasurements` | spf4j-core/src/main/java/org/spf4j/perf/impl/ms/tsdb/AvroMeasurementStoreReader.java:122-148 | Returns one schema per distinct name that passes the filter, so as many schemas as such names; names that fail it contribute nothing. Each schema is built from that name's first record and carries the ids of all records with that name. |
| `MeasurementStore.CalibratedInverse` | spf4j-core/src/main/java/org/spf4j/perf/impl/ms/tsdb/AvroMeasurementStoreReader.java:201-204 | Calibration changes only the timestamp, to `timeRef + relTimeStamp` when that does not overflow. Calibrating again with `-timeRef` restores the row. |
| `MeasurementStore.TimeCalibrate.constructor` | spf4j-core/src/main/java/org/spf4j/perf/impl/ms/tsdb/AvroMeasurementStoreReader.java:194-196 | Stores the file's time reference. |
| `MeasurementStore.TimeCalibrate.Apply` | spf4j-core/src/main/java/org/spf4j/perf/impl/ms/tsdb/AvroMeasurementStoreReader.java:201-204 | Mutates the row in place: the timestamp becomes the wrapped sum `fileTimeRef + relTimeStamp` and the other fields stay. Returns the same row object. |
| `MeasurementStore.CalibratedRows` | spf4j-core/src/main/java/org/spf4j/perf/impl/ms/tsdb/AvroMeasurementStoreReader.java:173 | The transformed stream of one file has its length, and row `k` is the file's row `k` calibrated by the file's `timeRef`. |
| `MeasurementStore.FlattenAt` | spf4j-core/src/main/java/org/spf4j/perf/impl/ms/tsdb/AvroMeasurementStoreReader.java:176 | The concatenation holds each stream whole and in order: element `k` of stream `i` sits at the total length of streams `0..i-1` plus `k`. |
| `MeasurementStore.GetObservations` | spf4j-core/src/main/java/org/spf4j/perf/impl/ms/tsdb/AvroMeasurementStoreReader.java:150-183 | With no data files the stream is empty. If every file opens, the stream is the files' calibrated streams concatenated in `dataFiles` order. If file `i` is the first that fails, exactly files `0..i-1` are closed. The close failure is then thrown with the open failure suppressed; without a close failure the open failure is rethrown. |
| `MeasurementStore.ObservationAt` | spf4j-core/src/main/java/org/spf4j/perf/impl/ms/tsdb/AvroMeasurementStoreReader.java:172-176 | Row `k` of data file `i` appears after all rows of the earlier files, with its timestamp shifted by file `i`'s own `timeRef`. |
| `MeasurementStore.EmptyLookupReaderYieldsEmpty` | spf4j-core/src/main/java/org/spf4j/perf/impl/ms/tsdb/AvroMeasurementStoreReader.java:153-155 | Opening a reader whose lookup found no data file and then reading its observations yields exactly the empty stream. |

## Findings

| source | as written | input that shows it | evidently intended | confidence | as-written member | corrected member |
|---|---|---|---|---|---|---|
| spf4j-core/src/main/java/org/spf4j/perf/impl/ms/tsdb/AvroMeasurementStoreReader.java:79 | The looked-up list is converted with a one-slot array argument. For an empty list that slot is reused, and Java sets it to null. | An info file whose directory holds no matching `*.observation.avro` file. `dataFiles` then has length 1 and holds null. `getObservations` skips its empty case (line 153) and passes null to `Files.newInputStream`, which throws a NullPointerException the `IOException` handler does not catch. | The data-file array is exactly the looked-up list, so the reader yields an empty stream (lines 153-155). | not executed; high | `MeasurementStore.DataFilesArray` (shown by `MeasurementStore.EmptyLookupLeavesNullDataFile`) | `MeasurementStore.OpenReader` (proved by `MeasurementStore.EmptyLookupReaderYieldsEmpty`) |

## Left out

- The rate limiter, the retry loop and the retry predicate that consume `RetryDecision` are not part of this model. Their implementations are not among the modelled files.
- The time-series tailer and the CSV writer are not part of this model. The first is concurrent file I/O; the second is an interface with no behaviour.
- `Failsafe.SharedAbort`: states the singleton's value, not its reference identity. Decisions are values here, so "the same instance" becomes "an equal value" (see `SharedAbortIsCanonical`).
- The constructor's `TimeUnit` parameter is dropped. Every caller passes nanoseconds, for which the conversion is the identity.
- `getNewCallable` is annotated non-null, but the abort factories store null. The model exposes the field as an `Option` and does not model the annotation.
- `toString` of both classes and the generic `Callable` payload: the callable is an opaque type parameter.
- I/O failures other than the failure to open a data file are not modelled: listing the directory, reading the info file, reading rows, and a missing `timeRef` metadata entry. The same goes for closing the info-file stream.
- Closing the iterable that `getObservations` returns (it closes every stream and wraps a failure in `UncheckedIOException`) is not modelled. The model ends when the iterable is returned.
- `Iterables.concat` and `Iterables.transform` are lazy. The model computes the concatenated rows eagerly, as values. The in-place update of one row is modelled separately by `TimeCalibrate.Apply`. Row-object aliasing across the stream is not modelled.
- The `closeables` array is not kept. The failure path records which files' streams it closes, and the `streams` array is kept as an array.
- `Closeables.closeAll` is not part of this model; its outcome is a parameter. `TableDefs.createSchema` and `Schema.addProp` are not part of this model either: a schema is an opaque value paired with its id set.
- Paths follow the JDK's Unix file system. Other file systems' path rules are not modelled. String lengths count Dafny characters, and Java's `String.length` counts UTF-16 units. The two agree only for names whose characters all lie in the Basic Multilingual Plane. A character outside it is one Dafny character but two Java units. For example, "😀" followed by 13 ASCII characters has Java length 15, so Java's prefix is a lone surrogate, while the model's name has length 14 and its prefix is empty. Names containing such characters are not modelled.
- `MeasurementStore.Project`: states the result order only as unspecified, because it is the hash map's iteration order.
