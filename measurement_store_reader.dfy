/**
 * The plain logic of the Avro measurement store reader, with the file system
 * and the Avro container format abstracted away:
 *  - a directory listing is a sequence of paths in the order the directory
 *    stream yields them, and `Files.isDirectory` is a parameter;
 *  - the table definitions of the info file are a sequence of records, and
 *    building an Avro schema from one is an opaque function;
 *  - opening a data file is a function from its path to either an open
 *    stream (its `timeRef` metadata and its records) or an I/O failure, and
 *    closing a set of already opened streams is a function from their paths
 *    to the I/O failure it reports, if any.
 */
module MeasurementStore {
  import opened Wrappers
  import opened JavaTypes

  /** Name suffix of the table-definition ("info") file; 14 characters. */
  const TABLEDEF_SUFFIX: string := ".tabledef.avro"

  /** Name suffix of the observation (data) files. */
  const OBSERVATION_SUFFIX: string := ".observation.avro"

  /**
   * A path as the JDK's Unix file system represents it: whether it is
   * absolute, then its name elements. The root is `Path(true, [])`; the empty
   * path has one empty name element, `Path(false, [""])`.
   */
  datatype Path = Path(absolute: bool, names: seq<string>) {

    /** `getFileName()`: the last name element, or null for the root. */
    function FileName(): Option<string> {
      if |names| == 0 then None else Some(names[|names| - 1])
    }

    /** `getParent()`: null for the root and for a relative path of one element. */
    function Parent(): Option<Path> {
      if |names| == 0 || (!absolute && |names| == 1) then None
      else Some(Path(absolute, names[..|names| - 1]))
    }
  }

  /** Errors the reader raises itself (I/O failures are modelled separately). */
  datatype ReaderError =
    | InvalidInfoFile(infoFile: Path)                                  // IllegalArgumentException
    | StringIndexOutOfBounds(begin: int, end: int, length: int)        // from String.substring

  // ---------------------------------------------------------------------------
  // Selecting the observation files that belong to an info file
  // ---------------------------------------------------------------------------

  /**
   * The info file's name with its last 14 characters (the length of
   * ".tabledef.avro") removed; which characters they are is not checked. A
   * shorter name makes `substring` throw.
   */
  function ObservationPrefix(fileName: string): (r: Result<string, ReaderError>)
    ensures r.Success? <==> |fileName| >= |TABLEDEF_SUFFIX|
    ensures r.Success? ==> r.value <= fileName && |r.value| + |TABLEDEF_SUFFIX| == |fileName|
    ensures r.Failure? ==> r.error == StringIndexOutOfBounds(0, |fileName| - |TABLEDEF_SUFFIX|, |fileName|)
  {
    var end := |fileName| - |TABLEDEF_SUFFIX|;
    if end < 0 then Failure(StringIndexOutOfBounds(0, end, |fileName|))
    else Success(fileName[..end])
  }

  /**
   * The prefix is the name without its last 14 characters, whatever they
   * are: `stem + ".tabledef.avro"` yields `stem`, and so does a name that
   * ends in any other 14 characters.
   */
  lemma PrefixIgnoresSuffix(stem: string, tail: string)
    requires |tail| == |TABLEDEF_SUFFIX|
    ensures ObservationPrefix(stem + tail) == Success(stem)
  {
    assert (stem + tail)[..|stem|] == stem;
  }

  /** `String.endsWith`. */
  predicate EndsWith(s: string, suffix: string) {
    |suffix| <= |s| && s[|s| - |suffix|..] == suffix
  }

  /** The directory-stream filter: a non-directory named `<prefix>*.observation.avro`. */
  predicate Accept(prefix: string, isDirectory: Path -> bool, entry: Path) {
    && !isDirectory(entry)
    && entry.FileName().Some?
    && prefix <= entry.FileName().value
    && EndsWith(entry.FileName().value, OBSERVATION_SUFFIX)
  }

  /** The accepted entries of a listing, in listing order. */
  function Selected(prefix: string, isDirectory: Path -> bool, entries: seq<Path>): seq<Path>
  {
    if entries == [] then []
    else
      var last := entries[|entries| - 1];
      Selected(prefix, isDirectory, entries[..|entries| - 1])
        + (if Accept(prefix, isDirectory, last) then [last] else [])
  }

  /** An entry is selected if and only if it is listed and accepted. */
  lemma {:induction false} SelectedMembers(prefix: string, isDirectory: Path -> bool, entries: seq<Path>, e: Path)
    ensures e in Selected(prefix, isDirectory, entries) <==> e in entries && Accept(prefix, isDirectory, e)
    decreases |entries|
  {
    if entries != [] {
      var init := entries[..|entries| - 1];
      SelectedMembers(prefix, isDirectory, init, e);
      assert entries == init + [entries[|entries| - 1]];
    }
  }

  /**
   * Selection keeps the listing order and adds nothing: selecting from two
   * consecutive stretches of a listing is selecting from each in turn.
   */
  lemma {:induction false} SelectedAppend(prefix: string, isDirectory: Path -> bool, xs: seq<Path>, ys: seq<Path>)
    ensures Selected(prefix, isDirectory, xs + ys)
         == Selected(prefix, isDirectory, xs) + Selected(prefix, isDirectory, ys)
    decreases |ys|
  {
    if ys == [] {
      assert xs + ys == xs;
    } else {
      var init := ys[..|ys| - 1];
      SelectedAppend(prefix, isDirectory, xs, init);
      assert (xs + ys)[..|xs + ys| - 1] == xs + init;
      assert (xs + ys)[|xs + ys| - 1] == ys[|ys| - 1];
    }
  }

  /** What `lookupObservationFiles` computes, in the order it checks things. */
  function Lookup(infoFile: Path, isDirectory: Path -> bool, listing: seq<Path>): Result<seq<Path>, ReaderError>
  {
    match infoFile.FileName()
    case None => Failure(InvalidInfoFile(infoFile))
    case Some(fileName) =>
      match ObservationPrefix(fileName)
      case Failure(e) => Failure(e)
      case Success(prefix) =>
        if infoFile.Parent().None? then Failure(InvalidInfoFile(infoFile))
        else Success(Selected(prefix, isDirectory, listing))
  }

  /**
   * `lookupObservationFiles`: `listing` is the content of the info file's
   * parent directory. Fails when the info file has no name, when the name is
   * too short to drop the suffix from, or when it has no parent; otherwise
   * returns the accepted entries in listing order.
   */
  method LookupObservationFiles(infoFile: Path, isDirectory: Path -> bool, listing: seq<Path>)
    returns (r: Result<seq<Path>, ReaderError>)
    ensures r == Lookup(infoFile, isDirectory, listing)
    ensures infoFile.FileName().None? ==> r == Failure(InvalidInfoFile(infoFile))
    ensures r.Success? <==>
      infoFile.FileName().Some? && |infoFile.FileName().value| >= |TABLEDEF_SUFFIX| && infoFile.Parent().Some?
    ensures r.Success? ==> forall e :: e in r.value <==>
      e in listing && Accept(ObservationPrefix(infoFile.FileName().value).value, isDirectory, e)
  {
    var fn := infoFile.FileName();
    if fn.None? {
      return Failure(InvalidInfoFile(infoFile));
    }
    var fileName := fn.value;
    var prefixOrError := ObservationPrefix(fileName);
    if prefixOrError.Failure? {
      return Failure(prefixOrError.error);
    }
    var prefix := prefixOrError.value;
    var parent := infoFile.Parent();
    if parent.None? {
      return Failure(InvalidInfoFile(infoFile));
    }
    var dataFiles: seq<Path> := [];
    var i := 0;
    while i < |listing|
      invariant 0 <= i <= |listing|
      invariant dataFiles == Selected(prefix, isDirectory, listing[..i])
    {
      assert listing[..i + 1][..i] == listing[..i];
      if Accept(prefix, isDirectory, listing[i]) {
        dataFiles := dataFiles + [listing[i]];
      }
      i := i + 1;
    }
    assert listing[..i] == listing;
    forall e ensures e in dataFiles <==> e in listing && Accept(prefix, isDirectory, e) {
      SelectedMembers(prefix, isDirectory, listing, e);
    }
    r := Success(dataFiles);
  }

  // ---------------------------------------------------------------------------
  // The reader and its construction
  // ---------------------------------------------------------------------------

  /** A reader: the info file and the data files, both fixed at construction. */
  datatype Reader = Reader(infoFile: Path, dataFiles: seq<Path>)

  /**
   * The one-argument constructor as written: the looked-up list goes through
   * `toArray(new Path[1])`, which reuses the one-slot array when the list
   * has at most one element and so leaves a null in it when the list is empty.
   */
  function DataFilesArray(found: seq<Path>): (r: seq<Option<Path>>)
    ensures |found| == 0 ==> r == [None]
    ensures |found| > 0 ==> |r| == |found| && forall i :: 0 <= i < |r| ==> r[i] == Some(found[i])
  {
    if |found| == 0 then [None] else seq(|found|, i requires 0 <= i < |found| => Some(found[i]))
  }

  /**
   * With no observation file next to the info file, the array handed to the
   * reader is not empty: it holds one null path, so `getObservations` skips
   * its empty case and passes null to `Files.newInputStream`.
   */
  lemma EmptyLookupLeavesNullDataFile()
    ensures |DataFilesArray([])| == 1 && DataFilesArray([])[0].None?
  {
  }

  /**
   * The one-argument constructor as evidently intended: the reader's data
   * files are exactly the looked-up files (`toArray(new Path[0])`).
   */
  method OpenReader(infoFile: Path, isDirectory: Path -> bool, listing: seq<Path>)
    returns (r: Result<Reader, ReaderError>)
    ensures r.Success? <==> Lookup(infoFile, isDirectory, listing).Success?
    ensures r.Failure? ==> r.error == Lookup(infoFile, isDirectory, listing).error
    ensures r.Success? ==> r.value == Reader(infoFile, Lookup(infoFile, isDirectory, listing).value)
  {
    var found := LookupObservationFiles(infoFile, isDirectory, listing);
    match found
    case Failure(e) => r := Failure(e);
    case Success(files) => r := Success(Reader(infoFile, files));
  }

  // ---------------------------------------------------------------------------
  // Table definitions grouped by name
  // ---------------------------------------------------------------------------

  /**
   * A table definition record: its id, its table name and the remaining
   * fields (`D`), which only the schema builder reads.
   */
  datatype TableDef<D> = TableDef(id: Long, name: string, detail: D)

  /** A schema together with the ids of all table definitions it stands for. */
  datatype Measurement<S> = Measurement(schema: S, ids: set<Long>)

  /** One iteration of the grouping loop. */
  function GroupStep<D, S>(groups: map<string, Measurement<S>>, td: TableDef<D>,
                           filter: string -> bool, createSchema: TableDef<D> -> S): map<string, Measurement<S>>
  {
    if !filter(td.name) then groups
    else if td.name in groups then
      groups[td.name := groups[td.name].(ids := groups[td.name].ids + {td.id})]
    else
      groups[td.name := Measurement(createSchema(td), {td.id})]
  }

  /** The map the grouping loop has built after the given records. */
  function Grouped<D, S>(defs: seq<TableDef<D>>, filter: string -> bool, createSchema: TableDef<D> -> S)
    : map<string, Measurement<S>>
  {
    if defs == [] then map[]
    else GroupStep(Grouped(defs[..|defs| - 1], filter, createSchema), defs[|defs| - 1], filter, createSchema)
  }

  predicate HasName<D>(defs: seq<TableDef<D>>, name: string) {
    exists k :: 0 <= k < |defs| && defs[k].name == name
  }

  /** The position of the first record with the given name. */
  function FirstIndex<D>(defs: seq<TableDef<D>>, name: string): (i: nat)
    requires HasName(defs, name)
    ensures i < |defs| && defs[i].name == name
    ensures forall j :: 0 <= j < i ==> defs[j].name != name
  {
    if defs[0].name == name then 0
    else
      assert HasName(defs[1..], name) by {
        var k :| 0 <= k < |defs| && defs[k].name == name;
        assert defs[1..][k - 1].name == name;
      }
      1 + FirstIndex(defs[1..], name)
  }

  /** The ids of all records with the given name. */
  function IdsNamed<D>(defs: seq<TableDef<D>>, name: string): set<Long> {
    set k | 0 <= k < |defs| && defs[k].name == name :: defs[k].id
  }

  lemma FirstIndexOfPrefix<D>(init: seq<TableDef<D>>, defs: seq<TableDef<D>>, name: string)
    requires init <= defs && HasName(init, name)
    ensures HasName(defs, name) && FirstIndex(defs, name) == FirstIndex(init, name)
  {
    var i := FirstIndex(init, name);
    assert defs[i] == init[i];
    var j := FirstIndex(defs, name);
    assert j <= i;
    assert init[j] == defs[j];
  }

  lemma HasNameSnoc<D>(init: seq<TableDef<D>>, td: TableDef<D>, name: string)
    ensures HasName(init + [td], name) <==> HasName(init, name) || td.name == name
  {
    var defs := init + [td];
    if HasName(defs, name) && td.name != name {
      var k :| 0 <= k < |defs| && defs[k].name == name;
      assert init[k].name == name;
    }
    if HasName(init, name) {
      var k :| 0 <= k < |init| && init[k].name == name;
      assert defs[k].name == name;
    }
    if td.name == name {
      assert defs[|init|].name == name;
    }
  }

  lemma IdsNamedSnoc<D>(init: seq<TableDef<D>>, td: TableDef<D>, name: string)
    ensures IdsNamed(init + [td], name) == IdsNamed(init, name) + (if td.name == name then {td.id} else {})
    ensures !HasName(init, name) ==> IdsNamed(init, name) == {}
  {
    var defs := init + [td];
    forall x ensures x in IdsNamed(defs, name) <==> x in IdsNamed(init, name) + (if td.name == name then {td.id} else {}) {
      if x in IdsNamed(defs, name) {
        var k :| 0 <= k < |defs| && defs[k].name == name && defs[k].id == x;
        if k < |init| {
          assert init[k] == defs[k];
        }
      }
      if x in IdsNamed(init, name) {
        var k :| 0 <= k < |init| && init[k].name == name && init[k].id == x;
        assert defs[k] == init[k];
      }
      if td.name == name && x == td.id {
        assert defs[|init|] == td;
      }
    }
  }

  lemma FirstIndexOfLast<D>(init: seq<TableDef<D>>, td: TableDef<D>, name: string)
    requires !HasName(init, name) && td.name == name
    ensures HasName(init + [td], name) && FirstIndex(init + [td], name) == |init|
  {
    var defs := init + [td];
    assert defs[|init|].name == name;
    assert forall j :: 0 <= j < |init| ==> defs[j] == init[j];
  }

  /**
   * The grouping keeps exactly the names that pass the filter, builds each
   * schema from the first record with that name, and collects the ids of all
   * records with that name.
   */
  lemma {:induction false} GroupedSpec<D, S>(defs: seq<TableDef<D>>, filter: string -> bool,
                                             createSchema: TableDef<D> -> S, name: string)
    ensures name in Grouped(defs, filter, createSchema) <==> filter(name) && HasName(defs, name)
    ensures name in Grouped(defs, filter, createSchema) ==>
      Grouped(defs, filter, createSchema)[name]
        == Measurement(createSchema(defs[FirstIndex(defs, name)]), IdsNamed(defs, name))
    decreases |defs|
  {
    if defs != [] {
      var init := defs[..|defs| - 1];
      var td := defs[|defs| - 1];
      assert defs == init + [td];
      GroupedSpec(init, filter, createSchema, name);
      HasNameSnoc(init, td, name);
      IdsNamedSnoc(init, td, name);
      if HasName(init, name) {
        FirstIndexOfPrefix(init, defs, name);
      } else if td.name == name {
        FirstIndexOfLast(init, td, name);
      }
    }
  }

  /** The grouping loop (`THashMap` of name to schema and `HashSet` of ids). */
  method GroupTableDefs<D, S>(defs: seq<TableDef<D>>, filter: string -> bool, createSchema: TableDef<D> -> S)
    returns (groups: map<string, Measurement<S>>)
    ensures groups == Grouped(defs, filter, createSchema)
  {
    groups := map[];
    var i := 0;
    while i < |defs|
      invariant 0 <= i <= |defs|
      invariant groups == Grouped(defs[..i], filter, createSchema)
    {
      assert defs[..i + 1][..i] == defs[..i];
      var td := defs[i];
      var name := td.name;
      if filter(name) {
        if name !in groups {
          groups := groups[name := Measurement(createSchema(td), {td.id})];
        } else {
          groups := groups[name := groups[name].(ids := groups[name].ids + {td.id})];
        }
      }
      i := i + 1;
    }
    assert defs[..i] == defs;
  }

  /**
   * The final projection: every group's schema, with its ids attached, once
   * each, in the hash map's (unspecified) iteration order. `names` records
   * which group each position came from.
   */
  method Project<S>(groups: map<string, Measurement<S>>)
    returns (ms: seq<Measurement<S>>, ghost names: seq<string>)
    ensures |ms| == |groups|
    ensures |names| == |ms|
    ensures forall i, j :: 0 <= i < j < |names| ==> names[i] != names[j]
    ensures forall n :: n in names <==> n in groups
    ensures forall i :: 0 <= i < |ms| ==> names[i] in groups && ms[i] == groups[names[i]]
  {
    var rest := groups.Keys;
    ms, names := [], [];
    while rest != {}
      invariant rest <= groups.Keys
      invariant |ms| == |names| && |names| + |rest| == |groups.Keys|
      invariant forall i, j :: 0 <= i < j < |names| ==> names[i] != names[j]
      invariant forall n :: n in names ==> n in groups && n !in rest
      invariant forall n :: n in groups ==> n in rest || n in names
      invariant forall i :: 0 <= i < |ms| ==> names[i] in groups && ms[i] == groups[names[i]]
      decreases |rest|
    {
      var n :| n in rest;
      names := names + [n];
      ms := ms + [groups[n]];
      rest := rest - {n};
    }
    assert |groups.Keys| == |groups|;
  }

  /**
   * `getMeasurements`: `defs` are the info file's records in order. Returns
   * one schema per distinct name that passes the filter, built from the first
   * record with that name and carrying the ids of all records with that name.
   */
  method GetMeasurements<D, S>(defs: seq<TableDef<D>>, filter: string -> bool, createSchema: TableDef<D> -> S)
    returns (ms: seq<Measurement<S>>, ghost names: seq<string>)
    ensures |ms| == |PassingNames(defs, filter)|
    ensures forall i :: 0 <= i < |ms| ==> BuiltFromPassingRecord(defs, filter, createSchema, ms[i])
    ensures |names| == |ms|
    ensures forall i, j :: 0 <= i < j < |names| ==> names[i] != names[j]
    ensures forall n :: n in names <==> filter(n) && HasName(defs, n)
    ensures forall i :: 0 <= i < |ms| ==>
      && HasName(defs, names[i])
      && ms[i] == Measurement(createSchema(defs[FirstIndex(defs, names[i])]), IdsNamed(defs, names[i]))
  {
    var groups := GroupTableDefs(defs, filter, createSchema);
    ms, names := Project(groups);
    ProjectedEntries(defs, filter, createSchema, groups, ms, names);
    ProjectedWitnesses(defs, filter, createSchema, ms, names);
    ProjectedCount(defs, filter, names);
  }

  lemma ProjectedEntries<D, S>(defs: seq<TableDef<D>>, filter: string -> bool, createSchema: TableDef<D> -> S,
                               groups: map<string, Measurement<S>>, ms: seq<Measurement<S>>, names: seq<string>)
    requires groups == Grouped(defs, filter, createSchema) && |ms| == |names|
    requires forall n :: n in names <==> n in groups
    requires forall i :: 0 <= i < |ms| ==> names[i] in groups && ms[i] == groups[names[i]]
    ensures forall n :: n in names <==> filter(n) && HasName(defs, n)
    ensures forall i :: 0 <= i < |ms| ==>
      && HasName(defs, names[i])
      && ms[i] == Measurement(createSchema(defs[FirstIndex(defs, names[i])]), IdsNamed(defs, names[i]))
  {
    forall n ensures n in groups <==> filter(n) && HasName(defs, n) {
      GroupedSpec(defs, filter, createSchema, n);
    }
    forall i | 0 <= i < |ms|
      ensures HasName(defs, names[i])
      ensures ms[i] == Measurement(createSchema(defs[FirstIndex(defs, names[i])]), IdsNamed(defs, names[i]))
    {
      GroupedSpec(defs, filter, createSchema, names[i]);
    }
  }

  lemma ProjectedWitnesses<D, S>(defs: seq<TableDef<D>>, filter: string -> bool, createSchema: TableDef<D> -> S,
                                 ms: seq<Measurement<S>>, names: seq<string>)
    requires |ms| == |names|
    requires forall n :: n in names ==> filter(n)
    requires forall i :: 0 <= i < |ms| ==>
      && HasName(defs, names[i])
      && ms[i] == Measurement(createSchema(defs[FirstIndex(defs, names[i])]), IdsNamed(defs, names[i]))
    ensures forall i :: 0 <= i < |ms| ==> BuiltFromPassingRecord(defs, filter, createSchema, ms[i])
  {
    forall i | 0 <= i < |ms| ensures BuiltFromPassingRecord(defs, filter, createSchema, ms[i])
    {
      var k := FirstIndex(defs, names[i]);
      assert names[i] in names;
      assert defs[k].id in IdsNamed(defs, names[i]);
      assert 0 <= k < |defs| && filter(defs[k].name)
        && ms[i].schema == createSchema(defs[k]) && defs[k].id in ms[i].ids;
    }
  }

  lemma ProjectedCount<D>(defs: seq<TableDef<D>>, filter: string -> bool, names: seq<string>)
    requires forall i, j :: 0 <= i < j < |names| ==> names[i] != names[j]
    requires forall n :: n in names <==> filter(n) && HasName(defs, n)
    ensures |names| == |PassingNames(defs, filter)|
  {
    assert (set n | n in names) == PassingNames(defs, filter) by {
      forall n ensures n in names <==> n in PassingNames(defs, filter) {
        if n in names {
          var k := FirstIndex(defs, n);
          assert defs[k].name == n;
        }
      }
    }
    DistinctCard(names);
  }

  /** `m` takes its schema from a record that passes the filter and holds that record's id. */
  ghost predicate BuiltFromPassingRecord<D, S>(defs: seq<TableDef<D>>, filter: string -> bool,
                                               createSchema: TableDef<D> -> S, m: Measurement<S>)
  {
    exists k :: 0 <= k < |defs| && filter(defs[k].name) && m.schema == createSchema(defs[k]) && defs[k].id in m.ids
  }

  /** The distinct names that pass the filter. */
  ghost function PassingNames<D>(defs: seq<TableDef<D>>, filter: string -> bool): set<string> {
    set k | 0 <= k < |defs| && filter(defs[k].name) :: defs[k].name
  }

  lemma {:induction false} DistinctCard(s: seq<string>)
    requires forall i, j :: 0 <= i < j < |s| ==> s[i] != s[j]
    ensures |set x | x in s| == |s|
    decreases |s|
  {
    if s != [] {
      var init := s[..|s| - 1];
      DistinctCard(init);
      assert (set x | x in s) == (set x | x in init) + {s[|s| - 1]};
      assert s[|s| - 1] !in init;
    }
  }

  // ---------------------------------------------------------------------------
  // Observations, shifted by each file's time reference
  // ---------------------------------------------------------------------------

  /** An observation record: timestamp relative to its file's `timeRef`, table id and values. */
  datatype Observation = Observation(relTimeStamp: Long, tableDefId: Long, data: seq<Long>)

  /** The row `TimeCalibrate` leaves behind: the timestamp shifted by `timeRef`, with `long` wrap-around. */
  function Calibrated(timeRef: Long, row: Observation): Observation {
    row.(relTimeStamp := AddLong(timeRef, row.relTimeStamp))
  }

  /** Calibration shifts only the timestamp, and shifting back by `-timeRef` undoes it. */
  lemma CalibratedInverse(timeRef: Long, row: Observation)
    ensures Calibrated(timeRef, row).tableDefId == row.tableDefId
    ensures Calibrated(timeRef, row).data == row.data
    ensures -TWO_63 <= timeRef + row.relTimeStamp < TWO_63 ==>
      Calibrated(timeRef, row).relTimeStamp == timeRef + row.relTimeStamp
    ensures Calibrated(NegateLong(timeRef), Calibrated(timeRef, row)) == row
  {
    AddNegateCancels(timeRef, row.relTimeStamp);
  }

  /** A mutable observation row, as the Avro reader hands it out. */
  class ObservationRow {
    var relTimeStamp: Long
    var tableDefId: Long
    var data: seq<Long>

    function Value(): Observation
      reads this
    {
      Observation(relTimeStamp, tableDefId, data)
    }

    constructor (o: Observation)
      ensures Value() == o
    {
      relTimeStamp, tableDefId, data := o.relTimeStamp, o.tableDefId, o.data;
    }
  }

  /** The function object applied to every row of one data file. */
  class TimeCalibrate {
    const fileTimeRef: Long

    constructor (fileTimeRef: Long)
      ensures this.fileTimeRef == fileTimeRef
    {
      this.fileTimeRef := fileTimeRef;
    }

    /** Shifts the row's timestamp in place and returns the same row. */
    method Apply(row: ObservationRow) returns (r: ObservationRow)
      modifies row
      ensures r == row
      ensures row.Value() == Calibrated(fileTimeRef, old(row.Value()))
    {
      row.relTimeStamp := AddLong(fileTimeRef, row.relTimeStamp);
      r := row;
    }
  }

  /** What opening one data file yields. */
  datatype OpenOutcome<X> =
    | Opened(timeRef: Long, rows: seq<Observation>)
    | OpenFailed(error: X)

  /** An exception as thrown, with the exceptions attached to it as suppressed. */
  datatype Thrown<X> = Thrown(error: X, suppressed: seq<X>)

  /** The result of `getObservations`. */
  datatype Observations<X> =
    | Stream(rows: seq<Observation>)
    | OpenError(thrown: Thrown<X>, closed: seq<Path>)

  /** One file's rows as the transformed stream yields them. */
  function CalibratedRows(timeRef: Long, rows: seq<Observation>): (r: seq<Observation>)
    ensures |r| == |rows|
    ensures forall k :: 0 <= k < |rows| ==> r[k] == Calibrated(timeRef, rows[k])
  {
    seq(|rows|, k requires 0 <= k < |rows| => Calibrated(timeRef, rows[k]))
  }

  /** `Iterables.concat`. */
  function Flatten(streams: seq<seq<Observation>>): seq<Observation> {
    if streams == [] then [] else Flatten(streams[..|streams| - 1]) + streams[|streams| - 1]
  }

  /** Where the stream of file `i` starts in the concatenation. */
  function Offset(streams: seq<seq<Observation>>, i: nat): nat
    requires i <= |streams|
  {
    if i == 0 then 0 else Offset(streams, i - 1) + |streams[i - 1]|
  }

  /** The concatenation holds every stream, whole and in order, at its offset. */
  lemma {:induction false} FlattenAt(streams: seq<seq<Observation>>, i: nat, k: nat)
    requires i < |streams| && k < |streams[i]|
    ensures Offset(streams, i) + k < |Flatten(streams)|
    ensures Flatten(streams)[Offset(streams, i) + k] == streams[i][k]
    decreases |streams|
  {
    var n := |streams| - 1;
    var init := streams[..n];
    OffsetOfPrefix(init, streams, i);
    OffsetOfPrefix(init, streams, n);
    FlattenLength(init);
    if i < n {
      FlattenAt(init, i, k);
    }
  }

  lemma {:induction false} FlattenLength(streams: seq<seq<Observation>>)
    ensures |Flatten(streams)| == Offset(streams, |streams|)
    decreases |streams|
  {
    if streams != [] {
      var init := streams[..|streams| - 1];
      FlattenLength(init);
      OffsetOfPrefix(init, streams, |init|);
    }
  }

  lemma {:induction false} OffsetOfPrefix(init: seq<seq<Observation>>, streams: seq<seq<Observation>>, i: nat)
    requires init <= streams && i <= |init|
    ensures Offset(init, i) == Offset(streams, i)
    decreases i
  {
    if i > 0 {
      OffsetOfPrefix(init, streams, i - 1);
      assert init[i - 1] == streams[i - 1];
    }
  }

  /** Opening file `i` fails while every earlier file opened. */
  predicate FirstOpenFailure<X>(dataFiles: seq<Path>, open: Path -> OpenOutcome<X>, i: int) {
    && 0 <= i < |dataFiles|
    && open(dataFiles[i]).OpenFailed?
    && forall k :: 0 <= k < i ==> open(dataFiles[k]).Opened?
  }

  predicate AllOpened<X>(dataFiles: seq<Path>, open: Path -> OpenOutcome<X>) {
    forall k :: 0 <= k < |dataFiles| ==> open(dataFiles[k]).Opened?
  }

  /** The calibrated stream of every data file, in `dataFiles` order. */
  function StreamsOf<X>(dataFiles: seq<Path>, open: Path -> OpenOutcome<X>): (r: seq<seq<Observation>>)
    requires AllOpened(dataFiles, open)
    ensures |r| == |dataFiles|
  {
    seq(|dataFiles|, i requires 0 <= i < |dataFiles| && AllOpened(dataFiles, open) =>
      CalibratedRows(open(dataFiles[i]).timeRef, open(dataFiles[i]).rows))
  }

  /** The exception the failure path throws: the close failure, if any, with the open failure suppressed. */
  function Rethrown<X>(openError: X, closeError: Option<X>): Thrown<X> {
    match closeError
    case Some(c) => Thrown(c, [openError])
    case None => Thrown(openError, [])
  }

  /**
   * `getObservations`: `open` says what opening each data file yields and
   * `closeAll` what closing the streams opened on the given paths reports.
   * With no data files the result is empty. If every file opens, the result
   * is the files' rows in `dataFiles` order, each shifted by its own file's
   * `timeRef`. If file `i` is the first that fails to open, exactly the
   * streams of files `0..i-1` are closed and the failure is rethrown.
   */
  method GetObservations<X>(dataFiles: seq<Path>, open: Path -> OpenOutcome<X>, closeAll: seq<Path> -> Option<X>)
    returns (r: Observations<X>)
    ensures dataFiles == [] ==> r == Stream([])
    ensures AllOpened(dataFiles, open) ==> r == Stream(Flatten(StreamsOf(dataFiles, open)))
    ensures forall i :: FirstOpenFailure(dataFiles, open, i) ==>
      r == OpenError(Rethrown(open(dataFiles[i]).error, closeAll(dataFiles[..i])), dataFiles[..i])
  {
    if |dataFiles| == 0 {
      return Stream([]);
    }
    var streams := new seq<Observation>[|dataFiles|];
    var i := 0;
    while i < |dataFiles|
      invariant 0 <= i <= |dataFiles|
      invariant AllOpened(dataFiles[..i], open)
      invariant forall k :: 0 <= k < i ==>
        streams[k] == CalibratedRows(open(dataFiles[k]).timeRef, open(dataFiles[k]).rows)
    {
      var dataFile := dataFiles[i];
      var ds := open(dataFile);
      if ds.OpenFailed? {
        assert FirstOpenFailure(dataFiles, open, i);
        FirstOpenFailureUnique(dataFiles, open, i);
        return OpenError(Rethrown(ds.error, closeAll(dataFiles[..i])), dataFiles[..i]);
      }
      var fileTimeRef := ds.timeRef;
      streams[i] := CalibratedRows(fileTimeRef, ds.rows);
      i := i + 1;
    }
    assert AllOpened(dataFiles, open);
    assert streams[..] == StreamsOf(dataFiles, open);
    r := Stream(Flatten(streams[..]));
  }

  lemma FirstOpenFailureUnique<X>(dataFiles: seq<Path>, open: Path -> OpenOutcome<X>, i: int)
    requires FirstOpenFailure(dataFiles, open, i)
    ensures !AllOpened(dataFiles, open)
    ensures forall j :: FirstOpenFailure(dataFiles, open, j) ==> j == i
  {
  }

  /**
   * Row `k` of data file `i` appears in the observation stream at offset
   * `k` past the rows of the earlier files, with its timestamp shifted by
   * file `i`'s `timeRef` and nothing else changed.
   */
  lemma ObservationAt<X>(dataFiles: seq<Path>, open: Path -> OpenOutcome<X>, i: nat, k: nat)
    requires AllOpened(dataFiles, open) && i < |dataFiles| && k < |open(dataFiles[i]).rows|
    ensures var streams := StreamsOf(dataFiles, open);
      Offset(streams, i) + k < |Flatten(streams)|
      && Flatten(streams)[Offset(streams, i) + k]
         == Calibrated(open(dataFiles[i]).timeRef, open(dataFiles[i]).rows[k])
  {
    FlattenAt(StreamsOf(dataFiles, open), i, k);
  }

  /**
   * Opening a reader on an info file whose directory holds no matching
   * observation file, then reading its observations, yields an empty stream:
   * no data file is opened and nothing is thrown.
   */
  method EmptyLookupReaderYieldsEmpty<X>(infoFile: Path, isDirectory: Path -> bool, listing: seq<Path>,
                                         open: Path -> OpenOutcome<X>, closeAll: seq<Path> -> Option<X>)
    returns (o: Observations<X>)
    requires Lookup(infoFile, isDirectory, listing) == Success([])
    ensures o == Stream([])
  {
    var rd := OpenReader(infoFile, isDirectory, listing);
    o := GetObservations(rd.value.dataFiles, open, closeAll);
  }
}
