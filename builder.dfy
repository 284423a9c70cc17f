/**
 * The pprof profile builder: it owns the string table, the function,
 * mapping and sample-type message sets, the memoised locations hash and
 * the sample list, fills them as backtraces arrive, and assembles them
 * into one Profile.
 */
module ProfileBuilder {
  import opened Optional
  import opened Pprof
  import opened Backtrace
  import Registry
  import opened StringTables
  import opened MessageSets

  /** What code identification resolves a path to: an artifact's file name and, when known, its build id. */
  datatype CodeUnit = CodeUnit(filename: string, buildId: Option<string>)

  /** Key of the function table: the arguments `fetch` is called with. */
  datatype FunctionKey = FunctionKey(filename: string, functionName: string)

  /** Key of the sample-type table. */
  datatype ValueTypeKey = ValueTypeKey(typ: string, unit: string)

  /** Index `i` of `strings` holds `s`. */
  ghost predicate Names(strings: seq<string>, i: nat, s: string) {
    i < |strings| && strings[i] == s
  }

  ghost predicate IsFunctionEntry(f: Function, id: nat, key: FunctionKey, strings: seq<string>) {
    f.id == id && Names(strings, f.name, key.functionName) && Names(strings, f.filename, key.filename)
  }

  /**
   * `m` is the Mapping built with id `id` for the artifact `filename` whose
   * build id was `buildId`: its build id is absent exactly when none was
   * given, and otherwise names it.
   */
  ghost predicate IsMappingEntry(m: Mapping, id: nat, filename: string, buildId: Option<string>, strings: seq<string>) {
    && m.id == id && Names(strings, m.filename, filename)
    && (m.buildId.None? <==> buildId.None?)
    && (buildId.Some? ==> Names(strings, m.buildId.value, buildId.value))
  }

  /** The function table: entry `i` has id `i + 1` and names its key's strings. */
  ghost predicate FunctionTable(keys: seq<FunctionKey>, messages: seq<Function>, strings: seq<string>) {
    && |messages| == |keys|
    && forall i {:trigger messages[i]} | 0 <= i < |keys| :: IsFunctionEntry(messages[i], i + 1, keys[i], strings)
  }

  /**
   * The mapping table: entry `i` has id `i + 1`, names its file name, and
   * carries the build id `buildIds[i]` it was registered with.
   */
  ghost predicate MappingTable(keys: seq<string>, buildIds: seq<Option<string>>, messages: seq<Mapping>,
                               strings: seq<string>) {
    && |messages| == |keys| && |buildIds| == |keys|
    && forall i {:trigger messages[i]} | 0 <= i < |keys| ::
         IsMappingEntry(messages[i], i + 1, keys[i], buildIds[i], strings)
  }

  lemma FunctionTableGrowStrings(keys: seq<FunctionKey>, messages: seq<Function>, s: seq<string>, s': seq<string>)
    requires FunctionTable(keys, messages, s) && s <= s'
    ensures FunctionTable(keys, messages, s')
  {
    forall i | 0 <= i < |keys| ensures IsFunctionEntry(messages[i], i + 1, keys[i], s') {
      assert IsFunctionEntry(messages[i], i + 1, keys[i], s);
    }
  }

  lemma MappingTableGrowStrings(keys: seq<string>, buildIds: seq<Option<string>>, messages: seq<Mapping>,
                                s: seq<string>, s': seq<string>)
    requires MappingTable(keys, buildIds, messages, s) && s <= s'
    ensures MappingTable(keys, buildIds, messages, s')
  {
    forall i | 0 <= i < |keys| ensures IsMappingEntry(messages[i], i + 1, keys[i], buildIds[i], s') {
      assert IsMappingEntry(messages[i], i + 1, keys[i], buildIds[i], s);
    }
  }

  lemma FunctionTableAppend(keys: seq<FunctionKey>, messages: seq<Function>, strings: seq<string>,
                            k: FunctionKey, f: Function)
    requires FunctionTable(keys, messages, strings) && IsFunctionEntry(f, |keys| + 1, k, strings)
    ensures FunctionTable(keys + [k], messages + [f], strings)
  {
    forall i | 0 <= i < |keys| + 1
      ensures IsFunctionEntry((messages + [f])[i], i + 1, (keys + [k])[i], strings)
    {
      if i < |keys| {
        assert IsFunctionEntry(messages[i], i + 1, keys[i], strings);
      }
    }
  }

  lemma MappingTableAppend(keys: seq<string>, buildIds: seq<Option<string>>, messages: seq<Mapping>,
                           strings: seq<string>, k: string, b: Option<string>, m: Mapping)
    requires MappingTable(keys, buildIds, messages, strings) && IsMappingEntry(m, |keys| + 1, k, b, strings)
    ensures MappingTable(keys + [k], buildIds + [b], messages + [m], strings)
  {
    forall i | 0 <= i < |keys| + 1
      ensures IsMappingEntry((messages + [m])[i], i + 1, (keys + [k])[i], (buildIds + [b])[i], strings)
    {
      if i < |keys| {
        assert IsMappingEntry(messages[i], i + 1, keys[i], buildIds[i], strings);
      }
    }
  }

  /**
   * `loc` is the Location built with id `id` for `frame`: one line, naming
   * the function registered for the frame's path and base label and the
   * frame's line number, and the mapping registered for the artifact that
   * code identification `ci` assigns the frame's path to.
   */
  ghost predicate IsLocationEntry(loc: Location, id: nat, frame: BacktraceLocation,
                                  functionKeys: seq<FunctionKey>, mappingKeys: seq<string>,
                                  ci: string -> CodeUnit)
  {
    && loc.id == id
    && |loc.line| == 1
    && loc.line[0].line == frame.lineno
    && 1 <= loc.line[0].functionId <= |functionKeys|
    && functionKeys[loc.line[0].functionId - 1] == FunctionKey(frame.path, frame.baseLabel)
    && 1 <= loc.mappingId <= |mappingKeys|
    && mappingKeys[loc.mappingId - 1] == ci(frame.path).filename
  }

  /** A Location keeps naming the same function and mapping while those tables grow. */
  lemma LocationEntryGrow(loc: Location, id: nat, frame: BacktraceLocation, fk: seq<FunctionKey>, mk: seq<string>,
                          fk': seq<FunctionKey>, mk': seq<string>, ci: string -> CodeUnit)
    requires IsLocationEntry(loc, id, frame, fk, mk, ci) && fk <= fk' && mk <= mk'
    ensures IsLocationEntry(loc, id, frame, fk', mk', ci)
  {
    assert fk'[loc.line[0].functionId - 1] == fk[loc.line[0].functionId - 1];
    assert mk'[loc.mappingId - 1] == mk[loc.mappingId - 1];
  }

  /**
   * The locations hash as its insertion-ordered keys `frames` and values
   * `locs`: the value at position `i` is the Location built for the frame
   * at position `i`, with id `i + 1`.
   */
  ghost predicate LocationEntries(frames: seq<BacktraceLocation>, locs: seq<Location>,
                                  fk: seq<FunctionKey>, mk: seq<string>, ci: string -> CodeUnit)
    decreases |frames|
  {
    && |locs| == |frames|
    && (|frames| > 0 ==>
          && LocationEntries(frames[..|frames| - 1], locs[..|locs| - 1], fk, mk, ci)
          && IsLocationEntry(locs[|locs| - 1], |locs|, frames[|frames| - 1], fk, mk, ci))
  }

  lemma {:induction false} LocationEntriesAt(frames: seq<BacktraceLocation>, locs: seq<Location>,
                                             fk: seq<FunctionKey>, mk: seq<string>, ci: string -> CodeUnit, j: nat)
    requires LocationEntries(frames, locs, fk, mk, ci) && j < |frames|
    ensures IsLocationEntry(locs[j], j + 1, frames[j], fk, mk, ci)
    decreases |frames|
  {
    if j < |frames| - 1 {
      LocationEntriesAt(frames[..|frames| - 1], locs[..|locs| - 1], fk, mk, ci, j);
    }
  }

  lemma {:induction false} LocationEntriesGrow(frames: seq<BacktraceLocation>, locs: seq<Location>,
                                               fk: seq<FunctionKey>, mk: seq<string>,
                                               fk': seq<FunctionKey>, mk': seq<string>, ci: string -> CodeUnit)
    requires LocationEntries(frames, locs, fk, mk, ci) && fk <= fk' && mk <= mk'
    ensures LocationEntries(frames, locs, fk', mk', ci)
    decreases |frames|
  {
    if |frames| > 0 {
      LocationEntriesGrow(frames[..|frames| - 1], locs[..|locs| - 1], fk, mk, fk', mk', ci);
      LocationEntryGrow(locs[|locs| - 1], |locs|, frames[|frames| - 1], fk, mk, fk', mk', ci);
    }
  }

  lemma LocationEntriesAppend(frames: seq<BacktraceLocation>, locs: seq<Location>,
                              fk: seq<FunctionKey>, mk: seq<string>, ci: string -> CodeUnit,
                              frame: BacktraceLocation, loc: Location)
    requires LocationEntries(frames, locs, fk, mk, ci) && IsLocationEntry(loc, |locs| + 1, frame, fk, mk, ci)
    ensures LocationEntries(frames + [frame], locs + [loc], fk, mk, ci)
  {
    assert (frames + [frame])[..|frames|] == frames;
    assert (locs + [loc])[..|locs|] == locs;
  }

  /** The values of a coherent locations hash refer only to functions and mappings that exist. */
  lemma LocationEntriesWellReferenced(frames: seq<BacktraceLocation>, locs: seq<Location>,
                                      fk: seq<FunctionKey>, mk: seq<string>, ci: string -> CodeUnit)
    requires LocationEntries(frames, locs, fk, mk, ci)
    ensures LocationsWellReferenced(locs, |fk|, |mk|)
  {
    forall i | 0 <= i < |locs|
      ensures locs[i].id == i + 1 && 1 <= locs[i].mappingId <= |mk|
      ensures forall l | l in locs[i].line :: 1 <= l.functionId <= |fk|
    {
      LocationEntriesAt(frames, locs, fk, mk, ci, i);
    }
  }

  /** The hash with keys `frames` and values `locs` holds `loc` for `frame`. */
  ghost predicate HashHolds(frames: seq<BacktraceLocation>, locs: seq<Location>, frame: BacktraceLocation, loc: Location) {
    && frame in frames
    && Registry.Find(frames, frame).value < |locs|
    && locs[Registry.Find(frames, frame).value] == loc
  }

  /** What the hash holds for a frame stays as entries are appended. */
  lemma HashHoldsExtended(frames: seq<BacktraceLocation>, locs: seq<Location>,
                          frames': seq<BacktraceLocation>, locs': seq<Location>,
                          frame: BacktraceLocation, loc: Location)
    requires HashHolds(frames, locs, frame, loc) && frames <= frames' && locs <= locs'
    ensures HashHolds(frames', locs', frame, loc)
  {
    Registry.FindExtended(frames, frames', frame);
  }

  /** The hash with keys `frames` and values `locs` holds `ls[i]` for every `fs[i]`. */
  ghost predicate HoldsAll(frames: seq<BacktraceLocation>, locs: seq<Location>,
                           fs: seq<BacktraceLocation>, ls: seq<Location>)
  {
    |ls| == |fs| && forall i | 0 <= i < |fs| :: HashHolds(frames, locs, fs[i], ls[i])
  }

  lemma HoldsAllExtended(frames: seq<BacktraceLocation>, locs: seq<Location>,
                         frames': seq<BacktraceLocation>, locs': seq<Location>,
                         fs: seq<BacktraceLocation>, ls: seq<Location>)
    requires HoldsAll(frames, locs, fs, ls) && frames <= frames' && locs <= locs'
    ensures HoldsAll(frames', locs', fs, ls)
  {
    forall i | 0 <= i < |fs| ensures HashHolds(frames', locs', fs[i], ls[i]) {
      HashHoldsExtended(frames, locs, frames', locs', fs[i], ls[i]);
    }
  }

  lemma HoldsAllAppend(frames: seq<BacktraceLocation>, locs: seq<Location>,
                       fs: seq<BacktraceLocation>, ls: seq<Location>, f: BacktraceLocation, l: Location)
    requires HoldsAll(frames, locs, fs, ls) && HashHolds(frames, locs, f, l)
    ensures HoldsAll(frames, locs, fs + [f], ls + [l])
  {
    assert forall i | 0 <= i < |fs| :: (fs + [f])[i] == fs[i] && (ls + [l])[i] == ls[i];
  }

  /** Whatever a coherent locations hash holds for a frame is the Location built for that frame. */
  lemma HeldLocationsAreEntries(frames: seq<BacktraceLocation>, locs: seq<Location>,
                                fk: seq<FunctionKey>, mk: seq<string>, ci: string -> CodeUnit,
                                fs: seq<BacktraceLocation>, ls: seq<Location>)
    requires LocationEntries(frames, locs, fk, mk, ci) && HoldsAll(frames, locs, fs, ls)
    ensures forall i | 0 <= i < |ls| :: IsLocationEntry(ls[i], ls[i].id, fs[i], fk, mk, ci)
  {
    forall i | 0 <= i < |ls| ensures IsLocationEntry(ls[i], ls[i].id, fs[i], fk, mk, ci) {
      LocationEntriesAt(frames, locs, fk, mk, ci, Registry.Find(frames, fs[i]).value);
    }
  }

  /**
   * In a coherent locations hash, the Locations held for two frames have the
   * same id exactly when the frames are equal: one Location per frame.
   */
  lemma LocationIdsIdentifyFrames(frames: seq<BacktraceLocation>, locs: seq<Location>,
                                  fk: seq<FunctionKey>, mk: seq<string>, ci: string -> CodeUnit,
                                  f: BacktraceLocation, g: BacktraceLocation, a: Location, b: Location)
    requires LocationEntries(frames, locs, fk, mk, ci)
    requires HashHolds(frames, locs, f, a) && HashHolds(frames, locs, g, b)
    ensures a.id == b.id <==> f == g
  {
    var i, j := Registry.Find(frames, f).value, Registry.Find(frames, g).value;
    LocationEntriesAt(frames, locs, fk, mk, ci, i);
    LocationEntriesAt(frames, locs, fk, mk, ci, j);
  }

  /** Entries of a coherent function table only name strings that exist. */
  lemma FunctionTableWellReferenced(keys: seq<FunctionKey>, messages: seq<Function>, strings: seq<string>)
    requires FunctionTable(keys, messages, strings)
    ensures FunctionsWellReferenced(messages, |strings|)
  {
    forall i | 0 <= i < |messages|
      ensures messages[i].id == i + 1 && messages[i].name < |strings| && messages[i].filename < |strings|
    {
      assert IsFunctionEntry(messages[i], i + 1, keys[i], strings);
    }
  }

  /** Entries of a coherent mapping table only name strings that exist. */
  lemma MappingTableWellReferenced(keys: seq<string>, buildIds: seq<Option<string>>, messages: seq<Mapping>,
                                   strings: seq<string>)
    requires MappingTable(keys, buildIds, messages, strings)
    ensures MappingsWellReferenced(messages, |strings|)
  {
    forall i | 0 <= i < |messages|
      ensures messages[i].id == i + 1 && messages[i].filename < |strings|
      ensures messages[i].buildId.Some? ==> messages[i].buildId.value < |strings|
    {
      assert IsMappingEntry(messages[i], i + 1, keys[i], buildIds[i], strings);
    }
  }

  /**
   * The string table and the message sets: each valid, free of duplicate
   * keys, and coherent with the string table.
   */
  ghost predicate TablesValid(stringTable: StringTable, functions: MessageSet<FunctionKey, Function>,
                              mappings: MessageSet<string, Mapping>, mappingBuildIds: seq<Option<string>>,
                              sampleTypes: MessageSet<ValueTypeKey, ValueType>)
  {
    && stringTable.Valid() && functions.Valid() && mappings.Valid() && sampleTypes.Valid()
    && functions.base == 1 && mappings.base == 1
    && Registry.Distinct(stringTable.strings) && Registry.Distinct(functions.keys) && Registry.Distinct(mappings.keys)
    && FunctionTable(functions.keys, functions.messages, stringTable.strings)
    && MappingTable(mappings.keys, mappingBuildIds, mappings.messages, stringTable.strings)
  }

  /** A line of pprof: which function, which line number. */
  function BuildLine(functionId: nat, lineNumber: int): (l: Line)
    ensures l.functionId == functionId && l.line == lineNumber
  {
    Line(functionId, lineNumber)
  }

  /**
   * The strings after fetching the function for `key` from a function table
   * with keys `functionKeys`: a new key enters its function name, then its
   * file name; a known one enters nothing.
   */
  function FunctionStrings(strings: seq<string>, functionKeys: seq<FunctionKey>, key: FunctionKey): (r: seq<string>)
    ensures strings <= r
    ensures key in functionKeys ==> r == strings
    ensures key !in functionKeys ==> key.functionName in r && key.filename in r
  {
    if key in functionKeys then strings
    else Registry.Intern(Registry.Intern(strings, key.functionName).0, key.filename).0
  }

  /**
   * The strings after `mapping_id_for` of `unit` on a mapping table with keys
   * `mappingKeys`: a new file name enters it, then its build id when there is
   * one; a known file name enters nothing.
   */
  function MappingStrings(strings: seq<string>, mappingKeys: seq<string>, unit: CodeUnit): (r: seq<string>)
    ensures strings <= r
    ensures unit.filename in mappingKeys ==> r == strings
    ensures unit.filename !in mappingKeys ==> unit.filename in r && (unit.buildId.Some? ==> unit.buildId.value in r)
  {
    if unit.filename in mappingKeys then strings
    else
      var s1 := Registry.Intern(strings, unit.filename).0;
      match unit.buildId
      case None => s1
      case Some(b) => Registry.Intern(s1, b).0
  }

  /**
   * The keys of the builder's tables, each in insertion order: the strings,
   * the function keys, the mapping keys with the build ids their mappings
   * were registered with, and the frames of the locations hash. Together
   * with the builder's invariant they fix every id, index and build id the
   * builder has handed out.
   */
  datatype TableKeys = TableKeys(strings: seq<string>, functionKeys: seq<FunctionKey>, mappingKeys: seq<string>,
                                 mappingBuildIds: seq<Option<string>>, frames: seq<BacktraceLocation>)

  /**
   * The tables' keys after `build_location` for `frame`: it fetches the
   * frame's function, then the mapping of its artifact. The frames are left
   * as they are.
   */
  function LocationTables(t: TableKeys, frame: BacktraceLocation, ci: string -> CodeUnit): (r: TableKeys)
    ensures r.frames == t.frames
    ensures t.strings <= r.strings && t.functionKeys <= r.functionKeys && t.mappingKeys <= r.mappingKeys
    ensures t.mappingBuildIds <= r.mappingBuildIds
    ensures FunctionKey(frame.path, frame.baseLabel) in r.functionKeys && ci(frame.path).filename in r.mappingKeys
    ensures ci(frame.path).filename in t.mappingKeys ==> r.mappingBuildIds == t.mappingBuildIds
    ensures ci(frame.path).filename !in t.mappingKeys ==> r.mappingBuildIds == t.mappingBuildIds + [ci(frame.path).buildId]
  {
    var key := FunctionKey(frame.path, frame.baseLabel);
    var unit := ci(frame.path);
    TableKeys(MappingStrings(FunctionStrings(t.strings, t.functionKeys, key), t.mappingKeys, unit),
              Registry.Intern(t.functionKeys, key).0,
              Registry.Intern(t.mappingKeys, unit.filename).0,
              if unit.filename in t.mappingKeys then t.mappingBuildIds else t.mappingBuildIds + [unit.buildId],
              t.frames)
  }

  /**
   * What `@locations[frame]` does to the tables' keys: nothing for a stored
   * frame; for a new one, the default block builds its Location and the
   * frame is stored.
   */
  function LocationStep(t: TableKeys, frame: BacktraceLocation, ci: string -> CodeUnit): (r: TableKeys)
    ensures r.frames == Registry.Intern(t.frames, frame).0
    ensures t.strings <= r.strings && t.functionKeys <= r.functionKeys && t.mappingKeys <= r.mappingKeys
    ensures t.mappingBuildIds <= r.mappingBuildIds
    ensures frame in t.frames ==> r == t
    ensures frame !in t.frames ==>
              && r.functionKeys == Registry.Intern(t.functionKeys, FunctionKey(frame.path, frame.baseLabel)).0
              && r.mappingKeys == Registry.Intern(t.mappingKeys, ci(frame.path).filename).0
              && (ci(frame.path).filename !in t.mappingKeys ==>
                    r.mappingBuildIds == t.mappingBuildIds + [ci(frame.path).buildId])
  {
    if frame in t.frames then t
    else LocationTables(t, frame, ci).(frames := t.frames + [frame])
  }

  /** `LocationStep` for each of `frames`, left to right. */
  function LocationSteps(t: TableKeys, frames: seq<BacktraceLocation>, ci: string -> CodeUnit): (r: TableKeys)
    ensures r.frames == Registry.InternAll(t.frames, frames)
    ensures t.strings <= r.strings && t.functionKeys <= r.functionKeys && t.mappingKeys <= r.mappingKeys
    ensures t.mappingBuildIds <= r.mappingBuildIds
    decreases |frames|
  {
    if |frames| == 0 then t
    else LocationStep(LocationSteps(t, frames[..|frames| - 1], ci), frames[|frames| - 1], ci)
  }

  lemma LocationStepsStep(t: TableKeys, frames: seq<BacktraceLocation>, ci: string -> CodeUnit, i: nat)
    requires i < |frames|
    ensures frames[..i + 1] == frames[..i] + [frames[i]]
    ensures LocationSteps(t, frames[..i + 1], ci) == LocationStep(LocationSteps(t, frames[..i], ci), frames[i], ci)
  {
    assert frames[..i + 1][..i] == frames[..i];
  }

  /** The tables' keys after the frames of a truncated or complete backtrace: the backtrace's steps, then the placeholder's. */
  lemma LocationStepsFramesFor(t: TableKeys, backtrace: seq<BacktraceLocation>, length: int, ci: string -> CodeUnit)
    ensures LocationSteps(t, FramesFor(backtrace, length), ci) ==
              if length - |backtrace| > 0
              then LocationStep(LocationSteps(t, backtrace, ci), PlaceholderFrame(length - |backtrace|), ci)
              else LocationSteps(t, backtrace, ci)
  {
    if length - |backtrace| > 0 {
      assert (backtrace + [PlaceholderFrame(length - |backtrace|)])[..|backtrace|] == backtrace;
    }
  }

  /** Looking up frames that are all stored changes no table. */
  lemma {:induction false} LocationStepsKnown(t: TableKeys, frames: seq<BacktraceLocation>, ci: string -> CodeUnit)
    requires forall i | 0 <= i < |frames| :: frames[i] in t.frames
    ensures LocationSteps(t, frames, ci) == t
    decreases |frames|
  {
    if |frames| > 0 {
      LocationStepsKnown(t, frames[..|frames| - 1], ci);
    }
  }

  /** Building the locations of the same frames again changes no table. */
  lemma LocationStepsIdempotent(t: TableKeys, frames: seq<BacktraceLocation>, ci: string -> CodeUnit)
    ensures LocationSteps(LocationSteps(t, frames, ci), frames, ci) == LocationSteps(t, frames, ci)
  {
    LocationStepsKnown(LocationSteps(t, frames, ci), frames, ci);
  }

  class Builder {
    var functions: MessageSet<FunctionKey, Function>
    var mappings: MessageSet<string, Mapping>
    var sampleTypes: MessageSet<ValueTypeKey, ValueType>
    var stringTable: StringTable
    /** Code identification: the artifact a source path belongs to. */
    const codeIdentification: string -> CodeUnit

    /**
     * The locations hash, an insertion-ordered Hash: its keys in insertion
     * order and the value stored under each.
     */
    var locationKeys: seq<BacktraceLocation>
    var locationValues: seq<Location>
    /** The build id each mapping was registered with, in registration order. */
    ghost var mappingBuildIds: seq<Option<string>>
    /** The next value of the location id sequence. */
    var locationSequence: nat
    /** Samples, appended by the builder's callers. */
    var samples: seq<Sample>

    /** The keys of the builder's tables. */
    ghost function Keys(): TableKeys
      reads this
    {
      TableKeys(stringTable.strings, functions.keys, mappings.keys, mappingBuildIds, locationKeys)
    }

    ghost predicate Valid()
      reads this
    {
      && TablesValid(stringTable, functions, mappings, mappingBuildIds, sampleTypes)
      && locationSequence == |locationKeys| + 1 && Registry.Distinct(locationKeys)
      && LocationEntries(locationKeys, locationValues, functions.keys, mappings.keys, codeIdentification)
    }

    /** A fresh builder: empty tables, the string table holding only "", location ids starting at 1. */
    constructor (codeIdentification: string -> CodeUnit)
      ensures Valid()
      ensures this.codeIdentification == codeIdentification
      ensures functions.keys == [] && mappings.keys == [] && mappingBuildIds == [] && sampleTypes.keys == []
      ensures functions.NextId() == 1 && mappings.NextId() == 1 && sampleTypes.NextId() == 1
      ensures stringTable.strings == [""]
      ensures locationKeys == [] && locationValues == [] && locationSequence == 1 && samples == []
    {
      functions := NewMessageSet(1);
      mappings := NewMessageSet(1);
      mappingBuildIds := [];
      sampleTypes := NewMessageSet(1);
      stringTable := NewStringTable();
      this.codeIdentification := codeIdentification;
      locationKeys, locationValues, locationSequence := [], [], 1;
      samples := [];
    }

    /** Enters `s` in the string table and returns its index. */
    method FetchString(s: string) returns (i: nat)
      requires Valid()
      modifies this
      ensures Valid()
      ensures (stringTable.strings, i) == Registry.Intern(old(stringTable.strings), s)
      ensures functions == old(functions) && mappings == old(mappings) && mappingBuildIds == old(mappingBuildIds)
      ensures sampleTypes == old(sampleTypes)
      ensures locationKeys == old(locationKeys) && locationValues == old(locationValues)
      ensures locationSequence == old(locationSequence) && samples == old(samples)
    {
      ghost var s0 := stringTable.strings;
      var (t, j) := stringTable.Fetch(s);
      stringTable, i := t, j;
      FunctionTableGrowStrings(functions.keys, functions.messages, s0, stringTable.strings);
      MappingTableGrowStrings(mappings.keys, mappingBuildIds, mappings.messages, s0, stringTable.strings);
    }

    /** A sample type: the string indices of `typ` and `unit`, entered in that order. */
    method BuildValueType(typ: string, unit: string) returns (vt: ValueType)
      requires Valid()
      modifies this
      ensures Valid()
      ensures var (s1, t) := Registry.Intern(old(stringTable.strings), typ);
              var (s2, u) := Registry.Intern(s1, unit);
              stringTable.strings == s2 && vt == ValueType(t, u)
      ensures Names(stringTable.strings, vt.typ, typ) && Names(stringTable.strings, vt.unit, unit)
      ensures functions == old(functions) && mappings == old(mappings) && mappingBuildIds == old(mappingBuildIds)
      ensures sampleTypes == old(sampleTypes)
      ensures locationKeys == old(locationKeys) && locationValues == old(locationValues)
      ensures locationSequence == old(locationSequence) && samples == old(samples)
    {
      var t := FetchString(typ);
      var u := FetchString(unit);
      vt := ValueType(t, u);
    }

    /** The Function with id `id`; the name is entered in the string table before the file name. */
    method BuildFunction(id: nat, filename: string, functionName: string) returns (f: Function)
      requires Valid()
      modifies this
      ensures Valid()
      ensures var (s1, n) := Registry.Intern(old(stringTable.strings), functionName);
              var (s2, fn) := Registry.Intern(s1, filename);
              stringTable.strings == s2 && f == Function(id, n, fn)
      ensures IsFunctionEntry(f, id, FunctionKey(filename, functionName), stringTable.strings)
      ensures functions == old(functions) && mappings == old(mappings) && mappingBuildIds == old(mappingBuildIds)
      ensures sampleTypes == old(sampleTypes)
      ensures locationKeys == old(locationKeys) && locationValues == old(locationValues)
      ensures locationSequence == old(locationSequence) && samples == old(samples)
    {
      var name := FetchString(functionName);
      var file := FetchString(filename);
      f := Function(id, name, file);
    }

    /**
     * `functions.fetch(filename, functionName, &build_function)`: the
     * registered Function when the key was seen before, otherwise a new one
     * built with the next id and registered.
     */
    method FetchFunction(filename: string, functionName: string) returns (f: Function)
      requires Valid()
      modifies this
      ensures Valid()
      ensures var (keys, i) := Registry.Intern(old(functions.keys), FunctionKey(filename, functionName));
              functions.keys == keys && f == functions.messages[i] && f.id == i + 1
      ensures old(functions.messages) <= functions.messages && old(stringTable.strings) <= stringTable.strings
      ensures FunctionKey(filename, functionName) in old(functions.keys) ==>
                functions == old(functions) && stringTable == old(stringTable)
      ensures FunctionKey(filename, functionName) !in old(functions.keys) ==>
                && functions.messages == old(functions.messages) + [f]
                && stringTable.strings ==
                     Registry.Intern(Registry.Intern(old(stringTable.strings), functionName).0, filename).0
      ensures stringTable.strings ==
                FunctionStrings(old(stringTable.strings), old(functions.keys), FunctionKey(filename, functionName))
      ensures mappings == old(mappings) && mappingBuildIds == old(mappingBuildIds) && sampleTypes == old(sampleTypes)
      ensures locationKeys == old(locationKeys) && locationValues == old(locationValues)
      ensures locationSequence == old(locationSequence) && samples == old(samples)
    {
      var key := FunctionKey(filename, functionName);
      match functions.Lookup(key) {
        case Some(g) =>
          f := g;
        case None =>
          ghost var keys0 := functions.keys;
          f := BuildFunction(functions.NextId(), filename, functionName);
          FunctionTableAppend(functions.keys, functions.messages, stringTable.strings, key, f);
          Registry.DistinctAppend(functions.keys, key);
          functions := functions.Insert(key, f);
          LocationEntriesGrow(locationKeys, locationValues, keys0, mappings.keys,
                              functions.keys, mappings.keys, codeIdentification);
      }
    }

    /** The Mapping with id `id`; the file name is entered before the build id, which may be absent. */
    method BuildMapping(id: nat, filename: string, buildId: Option<string>) returns (m: Mapping)
      requires Valid()
      modifies this
      ensures Valid()
      ensures var (s1, fn) := Registry.Intern(old(stringTable.strings), filename);
              match buildId
                case None => stringTable.strings == s1 && m == Mapping(id, fn, None)
                case Some(b) =>
                  var (s2, bi) := Registry.Intern(s1, b);
                  stringTable.strings == s2 && m == Mapping(id, fn, Some(bi))
      ensures IsMappingEntry(m, id, filename, buildId, stringTable.strings)
      ensures m.buildId.None? <==> buildId.None?
      ensures buildId.Some? ==> Names(stringTable.strings, m.buildId.value, buildId.value)
      ensures functions == old(functions) && mappings == old(mappings) && mappingBuildIds == old(mappingBuildIds)
      ensures sampleTypes == old(sampleTypes)
      ensures locationKeys == old(locationKeys) && locationValues == old(locationValues)
      ensures locationSequence == old(locationSequence) && samples == old(samples)
    {
      var file := FetchString(filename);
      match buildId {
        case None =>
          m := Mapping(id, file, None);
        case Some(b) =>
          var bi := FetchString(b);
          m := Mapping(id, file, Some(bi));
      }
    }

    /**
     * `mapping_id_for`: the id of the Mapping for `filename`. Mappings are
     * keyed by file name alone: a file name seen before returns its id
     * whatever `buildId` is, and the build id stored is the one given when
     * the file name was new.
     */
    method MappingIdFor(filename: string, buildId: Option<string>) returns (id: nat)
      requires Valid()
      modifies this
      ensures Valid()
      ensures var (keys, i) := Registry.Intern(old(mappings.keys), filename);
              mappings.keys == keys && id == i + 1 && mappings.messages[i].id == id
      ensures old(mappings.messages) <= mappings.messages && old(stringTable.strings) <= stringTable.strings
      ensures filename in old(mappings.keys) ==>
                mappings == old(mappings) && mappingBuildIds == old(mappingBuildIds) && stringTable == old(stringTable)
      ensures filename !in old(mappings.keys) ==>
                && |mappings.messages| == |old(mappings.messages)| + 1
                && mappingBuildIds == old(mappingBuildIds) + [buildId]
                && (mappings.messages[id - 1].buildId.None? <==> buildId.None?)
                && (buildId.Some? ==> Names(stringTable.strings, mappings.messages[id - 1].buildId.value, buildId.value))
      ensures stringTable.strings == MappingStrings(old(stringTable.strings), old(mappings.keys), CodeUnit(filename, buildId))
      ensures functions == old(functions) && sampleTypes == old(sampleTypes)
      ensures locationKeys == old(locationKeys) && locationValues == old(locationValues)
      ensures locationSequence == old(locationSequence) && samples == old(samples)
    {
      match mappings.Lookup(filename) {
        case Some(m) =>
          id := m.id;
        case None =>
          id := InsertMapping(filename, buildId);
      }
    }

    /**
     * The mapping set's build block, run on a miss: builds the Mapping for
     * `filename` with the set's next id and registers it under the file name.
     */
    method InsertMapping(filename: string, buildId: Option<string>) returns (id: nat)
      requires Valid() && filename !in mappings.keys
      modifies this
      ensures Valid()
      ensures mappings.keys == old(mappings.keys) + [filename] && mappingBuildIds == old(mappingBuildIds) + [buildId]
      ensures id == |mappings.keys| && |mappings.messages| == id && mappings.messages[id - 1].id == id
      ensures old(mappings.messages) <= mappings.messages
      ensures mappings.messages[id - 1].buildId.None? <==> buildId.None?
      ensures buildId.Some? ==> Names(stringTable.strings, mappings.messages[id - 1].buildId.value, buildId.value)
      ensures stringTable.strings == MappingStrings(old(stringTable.strings), old(mappings.keys), CodeUnit(filename, buildId))
      ensures functions == old(functions) && sampleTypes == old(sampleTypes)
      ensures locationKeys == old(locationKeys) && locationValues == old(locationValues)
      ensures locationSequence == old(locationSequence) && samples == old(samples)
    {
      ghost var keys0 := mappings.keys;
      var m := BuildMapping(mappings.NextId(), filename, buildId);
      MappingTableAppend(mappings.keys, mappingBuildIds, mappings.messages, stringTable.strings, filename, buildId, m);
      Registry.DistinctAppend(mappings.keys, filename);
      mappings := mappings.Insert(filename, m);
      mappingBuildIds := mappingBuildIds + [buildId];
      LocationEntriesGrow(locationKeys, locationValues, functions.keys, keys0,
                          functions.keys, mappings.keys, codeIdentification);
      id := m.id;
    }

    /** Code identification's `mapping_for`: the mapping id of the artifact `path` belongs to. */
    method MappingFor(path: string) returns (id: nat)
      requires Valid()
      modifies this
      ensures Valid()
      ensures var (keys, i) := Registry.Intern(old(mappings.keys), codeIdentification(path).filename);
              mappings.keys == keys && id == i + 1
      ensures old(mappings.messages) <= mappings.messages && old(stringTable.strings) <= stringTable.strings
      ensures codeIdentification(path).filename in old(mappings.keys) ==>
                mappings == old(mappings) && mappingBuildIds == old(mappingBuildIds) && stringTable == old(stringTable)
      ensures var unit := codeIdentification(path);
              unit.filename !in old(mappings.keys) ==>
                && |mappings.messages| == |old(mappings.messages)| + 1
                && mappingBuildIds == old(mappingBuildIds) + [unit.buildId]
                && (mappings.messages[id - 1].buildId.None? <==> unit.buildId.None?)
                && (unit.buildId.Some? ==>
                      Names(stringTable.strings, mappings.messages[id - 1].buildId.value, unit.buildId.value))
      ensures stringTable.strings == MappingStrings(old(stringTable.strings), old(mappings.keys), codeIdentification(path))
      ensures functions == old(functions) && sampleTypes == old(sampleTypes)
      ensures locationKeys == old(locationKeys) && locationValues == old(locationValues)
      ensures locationSequence == old(locationSequence) && samples == old(samples)
    {
      var unit := codeIdentification(path);
      id := MappingIdFor(unit.filename, unit.buildId);
    }

    /**
     * The Location with id `id` for `frame`: one line holding the id of the
     * function fetched for the frame's path and base label and the frame's
     * line number, and the mapping id code identification gives the path.
     */
    method BuildLocation(id: nat, frame: BacktraceLocation) returns (loc: Location)
      requires Valid()
      modifies this
      ensures Valid()
      ensures IsLocationEntry(loc, id, frame, functions.keys, mappings.keys, codeIdentification)
      ensures Keys() == LocationTables(old(Keys()), frame, codeIdentification)
      ensures old(functions.messages) <= functions.messages && old(mappings.messages) <= mappings.messages
      ensures sampleTypes == old(sampleTypes)
      ensures locationKeys == old(locationKeys) && locationValues == old(locationValues)
      ensures locationSequence == old(locationSequence) && samples == old(samples)
    {
      var f := FetchFunction(frame.path, frame.baseLabel);
      var line := BuildLine(f.id, frame.lineno);
      var mappingId := MappingFor(frame.path);
      loc := Location(id, [line], mappingId);
    }

    /**
     * The locations hash's default block, run on a miss: builds the Location
     * for `frame` with the next id of the location sequence and stores it.
     */
    method InsertLocation(frame: BacktraceLocation) returns (loc: Location)
      requires Valid() && frame !in locationKeys
      modifies this
      ensures Valid()
      ensures locationKeys == old(locationKeys) + [frame] && locationValues == old(locationValues) + [loc]
      ensures loc.id == old(locationSequence) && locationSequence == old(locationSequence) + 1
      ensures IsLocationEntry(loc, loc.id, frame, functions.keys, mappings.keys, codeIdentification)
      ensures Keys() == LocationStep(old(Keys()), frame, codeIdentification)
      ensures old(functions.messages) <= functions.messages && old(mappings.messages) <= mappings.messages
      ensures sampleTypes == old(sampleTypes) && samples == old(samples)
    {
      Registry.DistinctAppend(locationKeys, frame);
      var id := locationSequence;
      loc := BuildLocation(id, frame);
      LocationEntriesAppend(locationKeys, locationValues, functions.keys, mappings.keys, codeIdentification, frame, loc);
      locationSequence, locationKeys, locationValues := id + 1, locationKeys + [frame], locationValues + [loc];
    }

    /**
     * `@locations[frame]`: a frame seen before returns its Location and
     * changes nothing; a new frame gets a Location built with the next id of
     * the location sequence, which is then stored under it.
     */
    method FetchLocation(frame: BacktraceLocation) returns (loc: Location)
      requires Valid()
      modifies this
      ensures Valid()
      ensures var (keys, i) := Registry.Intern(old(locationKeys), frame);
              locationKeys == keys && loc.id == i + 1
      ensures HashHolds(locationKeys, locationValues, frame, loc)
      ensures IsLocationEntry(loc, loc.id, frame, functions.keys, mappings.keys, codeIdentification)
      ensures old(locationValues) <= locationValues
      ensures frame in old(locationKeys) ==>
                && locationValues == old(locationValues) && locationSequence == old(locationSequence)
                && functions == old(functions) && mappings == old(mappings) && stringTable == old(stringTable)
      ensures frame !in old(locationKeys) ==>
                locationValues == old(locationValues) + [loc] && locationSequence == old(locationSequence) + 1
      ensures Keys() == LocationStep(old(Keys()), frame, codeIdentification)
      ensures old(functions.messages) <= functions.messages && old(mappings.messages) <= mappings.messages
      ensures sampleTypes == old(sampleTypes) && samples == old(samples)
    {
      match Registry.Find(locationKeys, frame) {
        case Some(i) =>
          LocationEntriesAt(locationKeys, locationValues, functions.keys, mappings.keys, codeIdentification, i);
          loc := locationValues[i];
        case None =>
          ghost var keys0 := locationKeys;
          loc := InsertLocation(frame);
          Registry.InternFinds(keys0, frame);
      }
    }

    /** One step of `build_locations`: fetches the Location of `frame` and appends it to `locs`. */
    method AppendLocation(frame: BacktraceLocation, ghost fs: seq<BacktraceLocation>, locs: seq<Location>)
      returns (locs': seq<Location>)
      requires Valid() && HoldsAll(locationKeys, locationValues, fs, locs)
      modifies this
      ensures Valid()
      ensures Keys() == LocationStep(old(Keys()), frame, codeIdentification)
      ensures HoldsAll(locationKeys, locationValues, fs + [frame], locs')
      ensures old(locationValues) <= locationValues
      ensures old(functions.messages) <= functions.messages && old(mappings.messages) <= mappings.messages
      ensures sampleTypes == old(sampleTypes) && samples == old(samples)
    {
      ghost var keys0, values0 := locationKeys, locationValues;
      var loc := FetchLocation(frame);
      HoldsAllExtended(keys0, values0, locationKeys, locationValues, fs, locs);
      HoldsAllAppend(locationKeys, locationValues, fs, locs, frame, loc);
      locs' := locs + [loc];
    }

    /** `backtrace_locations.collect { |frame| @locations[frame] }`: the Locations of `backtrace`, in order. */
    method CollectLocations(backtrace: seq<BacktraceLocation>) returns (locs: seq<Location>)
      requires Valid()
      modifies this
      ensures Valid()
      ensures Keys() == LocationSteps(old(Keys()), backtrace, codeIdentification)
      ensures HoldsAll(locationKeys, locationValues, backtrace, locs)
      ensures old(locationValues) <= locationValues
      ensures old(functions.messages) <= functions.messages && old(mappings.messages) <= mappings.messages
      ensures sampleTypes == old(sampleTypes) && samples == old(samples)
    {
      ghost var keys0 := Keys();
      locs := [];
      var i := 0;
      while i < |backtrace|
        invariant 0 <= i <= |backtrace|
        invariant Valid()
        invariant Keys() == LocationSteps(keys0, backtrace[..i], codeIdentification)
        invariant HoldsAll(locationKeys, locationValues, backtrace[..i], locs)
        invariant old(locationValues) <= locationValues
        invariant old(functions.messages) <= functions.messages && old(mappings.messages) <= mappings.messages
        invariant sampleTypes == old(sampleTypes) && samples == old(samples)
      {
        ghost var before := Keys();
        locs := AppendLocation(backtrace[i], backtrace[..i], locs);
        LocationStepsStep(keys0, backtrace, codeIdentification, i);
        assert Keys() == LocationStep(before, backtrace[i], codeIdentification);
        i := i + 1;
      }
      assert backtrace[..|backtrace|] == backtrace;
    }

    /**
     * The Locations of `backtrace`, in order, followed by the Location of one
     * placeholder frame when `length` exceeds the backtrace's length by the
     * number of frames that were omitted.
     */
    method BuildLocations(backtrace: seq<BacktraceLocation>, length: int) returns (locs: seq<Location>)
      requires Valid()
      modifies this
      ensures Valid()
      ensures Keys() == LocationSteps(old(Keys()), FramesFor(backtrace, length), codeIdentification)
      ensures locationKeys == Registry.InternAll(old(locationKeys), FramesFor(backtrace, length))
      ensures HoldsAll(locationKeys, locationValues, FramesFor(backtrace, length), locs)
      ensures forall i | 0 <= i < |locs| ::
                IsLocationEntry(locs[i], locs[i].id, FramesFor(backtrace, length)[i], functions.keys, mappings.keys,
                                codeIdentification)
      ensures old(locationValues) <= locationValues
      ensures old(stringTable.strings) <= stringTable.strings
      ensures old(functions.messages) <= functions.messages && old(mappings.messages) <= mappings.messages
      ensures sampleTypes == old(sampleTypes) && samples == old(samples)
    {
      ghost var keys0 := Keys();
      locs := CollectLocations(backtrace);
      ghost var collected := Keys();
      var omitted := length - |backtrace|;
      if omitted > 0 {
        locs := AppendLocation(PlaceholderFrame(omitted), backtrace, locs);
        assert Keys() == LocationStep(collected, PlaceholderFrame(omitted), codeIdentification);
      }
      LocationStepsFramesFor(keys0, backtrace, length, codeIdentification);
      assert locationKeys == LocationSteps(keys0, FramesFor(backtrace, length), codeIdentification).frames;
      HeldLocationsAreEntries(locationKeys, locationValues, functions.keys, mappings.keys, codeIdentification,
                              FramesFor(backtrace, length), locs);
    }

    /**
     * The profile of everything collected: the tables in first-registration
     * order, the locations hash's values in insertion order, the window's
     * start as `timeNanos` and its length as `durationNanos`.
     */
    method BuildProfile(startNs: int, finishNs: int) returns (p: Profile)
      requires Valid()
      ensures p.timeNanos == startNs && p.durationNanos == finishNs - startNs
      ensures p.sampleTypes == sampleTypes.messages && p.samples == samples
      ensures p.mappings == mappings.messages && p.functions == functions.messages
      ensures p.stringTable == stringTable.strings && p.locations == locationValues
      ensures Registry.Distinct(p.stringTable)
      ensures WellReferenced(p)
    {
      p := Profile(
        sampleTypes.messages,
        samples,
        mappings.messages,
        locationValues,
        functions.messages,
        stringTable.strings,
        startNs,
        finishNs - startNs);
      FunctionTableWellReferenced(functions.keys, functions.messages, stringTable.strings);
      MappingTableWellReferenced(mappings.keys, mappingBuildIds, mappings.messages, stringTable.strings);
      LocationEntriesWellReferenced(locationKeys, locationValues, functions.keys, mappings.keys, codeIdentification);
    }
  }
}
