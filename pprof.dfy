/**
 * The pprof messages the builder constructs (Perftools::Profiles::*).
 * Every string-valued field holds an index into the profile's string table.
 */
module Pprof {
  import opened Optional

  /** One column of sample values: string indices of its type and unit. */
  datatype ValueType = ValueType(typ: nat, unit: nat)

  /** A source line inside a location: the function's id and the line number. */
  datatype Line = Line(functionId: nat, line: int)

  /** A function: its id and the string indices of its name and file name. */
  datatype Function = Function(id: nat, name: nat, filename: nat)

  /** A mapping (loaded artifact): id, file name index and, when known, build id index. */
  datatype Mapping = Mapping(id: nat, filename: nat, buildId: Option<nat>)

  /** A location: id, its lines and the id of the mapping it belongs to. */
  datatype Location = Location(id: nat, line: seq<Line>, mappingId: nat)

  /** A sample: location ids and one value per declared sample type. */
  datatype Sample = Sample(locationId: seq<nat>, value: seq<int>)

  /**
   * The assembled profile; the fields stand for pprof's `sample_type`,
   * `sample`, `mapping`, `location`, `function`, `string_table`,
   * `time_nanos` and `duration_nanos`.
   */
  datatype Profile = Profile(
    sampleTypes: seq<ValueType>,
    samples: seq<Sample>,
    mappings: seq<Mapping>,
    locations: seq<Location>,
    functions: seq<Function>,
    stringTable: seq<string>,
    timeNanos: int,
    durationNanos: int)

  /** Function `i` has id `i + 1` and names strings that exist. */
  ghost predicate FunctionsWellReferenced(functions: seq<Function>, strings: nat) {
    forall i | 0 <= i < |functions| ::
      functions[i].id == i + 1 && functions[i].name < strings && functions[i].filename < strings
  }

  /** Mapping `i` has id `i + 1` and names strings that exist. */
  ghost predicate MappingsWellReferenced(mappings: seq<Mapping>, strings: nat) {
    forall i | 0 <= i < |mappings| ::
      && mappings[i].id == i + 1 && mappings[i].filename < strings
      && (mappings[i].buildId.Some? ==> mappings[i].buildId.value < strings)
  }

  /** Location `i` has id `i + 1` and refers to functions and a mapping that exist. */
  ghost predicate LocationsWellReferenced(locations: seq<Location>, functions: nat, mappings: nat) {
    forall i | 0 <= i < |locations| ::
      && locations[i].id == i + 1
      && 1 <= locations[i].mappingId <= mappings
      && forall l | l in locations[i].line :: 1 <= l.functionId <= functions
  }

  /**
   * The ids of a profile's functions, mappings and locations are 1, 2, 3, …,
   * and the string indices functions and mappings hold and the function and
   * mapping ids locations hold point at entries that exist.
   */
  ghost predicate WellReferenced(p: Profile) {
    && FunctionsWellReferenced(p.functions, |p.stringTable|)
    && MappingsWellReferenced(p.mappings, |p.stringTable|)
    && LocationsWellReferenced(p.locations, |p.functions|, |p.mappings|)
  }
}
