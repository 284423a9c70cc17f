# pprof profile builder, modelled in Dafny

This project models the profile builder of the Ruby profiler, `Datadog::Profiling::Pprof::Builder`, from `lib/ddtrace/profiling/pprof/builder.rb`. It proves properties of that model.

The builder owns five tables:

- a string table;
- three deduplicating message sets: functions keyed by (file name, function name), mappings keyed by file name, and sample types;
- the memoised *locations hash*, which maps each distinct backtrace frame to the pprof Location built for it, with ids 1, 2, 3, … in first-seen order.

It also owns the sample list. It fills the tables as backtraces arrive, turns a possibly truncated backtrace into Locations plus at most one "N frame(s) omitted" placeholder, and assembles everything into one pprof `Profile`.

Layout:

- `registry.dfy` (module `Registry`) holds the pure specification of get-or-insert over an insertion-ordered key sequence:
  - `Find` is the first-occurrence lookup;
  - `Intern` is get-or-insert;
  - `InternAll` folds `Intern` over many keys.

  A key's position is its string index, or, shifted by the id base, its message id.
- `string_table.dfy` and `message_set.dfy` model the string table and `MessageSet` as values on top of `Registry`. Their source files are not part of this model. They are modelled as far as `builder.rb` relies on them:
  - `fetch` returns the entry (or the index) for a key, building it only on first sight;
  - ids start at the base given to `MessageSet.new`;
  - `messages`/`strings` list the entries in first-registration order;
  - index 0 of the string table is `""`.
- `backtrace.dfy` models the stack frame value `BacktraceLocation` and the placeholder frame for omitted frames, including the decimal rendering of the count.
- `pprof.dfy` models the pprof messages (`ValueType`, `Line`, `Function`, `Mapping`, `Location`, `Sample`, `Profile`). It also defines what it means for a profile to be *well referenced*: functions, mappings and locations carry ids 1, 2, 3, …, and the string indices functions and mappings hold, and the function and mapping ids locations hold, point at entries that exist.
- `builder.dfy` (module `ProfileBuilder`) holds the `Builder` class:
  - its fields are the tables above;
  - every builder method that fills a table is a `method` with `modifies this`; `BuildProfile` only reads the builder;
  - each such method states its new state in terms of the old one: the string, function and mapping tables through `Registry.Intern` and the module functions `FunctionStrings` and `MappingStrings`, and, for the location methods, all table keys at once through `LocationTables`, `LocationStep` and `LocationSteps` on the `TableKeys` value of the old state.

  `Valid()` is the invariant every method keeps:
  - the string table is coherent;
  - no table holds a key twice: strings, function keys, mapping file names and stored frames are each free of duplicates;
  - function and mapping `i` carry id `i + 1` and name strings for their key;
  - mapping `i` carries the build id it was registered with, recorded in the ghost field `mappingBuildIds`: absent exactly when none was given, otherwise the index of that string;
  - the location sequence is one past the number of stored frames;
  - the value stored under the `i`-th frame of the locations hash is the Location built for it, with id `i + 1`.

Points where the code's behaviour is easy to mistake, and which the model follows as written:

- `build_locations` returns Location messages, not location ids.
- `build_profile` computes `duration_nanos` as `finish_ns - start_ns` without rejecting a negative result.
- Mappings are keyed by file name alone (the key block of line 30 ignores the build id), not by file name and build id.
- The placeholder frame is `BacktraceLocation.new('', 0, "N frames omitted")`. With that class's positional arguments (base label, line number, path), the text is the frame's path and the base label is `''`. The placeholder's Function therefore has file name "N frames omitted" and name `""`. `BacktraceLocation` itself is not part of this model; that argument order is an assumption, listed under "## Left out".

## Model

| member | source | states |
|---|---|---|
| Registry.Find | lib/ddtrace/profiling/pprof/builder.rb:46-47 | The lookup of an equality-keyed table: `None` exactly when the key is absent, otherwise the position of its first occurrence |
| Registry.FindExtended | lib/ddtrace/profiling/pprof/builder.rb:42-47 | A key already present keeps its position when entries are appended, so assigned ids and indices are never renumbered |
| Registry.Intern | lib/ddtrace/profiling/pprof/builder.rb:73-74 | Get-or-insert: the returned position holds the key and the table only grows. A present key leaves the table unchanged; exactly an absent key gets the next position and is appended |
| Registry.InternFinds | lib/ddtrace/profiling/pprof/builder.rb:73-74 | The position get-or-insert returns is where a later lookup finds the key |
| Registry.DistinctAt | lib/ddtrace/profiling/pprof/builder.rb:42-43 | In a table without duplicates, different positions hold different keys |
| Registry.DistinctAppend | lib/ddtrace/profiling/pprof/builder.rb:46-47 | Appending a key that is absent keeps the table free of duplicates |
| Registry.InternDistinct | lib/ddtrace/profiling/pprof/builder.rb:73-74 | Get-or-insert never introduces a duplicate key |
| Registry.InternAll | lib/ddtrace/profiling/pprof/builder.rb:79 | Fetching a list of keys keeps the old table as a prefix, adds at most one entry per key, and leaves every key present. It adds nothing that is not one of the keys |
| Registry.InternAllDistinct | lib/ddtrace/profiling/pprof/builder.rb:79 | Fetching a whole backtrace keeps the stored frames distinct |
| Registry.InternAllPresent | lib/ddtrace/profiling/pprof/builder.rb:44-49 | Fetching frames that are all stored already changes nothing |
| Registry.InternAllIdempotent | lib/ddtrace/profiling/pprof/builder.rb:78-79 | Building the locations of the same frames a second time leaves the locations hash as the first time left it |
| Registry.InternSamePositionIffSameKey | lib/ddtrace/profiling/pprof/builder.rb:71-76 | Two successive lookups return the same index exactly when they are for equal keys (equal strings give equal indices, different strings different ones) |
| MessageSets.MessageSet.Lookup | lib/ddtrace/profiling/pprof/builder.rb:96-100 | `fetch` on a seen key yields the message first registered under it; there is a message exactly when the key was seen |
| MessageSets.MessageSet.Insert | lib/ddtrace/profiling/pprof/builder.rb:96-100 | Registering a new key appends its message after all earlier ones, keeps the id base, and makes the key's lookup return that message |
| MessageSets.MessageSet.NextId | lib/ddtrace/profiling/pprof/builder.rb:96-100 | The id a message set hands its build block on a miss. `Builder.FetchFunction` (`f.id == i + 1` for the key's position `i`), `Builder.MappingIdFor` and `Builder.InsertMapping` (id = position + 1) state what it means under the base 1 of lines 28 and 30 |
| MessageSets.NewMessageSet | lib/ddtrace/profiling/pprof/builder.rb:28-31 | `MessageSet.new(base)` is empty and hands out `base` first |
| StringTables.StringTable.Fetch | lib/ddtrace/profiling/pprof/builder.rb:73-74 | The returned index holds the string and `""` stays at index 0. A seen string returns its first index and leaves the table unchanged; a new one is appended at the next index. Distinctness is kept |
| StringTables.NewStringTable | lib/ddtrace/profiling/pprof/builder.rb:33 | A new string table holds only `""`, at index 0 |
| Backtrace.NatToString | lib/ddtrace/profiling/pprof/builder.rb:86 | The interpolated count is a non-empty string of decimal digits that reads back, as a decimal numeral, as the count itself, with no leading zero (it starts with 0 only for 0); one digit exactly for counts below ten |
| Backtrace.NatToStringInjective | lib/ddtrace/profiling/pprof/builder.rb:86 | Different counts are rendered as different texts (each text reads back as its count) |
| Backtrace.OmittedLabel | lib/ddtrace/profiling/pprof/builder.rb:85-86 | The text `"#{omitted} #{desc}"` starts with the decimal count and a space. `OmittedLabelInjective` and `OmittedLabelSingular` state what it means: one text per count, and the singular wording exactly for one frame |
| Backtrace.PlaceholderFrame | lib/ddtrace/profiling/pprof/builder.rb:86 | `BacktraceLocation.new('', 0, text)`. `FramesFor` (the placeholder is the one frame after the backtrace, exactly when frames were omitted) and `PlaceholderSharedIffSameCount` (two truncated backtraces share it exactly when the omitted counts agree) state what it means |
| Backtrace.OmittedLabelInjective | lib/ddtrace/profiling/pprof/builder.rb:85-86 | Different omitted counts give different placeholder texts, despite the singular/plural switch |
| Backtrace.OmittedLabelSingular | lib/ddtrace/profiling/pprof/builder.rb:16-17 | The placeholder text is "1 frame omitted" exactly when one frame was omitted |
| Backtrace.FramesFor | lib/ddtrace/profiling/pprof/builder.rb:78-90 | The frames whose Locations `build_locations` returns: the backtrace in order, then one placeholder for `length - n` omitted frames when that is positive, and nothing more |
| Backtrace.PlaceholderSharedIffSameCount | lib/ddtrace/profiling/pprof/builder.rb:86 | Two truncated backtraces share the placeholder frame (so the memoised hash gives them one Location) exactly when the same number of frames was omitted |
| ProfileBuilder.BuildLine | lib/ddtrace/profiling/pprof/builder.rb:107-112 | A Line holds the given function id and line number |
| ProfileBuilder.FunctionStrings | lib/ddtrace/profiling/pprof/builder.rb:114-120 | The strings after fetching a function: they only grow; a known key adds nothing; a new key leaves its function name and file name in the table |
| ProfileBuilder.MappingStrings | lib/ddtrace/profiling/pprof/builder.rb:122-132 | The strings after `mapping_id_for`: they only grow; a known file name adds nothing; a new one leaves the file name, and the build id when there is one, in the table |
| ProfileBuilder.LocationTables | lib/ddtrace/profiling/pprof/builder.rb:92-105 | `build_location` on the table keys: the frames stay; strings, function keys and mapping keys only grow, and afterwards hold the frame's function key and its artifact's file name. The artifact's build id is recorded exactly when its file name is new |
| ProfileBuilder.LocationStep | lib/ddtrace/profiling/pprof/builder.rb:44-49 | `@locations[frame]` on the table keys: the frames become their get-or-insert on the frame; a stored frame changes nothing; a new one gets-or-inserts its function key and its artifact's file name, and records the artifact's build id when that file name is new; every table only grows |
| ProfileBuilder.LocationSteps | lib/ddtrace/profiling/pprof/builder.rb:79 | The fetch of many frames in order: the frames become `InternAll` of them and every table only grows |
| ProfileBuilder.LocationStepsFramesFor | lib/ddtrace/profiling/pprof/builder.rb:78-90 | Fetching the frames of `build_locations` is fetching the backtrace, then the placeholder exactly when frames were omitted |
| ProfileBuilder.LocationStepsKnown | lib/ddtrace/profiling/pprof/builder.rb:44-49 | Fetching frames that are all stored changes no table: no string, function, mapping or location is added |
| ProfileBuilder.LocationStepsIdempotent | lib/ddtrace/profiling/pprof/builder.rb:78-79 | Building the locations of the same frames a second time leaves every table as the first time left it |
| ProfileBuilder.LocationEntriesAt | lib/ddtrace/profiling/pprof/builder.rb:45-47 | In a coherent locations hash, the value under the `j`-th stored frame has id `j + 1` and is that frame's Location |
| ProfileBuilder.LocationEntriesGrow | lib/ddtrace/profiling/pprof/builder.rb:92-105 | Stored Locations keep naming their function and mapping while the function and mapping tables grow |
| ProfileBuilder.LocationEntriesAppend | lib/ddtrace/profiling/pprof/builder.rb:46-47 | Storing the Location built with the next id under a new frame keeps the hash coherent |
| ProfileBuilder.HashHoldsExtended | lib/ddtrace/profiling/pprof/builder.rb:44-49 | What the hash holds for a frame stays the same as later frames are added |
| ProfileBuilder.HoldsAllExtended | lib/ddtrace/profiling/pprof/builder.rb:79 | Locations already collected for a backtrace stay what the hash holds for their frames while it grows |
| ProfileBuilder.HoldsAllAppend | lib/ddtrace/profiling/pprof/builder.rb:79 | Appending the held Location of one more frame extends the collected list frame by frame |
| ProfileBuilder.HeldLocationsAreEntries | lib/ddtrace/profiling/pprof/builder.rb:92-105 | Every Location the hash hands out is the one built for its frame: one line with the frame's line number and function, and the mapping of the frame's artifact |
| ProfileBuilder.LocationIdsIdentifyFrames | lib/ddtrace/profiling/pprof/builder.rb:42-49 | Two Locations handed out by the hash have the same id exactly when their frames are equal: a 1:1 correspondence |
| ProfileBuilder.LocationEntriesWellReferenced | lib/ddtrace/profiling/pprof/builder.rb:63 | The hash's values, in insertion order, have ids 1, 2, 3, … and name only functions and mappings that exist |
| ProfileBuilder.FunctionTableWellReferenced | lib/ddtrace/profiling/pprof/builder.rb:64 | Functions, in registration order, have ids 1, 2, 3, … and name only strings that exist |
| ProfileBuilder.MappingTableWellReferenced | lib/ddtrace/profiling/pprof/builder.rb:62 | Mappings, in registration order, have ids 1, 2, 3, … and name only strings that exist, build id included |
| ProfileBuilder.Builder.constructor | lib/ddtrace/profiling/pprof/builder.rb:27-40 | A new builder has empty function, mapping and sample-type tables whose next id is 1, a string table holding only `""`, no samples, an empty locations hash with the location sequence at 1, and the given code identification |
| ProfileBuilder.Builder.FetchString | lib/ddtrace/profiling/pprof/builder.rb:73-74 | `@string_table.fetch`: the table becomes its get-or-insert on the string and the index is returned. Nothing else changes |
| ProfileBuilder.Builder.BuildValueType | lib/ddtrace/profiling/pprof/builder.rb:71-76 | The ValueType holds the string indices of type and unit, fetched in that order. Only the string table changes |
| ProfileBuilder.Builder.BuildFunction | lib/ddtrace/profiling/pprof/builder.rb:114-120 | The Function has the given id and the string indices of the function name and the file name, fetched in that order. Only the string table changes |
| ProfileBuilder.Builder.FetchFunction | lib/ddtrace/profiling/pprof/builder.rb:96-100 | Functions are deduplicated by (file name, function name). A known key returns its Function and changes nothing; a new key gets id = next position + 1, and its Function is built and appended. The new strings are exactly `FunctionStrings` of the old ones; no other table changes |
| ProfileBuilder.Builder.BuildMapping | lib/ddtrace/profiling/pprof/builder.rb:122-128 | The Mapping has the given id and the file name's index. Its build id is absent exactly when none is given, else it is the build id's index. Only the string table changes |
| ProfileBuilder.Builder.MappingIdFor | lib/ddtrace/profiling/pprof/builder.rb:130-132 | Mappings are keyed by file name only (the key block of line 30). A known file name returns its id whatever the build id and changes nothing; a new one is appended with the next id, and its build id, present exactly when one is given and naming it, is recorded as the mapping's registered build id. The new strings are exactly `MappingStrings` of the old ones; no other table changes |
| ProfileBuilder.Builder.InsertMapping | lib/ddtrace/profiling/pprof/builder.rb:122-131 | The mapping set's build block on a miss: the Mapping built with the next id is appended under the new file name, and the build id given is recorded as its registered build id. Its build id is absent exactly when none is given, else it names it. The new strings are exactly `MappingStrings` of the old ones; no other table changes |
| ProfileBuilder.Builder.MappingFor | lib/ddtrace/profiling/pprof/builder.rb:103 | Code identification's `mapping_for(path)` is `mapping_id_for` of the artifact the path belongs to: the same id, mapping table, build id of a new Mapping (the artifact's, recorded as registered), and new strings (`MappingStrings` of that artifact); no other table changes |
| ProfileBuilder.Builder.BuildLocation | lib/ddtrace/profiling/pprof/builder.rb:92-105 | The Location has the given id and exactly one Line, holding the id of the Function for (path, base label) and the frame's line number, plus the mapping id of the frame's artifact. The strings, function keys and mapping keys become exactly `LocationTables` of the old ones; messages only grow; sample types, the locations hash and samples are unchanged. Table keys include the build id each mapping was registered with, so a Mapping registered for a new artifact carries that artifact's build id |
| ProfileBuilder.Builder.InsertLocation | lib/ddtrace/profiling/pprof/builder.rb:44-49 | The hash's default block: stores the Location built with the sequence's next id under the new frame and advances the sequence by one. All table keys become `LocationStep` of the old ones; messages only grow; sample types and samples are unchanged. Table keys include the build id each mapping was registered with, so a Mapping registered for a new artifact carries that artifact's build id |
| ProfileBuilder.Builder.FetchLocation | lib/ddtrace/profiling/pprof/builder.rb:44-49 | `@locations[frame]`: a stored frame returns its Location and changes no table. A new frame gets id = its position + 1 and is stored. Either way the result is that frame's Location, and all table keys become `LocationStep` of the old ones; sample types and samples are unchanged. Table keys include the build id each mapping was registered with, so a Mapping registered for a new artifact carries that artifact's build id |
| ProfileBuilder.Builder.AppendLocation | lib/ddtrace/profiling/pprof/builder.rb:79 | One step of the `collect`: the list gains the Location the hash holds for the frame, and all table keys become `LocationStep` of the old ones; messages only grow; sample types and samples are unchanged. Table keys include the build id each mapping was registered with, so a Mapping registered for a new artifact carries that artifact's build id |
| ProfileBuilder.Builder.CollectLocations | lib/ddtrace/profiling/pprof/builder.rb:79 | The `collect`: the result is, frame by frame, what the hash holds for the backtrace, and all table keys become `LocationSteps` of the old ones over the backtrace; sample types and samples are unchanged. Table keys include the build id each mapping was registered with, so a Mapping registered for a new artifact carries that artifact's build id |
| ProfileBuilder.Builder.BuildLocations | lib/ddtrace/profiling/pprof/builder.rb:78-90 | The result is, frame by frame, what the hash holds for the backtrace followed by at most one placeholder, and each entry is that frame's Location. All table keys become `LocationSteps` of the old ones over those frames (so the hash's keys become the fetch of all of them); messages only grow; sample types and samples are unchanged. Table keys include the build id each mapping was registered with, so a Mapping registered for a new artifact carries that artifact's build id |
| ProfileBuilder.Builder.BuildProfile | lib/ddtrace/profiling/pprof/builder.rb:55-68 | The profile lists the tables in registration order, the hash's values in insertion order, and samples and strings unchanged. `time_nanos` is the start and `duration_nanos` is finish − start. The profile is well referenced and its string table holds no string twice |

## Left out

- `encode_profile` is left out: protobuf serialisation through the external `Perftools::Profiles` library and `force_encoding`, a foreign call.
- `Datadog::Utils::Time.as_utc_epoch_ns` is left out. `BuildProfile` takes the start and the finish as integer nanoseconds.
- The internals of `CodeIdentification` (how a path is resolved to an artifact and build id, and its cache) are left out. It is a function from path to artifact (file name, optional build id), fixed when the builder is made, so a path always resolves to the same artifact; and `mapping_for` goes through `mapping_id_for`.
- `MessageSet`, `StringTable` and `Utils::Sequence` are not part of this model. They are modelled abstractly:
  - the string table and message sets are values reassigned in the builder's fields;
  - the location sequence is the `locationSequence` counter;
  - their hash-based indexes are lookups in insertion-ordered sequences.
- Ruby `Hash` semantics are modelled as value equality. Hash collisions and `eql?`/`hash` inconsistencies are not modelled. The mapping key block `filename.hash` is modelled as the file name itself.
- The `method(...).to_proc` caching in the constructor has no observable effect and is left out.
- The locations `Hash` is modelled by its insertion-ordered keys and values (`locationKeys`, `locationValues`); `@locations.values` is the latter.
- Integer widths are not modelled. Ids, string indices, line numbers and nanoseconds are unbounded integers, not the int64/uint64 fields of pprof.
- Sample labels and `add_sample` are left out. `builder.rb` only exposes `samples` for its callers to append to, and passes them through.
- `Sample` payloads are not checked against the declared sample types; `builder.rb` does not check them either.
- BuildMapping: a build id of `false` is not modelled. `build_id && @string_table.fetch(build_id)` is modelled on an optional string, where only `nil` means "no build id".
- `BuildProfile`: a negative duration is not rejected, since the code does not reject it.
- Backtrace.PlaceholderFrame: `BacktraceLocation`'s source is not part of this model. Its positional arguments are assumed to be (base label, line number, path), so the placeholder's text is its path and `''` its base label. Under the other reading the placeholder's Function would have name "N frames omitted" and file name `""`; everything proved about the placeholder frame itself (one per omitted count, present exactly when frames were omitted) holds under either reading.
- BuildProfile: being well referenced does not cover the sample types' type and unit string indices or the samples' location ids. Sample types and samples are filled by callers outside `builder.rb`, and `build_profile` passes them through without checking their references.
- Builder.constructor: the sample-type table is given the id base 1. `MessageSet.new` at line 31 is called without a base, and `MessageSet` is not part of this model, so its default base is assumed to be 1. Sample-type ValueTypes carry no id, so the base has no effect on anything the builder produces.
