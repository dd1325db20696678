# Record/replay core of V8, modelled in Dafny

This project models the record/replay layer that Replay.io adds to V8. The
recorder captures a browser session. The replayer re-runs it and must take
exactly the same path through JavaScript. The modelled parts are:

- **Execution progress** (`src/runtime/runtime-debug.cc`). Every function entry
  advances a 64-bit progress counter. When progress assertions are on, it also
  logs a 64-bit entry holding the script id and the start position. The
  replayer compares the recorded log with the replayed one and reports the
  first mismatch.
- **Site registries** (`runtime-debug.cc`). Assertion sites and
  instrumentation sites are numbered from `1 << 16`. There is a main-thread
  cache of the instrumentation sites.
- **Function ids and line positions** (`runtime-debug.cc`). A function id is
  `"<scriptId>:<startPosition>"` and is parsed back with `atoi`.
  `ScriptLinePosition` and its offset variant are included.
- **Location strings** (`src/replay/replay-util.cc`, `replay-util.h`).
- **Script registration** (`src/replayio/replayio-api.cc` and
  `src/replayio/replayio-commands.cc`). This covers the internal-URL test, the
  registered-script set, and the two versions of `RecordReplayRegisterScript`.
- **Breakpoints** (`replayio-commands.cc`):
  - the line/column range filter over instrumentation ops;
  - possible breakpoints grouped by line;
  - the first-wins tables from a source location to a function offset and back;
  - location-to-offset conversion.
- **HTML parses** (`replayio-commands.cc`). This is the log of HTML documents
  being parsed and the `Target.getHTMLSource` lookup.
- **Persistent object ids** (`replayio-commands.cc`). These are the
  per-context id maps, the global id counter, and the id-assertion log.
- **Promise dependency graph** (`replayio-commands.cc`). This is the promise
  hook that creates graph nodes and edges for promise creation, settling and
  reactions.
- **Assertion text helpers** (`replayio-commands.cc`). These are
  `ToReadableString` and the rolling `HashBytes`.
- **Command dispatch** (`CommandCallback` in `replayio-api.cc`). This is the
  internal handler table, the JavaScript fallback, and putting the progress
  counter back after a handler advanced it.
- **`ReplayWeakMember`**, the two drafts under `include/cppgc/`:
  - `member-replay.h` keeps the pointer in exactly one slot, chosen by the
    "avoid-weak-pointers" flag;
  - `member_replay.h` always keeps it in the weak slot and mirrors it into the
    strong slot while the flag is set.

The model's style follows the source:

- Values become datatypes and functions.
- Global tables that the source mutates become classes with `seq`, `map` or
  `set` fields and `modifies` clauses.
- Each loop of the source becomes a method whose loop is proved against a
  specification function.
- A failed `CHECK` or `recordreplay::Crash` becomes the `Crash` case of a
  `Result`, not a precondition.
- Calls into V8 or the recorder that cannot be modelled become parameters.
  These include script lookup, position info, weak-map storage, JSON, graph
  node ids, and the value of a global flag at the time of the call.

`include/cppgc/member.h` is not part of this model: the plain `Member` and
`WeakMember` are assumed to behave as one pointer cell. Copy copies the
pointer, move copies it and then clears the source, and `Release` returns it
and clears it.

## Model

| member | source | states |
|---|---|---|
| LocationStrings.ScriptName | src/replay/replay-util.h:18-23 | The script's name when it is a string, otherwise "(anonymous script)". |
| LocationStrings.ScriptLocationString | src/replay/replay-util.cc:18-33 | "(no script)" exactly when the script name is empty. Otherwise `<id>:<name>:<line + 1>:<column>`. |
| LocationStrings.NoScriptIsNoLocation | src/replay/replay-util.cc:26-32 | A formatted location is never the text "(no script)", so the two outcomes can be told apart. |
| LocationStrings.CurrentLocationStringExtended | src/replay/replay-util.cc:35-53 | The text starts with "PC=", and `atoi` of what follows reads the progress counter back. |
| LocationStrings.CurrentLocationStringShape | src/replay/replay-util.cc:35-53 | The extended string starts with `PC=<counter>` and ends with ` stack=<stack>`. It carries a script segment exactly when the script id is positive. |
| LocationStrings.ScriptIdOfLocation | src/replay/replay-util.cc:26-32 | `atoi` of a formatted location gives back the script id. |
| ProgressEntries.BuildScriptProgressEntry | src/runtime/runtime-debug.cc:986-990 | The low word is the start position in two's complement. The high word is the script id in two's complement, or all ones when the position is negative and its sign extension fills the high word. |
| ProgressEntries.EntryRoundTrip | src/runtime/runtime-debug.cc:986-990 | Unpacking an entry (as lines 1014-1016 do) always gives back the start position. It gives back the script id when the position is not negative, and -1 otherwise, because the position's sign extension fills the high word. |
| ProgressEntries.EntryOfNonNegative | src/runtime/runtime-debug.cc:986-990 | For non-negative ids and positions the entry is `scriptId * 2^32 + startPosition`. |
| ProgressEntries.EntryInjective | src/runtime/runtime-debug.cc:986-990 | Distinct functions, with non-negative script id and start position, get distinct entries. |
| ProgressEntries.EntryLocationString | src/runtime/runtime-debug.cc:1000-1012 | Never "(no script)", unlike the replay-util.cc version, and `atoi` of the text is the script id. |
| ProgressEntries.EntryLocationMatchesReplayUtil | src/runtime/runtime-debug.cc:1000-1012 | runtime-debug.cc's own location string equals replay-util.cc's whenever the script name is not empty. |
| ProgressEntries.ProgressEntryString | src/runtime/runtime-debug.cc:1014-1019 | The description starts with the script id unpacked from the entry. |
| ProgressEntries.ProgressEntryStringOfBuilt | src/runtime/runtime-debug.cc:1014-1019 | Describing a packed entry describes the script and position it was built from. |
| ProgressEntries.CommonPrefixLength | src/runtime/runtime-debug.cc:1069-1076 | The compared prefix agrees on both sides. It stops at the first differing entry or at the end of the shorter log. |
| ProgressEntries.FirstDifferenceIsCommonPrefix | src/runtime/runtime-debug.cc:1069-1076 | Any index where the logs agree up to it and then differ or end is the common prefix length. |
| ProgressEntries.OnDataMismatch | src/runtime/runtime-debug.cc:1061-1092 | The loop describes exactly the recorded entries of the common prefix. It returns the mismatch report of the two logs. |
| ProgressEntries.ReportAtFirstDifference | src/runtime/runtime-debug.cc:1069-1076 | At the first differing index `i` the report is (replayed count minus `i + 1`, `recorded[i]`, `replayed[i]`). |
| ProgressEntries.ReportOfExtraReplayed | src/runtime/runtime-debug.cc:1078-1082 | A replayed log that extends the recorded one is reported at its first extra entry. |
| ProgressEntries.ReportOfExtraRecorded | src/runtime/runtime-debug.cc:1084-1088 | A recorded log that extends the replayed one is reported at its first extra entry, with index 0. |
| ProgressEntries.MismatchReport | src/runtime/runtime-debug.cc:1061-1092 | The reported index counts back from the end of a non-empty replayed log, so it lies inside it. Equal logs give (0, 0, 0). |
| ProgressEntries.ReportOfEqual | src/runtime/runtime-debug.cc:1090-1091 | When no entry is zero, the all-empty report is given exactly when the logs are equal. |
| ProgressEntries.ZeroEntryIsAmbiguous | src/runtime/runtime-debug.cc:1027-1034 | The entry of script 0 at position 0 is the zero value that the report uses for "no entry", so a log holding it reads like an equal log. |
| ProgressEntries.ProgressTracker.AssertExecutionProgress | src/runtime/runtime-debug.cc:1112-1124 | The counter steps by one, wrapping at 2^64. The target callback runs exactly when the new counter equals the target. With progress assertions on, exactly one entry, for this function, is appended. Nothing else changes. |
| ProgressEntries.ProgressTracker.AssertGetData | src/runtime/runtime-debug.cc:1044-1057 | On the main thread with data pending, the pending log becomes the reported one and is handed out with its size in bytes (8 per entry). Otherwise the size is 0 and nothing changes. |
| ProgressEntries.ProgressTracker.TargetProgressReached | src/runtime/runtime-debug.cc:1159-1163 | Succeeds exactly when the counter equals the target, and crashes otherwise. |
| SiteRegistries.SiteAt | src/runtime/runtime-debug.cc:1246-1254 | An index finds a site exactly when it lies in `[2^16, 2^16 + count)`, and that site is entry `index - 2^16`. Any other index is a crash. |
| SiteRegistries.SiteAtAfterAppend | src/runtime/runtime-debug.cc:1238-1244 | After a registration, the returned index finds the new site and every earlier index finds what it found before. |
| SiteRegistries.NoSiteBelowOffset | src/runtime/runtime-debug.cc:1246-1254 | An index below `1 << 16` never finds a site. |
| SiteRegistries.AssertionSites.Register | src/runtime/runtime-debug.cc:1238-1244 | Appends the site and returns its position plus `1 << 16`. |
| SiteRegistries.AssertionSites.Get | src/runtime/runtime-debug.cc:1246-1254 | Returns the site the index names, or crashes when the index is out of range. |
| SiteRegistries.InstrumentationSites.Register | src/runtime/runtime-debug.cc:1348-1361 | Appends the site, leaves the main-thread cache alone and returns its position plus `1 << 16`. |
| SiteRegistries.InstrumentationSites.CopyMainThread | src/runtime/runtime-debug.cc:1339-1346 | The cache becomes a copy of all sites. |
| SiteRegistries.InstrumentationSites.Get | src/runtime/runtime-debug.cc:1363-1375 | Answers the site from the global list, or crashes for an index out of range. The cache is refreshed only when the index lies beyond it. |
| SiteRegistries.InstrumentationSites.Kind | src/runtime/runtime-debug.cc:1377-1379 | The kind of the indexed site, or a crash. The cache is refilled from the global list exactly when the index lies beyond it, as in `GetInstrumentationSite`. |
| SiteRegistries.InstrumentationSites.SourcePosition | src/runtime/runtime-debug.cc:1381-1383 | The source position of the indexed site, or a crash. The cache is refilled from the global list exactly when the index lies beyond it, as in `GetInstrumentationSite`. |
| SiteRegistries.InstrumentationSites.FunctionIndex | src/runtime/runtime-debug.cc:1385-1387 | The function index of the indexed site, or a crash. The cache is refilled from the global list exactly when the index lies beyond it, as in `GetInstrumentationSite`. |
| SiteRegistries.CachedSiteIsGlobalSite | src/runtime/runtime-debug.cc:1363-1375 | A site read from the main-thread cache, which is a prefix of the global list, is the site in the global list. |
| FunctionIds.ParseFunctionId | src/runtime/runtime-debug.cc:1429-1434 | Crashes exactly when the id has no ':' (`strchr` returns null). Otherwise the script id is `atoi` of the whole id. |
| FunctionIds.ParseOfFunctionId | src/runtime/runtime-debug.cc:1403-1434 | Parsing a generated function id gives back its script id and start position. |
| FunctionIds.FunctionId | src/runtime/runtime-debug.cc:1403-1427 | `"<scriptId>:<startPosition>"`. Its partner `ParseOfFunctionId` proves that parsing reads both numbers back. |
| FunctionIds.FunctionIdInjective | src/runtime/runtime-debug.cc:1403-1427 | Distinct (script id, start position) pairs get distinct function ids. |
| LinePositions.ScriptLinePosition | src/runtime/runtime-debug.cc:567-587 | -1 for a negative line, 0 for WebAssembly. Otherwise the position after the previous line end (see the lemmas below). |
| LinePositions.ScriptLinePositionWithOffset | src/runtime/runtime-debug.cc:589-602 | -1 for a negative line or offset. A zero line or offset adds the offset to the line's start. Otherwise it takes the start of the line that lies `line` lines below the offset's line, or -1 when the offset has no position info. |
| LinePositions.LineStartIsOnLine | src/runtime/runtime-debug.cc:567-587 | For every line up to the line count, the returned position is not negative and lies on that line. |
| LinePositions.LineStartIsFirst | src/runtime/runtime-debug.cc:567-587 | The position just before a line's start lies on the previous line, so the start is the line's first position. |
| LinePositions.LineStartsIncrease | src/runtime/runtime-debug.cc:567-587 | Later lines start at strictly later positions. |
| LinePositions.NoLineBeyondCount | src/runtime/runtime-debug.cc:584-585 | A line past the line count has no position (-1). |
| Scripts.IsInternalScriptUrlWithOracle | src/replayio/replayio-commands.cc:35-39 | A URL the oracle recognises is internal. So is every URL the replayio-api.cc test calls internal, except "record-replay-internal", whatever the oracle answers. |
| Scripts.InternalScriptUrlVersionsAgree | src/replayio/replayio-commands.cc:35-39 | The replayio-commands.cc test, which asks `RecordReplayIsInternalReplayJs`, agrees with the replayio-api.cc test whenever that oracle recognises exactly "record-replay-internal". |
| Scripts.IsInternalScriptUrl | src/replayio/replayio-api.cc:44-48 | Every internal URL starts with "record-replay-" or "extensions::". |
| Scripts.InternalScriptUrls | src/replayio/replayio-api.cc:44-48 | Every "extensions::" URL is internal. The empty URL and a bare "extensions:" are not. |
| Scripts.ScriptKind | src/replayio/replayio-api.cc:118-128 | "inlineScript" exactly when the script does not start at 0:0 and has a URL, otherwise "scriptSource". |
| Scripts.NewSourceIdOfScript | src/replayio/replayio-commands.cc:150-154 | The protocol source id announced for a script reads back (`atoi`) as the script's id. |
| Scripts.ScriptRegistry.Announce | src/replayio/replayio-api.cc:106-185 | Adds the URL to the interesting sources unless it is internal, adds the id to the registered set, and appends exactly one new-source notice with the script's kind and URL. |
| Scripts.ScriptRegistry.RegisterScript | src/replayio/replayio-api.cc:73-186 | A known id changes nothing. A new script is always stored. It is announced exactly when a default context exists, it is not WebAssembly and events are allowed. |
| Scripts.ScriptRegistry.RegisterScriptWithRoot | src/replayio/replayio-commands.cc:156-247 | As above for the replayio-commands.cc version. A new script with no current context is a failed CHECK. Announcing needs a root context. Scripts that are not internal Replay JS also emit the "newScript" and "newScriptEventsDisallowed" events. |
| Scripts.ScriptRegistry.HasRegisteredScript | src/replayio/replayio-api.cc:55-59 | Never true off the main thread. In a valid registry, a registered script is a stored one. |
| Scripts.RegisteredScriptIsStored | src/replayio/replayio-api.cc:55-59 | A script reported as registered was looked up on the main thread and is a stored script. |
| Breakpoints.InRange | src/replayio/replayio-commands.cc:374-380 | A kept op lies on a line between the range's first and last line. |
| Breakpoints.InRangeIsLexicographic | src/replayio/replayio-commands.cc:374-380 | The skip test keeps exactly the ops with `begin <= (line, column) <= end` in lexicographic order. |
| Breakpoints.DefaultRangeKeepsEveryLine | src/replayio/replayio-commands.cc:360-364 | With both bounds absent, every op on a positive line with an `int` column is kept. |
| Breakpoints.OpsInRange | src/replayio/replayio-commands.cc:347-387 | The passed-on ops are exactly the breakpoint ops in range: every kept op is one, and every such op is kept. |
| Breakpoints.OpsInRangeOfAppend | src/replayio/replayio-commands.cc:366-386 | The filter keeps the visiting order. |
| Breakpoints.GetPossibleBreakpoints | src/replayio/replayio-commands.cc:514-558 | The per-line vector and the count of lines are proved to give the grouped lines of the kept ops. The count equals the number of listed lines. |
| Breakpoints.CollectColumn | src/replayio/replayio-commands.cc:521-529 | After each op, the vector reaches one past the largest line so far. Every slot holds exactly the columns of its line, in visiting order. The count is the number of non-empty slots. |
| Breakpoints.ListLines | src/replayio/replayio-commands.cc:533-550 | The second loop lists the non-empty slots, in ascending line order, each with its columns. |
| Breakpoints.GroupedAscending | src/replayio/replayio-commands.cc:534-550 | The listed lines are strictly ascending. |
| Breakpoints.GroupedColumns | src/replayio/replayio-commands.cc:519-545 | Each listed line carries all the columns of the ops on it, in visiting order, and never none. |
| Breakpoints.GroupedComplete | src/replayio/replayio-commands.cc:534-550 | Every line holding a kept op is listed. |
| Breakpoints.ColumnsOnNonEmpty | src/replayio/replayio-commands.cc:519-530 | A line has columns exactly when some kept op lies on it. |
| Breakpoints.BreakpointKey | src/replayio/replayio-commands.cc:399-403 | `atoi` of the key is the script id. |
| Breakpoints.BreakpointKeyInjective | src/replayio/replayio-commands.cc:399-403 | Distinct (script, line, column) triples have distinct keys. |
| Breakpoints.PositionKey | src/replayio/replayio-commands.cc:415-420 | The last ':' of the key follows the function id, and `atoi` of the text after it is the bytecode offset. |
| Breakpoints.PositionKeyInjective | src/replayio/replayio-commands.cc:415-420 | Distinct (function id, offset) pairs have distinct keys, even though function ids contain ':'. |
| Breakpoints.InsertAllKeepsExisting | src/replayio/replayio-commands.cc:438-446 | `insert` never overwrites a key that is already present. |
| Breakpoints.InsertAllFirstWins | src/replayio/replayio-commands.cc:438-446 | A new key gets the value of its first entry. |
| Breakpoints.InsertAllKeys | src/replayio/replayio-commands.cc:438-446 | The keys afterwards are the old keys plus the entries' keys. |
| Breakpoints.InsertAllIdempotent | src/replayio/replayio-commands.cc:422-448 | Generating the tables again for the same script changes nothing. |
| Breakpoints.BreakpointTables.Generate | src/replayio/replayio-commands.cc:422-448 | Both tables become their old contents with each op's entry inserted, first entry wins. |
| Breakpoints.BreakpointTables.ConvertLocation | src/replayio/replayio-commands.cc:485-512 | Crashes exactly when the table is missing or lacks the key and no script has the id (`GetScript`, lines 104-111). Otherwise regenerates only in those two cases. The regeneration does the same first-wins insertion into the position table. The answer is the key's function offset exactly when the resulting table has the key. A crash changes neither table. |
| Breakpoints.ConvertFindsFirstOp | src/replayio/replayio-commands.cc:485-512 | A location where an op lies converts to the first such op's function offset. |
| HtmlParses.FirstWithToken | src/replayio/replayio-commands.cc:815-824 | The first record with the token, and `None` exactly when no record has it. |
| HtmlParses.FirstWithUrl | src/replayio/replayio-commands.cc:831-838 | The first record with the URL, and `None` exactly when no record has it. |
| HtmlParses.HtmlParseLog.ParseStart | src/replayio/replayio-commands.cc:797-803 | Announces the URL and appends an empty record. |
| HtmlParses.HtmlParseLog.ParseFinish | src/replayio/replayio-commands.cc:805-813 | The loop nulls the token of every record that has it and changes nothing else. |
| HtmlParses.HtmlParseLog.AddData | src/replayio/replayio-commands.cc:815-824 | The loop appends the text to the first record with the token only. |
| HtmlParses.HtmlParseLog.GetHtmlSource | src/replayio/replayio-commands.cc:826-843 | The contents of the first record with the URL, or "". Non-empty contents come from a record with that URL. |
| HtmlParses.NewParseReceivesData | src/replayio/replayio-commands.cc:797-824 | Data for a fresh token goes to the record just started. |
| HtmlParses.WithDataConcatenates | src/replayio/replayio-commands.cc:815-824 | Two pieces of data add up to their concatenation. |
| HtmlParses.FirstWithTokenAgrees | src/replayio/replayio-commands.cc:815-824 | Changing contents or URLs does not change which record a token finds. |
| HtmlParses.FirstWithUrlAgrees | src/replayio/replayio-commands.cc:831-838 | Changing contents or tokens does not change which record a URL finds. |
| HtmlParses.FinishedParseTakesNoData | src/replayio/replayio-commands.cc:805-824 | Once a parse has finished, data for its token is dropped and the served sources do not change. |
| HtmlParses.FirstParseOfUrlWins | src/replayio/replayio-commands.cc:831-838 | A later parse of the same URL never changes what is served. |
| HtmlParses.FirstWithUrlOfPrefix | src/replayio/replayio-commands.cc:831-838 | The first match in a log is the first match in any prefix that contains it. |
| HtmlParses.ParsedPageIsServed | src/replayio/replayio-commands.cc:797-843 | A page parsed under a fresh token and URL is served with exactly its data. |
| ObjectIds.Lookup | src/replayio/replayio-commands.cc:925-942 | The id from the first map holding the object, and `None` exactly when no map holds it. |
| ObjectIds.MapOfContext | src/replayio/replayio-commands.cc:884-888 | The first map of the context, and `None` exactly when the context has none. |
| ObjectIds.FindId | src/replayio/replayio-commands.cc:925-942 | The loop over every map answers the id from the first map holding the object, or none. |
| ObjectIds.StoreId | src/replayio/replayio-commands.cc:884-896 | Finding the context's map, or appending a new one, then storing the entry, yields exactly `WithId`. |
| ObjectIds.WithIdKeepsConsistent | src/replayio/replayio-commands.cc:948-962 | Giving an unknown object the next id keeps every id below the counter and all ids distinct, with one map per context. |
| ObjectIds.WithIdLookup | src/replayio/replayio-commands.cc:948-962 | Afterwards the object is found with its new id, and every other object keeps its lookup. |
| ObjectIds.LookupFirst | src/replayio/replayio-commands.cc:925-942 | The lookup answers from the first map that holds the object. |
| ObjectIds.LookupAgrees | src/replayio/replayio-commands.cc:925-942 | Maps that agree on an object, plus new maps without it, give the same lookup. |
| ObjectIds.TrackThisObjectAssignment | src/replayio/replayio-commands.cc:976-991 | Either tracking switch tracks every assigned object. |
| ObjectIds.TrackedObjectsByDefault | src/replayio/replayio-commands.cc:976-991 | Without the two tracking switches, only a replay's "alternate" property is tracked, and nothing is tracked while recording. |
| ObjectIds.GrantId | src/replayio/replayio-commands.cc:902-963 | A non-zero API id is the answer and leaves the maps and the counter unchanged. |
| ObjectIds.GrantIdBounds | src/replayio/replayio-commands.cc:925-953 | The counter moves by at most one, only for an object no map holds, and then hands out its old value. The assertion log only grows, by at most one entry. |
| ObjectIds.GrantIdIsStable | src/replayio/replayio-commands.cc:902-963 | A granted id keeps the maps consistent, is what a later lookup finds, and is granted again, with no new entry, when the object is asked for again from any context. |
| ObjectIds.ObjectIdAllocator.ObjectId | src/replayio/replayio-commands.cc:902-963 | 0 for non-objects. Then the API id, then a known id, then 0 when creation is not allowed, then the next id, which is stored in the context's map. The counter moves only on creation. The assertion log gets `ReuseObjectId` or `NewObjectId` as the source asserts. The consistency invariant is kept. |
| PromiseGraph.ExecutionNode | src/replayio/replayio-commands.cc:1182-1186 | A reaction runs under the settled node when there is one, otherwise under the creation node. |
| PromiseGraph.Transition | src/replayio/replayio-commands.cc:1158-1191 | Init crashes when a creation node exists and otherwise records the new node. Resolve records a settled node only for a created, unsettled promise. Before and After change nothing. |
| PromiseGraph.TransitionKeepsOrder | src/replayio/replayio-commands.cc:1158-1191 | With non-zero node ids, a promise is settled only after it was created, and a settled record never changes again. |
| PromiseGraph.PromiseLifecycle | src/replayio/replayio-commands.cc:1158-1191 | Create, settle and run: a second creation crashes, a second settling changes nothing, and reactions run under the right node. |
| PromiseGraph.ResolveBeforeInit | src/replayio/replayio-commands.cc:1172-1175 | Resolving a promise that was never created records nothing. |
| PromiseGraph.ShouldCallOnPromiseHook | src/replayio/replayio-commands.cc:1138-1145 | Only on the main thread with the graph enabled. When replaying, always. While recording, only when tracked objects are asserted. |
| PromiseGraph.PromiseHook.GetOrCreate | src/replayio/replayio-commands.cc:1117-1134 | The object is granted its persistent id as `RecordReplayObjectId` does with creation allowed, and the allocator ends in exactly the granted state. The record under that id is returned, inserted empty on first use. |
| PromiseGraph.PromiseHook.OnPromiseHook | src/replayio/replayio-commands.cc:1147-1192 | A disabled hook is a failed CHECK that changes nothing. Otherwise the promise is granted its id first, its record follows `Transition`, and exactly the step's graph calls are logged. On a successful Init with a parent, the parent is granted its id next. The allocator ends in exactly the granted state. The keys afterwards are the old keys plus the promise's and, on that Init, the parent's. Every other old record is unchanged, and every new record other than the promise's is empty. |
| PromiseGraph.PromiseHook.InitStep | src/replayio/replayio-commands.cc:1159-1171 | A second creation fails the CHECK and changes nothing. Otherwise the promise gets its creation node, the parent gets its id and a record, and an edge is logged exactly when the parent was created. |
| PromiseGraph.PromiseHook.ResolveStep | src/replayio/replayio-commands.cc:1172-1181 | The record becomes the `Resolve` transition of the old one, and the settle node and base edge are logged only for a created, unsettled promise. |
| PromiseGraph.ParentEdgeOnlyFromCreatedParent | src/replayio/replayio-commands.cc:1162-1169 | A parent edge runs from the parent's creation node to the new node, and exists exactly when the parent has a creation node. |
| AssertionText.CString | src/replayio/replayio-commands.cc:1020 | The characters before the first NUL. |
| AssertionText.ToReadableString | src/replayio/replayio-commands.cc:1018-1028 | The loop's output is the readable form of the C string. |
| AssertionText.ReadableIsPrintable | src/replayio/replayio-commands.cc:1021-1025 | Every output character is printable (32-126). |
| AssertionText.ReadableOfPrintable | src/replayio/replayio-commands.cc:1021-1022 | A printable string comes out unchanged. |
| AssertionText.ReadableIsAmbiguous | src/replayio/replayio-commands.cc:1023-1024 | The escaping cannot be reversed: `\1` and the control character 1 read alike. |
| AssertionText.Wrap32 | src/replayio/replayio-commands.cc:1006 | Wrapping into a 32-bit `int` stays in range and differs from its input by a multiple of 2^32. |
| AssertionText.HashBytes | src/replayio/replayio-commands.cc:1002-1009 | The loop computes the specified hash, a 32-bit value. |
| AssertionText.HashIsWrappedPolynomial | src/replayio/replayio-commands.cc:1002-1009 | Wrapping at every step equals the polynomial `sum bytes[k] * 31^(n-1-k)` wrapped once. |
| Commands.FindHandler | src/replayio/replayio-api.cc:270-277 | The table entry named by the command, and `None` exactly when no entry has that name. |
| Commands.CounterAfterCommand | src/replayio/replayio-api.cc:296-303 | Without divergence the counter never ends above its start and is put back when the handler advanced it. With divergence the handler's counter stays. |
| Commands.Answer | src/replayio/replayio-api.cc:263-292 | Params that do not parse crash. A table command answers its handler's reply or crashes. Any other command needs the JavaScript handler and its reply. |
| Commands.CommandHost.CommandCallback | src/replayio/replayio-api.cc:221-306 | Answers as `Answer` says. When it answers, the counter is left as `CounterAfterCommand` says. |
| EitherSlotMember.ReplayWeakMember.FromPointer | include/cppgc/member-replay.h:31-48 | The pointer is stored in the slot the flag selects, and the other slot is empty. |
| EitherSlotMember.ReplayWeakMember.Copy | include/cppgc/member-replay.h:50-89 | A copy's `Get()` equals the source's `Get()`, and only the selected slot is set. |
| EitherSlotMember.ReplayWeakMember.Move | include/cppgc/member-replay.h:50-93 | Takes the other member's pointer and clears only its selected slot. |
| EitherSlotMember.ReplayWeakMember.FromMember | include/cppgc/member-replay.h:56-86 | Built from a plain member's pointer. The move clears that member. |
| EitherSlotMember.ReplayWeakMember.Assign | include/cppgc/member-replay.h:150-189 | Every pointer assignment writes the selected slot only. |
| EitherSlotMember.ReplayWeakMember.CopyAssign | include/cppgc/member-replay.h:109-124 | Copies the other member's visible pointer into the selected slot. |
| EitherSlotMember.ReplayWeakMember.MoveAssign | include/cppgc/member-replay.h:127-134 | Moves the selected slot and clears it in the source. A member moved into itself ends empty. |
| EitherSlotMember.ReplayWeakMember.MoveAssignMember | include/cppgc/member-replay.h:137-147 | Takes a plain member's pointer and clears that member. |
| EitherSlotMember.ReplayWeakMember.Swap | include/cppgc/member-replay.h:191-197 | Exchanges the selected slots only. |
| EitherSlotMember.ReplayWeakMember.SwapWithMember | include/cppgc/member-replay.h:199-208 | Exchanges the selected slot with a plain member. |
| EitherSlotMember.ReplayWeakMember.Clear | include/cppgc/member-replay.h:250-256 | Empties the selected slot only. |
| EitherSlotMember.ReplayWeakMember.Release | include/cppgc/member-replay.h:258-264 | Returns the visible pointer and empties the selected slot. |
| EitherSlotMember.TraceShowsOnlyTheTarget | include/cppgc/member-replay.h:274-277 | Under a fixed flag the collector is shown the member's pointer and nothing else. |
| EitherSlotMember.FlagChangeHidesPointer | include/cppgc/member-replay.h:242-248 | A stored pointer becomes invisible once the flag changes, so the design depends on the flag never changing. |
| MirrorMember.ReplayWeakMember.FromPointer | include/cppgc/member_replay.h:27-33 | The weak slot holds the pointer and the strong slot mirrors it when the flag is set. |
| MirrorMember.ReplayWeakMember.Copy | include/cppgc/member_replay.h:35-74 | A copy has the other member's pointer, mirrored. |
| MirrorMember.ReplayWeakMember.Move | include/cppgc/member_replay.h:35-77 | A copy, after which the source is cleared. |
| MirrorMember.ReplayWeakMember.FromMember | include/cppgc/member_replay.h:55-71 | Built from a plain member's pointer. The move clears that member. |
| MirrorMember.ReplayWeakMember.Assign | include/cppgc/member_replay.h:127-169 | Every pointer assignment writes the weak slot, and the strong slot too when the flag is set. The mirror is kept. |
| MirrorMember.ReplayWeakMember.CopyAssign | include/cppgc/member_replay.h:92-94 | Stores the other member's weak pointer. |
| MirrorMember.ReplayWeakMember.MoveAssign | include/cppgc/member_replay.h:113-120 | Copies both slots (strong only with the flag) and then clears the source. A self-move ends empty. |
| MirrorMember.ReplayWeakMember.Swap | include/cppgc/member_replay.h:171-178 | Always exchanges the weak slots, and exchanges the strong slots when the flag is set. |
| MirrorMember.ReplayWeakMember.SwapWithMember | include/cppgc/member_replay.h:180-188 | Exchanges the weak slot with a plain member and re-mirrors it when the flag is set. |
| MirrorMember.ReplayWeakMember.Clear | include/cppgc/member_replay.h:202-209 | Empties the weak slot, and the strong slot too when the flag is set. The mirror is kept. |
| MirrorMember.ReplayWeakMember.Release | include/cppgc/member_replay.h:211-223 | Returns the weak pointer and clears like `Clear`. |
| MirrorMember.TraceShowsOnlyTheTarget | include/cppgc/member_replay.h:229-232 | Under a fixed flag the collector sees only the member's pointer. With the flag set, the strong slot holds it. |
| MirrorMember.FlagChangeKeepsPointer | include/cppgc/member_replay.h:198-200 | Readers never lose the pointer when the flag changes, but a pointer stored with the flag clear is not mirrored once it is set. |

## Left out

- OnDataMismatch: the JSON text of the mismatch message is not built. Only its triple is modelled: the replayed index, the recorded entry and the replayed entry. The "progress" value (counter minus index) is not computed. The text as written in `runtime-debug.cc` also ends with a stray `"` after the number.
- `RecordReplayCallbackAssertDescribeData` and `RecordReplayDescribeAssertData` only print, so they are not modelled beyond the entries `OnDataMismatch` describes.
- ProgressEntries.ProgressTracker.AssertExecutionProgress: the checks and the warning that run with `gRecordReplayCheckProgress` are left out. These are `CHECK`s on bytecode, the checkpoint and the registered script, plus a stack print. They read V8 state that the model does not hold.
- Mutexes, `IsMainThread()` `CHECK`s and the atomicity comments: threads are not modelled. The main-thread test is a parameter where a result depends on it.
- SiteRegistries.AssertionSites.Register and SiteRegistries.InstrumentationSites.Register require that the next index fits in an `int`. The source would overflow silently.
- Scripts.ScriptRegistry.RegisterScript: the JavaScript new-script handlers of the replayio-api.cc version are not modelled. Their calls, the warning for a handler whose context is gone, and the crash when a handler throws are all left out.
- Enumerating instrumentation ops (`ForEachInstrumentationOp`) needs V8's bytecode. Its output, the ops with their line and column, is an input.
- Breakpoints.GetPossibleBreakpoints requires non-negative lines. The source casts a negative line to `size_t`, and its loop would never end.
- The `Target.convertFunctionOffsetToLocation`, `countStackFrames`, `getFunctionsInRange`, `getSourceContents` and `currentGeneratorId` handlers are not modelled. Their replies are inputs of `Commands.Answer`.
- FunctionIds.ParseFunctionId: `atoi` overflow on very long digit strings is not modelled.
- ObjectIds.ObjectIdAllocator.ObjectId: weak-map entries are never collected here. The `IsInt32` test on a stored id always holds. `gNextObjectId` does not wrap at 2^31. The object hash and the V8 weak-map layout are not modelled.
- PromiseGraph.PromiseHook.OnPromiseHook: the answer of `gGetAPIObjectIdCallback` for the promise and its parent, and the node id the recorder answers, are inputs. The early return on a disabled dependency graph after the `CHECK` is unreachable and is folded into the failed `CHECK`. The `CHECK(IsMainThread())` inside `GetOrCreatePromiseDependencyGraphData` always holds after the first `CHECK`.
- Commands.CommandHost.CommandCallback models the replayio-api.cc version. The copy in replayio-commands.cc (1229-1318) asks the root context's `EmitReplayEvent` instead of `gCommandCallback`, and it does not check the reply for emptiness. JSON parsing and stringifying are represented only by `paramsParse` and the reply text.
- Float and double branches of value description, and `TypedArray` copying for assertions, are not modelled.
- AssertionText: `char` is taken to be signed, as on the supported platforms. In `HashBytes`, `hash << 5` on a negative `int` is taken as two's-complement wrap-around.
- EitherSlotMember and MirrorMember: `SentinelPointer` is treated as an ordinary non-null pointer. Pointer compression and write barriers are not modelled. `include/cppgc/member.h` is not part of this model.
- EitherSlotMember: `member-replay.h` has assignments that become ill-formed once instantiated. The copy assignment (line 110) calls an `operator=` taking the raw storage, which the class does not declare. The heterogeneous copy and move assignments (lines 120, 122, 143 and 145) return the plain member's `BasicMember&` where `ReplayWeakMember&` is declared. `Assign`, `CopyAssign` and `MoveAssignMember` follow the evident intent: store the other member's pointer in the selected slot and return this member.
- MirrorMember: `member_replay.h` would not compile as written. It names `std::nullptr` (lines 160 and 162), and the move constructors' body `other.Clear()` lacks its `;` (line 77). The model follows the evident intent. Its heterogeneous move assignment passes `other` on as a named reference, so the plain member is copied and not cleared, and the model does the same.
