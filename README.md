# coverage_to_callgraph: a verified model

`coverage_to_callgraph.py` turns the logs of a PIN code-coverage run into a
Callgrind profile. It reads three kinds of log:

- the module list (`<name>.modules`);
- the routine list (`<name>.routines`);
- one or more call lists (`<name>.<thread>`).

From them it builds three module-level dictionaries:

- the module registry `m_modules_list`;
- the routine registry `m_routines_list`;
- the call graph `m_call_tree`, mapping caller address to callee address to call count.

It then writes one `ob=`/`fn=` block per registered caller, with a
`cob=`/`cfn=`/`calls=` group per callee. Routine names of the form
`module+offset` are resolved lazily, module by module, into
`module!symbol+0xdisp` through a debug-symbol backend. Module and routine
names are printed in full only at their first appearance and by alias
afterwards.

The model has eight modules:

- **Text** covers `split`, `lower`, `basename`, `int(_, 16)`, `int()`, `"%x"` and `"%d"`.
- **Registry** covers the two registries, how one list line is read, and what reading a list leaves. Both registries are filled by one generic fold, `Register`.
- **Resolver** covers `parse_symbol`, as the pure function `Resolve` over a `Config` that carries the module filter, `--skip-symbols` and the backend.
- **Loader** covers `load_symbols`, `get_rtn_info` and `get_rtn_module_info` as functions from state to state.
- **CallGraph** covers call-list reading and counting.
- **Emitter** covers the emission loop as functions producing `Line`s and the written text.
- **Output** covers what the emitted lines promise.
- **Converter** holds a class whose fields are the three dictionaries and the output file. Each script function that changes them is a method proved equal to its specification in the modules above.

Input files enter the model as sequences of lines, each with its line break already removed. The output file is the sequence of strings handed to `write`.

## Model

| member | source | states |
|---|---|---|
| Text.SplitSpec | coverage_to_callgraph.py:101 | `split(sep)` yields one piece more than there are separators, and no piece holds a separator |
| Text.JoinSplit | coverage_to_callgraph.py:103-105 | joining the pieces of a split with the separator gives back the original text (how a path holding a drive colon is rebuilt) |
| Text.SplitAfterPiece | coverage_to_callgraph.py:101 | splitting `p + sep + t`, where `p` holds no separator, yields `p` followed by the pieces of `t` |
| Text.LowerSpec | coverage_to_callgraph.py:111 | `lower()` keeps the length, leaves no upper-case letter, keeps every other character and shifts each upper-case one by 32 |
| Text.BaseNameSpec | coverage_to_callgraph.py:111 | `basename` is the longest suffix of the path without a `\` or `/` |
| Text.NumeralRoundTrip | coverage_to_callgraph.py:182 | the digits `"%x"` / `"%d"` write for a number read back as that number |
| Text.HexRoundTrip | coverage_to_callgraph.py:261 | `int(_, 16)` accepts `"0x%x" % n` and `"%x" % n` and returns `n` |
| Text.DecRoundTrip | coverage_to_callgraph.py:263 | `int()` accepts `"%d" % n` and returns `n` |
| Registry.ModuleEntry | coverage_to_callgraph.py:100-113 | a module line registers nothing exactly when it is a comment or has fewer than two colons |
| Registry.ModuleLineRoundTrip | coverage_to_callgraph.py:100-113 | a line `a:b:path`, where the path holds at most one colon, registers `path` under its lower-cased base name |
| Registry.Register | coverage_to_callgraph.py:107-113 | the fold both list readers share: each accepted entry is stored under its key with alias `len(registry) + 1`, taken before the key is written; its properties are the `Register*` rows below |
| Registry.RegisterAll | coverage_to_callgraph.py:90-91 | a property of every old record and of every record the readers create holds of every record afterwards |
| Registry.RegisterKeeps | coverage_to_callgraph.py:107-113 | registering never removes a key, and a key no line names keeps its record |
| Registry.RegisterKeys | coverage_to_callgraph.py:107-113 | registering adds exactly the keys the accepted lines name |
| Registry.RegisterAliases | coverage_to_callgraph.py:109-113 | with distinct new keys, the registry grows by one per line, the k-th accepted line gets alias `len + k + 1`, and earlier records do not change |
| Registry.RepeatedKeySharesAlias | coverage_to_callgraph.py:109-113 | the alias is `len(registry) + 1`; after a key, the same key again and a new key, the second copy and the new key carry the same alias |
| Registry.ModuleEntries | coverage_to_callgraph.py:98-118 | the entries the accepted module lines yield, in file order; what one line yields is `ModuleEntry` |
| Registry.ReadModules | coverage_to_callgraph.py:86-122 | `read_modules_list`: `?` seeded with alias 1, then `Register` over `ModuleEntries`; its properties are `ModulesKeepUnknown` and `ModuleAliases` |
| Registry.ModulesKeepUnknown | coverage_to_callgraph.py:90-91 | after reading, the module `?` is present, with alias 1 unless a line itself registers `?` |
| Registry.ModuleAliases | coverage_to_callgraph.py:86-122 | from an empty registry with distinct names other than `?`: `?` has alias 1, the k-th accepted line has alias k + 2, and nothing else is registered |
| Registry.RoutineEntry | coverage_to_callgraph.py:256-263 | a routine line registers nothing exactly when it is a comment or has fewer than two colons |
| Registry.RoutineEntries | coverage_to_callgraph.py:250-279 | the entries the accepted routine lines yield, in file order; what one line yields is `RoutineEntry` |
| Registry.ReadRoutines | coverage_to_callgraph.py:236-283 | `read_routines_list`: `Register` over `RoutineEntries`; its property is `RoutineAliases` |
| Registry.ModuleOfName | coverage_to_callgraph.py:266-270 | the module token of a routine name; stated by `ModuleOfNameSpec` |
| Registry.ModuleOfNameSpec | coverage_to_callgraph.py:266-270 | a routine's module is the text before its `+` exactly when the name holds exactly one `+`, otherwise `?` |
| Registry.RoutineLineRoundTrip | coverage_to_callgraph.py:256-263 | a line `0x<addr>:<name>:<calls>` is read back as that address, name and count |
| Registry.RoutineAliases | coverage_to_callgraph.py:259-274 | from an empty registry with distinct addresses, the k-th accepted line gets alias k + 1 and its module from its name, and nothing else is registered |
| Resolver.AnyOccurs | coverage_to_callgraph.py:145-154 | the filter loop: true exactly when some filter entry occurs in the module name |
| Resolver.Resolve | coverage_to_callgraph.py:126-196 | a name is suppressed (`False`) only when a filter is set; under `--skip-symbols` a name is suppressed or returned unchanged |
| Resolver.ResolveModuleName | coverage_to_callgraph.py:131-186 | `module+offset` is suppressed exactly when a filter is set and no entry occurs in the lower-cased module. Otherwise it is returned unchanged under `--skip-symbols`; else it is rewritten to `module!symbol[+0xd]` from the backend result for the registered path (or the lower-cased token), or kept when the backend finds nothing |
| Resolver.ResolvePlainName | coverage_to_callgraph.py:188-196 | a name without `+` is suppressed exactly when it starts with `?`, a filter is set and `?` is not in it; otherwise it is returned unchanged |
| Resolver.SkipSymbolsNeverLooksUp | coverage_to_callgraph.py:164-166 | under `--skip-symbols` the backend is never consulted |
| Resolver.DisplacementRoundTrip | coverage_to_callgraph.py:178-182 | the displacement written as `+0x%x` reads back as the displacement |
| Resolver.FilterExample | coverage_to_callgraph.py:145-162 | with `--modules iexplore`, module `ieframe` is suppressed and `IExplore.exe` is kept |
| Loader.Rename | coverage_to_callgraph.py:224-227 | a routine changes at most its name |
| Loader.Renamed | coverage_to_callgraph.py:220-227 | the routines after the renaming loop: the same addresses, with those of the module renamed by `Rename` and the others unchanged |
| Loader.LoadSymbols | coverage_to_callgraph.py:200-232 | only routine names and the module's loaded flag change; routines of other modules are untouched; loaded modules stay loaded |
| Loader.LoadSymbolsEffect | coverage_to_callgraph.py:204-232 | no effect under `--skip-symbols`, for an unregistered module or for a loaded one; otherwise the module ends loaded and each of its routines carries the resolved name, or its old one when suppressed |
| Loader.LoadSymbolsOnce | coverage_to_callgraph.py:214-217 | a second `load_symbols` of the same module changes nothing |
| Loader.LoadedNamesStay | coverage_to_callgraph.py:214-227 | once a routine's module is loaded, no later `load_symbols` changes that routine |
| Loader.LoadSymbolsResolvable | coverage_to_callgraph.py:220-227 | if every routine of an unloaded module has a name `parse_symbol` can read, every `load_symbols` is safe and keeps that so |
| Loader.LoadSymbolsEvolves | coverage_to_callgraph.py:200-232 | `load_symbols` keeps the keys, paths, aliases, module tokens and counts, and clears no flag |
| Loader.RoutineInfo | coverage_to_callgraph.py:287-305 | `get_rtn_info` returns the routine's alias, and its name exactly when it has not been emitted (`""` otherwise); it marks the routine emitted and changes nothing else |
| Loader.ModuleInfo | coverage_to_callgraph.py:309-328 | `get_rtn_module_info` returns the module's alias, and the routine's module token exactly when the module has not been emitted (`""` otherwise); it marks the module emitted and changes nothing else |
| Loader.RoutineInfoFirstUse | coverage_to_callgraph.py:295-305 | the first call gives the full name, a second the same alias and `""`, and the second call changes no state |
| Loader.ModuleInfoFirstUse | coverage_to_callgraph.py:318-328 | likewise for module names |
| CallGraph.CallEdge | coverage_to_callgraph.py:343-349 | a call line names no pair exactly when it is a comment or has no colon |
| CallGraph.CallEdges | coverage_to_callgraph.py:341-371 | the pairs the accepted call lines name, in file order; what one line names is `CallEdge` |
| CallGraph.AddCall | coverage_to_callgraph.py:351-365 | one pair raises that pair's count by one, unless the caller is 0; every other count is unchanged |
| CallGraph.AddCalls | coverage_to_callgraph.py:351-365 | `AddCall` for each pair in turn; its properties are the `AddCalls*` rows below |
| CallGraph.ReadCalls | coverage_to_callgraph.py:332-375 | `read_calls_list`: `AddCalls` over `CallEdges` |
| CallGraph.ReadAllCalls | coverage_to_callgraph.py:523-525 | the call lists read one after another; its properties are `ReadAllCallsAdds` and `FileOrderIrrelevant` |
| CallGraph.AddCallsCounts | coverage_to_callgraph.py:341-365 | each pair's count grows by the number of times the pair occurs, and pairs with caller 0 are dropped |
| CallGraph.AddCallsShape | coverage_to_callgraph.py:351-365 | the graph never gains caller 0, a caller without callees, or a zero count |
| CallGraph.SameCountsSameGraph | coverage_to_callgraph.py:351-365 | two well-shaped graphs with the same counts are equal |
| CallGraph.OrderIrrelevant | coverage_to_callgraph.py:341-365 | the order of the call records does not matter, only their multiset |
| CallGraph.AddCallsAppend | coverage_to_callgraph.py:523-525 | adding two runs of pairs in turn adds their concatenation |
| CallGraph.ReadAllCallsAdds | coverage_to_callgraph.py:523-525 | reading the call lists one after another adds all their pairs |
| CallGraph.FileOrderIrrelevant | coverage_to_callgraph.py:523-525 | however the records are spread over per-thread files and in whatever order the files are read, the graph is the same |
| CallGraph.CallLineRoundTrip | coverage_to_callgraph.py:343-349 | a line `0x<src>:0x<dst>` is read back as that pair |
| Emitter.LineText | coverage_to_callgraph.py:544-560 | the text of each write: `ob=(%d) %s`, `fn=(%d) %s`, their `cob=`/`cfn=` forms, `calls=%d 0`, `0 1` and the separator; the written form is stated by `RenderAt` |
| Emitter.Header | coverage_to_callgraph.py:527-532 | the four header writes; their text is stated by `Output.HeaderText` |
| Emitter.Render | coverage_to_callgraph.py:72-84 | one write per line |
| Emitter.RenderAt | coverage_to_callgraph.py:72-84 | the k-th write is the k-th line's text followed by CRLF |
| Emitter.RenderAppend | coverage_to_callgraph.py:72-84 | writing two runs of lines writes one after the other |
| Emitter.EnumeratesCovers | coverage_to_callgraph.py:535-549 | an iteration order over the dictionaries lists only callers and their callees |
| Emitter.CalleeKnown | coverage_to_callgraph.py:549-553 | when emission can run, each callee of a registered caller is a registered routine of a registered module |
| Emitter.LoadKeepsLoadable | coverage_to_callgraph.py:214-232 | `load_symbols` keeps every module that could be loaded loadable: its own module becomes loaded, and routines of other modules are untouched |
| Emitter.LoadKeepsReady | coverage_to_callgraph.py:542-551 | `load_symbols` of a loadable module keeps emission able to run: its lookups succeed and every module it still loads can be loaded |
| Emitter.InfoKeepsReady | coverage_to_callgraph.py:544-545 | the accessors keep emission able to run |
| Emitter.LoadProgresses | coverage_to_callgraph.py:542-551 | `load_symbols` changes no name that is already final |
| Emitter.Visit | coverage_to_callgraph.py:542-545 | after loading the module and writing `ob=`/`fn=`, the routine's name is final and no final name changed |
| Emitter.EmitCallee | coverage_to_callgraph.py:549-556 | one callee writes four lines and changes no final name |
| Emitter.EmitCallees | coverage_to_callgraph.py:549-558 | the callees write four lines each |
| Emitter.EmitCaller | coverage_to_callgraph.py:535-560 | a caller keeps emission able to run and changes no final name |
| Emitter.EmitGraph | coverage_to_callgraph.py:535-562 | the whole loop keeps emission able to run and changes no final name |
| Emitter.Profile | coverage_to_callgraph.py:527-562 | the output starts with the header |
| Output.HeaderText | coverage_to_callgraph.py:527-532 | the header writes `#`, the banner, `#` with a blank line, and `events: Ir` with a blank line |
| Output.VisitNamesOnce | coverage_to_callgraph.py:542-545 | an `ob=`/`fn=` pair carries the module's and the routine's registered aliases; each prints its name exactly when it was not printed before, and then the right and final one; it marks both printed and nothing else |
| Output.EmitCallerNamesOnce | coverage_to_callgraph.py:542-560 | in a caller block every line carries its entity's alias; the first line for a module or routine not printed before prints its right and final name, every other line `""`; only what the block names is marked printed |
| Output.EmitGraphNamesOnce | coverage_to_callgraph.py:535-562 | the same over the whole emission loop, relative to what was printed before it |
| Output.ReadingLeavesFresh | coverage_to_callgraph.py:90-91 | reading the module and routine lists into empty registries leaves no module and no routine marked printed (every record is created with `alias_accessed` false, lines 112-113 and 272-274) |
| Output.FreshNamesOnce | coverage_to_callgraph.py:287-328 | from a state where nothing was printed, names-once is exactly-once: the first line for each entity prints its name, every later one `""` |
| Output.ProfileNamesOnce | coverage_to_callgraph.py:527-562 | from such a state, in the whole profile each module and each routine is named in full exactly on the first line referring to it, right and with its final name, and by alias alone on every later line; every line carries the registered alias |
| Output.EmitCalleesShape | coverage_to_callgraph.py:549-558 | the k-th group of a caller's callee lines is the k-th callee's module, name, aggregated call count and cost line |
| Output.CallerGroupAt | coverage_to_callgraph.py:549-558 | in a registered caller's block, the k-th callee group starts at line 3 + 4k |
| Output.CallerBlockShape | coverage_to_callgraph.py:537-560 | an unregistered caller emits nothing; a registered one emits `ob=`, `fn=`, `0 1`, one group per callee in order, and a separator |
| Output.EmitCallerCallers | coverage_to_callgraph.py:537-545 | a caller block names its caller once if it is registered, and nothing otherwise |
| Output.EmitGraphCallers | coverage_to_callgraph.py:535-545 | the `fn=` lines name exactly the registered callers, each once, in iteration order |
| Converter.Converter.LogWrite | coverage_to_callgraph.py:72-84 | the text and CRLF are appended to the output; nothing else changes |
| Converter.Converter.ReadModuleLine | coverage_to_callgraph.py:100-113 | one line registers what `ModuleEntry` gives, with alias `len + 1`, or nothing |
| Converter.Converter.ReadModulesList | coverage_to_callgraph.py:86-122 | the loop leaves the registry `ReadModules` describes (`?` seeded, then each accepted line registered) |
| Converter.Converter.ReadRoutineLine | coverage_to_callgraph.py:256-274 | one line registers what `RoutineEntry` gives, with alias `len + 1`, or nothing |
| Converter.Converter.ReadRoutinesList | coverage_to_callgraph.py:236-283 | the loop leaves the registry `ReadRoutines` describes |
| Converter.Converter.ReadCallLine | coverage_to_callgraph.py:343-365 | one line adds its pair, creating missing entries at 0, or nothing |
| Converter.Converter.ReadCallsList | coverage_to_callgraph.py:332-375 | the loop leaves the graph `ReadCalls` describes |
| Converter.Converter.ReadCallsLists | coverage_to_callgraph.py:523-525 | every input file is read in turn |
| Converter.Converter.LoadRoutineSymbols | coverage_to_callgraph.py:222-227 | a routine of the module is renamed unless `parse_symbol` returns `False`; any other routine is left alone |
| Converter.Converter.RenameRoutines | coverage_to_callgraph.py:220-230 | visiting the addresses in any order renames exactly the module's routines |
| Converter.Converter.LoadSymbols | coverage_to_callgraph.py:200-232 | the new state is `Loader.LoadSymbols` of the old one |
| Converter.Converter.GetRtnInfo | coverage_to_callgraph.py:287-305 | the result and the new state are those of `RoutineInfo` |
| Converter.Converter.GetRtnModuleInfo | coverage_to_callgraph.py:309-328 | the result and the new state are those of `ModuleInfo` |
| Converter.Converter.WriteNames | coverage_to_callgraph.py:542-545 | loads the module and writes `ob=`/`fn=`; the new state and output are those of `Visit` |
| Converter.Converter.WriteCallee | coverage_to_callgraph.py:549-556 | the new state and output are those of `EmitCallee` |
| Converter.Converter.WriteCallees | coverage_to_callgraph.py:549-558 | the loop's new state and output are those of `EmitCallees` |
| Converter.Converter.WriteCaller | coverage_to_callgraph.py:542-560 | the new state and output are those of `EmitCaller` |
| Converter.Converter.WriteGraph | coverage_to_callgraph.py:535-562 | the loop, which skips unregistered callers, leaves the state and output of `EmitGraph` |
| Converter.Converter.WriteProfile | coverage_to_callgraph.py:527-562 | the header and the loop leave the state and output of `Profile`, so every `Output` property holds of what is written |

## Left out

- File I/O: opening, `readline` and closing. Lists arrive as sequences of lines with the `\n` already removed. A `\r` before it stays part of the line, which is what the script sees only when the file is read without newline translation; in text mode on Windows, `open` turns `\r\n` into `\n` before the script sees it.
- The stdout branch of `log_write`: the main block always opens `Callgrind.out[.<thread>]`, so output always goes to the file.
- Command-line parsing, the thread-id check, file discovery with `os.listdir`/`re.search`, the banner, progress spinner and `print` messages, `psyco` and the timing: none of them touches the dictionaries or the output file. `--modules` and `--skip-symbols` enter as the `Config` fields `filter` and `skipSymbols`.
- The counter `processed_items`: `parse_symbol` increments it and nothing reads it.
- `bestbyaddr`, the debug-symbol backend: foreign code, taken as the function parameter `Config.lookup`.
- Dictionary iteration order: CPython's hash order is not modelled. Emission takes the caller order `cs` and the callee orders `order` as parameters, which must enumerate the graph. The `load_symbols` loop picks addresses in any order, and its result is proved the same for every order.
- Crashes become preconditions, not error results. These are `int()` on a malformed address or count (`RoutineLineOk`, `CallLineOk`), a `KeyError` on an unregistered callee or module (`Emittable`), and `parse_symbol` on a malformed name (`Parses`). For emission the last is required (`Prepared`) only of the routines `load_symbols` renames on the way: those of the modules of registered callers and their callees, when symbols are not skipped and the module is not loaded yet.
- `int(_, 16)` and `int()` are modelled strictly: an optional `0x`/`0X` prefix and digits only. Signs, surrounding whitespace and a trailing `L` are not accepted.
- `os.path.basename` splits on `\` and `/` only. A drive prefix without a separator (`C:foo`) is not split off.
- Integers are unbounded, as Python's are.
- When the backend is asked about a module that is not registered, `parse_symbol` passes the lower-cased module token as the path (lines 135 and 168-175), and so does the model.
