/** The state the emitter drives, the lazy per-module symbol loader
    (`load_symbols`) and the first-use accessors (`get_rtn_info`,
    `get_rtn_module_info`), as functions from state to state. The class in
    module Converter runs them in place and is proved to agree. */
module Loader {
  import opened Text
  import opened Registry
  import opened Resolver

  /** The two registries (`m_modules_list`, `m_routines_list`). */
  datatype State = State(modules: Modules, routines: Routines)

  /** What an accessor returns: the alias, and the full name on first use
      or `""` afterwards. */
  datatype Info = Info(alias: nat, name: string)

  /** The registry key of a routine's module: its module token, lower-cased. */
  function ModuleKey(r: Routine): string
  {
    Lower(r.moduleName)
  }

  /** The module registered under `key` has had its symbols loaded. */
  predicate Loaded(st: State, key: string)
  {
    key in st.modules && st.modules[key].symbolsLoaded
  }

  /** Loading the module registered under `key` cannot fail: when it will
      rename, every routine of that module has a name `parse_symbol` can
      read. */
  predicate KeyLoadable(cfg: Config, st: State, key: string)
  {
    !cfg.skipSymbols && key in st.modules && !st.modules[key].symbolsLoaded ==>
      forall a :: a in st.routines && ModuleKey(st.routines[a]) == key ==> Parses(st.routines[a].name)
  }

  /** What `load_symbols(name)` needs. */
  predicate Loadable(cfg: Config, st: State, name: string)
  {
    KeyLoadable(cfg, st, Lower(name))
  }

  /** Every routine of a module whose symbols are not loaded yet still has
      a name `parse_symbol` can read. */
  ghost predicate Resolvable(st: State)
  {
    forall a :: a in st.routines && !Loaded(st, ModuleKey(st.routines[a])) ==> Parses(st.routines[a].name)
  }

  /** The part of the state that only ever grows or stays: the same
      modules and routines with the same paths, module tokens, counts and
      aliases; loaded and emitted flags that are never cleared. */
  ghost predicate Evolves(st: State, st': State)
  {
    && st'.modules.Keys == st.modules.Keys
    && st'.routines.Keys == st.routines.Keys
    && (forall key :: key in st.modules ==>
          var m, m' := st.modules[key], st'.modules[key];
          m'.path == m.path && m'.alias == m.alias
          && (m.symbolsLoaded ==> m'.symbolsLoaded) && (m.aliasAccessed ==> m'.aliasAccessed))
    && (forall a :: a in st.routines ==>
          var r, r' := st.routines[a], st'.routines[a];
          r'.moduleName == r.moduleName && r'.calls == r.calls && r'.alias == r.alias
          && (r.aliasAccessed ==> r'.aliasAccessed))
  }

  /** A routine after `parse_symbol` has been applied to its name: the
      name is replaced unless it was suppressed. */
  function Rename(cfg: Config, mods: Modules, r: Routine): (r': Routine)
    requires Parses(r.name)
    ensures r' == r.(name := r'.name)
  {
    match Resolve(cfg, mods, r.name)
    case None => r
    case Some(name) => r.(name := name)
  }

  /** The routines after the renaming loop of `load_symbols` for the module
      `key`: those of that module renamed, the others unchanged. */
  function Renamed(cfg: Config, mods: Modules, rtns: Routines, key: string): (r: Routines)
    requires forall a :: a in rtns && ModuleKey(rtns[a]) == key ==> Parses(rtns[a].name)
    ensures r.Keys == rtns.Keys
  {
    map a | a in rtns :: if ModuleKey(rtns[a]) == key then Rename(cfg, mods, rtns[a]) else rtns[a]
  }

  /** `load_symbols(name)`: unless symbols are skipped, the module is
      unknown or already loaded, rename every routine of the module and
      mark the module loaded. Only routine names and that one flag change. */
  function LoadSymbols(cfg: Config, st: State, name: string): (st': State)
    requires Loadable(cfg, st, name)
    ensures st'.modules.Keys == st.modules.Keys && st'.routines.Keys == st.routines.Keys
    ensures forall key :: key in st.modules ==>
              st'.modules[key] == st.modules[key].(symbolsLoaded := st'.modules[key].symbolsLoaded)
    ensures forall a :: a in st.routines ==> st'.routines[a] == st.routines[a].(name := st'.routines[a].name)
    ensures forall a :: a in st.routines && ModuleKey(st.routines[a]) != Lower(name) ==>
              st'.routines[a] == st.routines[a]
    ensures forall key :: Loaded(st, key) ==> Loaded(st', key)
  {
    var key := Lower(name);
    if cfg.skipSymbols || key !in st.modules || st.modules[key].symbolsLoaded then st
    else
      State(st.modules[key := st.modules[key].(symbolsLoaded := true)], Renamed(cfg, st.modules, st.routines, key))
  }

  /** `load_symbols` does nothing under `--skip-symbols`, for an
      unregistered module, or for a module already loaded; otherwise the
      module ends up loaded and each of its routines carries the resolved
      name, or its old one when the resolver suppressed it. */
  lemma LoadSymbolsEffect(cfg: Config, st: State, name: string)
    requires Loadable(cfg, st, name)
    ensures var key, st' := Lower(name), LoadSymbols(cfg, st, name);
      && (cfg.skipSymbols || key !in st.modules || st.modules[key].symbolsLoaded ==> st' == st)
      && (!cfg.skipSymbols && key in st.modules ==> st'.modules[key].symbolsLoaded)
      && (!cfg.skipSymbols && key in st.modules && !st.modules[key].symbolsLoaded ==>
            forall a :: a in st.routines && ModuleKey(st.routines[a]) == key ==>
              st'.routines[a].name ==
                match Resolve(cfg, st.modules, st.routines[a].name)
                case Some(resolved) => resolved
                case None => st.routines[a].name)
  {
  }

  /** Each module is loaded at most once: a second `load_symbols` for the
      same module changes nothing. */
  lemma LoadSymbolsOnce(cfg: Config, st: State, name: string)
    requires Loadable(cfg, st, name)
    ensures Loadable(cfg, LoadSymbols(cfg, st, name), name)
    ensures LoadSymbols(cfg, LoadSymbols(cfg, st, name), name) == LoadSymbols(cfg, st, name)
  {
  }

  /** A routine's name changes at most once: once its module is loaded, no
      later `load_symbols` touches it. */
  lemma LoadedNamesStay(cfg: Config, st: State, name: string, a: int)
    requires Loadable(cfg, st, name)
    requires a in st.routines && Loaded(st, ModuleKey(st.routines[a]))
    ensures LoadSymbols(cfg, st, name).routines[a] == st.routines[a]
  {
  }

  /** Every `load_symbols` is safe in a resolvable state, and the state
      stays resolvable. */
  lemma LoadSymbolsResolvable(cfg: Config, st: State, name: string)
    requires Resolvable(st)
    ensures Loadable(cfg, st, name)
    ensures Resolvable(LoadSymbols(cfg, st, name))
  {
    var st' := LoadSymbols(cfg, st, name);
    forall a | a in st'.routines && !Loaded(st', ModuleKey(st'.routines[a]))
      ensures Parses(st'.routines[a].name)
    {
      assert ModuleKey(st'.routines[a]) == ModuleKey(st.routines[a]);
      if ModuleKey(st.routines[a]) != Lower(name) {
        assert st'.routines[a] == st.routines[a];
        assert !Loaded(st, ModuleKey(st.routines[a]));
      } else {
        assert !Loaded(st, Lower(name));
        assert !cfg.skipSymbols ==> Lower(name) !in st.modules;
        assert st' == st;
      }
    }
  }

  /** `get_rtn_info(rtn)`: the routine's alias, with its name exactly when
      it has not been emitted yet; the routine is marked emitted and nothing
      else changes. */
  function RoutineInfo(st: State, rtn: int): (result: (State, Info))
    requires rtn in st.routines
    ensures Evolves(st, result.0) && result.0.modules == st.modules
    ensures forall a :: a in st.routines && a != rtn ==> result.0.routines[a] == st.routines[a]
    ensures result.0.routines[rtn].name == st.routines[rtn].name && result.0.routines[rtn].aliasAccessed
    ensures result.1.alias == st.routines[rtn].alias
    ensures result.1.name != "" ==> !st.routines[rtn].aliasAccessed && result.1.name == st.routines[rtn].name
    ensures !st.routines[rtn].aliasAccessed ==> result.1.name == st.routines[rtn].name
  {
    var r := st.routines[rtn];
    (st.(routines := st.routines[rtn := r.(aliasAccessed := true)]),
     Info(r.alias, if r.aliasAccessed then "" else r.name))
  }

  /** `get_rtn_module_info(rtn)`: the alias of the routine's module, with
      the routine's module token (in its original case) exactly when that
      module has not been emitted yet; the module is marked emitted and
      nothing else changes. */
  function ModuleInfo(st: State, rtn: int): (result: (State, Info))
    requires rtn in st.routines && ModuleKey(st.routines[rtn]) in st.modules
    ensures Evolves(st, result.0) && result.0.routines == st.routines
    ensures var key := ModuleKey(st.routines[rtn]);
      && (forall k :: k in st.modules && k != key ==> result.0.modules[k] == st.modules[k])
      && result.0.modules[key].symbolsLoaded == st.modules[key].symbolsLoaded
      && result.0.modules[key].aliasAccessed
      && result.1.alias == st.modules[key].alias
      && (result.1.name != "" ==> !st.modules[key].aliasAccessed && result.1.name == st.routines[rtn].moduleName)
      && (!st.modules[key].aliasAccessed ==> result.1.name == st.routines[rtn].moduleName)
  {
    var key := ModuleKey(st.routines[rtn]);
    var m := st.modules[key];
    (st.(modules := st.modules[key := m.(aliasAccessed := true)]),
     Info(m.alias, if m.aliasAccessed then "" else st.routines[rtn].moduleName))
  }

  /** `load_symbols` only renames routines and marks modules loaded. */
  lemma LoadSymbolsEvolves(cfg: Config, st: State, name: string)
    requires Loadable(cfg, st, name)
    ensures Evolves(st, LoadSymbols(cfg, st, name))
  {
  }

  /** First use: the first `get_rtn_info` gives the full name, every later
      one the same alias and `""`, and the state no longer changes. */
  lemma RoutineInfoFirstUse(st: State, rtn: int)
    requires rtn in st.routines && !st.routines[rtn].aliasAccessed
    ensures var (st1, first) := RoutineInfo(st, rtn);
      var (st2, second) := RoutineInfo(st1, rtn);
      && first == Info(st.routines[rtn].alias, st.routines[rtn].name)
      && second == Info(st.routines[rtn].alias, "")
      && st1.routines[rtn].aliasAccessed
      && st2 == st1
  {
    var (st1, _) := RoutineInfo(st, rtn);
    assert st1.routines[rtn := st1.routines[rtn].(aliasAccessed := true)] == st1.routines;
  }

  /** First use of a module name, likewise. */
  lemma ModuleInfoFirstUse(st: State, rtn: int)
    requires rtn in st.routines && ModuleKey(st.routines[rtn]) in st.modules
    requires !st.modules[ModuleKey(st.routines[rtn])].aliasAccessed
    ensures var key := ModuleKey(st.routines[rtn]);
      var (st1, first) := ModuleInfo(st, rtn);
      var (st2, second) := ModuleInfo(st1, rtn);
      && first == Info(st.modules[key].alias, st.routines[rtn].moduleName)
      && second == Info(st.modules[key].alias, "")
      && st1.modules[key].aliasAccessed
      && st2 == st1
  {
    var key := ModuleKey(st.routines[rtn]);
    var (st1, _) := ModuleInfo(st, rtn);
    assert st1.modules[key := st1.modules[key].(aliasAccessed := true)] == st1.modules;
  }
}
