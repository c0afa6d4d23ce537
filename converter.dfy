/** The converter as the script runs it: module-level dictionaries
    (`m_modules_list`, `m_routines_list`, `m_call_tree`) and the output file
    become fields of one object, and every function that updates them in
    place becomes a method proved to agree with its specification in
    modules Registry, CallGraph, Loader and Emitter. Input files arrive as
    sequences of lines with the line break already removed; the output
    file is the sequence of writes. */
module Converter {
  import opened Text
  import opened Registry
  import opened Resolver
  import opened Loader
  import opened CallGraph
  import opened Emitter
  import opened Output

  /** Registering one more entry: its key gets the next alias. */
  lemma RegisterStep<K, V, R>(m: map<K, R>, entries: seq<(K, V)>, e: (K, V), make: (V, nat) -> R)
    ensures var before := Register(m, entries, make);
      Register(m, entries + [e], make) == before[e.0 := make(e.1, |before| + 1)]
  {
    assert (entries + [e])[..|entries|] == entries;
  }

  /** Registering what one more line yields: nothing, or one entry. */
  lemma RegisterOptionStep<K, V, R>(m: map<K, R>, entries: seq<(K, V)>, entries': seq<(K, V)>,
                                    next: Option<(K, V)>, make: (V, nat) -> R)
    requires next.None? ==> entries' == entries
    requires next.Some? ==> entries' == entries + [next.value]
    ensures var before := Register(m, entries, make);
      Register(m, entries', make) == match next
                                     case None => before
                                     case Some(e) => before[e.0 := make(e.1, |before| + 1)]
  {
    if next.Some? {
      RegisterStep(m, entries, next.value, make);
    }
  }

  /** Adding one more pair to the call graph. */
  lemma AddCallsStep(g: Graph, edges: seq<(int, int)>, e: (int, int))
    ensures AddCalls(g, edges + [e]) == AddCall(AddCalls(g, edges), e.0, e.1)
  {
    assert (edges + [e])[..|edges|] == edges;
  }

  /** The accepted entries of one more module line. */
  lemma ModuleEntriesStep(lines: seq<string>, i: nat)
    requires i < |lines|
    ensures ModuleEntry(lines[i]).None? ==> ModuleEntries(lines[..i + 1]) == ModuleEntries(lines[..i])
    ensures ModuleEntry(lines[i]).Some? ==>
              ModuleEntries(lines[..i + 1]) == ModuleEntries(lines[..i]) + [ModuleEntry(lines[i]).value]
  {
    assert lines[..i + 1][..i] == lines[..i];
  }

  /** The accepted entries of one more routine line. */
  lemma RoutineEntriesStep(lines: seq<string>, i: nat)
    requires i < |lines| && forall k :: 0 <= k < |lines| ==> RoutineLineOk(lines[k])
    ensures RoutineEntry(lines[i]).None? ==> RoutineEntries(lines[..i + 1]) == RoutineEntries(lines[..i])
    ensures RoutineEntry(lines[i]).Some? ==>
              RoutineEntries(lines[..i + 1]) == RoutineEntries(lines[..i]) + [RoutineEntry(lines[i]).value]
  {
    assert lines[..i + 1][..i] == lines[..i];
  }

  /** The pairs of one more call line. */
  lemma CallEdgesStep(lines: seq<string>, i: nat)
    requires i < |lines| && forall k :: 0 <= k < |lines| ==> CallLineOk(lines[k])
    ensures CallEdge(lines[i]).None? ==> CallEdges(lines[..i + 1]) == CallEdges(lines[..i])
    ensures CallEdge(lines[i]).Some? ==>
              CallEdges(lines[..i + 1]) == CallEdges(lines[..i]) + [CallEdge(lines[i]).value]
  {
    assert lines[..i + 1][..i] == lines[..i];
  }

  /** Reading one more call line adds its pair, if it names one. */
  lemma ReadCallsStep(g: Graph, lines: seq<string>, i: nat)
    requires i < |lines| && forall k :: 0 <= k < |lines| ==> CallLineOk(lines[k])
    ensures AddCalls(g, CallEdges(lines[..i + 1])) == match CallEdge(lines[i])
                                                      case None => AddCalls(g, CallEdges(lines[..i]))
                                                      case Some(e) => AddCall(AddCalls(g, CallEdges(lines[..i])), e.0, e.1)
  {
    CallEdgesStep(lines, i);
    if CallEdge(lines[i]).Some? {
      AddCallsStep(g, CallEdges(lines[..i]), CallEdge(lines[i]).value);
    }
  }

  /** The callees `ds[..k + 1]`: those of `ds[..k]`, then `ds[k]`. */
  lemma EmitCalleesStep(cfg: Config, st: State, g: Graph, c: int, ds: seq<int>, k: nat)
    requires Ready(cfg, st, g) && c in g && c in st.routines && CalleesOf(g, c, ds) && k < |ds|
    ensures CalleesOf(g, c, ds[..k]) && CalleesOf(g, c, ds[..k + 1])
    ensures var (s1, before) := EmitCallees(cfg, st, g, c, ds[..k]);
      Ready(cfg, s1, g) && ds[k] in g[c] &&
      var (s2, last) := EmitCallee(cfg, s1, g, c, ds[k]);
      EmitCallees(cfg, st, g, c, ds[..k + 1]) == (s2, before + last)
  {
    assert ds[..k + 1][..k] == ds[..k];
    assert ds[..k + 1][k] == ds[k];
  }

  /** The callers `cs[..i + 1]`: those of `cs[..i]`, then `cs[i]`. */
  lemma EmitGraphStep(cfg: Config, st: State, g: Graph, cs: seq<int>, order: map<int, seq<int>>, i: nat)
    requires Ready(cfg, st, g) && Covers(g, cs, order) && i < |cs|
    ensures Covers(g, cs[..i], order) && Covers(g, cs[..i + 1], order)
    ensures var (s1, before) := EmitGraph(cfg, st, g, cs[..i], order);
      Ready(cfg, s1, g) && cs[i] in g && cs[i] in order && CalleesOf(g, cs[i], order[cs[i]]) &&
      var (s2, block) := EmitCaller(cfg, s1, g, cs[i], order[cs[i]]);
      EmitGraph(cfg, st, g, cs[..i + 1], order) == (s2, before + block)
  {
    assert cs[..i + 1][..i] == cs[..i];
    assert cs[..i + 1][i] == cs[i];
  }

  /** Some member of a non-empty set of addresses. */
  method PickAddress(pending: set<int>) returns (a: int)
    requires pending != {}
    ensures a in pending
  {
    if forall b :: b !in pending {
      assert false;
    }
    a :| a in pending;
  }

  /** A map part-way through being rewritten into `target`: the keys in
      `done` already carry their new value, the others their old one. */
  function Merge<K, V>(m: map<K, V>, target: map<K, V>, done: set<K>): (r: map<K, V>)
    requires target.Keys == m.Keys
    ensures r.Keys == m.Keys
  {
    map k | k in m :: if k in done then target[k] else m[k]
  }

  /** A key not rewritten yet keeps its old value. */
  lemma MergeUnvisited<K, V>(m: map<K, V>, target: map<K, V>, done: set<K>, k: K)
    requires target.Keys == m.Keys && k in m && k !in done
    ensures Merge(m, target, done)[k] == m[k]
  {
  }

  /** Rewriting one more key. */
  lemma MergeStep<K, V>(m: map<K, V>, target: map<K, V>, done: set<K>, k: K)
    requires target.Keys == m.Keys && k in m
    ensures Merge(m, target, done + {k}) == Merge(m, target, done)[k := target[k]]
  {
    var r0 := Merge(m, target, done);
    var r1 := Merge(m, target, done + {k});
    forall j | j in r1 ensures r1[j] == r0[k := target[k]][j] {
      if j != k {
        assert (j in done + {k}) == (j in done);
      }
    }
  }

  /** Nothing rewritten yet, and everything rewritten. */
  lemma MergeEnds<K, V>(m: map<K, V>, target: map<K, V>)
    requires target.Keys == m.Keys
    ensures Merge(m, target, {}) == m && Merge(m, target, m.Keys) == target
  {
  }

  /** One entry of `Renamed`. */
  lemma RenamedAt(cfg: Config, mods: Modules, rtns: Routines, key: string, a: int)
    requires forall b :: b in rtns && ModuleKey(rtns[b]) == key ==> Parses(rtns[b].name)
    requires a in rtns
    ensures Renamed(cfg, mods, rtns, key)[a] == if ModuleKey(rtns[a]) == key then Rename(cfg, mods, rtns[a]) else rtns[a]
  {
  }

  /** `EmitCallee` step by step: the callee's names, then its count and cost. */
  lemma EmitCalleeSteps(cfg: Config, st: State, g: Graph, c: int, d: int, s: State, named: seq<Line>)
    requires Ready(cfg, st, g) && c in g && c in st.routines && d in g[c]
    requires d in st.routines && ModuleKey(st.routines[d]) in st.modules
    requires (s, named) == Visit(cfg, st, g, d, true)
    ensures EmitCallee(cfg, st, g, c, d) == (s, named + [CallCount(g[c][d]), Cost])
  {
  }

  /** `EmitCaller` of a registered caller step by step: its names, its cost,
      its callees, the separator. */
  lemma EmitCallerSteps(cfg: Config, st: State, g: Graph, c: int, ds: seq<int>,
                        s1: State, named: seq<Line>, s2: State, body: seq<Line>)
    requires Ready(cfg, st, g) && c in g && CalleesOf(g, c, ds) && c in st.routines
    requires ModuleKey(st.routines[c]) in st.modules
    requires (s1, named) == Visit(cfg, st, g, c, false)
    requires Ready(cfg, s1, g) && c in s1.routines
    requires (s2, body) == EmitCallees(cfg, s1, g, c, ds)
    ensures EmitCaller(cfg, st, g, c, ds) == (s2, named + [Cost] + body + [Separator])
  {
  }

  /** Writing after a rendering continues it. */
  lemma RenderContinues(out: seq<string>, a: seq<Line>, b: seq<Line>)
    ensures out + Render(a) + Render(b) == out + Render(a + b)
  {
    RenderAppend(a, b);
  }

  /** Writing one more line after a rendering continues it. */
  lemma RenderContinuesOne(out: seq<string>, a: seq<Line>, line: Line)
    ensures out + Render(a) + [LineText(line) + "\r\n"] == out + Render(a + [line])
  {
    assert (a + [line])[..|a|] == a;
  }

  /** The `0 1` line after a caller's names. */
  lemma CallerHeadWritten(out: seq<string>, named: seq<Line>)
    ensures out + Render(named) + ["0 1" + "\r\n"] == out + Render(named + [Cost])
  {
    RenderContinuesOne(out, named, Cost);
  }

  /** The separator after a caller's callees. */
  lemma CallerTailWritten(out: seq<string>, lines: seq<Line>)
    ensures out + Render(lines) + ["\r\n" + "\r\n"] == out + Render(lines + [Separator])
  {
    RenderContinuesOne(out, lines, Separator);
  }

  /** The four header writes render the header. */
  lemma HeaderWritten(out: seq<string>)
    ensures out + ["#" + "\r\n"] + ["# Generated by Code Coverage Analysis Tool for PIN" + "\r\n"]
              + ["#\r\n" + "\r\n"] + ["events: Ir\r\n" + "\r\n"] == out + Render(Header)
  {
    HeaderText();
  }

  /** `EmitCaller` of an unregistered caller writes nothing. */
  lemma SkippedCaller(cfg: Config, st: State, g: Graph, c: int, ds: seq<int>)
    requires Ready(cfg, st, g) && c in g && CalleesOf(g, c, ds) && c !in st.routines
    ensures EmitCaller(cfg, st, g, c, ds) == (st, [])
  {
  }

  /** The profile: the header, then the graph. */
  lemma ProfileSteps(cfg: Config, st: State, g: Graph, cs: seq<int>, order: map<int, seq<int>>)
    requires Ready(cfg, st, g) && Covers(g, cs, order)
    ensures Profile(cfg, st, g, cs, order) ==
              (EmitGraph(cfg, st, g, cs, order).0, Header + EmitGraph(cfg, st, g, cs, order).1)
  {
  }

  /** The `calls=` and `0 1` lines after a callee's names. */
  lemma CalleeTailWritten(out: seq<string>, named: seq<Line>, count: nat)
    ensures out + Render(named) + ["calls=" + DecString(count) + " 0" + "\r\n"] + ["0 1" + "\r\n"] ==
              out + Render(named + [CallCount(count), Cost])
  {
    RenderContinuesOne(out, named, CallCount(count));
    RenderContinuesOne(out, named + [CallCount(count)], Cost);
    assert named + [CallCount(count)] + [Cost] == named + [CallCount(count), Cost];
  }

  /** `Visit` step by step: load, name the module, name the routine. */
  lemma VisitSteps(cfg: Config, st: State, g: Graph, rtn: int, callee: bool, s1: State, s2: State, s3: State, ob: Info, fn: Info)
    requires Ready(cfg, st, g) && rtn in st.routines && ModuleKey(st.routines[rtn]) in st.modules
    requires Loadable(cfg, st, st.routines[rtn].moduleName)
    requires s1 == Loader.LoadSymbols(cfg, st, st.routines[rtn].moduleName)
    requires rtn in s1.routines && ModuleKey(s1.routines[rtn]) in s1.modules
    requires (s2, ob) == ModuleInfo(s1, rtn)
    requires rtn in s2.routines
    requires (s3, fn) == RoutineInfo(s2, rtn)
    ensures Visit(cfg, st, g, rtn, callee) ==
              (s3, [Object(callee, ModuleKey(st.routines[rtn]), ob.alias, ob.name), Function(callee, rtn, fn.alias, fn.name)])
  {
  }

  /** Writing the `ob=` and `fn=` texts of two lines writes their rendering. */
  lemma NamesWritten(out0: seq<string>, obLine: Line, fnLine: Line, obText: string, fnText: string)
    requires obLine.Object? && obText == (if obLine.callee then "cob=(" else "ob=(") + DecString(obLine.alias) + ") " + obLine.name
    requires fnLine.Function? && fnText == (if fnLine.callee then "cfn=(" else "fn=(") + DecString(fnLine.alias) + ") " + fnLine.name
    ensures out0 + [obText + "\r\n"] + [fnText + "\r\n"] == out0 + Render([obLine, fnLine])
  {
    assert [obLine, fnLine][..1] == [obLine];
    RenderOne(obLine);
  }

  class Converter {
    /** The module filter, `--skip-symbols` and the symbol backend. */
    const cfg: Config
    /** `m_modules_list`. */
    var modules: Modules
    /** `m_routines_list`. */
    var routines: Routines
    /** `m_call_tree`. */
    var callTree: Graph
    /** Everything `log_write` has written to the output file. */
    var output: seq<string>

    /** The two registries as one state. */
    function Snapshot(): State
      reads this
    {
      State(modules, routines)
    }

    /** The script before it reads anything. */
    constructor(cfg: Config)
      ensures this.cfg == cfg
      ensures modules == map[] && routines == map[] && callTree == map[] && output == []
    {
      this.cfg := cfg;
      modules := map[];
      routines := map[];
      callTree := map[];
      output := [];
    }

    /** `log_write(text)`: the text and CRLF are written to the output file. */
    method LogWrite(text: string)
      modifies this
      ensures output == old(output) + [text + "\r\n"]
      ensures modules == old(modules) && routines == old(routines) && callTree == old(callTree)
    {
      output := output + [Written(text)];
    }

    /** The body of the `read_modules_list` loop for one line: a line that
        is not a comment and has at least three fields registers its path
        (a fourth field joined back with `:`) under its lower-cased base
        name, with alias `len(m_modules_list) + 1`. */
    method ReadModuleLine(line: string)
      modifies this
      ensures modules == match ModuleEntry(line)
                         case None => old(modules)
                         case Some(e) => old(modules)[e.0 := NewModule(e.1, |old(modules)| + 1)]
      ensures routines == old(routines) && callTree == old(callTree) && output == old(output)
    {
      var entry := Split(line, ':');
      ghost var fields := entry;
      if |entry| > 3 {
        entry := entry[2 := entry[2] + ":" + entry[3]];
      }
      if !IsComment(line) && |entry| >= 3 {
        assert entry[2] == ModulePath(fields);
        var alias := |modules| + 1;
        var key := Lower(BaseName(entry[2]));
        assert ModuleEntry(line) == Some((key, entry[2]));
        modules := modules[key := Module(entry[2], false, alias, false)];
      } else {
        assert ModuleEntry(line) == None;
      }
    }

    /** `read_modules_list`: seeds `?` and registers every module line. */
    method ReadModulesList(lines: seq<string>)
      modifies this
      ensures modules == ReadModules(old(modules), lines)
      ensures routines == old(routines) && callTree == old(callTree) && output == old(output)
    {
      modules := modules[UnknownName := UnknownModule];
      ghost var seeded := modules;
      assert ModuleEntries(lines[..0]) == [] by { assert lines[..0] == []; }
      for i := 0 to |lines|
        invariant modules == Register(seeded, ModuleEntries(lines[..i]), NewModule)
        invariant routines == old(routines) && callTree == old(callTree) && output == old(output)
      {
        ModuleEntriesStep(lines, i);
        RegisterOptionStep(seeded, ModuleEntries(lines[..i]), ModuleEntries(lines[..i + 1]),
                           ModuleEntry(lines[i]), NewModule);
        ReadModuleLine(lines[i]);
      }
      assert lines[..|lines|] == lines;
    }

    /** The body of the `read_routines_list` loop for one line: a line that
        is not a comment and has at least three fields registers the
        routine at its hex address, with its name, the module token before
        a single `+` (else `?`), its decimal call count and alias
        `len(m_routines_list) + 1`. */
    method ReadRoutineLine(line: string)
      requires RoutineLineOk(line)
      modifies this
      ensures routines == match RoutineEntry(line)
                          case None => old(routines)
                          case Some(e) => old(routines)[e.0 := NewRoutine(e.1, |old(routines)| + 1)]
      ensures modules == old(modules) && callTree == old(callTree) && output == old(output)
    {
      var entry := Split(line, ':');
      if !IsComment(line) && |entry| >= 3 {
        var address := ParseHex(entry[0]);
        var name := entry[1];
        var calls := ParseDec(entry[2]);
        var alias := |routines| + 1;
        var moduleName := UnknownName;
        var parts := Split(entry[1], '+');
        if |parts| == 2 {
          moduleName := parts[0];
        }
        routines := routines[address := Routine(name, moduleName, calls, alias, false)];
      }
    }

    /** `read_routines_list`: registers every routine line. */
    method ReadRoutinesList(lines: seq<string>)
      requires forall i :: 0 <= i < |lines| ==> RoutineLineOk(lines[i])
      modifies this
      ensures routines == ReadRoutines(old(routines), lines)
      ensures modules == old(modules) && callTree == old(callTree) && output == old(output)
    {
      for i := 0 to |lines|
        invariant routines == Register(old(routines), RoutineEntries(lines[..i]), NewRoutine)
        invariant modules == old(modules) && callTree == old(callTree) && output == old(output)
      {
        RoutineEntriesStep(lines, i);
        RegisterOptionStep(old(routines), RoutineEntries(lines[..i]), RoutineEntries(lines[..i + 1]),
                           RoutineEntry(lines[i]), NewRoutine);
        ReadRoutineLine(lines[i]);
      }
      assert lines[..|lines|] == lines;
    }

    /** The body of the `read_calls_list` loop for one line: a line that is
        not a comment and has at least two fields names a caller and a
        callee in hex; unless the caller is 0, the pair's entry is created
        at 0 when missing and incremented. */
    method ReadCallLine(line: string)
      requires CallLineOk(line)
      modifies this
      ensures callTree == match CallEdge(line)
                          case None => old(callTree)
                          case Some(e) => AddCall(old(callTree), e.0, e.1)
      ensures modules == old(modules) && routines == old(routines) && output == old(output)
    {
      var entry := Split(line, ':');
      if !IsComment(line) && |entry| >= 2 {
        var src := ParseHex(entry[0]);
        var dst := ParseHex(entry[1]);
        if src != 0 {
          ghost var inner := if src in callTree then callTree[src] else map[];
          ghost var count := if dst in inner then inner[dst] else 0;
          if src !in callTree {
            callTree := callTree[src := map[]];
          }
          if dst !in callTree[src] {
            callTree := callTree[src := callTree[src][dst := 0]];
          }
          assert callTree[src] == inner[dst := count];
          callTree := callTree[src := callTree[src][dst := callTree[src][dst] + 1]];
          assert callTree[src] == inner[dst := count + 1];
        }
      }
    }

    /** `read_calls_list`: counts every pair the lines name. */
    method ReadCallsList(lines: seq<string>)
      requires forall i :: 0 <= i < |lines| ==> CallLineOk(lines[i])
      modifies this
      ensures callTree == ReadCalls(old(callTree), lines)
      ensures modules == old(modules) && routines == old(routines) && output == old(output)
    {
      for i := 0 to |lines|
        invariant callTree == AddCalls(old(callTree), CallEdges(lines[..i]))
        invariant modules == old(modules) && routines == old(routines) && output == old(output)
      {
        ReadCallsStep(old(callTree), lines, i);
        ReadCallLine(lines[i]);
      }
      assert lines[..|lines|] == lines;
    }

    /** The main loop over the input files: each call list read in turn. */
    method ReadCallsLists(files: seq<seq<string>>)
      requires FilesOk(files)
      modifies this
      ensures callTree == ReadAllCalls(old(callTree), files)
      ensures modules == old(modules) && routines == old(routines) && output == old(output)
    {
      for f := 0 to |files|
        invariant callTree == ReadAllCalls(old(callTree), files[..f])
        invariant modules == old(modules) && routines == old(routines) && output == old(output)
      {
        assert files[..f + 1][..f] == files[..f];
        ReadCallsList(files[f]);
      }
      assert files[..|files|] == files;
    }
    /** The body of the loop of `load_symbols` for one routine: a routine
        of the module `key` is renamed to what `parse_symbol` gives, unless
        that is `False`; any other routine is left alone. */
    method LoadRoutineSymbols(a: int, key: string)
      requires a in routines && (ModuleKey(routines[a]) == key ==> Parses(routines[a].name))
      modifies this
      ensures routines == old(routines)[a := if ModuleKey(old(routines)[a]) == key
                                           then Rename(cfg, modules, old(routines)[a])
                                           else old(routines)[a]]
      ensures modules == old(modules) && callTree == old(callTree) && output == old(output)
    {
      if Lower(routines[a].moduleName) == key {
        var renamed := Resolve(cfg, modules, routines[a].name);
        if renamed.Some? {
          routines := routines[a := routines[a].(name := renamed.value)];
        } else {
          assert routines[a := routines[a]] == routines;
        }
      } else {
        assert routines[a := routines[a]] == routines;
      }
    }

    /** The loop of `load_symbols` (lines 220-230): every routine visited
        once, in whatever order the registry is iterated. */
    method RenameRoutines(key: string)
      requires forall a :: a in routines && ModuleKey(routines[a]) == key ==> Parses(routines[a].name)
      modifies this
      ensures routines == Renamed(cfg, modules, old(routines), key)
      ensures modules == old(modules) && callTree == old(callTree) && output == old(output)
    {
      ghost var before := routines;
      ghost var target := Renamed(cfg, modules, before, key);
      MergeEnds(before, target);
      var pending := routines.Keys;
      while pending != {}
        invariant pending <= before.Keys
        invariant modules == old(modules) && callTree == old(callTree) && output == old(output)
        invariant routines == Merge(before, target, before.Keys - pending)
        decreases |pending|
      {
        var a := PickAddress(pending);
        MergeUnvisited(before, target, before.Keys - pending, a);
        MergeStep(before, target, before.Keys - pending, a);
        RenamedAt(cfg, modules, before, key, a);
        assert before.Keys - (pending - {a}) == (before.Keys - pending) + {a};
        LoadRoutineSymbols(a, key);
        pending := pending - {a};
      }
      assert before.Keys - pending == before.Keys;
    }

    /** `load_symbols(name)`: unless `--skip-symbols` is set, the module is
        unregistered or its symbols are loaded already, every routine of
        the module is renamed to what `parse_symbol` gives, unless that is
        `False`, in whatever order the routine registry is iterated; then
        the module is marked loaded. */
    method LoadSymbols(name: string)
      requires Loadable(cfg, Snapshot(), name)
      modifies this
      ensures Snapshot() == Loader.LoadSymbols(cfg, old(Snapshot()), name)
      ensures callTree == old(callTree) && output == old(output)
    {
      if cfg.skipSymbols {
        return;
      }
      var key := Lower(name);
      if key !in modules || modules[key].symbolsLoaded {
        return;
      }
      RenameRoutines(key);
      modules := modules[key := modules[key].(symbolsLoaded := true)];
    }

    /** `get_rtn_info(rtn)`: the routine's alias and, the first time only,
        its name; the routine is marked as named. */
    method GetRtnInfo(rtn: int) returns (info: Info)
      requires rtn in routines
      modifies this
      ensures (Snapshot(), info) == RoutineInfo(old(Snapshot()), rtn)
      ensures callTree == old(callTree) && output == old(output)
    {
      var name := routines[rtn].name;
      var alias := routines[rtn].alias;
      if !routines[rtn].aliasAccessed {
        routines := routines[rtn := routines[rtn].(aliasAccessed := true)];
      } else {
        name := "";
        assert routines[rtn := routines[rtn].(aliasAccessed := true)] == routines;
      }
      info := Info(alias, name);
    }

    /** `get_rtn_module_info(rtn)`: the alias of the routine's module and,
        the first time only, the routine's module token; the module is
        marked as named. */
    method GetRtnModuleInfo(rtn: int) returns (info: Info)
      requires rtn in routines && Lower(routines[rtn].moduleName) in modules
      modifies this
      ensures (Snapshot(), info) == ModuleInfo(old(Snapshot()), rtn)
      ensures callTree == old(callTree) && output == old(output)
    {
      var name := routines[rtn].moduleName;
      var key := Lower(name);
      var alias := modules[key].alias;
      if !modules[key].aliasAccessed {
        modules := modules[key := modules[key].(aliasAccessed := true)];
      } else {
        name := "";
        assert modules[key := modules[key].(aliasAccessed := true)] == modules;
      }
      info := Info(alias, name);
    }

    /** Lines 542-545 (`ob=`, `fn=`) or 551-554 (`cob=`, `cfn=`): load the
        symbols of the routine's module and write its module and its name. */
    method WriteNames(rtn: int, callee: bool)
      requires Ready(cfg, Snapshot(), callTree) && rtn in routines && ModuleKey(routines[rtn]) in modules
      requires Loadable(cfg, Snapshot(), routines[rtn].moduleName)
      modifies this
      ensures callTree == old(callTree)
      ensures var (st, lines) := Visit(cfg, old(Snapshot()), callTree, rtn, callee);
        Snapshot() == st && output == old(output) + Render(lines)
    {
      ghost var st0 := Snapshot();
      ghost var out0 := output;
      var moduleName := routines[rtn].moduleName;
      LoadKeepsReady(cfg, st0, callTree, moduleName);
      LoadSymbols(moduleName);
      ghost var s1 := Snapshot();
      var ob := GetRtnModuleInfo(rtn);
      ghost var s2 := Snapshot();
      var obText := (if callee then "cob=(" else "ob=(") + DecString(ob.alias) + ") " + ob.name;
      LogWrite(obText);
      var fn := GetRtnInfo(rtn);
      ghost var s3 := Snapshot();
      var fnText := (if callee then "cfn=(" else "fn=(") + DecString(fn.alias) + ") " + fn.name;
      LogWrite(fnText);
      ghost var obLine := Object(callee, ModuleKey(st0.routines[rtn]), ob.alias, ob.name);
      ghost var fnLine := Function(callee, rtn, fn.alias, fn.name);
      VisitSteps(cfg, st0, callTree, rtn, callee, s1, s2, s3, ob, fn);
      NamesWritten(out0, obLine, fnLine, obText, fnText);
    }

    /** One callee of the caller `c` (lines 549-558): its names, the
        number of calls, `0 1`. */
    method WriteCallee(c: int, d: int)
      requires Ready(cfg, Snapshot(), callTree) && c in callTree && c in routines && d in callTree[c]
      modifies this
      ensures callTree == old(callTree)
      ensures var (st, lines) := EmitCallee(cfg, old(Snapshot()), callTree, c, d);
        Snapshot() == st && output == old(output) + Render(lines)
    {
      ghost var st0 := Snapshot();
      ghost var out0 := output;
      CalleeKnown(st0, callTree, c, d);
      WriteNames(d, true);
      ghost var named := Visit(cfg, st0, callTree, d, true).1;
      LogWrite("calls=" + DecString(callTree[c][d]) + " 0");
      LogWrite("0 1");
      EmitCalleeSteps(cfg, st0, callTree, c, d, Snapshot(), named);
      CalleeTailWritten(out0, named, callTree[c][d]);
    }

    /** The callees of the caller `c` in the order `ds` (lines 549-558). */
    method WriteCallees(c: int, ds: seq<int>)
      requires Ready(cfg, Snapshot(), callTree) && c in callTree && c in routines && CalleesOf(callTree, c, ds)
      modifies this
      ensures callTree == old(callTree)
      ensures var (st, lines) := EmitCallees(cfg, old(Snapshot()), callTree, c, ds);
        Snapshot() == st && output == old(output) + Render(lines)
    {
      ghost var st0 := Snapshot();
      ghost var out0 := output;
      assert ds[..0] == [];
      for k := 0 to |ds|
        invariant callTree == old(callTree) && c in callTree && c in st0.routines && Ready(cfg, st0, callTree)
        invariant CalleesOf(callTree, c, ds[..k])
        invariant Snapshot() == EmitCallees(cfg, st0, callTree, c, ds[..k]).0
        invariant output == out0 + Render(EmitCallees(cfg, st0, callTree, c, ds[..k]).1)
      {
        EmitCalleesStep(cfg, st0, callTree, c, ds, k);
        ghost var sofar := EmitCallees(cfg, st0, callTree, c, ds[..k]).1;
        WriteCallee(c, ds[k]);
        RenderContinues(out0, sofar, EmitCallee(cfg, EmitCallees(cfg, st0, callTree, c, ds[..k]).0, callTree, c, ds[k]).1);
      }
      assert ds[..|ds|] == ds;
    }

    /** One kept caller (lines 542-560): its names, `0 1`, its callees in
        the order `ds`, then the separator. */
    method WriteCaller(c: int, ds: seq<int>)
      requires Ready(cfg, Snapshot(), callTree) && c in callTree && c in routines && CalleesOf(callTree, c, ds)
      modifies this
      ensures callTree == old(callTree)
      ensures var (st, lines) := EmitCaller(cfg, old(Snapshot()), callTree, c, ds);
        Snapshot() == st && output == old(output) + Render(lines)
    {
      ghost var st0 := Snapshot();
      ghost var out0 := output;
      WriteNames(c, false);
      ghost var named := Visit(cfg, st0, callTree, c, false).1;
      ghost var st1 := Snapshot();
      LogWrite("0 1");
      CallerHeadWritten(out0, named);
      WriteCallees(c, ds);
      ghost var body := EmitCallees(cfg, st1, callTree, c, ds).1;
      RenderContinues(out0, named + [Cost], body);
      LogWrite("\r\n");
      CallerTailWritten(out0, named + [Cost] + body);
      EmitCallerSteps(cfg, st0, callTree, c, ds, st1, named, Snapshot(), body);
    }

    /** The loop over the callers (lines 535-562), in the order `cs`, each
        with its callees in the order `order` gives; callers that are not
        registered routines are skipped. */
    method WriteGraph(cs: seq<int>, order: map<int, seq<int>>)
      requires Ready(cfg, Snapshot(), callTree) && Covers(callTree, cs, order)
      modifies this
      ensures callTree == old(callTree)
      ensures var (st, lines) := EmitGraph(cfg, old(Snapshot()), callTree, cs, order);
        Snapshot() == st && output == old(output) + Render(lines)
    {
      ghost var st0 := Snapshot();
      ghost var out0 := output;
      assert cs[..0] == [];
      for i := 0 to |cs|
        invariant callTree == old(callTree) && Ready(cfg, st0, callTree)
        invariant Covers(callTree, cs[..i], order)
        invariant Snapshot() == EmitGraph(cfg, st0, callTree, cs[..i], order).0
        invariant output == out0 + Render(EmitGraph(cfg, st0, callTree, cs[..i], order).1)
      {
        EmitGraphStep(cfg, st0, callTree, cs, order, i);
        ghost var sofar := EmitGraph(cfg, st0, callTree, cs[..i], order).1;
        var c := cs[i];
        if c !in routines {
          SkippedCaller(cfg, Snapshot(), callTree, c, order[c]);
          assert sofar + [] == sofar;
          continue;
        }
        WriteCaller(c, order[c]);
        RenderContinues(out0, sofar, EmitCaller(cfg, EmitGraph(cfg, st0, callTree, cs[..i], order).0, callTree, c, order[c]).1);
      }
      assert cs[..|cs|] == cs;
    }

    /** The header and the emission loop (lines 527-562), with the
        dictionaries iterated in the orders `cs` and `order`. */
    method WriteProfile(cs: seq<int>, order: map<int, seq<int>>)
      requires Enumerates(callTree, cs, order) && Ready(cfg, Snapshot(), callTree)
      modifies this
      ensures callTree == old(callTree) && Covers(callTree, cs, order)
      ensures var (st, lines) := Profile(cfg, old(Snapshot()), callTree, cs, order);
        Snapshot() == st && output == old(output) + Render(lines)
    {
      EnumeratesCovers(callTree, cs, order);
      ghost var out0 := output;
      LogWrite("#");
      LogWrite("# Generated by Code Coverage Analysis Tool for PIN");
      LogWrite("#\r\n");
      LogWrite("events: Ir\r\n");
      HeaderWritten(out0);
      WriteGraph(cs, order);
      RenderContinues(out0, Header, EmitGraph(cfg, old(Snapshot()), callTree, cs, order).1);
      ProfileSteps(cfg, old(Snapshot()), callTree, cs, order);
    }
  }
}
