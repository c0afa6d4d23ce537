/** The profile emitter (the emission loop of the main block): for each
    caller of the call graph that is a registered routine, an `ob=`/`fn=`
    block naming it, one `cob=`/`cfn=`/`calls=` group per callee, and a
    separator; names are loaded lazily per module and printed in full only
    on first use. The loop itself is a method of the class in module
    Converter; the functions below are its specification. */
module Emitter {
  import opened Text
  import opened Registry
  import opened Loader
  import opened Resolver
  import opened CallGraph

  /** One `log_write` of the profile. Object and function lines carry the
      module key or routine address they refer to; the written text does
      not show it. */
  datatype Line =
    | Banner(text: string)
    | Object(callee: bool, key: string, alias: nat, name: string)
    | Function(callee: bool, rtn: int, alias: nat, name: string)
    | CallCount(count: nat)
    | Cost
    | Separator

  /** The text handed to `log_write`. */
  function LineText(line: Line): string
  {
    match line
    case Banner(text) => text
    case Object(callee, _, alias, name) => (if callee then "cob=(" else "ob=(") + DecString(alias) + ") " + name
    case Function(callee, _, alias, name) => (if callee then "cfn=(" else "fn=(") + DecString(alias) + ") " + name
    case CallCount(count) => "calls=" + DecString(count) + " 0"
    case Cost => "0 1"
    case Separator => "\r\n"
  }

  /** `log_write(text)` writes the text followed by CRLF. */
  function Written(text: string): string
  {
    text + "\r\n"
  }

  /** The output the lines produce, one write each. */
  function Render(lines: seq<Line>): (out: seq<string>)
    ensures |out| == |lines|
  {
    if lines == [] then [] else Render(lines[..|lines| - 1]) + [Written(LineText(lines[|lines| - 1]))]
  }

  /** Rendering is line by line: the k-th write is the k-th line's text
      followed by CRLF. */
  lemma {:induction false} RenderAt(lines: seq<Line>, k: nat)
    requires k < |lines|
    ensures Render(lines)[k] == LineText(lines[k]) + "\r\n"
  {
    if k < |lines| - 1 {
      RenderAt(lines[..|lines| - 1], k);
    }
  }

  /** Rendering two runs of lines writes one after the other. */
  lemma {:induction false} RenderAppend(a: seq<Line>, b: seq<Line>)
    ensures Render(a + b) == Render(a) + Render(b)
  {
    if b == [] {
      assert a + b == a;
    } else {
      RenderAppend(a, b[..|b| - 1]);
      assert (a + b)[..|a + b| - 1] == a + b[..|b| - 1];
    }
  }

  /** One line renders as one write. */
  lemma RenderOne(line: Line)
    ensures Render([line]) == [LineText(line) + "\r\n"]
  {
    assert [line][..0] == [];
  }

  /** The header: a three-line comment banner (the last line ending in an
      extra CRLF) and the event declaration followed by a blank line. */
  const Header: seq<Line> := [
    Banner("#"),
    Banner("# Generated by Code Coverage Analysis Tool for PIN"),
    Banner("#\r\n"),
    Banner("events: Ir\r\n")
  ]

  // ---------------------------------------------------------------------------
  // what emission needs of the state

  /** The lookups emission makes cannot fail: every kept caller's callees
      are registered routines (`m_routines_list[rtn_dst]`), and the module
      key of every routine it names is registered
      (`m_modules_list[mod_name]`). */
  ghost predicate Emittable(st: State, g: Graph)
  {
    forall c :: c in g && c in st.routines ==>
      && ModuleKey(st.routines[c]) in st.modules
      && forall d :: d in g[c] ==> d in st.routines && ModuleKey(st.routines[d]) in st.modules
  }

  /** Every module emission loads can be loaded: the module of each
      registered caller and of each of its callees. These are the modules
      whose routines `load_symbols` renames during emission, and no other. */
  ghost predicate Prepared(cfg: Config, st: State, g: Graph)
  {
    forall c :: c in g && c in st.routines ==>
      && KeyLoadable(cfg, st, ModuleKey(st.routines[c]))
      && forall d :: d in g[c] && d in st.routines ==> KeyLoadable(cfg, st, ModuleKey(st.routines[d]))
  }

  /** Emission can run: its lookups succeed and every name it has to
      resolve can be read. */
  ghost predicate Ready(cfg: Config, st: State, g: Graph)
  {
    Emittable(st, g) && Prepared(cfg, st, g)
  }

  /** The callers `cs` are callers of the graph, each with its callee order
      `order[c]` listing callees of `c`. */
  ghost predicate Covers(g: Graph, cs: seq<int>, order: map<int, seq<int>>)
  {
    forall i :: 0 <= i < |cs| ==> cs[i] in g && cs[i] in order && CalleesOf(g, cs[i], order[cs[i]])
  }

  /** The order in which the dictionaries are iterated: `cs` lists every
      caller of the graph once, and `order[c]` every callee of `c` once. */
  ghost predicate Enumerates(g: Graph, cs: seq<int>, order: map<int, seq<int>>)
  {
    && (forall i, j :: 0 <= i < j < |cs| ==> cs[i] != cs[j])
    && (forall c :: c in g <==> c in cs)
    && (forall c :: c in g ==> c in order && forall d :: d in g[c] <==> d in order[c])
    && (forall c :: c in g ==> forall i, j :: 0 <= i < j < |order[c]| ==> order[c][i] != order[c][j])
  }

  /** An iteration order lists only callers and callees of the graph. */
  lemma EnumeratesCovers(g: Graph, cs: seq<int>, order: map<int, seq<int>>)
    requires Enumerates(g, cs, order)
    ensures Covers(g, cs, order)
  {
    forall i | 0 <= i < |cs| ensures cs[i] in g && cs[i] in order && CalleesOf(g, cs[i], order[cs[i]]) {
      var c := cs[i];
      assert c in cs;
      assert c in g && c in order;
      var ds := order[c];
      forall k | 0 <= k < |ds| ensures ds[k] in g[c] {
        assert ds[k] in ds;
      }
    }
  }

  /** Every listed callee is a callee of `c`. */
  ghost predicate CalleesOf(g: Graph, c: int, ds: seq<int>)
    requires c in g
  {
    forall k :: 0 <= k < |ds| ==> ds[k] in g[c]
  }

  /** A callee of a registered caller is a registered routine of a
      registered module. */
  lemma CalleeKnown(st: State, g: Graph, c: int, d: int)
    requires Emittable(st, g) && c in g && c in st.routines && d in g[c]
    ensures d in st.routines && ModuleKey(st.routines[d]) in st.modules
  {
  }

  /** Steps that only evolve the state keep emission able to run, as long
      as no name of a not-yet-loaded module changed. */
  lemma EvolvesEmittable(st: State, st': State, g: Graph)
    requires Emittable(st, g) && Evolves(st, st')
    ensures Emittable(st', g)
  {
  }

  /** A step that keeps every name and every loaded flag keeps the
      modules emission loads loadable. */
  lemma SameNamesPrepared(cfg: Config, st: State, st': State, g: Graph)
    requires Prepared(cfg, st, g) && Evolves(st, st')
    requires forall key :: key in st.modules ==> st'.modules[key].symbolsLoaded == st.modules[key].symbolsLoaded
    requires forall a :: a in st.routines ==> st'.routines[a].name == st.routines[a].name
    ensures Prepared(cfg, st', g)
  {
    forall key | KeyLoadable(cfg, st, key) ensures KeyLoadable(cfg, st', key) {
      forall a | a in st'.routines && ModuleKey(st'.routines[a]) == key ensures ModuleKey(st.routines[a]) == key {
      }
    }
  }

  /** The accessors leave names and loaded flags alone. */
  lemma InfoKeepsReady(cfg: Config, st: State, g: Graph, rtn: int)
    requires Ready(cfg, st, g) && rtn in st.routines && ModuleKey(st.routines[rtn]) in st.modules
    ensures Ready(cfg, ModuleInfo(st, rtn).0, g)
    ensures Ready(cfg, RoutineInfo(st, rtn).0, g)
  {
    EvolvesEmittable(st, ModuleInfo(st, rtn).0, g);
    SameNamesPrepared(cfg, st, ModuleInfo(st, rtn).0, g);
    EvolvesEmittable(st, RoutineInfo(st, rtn).0, g);
    SameNamesPrepared(cfg, st, RoutineInfo(st, rtn).0, g);
  }

  /** `load_symbols` keeps every other module loadable, and the module it
      loads needs nothing more. */
  lemma LoadKeepsLoadable(cfg: Config, st: State, name: string, key: string)
    requires Loadable(cfg, st, name) && KeyLoadable(cfg, st, key)
    ensures KeyLoadable(cfg, LoadSymbols(cfg, st, name), key)
  {
    var st' := LoadSymbols(cfg, st, name);
    if st' != st && key != Lower(name) {
      forall a | a in st'.routines && ModuleKey(st'.routines[a]) == key ensures st'.routines[a] == st.routines[a] {
        assert ModuleKey(st.routines[a]) == key;
      }
    }
  }

  /** `load_symbols` of a module that can be loaded keeps emission able to
      run. */
  lemma LoadKeepsReady(cfg: Config, st: State, g: Graph, name: string)
    requires Ready(cfg, st, g) && Loadable(cfg, st, name)
    ensures Ready(cfg, LoadSymbols(cfg, st, name), g)
    ensures Evolves(st, LoadSymbols(cfg, st, name))
  {
    var st' := LoadSymbols(cfg, st, name);
    LoadSymbolsEvolves(cfg, st, name);
    EvolvesEmittable(st, st', g);
    forall c | c in g && c in st'.routines
      ensures KeyLoadable(cfg, st', ModuleKey(st'.routines[c]))
      ensures forall d :: d in g[c] && d in st'.routines ==> KeyLoadable(cfg, st', ModuleKey(st'.routines[d]))
    {
      LoadKeepsLoadable(cfg, st, name, ModuleKey(st.routines[c]));
      forall d | d in g[c] && d in st'.routines ensures KeyLoadable(cfg, st', ModuleKey(st'.routines[d])) {
        LoadKeepsLoadable(cfg, st, name, ModuleKey(st.routines[d]));
      }
    }
  }

  /** A routine's name is final once its module is loaded, or from the
      start under `--skip-symbols`. */
  ghost predicate Settled(cfg: Config, st: State, a: int)
    requires a in st.routines
  {
    cfg.skipSymbols || Loaded(st, ModuleKey(st.routines[a]))
  }

  /** A step of emission: the state evolves and no settled name changes. */
  ghost predicate Progresses(cfg: Config, st: State, st': State)
  {
    && Evolves(st, st')
    && forall a :: a in st.routines && Settled(cfg, st, a) ==> st'.routines[a].name == st.routines[a].name
  }

  /** Steps of emission compose. */
  lemma ProgressesTrans(cfg: Config, s1: State, s2: State, s3: State)
    requires Progresses(cfg, s1, s2) && Progresses(cfg, s2, s3)
    ensures Progresses(cfg, s1, s3)
  {
    forall a | a in s1.routines && Settled(cfg, s1, a) ensures Settled(cfg, s2, a) {
    }
  }

  /** `load_symbols` is a step of emission. */
  lemma LoadProgresses(cfg: Config, st: State, name: string)
    requires Loadable(cfg, st, name)
    ensures Progresses(cfg, st, LoadSymbols(cfg, st, name))
  {
    LoadSymbolsEvolves(cfg, st, name);
    forall a | a in st.routines && Settled(cfg, st, a)
      ensures LoadSymbols(cfg, st, name).routines[a].name == st.routines[a].name
    {
      if !cfg.skipSymbols {
        LoadedNamesStay(cfg, st, name, a);
      }
    }
  }

  // ---------------------------------------------------------------------------
  // the emission loop

  /** One named routine (lines 542-545 for a caller, 551-554 for a callee):
      its module's symbols are loaded, then the `ob=`/`cob=` line names its
      module and the `fn=`/`cfn=` line the routine. Afterwards the
      routine's name is final. */
  function Visit(cfg: Config, st: State, g: Graph, rtn: int, callee: bool): (result: (State, seq<Line>))
    requires Ready(cfg, st, g) && rtn in st.routines && ModuleKey(st.routines[rtn]) in st.modules
    requires Loadable(cfg, st, st.routines[rtn].moduleName)
    ensures Ready(cfg, result.0, g) && Progresses(cfg, st, result.0)
    ensures rtn in result.0.routines && Settled(cfg, result.0, rtn)
    ensures |result.1| == 2
  {
    var key := ModuleKey(st.routines[rtn]);
    LoadKeepsReady(cfg, st, g, st.routines[rtn].moduleName);
    LoadProgresses(cfg, st, st.routines[rtn].moduleName);
    LoadSymbolsEffect(cfg, st, st.routines[rtn].moduleName);
    var s1 := LoadSymbols(cfg, st, st.routines[rtn].moduleName);
    InfoKeepsReady(cfg, s1, g, rtn);
    var (s2, ob) := ModuleInfo(s1, rtn);
    InfoKeepsReady(cfg, s2, g, rtn);
    var (s3, fn) := RoutineInfo(s2, rtn);
    ProgressesTrans(cfg, st, s1, s2);
    ProgressesTrans(cfg, st, s2, s3);
    (s3, [Object(callee, key, ob.alias, ob.name), Function(callee, rtn, fn.alias, fn.name)])
  }

  /** One callee of the caller `c`: `cob=`, `cfn=`, `calls=<count> 0`, `0 1`. */
  function EmitCallee(cfg: Config, st: State, g: Graph, c: int, d: int): (result: (State, seq<Line>))
    requires Ready(cfg, st, g) && c in g && c in st.routines && d in g[c]
    ensures Ready(cfg, result.0, g) && Progresses(cfg, st, result.0)
    ensures |result.1| == 4
  {
    var (s, named) := Visit(cfg, st, g, d, true);
    (s, named + [CallCount(g[c][d]), Cost])
  }

  /** The callees `ds` of the caller `c`, in that order. */
  function EmitCallees(cfg: Config, st: State, g: Graph, c: int, ds: seq<int>): (result: (State, seq<Line>))
    requires Ready(cfg, st, g) && c in g && c in st.routines && CalleesOf(g, c, ds)
    ensures Ready(cfg, result.0, g) && Progresses(cfg, st, result.0)
    ensures |result.1| == 4 * |ds|
  {
    if ds == [] then (st, [])
    else
      var (s1, before) := EmitCallees(cfg, st, g, c, ds[..|ds| - 1]);
      var (s2, last) := EmitCallee(cfg, s1, g, c, ds[|ds| - 1]);
      ProgressesTrans(cfg, st, s1, s2);
      (s2, before + last)
  }

  /** One caller: nothing when it is not a registered routine; otherwise
      `ob=`, `fn=`, `0 1`, its callees, and a separator. */
  function EmitCaller(cfg: Config, st: State, g: Graph, c: int, ds: seq<int>): (result: (State, seq<Line>))
    requires Ready(cfg, st, g) && c in g && CalleesOf(g, c, ds)
    ensures Ready(cfg, result.0, g) && Progresses(cfg, st, result.0)
  {
    if c !in st.routines then (st, [])
    else
      var (s1, named) := Visit(cfg, st, g, c, false);
      var (s2, body) := EmitCallees(cfg, s1, g, c, ds);
      ProgressesTrans(cfg, st, s1, s2);
      (s2, named + [Cost] + body + [Separator])
  }

  /** The callers `cs`, in that order, each with its callees in the order
      `order` gives. */
  function EmitGraph(cfg: Config, st: State, g: Graph, cs: seq<int>, order: map<int, seq<int>>): (result: (State, seq<Line>))
    requires Ready(cfg, st, g) && Covers(g, cs, order)
    ensures Ready(cfg, result.0, g) && Progresses(cfg, st, result.0)
  {
    if cs == [] then (st, [])
    else
      var c := cs[|cs| - 1];
      var (s1, before) := EmitGraph(cfg, st, g, cs[..|cs| - 1], order);
      var (s2, block) := EmitCaller(cfg, s1, g, c, order[c]);
      ProgressesTrans(cfg, st, s1, s2);
      (s2, before + block)
  }

  /** The whole profile: the header, then the graph. */
  function Profile(cfg: Config, st: State, g: Graph, cs: seq<int>, order: map<int, seq<int>>): (result: (State, seq<Line>))
    requires Ready(cfg, st, g) && Covers(g, cs, order)
    ensures Ready(cfg, result.0, g) && Progresses(cfg, st, result.0)
    ensures |result.1| >= |Header| && result.1[..|Header|] == Header
  {
    var (s, body) := EmitGraph(cfg, st, g, cs, order);
    assert (Header + body)[..|Header|] == Header;
    (s, Header + body)
  }
}
