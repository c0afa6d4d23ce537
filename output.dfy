/** What the emitted lines promise: each module and routine is named in
    full at most once and with its final name, every registered caller
    gets one block of the expected shape with the aggregated call counts,
    and unregistered callers get none. */
module Output {
  import opened Text
  import opened Registry
  import opened Loader
  import opened Resolver
  import opened CallGraph
  import opened Emitter

  // ---------------------------------------------------------------------------
  // names are printed once, and printed final

  /** A line that names a module or a routine. */
  predicate Named(line: Line)
  {
    line.Object? || line.Function?
  }

  /** The module or routine the line names has already been emitted in
      this state. */
  predicate Marked(st: State, line: Line)
  {
    match line
    case Object(_, key, _, _) => key in st.modules && st.modules[key].aliasAccessed
    case Function(_, rtn, _, _) => rtn in st.routines && st.routines[rtn].aliasAccessed
    case _ => false
  }

  /** Two lines name the same module, or the same routine. */
  predicate SameEntity(l1: Line, l2: Line)
  {
    || (l1.Object? && l2.Object? && l1.key == l2.key)
    || (l1.Function? && l2.Function? && l1.rtn == l2.rtn)
  }

  /** A printed name is the right one: a module token whose lower-case form
      is the module's key, or the routine's name as it stands in the state. */
  predicate Shows(st: State, line: Line)
  {
    match line
    case Object(_, key, _, name) => Lower(name) == key
    case Function(_, rtn, _, name) => rtn in st.routines && name == st.routines[rtn].name
    case _ => true
  }

  /** The alias a line carries is the one registered for its module or
      its routine. */
  predicate Carries(st: State, line: Line)
  {
    match line
    case Object(_, key, alias, _) => key in st.modules && alias == st.modules[key].alias
    case Function(_, rtn, alias, _) => rtn in st.routines && alias == st.routines[rtn].alias
    case _ => true
  }

  /** No line before line `j` names what line `j` names. */
  predicate FirstAt(lines: seq<Line>, j: int)
    requires 0 <= j < |lines|
  {
    forall i :: 0 <= i < j ==> !SameEntity(lines[i], lines[j])
  }

  /** No line names the module `key`. */
  predicate ModuleUnnamed(lines: seq<Line>, key: string)
  {
    forall i :: 0 <= i < |lines| ==> !(lines[i].Object? && lines[i].key == key)
  }

  /** No line names the routine at `rtn`. */
  predicate RoutineUnnamed(lines: seq<Line>, rtn: int)
  {
    forall i :: 0 <= i < |lines| ==> !(lines[i].Function? && lines[i].rtn == rtn)
  }

  /** Only what the lines name becomes emitted between `st` and `st'`. */
  ghost predicate MarksOnlyNamed(st: State, lines: seq<Line>, st': State)
  {
    && (forall key :: key in st.modules && !st.modules[key].aliasAccessed && ModuleUnnamed(lines, key) ==>
          key in st'.modules && !st'.modules[key].aliasAccessed)
    && (forall a :: a in st.routines && !st.routines[a].aliasAccessed && RoutineUnnamed(lines, a) ==>
          a in st'.routines && !st'.routines[a].aliasAccessed)
  }

  /** Every line carries the alias of the module or routine it names,
      which is emitted in `st'`, with every routine's name final there; a
      name that is printed is the right one in `st'`. */
  ghost predicate NamesFinal(cfg: Config, lines: seq<Line>, st': State)
  {
    forall i :: 0 <= i < |lines| && Named(lines[i]) ==>
      && Marked(st', lines[i]) && Carries(st', lines[i])
      && (lines[i].Function? ==> lines[i].rtn in st'.routines && Settled(cfg, st', lines[i].rtn))
      && (lines[i].name != "" ==> Shows(st', lines[i]))
  }

  /** A line prints `""` for what was emitted before `st` or is named by an
      earlier line. */
  ghost predicate NamesBlank(st: State, lines: seq<Line>)
  {
    && (forall j :: 0 <= j < |lines| && Named(lines[j]) && Marked(st, lines[j]) ==> lines[j].name == "")
    && (forall i, j :: 0 <= i < j < |lines| && SameEntity(lines[i], lines[j]) ==> lines[j].name == "")
  }

  /** The first line for what was not emitted before `st` prints its name,
      and the right one in `st'`. */
  ghost predicate FirstShown(st: State, lines: seq<Line>, st': State)
  {
    forall j :: 0 <= j < |lines| && Named(lines[j]) && !Marked(st, lines[j]) && FirstAt(lines, j) ==>
      Shows(st', lines[j])
  }

  /** What the lines emitted between `st` and `st'` promise about names:
      every line carries the alias of the module or routine it names, which
      ends up emitted, with every routine's name final; the first line for
      a module or routine not emitted before prints its name, and the right
      one in the final state; every other line for it prints `""`; and only
      what the lines name becomes emitted. */
  ghost predicate NamesOnce(cfg: Config, st: State, lines: seq<Line>, st': State)
  {
    NamesFinal(cfg, lines, st') && NamesBlank(st, lines) && FirstShown(st, lines, st') && MarksOnlyNamed(st, lines, st')
  }

  /** A step keeps lines emitted, aliased and right. */
  lemma {:induction false} NamesOnceKept(cfg: Config, lines: seq<Line>, st1: State, st2: State)
    requires NamesFinal(cfg, lines, st1) && Progresses(cfg, st1, st2)
    ensures NamesFinal(cfg, lines, st2)
    ensures forall i :: 0 <= i < |lines| && Named(lines[i]) && Shows(st1, lines[i]) ==> Shows(st2, lines[i])
  {
    forall i | 0 <= i < |lines| && Named(lines[i])
      ensures Marked(st2, lines[i]) && Carries(st2, lines[i])
      ensures lines[i].Function? ==> lines[i].rtn in st2.routines && Settled(cfg, st2, lines[i].rtn)
      ensures Shows(st1, lines[i]) ==> Shows(st2, lines[i])
    {
      if lines[i].Function? {
        var rtn := lines[i].rtn;
        assert st2.routines[rtn].name == st1.routines[rtn].name;
        assert ModuleKey(st2.routines[rtn]) == ModuleKey(st1.routines[rtn]);
      }
    }
  }

  /** Lines final in a state, followed by lines final in it. */
  lemma NamesFinalAppend(cfg: Config, a: seq<Line>, b: seq<Line>, st': State)
    requires NamesFinal(cfg, a, st') && NamesFinal(cfg, b, st')
    ensures NamesFinal(cfg, a + b, st')
  {
    var ab := a + b;
    assert forall i :: 0 <= i < |a| ==> ab[i] == a[i];
    assert forall i :: |a| <= i < |ab| ==> ab[i] == b[i - |a|];
  }

  /** Blank names compose, since the first lines leave what they name
      emitted. */
  lemma NamesBlankAppend(cfg: Config, st: State, a: seq<Line>, st1: State, b: seq<Line>)
    requires NamesBlank(st, a) && NamesFinal(cfg, a, st1) && Evolves(st, st1) && NamesBlank(st1, b)
    ensures NamesBlank(st, a + b)
  {
    var ab := a + b;
    forall j | 0 <= j < |ab| && Named(ab[j]) && Marked(st, ab[j]) ensures ab[j].name == "" {
      if j >= |a| {
        assert ab[j] == b[j - |a|];
        assert Marked(st1, b[j - |a|]);
      }
    }
    forall i, j | 0 <= i < j < |ab| && SameEntity(ab[i], ab[j]) ensures ab[j].name == "" {
      if j >= |a| {
        assert ab[j] == b[j - |a|];
        if i < |a| {
          assert Marked(st1, ab[i]);
          assert Marked(st1, b[j - |a|]);
        } else {
          assert ab[i] == b[i - |a|];
        }
      }
    }
  }

  /** What the first lines do not name is not emitted by them. */
  lemma UnnamedBefore(st: State, a: seq<Line>, st1: State, line: Line)
    requires MarksOnlyNamed(st, a, st1) && Evolves(st, st1) && Named(line) && !Marked(st, line)
    requires forall i :: 0 <= i < |a| ==> !SameEntity(a[i], line)
    ensures !Marked(st1, line)
  {
    match line {
      case Object(_, key, _, _) =>
        assert ModuleUnnamed(a, key);
      case Function(_, rtn, _, _) =>
        assert RoutineUnnamed(a, rtn);
    }
  }

  /** A first line among all lines is a first line among its own run. */
  lemma FirstAtSplit(a: seq<Line>, b: seq<Line>, j: nat)
    requires j < |a + b| && FirstAt(a + b, j)
    ensures j < |a| ==> FirstAt(a, j)
    ensures j >= |a| ==> FirstAt(b, j - |a|) && forall i :: 0 <= i < |a| ==> !SameEntity(a[i], b[j - |a|])
  {
    var ab := a + b;
    if j < |a| {
      forall i | 0 <= i < j ensures !SameEntity(a[i], a[j]) {
        assert ab[i] == a[i];
      }
    } else {
      var k := j - |a|;
      assert ab[j] == b[k];
      forall i | 0 <= i < |a| ensures !SameEntity(a[i], b[k]) {
        assert ab[i] == a[i];
      }
      forall i | 0 <= i < k ensures !SameEntity(b[i], b[k]) {
        assert ab[|a| + i] == b[i];
      }
    }
  }

  /** First names shown compose. */
  lemma FirstShownAppend(st: State, a: seq<Line>, st1: State, b: seq<Line>, st2: State)
    requires FirstShown(st, a, st1) && MarksOnlyNamed(st, a, st1) && Evolves(st, st1)
    requires forall i :: 0 <= i < |a| && Named(a[i]) && Shows(st1, a[i]) ==> Shows(st2, a[i])
    requires FirstShown(st1, b, st2)
    ensures FirstShown(st, a + b, st2)
  {
    var ab := a + b;
    forall j | 0 <= j < |ab| && Named(ab[j]) && !Marked(st, ab[j]) && FirstAt(ab, j) ensures Shows(st2, ab[j]) {
      FirstAtSplit(a, b, j);
      if j < |a| {
        assert ab[j] == a[j];
      } else {
        assert ab[j] == b[j - |a|];
        UnnamedBefore(st, a, st1, b[j - |a|]);
      }
    }
  }

  /** Names-once composes: lines emitted after lines keep the promise. */
  lemma NamesOnceAppend(cfg: Config, st: State, a: seq<Line>, st1: State, b: seq<Line>, st2: State)
    requires NamesOnce(cfg, st, a, st1) && Progresses(cfg, st, st1)
    requires NamesOnce(cfg, st1, b, st2) && Progresses(cfg, st1, st2)
    ensures NamesOnce(cfg, st, a + b, st2)
  {
    NamesOnceKept(cfg, a, st1, st2);
    NamesFinalAppend(cfg, a, b, st2);
    NamesBlankAppend(cfg, st, a, st1, b);
    FirstShownAppend(st, a, st1, b, st2);
    MarksOnlyNamedAppend(st, a, st1, b, st2);
  }

  /** Only-what-is-named composes. */
  lemma MarksOnlyNamedAppend(st: State, a: seq<Line>, st1: State, b: seq<Line>, st2: State)
    requires MarksOnlyNamed(st, a, st1) && MarksOnlyNamed(st1, b, st2)
    ensures MarksOnlyNamed(st, a + b, st2)
  {
    var ab := a + b;
    forall key | ModuleUnnamed(ab, key) ensures ModuleUnnamed(a, key) && ModuleUnnamed(b, key) {
      forall i | 0 <= i < |a| ensures !(a[i].Object? && a[i].key == key) {
        assert ab[i] == a[i];
      }
      forall i | 0 <= i < |b| ensures !(b[i].Object? && b[i].key == key) {
        assert ab[|a| + i] == b[i];
      }
    }
    forall rtn | RoutineUnnamed(ab, rtn) ensures RoutineUnnamed(a, rtn) && RoutineUnnamed(b, rtn) {
      forall i | 0 <= i < |a| ensures !(a[i].Function? && a[i].rtn == rtn) {
        assert ab[i] == a[i];
      }
      forall i | 0 <= i < |b| ensures !(b[i].Function? && b[i].rtn == rtn) {
        assert ab[|a| + i] == b[i];
      }
    }
  }

  /** Lines that name nothing can follow without breaking the promise. */
  lemma UnnamedTail(cfg: Config, st: State, lines: seq<Line>, st': State, extra: seq<Line>)
    requires NamesOnce(cfg, st, lines, st')
    requires forall i :: 0 <= i < |extra| ==> !Named(extra[i])
    ensures NamesOnce(cfg, st, lines + extra, st')
  {
    var all := lines + extra;
    assert forall i :: |lines| <= i < |all| ==> all[i] == extra[i - |lines|];
    assert forall i :: 0 <= i < |lines| ==> all[i] == lines[i];
    forall j | 0 <= j < |lines| && FirstAt(all, j) ensures FirstAt(lines, j) {
      forall i | 0 <= i < j ensures !SameEntity(lines[i], lines[j]) {
        assert all[i] == lines[i];
      }
    }
  }

  /** A module line followed by a routine line keep the promise when each
      does on its own and the step emits only those two. */
  lemma PairNamesOnce(cfg: Config, st: State, ob: Line, fn: Line, st': State)
    requires ob.Object? && fn.Function?
    requires Marked(st', ob) && Carries(st', ob) && (ob.name != "" ==> Shows(st', ob))
    requires Marked(st, ob) ==> ob.name == ""
    requires !Marked(st, ob) ==> Shows(st', ob)
    requires Marked(st', fn) && Carries(st', fn) && fn.rtn in st'.routines && Settled(cfg, st', fn.rtn)
    requires (fn.name != "" ==> Shows(st', fn)) && (Marked(st, fn) ==> fn.name == "")
    requires !Marked(st, fn) ==> Shows(st', fn)
    requires forall key :: key in st.modules && !st.modules[key].aliasAccessed && key != ob.key ==>
               key in st'.modules && !st'.modules[key].aliasAccessed
    requires forall a :: a in st.routines && !st.routines[a].aliasAccessed && a != fn.rtn ==>
               a in st'.routines && !st'.routines[a].aliasAccessed
    ensures NamesOnce(cfg, st, [ob, fn], st')
  {
    var lines := [ob, fn];
    forall key | ModuleUnnamed(lines, key) ensures key != ob.key {
      assert lines[0] == ob;
    }
    forall rtn | RoutineUnnamed(lines, rtn) ensures rtn != fn.rtn {
      assert lines[1] == fn;
    }
  }

  /** One routine's `ob=`/`fn=` pair keeps the promise. */
  lemma VisitNamesOnce(cfg: Config, st: State, g: Graph, rtn: int, callee: bool)
    requires Ready(cfg, st, g) && rtn in st.routines && ModuleKey(st.routines[rtn]) in st.modules
    requires Loadable(cfg, st, st.routines[rtn].moduleName)
    ensures var (st', lines) := Visit(cfg, st, g, rtn, callee);
      NamesOnce(cfg, st, lines, st')
  {
    var key := ModuleKey(st.routines[rtn]);
    var name := st.routines[rtn].moduleName;
    LoadKeepsReady(cfg, st, g, name);
    var s1 := LoadSymbols(cfg, st, name);
    var (s2, ob) := ModuleInfo(s1, rtn);
    var (s3, fn) := RoutineInfo(s2, rtn);
    var o := Object(callee, key, ob.alias, ob.name);
    var f := Function(callee, rtn, fn.alias, fn.name);
    assert Visit(cfg, st, g, rtn, callee) == (s3, [o, f]);
    assert s1.routines[rtn].moduleName == name;
    assert Marked(st, o) <==> Marked(s1, o);
    assert Marked(st, f) <==> Marked(s2, f);
    assert s3.modules == s2.modules;
    PairNamesOnce(cfg, st, o, f, s3);
  }

  /** One callee group keeps the promise. */
  lemma EmitCalleeNamesOnce(cfg: Config, st: State, g: Graph, c: int, d: int)
    requires Ready(cfg, st, g) && c in g && c in st.routines && d in g[c]
    ensures var (st', lines) := EmitCallee(cfg, st, g, c, d);
      NamesOnce(cfg, st, lines, st')
  {
    var (s, named) := Visit(cfg, st, g, d, true);
    VisitNamesOnce(cfg, st, g, d, true);
    UnnamedTail(cfg, st, named, s, [CallCount(g[c][d]), Cost]);
  }

  /** All callee groups of a caller keep the promise. */
  lemma {:induction false} EmitCalleesNamesOnce(cfg: Config, st: State, g: Graph, c: int, ds: seq<int>)
    requires Ready(cfg, st, g) && c in g && c in st.routines && CalleesOf(g, c, ds)
    ensures var (st', lines) := EmitCallees(cfg, st, g, c, ds);
      NamesOnce(cfg, st, lines, st')
  {
    if ds != [] {
      var r := EmitCallees(cfg, st, g, c, ds[..|ds| - 1]);
      EmitCalleesNamesOnce(cfg, st, g, c, ds[..|ds| - 1]);
      var last := EmitCallee(cfg, r.0, g, c, ds[|ds| - 1]);
      assert EmitCallees(cfg, st, g, c, ds) == (last.0, r.1 + last.1);
      EmitCalleeNamesOnce(cfg, r.0, g, c, ds[|ds| - 1]);
      NamesOnceAppend(cfg, st, r.1, r.0, last.1, last.0);
    }
  }

  /** The head of a caller block, `ob=`, `fn=`, `0 1`, keeps the promise. */
  lemma CallerHeadNamesOnce(cfg: Config, st: State, g: Graph, c: int)
    requires Ready(cfg, st, g) && c in g && c in st.routines && ModuleKey(st.routines[c]) in st.modules
    ensures var (st', named) := Visit(cfg, st, g, c, false);
      NamesOnce(cfg, st, named + [Cost], st')
  {
    var (s1, named) := Visit(cfg, st, g, c, false);
    VisitNamesOnce(cfg, st, g, c, false);
    UnnamedTail(cfg, st, named, s1, [Cost]);
  }

  /** A caller block keeps the promise. */
  lemma EmitCallerNamesOnce(cfg: Config, st: State, g: Graph, c: int, ds: seq<int>)
    requires Ready(cfg, st, g) && c in g && CalleesOf(g, c, ds)
    ensures var (st', lines) := EmitCaller(cfg, st, g, c, ds);
      NamesOnce(cfg, st, lines, st')
  {
    if c in st.routines {
      var (s1, named) := Visit(cfg, st, g, c, false);
      CallerHeadNamesOnce(cfg, st, g, c);
      var (s2, body) := EmitCallees(cfg, s1, g, c, ds);
      EmitCalleesNamesOnce(cfg, s1, g, c, ds);
      NamesOnceAppend(cfg, st, named + [Cost], s1, body, s2);
      UnnamedTail(cfg, st, named + [Cost] + body, s2, [Separator]);
    }
  }

  /** The whole emission keeps the promise: each module and each routine
      is printed with its name at most once, at its first appearance, with
      a routine's name as final as the state leaves it; every later line
      for it carries only the alias. */
  lemma {:induction false} EmitGraphNamesOnce(cfg: Config, st: State, g: Graph, cs: seq<int>, order: map<int, seq<int>>)
    requires Ready(cfg, st, g) && Covers(g, cs, order)
    ensures var (st', lines) := EmitGraph(cfg, st, g, cs, order);
      NamesOnce(cfg, st, lines, st')
  {
    if cs != [] {
      var c := cs[|cs| - 1];
      var (s1, before) := EmitGraph(cfg, st, g, cs[..|cs| - 1], order);
      EmitGraphNamesOnce(cfg, st, g, cs[..|cs| - 1], order);
      var (s2, block) := EmitCaller(cfg, s1, g, c, order[c]);
      EmitCallerNamesOnce(cfg, s1, g, c, order[c]);
      NamesOnceAppend(cfg, st, before, s1, block, s2);
    }
  }

  /** Nothing has been emitted yet. */
  ghost predicate Fresh(st: State)
  {
    && (forall key :: key in st.modules ==> !st.modules[key].aliasAccessed)
    && (forall a :: a in st.routines ==> !st.routines[a].aliasAccessed)
  }

  /** Reading the module and routine lists into empty registries, as the
      script does, leaves nothing emitted. */
  lemma ReadingLeavesFresh(moduleLines: seq<string>, routineLines: seq<string>)
    requires forall i :: 0 <= i < |routineLines| ==> RoutineLineOk(routineLines[i])
    ensures Fresh(State(ReadModules(map[], moduleLines), ReadRoutines(map[], routineLines)))
  {
    RegisterAll(map[][UnknownName := UnknownModule], ModuleEntries(moduleLines), NewModule, (m: Module) => !m.aliasAccessed);
    RegisterAll(map[], RoutineEntries(routineLines), NewRoutine, (r: Routine) => !r.aliasAccessed);
  }

  /** The names-once protocol read off the lines alone: every line carries
      the alias registered for what it names, a routine's name is final in
      `st'`, the first line for each module and routine prints its name,
      the right one, and every later line for it prints `""`. */
  ghost predicate ExactlyOnce(cfg: Config, lines: seq<Line>, st': State)
  {
    forall j :: 0 <= j < |lines| && Named(lines[j]) ==>
      && Carries(st', lines[j])
      && (lines[j].Function? ==> lines[j].rtn in st'.routines && Settled(cfg, st', lines[j].rtn))
      && (FirstAt(lines, j) ==> Shows(st', lines[j]))
      && (!FirstAt(lines, j) ==> lines[j].name == "")
  }

  /** From a state where nothing was emitted, names-once is exactly-once. */
  lemma FreshNamesOnce(cfg: Config, st: State, lines: seq<Line>, st': State)
    requires NamesOnce(cfg, st, lines, st') && Fresh(st)
    ensures ExactlyOnce(cfg, lines, st')
  {
    forall j | 0 <= j < |lines| && Named(lines[j]) && !FirstAt(lines, j) ensures lines[j].name == "" {
      var i :| 0 <= i < j && SameEntity(lines[i], lines[j]);
    }
  }

  /** Lines that name nothing, put in front, keep exactly-once. */
  lemma ExactlyOnceAfter(cfg: Config, h: seq<Line>, body: seq<Line>, st': State)
    requires forall i :: 0 <= i < |h| ==> !Named(h[i])
    requires ExactlyOnce(cfg, body, st')
    ensures ExactlyOnce(cfg, h + body, st')
  {
    var all := h + body;
    forall j | 0 <= j < |all| && Named(all[j])
      ensures FirstAt(all, j) <==> FirstAt(body, j - |h|)
      ensures all[j] == body[j - |h|]
    {
      assert j >= |h| by {
        if j < |h| {
          assert false;
        }
      }
      var k := j - |h|;
      assert all[j] == body[k];
      if FirstAt(all, j) {
        forall i | 0 <= i < k ensures !SameEntity(body[i], body[k]) {
          assert all[|h| + i] == body[i];
        }
      } else {
        var i :| 0 <= i < j && SameEntity(all[i], all[j]);
        if i < |h| {
          assert false;
        }
        assert all[i] == body[i - |h|];
      }
    }
  }

  /** The profile written from a state where nothing was emitted names each
      module and each routine in full exactly on the first line that refers
      to it, with a routine's final name, and by alias alone (an empty name)
      on every later line. */
  lemma ProfileNamesOnce(cfg: Config, st: State, g: Graph, cs: seq<int>, order: map<int, seq<int>>)
    requires Ready(cfg, st, g) && Covers(g, cs, order) && Fresh(st)
    ensures var (st', lines) := Profile(cfg, st, g, cs, order);
      ExactlyOnce(cfg, lines, st')
  {
    var (s, body) := EmitGraph(cfg, st, g, cs, order);
    EmitGraphNamesOnce(cfg, st, g, cs, order);
    FreshNamesOnce(cfg, st, body, s);
    assert forall i :: 0 <= i < |Header| ==> !Named(Header[i]);
    ExactlyOnceAfter(cfg, Header, body, s);
  }

  // ---------------------------------------------------------------------------
  // the shape of the output

  /** The four lines of one callee `d` of caller `c`, from index `i` on:
      its module, itself, the number of calls aggregated for the pair, and
      the cost line. */
  ghost predicate CalleeGroup(st: State, g: Graph, c: int, d: int, lines: seq<Line>, i: nat)
    requires d in st.routines
  {
    && i + 4 <= |lines|
    && lines[i].Object? && lines[i].callee && lines[i].key == ModuleKey(st.routines[d])
    && lines[i + 1].Function? && lines[i + 1].callee && lines[i + 1].rtn == d
    && lines[i + 2] == CallCount(Calls(g, c, d))
    && lines[i + 3] == Cost
  }

  /** A group stays a group when lines are appended. */
  lemma GroupInLeft(st: State, g: Graph, c: int, d: int, a: seq<Line>, b: seq<Line>, i: nat)
    requires d in st.routines && CalleeGroup(st, g, c, d, a, i)
    ensures CalleeGroup(st, g, c, d, a + b, i)
  {
  }

  /** A group stays a group, shifted, when lines are prepended. */
  lemma GroupInRight(st: State, g: Graph, c: int, d: int, a: seq<Line>, b: seq<Line>, i: nat, j: nat)
    requires d in st.routines && CalleeGroup(st, g, c, d, b, i) && j == |a| + i
    ensures CalleeGroup(st, g, c, d, a + b, j)
  {
  }

  /** A group only depends on the routine's module token, which emission
      never changes. */
  lemma GroupTransfer(st: State, st': State, g: Graph, c: int, d: int, lines: seq<Line>, i: nat)
    requires Evolves(st, st') && d in st.routines
    requires d in st'.routines && CalleeGroup(st', g, c, d, lines, i)
    ensures CalleeGroup(st, g, c, d, lines, i)
  {
    assert st'.routines[d].moduleName == st.routines[d].moduleName;
  }

  /** The two lines of a visit name the routine's module and the routine. */
  lemma VisitShape(cfg: Config, st: State, g: Graph, rtn: int, callee: bool)
    requires Ready(cfg, st, g) && rtn in st.routines && ModuleKey(st.routines[rtn]) in st.modules
    requires Loadable(cfg, st, st.routines[rtn].moduleName)
    ensures var lines := Visit(cfg, st, g, rtn, callee).1;
      && |lines| == 2
      && lines[0].Object? && lines[0].callee == callee && lines[0].key == ModuleKey(st.routines[rtn])
      && lines[1].Function? && lines[1].callee == callee && lines[1].rtn == rtn
  {
  }

  /** One callee's lines form its group. */
  lemma EmitCalleeShape(cfg: Config, st: State, g: Graph, c: int, d: int)
    requires Ready(cfg, st, g) && c in g && c in st.routines && d in g[c]
    ensures d in st.routines && CalleeGroup(st, g, c, d, EmitCallee(cfg, st, g, c, d).1, 0)
  {
    CalleeKnown(st, g, c, d);
    VisitShape(cfg, st, g, d, true);
  }

  /** The k-th group of a caller's callee lines is the k-th callee's, with
      the count the graph holds for that pair. */
  lemma {:induction false} EmitCalleesShape(cfg: Config, st: State, g: Graph, c: int, ds: seq<int>, k: nat)
    requires Ready(cfg, st, g) && c in g && c in st.routines && CalleesOf(g, c, ds) && k < |ds|
    ensures ds[k] in st.routines
    ensures CalleeGroup(st, g, c, ds[k], EmitCallees(cfg, st, g, c, ds).1, 4 * k)
  {
    CalleeKnown(st, g, c, ds[k]);
    var r := EmitCallees(cfg, st, g, c, ds[..|ds| - 1]);
    var last := EmitCallee(cfg, r.0, g, c, ds[|ds| - 1]);
    assert EmitCallees(cfg, st, g, c, ds).1 == r.1 + last.1;
    if k == |ds| - 1 {
      EmitCalleeShape(cfg, r.0, g, c, ds[k]);
      GroupTransfer(st, r.0, g, c, ds[k], last.1, 0);
      GroupInRight(st, g, c, ds[k], r.1, last.1, 0, 4 * k);
    } else {
      EmitCalleesShape(cfg, st, g, c, ds[..|ds| - 1], k);
      GroupInLeft(st, g, c, ds[k], r.1, last.1, 4 * k);
    }
  }

  /** The k-th callee group of a registered caller's block. */
  lemma CallerGroupAt(cfg: Config, st: State, g: Graph, c: int, ds: seq<int>, k: nat)
    requires Ready(cfg, st, g) && c in g && c in st.routines && CalleesOf(g, c, ds) && k < |ds|
    ensures ds[k] in st.routines && CalleeGroup(st, g, c, ds[k], EmitCaller(cfg, st, g, c, ds).1, 3 + 4 * k)
  {
    var v := Visit(cfg, st, g, c, false);
    var body := EmitCallees(cfg, v.0, g, c, ds);
    var head := v.1 + [Cost];
    assert EmitCaller(cfg, st, g, c, ds).1 == head + body.1 + [Separator];
    CalleeKnown(st, g, c, ds[k]);
    EmitCalleesShape(cfg, v.0, g, c, ds, k);
    GroupTransfer(st, v.0, g, c, ds[k], body.1, 4 * k);
    GroupInRight(st, g, c, ds[k], head, body.1, 4 * k, 3 + 4 * k);
    GroupInLeft(st, g, c, ds[k], head + body.1, [Separator], 3 + 4 * k);
  }

  /** A caller that is not a registered routine emits nothing; a registered
      one emits `ob=` for its module, `fn=` for itself, the cost line, one
      group per callee in the given order, and a separator. */
  lemma CallerBlockShape(cfg: Config, st: State, g: Graph, c: int, ds: seq<int>)
    requires Ready(cfg, st, g) && c in g && CalleesOf(g, c, ds)
    ensures var (st', lines) := EmitCaller(cfg, st, g, c, ds);
      && (c !in st.routines ==> st' == st && lines == [])
      && (c in st.routines ==>
            && |lines| == 4 + 4 * |ds|
            && lines[0].Object? && !lines[0].callee && lines[0].key == ModuleKey(st.routines[c])
            && lines[1].Function? && !lines[1].callee && lines[1].rtn == c
            && lines[2] == Cost
            && lines[|lines| - 1] == Separator
            && forall k :: 0 <= k < |ds| ==> ds[k] in st.routines && CalleeGroup(st, g, c, ds[k], lines, 3 + 4 * k))
  {
    if c in st.routines {
      var v := Visit(cfg, st, g, c, false);
      VisitShape(cfg, st, g, c, false);
      var body := EmitCallees(cfg, v.0, g, c, ds);
      var lines := v.1 + [Cost] + body.1 + [Separator];
      assert EmitCaller(cfg, st, g, c, ds).1 == lines;
      forall k | 0 <= k < |ds|
        ensures ds[k] in st.routines && CalleeGroup(st, g, c, ds[k], lines, 3 + 4 * k)
      {
        CallerGroupAt(cfg, st, g, c, ds, k);
      }
    }
  }

  /** The concatenation of what `f` gives for each element, in order. */
  function FlatMap<T, U>(s: seq<T>, f: T -> seq<U>): seq<U>
  {
    if s == [] then [] else FlatMap(s[..|s| - 1], f) + f(s[|s| - 1])
  }

  lemma {:induction false} FlatMapAppend<T, U>(a: seq<T>, b: seq<T>, f: T -> seq<U>)
    ensures FlatMap(a + b, f) == FlatMap(a, f) + FlatMap(b, f)
  {
    if b == [] {
      assert a + b == a;
    } else {
      FlatMapAppend(a, b[..|b| - 1], f);
      assert (a + b)[..|a + b| - 1] == a + b[..|b| - 1];
    }
  }

  /** The caller one line names: its routine, if it is a caller's `fn=`. */
  function CallerOf(line: Line): seq<int>
  {
    if line.Function? && !line.callee then [line.rtn] else []
  }

  /** The routines named by the `fn=` lines (the callers), in order. */
  function Callers(lines: seq<Line>): seq<int>
  {
    FlatMap(lines, CallerOf)
  }

  /** The callers that are registered routines, in order. */
  function Kept(cs: seq<int>, known: set<int>): (r: seq<int>)
    ensures forall i :: 0 <= i < |r| ==> r[i] in known
    ensures |r| <= |cs|
  {
    if cs == [] then [] else Kept(cs[..|cs| - 1], known) + (if cs[|cs| - 1] in known then [cs[|cs| - 1]] else [])
  }

  lemma CallersAppend(a: seq<Line>, b: seq<Line>)
    ensures Callers(a + b) == Callers(a) + Callers(b)
  {
    FlatMapAppend(a, b, CallerOf);
  }

  /** One line names the caller it names. */
  lemma CallersOne(line: Line)
    ensures Callers([line]) == CallerOf(line)
  {
    assert [line][..0] == [];
    assert FlatMap([line], CallerOf) == FlatMap([], CallerOf) + CallerOf(line);
  }

  /** Lines without a caller's `fn=` line name no caller. */
  lemma {:induction false} CallersNone(lines: seq<Line>)
    requires forall i :: 0 <= i < |lines| && lines[i].Function? ==> lines[i].callee
    ensures Callers(lines) == []
  {
    if lines != [] {
      CallersNone(lines[..|lines| - 1]);
    }
  }

  /** A callee group names no caller. */
  lemma GroupNoCaller(st: State, g: Graph, c: int, d: int, lines: seq<Line>)
    requires d in st.routines && |lines| == 4 && CalleeGroup(st, g, c, d, lines, 0)
    ensures Callers(lines) == []
  {
    CallersNone(lines);
  }

  /** Two runs without callers make one. */
  lemma NoCallers(a: seq<Line>, b: seq<Line>)
    requires Callers(a) == [] && Callers(b) == []
    ensures Callers(a + b) == []
  {
    CallersAppend(a, b);
  }

  /** The head of a caller block, `ob=`, `fn=`, `0 1`, names its caller. */
  lemma HeadCallers(head: seq<Line>)
    requires |head| == 3 && head[0].Object? && head[1].Function? && !head[1].callee && head[2] == Cost
    ensures Callers(head) == [head[1].rtn]
  {
    CallersOne(head[0]);
    CallersOne(head[1]);
    CallersOne(head[2]);
    CallersAppend([head[0]], [head[1]]);
    CallersAppend([head[0]] + [head[1]], [head[2]]);
    assert head == [head[0]] + [head[1]] + [head[2]];
  }

  /** A head, a body without callers and a separator name the head's caller. */
  lemma BlockCallers(head: seq<Line>, body: seq<Line>, c: int)
    requires Callers(head) == [c] && Callers(body) == []
    ensures Callers(head + body + [Separator]) == [c]
  {
    CallersAppend(head, body);
    CallersAppend(head + body, [Separator]);
    CallersOne(Separator);
  }

  /** Callee lines name no caller. */
  lemma {:induction false} EmitCalleesNoCaller(cfg: Config, st: State, g: Graph, c: int, ds: seq<int>)
    requires Ready(cfg, st, g) && c in g && c in st.routines && CalleesOf(g, c, ds)
    ensures Callers(EmitCallees(cfg, st, g, c, ds).1) == []
  {
    if ds != [] {
      var r := EmitCallees(cfg, st, g, c, ds[..|ds| - 1]);
      EmitCalleesNoCaller(cfg, st, g, c, ds[..|ds| - 1]);
      var last := EmitCallee(cfg, r.0, g, c, ds[|ds| - 1]).1;
      assert EmitCallees(cfg, st, g, c, ds).1 == r.1 + last;
      EmitCalleeShape(cfg, r.0, g, c, ds[|ds| - 1]);
      GroupNoCaller(r.0, g, c, ds[|ds| - 1], last);
      NoCallers(r.1, last);
    }
  }

  /** A caller block names its caller once, or nothing. */
  lemma EmitCallerCallers(cfg: Config, st: State, g: Graph, c: int, ds: seq<int>)
    requires Ready(cfg, st, g) && c in g && CalleesOf(g, c, ds)
    ensures Callers(EmitCaller(cfg, st, g, c, ds).1) == if c in st.routines then [c] else []
  {
    if c in st.routines {
      var v := Visit(cfg, st, g, c, false);
      VisitShape(cfg, st, g, c, false);
      var body := EmitCallees(cfg, v.0, g, c, ds);
      var head := v.1 + [Cost];
      assert EmitCaller(cfg, st, g, c, ds).1 == head + body.1 + [Separator];
      HeadCallers(head);
      EmitCalleesNoCaller(cfg, v.0, g, c, ds);
      BlockCallers(head, body.1, c);
    }
  }

  /** The `fn=` lines of the emission name exactly the callers that are
      registered routines, each once, in the order the callers are taken:
      callers without a routine entry are skipped. */
  lemma {:induction false} EmitGraphCallers(cfg: Config, st: State, g: Graph, cs: seq<int>, order: map<int, seq<int>>)
    requires Ready(cfg, st, g) && Covers(g, cs, order)
    ensures Callers(EmitGraph(cfg, st, g, cs, order).1) == Kept(cs, st.routines.Keys)
  {
    if cs != [] {
      var c := cs[|cs| - 1];
      var r := EmitGraph(cfg, st, g, cs[..|cs| - 1], order);
      EmitGraphCallers(cfg, st, g, cs[..|cs| - 1], order);
      var block := EmitCaller(cfg, r.0, g, c, order[c]).1;
      assert EmitGraph(cfg, st, g, cs, order).1 == r.1 + block;
      EmitCallerCallers(cfg, r.0, g, c, order[c]);
      CallersAppend(r.1, block);
      assert c in r.0.routines <==> c in st.routines;
    }
  }

  /** The header written out: three comment lines, the last followed by
      a blank line, then the event declaration and a blank line. */
  lemma HeaderText()
    ensures Render(Header) == ["#" + "\r\n", "# Generated by Code Coverage Analysis Tool for PIN" + "\r\n",
                               "#\r\n" + "\r\n", "events: Ir\r\n" + "\r\n"]
  {
    RenderAt(Header, 0);
    RenderAt(Header, 1);
    RenderAt(Header, 2);
    RenderAt(Header, 3);
  }
}
