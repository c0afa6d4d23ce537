/** The module registry (`m_modules_list`) and the routine registry
    (`m_routines_list`): their records, how one line of each input list is
    read, and what registering the accepted lines produces. The reading
    itself is a loop in the class of module Converter; the functions below
    are its specification. */
module Registry {
  import opened Text

  /** `m_modules_list[name]`: the module's full path, whether its debug
      symbols were loaded, its alias and whether its name was emitted. */
  datatype Module = Module(path: string, symbolsLoaded: bool, alias: nat, aliasAccessed: bool)

  /** `m_routines_list[address]`: the routine's display name, the module
      token taken from that name, its static call count, its alias and
      whether its name was emitted. */
  datatype Routine = Routine(name: string, moduleName: string, calls: nat, alias: nat, aliasAccessed: bool)

  type Modules = map<string, Module>
  type Routines = map<int, Routine>

  /** The name of the unknown module and of unknown routines. */
  const UnknownName: string := "?"

  /** The entry every module registry starts with: alias 1, reserved. */
  const UnknownModule: Module := Module("?", false, 1, false)

  // ---------------------------------------------------------------------------
  // registering keyed entries with sequential aliases

  /** No two entries share a key. */
  ghost predicate DistinctKeys<K, V>(entries: seq<(K, V)>)
  {
    forall i, j :: 0 <= i < j < |entries| ==> entries[i].0 != entries[j].0
  }

  /** The keys the entries name. */
  function KeysOf<K, V>(entries: seq<(K, V)>): (keys: set<K>)
    ensures forall k :: 0 <= k < |entries| ==> entries[k].0 in keys
  {
    if entries == [] then {} else KeysOf(entries[..|entries| - 1]) + {entries[|entries| - 1].0}
  }

  /** A key no entry names is not among the keys of the entries. */
  lemma {:induction false} KeysOfExcludes<K, V>(entries: seq<(K, V)>, key: K)
    requires forall k :: 0 <= k < |entries| ==> entries[k].0 != key
    ensures key !in KeysOf(entries)
  {
    if entries != [] {
      KeysOfExcludes(entries[..|entries| - 1], key);
    }
  }

  /** Both registries are filled the same way: each accepted entry is
      stored under its key with the alias `len(registry) + 1`, computed
      before the key is (re)written. */
  function Register<K, V, R>(m: map<K, R>, entries: seq<(K, V)>, make: (V, nat) -> R): map<K, R>
  {
    if entries == [] then m
    else
      var before := Register(m, entries[..|entries| - 1], make);
      var (key, value) := entries[|entries| - 1];
      before[key := make(value, |before| + 1)]
  }

  /** A property every old record and every new record has holds of every
      record after registering. */
  lemma {:induction false} RegisterAll<K, V, R>(m: map<K, R>, entries: seq<(K, V)>, make: (V, nat) -> R, P: R -> bool)
    requires forall k :: k in m ==> P(m[k])
    requires forall v, n :: P(make(v, n))
    ensures forall k :: k in Register(m, entries, make) ==> P(Register(m, entries, make)[k])
  {
    if entries != [] {
      RegisterAll(m, entries[..|entries| - 1], make, P);
      var before := Register(m, entries[..|entries| - 1], make);
      var (key, value) := entries[|entries| - 1];
      assert P(make(value, |before| + 1));
      assert Register(m, entries, make) == before[key := make(value, |before| + 1)];
    }
  }

  /** Registering never removes a key, and a key no entry names keeps its
      record. */
  lemma {:induction false} RegisterKeeps<K, V, R>(m: map<K, R>, entries: seq<(K, V)>, make: (V, nat) -> R, key: K)
    requires key in m
    ensures key in Register(m, entries, make)
    ensures key !in KeysOf(entries) ==> Register(m, entries, make)[key] == m[key]
  {
    if entries != [] {
      RegisterKeeps(m, entries[..|entries| - 1], make, key);
    }
  }

  /** Registering adds exactly the keys the entries name. */
  lemma {:induction false} RegisterKeys<K, V, R>(m: map<K, R>, entries: seq<(K, V)>, make: (V, nat) -> R)
    ensures forall key :: key in Register(m, entries, make) <==> key in m || key in KeysOf(entries)
  {
    if entries != [] {
      var init := entries[..|entries| - 1];
      RegisterKeys(m, init, make);
      assert KeysOf(entries) == KeysOf(init) + {entries[|entries| - 1].0};
    }
  }

  /** Entries with distinct new keys: the registry grows by one per entry,
      and the k-th entry (from 0) gets alias |m| + k + 1. */
  lemma {:induction false} RegisterSizes<K, V, R>(m: map<K, R>, entries: seq<(K, V)>, make: (V, nat) -> R)
    requires DistinctKeys(entries)
    requires forall k :: 0 <= k < |entries| ==> entries[k].0 !in m
    ensures |Register(m, entries, make)| == |m| + |entries|
    ensures forall k :: 0 <= k < |entries| ==> (entries[k].0 in Register(m, entries, make) &&
              Register(m, entries, make)[entries[k].0] == make(entries[k].1, |m| + k + 1))
  {
    if entries != [] {
      var n := |entries| - 1;
      var init := entries[..n];
      assert forall k :: 0 <= k < n ==> init[k] == entries[k];
      RegisterSizes(m, init, make);
      var x := entries[n];
      assert x.0 !in Register(m, init, make) by {
        forall k | 0 <= k < n ensures init[k].0 != x.0 {
          assert entries[k].0 != entries[n].0;
        }
        KeysOfExcludes(init, x.0);
        RegisterKeys(m, init, make);
      }
      RegisterLast(m, init, x, make, n);
      assert init + [x] == entries;
    }
  }

  /** The step of `RegisterSizes`: the last entry's key is new, so it gets
      the next alias and the earlier entries keep theirs. */
  lemma RegisterLast<K, V, R>(m: map<K, R>, init: seq<(K, V)>, x: (K, V), make: (V, nat) -> R, n: nat)
    requires n == |init| && x.0 !in Register(m, init, make)
    requires |Register(m, init, make)| == |m| + n
    requires forall k :: 0 <= k < n ==> init[k].0 != x.0
    requires forall k :: 0 <= k < n ==> (init[k].0 in Register(m, init, make) &&
               Register(m, init, make)[init[k].0] == make(init[k].1, |m| + k + 1))
    ensures |Register(m, init + [x], make)| == |m| + n + 1
    ensures forall k :: 0 <= k < n + 1 ==> ((init + [x])[k].0 in Register(m, init + [x], make) &&
              Register(m, init + [x], make)[(init + [x])[k].0] == make((init + [x])[k].1, |m| + k + 1))
  {
    var before := Register(m, init, make);
    assert (init + [x])[..n] == init;
    assert Register(m, init + [x], make) == before[x.0 := make(x.1, |before| + 1)];
  }

  /** Registering entries with distinct new keys: the registry grows by
      exactly those keys, the k-th entry (from 0) gets alias |m| + k + 1,
      and nothing registered before changes. */
  lemma RegisterAliases<K, V, R>(m: map<K, R>, entries: seq<(K, V)>, make: (V, nat) -> R)
    requires DistinctKeys(entries)
    requires forall k :: 0 <= k < |entries| ==> entries[k].0 !in m
    ensures var r := Register(m, entries, make);
      && |r| == |m| + |entries|
      && (forall key :: key in r <==> key in m || key in KeysOf(entries))
      && (forall key :: key in m ==> r[key] == m[key])
      && forall k :: 0 <= k < |entries| ==> r[entries[k].0] == make(entries[k].1, |m| + k + 1)
  {
    RegisterKeys(m, entries, make);
    RegisterSizes(m, entries, make);
    forall key | key in m ensures Register(m, entries, make)[key] == m[key] {
      KeysOfExcludes(entries, key);
      RegisterKeeps(m, entries, make, key);
    }
  }

  /** The alias is taken from the size of the registry, so a repeated key
      does not make it grow: after `a`, `a` again and `b`, the second `a`
      and `b` carry the same alias. */
  lemma RepeatedKeySharesAlias<K, V, R>(m: map<K, R>, a: K, b: K, v1: V, v2: V, v3: V, make: (V, nat) -> R)
    requires a !in m && b !in m && a != b
    ensures var r := Register(m, [(a, v1), (a, v2), (b, v3)], make);
      a in r && b in r && r[a] == make(v2, |m| + 2) && r[b] == make(v3, |m| + 2)
  {
    var s1 := [(a, v1)];
    var s2 := s1 + [(a, v2)];
    var s3 := s2 + [(b, v3)];
    assert s1[..0] == [] && s2[..1] == s1 && s3[..2] == s2;
    assert s3 == [(a, v1), (a, v2), (b, v3)];
    assert Register(m, s1[..0], make) == m;
    var r1 := Register(m, s1, make);
    assert r1 == m[a := make(v1, |m| + 1)];
    var r2 := Register(m, s2, make);
    assert r2 == r1[a := make(v2, |r1| + 1)];
    assert |r2| == |m| + 1;
    assert Register(m, s3, make) == r2[b := make(v3, |r2| + 1)];
  }

  // ---------------------------------------------------------------------------
  // module list

  /** The path of a module line: a fourth field is the rest of a path that
      holds a drive-letter colon, and is joined back to the third. */
  function ModulePath(entry: seq<string>): string
    requires |entry| >= 3
  {
    if |entry| > 3 then entry[2] + ":" + entry[3] else entry[2]
  }

  /** The (key, path) a module-list line registers: nothing for a comment
      or a line of fewer than three fields (fewer than two colons);
      otherwise the key is the lower-cased base name of the path. */
  function ModuleEntry(line: string): (e: Option<(string, string)>)
    ensures e.None? <==> IsComment(line) || Count(line, ':') < 2
  {
    SplitSpec(line, ':');
    var entry := Split(line, ':');
    if IsComment(line) || |entry| < 3 then None
    else
      var path := ModulePath(entry);
      Some((Lower(BaseName(path)), path))
  }

  /** The entries of the accepted lines of a module list, in file order. */
  function ModuleEntries(lines: seq<string>): seq<(string, string)>
  {
    if lines == [] then []
    else
      var prefix := ModuleEntries(lines[..|lines| - 1]);
      match ModuleEntry(lines[|lines| - 1])
      case None => prefix
      case Some(e) => prefix + [e]
  }

  /** The record a fresh module line gets. */
  function NewModule(path: string, alias: nat): Module
  {
    Module(path, false, alias, false)
  }

  /** The registry `read_modules_list` leaves: `?` seeded with alias 1, then
      every accepted line registered in order. */
  function ReadModules(mods: Modules, lines: seq<string>): Modules
  {
    Register(mods[UnknownName := UnknownModule], ModuleEntries(lines), NewModule)
  }

  /** Splitting `a:b:rest` when `a` and `b` hold no colon. */
  lemma SplitTwoFields(a: string, b: string, rest: string)
    requires ':' !in a && ':' !in b
    ensures Split(a + ":" + b + ":" + rest, ':') == [a, b] + Split(rest, ':')
  {
    assert a + ":" + b + ":" + rest == a + [':'] + (b + [':'] + rest);
    SplitAfterPiece(a, b + [':'] + rest, ':');
    SplitAfterPiece(b, rest, ':');
  }

  /** A path with at most one colon is rebuilt from its fields. */
  lemma ModulePathRejoins(a: string, b: string, path: string)
    requires Count(path, ':') <= 1
    ensures ModulePath([a, b] + Split(path, ':')) == path
  {
    var tail := Split(path, ':');
    SplitSpec(path, ':');
    JoinSplit(path, ':');
    if |tail| == 2 {
      assert Join(tail[1..], ':') == tail[1];
    }
  }

  /** A well-formed line `a:b:path` registers `path` under its lower-cased
      base name, also when the path carries one drive-letter colon. */
  lemma ModuleLineRoundTrip(a: string, b: string, path: string)
    requires ':' !in a && ':' !in b && Count(path, ':') <= 1
    requires a == [] || a[0] != '#'
    ensures ModuleEntry(a + ":" + b + ":" + path) == Some((Lower(BaseName(path)), path))
  {
    var line := a + ":" + b + ":" + path;
    SplitTwoFields(a, b, path);
    ModulePathRejoins(a, b, path);
    assert !IsComment(line) by {
      if a == [] { assert line[0] == ':'; } else { assert line[0] == a[0]; }
    }
  }

  /** After `read_modules_list` the unknown module `?` is present, with
      alias 1 unless a line itself registers a module named `?`. */
  lemma ModulesKeepUnknown(mods: Modules, lines: seq<string>)
    ensures UnknownName in ReadModules(mods, lines)
    ensures UnknownName !in KeysOf(ModuleEntries(lines)) ==>
              ReadModules(mods, lines)[UnknownName] == UnknownModule
  {
    RegisterKeeps(mods[UnknownName := UnknownModule], ModuleEntries(lines), NewModule, UnknownName);
  }

  /** `read_modules_list` on a fresh registry: with distinct names, none of
      them `?`, the registry holds `?` with alias 1 and the k-th accepted
      line (counting from 0) with alias k + 2, and nothing else. */
  lemma ModuleAliases(lines: seq<string>)
    requires DistinctKeys(ModuleEntries(lines))
    requires UnknownName !in KeysOf(ModuleEntries(lines))
    ensures var r, e := ReadModules(map[], lines), ModuleEntries(lines);
      && |r| == |e| + 1
      && (forall key :: key in r <==> key == UnknownName || key in KeysOf(e))
      && r[UnknownName] == UnknownModule
      && forall k :: 0 <= k < |e| ==> r[e[k].0] == Module(e[k].1, false, k + 2, false)
  {
    var e := ModuleEntries(lines);
    assert map[][UnknownName := UnknownModule] == map[UnknownName := UnknownModule];
    forall k | 0 <= k < |e| ensures e[k].0 != UnknownName {
      assert e[k].0 in KeysOf(e);
    }
    RegisterAliases(map[UnknownName := UnknownModule], e, NewModule);
  }

  // ---------------------------------------------------------------------------
  // routine list

  /** A routine line `int()` can read: comments and short lines are skipped,
      so only accepted lines need a hex address and a decimal count. */
  predicate RoutineLineOk(line: string)
  {
    var entry := Split(line, ':');
    IsComment(line) || |entry| < 3 || (IsHex(entry[0]) && IsDec(entry[2]))
  }

  /** The owning module of a routine: the text before the `+` if the name
      splits on `+` into exactly two parts, otherwise `?`. */
  function ModuleOfName(name: string): string
  {
    var parts := Split(name, '+');
    if |parts| == 2 then parts[0] else UnknownName
  }

  /** The (address, (name, calls)) a routine-list line registers: nothing
      for a comment or a line of fewer than three fields. */
  function RoutineEntry(line: string): (e: Option<(int, (string, nat))>)
    requires RoutineLineOk(line)
    ensures e.None? <==> IsComment(line) || Count(line, ':') < 2
  {
    SplitSpec(line, ':');
    var entry := Split(line, ':');
    if IsComment(line) || |entry| < 3 then None
    else Some((ParseHex(entry[0]), (entry[1], ParseDec(entry[2]))))
  }

  /** The entries of the accepted lines of a routine list, in file order. */
  function RoutineEntries(lines: seq<string>): seq<(int, (string, nat))>
    requires forall i :: 0 <= i < |lines| ==> RoutineLineOk(lines[i])
  {
    if lines == [] then []
    else
      var prefix := RoutineEntries(lines[..|lines| - 1]);
      match RoutineEntry(lines[|lines| - 1])
      case None => prefix
      case Some(e) => prefix + [e]
  }

  /** The record a fresh routine line gets: its module comes from its name. */
  function NewRoutine(line: (string, nat), alias: nat): Routine
  {
    Routine(line.0, ModuleOfName(line.0), line.1, alias, false)
  }

  /** The registry `read_routines_list` leaves. */
  function ReadRoutines(rtns: Routines, lines: seq<string>): Routines
    requires forall i :: 0 <= i < |lines| ==> RoutineLineOk(lines[i])
  {
    Register(rtns, RoutineEntries(lines), NewRoutine)
  }

  /** The module of a routine is the text before its `+` exactly when the
      name holds exactly one `+`; otherwise it is `?`. */
  lemma ModuleOfNameSpec(name: string)
    ensures Count(name, '+') == 1 ==>
      var m := ModuleOfName(name);
      && |m| < |name|
      && '+' !in m && '+' !in name[|m| + 1..]
      && name == m + "+" + name[|m| + 1..]
    ensures Count(name, '+') != 1 ==> ModuleOfName(name) == UnknownName
  {
    var parts := Split(name, '+');
    SplitSpec(name, '+');
    if |parts| == 2 {
      JoinSplit(name, '+');
      assert Join(parts, '+') == parts[0] + ['+'] + Join(parts[1..], '+');
      assert Join(parts[1..], '+') == parts[1];
      assert name[|parts[0]| + 1..] == parts[1];
    }
  }

  /** A routine line written as `0x<address>:<name>:<calls>` is read back
      as that address, name and count. */
  lemma RoutineLineRoundTrip(address: nat, name: string, calls: nat)
    requires ':' !in name
    ensures var line := "0x" + HexString(address) + ":" + name + ":" + DecString(calls);
      RoutineLineOk(line) && RoutineEntry(line) == Some((address, (name, calls)))
  {
    var a := "0x" + HexString(address);
    var c := DecString(calls);
    var line := a + ":" + name + ":" + c;
    assert ':' !in a by {
      assert IsDigits(HexString(address), 16);
      assert forall i :: 2 <= i < |a| ==> a[i] == HexString(address)[i - 2];
    }
    assert ':' !in c by { assert IsDigits(c, 10); }
    assert Split(line, ':') == [a, name, c] by {
      assert line == a + [':'] + (name + [':'] + c);
      SplitAfterPiece(a, name + [':'] + c, ':');
      SplitAfterPiece(name, c, ':');
      SplitNoSeparator(c, ':');
    }
    assert line[0] == '0';
    HexRoundTrip(address);
    DecRoundTrip(calls);
  }

  /** `read_routines_list` on a fresh registry: with distinct addresses the
      k-th accepted line (counting from 0) gets alias k + 1 and its module
      from its name, and nothing else is registered. */
  lemma RoutineAliases(lines: seq<string>)
    requires forall i :: 0 <= i < |lines| ==> RoutineLineOk(lines[i])
    requires DistinctKeys(RoutineEntries(lines))
    ensures var r, e := ReadRoutines(map[], lines), RoutineEntries(lines);
      && |r| == |e|
      && (forall a :: a in r <==> a in KeysOf(e))
      && forall k :: 0 <= k < |e| ==>
           e[k].0 in r && r[e[k].0] == Routine(e[k].1.0, ModuleOfName(e[k].1.0), e[k].1.1, k + 1, false)
  {
    RegisterAliases(map[], RoutineEntries(lines), NewRoutine);
  }
}
