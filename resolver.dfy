/** The symbol resolver (`parse_symbol`): turns a routine name of the form
    `module+hexoffset` into `module!symbol[+0xdisplacement]` with the help
    of the debug-symbol backend, honouring the module filter given with
    `--modules` and the `--skip-symbols` switch. */
module Resolver {
  import opened Text
  import opened Registry

  /** The debug-symbol backend `bestbyaddr(path, offset)`: the nearest
      symbol at or before the offset in the module file, with its
      displacement, or nothing. It is foreign code and enters the model as
      a parameter. */
  type Lookup = (string, nat) -> Option<(string, nat)>

  /** The settings that reach the resolver: the module filter
      (`m_modules_to_process`), the `--skip-symbols` switch
      (`m_skip_symbols`) and the backend. */
  datatype Config = Config(filter: seq<string>, skipSymbols: bool, lookup: Lookup)

  /** `sub` occurs in `s` starting at index `i`. */
  predicate OccursAt(sub: string, s: string, i: nat)
  {
    i + |sub| <= |s| && s[i..i + |sub|] == sub
  }

  /** `s.find(sub) >= 0`: `sub` occurs somewhere in `s`. */
  predicate Occurs(sub: string, s: string)
  {
    exists i: nat :: i <= |s| && OccursAt(sub, s, i)
  }

  /** The loop over the filter: does some filter entry occur in the
      (lower-cased) module name? */
  function AnyOccurs(filter: seq<string>, name: string): (r: bool)
    ensures r <==> exists k :: 0 <= k < |filter| && Occurs(filter[k], name)
  {
    if filter == [] then false
    else AnyOccurs(filter[..|filter| - 1], name) || Occurs(filter[|filter| - 1], name)
  }

  /** `skip_module`: a filter is set and none of its entries occurs in the
      module name. */
  predicate FilteredOut(filter: seq<string>, name: string)
  {
    |filter| > 0 && !AnyOccurs(filter, name)
  }

  /** What `parse_symbol` needs of a name to not raise: the text after the
      first `+` is a hex number (`int(info[1], 16)`), and a name without
      `+` is not empty (`string[0]`). */
  predicate Parses(name: string)
  {
    var info := Split(name, '+');
    if |info| >= 2 then IsHex(info[1]) else name != []
  }

  /** `"+0x%x" % d` when the displacement is positive, otherwise nothing. */
  function Displacement(d: nat): string
  {
    if d > 0 then "+0x" + HexString(d) else ""
  }

  /** `parse_symbol(name)`: `None` stands for the `False` that suppresses
      the name. A suppressed name needs a filter, and `--skip-symbols`
      never rewrites a name. */
  function Resolve(cfg: Config, mods: Modules, name: string): (r: Option<string>)
    requires Parses(name)
    ensures r.None? ==> |cfg.filter| > 0
    ensures cfg.skipSymbols ==> r.None? || r == Some(name)
  {
    var info := Split(name, '+');
    if |info| >= 2 then
      var key := Lower(info[0]);
      if FilteredOut(cfg.filter, key) then None
      else if cfg.skipSymbols then Some(name)
      else
        var path := if key in mods then mods[key].path else key;
        match cfg.lookup(path, ParseHex(info[1]))
        case Some((symbol, d)) => Some(info[0] + "!" + symbol + Displacement(d))
        case None => Some(name)
    else if name[0] == '?' && |cfg.filter| > 0 && UnknownName !in cfg.filter then None
    else Some(name)
  }

  /** A name `module+offset` is suppressed exactly when a filter is set and
      no entry of it occurs in the lower-cased module token; otherwise it
      is passed through under `--skip-symbols`, and else rewritten with
      the symbol the backend finds, or kept when it finds none. The
      backend is asked about the registered path of the module, or about
      the lower-cased token when the module is not registered. */
  lemma ResolveModuleName(cfg: Config, mods: Modules, token: string, offset: string)
    requires '+' !in token && '+' !in offset && IsHex(offset)
    ensures Parses(token + "+" + offset)
    ensures var r, key := Resolve(cfg, mods, token + "+" + offset), Lower(token);
      var path := if key in mods then mods[key].path else key;
      && (r.None? <==> |cfg.filter| > 0 && forall k :: 0 <= k < |cfg.filter| ==> !Occurs(cfg.filter[k], key))
      && (r.Some? && cfg.skipSymbols ==> r == Some(token + "+" + offset))
      && (r.Some? && !cfg.skipSymbols ==>
            match cfg.lookup(path, ParseHex(offset))
            case Some((symbol, d)) => r == Some(token + "!" + symbol + Displacement(d))
            case None => r == Some(token + "+" + offset))
  {
    SplitAfterPiece(token, offset, '+');
    SplitNoSeparator(offset, '+');
  }

  /** A name without `+` is suppressed exactly when it starts with `?`, a
      filter is set and `?` is not one of its entries; any other such name
      is passed through unchanged. */
  lemma ResolvePlainName(cfg: Config, mods: Modules, name: string)
    requires '+' !in name && name != []
    ensures Parses(name)
    ensures var r := Resolve(cfg, mods, name);
      && (r.None? <==> name[0] == '?' && |cfg.filter| > 0 && UnknownName !in cfg.filter)
      && (r.Some? ==> r == Some(name))
  {
    SplitNoSeparator(name, '+');
  }

  /** With `--skip-symbols` the backend is never consulted: any two
      backends give the same result. */
  lemma SkipSymbolsNeverLooksUp(cfg: Config, mods: Modules, name: string, other: Lookup)
    requires cfg.skipSymbols && Parses(name)
    ensures Resolve(cfg, mods, name) == Resolve(cfg.(lookup := other), mods, name)
  {
  }

  /** The displacement of a resolved name can be read back: when neither
      the module token nor the symbol holds a `+`, the text after the `+`
      of `module!symbol+0x<d>` parses as `d`. */
  lemma DisplacementRoundTrip(token: string, symbol: string, d: nat)
    requires '+' !in token && '+' !in symbol && d > 0
    ensures var r := token + "!" + symbol + Displacement(d);
      var info := Split(r, '+');
      |info| == 2 && info[0] == token + "!" + symbol && IsHex(info[1]) && ParseHex(info[1]) == d
  {
    var head := token + "!" + symbol;
    var tail := "0x" + HexString(d);
    assert '+' !in head;
    assert '+' !in tail by {
      assert IsDigits(HexString(d), 16);
      assert forall i :: 2 <= i < |tail| ==> tail[i] == HexString(d)[i - 2];
    }
    assert head + Displacement(d) == head + "+" + tail;
    SplitAfterPiece(head, tail, '+');
    SplitNoSeparator(tail, '+');
    HexRoundTrip(d);
  }

  /** The module filter `--modules iexplore`: names in module `ieframe`
      are suppressed, names in module `IExplore.exe` are kept. */
  lemma FilterExample(filter: seq<string>, framePart: string, explorerPart: string)
    requires filter == ["iexplore"] && framePart == "ieframe" && explorerPart == "IExplore.exe"
    ensures FilteredOut(filter, Lower(framePart))
    ensures !FilteredOut(filter, Lower(explorerPart))
  {
    LowerSpec(framePart);
    LowerSpec(explorerPart);
    assert |Lower(framePart)| == 7;
    assert !Occurs(filter[0], Lower(framePart));
    var key := Lower(explorerPart);
    forall j | 0 <= j < 8 ensures key[j] == filter[0][j] {
      assert IsUpper(explorerPart[j]) <==> j == 0 || j == 1;
    }
    assert key[0..8] == filter[0];
    assert OccursAt(filter[0], key, 0);
  }
}
