/** Character-level helpers standing in for the Python string operations the
    converter relies on: `str.split`, `str.lower`, `os.path.basename`, and
    `int(s, 16)`, `int(s)`, `"%x"`, `"%d"` on numerals. */
module Text {

  datatype Option<T> = None | Some(value: T)

  /** `line[:1] == "#"`: the comment marker shared by every input list. */
  predicate IsComment(line: string)
  {
    |line| > 0 && line[0] == '#'
  }

  /** Number of occurrences of `c` in `s`. */
  function Count(s: string, c: char): nat
  {
    if s == [] then 0 else (if s[0] == c then 1 else 0) + Count(s[1..], c)
  }

  // ---------------------------------------------------------------------------
  // split and join

  /** `s.split(sep)`: the pieces between separators, in order; an empty
      string still yields one (empty) piece. */
  function Split(s: string, sep: char): (parts: seq<string>)
    ensures |parts| >= 1
  {
    if s == [] then [[]]
    else
      var rest := Split(s[1..], sep);
      if s[0] == sep then [[]] + rest
      else [[s[0]] + rest[0]] + rest[1..]
  }

  /** There is one piece more than there are separators, and no piece
      holds a separator. */
  lemma {:induction false} SplitSpec(s: string, sep: char)
    ensures var parts := Split(s, sep);
      |parts| == Count(s, sep) + 1 && forall i :: 0 <= i < |parts| ==> sep !in parts[i]
  {
    if s != [] {
      SplitSpec(s[1..], sep);
      var rest := Split(s[1..], sep);
      if s[0] != sep {
        assert forall i :: 1 <= i < |rest| ==> sep !in rest[i];
      }
    }
  }

  /** `sep.join(parts)`. */
  function Join(parts: seq<string>, sep: char): string
  {
    if |parts| == 0 then []
    else if |parts| == 1 then parts[0]
    else parts[0] + [sep] + Join(parts[1..], sep)
  }

  /** Joining the pieces of a split gives back the original text. */
  lemma {:induction false} JoinSplit(s: string, sep: char)
    ensures Join(Split(s, sep), sep) == s
  {
    if s != [] {
      var rest := Split(s[1..], sep);
      JoinSplit(s[1..], sep);
      if s[0] == sep {
        assert Split(s, sep) == [[]] + rest;
        assert ([[]] + rest)[1..] == rest;
      } else {
        var parts := Split(s, sep);
        assert parts == [[s[0]] + rest[0]] + rest[1..];
        if |rest| > 1 {
          assert parts[1..] == rest[1..];
          assert Join(rest, sep) == rest[0] + [sep] + Join(rest[1..], sep);
        }
      }
    }
  }

  /** A piece without separators splits into itself. */
  lemma {:induction false} SplitNoSeparator(p: string, sep: char)
    requires sep !in p
    ensures Split(p, sep) == [p]
  {
    if p != [] {
      SplitNoSeparator(p[1..], sep);
      assert [p[0]] + p[1..] == p;
    }
  }

  /** Splitting `p + sep + t` peels off `p` when `p` holds no separator. */
  lemma {:induction false} SplitAfterPiece(p: string, t: string, sep: char)
    requires sep !in p
    ensures Split(p + [sep] + t, sep) == [p] + Split(t, sep)
  {
    var s := p + [sep] + t;
    if p == [] {
      assert s[1..] == t;
    } else {
      assert s[1..] == p[1..] + [sep] + t;
      SplitAfterPiece(p[1..], t, sep);
      assert [p[0]] + p[1..] == p;
    }
  }

  // ---------------------------------------------------------------------------
  // lower-casing (ASCII, as `str.lower` on byte strings)

  predicate IsUpper(c: char)
  {
    'A' <= c <= 'Z'
  }

  function LowerChar(c: char): char
  {
    if IsUpper(c) then (c as int - 'A' as int + 'a' as int) as char else c
  }

  /** `s.lower()`. */
  function Lower(s: string): string
  {
    if s == [] then [] else [LowerChar(s[0])] + Lower(s[1..])
  }

  /** Lower-casing keeps the length, leaves no upper-case letter, keeps
      every other character and shifts each upper-case one by 32. */
  lemma {:induction false} LowerSpec(s: string)
    ensures var r := Lower(s);
      && |r| == |s|
      && (forall i :: 0 <= i < |r| ==> !IsUpper(r[i]))
      && (forall i :: 0 <= i < |r| && !IsUpper(s[i]) ==> r[i] == s[i])
      && (forall i :: 0 <= i < |r| && IsUpper(s[i]) ==> r[i] as int == s[i] as int + 32)
  {
    if s != [] {
      LowerSpec(s[1..]);
    }
  }

  // ---------------------------------------------------------------------------
  // base names

  /** Path separators of Windows paths. */
  predicate IsSeparator(c: char)
  {
    c == '\\' || c == '/'
  }

  /** `os.path.basename(p)`. */
  function BaseName(p: string): string
  {
    if p == [] || IsSeparator(p[|p| - 1]) then []
    else BaseName(p[..|p| - 1]) + [p[|p| - 1]]
  }

  /** The base name is the longest suffix of the path without a
      separator. */
  lemma {:induction false} BaseNameSpec(p: string)
    ensures var b := BaseName(p);
      && |b| <= |p| && b == p[|p| - |b|..]
      && (forall i :: 0 <= i < |b| ==> !IsSeparator(b[i]))
      && (|b| == |p| || IsSeparator(p[|p| - |b| - 1]))
  {
    if p != [] && !IsSeparator(p[|p| - 1]) {
      BaseNameSpec(p[..|p| - 1]);
    }
  }

  // ---------------------------------------------------------------------------
  // numerals

  predicate IsHexDigit(c: char)
  {
    '0' <= c <= '9' || 'a' <= c <= 'f' || 'A' <= c <= 'F'
  }

  function DigitValue(c: char): (d: nat)
    requires IsHexDigit(c)
    ensures d < 16
  {
    if '0' <= c <= '9' then c as int - '0' as int
    else if 'a' <= c <= 'f' then c as int - 'a' as int + 10
    else c as int - 'A' as int + 10
  }

  /** Every character is a digit of the given base. */
  predicate IsDigits(s: string, base: nat)
  {
    forall i :: 0 <= i < |s| ==> IsHexDigit(s[i]) && DigitValue(s[i]) < base
  }

  /** The value of a digit string, most significant digit first. */
  function Value(s: string, base: nat): nat
    requires IsDigits(s, base)
  {
    if s == [] then 0 else Value(s[..|s| - 1], base) * base + DigitValue(s[|s| - 1])
  }

  /** The lower-case digit of value `d`, as `"%x"` writes it. */
  function DigitChar(d: nat): (c: char)
    requires d < 16
    ensures IsHexDigit(c) && DigitValue(c) == d
    ensures c != 'x' && c != 'X'
  {
    "0123456789abcdef"[d]
  }

  /** The numeral of `n` in `base`, without leading zeros (`"%d"`, `"%x"`). */
  function Numeral(n: nat, base: nat): (s: string)
    requires 2 <= base <= 16
    ensures |s| >= 1 && IsDigits(s, base)
    ensures |s| > 1 ==> s[0] != '0'
    decreases n
  {
    QuotientFacts(n, base);
    if n < base then [DigitChar(n)] else Numeral(n / base, base) + [DigitChar(n % base)]
  }

  /** Dividing by a base of at least 2: the quotient of a number not below
      the base is positive and smaller, and the remainder is a digit. */
  lemma QuotientFacts(n: nat, base: nat)
    requires 2 <= base
    ensures n % base < base
    ensures n >= base ==> 1 <= n / base < n
  {
  }

  /** Reading a numeral back gives the number that was written. */
  lemma {:induction false} NumeralRoundTrip(n: nat, base: nat)
    requires 2 <= base <= 16
    ensures Value(Numeral(n, base), base) == n
    decreases n
  {
    if n < base {
      NumeralDigit(n, base);
    } else {
      var q, d := DivMod(n, base);
      NumeralRoundTrip(q, base);
      NumeralStep(n, base, q, d);
    }
  }

  lemma NumeralDigit(n: nat, base: nat)
    requires 2 <= base <= 16 && n < base
    ensures Value(Numeral(n, base), base) == n
  {
    var s := Numeral(n, base);
    assert s == [DigitChar(n)];
    assert s[..0] == [];
    assert Value(s[..0], base) == 0;
    assert Value(s, base) == 0 * base + DigitValue(s[0]);
  }

  lemma NumeralStep(n: nat, base: nat, q: nat, d: nat)
    requires 2 <= base <= 16 && n >= base && q == n / base && d == n % base && d < base
    requires n == q * base + d
    requires Value(Numeral(q, base), base) == q
    ensures Value(Numeral(n, base), base) == n
  {
    var s := Numeral(q, base);
    var c := DigitChar(d);
    assert Numeral(n, base) == s + [c];
    ValueAppend(s, c, base);
  }

  lemma DivMod(n: nat, base: nat) returns (q: nat, d: nat)
    requires 2 <= base
    ensures q == n / base && d == n % base
    ensures n == q * base + d && d < base
    ensures n >= base ==> q < n
  {
    q, d := n / base, n % base;
  }

  lemma ValueAppend(s: string, c: char, base: nat)
    requires IsDigits(s, base) && IsHexDigit(c) && DigitValue(c) < base
    ensures IsDigits(s + [c], base)
    ensures Value(s + [c], base) == Value(s, base) * base + DigitValue(c)
  {
    assert (s + [c])[..|s|] == s;
  }

  function DecString(n: nat): string
  {
    Numeral(n, 10)
  }

  function HexString(n: nat): string
  {
    Numeral(n, 16)
  }

  /** `int(s)` accepts a non-empty run of decimal digits. */
  predicate IsDec(s: string)
  {
    |s| > 0 && IsDigits(s, 10)
  }

  function ParseDec(s: string): nat
    requires IsDec(s)
  {
    Value(s, 10)
  }

  /** `int(s, 16)` accepts an optional `0x`/`0X` prefix. */
  predicate HasHexPrefix(s: string)
  {
    |s| >= 2 && s[0] == '0' && (s[1] == 'x' || s[1] == 'X')
  }

  function HexDigitsOf(s: string): string
  {
    if HasHexPrefix(s) then s[2..] else s
  }

  /** `int(s, 16)` accepts the prefix followed by a non-empty run of hex digits. */
  predicate IsHex(s: string)
  {
    |HexDigitsOf(s)| > 0 && IsDigits(HexDigitsOf(s), 16)
  }

  function ParseHex(s: string): nat
    requires IsHex(s)
  {
    Value(HexDigitsOf(s), 16)
  }

  /** `"0x%x" % n` is accepted by `int(_, 16)` and read back as `n`; so is
      the bare `"%x" % n`. */
  lemma HexRoundTrip(n: nat)
    ensures IsHex("0x" + HexString(n)) && ParseHex("0x" + HexString(n)) == n
    ensures IsHex(HexString(n)) && ParseHex(HexString(n)) == n
  {
    var h := HexString(n);
    assert ("0x" + h)[2..] == h;
    NumeralRoundTrip(n, 16);
    assert !HasHexPrefix(h) by {
      if |h| >= 2 { assert IsHexDigit(h[1]) && DigitValue(h[1]) < 16; }
    }
  }

  /** `"%d" % n` is accepted by `int` and read back as `n`. */
  lemma DecRoundTrip(n: nat)
    ensures IsDec(DecString(n)) && ParseDec(DecString(n)) == n
  {
    NumeralRoundTrip(n, 10);
  }
}
