/** Strings as the service uses them: decimal numerals, Python's `int`, and dotted paths. */
module Text {

  datatype Option<+T> = None | Some(value: T)

  // ----- numerals -----

  function DigitChar(d: nat): char
    requires d < 10
  {
    '0' + d as char
  }

  predicate IsDigit(c: char) {
    '0' <= c <= '9'
  }

  /** The text of `str(n)` for a natural number. */
  function Numeral(n: nat): string {
    if n < 10 then [DigitChar(n)] else Numeral(n / 10) + [DigitChar(n % 10)]
  }

  /** The text of `str(n)` for any integer. */
  function IntText(n: int): string {
    if n < 0 then "-" + Numeral(-n) else Numeral(n)
  }

  /** The number a digit string denotes; underscores between digits are skipped. */
  function DigitsValue(s: string): nat {
    if s == [] then 0
    else if IsDigit(s[|s| - 1]) then 10 * DigitsValue(s[..|s| - 1]) + (s[|s| - 1] - '0') as nat
    else DigitsValue(s[..|s| - 1])
  }

  /** A digit, or an underscore between two. */
  predicate FitsAt(s: string, i: int)
    requires 0 <= i < |s|
  {
    IsDigit(s[i]) || (s[i] == '_' && 0 < i < |s| - 1 && IsDigit(s[i - 1]) && IsDigit(s[i + 1]))
  }

  /** Python's grammar for the digits of `int(text)`: single underscores only between digits. */
  predicate ValidDigits(s: string) {
    s != [] && forall i :: 0 <= i < |s| ==> FitsAt(s, i)
  }

  predicate IsSpace(c: char) {
    c == ' ' || '\t' <= c <= '\r' || 0x1c <= c as int <= 0x1f
  }

  function StripLeft(s: string): string {
    if s != [] && IsSpace(s[0]) then StripLeft(s[1..]) else s
  }

  function StripRight(s: string): string {
    if s != [] && IsSpace(s[|s| - 1]) then StripRight(s[..|s| - 1]) else s
  }

  function Strip(s: string): string {
    StripRight(StripLeft(s))
  }

  /** Python's `int(text)` on ASCII text; `None` is the `ValueError`. */
  function ParseInt(text: string): Option<int> {
    var s := Strip(text);
    if s != [] && (s[0] == '-' || s[0] == '+') then
      if ValidDigits(s[1..]) then
        Some(if s[0] == '-' then -(DigitsValue(s[1..]) as int) else DigitsValue(s[1..]) as int)
      else None
    else if ValidDigits(s) then Some(DigitsValue(s) as int)
    else None
  }

  lemma {:induction false} NumeralDenotes(n: nat)
    ensures Numeral(n) != []
    ensures forall i :: 0 <= i < |Numeral(n)| ==> IsDigit(Numeral(n)[i])
    ensures DigitsValue(Numeral(n)) == n
  {
    if n < 10 {
      assert Numeral(n)[..0] == [];
    } else {
      NumeralDenotes(n / 10);
      var s := Numeral(n);
      assert s[..|s| - 1] == Numeral(n / 10);
    }
  }

  /** Printing a natural number and reading it back with `int` gives the number. */
  lemma ParseNumeral(n: nat)
    ensures ParseInt(Numeral(n)) == Some(n as int)
  {
    NumeralDenotes(n);
    assert Strip(Numeral(n)) == Numeral(n);
  }

  lemma NumeralInjective(a: nat, b: nat)
    requires Numeral(a) == Numeral(b)
    ensures a == b
  {
    NumeralDenotes(a);
    NumeralDenotes(b);
  }

  lemma NumeralHasNo(n: nat, c: char)
    requires !IsDigit(c)
    ensures c !in Numeral(n)
  {
    NumeralDenotes(n);
  }

  // ----- splitting and joining -----

  /** Python's `s.split(sep)` for a one-character separator. */
  function Split(s: string, sep: char): (parts: seq<string>)
    ensures parts != []
    ensures forall i :: 0 <= i < |parts| ==> sep !in parts[i]
  {
    if s == [] then [""]
    else
      var rest := Split(s[1..], sep);
      if s[0] == sep then [""] + rest else [[s[0]] + rest[0]] + rest[1..]
  }

  /** Python's `sep.join(parts)` for a one-character separator. */
  function Join(parts: seq<string>, sep: char): string {
    if parts == [] then ""
    else if |parts| == 1 then parts[0]
    else parts[0] + [sep] + Join(parts[1..], sep)
  }

  function NonEmpty(parts: seq<string>): (kept: seq<string>)
    ensures forall i :: 0 <= i < |kept| ==> kept[i] != "" && kept[i] in parts
  {
    if parts == [] then []
    else if parts[0] == "" then NonEmpty(parts[1..])
    else [parts[0]] + NonEmpty(parts[1..])
  }

  predicate Segments(parts: seq<string>, sep: char) {
    forall i :: 0 <= i < |parts| ==> parts[i] != "" && sep !in parts[i]
  }

  /** The non-empty segments of a dotted path. */
  function Parts(path: string): (parts: seq<string>)
    ensures Segments(parts, '.')
  {
    NonEmpty(Split(path, '.'))
  }

  lemma {:induction false} SplitSegment(a: string, sep: char)
    requires sep !in a
    ensures Split(a, sep) == [a]
  {
    if a != [] {
      SplitSegment(a[1..], sep);
      assert [a[0]] + a[1..] == a;
    }
  }

  lemma {:induction false} SplitFirst(a: string, rest: string, sep: char)
    requires sep !in a
    ensures Split(a + [sep] + rest, sep) == [a] + Split(rest, sep)
  {
    if a == [] {
      assert ([] + [sep] + rest)[1..] == rest;
    } else {
      SplitFirst(a[1..], rest, sep);
      assert (a + [sep] + rest)[1..] == a[1..] + [sep] + rest;
      assert [a[0]] + a[1..] == a;
    }
  }

  /** Joining segments and splitting again gives the segments back. */
  lemma {:induction false} SplitJoin(parts: seq<string>, sep: char)
    requires parts != []
    requires forall i :: 0 <= i < |parts| ==> sep !in parts[i]
    ensures Split(Join(parts, sep), sep) == parts
  {
    if |parts| == 1 {
      SplitSegment(parts[0], sep);
    } else {
      SplitJoin(parts[1..], sep);
      SplitFirst(parts[0], Join(parts[1..], sep), sep);
    }
  }

  lemma {:induction false} NonEmptyKeepsSegments(parts: seq<string>)
    requires forall i :: 0 <= i < |parts| ==> parts[i] != ""
    ensures NonEmpty(parts) == parts
  {
    if parts != [] {
      NonEmptyKeepsSegments(parts[1..]);
    }
  }

  /** `Parts` undoes `".".join` on any list of proper segments, the empty one included. */
  lemma PartsJoin(parts: seq<string>)
    requires Segments(parts, '.')
    ensures Parts(Join(parts, '.')) == parts
  {
    if parts == [] {
      assert Split("", '.') == [""];
    } else {
      SplitJoin(parts, '.');
      NonEmptyKeepsSegments(parts);
    }
  }
}
