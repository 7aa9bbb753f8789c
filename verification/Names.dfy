/** Names of items: validation, extension splitting, and the " (n)" conflict counters. */
module Names {
  import opened Text

  const MAX_NAME_LEN := 512

  /** `_validate_name` and `_safe_filename`: trimmed, not empty, not too long, no separators. */
  function ValidName(name: string): Option<string> {
    var trimmed := Strip(name);
    if trimmed == "" || |trimmed| > MAX_NAME_LEN || '/' in trimmed || '\\' in trimmed || '\0' in trimmed
    then None else Some(trimmed)
  }

  /** `name.rfind(c)`, -1 when absent. */
  function LastIndexOf(name: string, c: char): (i: int)
    ensures -1 <= i < |name|
    ensures i >= 0 ==> name[i] == c && c !in name[i + 1..]
    ensures i < 0 ==> c !in name
  {
    if name == "" then -1
    else if name[|name| - 1] == c then |name| - 1
    else LastIndexOf(name[..|name| - 1], c)
  }

  /** `_split_name`: stem and extension; a leading dot starts no extension. */
  function SplitName(name: string): (parts: (string, string))
    ensures parts.0 + parts.1 == name
  {
    var i := LastIndexOf(name, '.');
    if i > 0 then (name[..i], name[i..]) else (name, "")
  }

  /** The `rpartition(".")` split of the archive: any dot starts an extension. */
  function SplitArchiveName(name: string): (parts: (string, string))
    ensures parts.0 + parts.1 == name
  {
    var i := LastIndexOf(name, '.');
    if i >= 0 then (name[..i], name[i..]) else (name, "")
  }

  /** `f"{stem} ({n}){ext}"` */
  function Numbered(stem: string, ext: string, n: nat): string {
    stem + " (" + Numeral(n) + ")" + ext
  }

  lemma NumberedInjective(stem: string, ext: string, m: nat, n: nat)
    requires Numbered(stem, ext, m) == Numbered(stem, ext, n)
    ensures m == n
  {
    var a, b := Numbered(stem, ext, m), Numbered(stem, ext, n);
    var from := |stem| + 2;
    assert a[from..from + |Numeral(m)|] == Numeral(m);
    assert b[from..from + |Numeral(n)|] == Numeral(n);
    assert |a| == from + |Numeral(m)| + 1 + |ext| && |b| == from + |Numeral(n)| + 1 + |ext|;
    NumeralInjective(m, n);
  }

  /** The counter names tried before `n`. */
  function Tried(stem: string, ext: string, n: nat): set<string> {
    set i: nat | 1 <= i < n :: Numbered(stem, ext, i)
  }

  lemma {:induction false} TriedSize(stem: string, ext: string, n: nat)
    requires n > 0
    ensures |Tried(stem, ext, n)| == n - 1
  {
    if n == 1 {
      assert Tried(stem, ext, 1) == {};
    } else {
      TriedSize(stem, ext, n - 1);
      if Numbered(stem, ext, n - 1) in Tried(stem, ext, n - 1) {
        var i: nat :| 1 <= i < n - 1 && Numbered(stem, ext, i) == Numbered(stem, ext, n - 1);
        NumberedInjective(stem, ext, i, n - 1);
      }
      assert Tried(stem, ext, n) == Tried(stem, ext, n - 1) + {Numbered(stem, ext, n - 1)};
    }
  }

  lemma SubsetSize(a: set<string>, b: set<string>)
    requires a <= b
    ensures |a| <= |b|
  {
    assert b == a + (b - a);
  }

  /** Among finitely many taken names some counter is free: `n` tries need `n` taken names. */
  lemma PigeonholeCounter(stem: string, ext: string, taken: set<string>, n: nat)
    requires n > 0 && Tried(stem, ext, n) <= taken
    ensures n - 1 <= |taken|
  {
    TriedSize(stem, ext, n);
    SubsetSize(Tried(stem, ext, n), taken);
  }

  /** The name a conflict loop settles on: the wanted one if free, else the one with the
      least free counter. */
  ghost predicate IsFreeName(taken: set<string>, wanted: string, stem: string, ext: string, name: string) {
    && name !in taken
    && (wanted !in taken ==> name == wanted)
    && (wanted in taken ==>
          exists n: nat :: n >= 1 && name == Numbered(stem, ext, n) && Tried(stem, ext, n) <= taken)
  }

  lemma FreeNameUnique(taken: set<string>, wanted: string, stem: string, ext: string, a: string, b: string)
    requires IsFreeName(taken, wanted, stem, ext, a) && IsFreeName(taken, wanted, stem, ext, b)
    ensures a == b
  {
    if wanted in taken {
      var m: nat :| m >= 1 && a == Numbered(stem, ext, m) && Tried(stem, ext, m) <= taken;
      var n: nat :| n >= 1 && b == Numbered(stem, ext, n) && Tried(stem, ext, n) <= taken;
      assert m < n ==> Numbered(stem, ext, m) in Tried(stem, ext, n);
      assert n < m ==> Numbered(stem, ext, n) in Tried(stem, ext, m);
    }
  }

  /** The least free counter from `n` on, found because only finitely many names are taken. */
  ghost function FirstFree(taken: set<string>, stem: string, ext: string, n: nat): (name: string)
    requires n > 0 && Tried(stem, ext, n) <= taken
    ensures name !in taken
    ensures exists m: nat :: m >= 1 && name == Numbered(stem, ext, m) && Tried(stem, ext, m) <= taken
    decreases |taken| + 1 - n
  {
    if Numbered(stem, ext, n) !in taken then Numbered(stem, ext, n)
    else
      assert Tried(stem, ext, n + 1) == Tried(stem, ext, n) + {Numbered(stem, ext, n)};
      PigeonholeCounter(stem, ext, taken, n + 1);
      FirstFree(taken, stem, ext, n + 1)
  }

  /** The outcome of the rename loops, as a function. */
  ghost function FreeName(taken: set<string>, wanted: string, stem: string, ext: string): (name: string)
    ensures IsFreeName(taken, wanted, stem, ext, name)
  {
    if wanted !in taken then wanted
    else
      assert Tried(stem, ext, 1) == {};
      FirstFree(taken, stem, ext, 1)
  }

  /** The `while name_exists: name = f"{stem} ({counter}){ext}"` loop of upload and restore. */
  method ResolveConflict(taken: set<string>, wanted: string, stem: string, ext: string) returns (name: string)
    ensures name == FreeName(taken, wanted, stem, ext)
  {
    name := wanted;
    var counter: nat := 1;
    assert Tried(stem, ext, 1) == {};
    while name in taken
      invariant counter >= 1
      invariant name == if counter == 1 then wanted else Numbered(stem, ext, counter - 1)
      invariant counter > 1 ==> wanted in taken && Tried(stem, ext, counter - 1) <= taken
      decreases |taken| + 2 - counter
    {
      if counter > 1 {
        assert Tried(stem, ext, counter) == Tried(stem, ext, counter - 1) + {name};
      }
      PigeonholeCounter(stem, ext, taken, counter);
      name := Numbered(stem, ext, counter);
      counter := counter + 1;
    }
    FreeNameUnique(taken, wanted, stem, ext, name, FreeName(taken, wanted, stem, ext));
  }
}
