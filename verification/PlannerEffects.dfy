/** What the static check looks at in a plan's text. */
module PlannerEffects {
  import opened Text
  import opened Json
  import opened References
  import opened Plans
  import opened Planner
  import opened ExecutionEffects

  /** A corrupted text holds a byte token: `<0x`, two hexadecimal digits, `>`. */
  ghost predicate Corrupted(s: string) {
    exists before: string, after: string, h: char, l: char :: Token(s, before, after, h, l)
  }

  predicate Token(s: string, before: string, after: string, h: char, l: char) {
    s == before + ['<', '0', 'x', h, l, '>'] + after && HexDigit(h) && HexDigit(l)
  }

  predicate HexDigit(c: char) {
    c in "0123456789abcdefABCDEF"
  }

  lemma HexIs(c: char)
    ensures IsHex(c) <==> HexDigit(c)
  {
    if IsHex(c) {
      var digits := "0123456789abcdefABCDEF";
      var i := if IsDigit(c) then c as int - '0' as int
               else if 'a' <= c <= 'f' then c as int - 'a' as int + 10 else c as int - 'A' as int + 16;
      assert digits[i] == c;
    }
  }

  lemma TokenAt(s: string, i: int)
    requires ByteTokenAt(s, i)
    ensures Token(s, s[..i], s[i + 6..], s[i + 3], s[i + 4])
  {
    HexIs(s[i + 3]);
    HexIs(s[i + 4]);
    hide IsHex, HexDigit;
    assert s[i..i + 6] == ['<', '0', 'x', s[i + 3], s[i + 4], '>'];
    assert s == s[..i] + s[i..i + 6] + s[i + 6..];
  }

  lemma TokenFound(s: string, before: string, after: string, h: char, l: char)
    requires Token(s, before, after, h, l)
    ensures ByteTokenAt(s, |before|)
  {
    HexIs(h);
    HexIs(l);
    hide IsHex, HexDigit;
    assert s[|before|..|before| + 6] == ['<', '0', 'x', h, l, '>'];
  }

  /** Rejected as corrupted are the texts with a byte token anywhere, and nothing else. */
  lemma CorruptedIs(v: Value)
    ensures HasByteTokens(v) <==> v.Str? && Corrupted(v.s)
  {
    hide IsHex, HexDigit, ByteTokenAt;
    if HasByteTokens(v) {
      var i :| 0 <= i < |v.s| && ByteTokenAt(v.s, i);
      TokenAt(v.s, i);
    }
    if v.Str? && Corrupted(v.s) {
      var before: string, after: string, h: char, l: char :| Token(v.s, before, after, h, l);
      TokenFound(v.s, before, after, h, l);
    }
  }

  /** The head of a path is its first segment, none when there is nothing but dots. */
  lemma HeadIs(part: string, rest: string)
    requires '.' !in part
    ensures PathHead("") == ""
    ensures PathHead(part) == part
    ensures PathHead(part + "." + rest) == if part == "" then PathHead(rest) else part
  {
    PartsOfNothing();
    PartsConcat(part, rest);
    if part != "" {
      PartsOfSegment(part);
    }
    hide Parts;
  }

  /** The heads of a list are `*` and the numbers of its elements. */
  lemma ListHeadIs(head: string, n: nat)
    ensures !HeadMismatch(ItemList, "*") && !HeadMismatch(ItemList, Numeral(n))
    ensures !HeadMismatch(ItemList, head) && head != "*" ==> ParseInt(head).Some? && ParseInt(head).value >= 0
  {
    NumeralDenotes(n);
    if IsIndex(head) {
      IndexParses(head);
    }
  }
}
