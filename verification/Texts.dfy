/** Text as several parsers see it. */
module Texts {

  predicate IsSpace(c: char) {
    var n := c as int;
    9 <= n <= 13 || n == 32 || n == 0x85 || n == 0xA0 || n == 0x1680 || 0x2000 <= n <= 0x200A
    || n == 0x2028 || n == 0x2029 || n == 0x202F || n == 0x205F || n == 0x3000
  }

  function TrimSpace(s: string): string {
    if s == "" then ""
    else if IsSpace(s[0]) then TrimSpace(s[1..])
    else if IsSpace(s[|s| - 1]) then TrimSpace(s[..|s| - 1])
    else s
  }

  predicate AllSpaces(s: string) { forall i :: 0 <= i < |s| ==> IsSpace(s[i]) }

  /** Nothing to trim: empty, or no space at either end. */
  predicate Tight(s: string) { s == "" || (!IsSpace(s[0]) && !IsSpace(s[|s| - 1])) }

  lemma AsciiSpaces(c: char)
    requires c as int < 128
    ensures IsSpace(c) <==> c in "\t\n\U{B}\U{C}\r "
  {
    assert c in "\t\n\U{B}\U{C}\r " <==> c == '\t' || c == '\n' || c as int == 11 || c as int == 12 || c == '\r' || c == ' ';
  }

  /** Trimming takes the spaces off both ends and leaves the rest. */
  lemma {:induction false} TrimSpaceLaw(before: string, s: string, after: string)
    requires AllSpaces(before) && AllSpaces(after) && Tight(s)
    ensures TrimSpace(before + s + after) == s
    decreases |after|, |before|
  {
    var t := before + s + after;
    if before != "" {
      assert t[0] == before[0] && t[1..] == before[1..] + s + after;
      TrimSpaceLaw(before[1..], s, after);
    } else if after != "" {
      if s == "" {
        assert t == after + s + "";
        TrimSpaceLaw(after, s, "");
      } else {
        assert t[|t| - 1] == after[|after| - 1] && t[..|t| - 1] == before + s + after[..|after| - 1] && t[0] == s[0];
        TrimSpaceLaw(before, s, after[..|after| - 1]);
      }
    } else {
      assert t == s;
    }
  }

  /** The parts between the separators; one part, perhaps empty, if there is no separator. */
  function SplitAt(s: string, sep: char): (parts: seq<string>)
    ensures parts != []
  {
    if s == "" then [""]
    else
      var rest := SplitAt(s[1..], sep);
      if s[0] == sep then [""] + rest else [[s[0]] + rest[0]] + rest[1..]
  }

  function JoinWith(parts: seq<string>, sep: char): string {
    if parts == [] then "" else if |parts| == 1 then parts[0] else parts[0] + [sep] + JoinWith(parts[1..], sep)
  }

  lemma {:induction false} SplitWhole(s: string, sep: char)
    requires sep !in s
    ensures SplitAt(s, sep) == [s]
  {
    if s != "" {
      SplitWhole(s[1..], sep);
      assert [s[0]] + s[1..] == s;
    }
  }

  lemma {:induction false} SplitFirst(s: string, sep: char, rest: string)
    requires sep !in s
    ensures SplitAt(s + [sep] + rest, sep) == [s] + SplitAt(rest, sep)
  {
    var t := s + [sep] + rest;
    if s == "" {
      assert t[0] == sep && t[1..] == rest;
    } else {
      SplitFirst(s[1..], sep, rest);
      assert t[0] == s[0] && t[1..] == s[1..] + [sep] + rest;
      assert [s[0]] + s[1..] == s;
      assert ([s[1..]] + SplitAt(rest, sep))[1..] == SplitAt(rest, sep);
    }
  }

  /** Splitting undoes joining for parts without the separator. */
  lemma {:induction false} SplitJoined(parts: seq<string>, sep: char)
    requires parts != [] && forall i :: 0 <= i < |parts| ==> sep !in parts[i]
    ensures SplitAt(JoinWith(parts, sep), sep) == parts
  {
    if |parts| == 1 {
      SplitWhole(parts[0], sep);
      assert parts == [parts[0]];
    } else {
      var rest := parts[1..];
      SplitJoined(rest, sep);
      SplitFirst(parts[0], sep, JoinWith(rest, sep));
      assert parts == [parts[0]] + rest;
    }
  }

  // ---- Decimal numbers ----

  function Decimal(n: nat): string {
    if n < 10 then [('0' as int + n) as char] else Decimal(n / 10) + [('0' as int + n % 10) as char]
  }

  lemma {:induction false} DecimalHasNoDash(n: nat)
    ensures |Decimal(n)| > 0 && '-' !in Decimal(n)
  {
    if n >= 10 { DecimalHasNoDash(n / 10); }
  }

  lemma {:induction false} DecimalInjective(m: nat, n: nat)
    requires Decimal(m) == Decimal(n)
    ensures m == n
  {
    DecimalHasNoDash(m / 10);
    DecimalHasNoDash(n / 10);
    var s, t := Decimal(m), Decimal(n);
    assert s[|s| - 1] == t[|t| - 1];
    if m >= 10 && n >= 10 {
      assert s[..|s| - 1] == Decimal(m / 10) && t[..|t| - 1] == Decimal(n / 10);
      DecimalInjective(m / 10, n / 10);
    }
  }
}
