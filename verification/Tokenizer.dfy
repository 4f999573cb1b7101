/** The quote-aware command tokenizer. */
module Tokenizer {
  import opened Options
  import opened ByteStrings

  const SINGLE: Byte := 0x27
  const DOUBLE: Byte := 0x22
  const SPACE: Byte := 0x20

  predicate Blank(c: Byte) { c == 0x20 || c == 0x09 || c == 0x0A || c == 0x0D }

  /** "/bin/true", the command for a blank line. */
  const BIN_TRUE: Bytes := [0x2F, 0x62, 0x69, 0x6E, 0x2F, 0x74, 0x72, 0x75, 0x65]

  /** The loop's variables: the open quote, the token being built, the finished tokens. */
  datatype Scan = Scan(quote: Option<Byte>, current: Bytes, tokens: seq<Bytes>)

  const Start := Scan(None, [], [])

  /** A byte is written as a code point: one byte up to 127, two above. */
  function Rune(c: Byte): Bytes { if c < 128 then [c] else [0xC0 + c / 64, 0x80 + c % 64] }

  function Flush(st: Scan): Scan {
    if st.current != [] then st.(tokens := st.tokens + [st.current], current := []) else st
  }

  function Feed(st: Scan, c: Byte): Scan {
    if st.quote.Some? then
      if c == st.quote.value then st.(quote := None) else st.(current := st.current + Rune(c))
    else if c == SINGLE || c == DOUBLE then st.(quote := Some(c))
    else if Blank(c) then Flush(st)
    else st.(current := st.current + Rune(c))
  }

  function FeedAll(st: Scan, cmd: Bytes): Scan {
    if cmd == [] then st else Feed(FeedAll(st, cmd[..|cmd| - 1]), cmd[|cmd| - 1])
  }

  /** The tokens found, none for a blank command. */
  function Found(cmd: Bytes): seq<Bytes> { Flush(FeedAll(Start, cmd)).tokens }

  function Split(cmd: Bytes): seq<Bytes> { if Found(cmd) == [] then [BIN_TRUE] else Found(cmd) }

  method SplitCommand(cmd: Bytes) returns (tokens: seq<Bytes>)
    ensures tokens == Split(cmd)
    ensures tokens != [] && forall t :: t in tokens ==> t != []
  {
    tokens := [];
    var current: Bytes := [];
    var inQuote: Option<Byte> := None;
    for i := 0 to |cmd|
      invariant Scan(inQuote, current, tokens) == FeedAll(Start, cmd[..i])
      invariant forall t :: t in tokens ==> t != []
    {
      var ch := cmd[i];
      assert cmd[..i + 1][..i] == cmd[..i];
      if inQuote.Some? {
        if ch == inQuote.value {
          inQuote := None;
        } else {
          current := current + Rune(ch);
        }
        continue;
      }
      if ch == SINGLE || ch == DOUBLE {
        inQuote := Some(ch);
      } else if Blank(ch) {
        if |current| > 0 {
          tokens := tokens + [current];
          current := [];
        }
      } else {
        current := current + Rune(ch);
      }
    }
    assert cmd[..|cmd|] == cmd;
    if |current| > 0 {
      tokens := tokens + [current];
    }
    if |tokens| == 0 {
      tokens := [BIN_TRUE];
    }
  }

  lemma {:induction false} FeedAppend(st: Scan, a: Bytes, b: Bytes)
    ensures FeedAll(st, a + b) == FeedAll(FeedAll(st, a), b)
  {
    if b == [] {
      assert a + b == a;
    } else {
      FeedAppend(st, a, b[..|b| - 1]);
      assert (a + b)[..|a + b| - 1] == a + b[..|b| - 1];
    }
  }

  /** Tokens already finished do not influence the rest of the scan. */
  lemma {:induction false} FeedAfter(done: seq<Bytes>, st: Scan, cmd: Bytes)
    ensures FeedAll(st.(tokens := done + st.tokens), cmd) == FeedAll(st, cmd).(tokens := done + FeedAll(st, cmd).tokens)
  {
    if cmd != [] {
      FeedAfter(done, st, cmd[..|cmd| - 1]);
      var m := FeedAll(st, cmd[..|cmd| - 1]);
      assert done + (m.tokens + [m.current]) == (done + m.tokens) + [m.current];
    }
  }

  /** Where the scan is left after `cmd`: every quote closed. */
  predicate Balanced(cmd: Bytes) { FeedAll(Start, cmd).quote.None? }

  /** A blank outside quotes separates: the two sides are tokenized on their own. */
  lemma FoundDistributes(a: Bytes, blank: Byte, b: Bytes)
    requires Balanced(a) && Blank(blank)
    ensures Found(a + [blank] + b) == Found(a) + Found(b)
  {
    var sa := FeedAll(Start, a);
    FeedAppend(Start, a, [blank]);
    FeedAppend(Start, a + [blank], b);
    assert FeedAll(sa, [blank]) == Feed(FeedAll(sa, []), blank);
    var done := Flush(sa).tokens;
    assert Flush(sa) == Start.(tokens := done + Start.tokens);
    FeedAfter(done, Start, b);
    var sb := FeedAll(Start, b);
    assert done + (sb.tokens + [sb.current]) == (done + sb.tokens) + [sb.current];
  }

  lemma SplitDistributes(a: Bytes, blank: Byte, b: Bytes)
    requires Balanced(a) && Blank(blank) && Found(a) != [] && Found(b) != []
    ensures Split(a + [blank] + b) == Split(a) + Split(b)
  {
    FoundDistributes(a, blank, b);
  }

  // ---- Words ----

  /** The bytes that mean something to the tokenizer. */
  lemma Alphabet(c: Byte)
    ensures Blank(c) <==> c as char in " \t\n\r"
    ensures SINGLE as char == '\'' && DOUBLE as char == '\"' && SPACE as char == ' '
    ensures |BIN_TRUE| == |"/bin/true"| && forall i :: 0 <= i < |BIN_TRUE| ==> BIN_TRUE[i] as char == "/bin/true"[i]
  {
    assert c as char in " \t\n\r" <==> c as char == ' ' || c as char == '\t' || c as char == '\n' || c as char == '\r';
  }

  /** No blank and no quote. */
  predicate Bare(w: Bytes) { forall i :: 0 <= i < |w| ==> !Blank(w[i]) && w[i] != SINGLE && w[i] != DOUBLE }

  lemma {:induction false} FeedBare(st: Scan, w: Bytes)
    requires st.quote.None? && Bare(w)
    ensures FeedAll(st, w) == st.(current := st.current + Recode(w))
  {
    if w == [] {
      assert st.current + [] == st.current;
    } else {
      var front, c := w[..|w| - 1], w[|w| - 1];
      FeedBare(st, front);
      assert st.current + (Recode(front) + Rune(c)) == (st.current + Recode(front)) + Rune(c);
    }
  }

  /** Outside quotes a run of bytes without blanks is one token. */
  lemma WordIsToken(w: Bytes)
    requires w != [] && Bare(w)
    ensures Found(w) == [Recode(w)] && Balanced(w)
  {
    FeedBare(Start, w);
    RecodeSize(w);
    assert [] + Recode(w) == Recode(w);
  }

  predicate Gap(g: Bytes) { forall i :: 0 <= i < |g| ==> Blank(g[i]) }

  lemma {:induction false} LeadingBlanks(g: Bytes, b: Bytes)
    requires Gap(g)
    ensures Found(g + b) == Found(b)
  {
    if g == [] {
      assert g + b == b;
    } else {
      LeadingBlanks(g[1..], b);
      FoundDistributes([], g[0], g[1..] + b);
      assert [] + [g[0]] + (g[1..] + b) == g + b;
    }
  }

  /** A run of blanks outside quotes separates as one blank does. */
  lemma GapSeparates(a: Bytes, g: Bytes, b: Bytes)
    requires Balanced(a) && g != [] && Gap(g)
    ensures Found(a + g + b) == Found(a) + Found(b)
  {
    FoundDistributes(a, g[0], g[1..] + b);
    LeadingBlanks(g[1..], b);
    assert a + [g[0]] + (g[1..] + b) == a + g + b;
  }

  /** The words of a list with a gap in front of each but the first. */
  function Line(ts: seq<Bytes>, gap: nat -> Bytes): Bytes {
    if ts == [] then [] else if |ts| == 1 then ts[0] else ts[0] + gap(|ts| - 1) + Line(ts[1..], gap)
  }

  /** A line of bare ASCII words with any blanks between them is read back as the list of its words. */
  lemma {:induction false} LineRoundTrip(ts: seq<Bytes>, gap: nat -> Bytes)
    requires Plain(ts) && forall i :: 0 <= i < |ts| ==> Bare(ts[i])
    requires forall i :: gap(i) != [] && Gap(gap(i))
    ensures Found(Line(ts, gap)) == ts
    ensures ts != [] ==> Split(Line(ts, gap)) == ts
  {
    if ts != [] {
      WordIsToken(ts[0]);
      RecodeSize(ts[0]);
      if |ts| > 1 {
        LineRoundTrip(ts[1..], gap);
        GapSeparates(ts[0], gap(|ts| - 1), Line(ts[1..], gap));
      }
      assert ts == [ts[0]] + ts[1..];
    }
  }

  /** Only blanks: nothing is found, and the command is "/bin/true". */
  lemma BlankLine(g: Bytes)
    requires Gap(g)
    ensures Found(g) == [] && Split(g) == [BIN_TRUE]
  {
    LeadingBlanks(g, []);
    assert g + [] == g;
  }

  /** A quoted part inside a word belongs to the word's token, blanks included. */
  lemma QuoteInsideWord(w: Bytes, q: Byte, t: Bytes, v: Bytes)
    requires Bare(w) && Bare(v) && (q == SINGLE || q == DOUBLE) && q !in t && (w != [] || t != [] || v != [])
    ensures Found(w + [q] + t + [q] + v) == [Recode(w) + Recode(t) + Recode(v)] && Balanced(w + [q] + t + [q] + v)
  {
    var s1 := Scan(Some(q), Recode(w) + Recode(t), []);
    OpenQuote(w, q, t);
    FeedAppend(Start, w + [q] + t, [q]);
    FeedAppend(Start, w + [q] + t + [q], v);
    assert FeedAll(s1, [q]) == Feed(FeedAll(s1, []), q);
    FeedBare(s1.(quote := None), v);
    RecodeSize(w);
    RecodeSize(t);
    RecodeSize(v);
  }

  lemma OpenQuote(w: Bytes, q: Byte, t: Bytes)
    requires Bare(w) && (q == SINGLE || q == DOUBLE) && q !in t
    ensures FeedAll(Start, w + [q] + t) == Scan(Some(q), Recode(w) + Recode(t), [])
  {
    var s0 := Scan(None, Recode(w), []);
    FeedBare(Start, w);
    assert [] + Recode(w) == Recode(w);
    FeedAppend(Start, w, [q]);
    assert FeedAll(s0, [q]) == Feed(FeedAll(s0, []), q);
    FeedAppend(Start, w + [q], t);
    FeedQuoted(s0.(quote := Some(q)), t);
  }

  /** A quote never closed takes in the rest of the command. */
  lemma UnclosedQuote(w: Bytes, q: Byte, t: Bytes)
    requires Bare(w) && (q == SINGLE || q == DOUBLE) && q !in t && (w != [] || t != [])
    ensures Found(w + [q] + t) == [Recode(w) + Recode(t)] && !Balanced(w + [q] + t)
  {
    OpenQuote(w, q, t);
    RecodeSize(w);
    RecodeSize(t);
  }

  // ---- Quoting ----

  /** Which quote is written around a token. */
  type Style = Bytes -> Byte

  ghost predicate Quotable(q: Style, t: Bytes) { (q(t) == SINGLE || q(t) == DOUBLE) && q(t) !in t }

  function Quote(q: Style, t: Bytes): Bytes { [q(t)] + t + [q(t)] }

  function QuoteAll(q: Style, ts: seq<Bytes>): Bytes {
    if ts == [] then []
    else if |ts| == 1 then Quote(q, ts[0])
    else QuoteAll(q, ts[..|ts| - 1]) + [SPACE] + Quote(q, ts[|ts| - 1])
  }

  /** A token's bytes written one code point each. */
  function Recode(t: Bytes): Bytes { if t == [] then [] else Recode(t[..|t| - 1]) + Rune(t[|t| - 1]) }

  function NonEmptyRecoded(ts: seq<Bytes>): seq<Bytes> {
    if ts == [] then [] else NonEmptyRecoded(ts[..|ts| - 1]) + if ts[|ts| - 1] == [] then [] else [Recode(ts[|ts| - 1])]
  }

  predicate Ascii(t: Bytes) { forall i :: 0 <= i < |t| ==> t[i] < 128 }

  /** Recoding changes a token exactly when it has a byte above 127, and then makes it longer. */
  lemma {:induction false} RecodeSize(t: Bytes)
    ensures |Recode(t)| >= |t|
    ensures Recode(t) == t <==> Ascii(t)
  {
    if t != [] {
      var front, c := t[..|t| - 1], t[|t| - 1];
      RecodeSize(front);
      assert t == front + [c];
      if Ascii(t) {
        assert c in t && forall x :: x in front ==> x in t;
        assert Ascii(front);
      }
      if Recode(t) == t {
        assert |Recode(front)| + |Rune(c)| == |front| + 1;
        assert t[..|front|] == Recode(front);
        assert Ascii(front) && c < 128;
      }
    }
  }

  /** Reads code points below 256 back from their one or two bytes. */
  function Decoded(s: Bytes): Option<Bytes> {
    if s == [] then Some([])
    else if s[0] < 128 then Prepend(s[0], Decoded(s[1..]))
    else if |s| >= 2 && 0xC2 <= s[0] <= 0xC3 && 0x80 <= s[1] < 0xC0 then Prepend((s[0] - 0xC0) * 64 + (s[1] - 0x80), Decoded(s[2..]))
    else None
  }

  function Prepend(c: Byte, r: Option<Bytes>): Option<Bytes> { if r.None? then None else Some([c] + r.value) }

  lemma DecodedRune(c: Byte, rest: Bytes)
    ensures Decoded(Rune(c) + rest) == Prepend(c, Decoded(rest))
  {
    var s := Rune(c) + rest;
    assert c < 128 ==> s[1..] == rest;
    assert c >= 128 ==> s[2..] == rest && s[0] == 0xC0 + c / 64 && s[1] == 0x80 + c % 64;
  }

  lemma {:induction false} DecodedBefore(t: Bytes, rest: Bytes)
    requires Decoded(rest).Some?
    ensures Decoded(Recode(t) + rest) == Some(t + Decoded(rest).value)
  {
    if t == [] {
      assert Recode(t) + rest == rest && t + Decoded(rest).value == Decoded(rest).value;
    } else {
      var front, c := t[..|t| - 1], t[|t| - 1];
      DecodedRune(c, rest);
      DecodedBefore(front, Rune(c) + rest);
      Regroup(Recode(front), Rune(c), rest);
      Regroup(front, [c], Decoded(rest).value);
      assert front + [c] == t;
    }
  }

  lemma Regroup(a: Bytes, b: Bytes, c: Bytes)
    ensures (a + b) + c == a + (b + c)
  {
  }

  /** Recoding loses nothing: the bytes of a token can be read back. */
  lemma RecodeIsReversible(t: Bytes)
    ensures Decoded(Recode(t)) == Some(t)
  {
    DecodedBefore(t, []);
    assert Recode(t) + [] == Recode(t) && t + [] == t;
  }

  /** Inside quotes every other byte is taken as it is. */
  lemma {:induction false} FeedQuoted(st: Scan, t: Bytes)
    requires st.quote.Some? && st.quote.value !in t
    ensures FeedAll(st, t) == st.(current := st.current + Recode(t))
  {
    if t == [] {
      assert st.current + [] == st.current;
    } else {
      var front, c := t[..|t| - 1], t[|t| - 1];
      FeedQuoted(st, front);
      assert st.current + (Recode(front) + Rune(c)) == (st.current + Recode(front)) + Rune(c);
    }
  }

  lemma FeedQuote(q: Style, t: Bytes)
    requires Quotable(q, t)
    ensures FeedAll(Start, Quote(q, t)) == Scan(None, Recode(t), [])
  {
    var m := q(t);
    var s1 := Scan(Some(m), [], []);
    FeedAppend(Start, [m] + t, [m]);
    FeedAppend(Start, [m], t);
    assert FeedAll(Start, [m]) == Feed(FeedAll(Start, []), m) == s1;
    FeedQuoted(s1, t);
    var s2 := Scan(Some(m), Recode(t), []);
    assert [] + Recode(t) == Recode(t);
    assert FeedAll(s2, [m]) == Feed(FeedAll(s2, []), m);
  }

  /** Quoting a list and tokenizing it gives the non-empty tokens back, recoded. */
  lemma {:induction false} QuotedFound(q: Style, ts: seq<Bytes>)
    requires forall t :: t in ts ==> Quotable(q, t)
    ensures Found(QuoteAll(q, ts)) == NonEmptyRecoded(ts) && Balanced(QuoteAll(q, ts))
  {
    if ts != [] {
      var front, last := ts[..|ts| - 1], ts[|ts| - 1];
      QuotedOne(q, last);
      if |ts| > 1 {
        QuotedFound(q, front);
        FoundDistributes(QuoteAll(q, front), SPACE, Quote(q, last));
        QuotedBalanced(q, QuoteAll(q, front), last);
      } else {
        assert front == [];
      }
    }
  }

  lemma QuotedOne(q: Style, t: Bytes)
    requires Quotable(q, t)
    ensures Found(Quote(q, t)) == (if t == [] then [] else [Recode(t)]) && Balanced(Quote(q, t))
  {
    FeedQuote(q, t);
    RecodeSize(t);
  }

  lemma QuotedBalanced(q: Style, a: Bytes, t: Bytes)
    requires Balanced(a) && Quotable(q, t)
    ensures Balanced(a + [SPACE] + Quote(q, t))
  {
    var sa := FeedAll(Start, a);
    FeedAppend(Start, a, [SPACE]);
    FeedAppend(Start, a + [SPACE], Quote(q, t));
    assert FeedAll(sa, [SPACE]) == Feed(FeedAll(sa, []), SPACE);
    var done := Flush(sa).tokens;
    assert Flush(sa) == Start.(tokens := done + Start.tokens);
    FeedAfter(done, Start, Quote(q, t));
    FeedQuote(q, t);
  }

  predicate Plain(ts: seq<Bytes>) { forall i :: 0 <= i < |ts| ==> ts[i] != [] && Ascii(ts[i]) }

  lemma PlainFront(ts: seq<Bytes>)
    requires ts != []
    ensures Plain(ts) <==> Plain(ts[..|ts| - 1]) && ts[|ts| - 1] != [] && Ascii(ts[|ts| - 1])
  {
    var front, last := ts[..|ts| - 1], ts[|ts| - 1];
    assert forall i :: 0 <= i < |front| ==> front[i] == ts[i];
  }

  lemma SnocEqual(f: seq<Bytes>, x: Bytes, ts: seq<Bytes>)
    requires ts != []
    ensures f + [x] == ts <==> f == ts[..|ts| - 1] && x == ts[|ts| - 1]
  {
    if f + [x] == ts {
      assert f == (f + [x])[..|f|];
    }
  }

  lemma {:induction false} RecodedIsList(ts: seq<Bytes>)
    ensures |NonEmptyRecoded(ts)| <= |ts|
    ensures NonEmptyRecoded(ts) == ts <==> Plain(ts)
  {
    if |ts| > 0 {
      var front, last := ts[..|ts| - 1], ts[|ts| - 1];
      RecodedIsList(front);
      RecodeSize(last);
      PlainFront(ts);
      SnocEqual(NonEmptyRecoded(front), Recode(last), ts);
    }
  }

  /** Quoting each token, with either quote, and joining with spaces round-trips exactly the non-empty lists of non-empty
      ASCII tokens. */
  lemma QuoteRoundTrip(q: Style, ts: seq<Bytes>)
    requires forall t :: t in ts ==> Quotable(q, t)
    ensures Split(QuoteAll(q, ts)) == ts <==> ts != [] && Plain(ts)
  {
    QuotedFound(q, ts);
    RecodedIsList(ts);
    if ts == [BIN_TRUE] {
      assert Plain(ts);
    }
  }
}
