/** Sequences sorted by a total order, and byte strings in lexicographic order. */
module Sorting {
  import opened ByteStrings

  ghost predicate TotalOrder<T(!new)>(leq: (T, T) -> bool) {
    && (forall a, b :: leq(a, b) || leq(b, a))
    && (forall a, b :: leq(a, b) && leq(b, a) ==> a == b)
    && (forall a, b, c :: leq(a, b) && leq(b, c) ==> leq(a, c))
  }

  ghost predicate SortedBy<T>(leq: (T, T) -> bool, s: seq<T>) {
    forall i, j :: 0 <= i < j < |s| ==> leq(s[i], s[j])
  }

  lemma HeadIsLeast<T(!new)>(leq: (T, T) -> bool, a: seq<T>, b: seq<T>)
    requires TotalOrder(leq) && SortedBy(leq, a) && a != [] && b != [] && multiset(a) == multiset(b)
    ensures leq(a[0], b[0])
  {
    assert b[0] in multiset(a);
    var j :| 0 <= j < |a| && a[j] == b[0];
    assert leq(a[0], a[0]);
  }

  lemma TailOf<T>(a: seq<T>)
    requires a != []
    ensures multiset(a) == multiset{a[0]} + multiset(a[1..])
  {
    assert a == [a[0]] + a[1..];
  }

  lemma TailsAgree<T>(a: seq<T>, b: seq<T>)
    requires a != [] && b != [] && a[0] == b[0] && multiset(a) == multiset(b)
    ensures multiset(a[1..]) == multiset(b[1..])
  {
    TailOf(a);
    TailOf(b);
    assert multiset(a[1..]) == multiset(a) - multiset{a[0]};
  }

  /** A multiset has only one sorted arrangement. */
  lemma {:induction false} SortedUnique<T(!new)>(leq: (T, T) -> bool, a: seq<T>, b: seq<T>)
    requires TotalOrder(leq) && SortedBy(leq, a) && SortedBy(leq, b) && multiset(a) == multiset(b)
    ensures a == b
    decreases |a|
  {
    assert |multiset(a)| == |a| && |multiset(b)| == |b|;
    if a != [] {
      HeadIsLeast(leq, a, b);
      HeadIsLeast(leq, b, a);
      TailsAgree(a, b);
      SortedUnique(leq, a[1..], b[1..]);
      assert a == [a[0]] + a[1..] && b == [b[0]] + b[1..];
    }
  }

  /** Byte-wise comparison, as strings compare. */
  predicate Leq(a: Bytes, b: Bytes) {
    a == [] || (b != [] && (a[0] < b[0] || (a[0] == b[0] && Leq(a[1..], b[1..]))))
  }

  /** `a` is smaller at `i`, where they first differ. */
  predicate LessAt(a: Bytes, b: Bytes, i: nat) { i < |a| && i < |b| && a[..i] == b[..i] && a[i] < b[i] }

  lemma LessAtNext(a: Bytes, b: Bytes, i: nat)
    requires a != [] && b != [] && a[0] == b[0]
    ensures LessAt(a, b, i + 1) <==> LessAt(a[1..], b[1..], i)
  {
    if i < |a| - 1 && i < |b| - 1 {
      assert a[..i + 1] == [a[0]] + a[1..][..i] && b[..i + 1] == [b[0]] + b[1..][..i];
      assert a[1..][..i] == a[..i + 1][1..] && b[1..][..i] == b[..i + 1][1..];
    }
  }

  /** In byte order: a prefix, or smaller at the first byte that differs. */
  lemma {:induction false} LeqMeaning(a: Bytes, b: Bytes)
    ensures Leq(a, b) <==> a <= b || exists i: nat :: LessAt(a, b, i)
  {
    if a != [] && b != [] {
      if a[0] == b[0] {
        LeqMeaning(a[1..], b[1..]);
        if i: nat :| LessAt(a[1..], b[1..], i) { LessAtNext(a, b, i); }
        if i: nat :| LessAt(a, b, i) { LessAtNext(a, b, i - 1); }
        assert a == [a[0]] + a[1..] && b == [b[0]] + b[1..];
      } else {
        assert a[0] < b[0] ==> LessAt(a, b, 0);
        if i: nat :| LessAt(a, b, i) { assert i > 0 ==> a[..i][0] == b[..i][0]; }
      }
    }
  }

  lemma {:induction false} LeqTotal(a: Bytes, b: Bytes)
    ensures Leq(a, b) || Leq(b, a)
  {
    if a != [] && b != [] { LeqTotal(a[1..], b[1..]); }
  }

  lemma {:induction false} LeqAntisymmetric(a: Bytes, b: Bytes)
    requires Leq(a, b) && Leq(b, a)
    ensures a == b
  {
    if a != [] && b != [] {
      LeqAntisymmetric(a[1..], b[1..]);
      assert a == [a[0]] + a[1..] && b == [b[0]] + b[1..];
    }
  }

  lemma {:induction false} LeqTransitive(a: Bytes, b: Bytes, c: Bytes)
    requires Leq(a, b) && Leq(b, c)
    ensures Leq(a, c)
  {
    if a != [] && a[0] == b[0] == c[0] { LeqTransitive(a[1..], b[1..], c[1..]); }
  }

  lemma LeqIsTotalOrder()
    ensures TotalOrder(Leq)
  {
    forall a, b ensures Leq(a, b) || Leq(b, a) { LeqTotal(a, b); }
    forall a, b | Leq(a, b) && Leq(b, a) ensures a == b { LeqAntisymmetric(a, b); }
    forall a, b, c | Leq(a, b) && Leq(b, c) ensures Leq(a, c) { LeqTransitive(a, b, c); }
  }

  function Insert(x: Bytes, s: seq<Bytes>): seq<Bytes> {
    if s == [] then [x] else if Leq(x, s[0]) then [x] + s else [s[0]] + Insert(x, s[1..])
  }

  /** What sorting a string slice leaves in it. */
  function Sort(s: seq<Bytes>): seq<Bytes> {
    if s == [] then [] else Insert(s[0], Sort(s[1..]))
  }

  lemma {:induction false} InsertContents(x: Bytes, s: seq<Bytes>)
    ensures multiset(Insert(x, s)) == multiset(s) + multiset{x}
  {
    if s != [] && !Leq(x, s[0]) {
      InsertContents(x, s[1..]);
      TailOf(s);
    }
  }

  lemma {:induction false} InsertSorts(x: Bytes, s: seq<Bytes>)
    requires SortedBy(Leq, s)
    ensures SortedBy(Leq, Insert(x, s))
  {
    if s != [] {
      LeqTotal(x, s[0]);
      if Leq(x, s[0]) {
        forall i | 0 <= i < |s| ensures Leq(x, s[i]) {
          if i > 0 { LeqTransitive(x, s[0], s[i]); }
        }
      } else {
        InsertSorts(x, s[1..]);
        InsertContents(x, s[1..]);
        var t := Insert(x, s[1..]);
        forall i | 0 <= i < |t| ensures Leq(s[0], t[i]) {
          assert t[i] in multiset(t);
          assert t[i] != x ==> t[i] in s[1..];
        }
      }
    }
  }

  lemma {:induction false} SortSorts(s: seq<Bytes>)
    ensures SortedBy(Leq, Sort(s)) && multiset(Sort(s)) == multiset(s)
  {
    if s != [] {
      SortSorts(s[1..]);
      InsertSorts(s[0], Sort(s[1..]));
      InsertContents(s[0], Sort(s[1..]));
      TailOf(s);
    }
  }

  lemma SortDependsOnContents(a: seq<Bytes>, b: seq<Bytes>)
    requires multiset(a) == multiset(b)
    ensures Sort(a) == Sort(b)
  {
    SortSorts(a);
    SortSorts(b);
    LeqIsTotalOrder();
    SortedUnique(Leq, Sort(a), Sort(b));
  }
}

/** AWS Signature V4: percent-encoding and the canonical query string. */
module SigV4 {
  import opened Options
  import opened ByteStrings
  import opened Sorting

  const PERCENT: Byte := 0x25
  const AMP: Byte := 0x26
  const EQ: Byte := 0x3D

  // ---- Percent-encoding ----

  /** Letters, digits, '-', '_', '.', '~' (section 2.3 of RFC 3986). */
  predicate Unreserved(c: Byte) {
    0x41 <= c <= 0x5A || 0x61 <= c <= 0x7A || 0x30 <= c <= 0x39 || c == 0x2D || c == 0x5F || c == 0x2E || c == 0x7E
  }

  /** The alphabet written out. */
  lemma Alphabet(c: Byte)
    ensures Unreserved(c) <==>
              c as char in {'A', 'B', 'C', 'D', 'E', 'F', 'G', 'H', 'I', 'J', 'K', 'L', 'M', 'N', 'O', 'P', 'Q', 'R', 'S', 'T', 'U', 'V', 'W', 'X', 'Y', 'Z',
                            'a', 'b', 'c', 'd', 'e', 'f', 'g', 'h', 'i', 'j', 'k', 'l', 'm', 'n', 'o', 'p', 'q', 'r', 's', 't', 'u', 'v', 'w', 'x', 'y', 'z',
                            '0', '1', '2', '3', '4', '5', '6', '7', '8', '9', '-', '_', '.', '~'}
    ensures PERCENT as char == '%' && AMP as char == '&' && EQ as char == '='
  {
  }

  function HexDigit(n: int): Byte
    requires 0 <= n < 16
  {
    if n < 10 then 0x30 + n else 0x37 + n
  }

  function UnHex(c: Byte): Option<int> {
    if 0x30 <= c <= 0x39 then Some(c - 0x30) else if 0x41 <= c <= 0x46 then Some(c - 0x37) else None
  }

  function EncodeByte(c: Byte): Bytes {
    if Unreserved(c) then [c] else [PERCENT, HexDigit(c / 16), HexDigit(c % 16)]
  }

  function Encode(s: Bytes): Bytes {
    if s == [] then [] else EncodeByte(s[0]) + Encode(s[1..])
  }

  /** The percent-decoder of section 2.1 of RFC 3986, for uppercase digits. */
  function Decode(e: Bytes): Option<Bytes> {
    if e == [] then Some([])
    else if e[0] == PERCENT then
      if |e| < 3 || UnHex(e[1]).None? || UnHex(e[2]).None? then None
      else
        var rest := Decode(e[3..]);
        if rest.None? then None else Some([(UnHex(e[1]).value * 16 + UnHex(e[2]).value) as Byte] + rest.value)
    else
      var rest := Decode(e[1..]);
      if rest.None? then None else Some([e[0]] + rest.value)
  }

  lemma {:induction false} EncodeAppend(a: Bytes, b: Bytes)
    ensures Encode(a + b) == Encode(a) + Encode(b)
  {
    if a == [] {
      assert a + b == b;
    } else {
      EncodeAppend(a[1..], b);
      assert (a + b)[1..] == a[1..] + b && (a + b)[0] == a[0];
      var x, y, z := EncodeByte(a[0]), Encode(a[1..]), Encode(b);
      assert x + (y + z) == x + y + z;
    }
  }

  lemma EncodeSnoc(s: Bytes, i: nat)
    requires i < |s|
    ensures Encode(s[..i + 1]) == Encode(s[..i]) + EncodeByte(s[i])
  {
    EncodeAppend(s[..i], [s[i]]);
    assert s[..i + 1] == s[..i] + [s[i]];
    assert [s[i]][1..] == [];
    assert Encode([s[i]]) == EncodeByte(s[i]) + [];
  }

  method SigV4Encode(s: Bytes) returns (e: Bytes)
    ensures e == Encode(s)
  {
    e := [];
    for i := 0 to |s|
      invariant e == Encode(s[..i])
    {
      var c := s[i];
      EncodeSnoc(s, i);
      if Unreserved(c) {
        e := e + [c];
      } else {
        e := e + [PERCENT, HexDigit(c / 16), HexDigit(c % 16)];
      }
    }
    assert s[..|s|] == s;
  }

  /** Unreserved bytes stand for themselves, all others as a percent sign and two uppercase hexadecimal digits. */
  lemma EncodedByteIs(c: Byte)
    ensures Encode([c]) == if Unreserved(c) then [c] else [PERCENT, HexDigit(c / 16), HexDigit(c % 16)]
    ensures forall n :: 0 <= n < 16 ==> HexDigit(n) as char == "0123456789ABCDEF"[n]
  {
    assert [c][1..] == [];
    assert Encode([c]) == EncodeByte(c) + [];
  }

  lemma UnHexInverts(n: int)
    requires 0 <= n < 16
    ensures UnHex(HexDigit(n)) == Some(n)
  {
  }

  /** Decoding undoes encoding on every byte string. */
  lemma {:induction false} DecodeEncode(s: Bytes)
    ensures Decode(Encode(s)) == Some(s)
  {
    if s != [] {
      var c, e := s[0], Encode(s);
      DecodeEncode(s[1..]);
      UnHexInverts(c / 16);
      UnHexInverts(c % 16);
      assert s == [c] + s[1..];
      assert e[|EncodeByte(c)|..] == Encode(s[1..]);
    }
  }

  /** Encoded text uses only unreserved bytes and the percent sign, so never a separator. */
  lemma {:induction false} EncodedBytes(s: Bytes)
    ensures forall c :: c in Encode(s) ==> Unreserved(c) || c == PERCENT
    ensures AMP !in Encode(s) && EQ !in Encode(s)
  {
    if s != [] {
      EncodedBytes(s[1..]);
      assert forall n :: 0 <= n < 16 ==> Unreserved(HexDigit(n));
    }
  }

  // ---- The printer ----

  type Pair = (Bytes, Bytes)

  /** Decoded query parameters; a key may be present with no values. */
  type Values = map<Bytes, seq<Bytes>>

  function ValuesOf(v: Values, k: Bytes): seq<Bytes> { if k in v then v[k] else [] }

  function PairText(p: Pair): Bytes { Encode(p.0) + [EQ] + Encode(p.1) }

  function Join(parts: seq<Bytes>): Bytes {
    if parts == [] then [] else if |parts| == 1 then parts[0] else parts[0] + [AMP] + Join(parts[1..])
  }

  function Texts(ps: seq<Pair>): seq<Bytes> { seq(|ps|, i requires 0 <= i < |ps| => PairText(ps[i])) }

  function WithKey(k: Bytes, vs: seq<Bytes>): seq<Pair> { seq(|vs|, i requires 0 <= i < |vs| => (k, vs[i])) }

  function PairsOf(v: Values, keys: seq<Bytes>): seq<Pair> {
    if keys == [] then [] else PairsOf(v, keys[..|keys| - 1]) + WithKey(keys[|keys| - 1], Sort(ValuesOf(v, keys[|keys| - 1])))
  }

  /** Some listing of a set, each element once. */
  ghost function Listing(ks: set<Bytes>): (s: seq<Bytes>)
    ensures multiset(s) == multiset(ks)
  {
    if ks == {} then [] else var k :| k in ks; assert multiset(ks) == multiset(ks - {k}) + multiset{k}; Listing(ks - {k}) + [k]
  }

  /** The query's pairs in canonical order: by key, then by value. */
  ghost function Pairs(v: Values): seq<Pair> { PairsOf(v, Sort(Listing(v.Keys))) }

  ghost function Canonical(v: Values): Bytes { Join(Texts(Pairs(v))) }

  /** The map's keys in some order. */
  method ListKeys(v: Values) returns (keys: seq<Bytes>)
    ensures multiset(keys) == multiset(v.Keys)
  {
    keys := [];
    var left := v.Keys;
    while left != {}
      invariant left <= v.Keys && multiset(keys) == multiset(v.Keys - left)
      decreases left
    {
      var k :| k in left;
      assert v.Keys - (left - {k}) == (v.Keys - left) + {k};
      keys := keys + [k];
      left := left - {k};
    }
    assert v.Keys - left == v.Keys;
  }

  /** One key's lines, appended to those of the keys before it. */
  method AppendPairs(texts: seq<Bytes>, k: Bytes, vs: seq<Bytes>, ghost ps: seq<Pair>) returns (r: seq<Bytes>)
    requires texts == Texts(ps)
    ensures r == Texts(ps + WithKey(k, vs))
  {
    var ek := SigV4Encode(k);
    r := texts;
    for j := 0 to |vs|
      invariant r == Texts(ps + WithKey(k, vs[..j]))
    {
      var ev := SigV4Encode(vs[j]);
      r := r + [ek + [EQ] + ev];
      assert ps + WithKey(k, vs[..j + 1]) == ps + WithKey(k, vs[..j]) + [(k, vs[j])];
    }
    assert vs[..|vs|] == vs;
  }

  /** The lines of all keys, in order. */
  method AllPairs(v: Values, keys: seq<Bytes>) returns (texts: seq<Bytes>)
    ensures texts == Texts(PairsOf(v, keys))
  {
    texts := [];
    for i := 0 to |keys|
      invariant texts == Texts(PairsOf(v, keys[..i]))
    {
      assert keys[..i + 1][..i] == keys[..i] && keys[..i + 1][i] == keys[i];
      texts := AppendPairs(texts, keys[i], Sort(ValuesOf(v, keys[i])), PairsOf(v, keys[..i]));
    }
    assert keys[..|keys|] == keys;
  }

  method CanonicalQueryString(v: Values) returns (q: Bytes)
    ensures q == Canonical(v)
  {
    if |v| == 0 {
      assert v.Keys == {};
      return [];
    }
    var listed := ListKeys(v);
    SortDependsOnContents(listed, Listing(v.Keys));
    var texts := AllPairs(v, Sort(listed));
    q := Join(texts);
  }

  // ---- Reading it back ----

  function IndexOf(s: Bytes, c: Byte): nat {
    if s == [] || s[0] == c then 0 else 1 + IndexOf(s[1..], c)
  }

  function Split(s: Bytes): seq<Bytes> {
    var i := IndexOf(s, AMP);
    if i >= |s| then [s] else [s[..i]] + Split(s[i + 1..])
  }

  function ReadPair(t: Bytes): Option<Pair> {
    var i := IndexOf(t, EQ);
    if i >= |t| then None
    else
      var k, x := Decode(t[..i]), Decode(t[i + 1..]);
      if k.None? || x.None? then None else Some((k.value, x.value))
  }

  function ReadAll(ts: seq<Bytes>): Option<seq<Pair>> {
    if ts == [] then Some([])
    else
      var p, rest := ReadPair(ts[0]), ReadAll(ts[1..]);
      if p.None? || rest.None? then None else Some([p.value] + rest.value)
  }

  /** Splits at '&', then each part at its first '=', and decodes both sides. */
  function Read(q: Bytes): Option<seq<Pair>> { if q == [] then Some([]) else ReadAll(Split(q)) }

  lemma {:induction false} IndexOfSkips(s: Bytes, c: Byte, rest: Bytes)
    requires c !in s
    ensures IndexOf(s, c) == |s| && IndexOf(s + [c] + rest, c) == |s|
  {
    if s != [] {
      IndexOfSkips(s[1..], c, rest);
      assert (s + [c] + rest)[1..] == s[1..] + [c] + rest;
    }
  }

  lemma {:induction false} SplitJoin(parts: seq<Bytes>)
    requires parts != [] && forall p :: p in parts ==> AMP !in p
    ensures Split(Join(parts)) == parts
  {
    if |parts| == 1 {
      IndexOfSkips(parts[0], AMP, []);
    } else {
      var rest := Join(parts[1..]);
      IndexOfSkips(parts[0], AMP, rest);
      SplitJoin(parts[1..]);
      var q := Join(parts);
      assert q[..|parts[0]|] == parts[0] && q[|parts[0]| + 1..] == rest;
    }
  }

  lemma ReadPairText(p: Pair)
    ensures ReadPair(PairText(p)) == Some(p)
  {
    EncodedBytes(p.0);
    IndexOfSkips(Encode(p.0), EQ, Encode(p.1));
    var t := PairText(p);
    assert t[..|Encode(p.0)|] == Encode(p.0) && t[|Encode(p.0)| + 1..] == Encode(p.1);
    DecodeEncode(p.0);
    DecodeEncode(p.1);
  }

  lemma {:induction false} ReadAllTexts(ps: seq<Pair>)
    ensures ReadAll(Texts(ps)) == Some(ps)
  {
    if ps != [] {
      var ts := Texts(ps);
      ReadPairText(ps[0]);
      ReadAllTexts(ps[1..]);
      assert ts[0] == PairText(ps[0]) && ts[1..] == Texts(ps[1..]);
      ReadAllStep(ts, ps[0], ps[1..]);
      assert ps == [ps[0]] + ps[1..];
    }
  }

  lemma ReadAllStep(ts: seq<Bytes>, p: Pair, rest: seq<Pair>)
    requires ts != [] && ReadPair(ts[0]) == Some(p) && ReadAll(ts[1..]) == Some(rest)
    ensures ReadAll(ts) == Some([p] + rest)
  {
  }

  /** The canonical query string determines its list of pairs, order included. */
  lemma ReadCanonical(v: Values)
    ensures Read(Canonical(v)) == Some(Pairs(v))
  {
    var ps := Pairs(v);
    var ts := Texts(ps);
    if ps != [] {
      forall t | t in ts ensures AMP !in t {
        var i :| 0 <= i < |ts| && ts[i] == t;
        EncodedBytes(ps[i].0);
        EncodedBytes(ps[i].1);
      }
      assert ts[0] == PairText(ps[0]) && |ts[0]| > 0;
      SplitJoin(ts);
      ReadAllTexts(ps);
    }
  }

  // ---- What the pairs are ----

  predicate PairLeq(p: Pair, q: Pair) { if p.0 == q.0 then Leq(p.1, q.1) else Leq(p.0, q.0) }

  lemma PairLeqIsTotalOrder()
    ensures TotalOrder(PairLeq)
  {
    LeqIsTotalOrder();
  }

  ghost predicate Distinct(keys: seq<Bytes>) { forall i, j :: 0 <= i < j < |keys| ==> keys[i] != keys[j] }

  lemma DistinctFromSet(keys: seq<Bytes>, ks: set<Bytes>)
    requires multiset(keys) == multiset(ks)
    ensures Distinct(keys) && forall k :: k in keys <==> k in ks
  {
    assert forall k :: k in keys <==> k in multiset(keys);
    forall i, j | 0 <= i < j < |keys| ensures keys[i] != keys[j] {
      assert keys == keys[..j] + [keys[j]] + keys[j + 1..];
      assert keys[i] in keys[..j];
      assert multiset(keys)[keys[j]] <= 1;
    }
  }

  lemma SortedKeys(v: Values)
    ensures var keys := Sort(Listing(v.Keys)); SortedBy(Leq, keys) && Distinct(keys) && forall k :: k in keys <==> k in v
  {
    SortSorts(Listing(v.Keys));
    DistinctFromSet(Sort(Listing(v.Keys)), v.Keys);
  }

  lemma {:induction false} WithKeyCount(k: Bytes, vs: seq<Bytes>, p: Pair)
    ensures multiset(WithKey(k, vs))[p] == if p.0 == k then multiset(vs)[p.1] else 0
  {
    if vs != [] {
      var front, last := vs[..|vs| - 1], vs[|vs| - 1];
      WithKeyCount(k, front, p);
      assert vs == front + [last] && WithKey(k, vs) == WithKey(k, front) + [(k, last)];
    }
  }

  lemma {:induction false} PairsOfCount(v: Values, keys: seq<Bytes>, p: Pair)
    requires Distinct(keys)
    ensures multiset(PairsOf(v, keys))[p] == if p.0 in keys then multiset(ValuesOf(v, p.0))[p.1] else 0
  {
    if keys != [] {
      var front, k := keys[..|keys| - 1], keys[|keys| - 1];
      PairsOfCount(v, front, p);
      SortSorts(ValuesOf(v, k));
      WithKeyCount(k, Sort(ValuesOf(v, k)), p);
      assert keys == front + [k];
    }
  }

  /** Every pair occurs as often as its value is listed under its key. */
  lemma PairsCount(v: Values, p: Pair)
    ensures multiset(Pairs(v))[p] == multiset(ValuesOf(v, p.0))[p.1]
  {
    SortedKeys(v);
    PairsOfCount(v, Sort(Listing(v.Keys)), p);
  }

  lemma {:induction false} PairsOfSorted(v: Values, keys: seq<Bytes>)
    requires SortedBy(Leq, keys) && Distinct(keys)
    ensures SortedBy(PairLeq, PairsOf(v, keys)) && forall p :: p in PairsOf(v, keys) ==> p.0 in keys
  {
    if keys != [] {
      var front, k := keys[..|keys| - 1], keys[|keys| - 1];
      PairsOfSorted(v, front);
      SortSorts(ValuesOf(v, k));
      var a, b := PairsOf(v, front), WithKey(k, Sort(ValuesOf(v, k)));
      forall i, j | 0 <= i < j < |a + b| ensures PairLeq((a + b)[i], (a + b)[j]) {
        if i < |a| <= j {
          assert a[i] in a;
          assert a[i].0 in front;
        }
      }
    }
  }

  /** The pairs are sorted by key, then by value. */
  lemma PairsSorted(v: Values)
    ensures SortedBy(PairLeq, Pairs(v))
  {
    SortedKeys(v);
    PairsOfSorted(v, Sort(Listing(v.Keys)));
  }

  ghost predicate SameParameters(v: Values, w: Values) {
    forall k :: multiset(ValuesOf(v, k)) == multiset(ValuesOf(w, k))
  }

  lemma SamePairsSameParameters(v: Values, w: Values, k: Bytes)
    requires Pairs(v) == Pairs(w)
    ensures multiset(ValuesOf(v, k)) == multiset(ValuesOf(w, k))
  {
    forall x ensures multiset(ValuesOf(v, k))[x] == multiset(ValuesOf(w, k))[x] {
      PairsCount(v, (k, x));
      PairsCount(w, (k, x));
    }
  }

  lemma SameParametersSamePairs(v: Values, w: Values)
    requires SameParameters(v, w)
    ensures Pairs(v) == Pairs(w)
  {
    var a, b := Pairs(v), Pairs(w);
    forall p ensures multiset(a)[p] == multiset(b)[p] {
      PairsCount(v, p);
      PairsCount(w, p);
    }
    PairsSorted(v);
    PairsSorted(w);
    PairLeqIsTotalOrder();
    SortedUnique(PairLeq, a, b);
  }

  /** Two queries get the same canonical string exactly when every key has the same values in both,
      repetitions counted, order and value-less keys not. */
  lemma CanonicalIsExact(v: Values, w: Values)
    ensures Canonical(v) == Canonical(w) <==> SameParameters(v, w)
  {
    if Canonical(v) == Canonical(w) {
      ReadCanonical(v);
      ReadCanonical(w);
      forall k ensures multiset(ValuesOf(v, k)) == multiset(ValuesOf(w, k)) { SamePairsSameParameters(v, w, k); }
    }
    if SameParameters(v, w) {
      SameParametersSamePairs(v, w);
    }
  }

  // ---- Order of the encoded names ----

  /** `a` and `b` first differ where `a` has an unreserved byte and `b` a larger, reserved one. */
  predicate Clash(a: Bytes, b: Bytes) {
    a != [] && b != [] &&
    if a[0] == b[0] then Clash(a[1..], b[1..]) else Unreserved(a[0]) && !Unreserved(b[0]) && a[0] < b[0]
  }

  lemma LeqStep(c: Byte, x: Bytes, y: Bytes)
    ensures Leq([c] + x, [c] + y) <==> Leq(x, y)
  {
    assert ([c] + x)[1..] == x && ([c] + y)[1..] == y;
  }

  lemma LeqAfter(c: Byte, x: Bytes, y: Bytes)
    ensures Leq(EncodeByte(c) + x, EncodeByte(c) + y) <==> Leq(x, y)
  {
    if Unreserved(c) {
      LeqStep(c, x, y);
    } else {
      var h, l := HexDigit(c / 16), HexDigit(c % 16);
      LeqStep(l, x, y);
      LeqStep(h, [l] + x, [l] + y);
      LeqStep(PERCENT, [h] + ([l] + x), [h] + ([l] + y));
      assert EncodeByte(c) + x == [PERCENT] + ([h] + ([l] + x));
      assert EncodeByte(c) + y == [PERCENT] + ([h] + ([l] + y));
    }
  }

  /** Of two different bytes, the encodings compare at once: reserved before unreserved, else by value. */
  lemma EncodedBytesCompare(c: Byte, d: Byte, x: Bytes, y: Bytes)
    requires c != d
    ensures Leq(EncodeByte(c) + x, EncodeByte(d) + y) <==> if Unreserved(c) == Unreserved(d) then c < d else !Unreserved(c)
  {
    var a, b := EncodeByte(c) + x, EncodeByte(d) + y;
    if !Unreserved(c) && !Unreserved(d) {
      assert a[0] == b[0] == PERCENT;
      assert a[1..][0] == HexDigit(c / 16) && b[1..][0] == HexDigit(d / 16);
      assert a[1..][1..][0] == HexDigit(c % 16) && b[1..][1..][0] == HexDigit(d % 16);
      assert c / 16 == d / 16 ==> c % 16 != d % 16;
    }
  }

  /** For names in raw order, the encoded names are in order exactly when they do not clash. */
  lemma {:induction false} EncodedOrder(a: Bytes, b: Bytes)
    requires Leq(a, b)
    ensures Leq(Encode(a), Encode(b)) <==> !Clash(a, b)
  {
    if a != [] {
      if a[0] == b[0] {
        EncodedOrder(a[1..], b[1..]);
        LeqAfter(a[0], Encode(a[1..]), Encode(b[1..]));
      } else {
        EncodedBytesCompare(a[0], b[0], Encode(a[1..]), Encode(b[1..]));
      }
    }
  }

  lemma {:induction false} NoClashUnreserved(a: Bytes, b: Bytes)
    requires forall c :: c in b ==> Unreserved(c)
    ensures !Clash(a, b)
  {
    if a != [] && b != [] { NoClashUnreserved(a[1..], b[1..]); }
  }

  ghost predicate NamesInOrder(ps: seq<Pair>) {
    forall i, j :: 0 <= i < j < |ps| ==> Leq(Encode(ps[i].0), Encode(ps[j].0))
  }

  /** The names as they stand in the canonical string are sorted. */
  ghost predicate NamesSorted(v: Values) { NamesInOrder(Pairs(v)) }

  ghost predicate HasValues(v: Values, k: Bytes) { ValuesOf(v, k) != [] }

  lemma NameOccurs(v: Values, k: Bytes)
    ensures HasValues(v, k) <==> exists i :: 0 <= i < |Pairs(v)| && Pairs(v)[i].0 == k
  {
    if HasValues(v, k) {
      var x := ValuesOf(v, k)[0];
      PairsCount(v, (k, x));
      assert x in multiset(ValuesOf(v, k));
      assert (k, x) in multiset(Pairs(v));
      assert (k, x) in Pairs(v);
    }
    if i :| 0 <= i < |Pairs(v)| && Pairs(v)[i].0 == k {
      PairsCount(v, Pairs(v)[i]);
      assert Pairs(v)[i] in multiset(Pairs(v));
    }
  }

  ghost predicate NoClashes(v: Values) {
    forall a, b :: HasValues(v, a) && HasValues(v, b) && Leq(a, b) ==> !Clash(a, b)
  }

  lemma OrderedNamesDoNotClash(ps: seq<Pair>, i: nat, j: nat)
    requires NamesInOrder(ps) && SortedBy(PairLeq, ps) && i < |ps| && j < |ps| && Leq(ps[i].0, ps[j].0)
    ensures !Clash(ps[i].0, ps[j].0)
  {
    var a, b := ps[i].0, ps[j].0;
    EncodedOrder(a, b);
    if a == b {
      LeqTotal(Encode(a), Encode(a));
    } else if j < i {
      assert PairLeq(ps[j], ps[i]);
      LeqAntisymmetric(a, b);
    } else {
      assert Leq(Encode(ps[i].0), Encode(ps[j].0));
    }
  }

  lemma SortedNamesDoNotClash(v: Values, a: Bytes, b: Bytes)
    requires NamesSorted(v) && HasValues(v, a) && HasValues(v, b) && Leq(a, b)
    ensures !Clash(a, b)
  {
    PairsSorted(v);
    NameOccurs(v, a);
    NameOccurs(v, b);
    var i :| 0 <= i < |Pairs(v)| && Pairs(v)[i].0 == a;
    var j :| 0 <= j < |Pairs(v)| && Pairs(v)[j].0 == b;
    OrderedNamesDoNotClash(Pairs(v), i, j);
  }

  lemma ClashFreeNamesAreSorted(v: Values, i: nat, j: nat)
    requires NoClashes(v) && i < j < |Pairs(v)|
    ensures Leq(Encode(Pairs(v)[i].0), Encode(Pairs(v)[j].0))
  {
    var ps := Pairs(v);
    PairsSorted(v);
    NameOccurs(v, ps[i].0);
    NameOccurs(v, ps[j].0);
    assert PairLeq(ps[i], ps[j]);
    LeqTotal(ps[i].0, ps[i].0);
    EncodedOrder(ps[i].0, ps[j].0);
  }

  /** Keys are sorted before encoding, so the encoded names are sorted exactly when no two keys with values clash;
      in particular whenever all keys use unreserved bytes only. */
  lemma NamesSortedExactly(v: Values)
    ensures NamesSorted(v) <==> NoClashes(v)
    ensures (forall k, c :: k in v && c in k ==> Unreserved(c)) ==> NamesSorted(v)
  {
    if forall k, c :: k in v && c in k ==> Unreserved(c) {
      forall a, b | HasValues(v, a) && HasValues(v, b) ensures !Clash(a, b) { NoClashUnreserved(a, b); }
      assert NoClashes(v);
    }
    if NamesSorted(v) {
      forall a, b | HasValues(v, a) && HasValues(v, b) && Leq(a, b) ensures !Clash(a, b) { SortedNamesDoNotClash(v, a, b); }
    }
    if NoClashes(v) {
      forall i, j | 0 <= i < j < |Pairs(v)| ensures Leq(Encode(Pairs(v)[i].0), Encode(Pairs(v)[j].0)) {
        ClashFreeNamesAreSorted(v, i, j);
      }
    }
  }

  /** A query whose names come out unsorted: "a" before "{", but "%7B" before "a". */
  lemma NamesUnsortedExample()
    ensures !NamesSorted(map[[0x61] := [[0x31]], [0x7B] := [[0x32]]])
  {
    var v: Values := map[[0x61] := [[0x31]], [0x7B] := [[0x32]]];
    var a: Bytes, b: Bytes := [0x61], [0x7B];
    assert ValuesOf(v, a) == [[0x31]] && ValuesOf(v, b) == [[0x32]];
    assert Leq(a, b) && Clash(a, b);
    if NamesSorted(v) {
      SortedNamesDoNotClash(v, a, b);
      assert false;
    }
  }
}
