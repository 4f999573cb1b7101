/** Cron schedules: parsing "HH:MM" and computing the next run. Times are nanoseconds; the zone offset is fixed. */
module Schedule {
  import opened Options
  import opened Texts

  const MINUTE := 60_000_000_000
  const HOUR := 60 * MINUTE
  const DAY := 24 * HOUR

  // ---- Parsing ----

  function Digits(s: string): Option<int> {
    if s == "" then Some(0)
    else
      var front := Digits(s[..|s| - 1]);
      var c := s[|s| - 1];
      if front.None? || !('0' <= c <= '9') then None else Some(front.value * 10 + (c as int - '0' as int))
  }

  /** Decimal with an optional sign. Values outside the machine range are rejected one step later by the range tests. */
  function Atoi(s: string): Option<int> {
    var body := if s != "" && (s[0] == '+' || s[0] == '-') then s[1..] else s;
    if body == "" then None
    else
      var d := Digits(body);
      if d.None? then None else Some(if s[0] == '-' then -d.value else d.value)
  }

  predicate IsDigit(c: char) { '0' <= c <= '9' }

  lemma {:induction false} DigitsOf(n: nat)
    ensures Digits(Decimal(n)) == Some(n) && forall i :: 0 <= i < |Decimal(n)| ==> IsDigit(Decimal(n)[i])
  {
    var s := Decimal(n);
    if n >= 10 {
      DigitsOf(n / 10);
      assert s[..|s| - 1] == Decimal(n / 10);
    } else {
      assert s[..0] == "";
    }
  }

  lemma {:induction false} DigitsAfterZero(s: string)
    ensures Digits("0" + s) == Digits(s)
  {
    var t := "0" + s;
    if s == "" {
      assert t[..0] == "" && t[0] == '0';
    } else {
      DigitsAfterZero(s[..|s| - 1]);
      assert t[..|t| - 1] == "0" + s[..|s| - 1];
    }
  }

  lemma {:induction false} NonDigits(s: string)
    ensures Digits(s).None? <==> exists i :: 0 <= i < |s| && !IsDigit(s[i])
  {
    if s != "" {
      var front := s[..|s| - 1];
      NonDigits(front);
      if i :| 0 <= i < |front| && !IsDigit(front[i]) { assert s[i] == front[i]; }
      if i :| 0 <= i < |s| && !IsDigit(s[i]) { assert i < |front| ==> front[i] == s[i]; }
    }
  }

  /** Numbers are read back in decimal, with a sign or without. */
  lemma AtoiOfDecimal(n: int)
    requires n >= 0
    ensures Atoi(Decimal(n)) == Some(n) && Atoi("+" + Decimal(n)) == Some(n) && Atoi("-" + Decimal(n)) == Some(-n)
  {
    DigitsOf(n);
    DecimalHasNoDash(n);
    assert ("+" + Decimal(n))[1..] == Decimal(n) && ("-" + Decimal(n))[1..] == Decimal(n);
    assert IsDigit(Decimal(n)[0]);
  }

  /** Leading zeros do not matter, and a text is refused exactly if something but digits follows the sign, or nothing does. */
  lemma AtoiRefuses(s: string)
    ensures s != "" && IsDigit(s[0]) ==> Atoi("0" + s) == Atoi(s)
    ensures var body := if s != "" && (s[0] == '+' || s[0] == '-') then s[1..] else s;
            Atoi(s).None? <==> body == "" || exists i :: 0 <= i < |body| && !IsDigit(body[i])
  {
    DigitsAfterZero(s);
    NonDigits(if s != "" && (s[0] == '+' || s[0] == '-') then s[1..] else s);
  }

  function IndexOf(s: string, c: char): int {
    if s == "" then -1 else if s[0] == c then 0 else var i := IndexOf(s[1..], c); if i < 0 then -1 else i + 1
  }

  lemma {:induction false} IndexOfBounds(s: string, c: char)
    ensures -1 <= IndexOf(s, c) < |s|
    ensures IndexOf(s, c) >= 0 ==> s[IndexOf(s, c)] == c && c !in s[..IndexOf(s, c)]
    ensures IndexOf(s, c) < 0 <==> c !in s
  {
    if s != "" && s[0] != c {
      IndexOfBounds(s[1..], c);
      var i := IndexOf(s[1..], c);
      if i >= 0 { assert s[..i + 1] == [s[0]] + s[1..][..i]; }
    }
  }

  /** Minutes since midnight, or `None` on any parse or range error. */
  function ParseHHMM(s: string): (r: Option<int>)
    ensures r.Some? ==> 0 <= r.value < 1440
  {
    IndexOfBounds(s, ':');
    var idx := IndexOf(s, ':');
    if idx < 0 then None
    else
      var h, m := Atoi(TrimSpace(s[..idx])), Atoi(TrimSpace(s[idx + 1..]));
      if h.None? || m.None? || h.value < 0 || h.value > 23 || m.value < 0 || m.value > 59 then None
      else Some(h.value * 60 + m.value)
  }

  /** The text stands for the number: decimal, perhaps signed, perhaps with spaces around it. */
  predicate Reads(text: string, n: int) { Atoi(TrimSpace(text)) == Some(n) }

  predicate Splits(s: string, a: string, b: string) { s == a + ":" + b && ':' !in a }

  predicate IsTime(a: string, b: string, h: int, m: int) { Reads(a, h) && Reads(b, m) && 0 <= h < 24 && 0 <= m < 60 }

  lemma {:induction false} FirstColon(a: string, b: string)
    requires ':' !in a
    ensures IndexOf(a + ":" + b, ':') == |a|
  {
    var s := a + ":" + b;
    if a != "" {
      FirstColon(a[1..], b);
      assert s[0] == a[0] && s[1..] == a[1..] + ":" + b;
    }
  }

  lemma ParseOfTime(s: string, a: string, b: string, h: int, m: int)
    requires Splits(s, a, b) && IsTime(a, b, h, m)
    ensures ParseHHMM(s) == Some(h * 60 + m)
  {
    FirstColon(a, b);
    assert s[..|a|] == a && s[|a| + 1..] == b;
  }

  lemma TimeOfParsed(s: string) returns (a: string, b: string, h: int, m: int)
    requires ParseHHMM(s).Some?
    ensures Splits(s, a, b) && IsTime(a, b, h, m) && ParseHHMM(s) == Some(h * 60 + m)
  {
    IndexOfBounds(s, ':');
    var idx := IndexOf(s, ':');
    a, b := s[..idx], s[idx + 1..];
    assert s == a + [s[idx]] + b;
    h, m := Atoi(TrimSpace(a)).value, Atoi(TrimSpace(b)).value;
  }

  /** Exactly the accepted texts: an hour and a minute in range, split at the first colon. */
  lemma ParseExactly(s: string, n: int)
    ensures ParseHHMM(s) == Some(n) <==>
              exists a: string, b: string, h: int, m: int :: Splits(s, a, b) && IsTime(a, b, h, m) && n == h * 60 + m
  {
    if ParseHHMM(s).Some? {
      var a, b, h, m := TimeOfParsed(s);
      assert Splits(s, a, b) && IsTime(a, b, h, m);
    }
    if a: string, b: string, h: int, m: int :| Splits(s, a, b) && IsTime(a, b, h, m) && n == h * 60 + m {
      ParseOfTime(s, a, b, h, m);
    }
  }

  function Digit(n: int): char
    requires 0 <= n < 10
  {
    ('0' as int + n) as char
  }

  function TwoDigits(n: int): string
    requires 0 <= n < 100
  {
    [Digit(n / 10), Digit(n % 10)]
  }

  lemma TwoDigitsParse(n: int)
    requires 0 <= n < 100
    ensures Atoi(TrimSpace(TwoDigits(n))) == Some(n)
  {
    var s := TwoDigits(n);
    assert s[..1] == [Digit(n / 10)] && s[..1][..0] == "";
    assert Digits(s[..1]) == Some(n / 10);
    assert Digits(s) == Some(n);
  }

  /** Every wall-clock time written as HH:MM is read as the minute it names. */
  lemma ParseRoundTrip(h: int, m: int)
    requires 0 <= h < 24 && 0 <= m < 60
    ensures ParseHHMM(TwoDigits(h) + ":" + TwoDigits(m)) == Some(h * 60 + m)
  {
    var s := TwoDigits(h) + ":" + TwoDigits(m);
    assert IndexOf(s[2..], ':') == 0 && s[1..][1..] == s[2..];
    assert IndexOf(s, ':') == 2;
    assert s[..2] == TwoDigits(h) && s[3..] == TwoDigits(m);
    TwoDigitsParse(h);
    TwoDigitsParse(m);
  }

  // ---- The next run ----

  /** `offset`: local time minus universal time; `parseDuration`: the duration parser. */
  datatype Env = Env(offset: int, parseDuration: string -> Option<int>)

  function TimeOfDay(e: Env, t: int): int { (t + e.offset) % DAY }

  function DailyNext(e: Env, total: int, now: int): int {
    var next := now - TimeOfDay(e, now) + total * MINUTE;
    if next <= now then next + DAY else next
  }

  const EVERY := "@every "

  function CalcNextRun(e: Env, schedule: string, now: int): int {
    if EVERY <= schedule then
      var d := e.parseDuration(TrimSpace(schedule[|EVERY|..]));
      if d.Some? then now + d.value else now + HOUR
    else if ':' in schedule then
      var total := ParseHHMM(schedule);
      if total.Some? then DailyNext(e, total.value, now) else now + HOUR
    else now + HOUR
  }

  /** The schedule names a minute of the day. */
  ghost predicate IsDaily(schedule: string, total: int) {
    !(EVERY <= schedule) && ':' in schedule && ParseHHMM(schedule) == Some(total)
  }

  lemma SameDayShift(a: int, b: int)
    requires a % DAY == b % DAY && a < b
    ensures b - a >= DAY
  {
    var x, y := a / DAY, b / DAY;
    assert a == x * DAY + a % DAY && b == y * DAY + b % DAY;
    assert (y - x) * DAY > 0;
    assert y - x >= 1;
  }

  lemma ModIs(t: int, q: int, r: int)
    requires t == q * DAY + r && 0 <= r < DAY
    ensures t % DAY == r
  {
  }

  /** A daily schedule's next run is the least instant after `now` with that time of day, within a day. */
  lemma DailyNextIsLeast(e: Env, schedule: string, total: int, now: int)
    requires IsDaily(schedule, total)
    ensures var r := CalcNextRun(e, schedule, now);
            && now < r <= now + DAY && TimeOfDay(e, r) == total * MINUTE
            && forall t :: now < t < r ==> TimeOfDay(e, t) != total * MINUTE
    ensures MINUTE == 60_000_000_000 && DAY == 86_400_000_000_000
  {
    var r := CalcNextRun(e, schedule, now);
    var q := (now + e.offset) / DAY;
    var next := now - TimeOfDay(e, now) + total * MINUTE;
    assert next + e.offset == q * DAY + total * MINUTE;
    ModIs(next + e.offset, q, total * MINUTE);
    ModIs(next + DAY + e.offset, q + 1, total * MINUTE);
    forall t | now < t < r ensures TimeOfDay(e, t) != total * MINUTE {
      if TimeOfDay(e, t) == total * MINUTE {
        SameDayShift(t + e.offset, r + e.offset);
        assert false;
      }
    }
  }

  /** An interval schedule runs again after its interval, and after an hour when the interval cannot be read. */
  lemma EveryLaw(e: Env, text: string, now: int)
    ensures var d := e.parseDuration(TrimSpace(text));
            CalcNextRun(e, "@every " + text, now) == now + if d.Some? then d.value else 3_600_000_000_000
  {
    var s := "@every " + text;
    assert s[..7] == "@every " && s[7..] == text;
  }

  /** A schedule that is neither an interval nor a minute of the day means an hour from now. */
  lemma HourlyOtherwise(e: Env, schedule: string, now: int)
    requires !("@every " <= schedule) && forall total :: !IsDaily(schedule, total)
    ensures CalcNextRun(e, schedule, now) == now + 3_600_000_000_000
  {
    if ParseHHMM(schedule).Some? { assert !IsDaily(schedule, ParseHHMM(schedule).value); }
  }
}
