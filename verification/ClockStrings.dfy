/** Times of day as the scheduler prints them, and how Python compares the printed strings. */
module ClockStrings {

  /** Python's `<` on strings: lexicographic by character. */
  predicate StrLess(a: string, b: string) {
    if b == "" then false
    else if a == "" then true
    else if a[0] != b[0] then a[0] < b[0]
    else StrLess(a[1..], b[1..])
  }

  /** Python's two-argument `max` and `min`: the first argument wins ties. */
  function StrMax(a: string, b: string): string {
    if StrLess(a, b) then b else a
  }

  function StrMin(a: string, b: string): string {
    if StrLess(b, a) then b else a
  }

  function Digit(d: nat): (c: char)
    requires d < 10
  {
    ('0' as int + d) as char
  }

  /** `f"{n:02d}"` */
  function TwoDigits(n: nat): (s: string)
    requires n < 100
    ensures |s| == 2
  {
    [Digit(n / 10), Digit(n % 10)]
  }

  const MINUTES_PER_DAY := 1440

  /** `HH:MM:00` of an absolute minute; the hour wraps at midnight. */
  function FormatTime(minute: int): (s: string) {
    TwoDigits(minute / 60 % 24) + (":" + (TwoDigits(minute % 60) + ":00"))
  }

  lemma TwoDigitsOrder(m: nat, n: nat, r: string, s: string)
    requires m < 100 && n < 100
    ensures StrLess(TwoDigits(m) + r, TwoDigits(n) + s) <==> m < n || (m == n && StrLess(r, s))
  {
    var a, b := TwoDigits(m) + r, TwoDigits(n) + s;
    assert a[0] == Digit(m / 10) && a[1] == Digit(m % 10) && a[1..][1..] == r;
    assert b[0] == Digit(n / 10) && b[1] == Digit(n % 10) && b[1..][1..] == s;
    assert StrLess(a, b) == (if a[0] != b[0] then a[0] < b[0] else StrLess(a[1..], b[1..]));
    assert StrLess(a[1..], b[1..]) == (if a[1] != b[1] then a[1] < b[1] else StrLess(r, s));
  }

  lemma SkipFirst(c: char, r: string, s: string)
    ensures StrLess([c] + r, [c] + s) == StrLess(r, s)
  {
    assert ([c] + r)[1..] == r && ([c] + s)[1..] == s;
  }

  lemma {:induction false} StrLessIrreflexive(a: string)
    ensures !StrLess(a, a)
  {
    if a != "" {
      StrLessIrreflexive(a[1..]);
    }
  }

  /** String order of printed times is numeric order of minutes within the day. */
  lemma FormatOrder(t: int, u: int)
    ensures StrLess(FormatTime(t), FormatTime(u)) <==> t % MINUTES_PER_DAY < u % MINUTES_PER_DAY
  {
    var rt, ru := TwoDigits(t % 60) + ":00", TwoDigits(u % 60) + ":00";
    TwoDigitsOrder(t / 60 % 24, u / 60 % 24, ":" + rt, ":" + ru);
    SkipFirst(':', rt, ru);
    TwoDigitsOrder(t % 60, u % 60, ":00", ":00");
    StrLessIrreflexive(":00");
    SplitMinute(t);
    SplitMinute(u);
  }

  lemma SplitMinute(t: int)
    ensures t % MINUTES_PER_DAY == t / 60 % 24 * 60 + t % 60
  {
  }

  lemma FormatNonEmpty(t: int)
    ensures FormatTime(t) != ""
  {
  }

  function DigitValue(c: char): int {
    c as int - '0' as int
  }

  /** What is printed reads as the hour of the day, the minute, and no seconds. */
  lemma FormatReads(t: int)
    ensures var s := FormatTime(t);
            && |s| == 8 && s[2] == ':' && s[5] == ':' && s[6] == '0' && s[7] == '0'
            && 10 * DigitValue(s[0]) + DigitValue(s[1]) == t % MINUTES_PER_DAY / 60
            && 10 * DigitValue(s[3]) + DigitValue(s[4]) == t % 60
  {
    TwoDigitsRead(t / 60 % 24);
    TwoDigitsRead(t % 60);
    HourOfDay(t);
  }

  lemma TwoDigitsRead(n: nat)
    requires n < 100
    ensures 10 * DigitValue(TwoDigits(n)[0]) + DigitValue(TwoDigits(n)[1]) == n
  {
  }

  lemma HourOfDay(t: int)
    ensures t % MINUTES_PER_DAY / 60 == t / 60 % 24
  {
    SplitMinute(t);
  }
}
