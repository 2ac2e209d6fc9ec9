/** Times of day as the services read and write them: `HH:MM` strings and minutes since midnight. */
module Clock {
  import opened Wrappers
  import opened Text

  const MINUTES_PER_DAY := 1440

  function DigitValue(c: char): nat
    requires IsDigit(c)
  {
    c as int - '0' as int
  }

  function DigitChar(n: nat): (c: char)
    requires n < 10
    ensures IsDigit(c) && DigitValue(c) == n
  {
    ('0' as int + n) as char
  }

  function Decimal(n: nat): string {
    if n < 10 then [DigitChar(n)] else Decimal(n / 10) + [DigitChar(n % 10)]
  }

  /** The number that decimal digits write. */
  ghost function ValueOf(s: string): int
    requires forall i :: 0 <= i < |s| ==> IsDigit(s[i])
  {
    if s == "" then 0 else 10 * ValueOf(s[..|s| - 1]) + DigitValue(s[|s| - 1])
  }

  /** `s` writes `n` in decimal digits, without leading zeros. */
  ghost predicate IsNumeral(s: string, n: nat) {
    && s != "" && (forall i :: 0 <= i < |s| ==> IsDigit(s[i]))
    && ValueOf(s) == n && (|s| > 1 ==> s[0] != '0')
  }

  lemma {:induction false} DecimalIsNumeral(n: nat)
    ensures IsNumeral(Decimal(n), n)
    ensures n > 0 ==> Decimal(n)[0] != '0'
  {
    if n >= 10 {
      DecimalIsNumeral(n / 10);
      assert Decimal(n)[..|Decimal(n)| - 1] == Decimal(n / 10);
    }
  }

  /** Python's `int()` on two characters: signs and surrounding blanks are accepted. */
  function ParseTwo(a: char, b: char): Option<int> {
    if IsDigit(a) && IsDigit(b) then Some(10 * DigitValue(a) + DigitValue(b))
    else if IsDigit(b) && (a == '+' || IsSpace(a)) then Some(DigitValue(b))
    else if IsDigit(b) && a == '-' then (var v: int := DigitValue(b); Some(-v))
    else if IsDigit(a) && IsSpace(b) then Some(DigitValue(a))
    else None
  }

  /** Hour and minute of a text that has a colon in third place, before any range check. */
  function ReadClock(raw: string): Option<(int, int)> {
    if |raw| < 5 || raw[2] != ':' then None
    else
      match (ParseTwo(raw[0], raw[1]), ParseTwo(raw[3], raw[4]))
      case (Some(hour), Some(minute)) => Some((hour, minute))
      case _ => None
  }

  /** `_hhmm_to_minutes`. */
  function ToMinutes(raw: string): Option<int> {
    match ReadClock(raw)
    case None => None
    case Some((hour, minute)) =>
      if hour < 0 || hour > 23 || minute < 0 || minute > 59 then None else Some(hour * 60 + minute)
  }

  /** `_is_late_time`: after 21:00, hours beyond 23 included. */
  predicate IsLateTime(raw: string) {
    match ReadClock(raw)
    case None => false
    case Some((hour, minute)) => hour * 60 + minute > 21 * 60
  }

  function TwoDigits(n: nat): (s: string)
    requires n < 100
    ensures |s| == 2 && IsDigit(s[0]) && IsDigit(s[1]) && 10 * DigitValue(s[0]) + DigitValue(s[1]) == n
  {
    [DigitChar(n / 10), DigitChar(n % 10)]
  }

  function Format(minutes: nat): string
    requires minutes < MINUTES_PER_DAY
  {
    TwoDigits(minutes / 60) + ":" + TwoDigits(minutes % 60)
  }

  /** `_hhmm_add_minutes`: unreadable times count as noon, the result stays within the day. */
  function AddMinutes(raw: string, minutes: int): string {
    var base := match ToMinutes(raw) case None => 12 * 60 case Some(m) => m;
    var value := if base + minutes < 0 then 0 else base + minutes;
    Format(if value > MINUTES_PER_DAY - 1 then MINUTES_PER_DAY - 1 else value)
  }

  /** The times both validators accept, `HH:MM` on a 24-hour clock. */
  predicate IsClock(s: string) {
    && |s| == 5 && IsDigit(s[0]) && IsDigit(s[1]) && s[2] == ':' && IsDigit(s[3]) && IsDigit(s[4])
    && 10 * DigitValue(s[0]) + DigitValue(s[1]) < 24
    && s[3] < '6'
  }

  /** The validators' pattern: its `$` also matches before a final newline. */
  predicate MatchesTimePattern(s: string) {
    IsClock(s) || (|s| == 6 && s[5] == '\n' && IsClock(s[..5]))
  }

  /** Python's `<` on strings. */
  predicate Less(a: string, b: string) {
    if b == "" then false
    else if a == "" then true
    else if a[0] != b[0] then a[0] < b[0]
    else Less(a[1..], b[1..])
  }

  // ---------- strings and minutes agree ----------

  /** Formatting then parsing is the identity on every minute of the day. */
  lemma ParseOfFormat(minutes: nat)
    requires minutes < MINUTES_PER_DAY
    ensures IsClock(Format(minutes)) && ToMinutes(Format(minutes)) == Some(minutes)
  {
    var hour, minute := minutes / 60, minutes % 60;
    var s := Format(minutes);
    assert s[0..2] == TwoDigits(hour) && s[3..5] == TwoDigits(minute);
    assert s[0] == TwoDigits(hour)[0] && s[1] == TwoDigits(hour)[1];
    assert s[3] == TwoDigits(minute)[0] && s[4] == TwoDigits(minute)[1];
  }

  /** Parsing then formatting is the identity on every well-formed time. */
  lemma FormatOfParse(s: string)
    requires IsClock(s)
    ensures ToMinutes(s).Some? && 0 <= ToMinutes(s).value < MINUTES_PER_DAY
    ensures Format(ToMinutes(s).value) == s
  {
    var hour := 10 * DigitValue(s[0]) + DigitValue(s[1]);
    var minute := 10 * DigitValue(s[3]) + DigitValue(s[4]);
    assert ToMinutes(s) == Some(hour * 60 + minute);
    assert (hour * 60 + minute) / 60 == hour && (hour * 60 + minute) % 60 == minute;
    SameTwoDigits(TwoDigits(hour), s[0], s[1]);
    SameTwoDigits(TwoDigits(minute), s[3], s[4]);
    assert s == [s[0], s[1]] + ":" + [s[3], s[4]];
  }

  lemma SameTwoDigits(s: string, a: char, b: char)
    requires |s| == 2 && IsDigit(s[0]) && IsDigit(s[1]) && IsDigit(a) && IsDigit(b)
    requires 10 * DigitValue(s[0]) + DigitValue(s[1]) == 10 * DigitValue(a) + DigitValue(b)
    ensures s == [a, b]
  {
    assert DigitValue(s[0]) == DigitValue(a);
  }

  /** On well-formed times, string order is minute order. */
  lemma OrderAgrees(a: string, b: string)
    requires IsClock(a) && IsClock(b)
    ensures Less(a, b) <==> ToMinutes(a).value < ToMinutes(b).value
    ensures a == b <==> ToMinutes(a) == ToMinutes(b)
  {
    MinutesOfDigits(a);
    MinutesOfDigits(b);
    LessOfFive(a, b);
    hide ToMinutes, Less;
    DigitOrder(DigitValue(a[0]), DigitValue(a[1]), DigitValue(a[3]), DigitValue(a[4]),
               DigitValue(b[0]), DigitValue(b[1]), DigitValue(b[3]), DigitValue(b[4]));
    assert a == [a[0], a[1], ':', a[3], a[4]] && b == [b[0], b[1], ':', b[3], b[4]];
  }

  lemma DigitOrder(a: nat, b: nat, c: nat, d: nat, e: nat, f: nat, g: nat, h: nat)
    requires b < 10 && c < 6 && d < 10 && f < 10 && g < 6 && h < 10
    ensures 600 * a + 60 * b + 10 * c + d < 600 * e + 60 * f + 10 * g + h <==>
            a < e || (a == e && (b < f || (b == f && (c < g || (c == g && d < h)))))
    ensures 600 * a + 60 * b + 10 * c + d == 600 * e + 60 * f + 10 * g + h ==> a == e && b == f && c == g && d == h
  {
  }

  lemma MinutesOfDigits(s: string)
    requires IsClock(s)
    ensures ToMinutes(s) ==
              Some(600 * DigitValue(s[0]) + 60 * DigitValue(s[1]) + 10 * DigitValue(s[3]) + DigitValue(s[4]))
    ensures DigitValue(s[3]) < 6
  {
  }

  /** Reading a time written out digit by digit. */
  lemma ReadsAs(s: string, a: nat, b: nat, c: nat, d: nat)
    requires a < 3 && b < 10 && c < 6 && d < 10 && 10 * a + b < 24
    requires s == [DigitChar(a), DigitChar(b), ':', DigitChar(c), DigitChar(d)]
    ensures IsClock(s) && ToMinutes(s) == Some(600 * a + 60 * b + 10 * c + d)
  {
    MinutesOfDigits(s);
  }

  lemma LessOfFive(a: string, b: string)
    requires |a| == 5 && |b| == 5 && a[2] == b[2]
    ensures Less(a, b) <==>
            || a[0] < b[0]
            || (a[0] == b[0] && (a[1] < b[1] || (a[1] == b[1] && (a[3] < b[3] || (a[3] == b[3] && a[4] < b[4])))))
  {
    LessCons(a, b);
    LessCons(a[1..], b[1..]);
    LessCons(a[1..][1..], b[1..][1..]);
    LessCons(a[1..][1..][1..], b[1..][1..][1..]);
    LessCons(a[1..][1..][1..][1..], b[1..][1..][1..][1..]);
  }

  lemma LessCons(a: string, b: string)
    requires a != "" && b != ""
    ensures Less(a, b) <==> a[0] < b[0] || (a[0] == b[0] && Less(a[1..], b[1..]))
  {
  }

  /** Moving a time always gives a well-formed time, clamped to the day. */
  lemma AddMinutesIsClamped(raw: string, minutes: int)
    ensures IsClock(AddMinutes(raw, minutes))
    ensures var base := match ToMinutes(raw) case None => 720 case Some(m) => m;
            ToMinutes(AddMinutes(raw, minutes)) ==
              Some(if base + minutes < 0 then 0 else if base + minutes > 1439 then 1439 else base + minutes)
  {
    var base := match ToMinutes(raw) case None => 720 case Some(m) => m;
    ParseOfFormat(if base + minutes < 0 then 0 else if base + minutes > 1439 then 1439 else base + minutes);
  }

  /** A well-formed time is late exactly when it is past 21:00. */
  lemma LateOnClock(s: string)
    requires IsClock(s)
    ensures IsLateTime(s) <==> Less("21:00", s)
  {
    OrderAgrees("21:00", s);
  }

  // ---------- string order ----------

  lemma {:induction false} LessIsTotal(a: string, b: string)
    ensures a == b || Less(a, b) || Less(b, a)
  {
    if a != "" && b != "" && a[0] == b[0] {
      LessIsTotal(a[1..], b[1..]);
      assert a == [a[0]] + a[1..] && b == [b[0]] + b[1..];
    }
  }

  lemma {:induction false} NotLessIsTransitive(a: string, b: string, c: string)
    requires !Less(b, a) && !Less(c, b)
    ensures !Less(c, a)
  {
    if a != "" && b != "" && c != "" && a[0] == b[0] == c[0] {
      NotLessIsTransitive(a[1..], b[1..], c[1..]);
    }
  }

  lemma {:induction false} LessIsAsymmetric(a: string, b: string)
    ensures !(Less(a, b) && Less(b, a))
  {
    if a != "" && b != "" {
      LessIsAsymmetric(a[1..], b[1..]);
    }
  }
}
