/** `"HH:MM"` strings and minutes since midnight. The handlers validate a
    request time with `isValidTimeFormat`, convert it with `timeToMinutes`,
    derive an end with `minutesToTime`, and compare stored `"HH:MM"` strings
    lexicographically. `api/library/utils.js`, from which the controllers
    import those helpers, does not define them; the definitions below
    follow their documented behaviour (zero-padded 24-hour text,
    `h*60+m`). */
module TimeText {

  predicate IsDigit(c: char) {
    '0' <= c <= '9'
  }

  function DigitValue(c: char): (n: nat)
    requires IsDigit(c)
    ensures n < 10
  {
    c as int - '0' as int
  }

  function DigitChar(n: nat): (c: char)
    requires n < 10
    ensures IsDigit(c) && DigitValue(c) == n
  {
    ('0' as int + n) as char
  }

  /** `^([01]\d|2[0-3]):[0-5]\d$` */
  predicate IsValidTimeFormat(s: string) {
    && |s| == 5
    && (('0' <= s[0] <= '1' && IsDigit(s[1])) || (s[0] == '2' && '0' <= s[1] <= '3'))
    && s[2] == ':'
    && '0' <= s[3] <= '5'
    && IsDigit(s[4])
  }

  /** `timeToMinutes`: hours times sixty plus minutes. */
  function TimeToMinutes(s: string): (m: nat)
    requires IsValidTimeFormat(s)
    ensures m < 1440
  {
    (DigitValue(s[0]) * 10 + DigitValue(s[1])) * 60 + DigitValue(s[3]) * 10 + DigitValue(s[4])
  }

  /** Decimal text of a natural number, without leading zeros. */
  function NatToString(n: nat): (s: string)
    ensures s != []
    ensures forall i :: 0 <= i < |s| ==> IsDigit(s[i])
  {
    if n < 10 then [DigitChar(n)] else NatToString(n / 10) + [DigitChar(n % 10)]
  }

  /** `padStart(2, '0')` */
  function Pad2(s: string): string {
    if |s| < 2 then ['0'] + s else s
  }

  /** `minutesToTime`: zero-padded `floor(m/60)`, a colon, zero-padded `m%60`. */
  function MinutesToTime(m: nat): string {
    Pad2(NatToString(m / 60)) + ":" + Pad2(NatToString(m % 60))
  }

  /** Below 100 hours the text has exactly five characters: two digits of
      hours, a colon, two digits of minutes. */
  lemma MinutesToTimeDigits(m: nat)
    requires m < 6000
    ensures MinutesToTime(m)
         == [DigitChar(m / 60 / 10), DigitChar(m / 60 % 10), ':', DigitChar(m % 60 / 10), DigitChar(m % 60 % 10)]
  {
    var h, mm := m / 60, m % 60;
    if h >= 10 {
      assert NatToString(h) == NatToString(h / 10) + [DigitChar(h % 10)];
    }
    if mm >= 10 {
      assert NatToString(mm) == NatToString(mm / 10) + [DigitChar(mm % 10)];
    }
  }

  /** Every minute of the day renders as valid `"HH:MM"` text that parses
      back to the same minute. */
  lemma MinutesRoundTrip(m: nat)
    requires m < 1440
    ensures IsValidTimeFormat(MinutesToTime(m))
    ensures TimeToMinutes(MinutesToTime(m)) == m
  {
    MinutesToTimeDigits(m);
    var h, mm := m / 60, m % 60;
    assert h == h / 10 * 10 + h % 10;
    assert mm == mm / 10 * 10 + mm % 10;
  }

  /** Every valid `"HH:MM"` text is the rendering of its own minute value,
      so `minutesToTime(timeToMinutes(s)) == s`. */
  lemma TimeRoundTrip(s: string)
    requires IsValidTimeFormat(s)
    ensures MinutesToTime(TimeToMinutes(s)) == s
  {
    var m := TimeToMinutes(s);
    MinutesToTimeDigits(m);
    var h1, h0, m1, m0 := DigitValue(s[0]), DigitValue(s[1]), DigitValue(s[3]), DigitValue(s[4]);
    var h, mm := h1 * 10 + h0, m1 * 10 + m0;
    assert m == h * 60 + mm && mm < 60;
    assert m / 60 == h && m % 60 == mm;
    assert h / 10 == h1 && h % 10 == h0;
    assert mm / 10 == m1 && mm % 10 == m0;
  }

  /** Valid time texts are equal exactly when their minute values are. */
  lemma TimeTextInjective(a: string, b: string)
    requires IsValidTimeFormat(a) && IsValidTimeFormat(b)
    ensures a == b <==> TimeToMinutes(a) == TimeToMinutes(b)
  {
    TimeRoundTrip(a);
    TimeRoundTrip(b);
  }

  /** JavaScript `<` on strings: the first differing character decides, and
      a proper prefix is smaller. */
  predicate StrLess(a: string, b: string) {
    if a == [] then b != []
    else if b == [] then false
    else if a[0] != b[0] then a[0] < b[0]
    else StrLess(a[1..], b[1..])
  }

  /** Digits of `m` below 100 hours, most significant first, as they appear
      in `MinutesToTime(m)`; they determine `m`. */
  lemma DigitsOfMinutes(m: nat)
    requires m < 6000
    ensures m == (m / 60 / 10) * 600 + (m / 60 % 10) * 60 + (m % 60 / 10) * 10 + m % 60 % 10
    ensures m / 60 / 10 < 10 && m % 60 / 10 < 6
  {
    var h, mm := m / 60, m % 60;
    assert m == h * 60 + mm;
    assert h == h / 10 * 10 + h % 10;
    assert mm == mm / 10 * 10 + mm % 10;
  }

  /** On two five-character texts `StrLess` is the lexicographic order of
      their characters. */
  lemma StrLessFive(a: string, b: string)
    requires |a| == 5 && |b| == 5
    ensures StrLess(a, b) <==>
      (a[0] < b[0] || (a[0] == b[0] && (a[1] < b[1] || (a[1] == b[1] && (a[2] < b[2]
        || (a[2] == b[2] && (a[3] < b[3] || (a[3] == b[3] && a[4] < b[4]))))))))
  {
    var a1, b1 := a[1..], b[1..];
    var a2, b2 := a1[1..], b1[1..];
    var a3, b3 := a2[1..], b2[1..];
    var a4, b4 := a3[1..], b3[1..];
    assert a4[1..] == [] && b4[1..] == [];
    assert StrLess(a4, b4) <==> a4[0] < b4[0];
    assert StrLess(a3, b3) <==> a3[0] < b3[0] || (a3[0] == b3[0] && StrLess(a4, b4));
    assert StrLess(a2, b2) <==> a2[0] < b2[0] || (a2[0] == b2[0] && StrLess(a3, b3));
    assert StrLess(a1, b1) <==> a1[0] < b1[0] || (a1[0] == b1[0] && StrLess(a2, b2));
    assert StrLess(a, b) <==> a[0] < b[0] || (a[0] == b[0] && StrLess(a1, b1));
  }

  /** The lexicographic comparisons of `"HH:MM"` texts that the working-hours
      and conflict checks perform agree with comparing minute values, for
      every time the handlers can produce (below 100 hours). This is what
      lets the rest of the model compare minutes. */
  lemma TimeOrderMatchesMinutes(x: nat, y: nat)
    requires x < 6000 && y < 6000
    ensures StrLess(MinutesToTime(x), MinutesToTime(y)) <==> x < y
  {
    MinutesToTimeDigits(x);
    MinutesToTimeDigits(y);
    StrLessFive(MinutesToTime(x), MinutesToTime(y));
    var x1, x2, x3, x4 := x / 60 / 10, x / 60 % 10, x % 60 / 10, x % 60 % 10;
    var y1, y2, y3, y4 := y / 60 / 10, y / 60 % 10, y % 60 / 10, y % 60 % 10;
    DigitCharOrder(x1, y1);
    DigitCharOrder(x2, y2);
    DigitCharOrder(x3, y3);
    DigitCharOrder(x4, y4);
    DigitsOfMinutes(x);
    DigitsOfMinutes(y);
    DigitSequenceOrder(x1, x2, x3, x4, y1, y2, y3, y4);
  }

  /** Digit characters compare as their values do. */
  lemma DigitCharOrder(p: nat, q: nat)
    requires p < 10 && q < 10
    ensures DigitChar(p) < DigitChar(q) <==> p < q
    ensures DigitChar(p) == DigitChar(q) <==> p == q
  {
  }

  /** Comparing the digits of two `"HH:MM"` values from the left is
      comparing the values. */
  lemma DigitSequenceOrder(x1: nat, x2: nat, x3: nat, x4: nat, y1: nat, y2: nat, y3: nat, y4: nat)
    requires x1 < 10 && x2 < 10 && x3 < 6 && x4 < 10
    requires y1 < 10 && y2 < 10 && y3 < 6 && y4 < 10
    ensures (x1 < y1 || (x1 == y1 && (x2 < y2 || (x2 == y2 && (x3 < y3 || (x3 == y3 && x4 < y4))))))
            <==> x1 * 600 + x2 * 60 + x3 * 10 + x4 < y1 * 600 + y2 * 60 + y3 * 10 + y4
  {
  }

  /** The same for texts that passed `isValidTimeFormat`. */
  lemma ValidTimeOrder(a: string, b: string)
    requires IsValidTimeFormat(a) && IsValidTimeFormat(b)
    ensures StrLess(a, b) <==> TimeToMinutes(a) < TimeToMinutes(b)
  {
    TimeRoundTrip(a);
    TimeRoundTrip(b);
    TimeOrderMatchesMinutes(TimeToMinutes(a), TimeToMinutes(b));
  }
}
