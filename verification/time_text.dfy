/**
  `drawTime`: a millisecond count as the text `mm:ss.z` (minutes capped at
  99), and the glyph that `drawNumber` picks for each character of it.

  JavaScript's `Math.floor(a / b)` with a positive divisor is Dafny's `/`;
  JavaScript's `%` truncates toward zero, which `JsRem` writes out, so the
  text is defined for negative counts as well.
*/
module TimeText {
  import opened Options
  import opened Settings

  /** JavaScript's `a % m` for a positive `m`: the remainder takes the sign of `a`. */
  function JsRem(a: int, m: int): (r: int)
    requires m > 0
    ensures a >= 0 ==> r == a % m
    ensures a < 0 ==> -m < r <= 0
  {
    if a >= 0 then a % m else -((-a) % m)
  }

  function DigitChar(d: int): char
    requires 0 <= d <= 9
  {
    ('0' as int + d) as char
  }

  predicate IsDigit(c: char) {
    '0' <= c <= '9'
  }

  function DigitValue(c: char): (d: int)
    requires IsDigit(c)
    ensures 0 <= d <= 9
  {
    c as int - '0' as int
  }

  /** Decimal notation of a natural number, without leading zeros. */
  function Digits(n: nat): (s: string)
    ensures 1 <= |s| && forall i :: 0 <= i < |s| ==> IsDigit(s[i])
    ensures n > 0 ==> s[0] != '0'
    ensures n < 10 ==> s == [DigitChar(n)]
    ensures 10 <= n < 100 ==> s == [DigitChar(n / 10), DigitChar(n % 10)]
  {
    if n < 10 then [DigitChar(n)] else Digits(n / 10) + [DigitChar(n % 10)]
  }

  /** `"" + n` for an integer `n`: a minus sign for a negative one, then the digits without leading zeros. */
  function NumberText(n: int): (t: string)
    ensures n >= 0 ==> 1 <= |t| && AllDigits(t) && (|t| == 1 || t[0] != '0')
    ensures n < 0 ==> 2 <= |t| && t[0] == '-' && AllDigits(t[1..]) && t[1] != '0'
    ensures 0 <= n <= 9 ==> t == [DigitChar(n)]
  {
    if n < 0 then "-" + Digits(-n) else Digits(n)
  }

  predicate AllDigits(s: string) {
    forall i :: 0 <= i < |s| ==> IsDigit(s[i])
  }

  /** The number a string of decimal digits stands for. */
  function Value(s: string): nat
    requires AllDigits(s)
  {
    if s == [] then 0 else Value(s[..|s| - 1]) * 10 + DigitValue(s[|s| - 1])
  }

  /** Reading the digits back gives the number written: the text of a number and its sign determine it. */
  lemma {:induction false} DigitsValue(n: nat)
    ensures Value(Digits(n)) == n
  {
    if n >= 10 {
      DigitsValue(n / 10);
      var s := Digits(n);
      assert s[..|s| - 1] == Digits(n / 10);
    }
  }

  /** `"" + n` determines `n`: its digits read back as the magnitude, and the sign is the leading minus. */
  lemma NumberTextValue(n: int)
    ensures var t := NumberText(n);
      && (n >= 0 ==> Value(t) == n)
      && (n < 0 ==> Value(t[1..]) == -n)
  {
    if n < 0 {
      DigitsValue(-n);
      assert NumberText(n)[1..] == Digits(-n);
    } else {
      DigitsValue(n);
    }
  }

  /** `(n < 10 ? '0' : '') + n`. */
  function Pad2(n: int): (s: string)
    ensures 0 <= n < 100 ==> s == [DigitChar(n / 10), DigitChar(n % 10)]
  {
    (if n < 10 then "0" else "") + NumberText(n)
  }

  /**
    The text that `drawTime` draws for `tick` milliseconds: for every count
    from 0 on, exactly seven characters `dd:dd.d`, with seconds below 60.
  */
  function DrawTime(tick: int): (t: string)
    ensures tick >= 0 ==>
      && |t| == 7 && t[2] == ':' && t[5] == '.'
      && IsDigit(t[0]) && IsDigit(t[1]) && IsDigit(t[3]) && IsDigit(t[4]) && IsDigit(t[6])
      && DigitValue(t[3]) < 6
  {
    var z := JsRem(tick / 100, 10);
    var s := JsRem(tick / 1000, 60);
    var m := Min(99, tick / 60000);
    Pad2(m) + ":" + Pad2(s) + "." + NumberText(z)
  }

  /**
    Reads a `mm:ss.z` text back as milliseconds: two digits of minutes, a
    colon, two digits of seconds below 60, a point and one digit of tenths.
  */
  function ParseTime(t: string): (r: Option<int>)
    ensures r.Some? ==> 0 <= r.value <= MAX_TICK && r.value % 100 == 0
  {
    if |t| == 7 && IsDigit(t[0]) && IsDigit(t[1]) && t[2] == ':' && IsDigit(t[3]) && IsDigit(t[4])
      && t[5] == '.' && IsDigit(t[6]) && DigitValue(t[3]) < 6
    then
      Some((DigitValue(t[0]) * 10 + DigitValue(t[1])) * 60000
        + (DigitValue(t[3]) * 10 + DigitValue(t[4])) * 1000
        + DigitValue(t[6]) * 100)
    else None
  }

  /** The three fields of a non-negative count, as `drawTime` computes them. */
  lemma DrawTimeFields(tick: int)
    requires tick >= 0
    ensures var m := Min(99, tick / 60000);
      var s := tick / 1000 % 60;
      var z := tick / 100 % 10;
      DrawTime(tick) == [DigitChar(m / 10), DigitChar(m % 10), ':', DigitChar(s / 10), DigitChar(s % 10), '.', DigitChar(z)]
  {
  }

  /** From 100 minutes on, the minutes field stays at 99. */
  lemma DrawTimeCapped(tick: int)
    requires tick >= 100 * 60000
    ensures DrawTime(tick)[..2] == "99"
  {
    DrawTimeFields(tick);
  }

  lemma DivSplit(tick: int)
    requires tick >= 0
    ensures tick / 1000 == tick / 100 / 10
    ensures tick / 60000 == tick / 1000 / 60
  {
  }

  /** Up to the largest representable time, the text shows the time truncated to tenths of a second. */
  lemma DrawTimeReadsBack(tick: int)
    requires 0 <= tick <= MAX_TICK
    ensures ParseTime(DrawTime(tick)) == Some(tick / 100 * 100)
  {
    DrawTimeFields(tick);
    DivSplit(tick);
    var a := tick / 100;
    var m := tick / 60000;
    var s := tick / 1000 % 60;
    var z := a % 10;
    assert m < 100;
    assert tick / 1000 == m * 60 + s;
    assert a == (tick / 1000) * 10 + z;
  }

  lemma DigitRoundTrip(c: char)
    requires IsDigit(c)
    ensures DigitChar(DigitValue(c)) == c
  {
  }

  /** Two digits `d` and `e` make the number `10 d + e`, whose tens and units are `d` and `e`. */
  lemma TwoDigits(d: int, e: int)
    requires 0 <= d <= 9 && 0 <= e <= 9
    ensures (d * 10 + e) / 10 == d && (d * 10 + e) % 10 == e
  {
  }

  /** The fields of a time made of `m` minutes, `s` seconds and `z` tenths. */
  lemma TimeOfFields(m: int, s: int, z: int)
    requires 0 <= m <= 99 && 0 <= s < 60 && 0 <= z <= 9
    ensures var ms := m * 60000 + s * 1000 + z * 100;
      && ms / 60000 == m && ms / 1000 % 60 == s && ms / 100 % 10 == z
  {
    var ms := m * 60000 + s * 1000 + z * 100;
    assert ms / 100 == m * 600 + s * 10 + z;
    assert ms / 1000 == m * 60 + s;
  }

  /** Every well-formed `mm:ss.z` text is what `drawTime` draws for the time it reads as. */
  lemma ParseTimeDrawsBack(t: string)
    requires ParseTime(t).Some?
    ensures DrawTime(ParseTime(t).value) == t
  {
    var ms := ParseTime(t).value;
    var d0, d1, d3, d4, d6 := DigitValue(t[0]), DigitValue(t[1]), DigitValue(t[3]), DigitValue(t[4]), DigitValue(t[6]);
    TextFields(t);
    DrawTimeFields(ms);
    var m := Min(99, ms / 60000);
    var sec := ms / 1000 % 60;
    var z := ms / 100 % 10;
    assert m / 10 == d0 && m % 10 == d1 && sec / 10 == d3 && sec % 10 == d4 && z == d6;
    DigitRoundTrip(t[0]);
    DigitRoundTrip(t[1]);
    DigitRoundTrip(t[3]);
    DigitRoundTrip(t[4]);
    DigitRoundTrip(t[6]);
    assert t == [t[0], t[1], t[2], t[3], t[4], t[5], t[6]];
  }

  /** The fields `drawTime` computes from a parsed time are the digits the text was made of. */
  lemma TextFields(t: string)
    requires ParseTime(t).Some?
    ensures var ms := ParseTime(t).value;
      var m := Min(99, ms / 60000);
      var s := ms / 1000 % 60;
      && m / 10 == DigitValue(t[0]) && m % 10 == DigitValue(t[1])
      && s / 10 == DigitValue(t[3]) && s % 10 == DigitValue(t[4])
      && ms / 100 % 10 == DigitValue(t[6])
  {
    var ms := ParseTime(t).value;
    var d0, d1, d3, d4, d6 := DigitValue(t[0]), DigitValue(t[1]), DigitValue(t[3]), DigitValue(t[4]), DigitValue(t[6]);
    var m := d0 * 10 + d1;
    var s := d3 * 10 + d4;
    TwoDigits(d0, d1);
    TwoDigits(d3, d4);
    TimeOfFields(m, s, d6);
    assert ms == m * 60000 + s * 1000 + d6 * 100;
  }

  /** The largest representable time is drawn as `99:59.9`. */
  lemma MaxTickText()
    ensures DrawTime(MAX_TICK) == "99:59.9"
  {
    assert MAX_TICK == 5999999;
    assert MAX_TICK / 60000 == 99 && MAX_TICK / 1000 % 60 == 59 && MAX_TICK / 100 % 10 == 9;
    DrawTimeFields(MAX_TICK);
    assert DigitChar(9) == '9' && DigitChar(5) == '5';
  }

  /** `drawNumber`'s sprite row for a character: `.` 10, `:` 11, `x` 12, digits their value, anything else 0 (`c | 0`). */
  function Glyph(c: char): (g: nat)
    ensures g <= 12
    ensures IsDigit(c) ==> g == DigitValue(c)
    ensures c == '.' ==> g == 10
    ensures c == ':' ==> g == 11
    ensures c == 'x' ==> g == 12
    ensures !IsDigit(c) && c != '.' && c != ':' && c != 'x' ==> g == 0
  {
    if c == '.' then 10
    else if c == ':' then 11
    else if c == 'x' then 12
    else if IsDigit(c) then DigitValue(c)
    else 0
  }

  /** The sprite rows `drawNumber` uses for a text. */
  function Glyphs(t: string): (gs: seq<nat>)
    ensures |gs| == |t| && forall i :: 0 <= i < |t| ==> gs[i] == Glyph(t[i])
  {
    seq(|t|, i requires 0 <= i < |t| => Glyph(t[i]))
  }

  lemma DigitGlyph(d: int)
    requires 0 <= d <= 9
    ensures Glyph(DigitChar(d)) == d
  {
  }

  /** The glyph rows of a text `mm:ss.z` built from the digits of three fields. */
  lemma FieldGlyphs(m: int, s: int, z: int)
    requires 0 <= m <= 99 && 0 <= s <= 99 && 0 <= z <= 9
    ensures Glyphs([DigitChar(m / 10), DigitChar(m % 10), ':', DigitChar(s / 10), DigitChar(s % 10), '.', DigitChar(z)])
      == [m / 10, m % 10, 11, s / 10, s % 10, 10, z]
  {
    DigitGlyph(m / 10);
    DigitGlyph(m % 10);
    DigitGlyph(s / 10);
    DigitGlyph(s % 10);
    DigitGlyph(z);
  }

  /** The time text uses digit rows for its fields and the colon and point rows between them. */
  lemma TimeGlyphs(tick: int)
    requires tick >= 0
    ensures var m := Min(99, tick / 60000);
      var s := tick / 1000 % 60;
      var z := tick / 100 % 10;
      Glyphs(DrawTime(tick)) == [m / 10, m % 10, 11, s / 10, s % 10, 10, z]
  {
    DrawTimeFields(tick);
    FieldGlyphs(Min(99, tick / 60000), tick / 1000 % 60, tick / 100 % 10);
  }
}
