/**
 * A strict reading of the Date Time String Format of ECMA-262 (section
 * 21.4.1.32 of the 2024 edition): `YYYY-MM-DD`, or `YYYY-MM-DDTHH:mm`,
 * `YYYY-MM-DDTHH:mm:ss`, each optionally followed by `Z` or `+HH:mm`/`-HH:mm`,
 * with calendar checks (month 1-12, day within the month, hour 0-24 with 24
 * only at 24:00:00, minutes and seconds 0-59). The standard says a string of
 * this format with an illegal element value yields NaN.
 *
 * The normalisers take the date check as a parameter (what `new Date(s)`
 * accepts is engine-defined beyond this format); `Valid` is the instance the
 * concrete examples use.
 */
module IsoDate {
  import opened JsText

  predicate DigitsAt(s: string, i: nat, n: nat) {
    i + n <= |s| && forall k :: i <= k < i + n ==> IsDecDigit(s[k])
  }

  /** The two-digit number at position `i`. */
  function Two(s: string, i: nat): nat
    requires DigitsAt(s, i, 2)
  {
    10 * DigitValue(s[i]) + DigitValue(s[i + 1])
  }

  /** The four-digit number at position `i`. */
  function Four(s: string, i: nat): nat
    requires DigitsAt(s, i, 4)
  {
    100 * Two(s, i) + Two(s, i + 2)
  }

  predicate IsLeapYear(y: nat) {
    y % 4 == 0 && (y % 100 != 0 || y % 400 == 0)
  }

  function DaysInMonth(y: nat, m: nat): nat {
    if m == 2 then (if IsLeapYear(y) then 29 else 28)
    else if m == 4 || m == 6 || m == 9 || m == 11 then 30
    else 31
  }

  /** `YYYY-MM-DD` naming a day of the proleptic Gregorian calendar. */
  predicate ValidDate(s: string) {
    |s| == 10 && DigitsAt(s, 0, 4) && s[4] == '-' && DigitsAt(s, 5, 2) && s[7] == '-' && DigitsAt(s, 8, 2) &&
    1 <= Two(s, 5) <= 12 && 1 <= Two(s, 8) <= DaysInMonth(Four(s, 0), Two(s, 5))
  }

  /** `HH:mm` or `HH:mm:ss` naming a time of day. */
  predicate ValidClock(c: string) {
    (|c| == 5 || |c| == 8) && DigitsAt(c, 0, 2) && c[2] == ':' && DigitsAt(c, 3, 2) &&
    (|c| == 8 ==> c[5] == ':' && DigitsAt(c, 6, 2)) &&
    var h, m, sec := Two(c, 0), Two(c, 3), if |c| == 8 then Two(c, 6) else 0;
    h <= 24 && m <= 59 && sec <= 59 && (h == 24 ==> m == 0 && sec == 0)
  }

  /** Nothing (local time), `Z`, or a `+HH:mm` / `-HH:mm` offset. */
  predicate ValidZone(z: string) {
    z == "" || z == "Z" ||
    (|z| == 6 && (z[0] == '+' || z[0] == '-') && DigitsAt(z, 1, 2) && z[3] == ':' && DigitsAt(z, 4, 2) &&
     Two(z, 1) <= 23 && Two(z, 4) <= 59)
  }

  predicate ValidClockZone(r: string) {
    (|r| >= 8 && ValidClock(r[..8]) && ValidZone(r[8..])) ||
    (|r| >= 5 && ValidClock(r[..5]) && ValidZone(r[5..]))
  }

  /** The date-time strings this format accepts. */
  predicate Valid(s: string) {
    ValidDate(s) || (|s| >= 16 && ValidDate(s[..10]) && s[10] == 'T' && ValidClockZone(s[11..]))
  }

  /** A valid date, `T`, a valid `HH:mm:ss` clock and a valid zone make a valid date-time string. */
  lemma StampValid(d: string, c: string, z: string)
    requires ValidDate(d) && ValidClock(c) && |c| == 8 && ValidZone(z)
    ensures Valid(d + "T" + c + z)
  {
    var s := d + "T" + c + z;
    assert s[..10] == d;
    assert s[11..] == c + z;
    assert (c + z)[..8] == c && (c + z)[8..] == z;
  }
}
