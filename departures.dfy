/**
 * What the four `formatDepartureDate` revisions share: the shapes of the value
 * the conversational platform sends for the departure time, JavaScript
 * truthiness of that value, the filter that keeps the ISO-like strings of an
 * array, and the fixed UTC+7 suffixes the revisions append.
 */
module Departures {
  import opened Wrappers
  import opened JsText
  import IsoDate

  /** One entry of an array-shaped departure: a string, or anything else (the
      `{startDate, endDate}` range object, a number, ...). */
  datatype Element = Text(s: string) | NonString

  /** The departure value as the JavaScript code sees it. */
  datatype Departure =
    | Missing                        // null, undefined, 0, false, NaN: every falsy non-string
    | Str(s: string)                 // a string; the empty string is falsy
    | List(items: seq<Element>)      // an array (always truthy, even when empty)
    | Record(dateTime: Option<string>) // a plain object; `date_time` when it is a string
    | Other                          // a truthy number or boolean

  /** `!thoiGian` */
  predicate Falsy(t: Departure) {
    t.Missing? || (t.Str? && t.s == "")
  }

  const Offset: string := "+07:00"
  const Midnight: string := "T00:00:00+07:00"

  /** `typeof item === 'string' && item.includes('T') && item.includes(':')` */
  predicate IsoLike(s: string) {
    'T' in s && ':' in s
  }

  /** The array filter that keeps the ISO-like strings, in order. */
  function Candidates(items: seq<Element>): (cs: seq<string>)
    ensures |cs| <= |items|
    ensures forall k :: 0 <= k < |cs| ==> IsoLike(cs[k])
    ensures forall s :: s in cs <==> Text(s) in items && IsoLike(s)
  {
    if items == [] then []
    else
      var init := items[..|items| - 1];
      var last := items[|items| - 1];
      assert items == init + [last];
      Candidates(init) + (if last.Text? && IsoLike(last.s) then [last.s] else [])
  }

  /** `xs.filter(p)`, defined from the right end so that its last element is easy to name. */
  function Keep(xs: seq<string>, p: string -> bool): (r: seq<string>)
    ensures |r| <= |xs|
    ensures forall k :: 0 <= k < |r| ==> p(r[k])
  {
    if xs == [] then []
    else Keep(xs[..|xs| - 1], p) + (if p(xs[|xs| - 1]) then [xs[|xs| - 1]] else [])
  }

  /** Index of the last element satisfying `p`: the reference definition of
      "the last one that qualifies". */
  function LastWhere(xs: seq<string>, p: string -> bool): (r: Option<nat>)
    ensures r.Some? ==> r.value < |xs| && p(xs[r.value])
    ensures r.Some? ==> forall j :: r.value < j < |xs| ==> !p(xs[j])
    ensures r.None? ==> forall j :: 0 <= j < |xs| ==> !p(xs[j])
  {
    if xs == [] then None
    else if p(xs[|xs| - 1]) then Some(|xs| - 1)
    else LastWhere(xs[..|xs| - 1], p)
  }

  /** When the last element satisfies `p`, it is the one found. */
  lemma LastWhereAtEnd(xs: seq<string>, p: string -> bool)
    requires xs != [] && p(xs[|xs| - 1])
    ensures LastWhere(xs, p) == Some(|xs| - 1)
  { }

  /** Index of the first element satisfying `p`: `xs.find(p)` returns the element there. */
  function FirstWhere(xs: seq<string>, p: string -> bool): (r: Option<nat>)
    ensures r.Some? ==> r.value < |xs| && p(xs[r.value])
    ensures r.Some? ==> forall j :: 0 <= j < r.value ==> !p(xs[j])
    ensures r.None? ==> forall j :: 0 <= j < |xs| ==> !p(xs[j])
  {
    if xs == [] then None
    else if p(xs[0]) then Some(0)
    else match FirstWhere(xs[1..], p)
      case Some(i) => Some(i + 1)
      case None => None
  }

  /** The last element of `xs.filter(p)` is the last element of `xs` satisfying `p`,
      and the filter is empty exactly when no element qualifies. */
  lemma {:induction false} LastOfKeep(xs: seq<string>, p: string -> bool)
    ensures |Keep(xs, p)| > 0 <==> LastWhere(xs, p).Some?
    ensures |Keep(xs, p)| > 0 ==> Keep(xs, p)[|Keep(xs, p)| - 1] == xs[LastWhere(xs, p).value]
  {
    if xs != [] && !p(xs[|xs| - 1]) {
      LastOfKeep(xs[..|xs| - 1], p);
    }
  }

  /** `item.split('T')[1]`, the part after the first `T` (up to a second `T`). */
  function TimePart(item: string): Option<string>
  {
    Piece(item, 'T', 1)
  }

  /** A calendar date as the platform writes it: `YYYY-MM-DD`. */
  predicate IsDateShape(d: string) {
    |d| == 10 && d[4] == '-' && d[7] == '-' &&
    forall k :: 0 <= k < 10 && k != 4 && k != 7 ==> IsDecDigit(d[k])
  }

  /** A time of day as the platform writes it: `HH:MM:SS`. */
  predicate IsClockShape(t: string) {
    |t| == 8 && t[2] == ':' && t[5] == ':' &&
    forall k :: 0 <= k < 8 && k != 2 && k != 5 ==> IsDecDigit(t[k])
  }

  /** A digit is none of the characters the normalisers test for. */
  lemma DigitIsPlain(c: char)
    requires IsDecDigit(c)
    ensures !IsJsSpace(c) && c != 'T' && c != ' ' && c != ':' && c != '+' && c != 'Z' && c != '.' && c != '-'
  {
  }

  /** A `YYYY-MM-DD` date holds no `T`, space, colon, `+` or `Z`, and has no whitespace at its ends. */
  lemma DateFacts(d: string)
    requires IsDateShape(d)
    ensures 'T' !in d && ' ' !in d && ':' !in d && '+' !in d && 'Z' !in d
    ensures !IsJsSpace(d[0]) && !IsJsSpace(d[9]) && IsDecDigit(d[9])
  {
    forall k | 0 <= k < 10
      ensures d[k] != 'T' && d[k] != ' ' && d[k] != ':' && d[k] != '+' && d[k] != 'Z'
    {
      if k != 4 && k != 7 { DigitIsPlain(d[k]); }
    }
    DigitIsPlain(d[0]);
    DigitIsPlain(d[9]);
  }

  /** An `HH:MM:SS` clock holds no `T`, space, `+` or `Z`, has no whitespace at its
      ends, does not end in `.000000`, and keeps all of its three colon fields. */
  lemma ClockFacts(t: string)
    requires IsClockShape(t)
    ensures 'T' !in t && ' ' !in t && '+' !in t && 'Z' !in t && ':' in t
    ensures !IsJsSpace(t[0]) && !IsJsSpace(t[7]) && IsDecDigit(t[7]) && t[1] != '.'
    ensures KeepThreeFields(t) == t
  {
    ClockChars(t);
    ClockFields(t);
  }

  /** The characters of an `HH:MM:SS` clock. */
  lemma ClockChars(t: string)
    requires IsClockShape(t)
    ensures 'T' !in t && ' ' !in t && '+' !in t && 'Z' !in t && ':' in t
    ensures !IsJsSpace(t[0]) && !IsJsSpace(t[7]) && IsDecDigit(t[7]) && t[1] != '.'
  {
    forall k | 0 <= k < 8
      ensures t[k] != 'T' && t[k] != ' ' && t[k] != '+' && t[k] != 'Z'
    {
      if k != 2 && k != 5 { DigitIsPlain(t[k]); }
    }
    DigitIsPlain(t[0]);
    DigitIsPlain(t[1]);
    DigitIsPlain(t[7]);
  }

  /** An `HH:MM:SS` clock has exactly two colons, so `KeepThreeFields` keeps all of it. */
  lemma ClockFields(t: string)
    requires IsClockShape(t)
    ensures KeepThreeFields(t) == t
  {
    var fields := [t[..2], t[3..5], t[6..]];
    forall k | 0 <= k < 3
      ensures ':' !in fields[k]
    {
      forall j | 0 <= j < |fields[k]|
        ensures fields[k][j] != ':'
      {
        var at := if k == 0 then j else if k == 1 then 3 + j else 6 + j;
        assert fields[k][j] == t[at];
        DigitIsPlain(t[at]);
      }
    }
    assert fields[1..] == [t[3..5], t[6..]];
    assert fields[1..][1..] == [t[6..]];
    assert Join(fields[1..], ':') == t[3..5] + [':'] + t[6..];
    assert t == t[..2] + [':'] + t[3..5] + [':'] + t[6..];
    assert Join(fields, ':') == t;
    SplitJoin(fields, ':');
    SplitCount(t, ':');
  }

  /** The calendar dates of the example inputs are `YYYY-MM-DD` days of the calendar. */
  lemma ExampleDate(d: string)
    requires d == "2025-11-07" || d == "2025-11-08" || d == "2025-11-09" || d == "2025-11-24" || d == "2025-12-01"
    ensures IsDateShape(d) && IsoDate.ValidDate(d)
  {
  }

  /** The clocks of the example inputs are `HH:MM:SS` times of day. */
  lemma ExampleClock(c: string)
    requires c == "00:00:00" || c == "05:15:30" || c == "07:00:00" || c == "09:15:00" ||
             c == "09:30:00" || c == "14:00:00" || c == "14:30:45" || c == "23:00:00"
    ensures IsClockShape(c) && IsoDate.ValidClock(c)
  {
  }

  /** The fixed `+07:00` suffix is a valid UTC offset. */
  lemma OffsetValid()
    ensures IsoDate.ValidZone(Offset)
  {
  }

  /** An example date, `T`, an example clock and `+07:00` make a valid date-time string. */
  lemma ExampleStamp(d: string, c: string)
    requires d == "2025-11-07" || d == "2025-11-08" || d == "2025-11-09" || d == "2025-11-24" || d == "2025-12-01"
    requires c == "00:00:00" || c == "05:15:30" || c == "07:00:00" || c == "09:15:00" ||
             c == "09:30:00" || c == "14:00:00" || c == "14:30:45" || c == "23:00:00"
    ensures IsDateShape(d) && IsClockShape(c) && IsoDate.Valid(d + "T" + c + Offset)
  {
    ExampleDate(d);
    ExampleClock(c);
    OffsetValid();
    IsoDate.StampValid(d, c, Offset);
  }

  /** Lines 58-71 of the object and string revisions: no value, or one the date
      check rejects, gives null; otherwise the constructed string is returned as is. */
  function Checked(dateStr: Option<string>, valid: string -> bool): (r: Option<string>)
    ensures r.Some? <==> dateStr.Some? && dateStr.value != "" && valid(dateStr.value)
    ensures r.Some? ==> r == dateStr
  {
    if dateStr.None? || dateStr.value == "" then None
    else if valid(dateStr.value) then dateStr
    else None
  }

  /** Lines 48-61 of test-dialogflow.js and 35-48 of test-format.js: the date check
      comes first, and only a string that passes it and has neither `+` nor `Z`
      gets the `+07:00` offset appended. */
  function CheckedThenZoned(dateStr: Option<string>, valid: string -> bool): (r: Option<string>)
    ensures r.Some? <==> dateStr.Some? && dateStr.value != "" && valid(dateStr.value)
    ensures r.Some? ==> r.value == dateStr.value || r.value == dateStr.value + Offset
    ensures r.Some? ==> ('+' in r.value || 'Z' in r.value)
    ensures r.Some? ==> (r.value == dateStr.value <==> '+' in dateStr.value || 'Z' in dateStr.value)
  {
    if dateStr.None? || dateStr.value == "" || !valid(dateStr.value) then None
    else
      var d := dateStr.value;
      if '+' !in d && 'Z' !in d then
        assert (d + Offset)[|d|] == '+';
        Some(d + Offset)
      else Some(d)
  }

  /** For `YYYY-MM-DD` + `T` + `HH:MM:SS` + a zone without `T`, the part after `T` is the clock and zone. */
  lemma TimePartOf(d: string, c: string, z: string)
    requires IsDateShape(d) && IsClockShape(c) && 'T' !in z
    ensures TimePart(d + "T" + c + z) == Some(c + z)
  {
    DateFacts(d);
    ClockFacts(c);
    var parts := [d, c + z];
    assert Join(parts, 'T') == d + "T" + c + z;
    SplitJoin(parts, 'T');
  }

  /** The hour of an `HH:MM:SS` clock, read as two decimal digits. */
  function ClockHour(c: string): nat
    requires IsClockShape(c)
  {
    10 * DigitValue(c[0]) + DigitValue(c[1])
  }

  /** `parseInt(timePart.split(':')[0])` reads the two hour digits of the clock. */
  lemma HourField(c: string, z: string)
    requires IsClockShape(c)
    ensures Split(c + z, ':')[0] == c[..2]
    ensures ParseInt(c[..2]) == Some(ClockHour(c))
  {
    HourPiece(c, z);
    HourValue(c);
  }

  /** The two hour digits parse to the clock's hour. */
  lemma HourValue(c: string)
    requires IsClockShape(c)
    ensures ParseInt(c[..2]) == Some(ClockHour(c))
  {
    var h := c[..2];
    assert h[0] == c[0] && h[1] == c[1];
    TwoDigits(h);
  }

  lemma HourPiece(c: string, z: string)
    requires IsClockShape(c)
    ensures Split(c + z, ':')[0] == c[..2]
  {
    var s := c + z;
    DigitIsPlain(c[0]);
    DigitIsPlain(c[1]);
    assert c[..2] == [c[0], c[1]];
    assert s == c[..2] + [':'] + (c[3..] + z);
    IndexAfterFreePrefix(c[..2], c[3..] + z, ':');
    FirstPiece(s, ':');
    assert s[..2] == c[..2];
  }

  /** Two decimal digits parse to ten times the first plus the second. */
  lemma TwoDigits(ds: string)
    requires |ds| == 2 && IsDecDigit(ds[0]) && IsDecDigit(ds[1])
    ensures ParseInt(ds) == Some(10 * DigitValue(ds[0]) + DigitValue(ds[1]))
  {
    ParseDecimal(ds);
    TwoDigitsValue(ds);
  }

  /** The decimal value of two digits. */
  lemma TwoDigitsValue(ds: string)
    requires |ds| == 2 && IsDecDigit(ds[0]) && IsDecDigit(ds[1])
    ensures DigitsValue(ds, 10) == 10 * DigitValue(ds[0]) + DigitValue(ds[1])
  {
    assert ds[..1] == [ds[0]];
    assert [ds[0]][..0] == [];
    assert DigitsValue([ds[0]], 10) == DigitValue(ds[0]);
  }

  /** The text the string branches work on: `thoiGian.trim().replace(/\.000000$/, '')`. */
  function Prepared(raw: string): string
  {
    StripMicros(Trim(raw))
  }

  /** A string whose first character is a digit and whose last character is a
      digit, or the `.000000` suffix, or `Z`, is prepared to itself minus that suffix. */
  lemma PreparedPlain(core: string, tail: string)
    requires |core| >= 8 && IsDecDigit(core[0]) && IsDecDigit(core[|core| - 1]) && core[|core| - 7] != '.'
    requires tail == "" || tail == Micros
    ensures Prepared(core + tail) == core
  {
    var s := core + tail;
    DigitIsPlain(core[0]);
    DigitIsPlain(core[|core| - 1]);
    assert s[0] == core[0];
    assert s[|s| - 1] == if tail == "" then core[|core| - 1] else '0';
    assert Trim(s) == s;
    if tail == "" {
      assert s[|s| - |Micros|] == core[|core| - 7];
    } else {
      assert s[|s| - |Micros|..] == Micros;
    }
  }

  /** Trimming and the `.000000` strip turn `YYYY-MM-DD HH:MM:SS`, with or without
      `.000000`, into `YYYY-MM-DD HH:MM:SS`. */
  lemma SpacePrepared(d: string, c: string, tail: string)
    requires IsDateShape(d) && IsClockShape(c) && (tail == "" || tail == Micros)
    ensures Prepared(d + " " + c + tail) == d + " " + c
  {
    var core := d + " " + c;
    ClockChars(c);
    assert core[0] == d[0] && IsDecDigit(d[0]);
    assert core[|core| - 1] == c[7] && core[|core| - 7] == c[1];
    PreparedPlain(core, tail);
  }

  /** `YYYY-MM-DD HH:MM:SS` splits on the space into the date and the clock, and holds
      a space and a colon but no `T`. */
  lemma SpaceSplit(d: string, c: string)
    requires IsDateShape(d) && IsClockShape(c)
    ensures var core := d + " " + c;
      Split(core, ' ') == [d, c] && 'T' !in core && ' ' in core && ':' in core
  {
    var core := d + " " + c;
    DateFacts(d);
    ClockChars(c);
    assert core[10] == ' ';
    assert Join([d, c], ' ') == core;
    SplitJoin([d, c], ' ');
  }

  /** Trimming and the `.000000` strip leave `YYYY-MM-DDTHH:MM:SS`, with or without
      `+07:00`, as it is. */
  lemma IsoPrepared(d: string, c: string, z: string)
    requires IsDateShape(d) && IsClockShape(c) && (z == "" || z == Offset)
    ensures Prepared(d + "T" + c + z) == d + "T" + c + z
  {
    var s := d + "T" + c + z;
    ClockFacts(c);
    assert s[0] == d[0] && IsDecDigit(d[0]);
    if z == "" {
      assert s[|s| - 1] == c[7] && s[|s| - 7] == c[1];
    } else {
      assert s[|s| - 1] == '0' && s[|s| - 7] == c[7];
    }
    PreparedPlain(s, "");
    assert s + "" == s;
  }

  /** `YYYY-MM-DDTHH:MM:SS`, with or without `+07:00`, holds a `T` and a colon, no
      space and no `Z`, and a `+` exactly when it has the offset. */
  lemma IsoChars(d: string, c: string, z: string)
    requires IsDateShape(d) && IsClockShape(c) && (z == "" || z == Offset)
    ensures var s := d + "T" + c + z;
      ' ' !in s && 'Z' !in s && 'T' in s && ':' in s && ('+' in s <==> z == Offset)
  {
    var s := d + "T" + c + z;
    DateFacts(d);
    ClockFacts(c);
    assert ' ' !in z && 'Z' !in z;
    assert s[10] == 'T' && s[13] == ':';
    if z == Offset {
      assert s[19] == '+';
    }
  }

  /** The midnight suffix is `T`, the `00:00:00` clock and the offset. */
  lemma MidnightStamp(d: string)
    ensures d + Midnight == d + "T" + "00:00:00" + Offset
  {
    assert Midnight == "T" + "00:00:00" + Offset;
  }

  /** Timestamps built on two different dates of the same length differ. */
  lemma OtherDateOtherStamp(d0: string, c0: string, d: string, c: string)
    requires |d0| == |d| && d0 != d
    ensures d0 + "T" + c0 + Offset != d + "T" + c + Offset
  {
    var a, b := d0 + "T" + c0 + Offset, d + "T" + c + Offset;
    assert a[..|d0|] == d0 && b[..|d|] == d;
  }

  /** An array of three ISO-like strings is its own candidate list. */
  lemma CandidatesOfThree(a: string, b: string, c: string)
    requires IsoLike(a) && IsoLike(b) && IsoLike(c)
    ensures Candidates([Text(a), Text(b), Text(c)]) == [a, b, c]
  {
    var items := [Text(a), Text(b), Text(c)];
    assert items[..2] == [Text(a), Text(b)];
    assert items[..2][..1] == [Text(a)];
    assert [Text(a)][..0] == [];
  }

  /** A string that ends in the `+07:00` offset (as every `T00:00:00+07:00` midnight
      does) comes back from `CheckedThenZoned` unchanged when the date check accepts it. */
  lemma ZonedKeeps(s: string, valid: string -> bool)
    ensures CheckedThenZoned(Some(s + Offset), valid) == if valid(s + Offset) then Some(s + Offset) else None
  {
    assert (s + Offset)[|s|] == '+';
  }

  /** A `YYYY-MM-DD` date followed by `T` and an `HH:MM:SS` clock is ISO-like. */
  lemma StampIsoLike(d: string, c: string, z: string)
    requires IsDateShape(d) && IsClockShape(c)
    ensures IsoLike(d + "T" + c + z)
  {
    var s := d + "T" + c + z;
    assert s[10] == 'T' && s[13] == ':';
  }

  /** An array of two ISO-like strings is its own candidate list. */
  lemma CandidatesOfTwo(a: string, b: string)
    requires IsoLike(a) && IsoLike(b)
    ensures Candidates([Text(a), Text(b)]) == [a, b]
  {
    assert [Text(a), Text(b)][..1] == [Text(a)];
    assert [Text(a)][..0] == [];
  }

  /** A leading element that is not a string (Dialogflow's `{startDate, endDate}` range
      object) never becomes a candidate. */
  lemma {:induction false} CandidatesAfterObject(items: seq<Element>)
    ensures Candidates([NonString] + items) == Candidates(items)
  {
    if items != [] {
      var init, last := items[..|items| - 1], items[|items| - 1];
      assert items == init + [last];
      assert [NonString] + items == ([NonString] + init) + [last];
      CandidatesSnoc([NonString] + init, last);
      CandidatesSnoc(init, last);
      CandidatesAfterObject(init);
    }
  }

  /** One more element at the end adds it to the candidates exactly when it is an ISO-like string. */
  lemma CandidatesSnoc(init: seq<Element>, last: Element)
    ensures Candidates(init + [last]) ==
              Candidates(init) + (if last.Text? && IsoLike(last.s) then [last.s] else [])
  {
    var items := init + [last];
    assert items[..|items| - 1] == init;
  }

  /** The filter keeps order across a split of the array: the candidates of `a + b` are
      those of `a` followed by those of `b`. */
  lemma {:induction false} CandidatesAppend(a: seq<Element>, b: seq<Element>)
    ensures Candidates(a + b) == Candidates(a) + Candidates(b)
    decreases |b|
  {
    if b == [] {
      assert a + b == a;
    } else {
      var init, last := b[..|b| - 1], b[|b| - 1];
      var e := if last.Text? && IsoLike(last.s) then [last.s] else [];
      assert b == init + [last];
      Regroup(a, init, [last]);
      CandidatesAppend(a, init);
      CandidatesSnoc(a + init, last);
      CandidatesSnoc(init, last);
      Regroup(Candidates(a), Candidates(init), e);
    }
  }

  /** Concatenation regroups. */
  lemma Regroup<T>(x: seq<T>, y: seq<T>, z: seq<T>)
    ensures x + (y + z) == x + y + z
  {
  }

  /** `xs.find(p)`: the first element satisfying `p`, or undefined. */
  function Find(xs: seq<string>, p: string -> bool): (r: Option<string>)
    ensures r.Some? ==> r.value in xs && p(r.value)
  {
    if xs == [] then None
    else if p(xs[0]) then Some(xs[0])
    else Find(xs[1..], p)
  }

  /** `find` returns the element at the first index where `p` holds. */
  lemma {:induction false} FindIsFirst(xs: seq<string>, p: string -> bool)
    ensures Find(xs, p).Some? <==> FirstWhere(xs, p).Some?
    ensures Find(xs, p).Some? ==> Find(xs, p).value == xs[FirstWhere(xs, p).value]
  {
    if xs != [] && !p(xs[0]) {
      FindIsFirst(xs[1..], p);
    }
  }

  /** `timePart && !timePart.startsWith('00:00:00')` of test-dialogflow.js and test-format.js. */
  predicate IsSpecific(item: string) {
    match TimePart(item)
    case None => false
    case Some(tp) => tp != "" && !StartsWith(tp, "00:00:00")
  }

  /** On a well-formed timestamp, "specific" means "not midnight". */
  lemma SpecificOf(d: string, c: string, z: string)
    requires IsDateShape(d) && IsClockShape(c) && 'T' !in z
    ensures IsSpecific(d + "T" + c + z) <==> c != "00:00:00"
  {
    TimePartOf(d, c, z);
    assert (c + z)[..8] == c;
  }

  /** `time.includes(':') ? time.split(':').slice(0, 3).join(':') : time + ':00:00'`, the
      time handling of the two-piece string branch of test-dialogflow.js (line 40) and
      test-format.js (line 28): at most three colon fields, or `:00:00` after a bare hour. */
  function TimeOfDay(time: string): (r: string)
    ensures ':' in time ==> |r| <= |time| && r == time[..|r|] && (r != time ==> time[|r|] == ':')
    ensures ':' !in time ==> |r| == |time| + 6 && r[..|time|] == time && r[|time|..] == ":00:00"
    ensures multiset(r)[':'] == if multiset(time)[':'] == 1 then 1 else 2
  {
    if ':' in time then KeepThreeFields(time)
    else
      HourPadded(time);
      time + ":00:00"
  }

  /** A colon-free hour followed by `:00:00` holds exactly two colons. */
  lemma HourPadded(time: string)
    requires ':' !in time
    ensures multiset(time + ":00:00")[':'] == 2 && multiset(time)[':'] == 0
    ensures (time + ":00:00")[..|time|] == time
  {
    var pad := ":00:00";
    assert multiset(time + pad) == multiset(time) + multiset(pad);
    assert pad == [':', '0', '0', ':', '0', '0'];
    assert multiset(pad)[':'] == 2;
  }

  /** `YYYY-MM-DD HH`, a date and a bare two-digit hour, is left as it is by the trim and
      the `.000000` strip. */
  lemma BareHourPrepared(d: string, h: string)
    requires IsDateShape(d) && |h| == 2 && IsDecDigit(h[0]) && IsDecDigit(h[1])
    ensures Prepared(d + " " + h) == d + " " + h
  {
    var core := d + " " + h;
    assert core[0] == d[0] && IsDecDigit(d[0]);
    assert core[|core| - 1] == h[1] && core[|core| - 7] == d[6];
    DigitIsPlain(d[6]);
    PreparedPlain(core, "");
    assert core + "" == core;
  }

  /** `YYYY-MM-DD HH` splits on the space into the date and the hour, and holds no `T`
      and no colon. */
  lemma BareHourSplit(d: string, h: string)
    requires IsDateShape(d) && |h| == 2 && IsDecDigit(h[0]) && IsDecDigit(h[1])
    ensures var core := d + " " + h;
      Split(core, ' ') == [d, h] && 'T' !in core && ' ' in core && ':' !in core && ':' !in h
  {
    var core := d + " " + h;
    DateFacts(d);
    DigitIsPlain(h[0]);
    DigitIsPlain(h[1]);
    assert core[10] == ' ';
    assert Join([d, h], ' ') == core;
    SplitJoin([d, h], ' ');
  }
}
