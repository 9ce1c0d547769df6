/**
 * `formatDepartureDate` as revised in test-dialogflow-object.js: an object with a
 * `date_time` field is taken verbatim, a string goes through the three-way
 * parser, and an array yields its last ISO-like string whose hour lies in
 * [5, 22] (or its last ISO-like string when no hour qualifies).
 */
module ObjectRevision {
  import opened Wrappers
  import opened JsText
  import opened Departures
  import IsoDate

  /** Lines 17-34: trim, drop a literal trailing `.000000`, then one of three forms. */
  function FromString(raw: string): string
  {
    Shaped(Prepared(raw))
  }

  /** Lines 20-33, on the trimmed text. */
  function Shaped(trimmed: string): string
  {
    if 'T' in trimmed && ':' in trimmed then
      if '+' !in trimmed && 'Z' !in trimmed then trimmed + Offset else trimmed
    else if ' ' in trimmed && ':' in trimmed then
      SplitHasTwo(trimmed, ' ');
      var parts := Split(trimmed, ' ');
      parts[0] + "T" + KeepThreeFields(parts[1]) + Offset
    else trimmed + Midnight
  }

  /** Lines 43-48: the `parseInt` of the part between `T` and the next `:` lies in [5, 22]. */
  predicate IsDaytime(item: string) {
    match TimePart(item)
    case None => false
    case Some(tp) =>
      tp != "" &&
      match ParseInt(Split(tp, ':')[0])
      case Some(h) => 5 <= h <= 22
      case None => false
  }

  /** Lines 36-56: the last daytime candidate, else the last candidate, else nothing. */
  function FromList(items: seq<Element>): Option<string>
  {
    var cs := Candidates(items);
    if |cs| == 0 then None
    else
      var daytime := Keep(cs, IsDaytime);
      Some(if |daytime| > 0 then daytime[|daytime| - 1] else cs[|cs| - 1])
  }

  /** `formatDepartureDate(thoiGian)`, lines 2-76; `valid` is the engine's `new Date(s)` check. */
  function Normalize(t: Departure, valid: string -> bool): (r: Option<string>)
    ensures r.Some? ==> r.value != "" && valid(r.value)
    ensures Falsy(t) || t.Other? ==> r.None?
  {
    if Falsy(t) then None
    else
      var dateStr :=
        match t
        case Record(dt) => dt
        case Str(s) => Some(FromString(s))
        case List(items) => FromList(items)
        case _ => None;
      Checked(dateStr, valid)
  }

  /** Lines 38-52: with no ISO-like string the result is null; otherwise it is the last
      candidate whose hour is in [5, 22], or the last candidate when none is. */
  lemma {:induction false} ListChoice(items: seq<Element>, valid: string -> bool)
    ensures var cs := Candidates(items);
      Normalize(List(items), valid) ==
        if |cs| == 0 then None
        else Checked(Some(match LastWhere(cs, IsDaytime)
                          case Some(i) => cs[i]
                          case None => cs[|cs| - 1]), valid)
  {
    LastOfKeep(Candidates(items), IsDaytime);
  }

  /** Lines 43-48 on a well-formed timestamp: daytime exactly when its hour is in [5, 22]. */
  lemma DaytimeOf(d: string, c: string, z: string)
    requires IsDateShape(d) && IsClockShape(c) && 'T' !in z
    ensures IsDaytime(d + "T" + c + z) <==> 5 <= ClockHour(c) <= 22
  {
    TimePartOf(d, c, z);
    HourField(c, z);
  }

  /** Lines 26-30 and 18: `YYYY-MM-DD HH:MM:SS`, with or without a trailing `.000000`,
      becomes `YYYY-MM-DDTHH:MM:SS+07:00`. */
  lemma SpaceForm(d: string, c: string, tail: string)
    requires IsDateShape(d) && IsClockShape(c) && (tail == "" || tail == Micros)
    ensures FromString(d + " " + c + tail) == d + "T" + c + Offset
  {
    SpacePrepared(d, c, tail);
    SpaceSplit(d, c);
    ClockFields(c);
  }

  /** Lines 31-33: a `YYYY-MM-DD` date alone becomes midnight `YYYY-MM-DDT00:00:00+07:00`. */
  lemma DateOnly(d: string)
    requires IsDateShape(d)
    ensures FromString(d) == d + Midnight
  {
    DateFacts(d);
    DigitIsPlain(d[0]);
    PreparedPlain(d, "");
    assert d + "" == d;
  }

  /** Lines 26-33: without a colon the space form is not recognised, so a date and a bare
      hour, `YYYY-MM-DD HH`, get the whole midnight suffix appended after the hour. */
  lemma BareHour(d: string, h: string)
    requires IsDateShape(d) && |h| == 2 && IsDecDigit(h[0]) && IsDecDigit(h[1])
    ensures FromString(d + " " + h) == d + " " + h + Midnight
  {
    BareHourPrepared(d, h);
    BareHourSplit(d, h);
  }

  /** Lines 26-33 through the date check: `YYYY-MM-DD HH` gives `YYYY-MM-DD HHT00:00:00+07:00`
      when the check accepts that text, and null otherwise. */
  lemma BareHourChecked(d: string, h: string, valid: string -> bool)
    requires IsDateShape(d) && |h| == 2 && IsDecDigit(h[0]) && IsDecDigit(h[1])
    ensures var s := d + " " + h + Midnight;
      Normalize(Str(d + " " + h), valid) == if valid(s) then Some(s) else None
  {
    BareHour(d, h);
  }

  /** Lines 20-25: an ISO timestamp `YYYY-MM-DDTHH:MM:SS` without offset gets `+07:00`. */
  lemma IsoWithoutOffset(d: string, c: string)
    requires IsDateShape(d) && IsClockShape(c)
    ensures FromString(d + "T" + c) == d + "T" + c + Offset
  {
    IsoPrepared(d, c, "");
    IsoChars(d, c, "");
    assert d + "T" + c + "" == d + "T" + c;
  }

  /** Lines 20-25: an ISO timestamp that already ends in `+07:00` is kept unchanged. */
  lemma IsoWithOffset(d: string, c: string)
    requires IsDateShape(d) && IsClockShape(c)
    ensures FromString(d + "T" + c + Offset) == d + "T" + c + Offset
  {
    IsoPrepared(d, c, Offset);
    IsoChars(d, c, Offset);
  }

  /** Lines 10-14: an object yields its `date_time` exactly as given when the date check
      accepts it, and null when it is missing, empty or rejected; no offset is added. */
  lemma ObjectBranch(dt: Option<string>, valid: string -> bool)
    ensures Normalize(Record(dt), valid) == if dt.Some? && dt.value != "" && valid(dt.value) then dt else None
    ensures dt.None? ==> Normalize(Record(dt), valid) == None
  {
  }

  /** The same `YYYY-MM-DDTHH:MM:SS` comes back without an offset from an object's
      `date_time` (lines 10-14) but with `+07:00` as a string (lines 20-25). */
  lemma ObjectKeepsNoOffset(d: string, c: string, valid: string -> bool)
    requires IsDateShape(d) && IsClockShape(c) && valid(d + "T" + c) && valid(d + "T" + c + Offset)
    ensures Normalize(Record(Some(d + "T" + c)), valid) == Some(d + "T" + c)
    ensures Normalize(Str(d + "T" + c), valid) == Some(d + "T" + c + Offset)
    ensures d + "T" + c != d + "T" + c + Offset
  {
    IsoWithoutOffset(d, c);
  }

  /** Script case 1 (lines 78-81): an object's `date_time` is returned verbatim. */
  lemma ScriptObjectCase(d: string, c: string)
    requires d == "2025-11-24" && c == "07:00:00"
    ensures Normalize(Record(Some(d + "T" + c + Offset)), IsoDate.Valid) == Some(d + "T" + c + Offset)
  {
    ExampleStamp(d, c);
  }

  /** Script case 2 (lines 83-86): `2025-11-24T07:00:00+07:00` is kept as it is. */
  lemma ScriptIsoCase(d: string, c: string)
    requires d == "2025-11-24" && c == "07:00:00"
    ensures Normalize(Str(d + "T" + c + Offset), IsoDate.Valid) == Some(d + "T" + c + Offset)
  {
    ExampleStamp(d, c);
    IsoWithOffset(d, c);
  }

  /** Script case 3 (lines 88-91): `2025-11-24 07:00:00` becomes `2025-11-24T07:00:00+07:00`. */
  lemma ScriptSpaceCase(d: string, c: string)
    requires d == "2025-11-24" && c == "07:00:00"
    ensures Normalize(Str(d + " " + c), IsoDate.Valid) == Some(d + "T" + c + Offset)
  {
    ExampleStamp(d, c);
    SpaceForm(d, c, "");
    assert d + " " + c + "" == d + " " + c;
  }

  /** Two earlier ISO-like strings lose to a last timestamp whose hour is 7. */
  lemma PicksMorningOverNight(a: string, b: string, d: string, k: string, valid: string -> bool)
    requires IsoLike(a) && IsoLike(b)
    requires IsDateShape(d) && IsClockShape(k) && ClockHour(k) == 7
    ensures Normalize(List([Text(a), Text(b), Text(d + "T" + k + Offset)]), valid)
            == Checked(Some(d + "T" + k + Offset), valid)
  {
    var c := d + "T" + k + Offset;
    DaytimeOf(d, k, Offset);
    assert IsoLike(c) by { assert c[10] == 'T' && c[13] == ':'; }
    CandidatesOfThree(a, b, c);
    assert LastWhere([a, b, c], IsDaytime) == Some(2);
    ListChoice([Text(a), Text(b), Text(c)], valid);
  }

  /** Script case 4 (lines 93-100): of 23:00, 00:00 and 07:00 the 07:00 entry is chosen. */
  lemma ScriptArrayCase(a: string, b: string, d: string, c: string)
    requires a == "2025-11-07T23:00:00+07:00" && b == "2025-11-08T00:00:00+07:00"
    requires d == "2025-11-08" && c == "07:00:00"
    ensures Normalize(List([Text(a), Text(b), Text(d + "T" + c + Offset)]), IsoDate.Valid)
            == Some(d + "T" + c + Offset)
  {
    ExampleStamp(d, c);
    PicksMorningOverNight(a, b, d, c, IsoDate.Valid);
  }
}
