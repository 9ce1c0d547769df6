/**
 * `formatDepartureDate` as revised in test-dialogflow-string.js: strings only,
 * through the same three-way parser as the object revision; every other shape
 * gives null.
 */
module StringRevision {
  import opened Wrappers
  import opened JsText
  import opened Departures
  import IsoDate
  import ObjectRevision

  /** Lines 11-30: trim, drop a literal trailing `.000000`, then one of three forms. */
  function FromString(raw: string): string
  {
    var trimmed := Prepared(raw);
    if 'T' in trimmed && ':' in trimmed then
      if '+' !in trimmed && 'Z' !in trimmed then trimmed + Offset else trimmed
    else if ' ' in trimmed && ':' in trimmed then
      SplitHasTwo(trimmed, ' ');
      var parts := Split(trimmed, ' ');
      parts[0] + "T" + KeepThreeFields(parts[1]) + Offset
    else trimmed + Midnight
  }

  /** `formatDepartureDate(thoiGian)`, lines 3-52; `valid` is the engine's `new Date(s)` check. */
  function Normalize(t: Departure, valid: string -> bool): (r: Option<string>)
    ensures r.Some? ==> r.value != "" && valid(r.value)
    ensures !t.Str? ==> r.None?
  {
    if Falsy(t) then None
    else if t.Str? then Checked(Some(FromString(t.s)), valid)
    else None
  }

  /** Lines 10-31 repeat lines 17-34 of test-dialogflow-object.js: on every string the
      two revisions give the same result. */
  lemma AgreesWithObjectRevision(s: string, valid: string -> bool)
    ensures Normalize(Str(s), valid) == ObjectRevision.Normalize(Str(s), valid)
  {
    assert FromString(s) == ObjectRevision.FromString(s);
  }

  /** Script case 2 (lines 61-64): `2025-11-24T07:00:00` gets the `+07:00` offset. */
  lemma ScriptNoOffsetCase(d: string, c: string)
    requires d == "2025-11-24" && c == "07:00:00"
    ensures Normalize(Str(d + "T" + c), IsoDate.Valid) == Some(d + "T" + c + Offset)
  {
    ExampleStamp(d, c);
    ObjectRevision.IsoWithoutOffset(d, c);
    AgreesWithObjectRevision(d + "T" + c, IsoDate.Valid);
  }

  /** Script case 4 (lines 71-74): `2025-11-24 07:00:00.000000` loses its `.000000`. */
  lemma ScriptMicrosCase(d: string, c: string)
    requires d == "2025-11-24" && c == "07:00:00"
    ensures Normalize(Str(d + " " + c + Micros), IsoDate.Valid) == Some(d + "T" + c + Offset)
  {
    ExampleStamp(d, c);
    ObjectRevision.SpaceForm(d, c, Micros);
    AgreesWithObjectRevision(d + " " + c + Micros, IsoDate.Valid);
  }

  /** Script case 5 (lines 76-79): `2025-11-24` becomes midnight `2025-11-24T00:00:00+07:00`. */
  lemma ScriptDateOnlyCase(d: string)
    requires d == "2025-11-24"
    ensures Normalize(Str(d), IsoDate.Valid) == Some(d + Midnight)
  {
    MidnightStamp(d);
    ExampleStamp(d, "00:00:00");
    ObjectRevision.DateOnly(d);
    AgreesWithObjectRevision(d, IsoDate.Valid);
  }

  /** Script case 7 (lines 86-89): `2025-12-01 05:15:30` becomes `2025-12-01T05:15:30+07:00`. */
  lemma ScriptEarlyMorningCase(d: string, c: string)
    requires d == "2025-12-01" && c == "05:15:30"
    ensures Normalize(Str(d + " " + c), IsoDate.Valid) == Some(d + "T" + c + Offset)
  {
    ExampleStamp(d, c);
    ObjectRevision.SpaceForm(d, c, "");
    assert d + " " + c + "" == d + " " + c;
    AgreesWithObjectRevision(d + " " + c, IsoDate.Valid);
  }
}
