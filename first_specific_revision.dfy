/**
 * `formatDepartureDate` as written in test-format.js: an array yields its FIRST
 * ISO-like string whose time is not midnight (`candidates.find`), or its last
 * ISO-like string when all are midnight; strings are read exactly as in
 * test-dialogflow.js; the date check runs before the `+07:00` offset is appended.
 */
module FirstSpecificRevision {
  import opened Wrappers
  import opened JsText
  import opened Departures
  import IsoDate
  import LastSpecificRevision

  /** Lines 8-21: `candidates.find(specific) || candidates[candidates.length - 1]`. */
  function FromList(items: seq<Element>): Option<string>
  {
    var cs := Candidates(items);
    if |cs| == 0 then None
    else Some(Find(cs, IsSpecific).GetOr(cs[|cs| - 1]))
  }

  /** `formatDepartureDate(thoiGian)`, lines 3-57; `valid` is the engine's `new Date(s)` check.
      The string branch (lines 22-33) is word for word that of test-dialogflow.js. */
  function Normalize(t: Departure, valid: string -> bool): (r: Option<string>)
    ensures r.Some? ==> valid(r.value) || (|r.value| > |Offset| && valid(r.value[..|r.value| - |Offset|]))
    ensures r.Some? ==> '+' in r.value || 'Z' in r.value
    ensures Falsy(t) || t.Record? || t.Other? ==> r.None?
  {
    if Falsy(t) then None
    else
      var dateStr :=
        match t
        case List(items) => FromList(items)
        case Str(s) => Some(LastSpecificRevision.FromString(s))
        case _ => None;
      CheckedThenZoned(dateStr, valid)
  }

  /** Lines 10-20: with no ISO-like string the result is null; otherwise it is the first
      candidate whose time is not `00:00:00`, or the last candidate when all are. */
  lemma {:induction false} ListChoice(items: seq<Element>, valid: string -> bool)
    ensures Candidates(items) == [] ==> Normalize(List(items), valid) == None
    ensures FirstWhere(Candidates(items), IsSpecific).Some? ==>
      Normalize(List(items), valid) ==
        CheckedThenZoned(Some(Candidates(items)[FirstWhere(Candidates(items), IsSpecific).value]), valid)
    ensures Candidates(items) != [] && FirstWhere(Candidates(items), IsSpecific).None? ==>
      Normalize(List(items), valid) == CheckedThenZoned(Some(Candidates(items)[|Candidates(items)| - 1]), valid)
  {
    FindIsFirst(Candidates(items), IsSpecific);
  }

  /** On strings this revision and the test-dialogflow.js revision agree. */
  lemma AgreesOnStrings(s: string, valid: string -> bool)
    ensures Normalize(Str(s), valid) == LastSpecificRevision.Normalize(Str(s), valid)
  {
  }

  /** On arrays the two revisions differ only in which specific candidate they pick:
      when at most one candidate is specific, they give the same result. */
  lemma AgreesWithOneSpecific(items: seq<Element>, valid: string -> bool)
    requires forall i, j :: 0 <= i < j < |Candidates(items)| ==>
               !(IsSpecific(Candidates(items)[i]) && IsSpecific(Candidates(items)[j]))
    ensures Normalize(List(items), valid) == LastSpecificRevision.Normalize(List(items), valid)
  {
    var cs := Candidates(items);
    ListChoice(items, valid);
    LastSpecificRevision.ListChoice(items, valid);
    var first, last := FirstWhere(cs, IsSpecific), LastWhere(cs, IsSpecific);
    assert first.Some? <==> last.Some?;
    if first.Some? {
      assert first.value == last.value;
    }
  }

  /** A list whose first candidate is a specific timestamp the date check accepts yields
      that timestamp, whatever follows it. */
  lemma PicksFirstSpecific(items: seq<Element>, d: string, c: string, valid: string -> bool)
    requires IsDateShape(d) && IsClockShape(c) && c != "00:00:00" && valid(d + "T" + c + Offset)
    requires Candidates(items) != [] && Candidates(items)[0] == d + "T" + c + Offset
    ensures Normalize(List(items), valid) == Some(d + "T" + c + Offset)
  {
    SpecificOf(d, c, Offset);
    assert FirstWhere(Candidates(items), IsSpecific) == Some(0);
    ZonedKeeps(d + "T" + c, valid);
    ListChoice(items, valid);
  }

  /** Behind a non-string element, a first specific timestamp wins over later ones. */
  lemma PicksFirstAfterObject(d0: string, c0: string, b: string, d: string, c: string, valid: string -> bool)
    requires IsDateShape(d0) && IsClockShape(c0) && c0 != "00:00:00" && valid(d0 + "T" + c0 + Offset)
    requires IsoLike(b) && IsDateShape(d) && IsClockShape(c)
    ensures Normalize(List([NonString, Text(d0 + "T" + c0 + Offset), Text(b), Text(d + "T" + c + Offset)]), valid)
            == Some(d0 + "T" + c0 + Offset)
  {
    var a, x := d0 + "T" + c0 + Offset, d + "T" + c + Offset;
    StampIsoLike(d0, c0, Offset);
    StampIsoLike(d, c, Offset);
    CandidatesOfThree(a, b, x);
    CandidatesAfterObject([Text(a), Text(b), Text(x)]);
    assert [NonString] + [Text(a), Text(b), Text(x)] == [NonString, Text(a), Text(b), Text(x)];
    PicksFirstSpecific([NonString, Text(a), Text(b), Text(x)], d0, c0, valid);
  }

  /** Test 5 (lines 88-99): of 23:00, 00:00 and 07:00 this revision returns the 23:00
      entry, not the 07:00 entry the test expects. */
  lemma ScriptDialogflowCase(d0: string, c0: string, b: string, d: string, c: string)
    requires d0 == "2025-11-07" && c0 == "23:00:00" && b == "2025-11-08T00:00:00+07:00"
    requires d == "2025-11-08" && c == "07:00:00"
    ensures Normalize(List([NonString, Text(d0 + "T" + c0 + Offset), Text(b), Text(d + "T" + c + Offset)]),
                      IsoDate.Valid) == Some(d0 + "T" + c0 + Offset)
    ensures d0 + "T" + c0 + Offset != d + "T" + c + Offset
  {
    ScriptDialogflowShapes(d0, c0, b, d, c);
    PicksFirstAfterObject(d0, c0, b, d, c, IsoDate.Valid);
    OtherDateOtherStamp(d0, c0, d, c);
  }

  /** The shapes of the test 5 timestamps. */
  lemma ScriptDialogflowShapes(d0: string, c0: string, b: string, d: string, c: string)
    requires d0 == "2025-11-07" && c0 == "23:00:00" && b == "2025-11-08T00:00:00+07:00"
    requires d == "2025-11-08" && c == "07:00:00"
    ensures IsDateShape(d0) && IsClockShape(c0) && IsDateShape(d) && IsClockShape(c)
    ensures IsoLike(b) && IsoDate.Valid(d0 + "T" + c0 + Offset) && d0 != d
  {
    assert d0[9] != d[9];
    ExampleStamp(d0, c0);
    ExampleDate(d);
    ExampleClock(c);
    assert b[10] == 'T' && b[13] == ':';
  }

  /** Two midnight timestamps: neither is specific, so the later one is returned. */
  lemma TwoMidnights(d0: string, d: string, valid: string -> bool)
    requires IsDateShape(d0) && IsDateShape(d) && valid(d + Midnight)
    ensures Normalize(List([Text(d0 + Midnight), Text(d + Midnight)]), valid) == Some(d + Midnight)
  {
    var m0, m := d0 + Midnight, d + Midnight;
    MidnightPair(d0, d);
    MidnightZoned(d, valid);
    ListChoice([Text(m0), Text(m)], valid);
  }

  /** Two midnight timestamps are both candidates, and neither is specific. */
  lemma MidnightPair(d0: string, d: string)
    requires IsDateShape(d0) && IsDateShape(d)
    ensures Candidates([Text(d0 + Midnight), Text(d + Midnight)]) == [d0 + Midnight, d + Midnight]
    ensures FirstWhere([d0 + Midnight, d + Midnight], IsSpecific).None?
  {
    var m0, m := d0 + Midnight, d + Midnight;
    LastSpecificRevision.MidnightFacts(d0);
    LastSpecificRevision.MidnightFacts(d);
    CandidatesOfTwo(m0, m);
  }

  /** A midnight timestamp the date check accepts comes back unchanged. */
  lemma MidnightZoned(d: string, valid: string -> bool)
    requires valid(d + Midnight)
    ensures CheckedThenZoned(Some(d + Midnight), valid) == Some(d + Midnight)
  {
    MidnightStamp(d);
    ZonedKeeps(d + "T" + "00:00:00", valid);
  }

  /** Test 6 (lines 101-110): of two midnights the later, `2025-11-09T00:00:00+07:00`, is returned. */
  lemma ScriptMidnightsCase(d0: string, d: string)
    requires d0 == "2025-11-08" && d == "2025-11-09"
    ensures Normalize(List([Text(d0 + Midnight), Text(d + Midnight)]), IsoDate.Valid) == Some(d + Midnight)
  {
    MidnightStamp(d);
    ExampleStamp(d, "00:00:00");
    ExampleDate(d0);
    TwoMidnights(d0, d, IsoDate.Valid);
  }

  /** Tests 1, 3 and 4 (lines 60-85): `YYYY-MM-DD HH:MM:SS`, with or without `.000000`,
      becomes `YYYY-MM-DDTHH:MM:SS+07:00` once the date check accepts it. */
  lemma SpaceStamp(d: string, c: string, tail: string, valid: string -> bool)
    requires IsDateShape(d) && IsClockShape(c) && (tail == "" || tail == Micros) && valid(d + "T" + c + Offset)
    ensures Normalize(Str(d + " " + c + tail), valid) == Some(d + "T" + c + Offset)
  {
    LastSpecificRevision.SpaceForm(d, c, tail);
    ZonedKeeps(d + "T" + c, valid);
  }

  /** Test 1 (lines 60-65): `2025-11-24 07:00:00.000000` becomes `2025-11-24T07:00:00+07:00`. */
  lemma ScriptMicrosCase(d: string, c: string)
    requires d == "2025-11-24" && c == "07:00:00"
    ensures Normalize(Str(d + " " + c + Micros), IsoDate.Valid) == Some(d + "T" + c + Offset)
  {
    ExampleStamp(d, c);
    SpaceStamp(d, c, Micros, IsoDate.Valid);
  }

  /** Test 2 (lines 67-72): `2025-11-24` becomes `2025-11-24T00:00:00+07:00`. */
  lemma ScriptDateOnlyCase(d: string)
    requires d == "2025-11-24"
    ensures Normalize(Str(d), IsoDate.Valid) == Some(d + Midnight)
  {
    MidnightStamp(d);
    ExampleStamp(d, "00:00:00");
    LastSpecificRevision.DateOnly(d);
    MidnightZoned(d, IsoDate.Valid);
  }

  /** Test 3 (lines 74-79): `2025-11-24 14:30:45` becomes `2025-11-24T14:30:45+07:00`. */
  lemma ScriptSecondsCase(d: string, c: string)
    requires d == "2025-11-24" && c == "14:30:45"
    ensures Normalize(Str(d + " " + c), IsoDate.Valid) == Some(d + "T" + c + Offset)
  {
    ExampleStamp(d, c);
    SpaceStamp(d, c, "", IsoDate.Valid);
    assert d + " " + c + "" == d + " " + c;
  }

  /** Test 4 (lines 81-86): `2025-12-01 09:15:00` becomes `2025-12-01T09:15:00+07:00`. */
  lemma ScriptMorningCase(d: string, c: string)
    requires d == "2025-12-01" && c == "09:15:00"
    ensures Normalize(Str(d + " " + c), IsoDate.Valid) == Some(d + "T" + c + Offset)
  {
    ExampleStamp(d, c);
    SpaceStamp(d, c, "", IsoDate.Valid);
    assert d + " " + c + "" == d + " " + c;
  }
}
