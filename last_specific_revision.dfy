/**
 * `formatDepartureDate` as revised in test-dialogflow.js: an array yields its last
 * ISO-like string whose time is not midnight (or its last ISO-like string when all
 * are midnight); a string is split on spaces; the date check runs before the
 * `+07:00` offset is appended.
 */
module LastSpecificRevision {
  import opened Wrappers
  import opened JsText
  import opened Departures
  import IsoDate

  /** Lines 34-45: two space-separated pieces become `date T time +07:00`; anything
      else is kept when it holds a `T`, or gets `T00:00:00+07:00` otherwise. */
  function FromString(raw: string): string
  {
    Shaped(Prepared(raw))
  }

  /** Lines 36-45, on the trimmed text. */
  function Shaped(trimmed: string): string
  {
    var parts := Split(trimmed, ' ');
    if |parts| == 2 then parts[0] + "T" + TimeOfDay(parts[1]) + Offset
    else if 'T' in trimmed then trimmed
    else trimmed + Midnight
  }

  /** Lines 8-32: the last specific candidate, else the last candidate, else nothing. */
  function FromList(items: seq<Element>): Option<string>
  {
    var cs := Candidates(items);
    if |cs| == 0 then None
    else
      var specific := Keep(cs, IsSpecific);
      Some(if |specific| > 0 then specific[|specific| - 1] else cs[|cs| - 1])
  }

  /** `formatDepartureDate(thoiGian)`, lines 3-69; `valid` is the engine's `new Date(s)` check. */
  function Normalize(t: Departure, valid: string -> bool): (r: Option<string>)
    ensures r.Some? ==> valid(r.value) || (|r.value| > |Offset| && valid(r.value[..|r.value| - |Offset|]))
    ensures r.Some? ==> '+' in r.value || 'Z' in r.value
    ensures Falsy(t) || t.Record? || t.Other? ==> r.None?
  {
    if Falsy(t) then None
    else
      var dateStr :=
        match t
        case List(items) => FromList(items)
        case Str(s) => Some(FromString(s))
        case _ => None;
      CheckedThenZoned(dateStr, valid)
  }

  /** Lines 12-31: with no ISO-like string the result is null; otherwise it is the last
      candidate whose time is not `00:00:00`, or the last candidate when all are. */
  lemma {:induction false} ListChoice(items: seq<Element>, valid: string -> bool)
    ensures Candidates(items) == [] ==> Normalize(List(items), valid) == None
    ensures LastWhere(Candidates(items), IsSpecific).Some? ==>
      Normalize(List(items), valid) ==
        CheckedThenZoned(Some(Candidates(items)[LastWhere(Candidates(items), IsSpecific).value]), valid)
    ensures Candidates(items) != [] && LastWhere(Candidates(items), IsSpecific).None? ==>
      Normalize(List(items), valid) == CheckedThenZoned(Some(Candidates(items)[|Candidates(items)| - 1]), valid)
  {
    LastOfKeep(Candidates(items), IsSpecific);
  }

  /** Lines 34-41: `YYYY-MM-DD HH:MM:SS`, with or without a trailing `.000000`,
      becomes `YYYY-MM-DDTHH:MM:SS+07:00`. */
  lemma SpaceForm(d: string, c: string, tail: string)
    requires IsDateShape(d) && IsClockShape(c) && (tail == "" || tail == Micros)
    ensures FromString(d + " " + c + tail) == d + "T" + c + Offset
  {
    SpacePrepared(d, c, tail);
    SpaceSplit(d, c);
    ClockFacts(c);
    assert TimeOfDay(c) == c;
  }

  /** Line 40: a date and a bare hour, `YYYY-MM-DD HH`, become `YYYY-MM-DDTHH:00:00+07:00`. */
  lemma BareHour(d: string, h: string)
    requires IsDateShape(d) && |h| == 2 && IsDecDigit(h[0]) && IsDecDigit(h[1])
    ensures FromString(d + " " + h) == d + "T" + h + ":00:00" + Offset
  {
    var core := d + " " + h;
    BareHourPrepared(d, h);
    BareHourSplit(d, h);
    ShapedPieces(core, d, h);
    PaddedHour(d, h);
  }

  /** Two space-separated pieces become `date T time +07:00`. */
  lemma ShapedPieces(trimmed: string, date: string, time: string)
    requires Split(trimmed, ' ') == [date, time]
    ensures Shaped(trimmed) == date + "T" + TimeOfDay(time) + Offset
  {
  }

  /** A colon-free hour is padded with `:00:00`. */
  lemma PaddedHour(d: string, h: string)
    requires ':' !in h
    ensures d + "T" + TimeOfDay(h) + Offset == d + "T" + h + ":00:00" + Offset
  {
    assert TimeOfDay(h) == h + ":00:00";
    assert d + "T" + (h + ":00:00") == d + "T" + h + ":00:00";
  }

  /** Line 40 through the date check: `YYYY-MM-DD HH` gives `YYYY-MM-DDTHH:00:00+07:00` when
      the check accepts that text, and null otherwise. */
  lemma BareHourChecked(d: string, h: string, valid: string -> bool)
    requires IsDateShape(d) && |h| == 2 && IsDecDigit(h[0]) && IsDecDigit(h[1])
    ensures var s := d + "T" + h + ":00:00" + Offset;
      Normalize(Str(d + " " + h), valid) == if valid(s) then Some(s) else None
  {
    BareHour(d, h);
    ZonedKeeps(d + "T" + h + ":00:00", valid);
  }

  /** Lines 42-45: a `YYYY-MM-DD` date alone becomes midnight `YYYY-MM-DDT00:00:00+07:00`. */
  lemma DateOnly(d: string)
    requires IsDateShape(d)
    ensures FromString(d) == d + Midnight
  {
    DateFacts(d);
    PreparedPlain(d, "");
    assert d + "" == d;
    SplitCount(d, ' ');
    assert multiset(d)[' '] == 0;
    assert 'T' !in d;
  }

  /** Lines 42-45: text without a space that holds a `T` is kept as it is. */
  lemma KeptWithT(s: string)
    requires ' ' !in s && 'T' in s
    ensures Shaped(s) == s
  {
    SplitCount(s, ' ');
    assert multiset(s)[' '] == 0;
  }

  /** Lines 42-45: an ISO timestamp with or without the `+07:00` offset passes through
      unchanged; an offset-less one gets `+07:00` only after the date check. */
  lemma IsoForm(d: string, c: string, z: string)
    requires IsDateShape(d) && IsClockShape(c) && (z == "" || z == Offset)
    ensures FromString(d + "T" + c + z) == d + "T" + c + z
  {
    IsoPrepared(d, c, z);
    IsoChars(d, c, z);
    KeptWithT(d + "T" + c + z);
  }

  /** A list whose last candidate is a specific timestamp that the date check accepts
      yields that timestamp, whatever precedes it. */
  lemma PicksLastSpecific(items: seq<Element>, d: string, c: string, valid: string -> bool)
    requires IsDateShape(d) && IsClockShape(c) && c != "00:00:00" && valid(d + "T" + c + Offset)
    requires Candidates(items) != [] && Candidates(items)[|Candidates(items)| - 1] == d + "T" + c + Offset
    ensures Normalize(List(items), valid) == Some(d + "T" + c + Offset)
  {
    SpecificOf(d, c, Offset);
    LastSpecificChosen(items, valid);
    ZonedKeeps(d + "T" + c, valid);
  }

  /** A specific last candidate is the one handed to the date check. */
  lemma LastSpecificChosen(items: seq<Element>, valid: string -> bool)
    requires Candidates(items) != [] && IsSpecific(Candidates(items)[|Candidates(items)| - 1])
    ensures Normalize(List(items), valid) ==
            CheckedThenZoned(Some(Candidates(items)[|Candidates(items)| - 1]), valid)
  {
    LastWhereAtEnd(Candidates(items), IsSpecific);
    ListChoice(items, valid);
  }

  /** Behind a non-string element and two other ISO-like strings, a last specific
      timestamp is chosen. */
  lemma PicksLastAfterObject(a: string, b: string, d: string, c: string, valid: string -> bool)
    requires IsoLike(a) && IsoLike(b)
    requires IsDateShape(d) && IsClockShape(c) && c != "00:00:00" && valid(d + "T" + c + Offset)
    ensures Normalize(List([NonString, Text(a), Text(b), Text(d + "T" + c + Offset)]), valid)
            == Some(d + "T" + c + Offset)
  {
    var x := d + "T" + c + Offset;
    assert IsoLike(x) by { assert x[10] == 'T' && x[13] == ':'; }
    CandidatesOfThree(a, b, x);
    CandidatesAfterObject([Text(a), Text(b), Text(x)]);
    assert [NonString] + [Text(a), Text(b), Text(x)] == [NonString, Text(a), Text(b), Text(x)];
    PicksLastSpecific([NonString, Text(a), Text(b), Text(x)], d, c, valid);
  }

  /** Script test 1 (lines 75-85): after the range object, of 23:00, 00:00 and 07:00 the
      07:00 entry is chosen, as the script expects. */
  lemma ScriptDialogflowCase(a: string, b: string, d: string, c: string)
    requires a == "2025-11-07T23:00:00+07:00" && b == "2025-11-08T00:00:00+07:00"
    requires d == "2025-11-08" && c == "07:00:00"
    ensures Normalize(List([NonString, Text(a), Text(b), Text(d + "T" + c + Offset)]), IsoDate.Valid)
            == Some(d + "T" + c + Offset)
  {
    ExampleStamp(d, c);
    PicksLastAfterObject(a, b, d, c, IsoDate.Valid);
  }

  /** A list whose only candidate is a non-specific timestamp carrying its own offset
      yields that timestamp when the date check accepts it. */
  lemma OnlyCandidate(items: seq<Element>, x: string, valid: string -> bool)
    requires Candidates(items) == [x] && !IsSpecific(x) && valid(x) && '+' in x
    ensures Normalize(List(items), valid) == Some(x)
  {
    assert LastWhere([x], IsSpecific) == None;
    ListChoice(items, valid);
  }

  /** Behind a non-string element, a lone midnight timestamp the date check accepts is returned. */
  lemma LoneMidnight(d: string, valid: string -> bool)
    requires IsDateShape(d) && valid(d + Midnight)
    ensures Normalize(List([NonString, Text(d + Midnight)]), valid) == Some(d + Midnight)
  {
    MidnightFacts(d);
    OnlyCandidate([NonString, Text(d + Midnight)], d + Midnight, valid);
  }

  /** A midnight timestamp is ISO-like, not specific, and carries its offset. */
  lemma MidnightFacts(d: string)
    requires IsDateShape(d)
    ensures !IsSpecific(d + Midnight) && '+' in d + Midnight
    ensures Candidates([NonString, Text(d + Midnight)]) == [d + Midnight]
  {
    var m := d + Midnight;
    MidnightStamp(d);
    SpecificOf(d, "00:00:00", Offset);
    assert m[|d|] == 'T' && m[|d| + 3] == ':' && m[|d| + 9] == '+';
    AfterObjectOnly(m);
  }

  /** `[object, x]` has `x` as its only candidate. */
  lemma AfterObjectOnly(x: string)
    requires IsoLike(x)
    ensures Candidates([NonString, Text(x)]) == [x]
  {
    CandidatesAfterObject([Text(x)]);
    assert [NonString] + [Text(x)] == [NonString, Text(x)];
    assert [Text(x)][..0] == [];
  }

  /** Script test 2 (lines 91-99): with only a midnight timestamp, that timestamp is returned. */
  lemma ScriptOnlyMidnightCase(d: string)
    requires d == "2025-11-24"
    ensures Normalize(List([NonString, Text(d + Midnight)]), IsoDate.Valid) == Some(d + Midnight)
  {
    MidnightStamp(d);
    ExampleStamp(d, "00:00:00");
    LoneMidnight(d, IsoDate.Valid);
  }

  /** Script test 3 (lines 105-114): of 14:00, 07:00 and 09:30 the last, 09:30, is chosen. */
  lemma ScriptManyTimesCase(d: string, p: string, q: string, c: string)
    requires d == "2025-11-24" && p == "14:00:00" && q == "07:00:00" && c == "09:30:00"
    ensures Normalize(List([Text(d + "T" + p + Offset), Text(d + "T" + q + Offset), Text(d + "T" + c + Offset)]),
                      IsoDate.Valid) == Some(d + "T" + c + Offset)
  {
    var a, b, x := d + "T" + p + Offset, d + "T" + q + Offset, d + "T" + c + Offset;
    ExampleStamp(d, c);
    assert IsoLike(a) by { assert a[10] == 'T' && a[13] == ':'; }
    assert IsoLike(b) by { assert b[10] == 'T' && b[13] == ':'; }
    assert IsoLike(x) by { assert x[10] == 'T' && x[13] == ':'; }
    CandidatesOfThree(a, b, x);
    PicksLastSpecific([Text(a), Text(b), Text(x)], d, c, IsoDate.Valid);
  }

  /** Script test 4 (lines 120-124): `2025-11-24 07:00:00.000000` becomes `2025-11-24T07:00:00+07:00`. */
  lemma ScriptMicrosCase(d: string, c: string)
    requires d == "2025-11-24" && c == "07:00:00"
    ensures Normalize(Str(d + " " + c + Micros), IsoDate.Valid) == Some(d + "T" + c + Offset)
  {
    ExampleStamp(d, c);
    SpaceForm(d, c, Micros);
    ZonedKeeps(d + "T" + c, IsoDate.Valid);
  }
}
