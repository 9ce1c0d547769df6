/**
 * How the four `formatDepartureDate` revisions relate: on Dialogflow's
 * `YYYY-MM-DD HH:MM:SS` strings and on bare dates they all agree; on an ISO
 * timestamp without offset they build the same text but check different strings;
 * on a date with a bare hour the two earlier revisions and the two later ones differ.
 */
module Revisions {
  import opened Wrappers
  import opened JsText
  import opened Departures
  import ObjectRevision
  import StringRevision
  import LastSpecificRevision
  import FirstSpecificRevision

  /** `YYYY-MM-DD HH:MM:SS`, with or without `.000000`, gives `YYYY-MM-DDTHH:MM:SS+07:00` in
      every revision, or null in every revision when the date check rejects that text. */
  lemma SpaceFormEverywhere(d: string, c: string, tail: string, valid: string -> bool)
    requires IsDateShape(d) && IsClockShape(c) && (tail == "" || tail == Micros)
    ensures var s, r := d + " " + c + tail, if valid(d + "T" + c + Offset) then Some(d + "T" + c + Offset) else None;
      ObjectRevision.Normalize(Str(s), valid) == r &&
      StringRevision.Normalize(Str(s), valid) == r &&
      LastSpecificRevision.Normalize(Str(s), valid) == r &&
      FirstSpecificRevision.Normalize(Str(s), valid) == r
  {
    var s, x := d + " " + c + tail, d + "T" + c + Offset;
    var r := if valid(x) then Some(x) else None;
    assert ObjectRevision.Normalize(Str(s), valid) == r by {
      ObjectRevision.SpaceForm(d, c, tail);
    }
    assert StringRevision.Normalize(Str(s), valid) == r by {
      ObjectRevision.SpaceForm(d, c, tail);
      StringRevision.AgreesWithObjectRevision(s, valid);
    }
    assert LastSpecificRevision.Normalize(Str(s), valid) == r by {
      LastSpecificRevision.SpaceForm(d, c, tail);
      ZonedKeeps(d + "T" + c, valid);
    }
    assert FirstSpecificRevision.Normalize(Str(s), valid) == r by {
      LastSpecificRevision.SpaceForm(d, c, tail);
      ZonedKeeps(d + "T" + c, valid);
    }
  }

  /** A bare `YYYY-MM-DD` becomes its midnight `YYYY-MM-DDT00:00:00+07:00` in every revision. */
  lemma DateOnlyEverywhere(d: string, valid: string -> bool)
    requires IsDateShape(d)
    ensures var r := if valid(d + Midnight) then Some(d + Midnight) else None;
      ObjectRevision.Normalize(Str(d), valid) == r &&
      StringRevision.Normalize(Str(d), valid) == r &&
      LastSpecificRevision.Normalize(Str(d), valid) == r &&
      FirstSpecificRevision.Normalize(Str(d), valid) == r
  {
    var m := d + Midnight;
    MidnightStamp(d);
    assert m != "";
    ObjectRevision.DateOnly(d);
    StringRevision.AgreesWithObjectRevision(d, valid);
    LastSpecificRevision.DateOnly(d);
    ZonedKeeps(d + "T" + "00:00:00", valid);
  }

  /** `YYYY-MM-DDTHH:MM:SS` without offset: every revision answers
      `YYYY-MM-DDTHH:MM:SS+07:00`, but the object and string revisions check the text with
      the offset while the test-dialogflow.js and test-format.js revisions check it before
      the offset is added. */
  lemma IsoWithoutOffsetEverywhere(d: string, c: string, valid: string -> bool)
    requires IsDateShape(d) && IsClockShape(c)
    ensures var s, r := d + "T" + c, Some(d + "T" + c + Offset);
      ObjectRevision.Normalize(Str(s), valid) == (if valid(s + Offset) then r else None) &&
      StringRevision.Normalize(Str(s), valid) == (if valid(s + Offset) then r else None) &&
      LastSpecificRevision.Normalize(Str(s), valid) == (if valid(s) then r else None) &&
      FirstSpecificRevision.Normalize(Str(s), valid) == (if valid(s) then r else None)
  {
    var s := d + "T" + c;
    IsoChars(d, c, "");
    assert s + "" == s;
    ObjectRevision.IsoWithoutOffset(d, c);
    StringRevision.AgreesWithObjectRevision(s, valid);
    LastSpecificRevision.IsoForm(d, c, "");
  }

  /** `YYYY-MM-DD HH`, a date and a bare hour: the object and string revisions have no
      colon to recognise the space form and append the midnight suffix after the hour,
      while the test-dialogflow.js and test-format.js revisions pad the hour to
      `HH:00:00`. */
  lemma BareHourDiverges(d: string, h: string, valid: string -> bool)
    requires IsDateShape(d) && |h| == 2 && IsDecDigit(h[0]) && IsDecDigit(h[1])
    ensures var s := d + " " + h;
      var early, late := d + " " + h + Midnight, d + "T" + h + ":00:00" + Offset;
      ObjectRevision.Normalize(Str(s), valid) == (if valid(early) then Some(early) else None) &&
      StringRevision.Normalize(Str(s), valid) == (if valid(early) then Some(early) else None) &&
      LastSpecificRevision.Normalize(Str(s), valid) == (if valid(late) then Some(late) else None) &&
      FirstSpecificRevision.Normalize(Str(s), valid) == (if valid(late) then Some(late) else None)
  {
    var s := d + " " + h;
    ObjectRevision.BareHourChecked(d, h, valid);
    StringRevision.AgreesWithObjectRevision(s, valid);
    LastSpecificRevision.BareHourChecked(d, h, valid);
    FirstSpecificRevision.AgreesOnStrings(s, valid);
  }
}
