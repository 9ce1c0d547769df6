/**
 * The Dialogflow fulfillment handler of api/webhook.js (lines 379-475): which
 * text goes back for a request, which trip search is sent to the backend, and
 * how a search answer is rendered as a listing of at most five trips.
 *
 * The network is an input: the catalog each location lookup would fetch and the
 * outcome of the trip search. The clock is the parameter `now`. The locale
 * formatters (`formatTime`, `formatPrice`, `averageRating.toFixed(1)`) and the
 * engine's date conversion (`new Date(iso).toISOString()`) are function parameters.
 */
module Fulfillment {
  import opened Wrappers
  import opened JsText
  import Departures
  import opened Locations
  import LastSpecificRevision
  import IsoDate

  /** A Dialogflow parameter: absent, a string, or an object whose `original` may be a string. */
  datatype Param = Absent | Text(s: string) | Structured(original: Option<string>)

  /** `parameters.x?.original || parameters.x`: nothing, a string, or the object itself. */
  datatype Value = Missing | Str(s: string) | Obj

  /** The incoming request: a method other than POST; a POST body whose `queryResult` or
      `intent` is missing, which throws; or the intent's `displayName` and three parameters. */
  datatype Request =
    | NotPost
    | Malformed
    | Query(intent: string, diemDi: Param, diemDen: Param, thoiGian: Param)

  /** One element of the search answer; `NullTrip` is a null entry, whose fields cannot be read. */
  datatype Trip =
    | NullTrip
    | Trip(tripId: string, operatorName: string, departureTime: Option<string>,
           arrivalEstimateTime: Option<string>, pricePerSeat: Option<int>,
           availableSeats: Option<int>, averageRating: Option<real>)

  /** The trip search: no HTTP answer (network error, timeout, or a body that cannot be
      read), an HTTP error answer, or the selected `result || data || body` payload,
      `None` when that payload is not an array. */
  datatype Search =
    | NoResponse
    | ErrorResponse(dataMessage: Option<string>, errorMessage: string)
    | Answered(trips: Option<seq<Trip>>)

  /** `formatTime`, `formatPrice` and `toFixed(1)`, which depend on the locale tables. */
  datatype Formatters = Formatters(time: Option<string> -> string, price: Option<int> -> string, rating: real -> string)

  /** The JSON body posted to `/api/trips/search`. */
  datatype SearchRequest = SearchRequest(startLocation: int, endLocation: int, status: string, departureDate: Option<string>)

  /** The text sent back, the search that was posted, and the resolver's new state. */
  datatype Response = Response(status: int, text: string, sent: Option<SearchRequest>, state: CacheState)

  const Intent: string := "TimVeXe"
  const NotAllowedText: string := "Method Not Allowed"
  const DefaultText: string := "Xin lỗi, tôi chưa hiểu ý bạn."
  const AskPlacesText: string := "Vui lòng cho tôi biết điểm đi và điểm đến."
  const GenericErrorText: string := "Đã có lỗi xảy ra. Vui lòng thử lại."
  const UnknownOperator: string := "Nhà xe không xác định"
  const BookingLink: string := "https://randa-unhappi-castiel.ngrok-free.dev/booking?tripId="
  const ShownTrips: nat := 5

  /* ---------- parameters ---------- */

  function Unwrap(p: Param): (v: Value)
    ensures p.Text? ==> v == Str(p.s)
    ensures p.Absent? ==> v.Missing?
    ensures p.Structured? && p.original.Some? && p.original.value != "" ==> v == Str(p.original.value)
    ensures p.Structured? && (p.original.None? || p.original.value == "") ==> v.Obj?
  {
    match p
    case Absent => Missing
    case Text(s) => Str(s)
    case Structured(o) => if o.Some? && o.value != "" then Str(o.value) else Obj
  }

  predicate Truthy(v: Value) {
    v.Obj? || (v.Str? && v.s != "")
  }

  /* ---------- the webhook's departure date ---------- */

  /** Line 335: `thoiGian.replace(' ', 'T').split('.')[0] + '+07:00'`. */
  function DepartureText(s: string): string {
    Split(ReplaceFirst(s, ' ', 'T'), '.')[0] + Departures.Offset
  }

  /** `formatDepartureDate` of lines 332-344: null for a falsy value or an object (whose
      missing `replace` throws inside the `try`), else the engine's conversion of the text. */
  function WebhookDeparture(v: Value, toIso: string -> Option<string>): (r: Option<string>)
    ensures !(v.Str? && v.s != "") ==> r.None?
    ensures v.Str? && v.s != "" ==> r == toIso(DepartureText(v.s))
  {
    match v
    case Str(s) => if s == "" then None else toIso(DepartureText(s))
    case _ => None
  }

  /** Dialogflow's `YYYY-MM-DD HH:MM:SS`, with or without `.000000`, becomes
      `YYYY-MM-DDTHH:MM:SS+07:00` before the conversion. */
  lemma DepartureTextOfDialogflow(d: string, c: string, tail: string)
    requires Departures.IsDateShape(d) && Departures.IsClockShape(c) && (tail == "" || tail == Micros)
    ensures DepartureText(d + " " + c + tail) == d + "T" + c + Departures.Offset
  {
    SpaceReplaced(d, c, tail);
    StampPiece(d, c, tail);
  }

  /** The first space, the one after the date, becomes `T`. */
  lemma SpaceReplaced(d: string, c: string, tail: string)
    requires Departures.IsDateShape(d)
    ensures ReplaceFirst(d + " " + c + tail, ' ', 'T') == d + "T" + c + tail
  {
    Departures.DateFacts(d);
    assert d + " " + c + tail == d + [' '] + (c + tail);
    ReplaceAfterFreePrefix(d, c + tail, ' ', 'T');
    assert d + ['T'] + (c + tail) == d + "T" + c + tail;
  }

  /** Splitting `YYYY-MM-DDTHH:MM:SS`, with or without `.000000`, on `.` keeps the stamp first. */
  lemma StampPiece(d: string, c: string, tail: string)
    requires Departures.IsDateShape(d) && Departures.IsClockShape(c) && (tail == "" || tail == Micros)
    ensures Split(d + "T" + c + tail, '.')[0] == d + "T" + c
  {
    var core := d + "T" + c;
    NoDot(d, c);
    if tail == "" {
      assert core + tail == core;
      FirstPieceOfFree(core, "", '.');
    } else {
      assert core + tail == core + ['.'] + "000000";
      FirstPieceOfFree(core, "000000", '.');
    }
  }

  /** A stamp `YYYY-MM-DDTHH:MM:SS` holds no `.`. */
  lemma NoDot(d: string, c: string)
    requires Departures.IsDateShape(d) && Departures.IsClockShape(c)
    ensures '.' !in d + "T" + c
  {
    var core := d + "T" + c;
    forall k | 0 <= k < |core| ensures core[k] != '.' {
      if k < 10 {
        assert core[k] == d[k];
      } else if k > 10 {
        assert core[k] == c[k - 11];
      }
    }
  }

  /** A timestamp that already carries `+07:00` gets a second one, and the result is
      not a date-time string of the format. */
  lemma OffsetTwice(d: string, c: string)
    requires Departures.IsDateShape(d) && Departures.IsClockShape(c)
    ensures DepartureText(d + "T" + c + Departures.Offset) == d + "T" + c + Departures.Offset + Departures.Offset
    ensures !IsoDate.Valid(d + "T" + c + Departures.Offset + Departures.Offset)
  {
    OffsetKept(d, c);
    TwoOffsetsInvalid(d, c);
  }

  /** `YYYY-MM-DDTHH:MM:SS+07:00` has no space and no `.`, so only the offset is appended. */
  lemma OffsetKept(d: string, c: string)
    requires Departures.IsDateShape(d) && Departures.IsClockShape(c)
    ensures DepartureText(d + "T" + c + Departures.Offset) == d + "T" + c + Departures.Offset + Departures.Offset
  {
    var s := d + "T" + c + Departures.Offset;
    Departures.DateFacts(d);
    Departures.ClockChars(c);
    NoDot(d, c);
    assert ' ' !in s && '.' !in s;
    FirstPieceOfFree(s, "", '.');
  }

  /** Two offsets make the text too long for any zone of the format. */
  lemma TwoOffsetsInvalid(d: string, c: string)
    requires |d| == 10 && |c| == 8
    ensures !IsoDate.Valid(d + "T" + c + Departures.Offset + Departures.Offset)
  {
    var t := d + "T" + c + Departures.Offset + Departures.Offset;
    assert |t| == 31;
    var r := t[11..];
    assert |r| == 20;
    assert !IsoDate.ValidZone(r[8..]) by { assert |r[8..]| == 12; }
    assert !IsoDate.ValidZone(r[5..]) by { assert |r[5..]| == 15; }
  }

  /** A Dialogflow `YYYY-MM-DD HH:MM:SS[.000000]` parameter is converted from the stamp
      `YYYY-MM-DDTHH:MM:SS+07:00`. */
  lemma WebhookDepartureOfDialogflow(d: string, c: string, tail: string, toIso: string -> Option<string>)
    requires Departures.IsDateShape(d) && Departures.IsClockShape(c) && (tail == "" || tail == Micros)
    ensures WebhookDeparture(Str(d + " " + c + tail), toIso) == toIso(d + "T" + c + Departures.Offset)
  {
    DepartureTextOfDialogflow(d, c, tail);
  }

  /** On that input the webhook builds, before its conversion, the text the
      test-dialogflow.js revision returns. */
  lemma DepartureTextAgrees(d: string, c: string, tail: string)
    requires Departures.IsDateShape(d) && Departures.IsClockShape(c) && (tail == "" || tail == Micros)
    ensures DepartureText(d + " " + c + tail) == LastSpecificRevision.FromString(d + " " + c + tail)
  {
    DepartureTextOfDialogflow(d, c, tail);
    LastSpecificRevision.SpaceForm(d, c, tail);
  }

  /* ---------- the listing ---------- */

  /** `${n}` for a count. */
  function Count(n: nat): string {
    NatToString(n)
  }

  /** `${trip.availableSeats || 0}` */
  function SeatsText(seats: Option<int>): (r: string)
    ensures seats.None? || seats == Some(0) ==> r == "0"
    ensures seats.Some? && seats.value > 0 ==> ParseInt(r) == seats && r[0] != '0'
    ensures seats.Some? && seats.value < 0 ==> r == "-" + NatToString(-seats.value)
  {
    match seats
    case Some(n) => if n == 0 then "0" else IntToString(n)
    case None => "0"
  }

  /** The lines one trip adds (lines 446-459); a null trip throws on its first field and
      adds the error line instead. */
  function Entry(index: nat, t: Trip, fmt: Formatters): (r: string)
    ensures t.NullTrip? ==> r == Count(index) + ". Lỗi hiển thị chuyến này.\n\n"
    ensures t.Trip? ==> StartsWith(r, Count(index) + ". 🚍 " + (if t.operatorName == "" then UnknownOperator else t.operatorName) + "\n")
    ensures t.Trip? ==> EndsWith(r, SeatsLine(t.availableSeats) + RatingLine(t.averageRating, fmt) + LinkLine(t.tripId))
  {
    match t
    case NullTrip => Count(index) + ". Lỗi hiển thị chuyến này.\n\n"
    case Trip(id, op, dep, arr, price, seats, rating) =>
      var head := Count(index) + ". 🚍 " + (if op == "" then UnknownOperator else op) + "\n";
      var middle :=
        "   ⏰ " + fmt.time(dep) + " → " + fmt.time(arr) + "\n"
        + "   💰 " + fmt.price(price) + " VNĐ\n";
      var tail := SeatsLine(seats) + RatingLine(rating, fmt) + LinkLine(id);
      Framed(head, middle, tail);
      head + middle + tail
  }

  /** `s.endsWith(p)` */
  predicate EndsWith(s: string, p: string) {
    |p| <= |s| && s[|s| - |p|..] == p
  }

  /** A text built as `head + middle + tail` starts with `head` and ends with `tail`. */
  lemma Framed(head: string, middle: string, tail: string)
    ensures StartsWith(head + middle + tail, head) && EndsWith(head + middle + tail, tail)
  {
    var r := head + middle + tail;
    assert r[..|head|] == head;
    assert r[|r| - |tail|..] == tail;
  }

  /** Line 451: the seats line. */
  function SeatsLine(seats: Option<int>): string {
    "   🪑 " + SeatsText(seats) + " chỗ trống\n"
  }

  /** Lines 447 and 455: the booking link line, which ends the entry. */
  function LinkLine(id: string): string {
    "   🔗 Đặt vé: " + BookingLink + id + "\n\n"
  }

  /** `if (trip.averageRating > 0)`: the rating line appears only for a positive rating. */
  function RatingLine(rating: Option<real>, fmt: Formatters): (r: string)
    ensures r != "" <==> rating.Some? && rating.value > 0.0
  {
    if rating.Some? && rating.value > 0.0 then "   ⭐ " + fmt.rating(rating.value) + "/5\n" else ""
  }

  /** The entries of the first `k` trips, numbered from 1. */
  function Entries(trips: seq<Trip>, k: nat, fmt: Formatters): string
    requires k <= |trips|
  {
    if k == 0 then "" else Entries(trips, k - 1, fmt) + Entry(k, trips[k - 1], fmt)
  }

  function Min(a: nat, b: nat): nat {
    if a <= b then a else b
  }

  /** `` `${thoiGian ? ` vào ${formatTime(departureDate)}` : ''}` `` */
  function When(thoiGian: Value, departure: Option<string>, fmt: Formatters): (r: string)
    ensures r != "" <==> Truthy(thoiGian)
  {
    if Truthy(thoiGian) then " vào " + fmt.time(departure) else ""
  }

  function Header(n: nat, diemDi: string, diemDen: string, when: string): string {
    "🚌 Tìm thấy " + Count(n) + " chuyến từ " + diemDi + " đến " + diemDen + when + ":\n\n"
  }

  /** `if (trips.length > 5) responseText += ...`: the remainder line. */
  function Remainder(n: nat): (r: string)
    ensures r != "" <==> n > ShownTrips
    ensures n > ShownTrips ==> r == "... và " + Count(n - ShownTrips) + " chuyến khác."
  {
    if n > ShownTrips then "... và " + Count(n - ShownTrips) + " chuyến khác." else ""
  }

  /** The whole listing text of lines 442-461: the header, the first five entries, and the
      remainder line. */
  function Listing(trips: seq<Trip>, diemDi: string, diemDen: string, when: string, fmt: Formatters): string
  {
    Header(|trips|, diemDi, diemDen, when) + Entries(trips, Min(|trips|, ShownTrips), fmt) + Remainder(|trips|)
  }

  /** The entries of the first `k` trips depend on those trips alone: trips appended after
      them never change the text. */
  lemma {:induction false} EntriesPrefix(trips: seq<Trip>, more: seq<Trip>, k: nat, fmt: Formatters)
    requires k <= |trips|
    ensures Entries(trips + more, k, fmt) == Entries(trips, k, fmt)
  {
    if k > 0 {
      var all := trips + more;
      EntriesPrefix(trips, more, k - 1, fmt);
      assert all[k - 1] == trips[k - 1];
      assert Entries(all, k, fmt) == Entries(all, k - 1, fmt) + Entry(k, all[k - 1], fmt);
    }
  }

  /** Trips past the fifth never appear in the entries. */
  lemma OnlyFiveShown(trips: seq<Trip>, fmt: Formatters)
    requires |trips| > ShownTrips
    ensures Entries(trips, Min(|trips|, ShownTrips), fmt) == Entries(trips[..ShownTrips], ShownTrips, fmt)
  {
    assert trips == trips[..ShownTrips] + trips[ShownTrips..];
    EntriesPrefix(trips[..ShownTrips], trips[ShownTrips..], ShownTrips, fmt);
  }

  /** Lines 442-461: the header, then each shown trip's entry appended to `responseText`,
      then the remainder line. */
  method RenderListing(trips: seq<Trip>, diemDi: string, diemDen: string, when: string, fmt: Formatters)
    returns (text: string)
    ensures text == Listing(trips, diemDi, diemDen, when, fmt)
  {
    var top := Min(|trips|, ShownTrips);
    text := Header(|trips|, diemDi, diemDen, when);
    ghost var head := text;
    var i := 0;
    while i < top
      invariant 0 <= i <= top
      invariant text == head + Entries(trips, i, fmt)
    {
      var entry := Entry(i + 1, trips[i], fmt);
      Associative(head, Entries(trips, i, fmt), entry);
      text := text + entry;
      i := i + 1;
    }
    if |trips| > ShownTrips {
      text := text + Remainder(|trips|);
    } else {
      assert text + Remainder(|trips|) == text;
    }
  }

  /** Concatenation regroups freely (one entry appended to the text so far). */
  lemma Associative(a: string, b: string, c: string)
    ensures (a + b) + c == a + (b + c)
  {
  }

  /* ---------- the reply ---------- */

  /** `Xin lỗi, không tìm thấy địa điểm "…". Thử tên khác?` */
  function UnknownPlaceText(name: string): string {
    "Xin lỗi, không tìm thấy địa điểm \"" + name + "\". Thử tên khác?"
  }

  function NoTripsText(diemDi: string, diemDen: string, when: string): string {
    "😔 Không tìm thấy chuyến nào từ " + diemDi + " đến " + diemDen + when + ". Thử ngày khác?"
  }

  /** The handler's `catch` (lines 469-474): an HTTP error answer shows the server's
      message (or the error's own), anything else the generic apology. */
  function ErrorText(search: Search): (r: string)
    requires !search.Answered?
    ensures search.NoResponse? ==> r == GenericErrorText
    ensures search.ErrorResponse? ==> StartsWith(r, "Lỗi server: ")
    ensures search.ErrorResponse? && search.dataMessage.Some? && search.dataMessage.value != "" ==>
              r == "Lỗi server: " + search.dataMessage.value
    ensures search.ErrorResponse? && (search.dataMessage.None? || search.dataMessage.value == "") ==>
              r == "Lỗi server: " + search.errorMessage
  {
    match search
    case ErrorResponse(dm, em) =>
      var msg := if dm.Some? && dm.value != "" then dm.value else em;
      assert ("Lỗi server: " + msg)[..|"Lỗi server: "|] == "Lỗi server: ";
      "Lỗi server: " + msg
    case _ => GenericErrorText
  }

  /** Lines 438-464: the text for a search outcome. */
  function SearchText(search: Search, diemDi: string, diemDen: string, when: string, fmt: Formatters): string
  {
    match search
    case Answered(trips) =>
      if trips.Some? && |trips.value| > 0 then Listing(trips.value, diemDi, diemDen, when, fmt)
      else NoTripsText(diemDi, diemDen, when)
    case _ => ErrorText(search)
  }

  /** `getLocationId(value)` on the resolver state: `None` when it throws (an object has no
      `trim`, after the reload check has run), else the id or null. */
  function LookupValue(s: CacheState, v: Value, now: int, catalog: Catalog): (CacheState, Option<Option<int>>)
  {
    match v
    case Missing => (s, Some(None))
    case Str(name) =>
      if name == "" then (s, Some(None))
      else
        var t := Refreshed(s, now, catalog);
        (t, Some(Match(t.entries, ToLower(Trim(name)))))
    case Obj => (Refreshed(s, now, catalog), None)
  }

  /** `!!id` for a lookup result. */
  predicate IdTruthy(id: Option<int>) {
    id.Some? && id.value != 0
  }

  function Name(v: Value): string {
    if v.Str? then v.s else ""
  }

  /** `if (departureDate) requestBody.departureDate = departureDate` */
  function BodyDate(departure: Option<string>): Option<string> {
    if departure.Some? && departure.value != "" then departure else None
  }

  /** The handler (lines 379-475) on the resolver state. `first` and `second` are what a
      reload during the origin and the destination lookup would fetch; `toIso` is the
      engine's date conversion and `search` the backend's answer to the posted request. */
  function Respond(s: CacheState, req: Request, now: int, first: Catalog, second: Catalog,
                   toIso: string -> Option<string>, search: Search, fmt: Formatters): Response
  {
    match req
    case NotPost => Response(405, NotAllowedText, None, s)
    case Malformed => Response(200, GenericErrorText, None, s)
    case Query(intent, p1, p2, p3) =>
      if intent != Intent then Response(200, DefaultText, None, s)
      else Served(s, Unwrap(p1), Unwrap(p2), Unwrap(p3), now, first, second, toIso, search, fmt)
  }

  /** Lines 395-412 and on, for the `TimVeXe` intent: the prompt when a place is missing,
      the generic apology when a lookup throws, else the answer once both ids are known. */
  function Served(s: CacheState, diemDi: Value, diemDen: Value, thoiGian: Value, now: int,
                  first: Catalog, second: Catalog, toIso: string -> Option<string>, search: Search,
                  fmt: Formatters): (r: Response)
    ensures r.status == 200
  {
    if !Truthy(diemDi) || !Truthy(diemDen) then Response(200, AskPlacesText, None, s)
    else
      var (s1, start) := LookupValue(s, diemDi, now, first);
      if start.None? then Response(200, GenericErrorText, None, s1)
      else
        var (s2, end) := LookupValue(s1, diemDen, now, second);
        if end.None? then Response(200, GenericErrorText, None, s2)
        else AfterLookups(s2, diemDi, diemDen, thoiGian, start.value, end.value, toIso, search, fmt)
  }

  /** Lines 413-464, once both lookups have returned `a` and `b`. */
  function AfterLookups(s: CacheState, diemDi: Value, diemDen: Value, thoiGian: Value, a: Option<int>, b: Option<int>,
                        toIso: string -> Option<string>, search: Search, fmt: Formatters): (r: Response)
    ensures r.status == 200 && r.state == s
    ensures r.sent.Some? <==> IdTruthy(a) && IdTruthy(b)
  {
    if !IdTruthy(a) || !IdTruthy(b) then
      Response(200, UnknownPlaceText(if !IdTruthy(a) then Name(diemDi) else Name(diemDen)), None, s)
    else
      var departure := WebhookDeparture(thoiGian, toIso);
      var sent := SearchRequest(a.value, b.value, "on_sell", BodyDate(departure));
      Response(200, SearchText(search, Name(diemDi), Name(diemDen), When(thoiGian, departure, fmt), fmt), Some(sent), s)
  }

  /* ---------- what the handler promises ---------- */

  /** Only POST is served; anything else is answered 405 and changes nothing. */
  lemma OnlyPost(s: CacheState, req: Request, now: int, first: Catalog, second: Catalog,
                 toIso: string -> Option<string>, search: Search, fmt: Formatters)
    ensures var r := Respond(s, req, now, first, second, toIso, search, fmt);
      (r.status == 405 <==> req.NotPost?) && (req.NotPost? ==> r.sent.None? && r.state == s)
  {
  }

  /** Any intent other than `TimVeXe` keeps the default text, touches no state and sends nothing. */
  lemma OtherIntent(s: CacheState, intent: string, p1: Param, p2: Param, p3: Param, now: int,
                    first: Catalog, second: Catalog, toIso: string -> Option<string>, search: Search, fmt: Formatters)
    requires intent != Intent
    ensures Respond(s, Query(intent, p1, p2, p3), now, first, second, toIso, search, fmt) == Response(200, DefaultText, None, s)
  {
  }

  /** A missing or empty origin or destination gives the prompt before any lookup. */
  lemma MissingPlace(s: CacheState, p1: Param, p2: Param, p3: Param, now: int,
                     first: Catalog, second: Catalog, toIso: string -> Option<string>, search: Search, fmt: Formatters)
    requires p1.Absent? || p2.Absent? || p1 == Param.Text("") || p2 == Param.Text("")
    ensures Respond(s, Query(Intent, p1, p2, p3), now, first, second, toIso, search, fmt) == Response(200, AskPlacesText, None, s)
  {
  }

  /** For two non-empty names both lookups run, each after its own reload check. A search
      is posted exactly when both resolve to a truthy id, and it carries those ids, the
      `on_sell` status and the converted date, and the reply is the text for the search's
      outcome; otherwise the reply names the origin when it failed, else the destination. */
  lemma TwoNames(s: CacheState, o: string, d: string, p3: Param, now: int,
                 first: Catalog, second: Catalog, toIso: string -> Option<string>, search: Search, fmt: Formatters)
    requires o != "" && d != ""
    ensures var t1 := Refreshed(s, now, first);
      var t2 := Refreshed(t1, now, second);
      var a := Match(t1.entries, ToLower(Trim(o)));
      var b := Match(t2.entries, ToLower(Trim(d)));
      var r := Respond(s, Query(Intent, Param.Text(o), Param.Text(d), p3), now, first, second, toIso, search, fmt);
      r.state == t2 && r.status == 200 &&
      (r.sent.Some? <==> IdTruthy(a) && IdTruthy(b)) &&
      (r.sent.Some? ==> r.sent.value == SearchRequest(a.value, b.value, "on_sell", BodyDate(WebhookDeparture(Unwrap(p3), toIso)))) &&
      (r.sent.Some? ==> r.text == SearchText(search, o, d, When(Unwrap(p3), WebhookDeparture(Unwrap(p3), toIso), fmt), fmt)) &&
      (!IdTruthy(a) ==> r.text == UnknownPlaceText(o)) &&
      (IdTruthy(a) && !IdTruthy(b) ==> r.text == UnknownPlaceText(d))
  {
    var t1 := Refreshed(s, now, first);
    var t2 := Refreshed(t1, now, second);
    var a := Match(t1.entries, ToLower(Trim(o)));
    var b := Match(t2.entries, ToLower(Trim(d)));
    BothLooked(s, o, d, p3, now, first, second, toIso, search, fmt);
    Resolved(t2, o, d, Unwrap(p3), a, b, toIso, search, fmt);
  }

  /** For two non-empty names the handler runs both lookups and goes on with their results. */
  lemma BothLooked(s: CacheState, o: string, d: string, p3: Param, now: int,
                   first: Catalog, second: Catalog, toIso: string -> Option<string>, search: Search, fmt: Formatters)
    requires o != "" && d != ""
    ensures var t1 := Refreshed(s, now, first);
      var t2 := Refreshed(t1, now, second);
      Respond(s, Query(Intent, Param.Text(o), Param.Text(d), p3), now, first, second, toIso, search, fmt)
        == AfterLookups(t2, Str(o), Str(d), Unwrap(p3), Match(t1.entries, ToLower(Trim(o))),
                        Match(t2.entries, ToLower(Trim(d))), toIso, search, fmt)
  {
    var t1 := Refreshed(s, now, first);
    var t2 := Refreshed(t1, now, second);
    assert Respond(s, Query(Intent, Param.Text(o), Param.Text(d), p3), now, first, second, toIso, search, fmt)
        == Served(s, Str(o), Str(d), Unwrap(p3), now, first, second, toIso, search, fmt);
    assert LookupValue(s, Str(o), now, first) == (t1, Some(Match(t1.entries, ToLower(Trim(o)))));
    assert LookupValue(t1, Str(d), now, second) == (t2, Some(Match(t2.entries, ToLower(Trim(d)))));
  }

  /** Once both lookups returned: the search carries both ids, or the reply names the
      origin when it failed, else the destination. */
  lemma Resolved(s: CacheState, o: string, d: string, thoiGian: Value, a: Option<int>, b: Option<int>,
                 toIso: string -> Option<string>, search: Search, fmt: Formatters)
    ensures var r := AfterLookups(s, Str(o), Str(d), thoiGian, a, b, toIso, search, fmt);
      (r.sent.Some? ==> r.sent.value == SearchRequest(a.value, b.value, "on_sell", BodyDate(WebhookDeparture(thoiGian, toIso)))) &&
      (r.sent.Some? ==> r.text == SearchText(search, o, d, When(thoiGian, WebhookDeparture(thoiGian, toIso), fmt), fmt)) &&
      (!IdTruthy(a) ==> r.text == UnknownPlaceText(o)) &&
      (IdTruthy(a) && !IdTruthy(b) ==> r.text == UnknownPlaceText(d))
  {
  }

  /** An object-valued place whose `original` is not a non-empty string makes the lookup
      throw after its reload check: the generic apology, nothing posted. */
  lemma ObjectPlace(s: CacheState, p2: Param, p3: Param, now: int,
                    first: Catalog, second: Catalog, toIso: string -> Option<string>, search: Search, fmt: Formatters)
    ensures var r := Respond(s, Query(Intent, Structured(None), p2, p3), now, first, second, toIso, search, fmt);
      r.sent.None? &&
      (Truthy(Unwrap(p2)) ==> r.text == GenericErrorText && r.state == Refreshed(s, now, first))
  {
  }

  /** With a resolver state whose ids are non-zero (what every reload builds), a lookup
      that finds an entry is truthy. */
  lemma ResolvedIsTruthy(s: CacheState, name: string, now: int, catalog: Catalog)
    requires DistinctKeys(s.entries) && NonZeroIds(s.entries)
    ensures var t := Refreshed(s, now, catalog);
      NonZeroIds(t.entries) && (Match(t.entries, ToLower(Trim(name))).Some? ==> IdTruthy(Match(t.entries, ToLower(Trim(name)))))
  {
    RefreshKeepsShape(s, now, catalog);
  }

  /** With both names resolved, an answer with trips yields the listing; an empty list or
      a payload that is not an array yields the "no trips" text; an HTTP error shows the
      server's message. */
  lemma ReplyToSearch(search: Search, o: string, d: string, when: string, fmt: Formatters)
    ensures search.Answered? && search.trips.Some? && |search.trips.value| > 0 ==>
              SearchText(search, o, d, when, fmt) == Listing(search.trips.value, o, d, when, fmt)
    ensures search.Answered? && (search.trips.None? || search.trips.value == []) ==>
              SearchText(search, o, d, when, fmt) == NoTripsText(o, d, when)
    ensures search.ErrorResponse? ==>
              SearchText(search, o, d, when, fmt) ==
              "Lỗi server: " + (if search.dataMessage.Some? && search.dataMessage.value != ""
                               then search.dataMessage.value else search.errorMessage)
    ensures search.NoResponse? ==> SearchText(search, o, d, when, fmt) == GenericErrorText
  {
  }

  /* ---------- the handler ---------- */

  /** `getLocationId(value)` for the handler: `None` when it throws. */
  method LookupOn(cache: LocationCache, v: Value, now: int, catalog: Catalog) returns (r: Option<Option<int>>)
    requires cache.Valid()
    modifies cache
    ensures cache.Valid()
    ensures (cache.State(), r) == LookupValue(old(cache.State()), v, now, catalog)
  {
    match v
    case Missing =>
      return Some(None);
    case Str(name) =>
      var id := cache.Resolve(name, now, catalog);
      return Some(id);
    case Obj =>
      cache.Refresh(now, catalog);
      return None;
  }

  /** The handler: the status and text sent back and the search posted, with the cache
      updated in place. */
  method Handle(cache: LocationCache, req: Request, now: int, first: Catalog, second: Catalog,
                toIso: string -> Option<string>, search: Search, fmt: Formatters)
    returns (status: int, text: string, sent: Option<SearchRequest>)
    requires cache.Valid()
    modifies cache
    ensures cache.Valid()
    ensures Response(status, text, sent, cache.State()) == Respond(old(cache.State()), req, now, first, second, toIso, search, fmt)
  {
    if req.NotPost? {
      return 405, NotAllowedText, None;
    }
    status := 200;
    if req.Malformed? {
      return status, GenericErrorText, None;
    }
    if req.intent != Intent {
      return status, DefaultText, None;
    }
    var diemDi, diemDen, thoiGian := Unwrap(req.diemDi), Unwrap(req.diemDen), Unwrap(req.thoiGian);
    if !Truthy(diemDi) || !Truthy(diemDen) {
      return status, AskPlacesText, None;
    }
    var start := LookupOn(cache, diemDi, now, first);
    if start.None? {
      return status, GenericErrorText, None;
    }
    var end := LookupOn(cache, diemDen, now, second);
    if end.None? {
      return status, GenericErrorText, None;
    }
    text, sent := Answer(cache.State(), diemDi, diemDen, thoiGian, start.value, end.value, toIso, search, fmt);
  }

  /** The reply once both lookups have returned. */
  method Answer(ghost s: CacheState, diemDi: Value, diemDen: Value, thoiGian: Value, a: Option<int>, b: Option<int>,
                toIso: string -> Option<string>, search: Search, fmt: Formatters)
    returns (text: string, sent: Option<SearchRequest>)
    ensures Response(200, text, sent, s) == AfterLookups(s, diemDi, diemDen, thoiGian, a, b, toIso, search, fmt)
  {
    if !IdTruthy(a) || !IdTruthy(b) {
      return UnknownPlaceText(if !IdTruthy(a) then Name(diemDi) else Name(diemDen)), None;
    }
    var departure := WebhookDeparture(thoiGian, toIso);
    sent := Some(SearchRequest(a.value, b.value, "on_sell", BodyDate(departure)));
    var when := When(thoiGian, departure, fmt);
    text := RenderReply(search, Name(diemDi), Name(diemDen), when, fmt);
  }

  /** Lines 438-464: the listing when trips came back, the no-trips text when none did,
      and the error text when the search failed. */
  method RenderReply(search: Search, diemDi: string, diemDen: string, when: string, fmt: Formatters)
    returns (text: string)
    ensures text == SearchText(search, diemDi, diemDen, when, fmt)
  {
    match search {
      case Answered(trips) =>
        if trips.Some? && |trips.value| > 0 {
          text := RenderListing(trips.value, diemDi, diemDen, when, fmt);
        } else {
          text := NoTripsText(diemDi, diemDen, when);
        }
      case _ =>
        text := ErrorText(search);
    }
  }
}
