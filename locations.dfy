/**
 * The location resolver of api/webhook.js: a module-level alias -> id map
 * (`LOCATION_MAP`) built from the backend's location catalog, stamped with the
 * time it was built (`LOCATION_CACHE_TIME`), reloaded when stale or empty,
 * replaced by a fixed fallback map when the reload fails, and queried first by
 * exact key and then by substring in either direction.
 *
 * The map is a sequence of (key, id) pairs in JavaScript property order:
 * assigning an existing key keeps its place, a new key goes to the end.
 */
module Locations {
  import opened Wrappers
  import opened JsText

  /** `location.locationName`: missing or empty (falsy), a string, or some other truthy value. */
  datatype Name = NoName | Named(text: string) | NotText

  /** One catalog record; a `locationId` of 0 stands for any falsy id (missing, null, 0). */
  datatype LocationRecord = LocationRecord(locationId: int, locationName: Name)

  /** What the catalog request produced: no answer (network error, timeout, an
      exception while reading the body), a payload that is not an array, or the records. */
  datatype Catalog = Unreachable | NotAList | Records(records: seq<LocationRecord>)

  /** The contents of `LOCATION_MAP`, in property order. */
  type Entries = seq<(string, int)>

  /** The two module-level variables of the resolver. */
  datatype CacheState = CacheState(entries: Entries, builtAt: Option<int>)

  const CacheDuration: int := 3600000

  /** `FALLBACK_MAP`, lines 226-231. */
  const Fallback: Entries := [("điện biên", 22), ("dien bien", 22), ("an giang", 8)]

  const SaigonKeys: seq<string> := ["tp.hcm", "tphcm", "hồ chí minh", "sài gòn", "saigon"]
  const HanoiKeys: seq<string> := ["hà nội", "ha noi", "hanoi", "hn"]
  const DienBienKeys: seq<string> := ["điện biên", "dien bien"]
  const AnGiangKeys: seq<string> := ["an giang"]

  /* ---------- the map as a JavaScript object ---------- */

  predicate HasKey(m: Entries, k: string) {
    exists i :: 0 <= i < |m| && m[i].0 == k
  }

  predicate DistinctKeys(m: Entries) {
    forall i, j :: 0 <= i < j < |m| ==> m[i].0 != m[j].0
  }

  predicate NonZeroIds(m: Entries) {
    forall i :: 0 <= i < |m| ==> m[i].1 != 0
  }

  /** `m[k]` for an own property. */
  function Lookup(m: Entries, k: string): (r: Option<int>)
    ensures r.Some? <==> HasKey(m, k)
    ensures r.Some? ==> exists i :: 0 <= i < |m| && m[i] == (k, r.value)
    ensures DistinctKeys(m) ==> forall i :: 0 <= i < |m| && m[i].0 == k ==> r == Some(m[i].1)
  {
    if m == [] then None
    else if m[0].0 == k then Some(m[0].1)
    else Lookup(m[1..], k)
  }

  /** `m[k] = v`: the key gets the new value in place, or is appended when new. */
  function Put(m: Entries, k: string, v: int): (r: Entries)
    ensures |r| == if HasKey(m, k) then |m| else |m| + 1
    ensures forall i :: 0 <= i < |m| ==> r[i].0 == m[i].0
    ensures |r| > |m| ==> r[|m|] == (k, v)
    ensures forall i :: 0 <= i < |r| ==> r[i] == (k, v) || r[i] in m
  {
    if m == [] then [(k, v)]
    else if m[0].0 == k then [(k, v)] + m[1..]
    else [m[0]] + Put(m[1..], k, v)
  }

  /** After `m[k] = v`, `k` holds `v` and every other key keeps its value. */
  lemma {:induction false} PutLookup(m: Entries, k: string, v: int, j: string)
    ensures Lookup(Put(m, k, v), j) == if j == k then Some(v) else Lookup(m, j)
  {
    if m != [] && m[0].0 != k {
      PutLookup(m[1..], k, v, j);
    }
  }

  /** Assignment keeps keys distinct and, for a non-zero id, ids non-zero. */
  lemma {:induction false} PutKeepsShape(m: Entries, k: string, v: int)
    ensures DistinctKeys(m) ==> DistinctKeys(Put(m, k, v))
    ensures NonZeroIds(m) && v != 0 ==> NonZeroIds(Put(m, k, v))
  {
    if m != [] && m[0].0 != k {
      PutKeepsShape(m[1..], k, v);
      var r := Put(m, k, v);
      if DistinctKeys(m) {
        assert DistinctKeys(m[1..]);
        forall i, j | 0 <= i < j < |r| ensures r[i].0 != r[j].0 {
          if i == 0 {
            assert r[j] == Put(m[1..], k, v)[j - 1];
            assert r[j] == (k, v) || r[j] in m[1..];
          }
        }
      }
    }
  }

  /** `keys.forEach(key => m[key] = v)` */
  function PutAll(m: Entries, keys: seq<string>, v: int): (r: Entries)
    ensures DistinctKeys(m) ==> DistinctKeys(r)
    ensures NonZeroIds(m) && v != 0 ==> NonZeroIds(r)
    ensures |m| <= |r| && forall i :: 0 <= i < |m| ==> r[i].0 == m[i].0
    decreases |keys|
  {
    if keys == [] then m
    else
      PutKeepsShape(m, keys[0], v);
      PutAll(Put(m, keys[0], v), keys[1..], v)
  }

  /** After `PutAll`, the listed keys hold `v` and every other key is untouched. */
  lemma {:induction false} PutAllLookup(m: Entries, keys: seq<string>, v: int, k: string)
    ensures Lookup(PutAll(m, keys, v), k) == if k in keys then Some(v) else Lookup(m, k)
    decreases |keys|
  {
    if keys != [] {
      PutAllLookup(Put(m, keys[0], v), keys[1..], v, k);
      PutLookup(m, keys[0], v, k);
      assert k in keys <==> k == keys[0] || k in keys[1..];
    }
  }

  /* ---------- building the map from the catalog ---------- */

  /** `if (!id || !name) return;` */
  predicate Skipped(r: LocationRecord) {
    r.locationId == 0 || r.locationName.NoName? || r.locationName == Named("")
  }

  /** A truthy name that is not a string: `name.toLowerCase()` throws and the load is abandoned. */
  predicate Throws(r: LocationRecord) {
    !Skipped(r) && r.locationName.NotText?
  }

  predicate Usable(r: LocationRecord) {
    !Skipped(r) && r.locationName.Named?
  }

  /** `name.split('-')[0].trim().toLowerCase()` */
  function BaseName(name: string): string {
    ToLower(Trim(Split(name, '-')[0]))
  }

  /** The keys one record registers, in the order lines 262-285 assign them: the
      lowercased name, the base name when it differs, then the synonym groups whose
      marker the lowercased name contains. */
  function Aliases(name: string): (keys: seq<string>)
    ensures |keys| >= 1 && keys[0] == ToLower(name)
    ensures BaseName(name) in keys
    ensures Includes(ToLower(name), "miền đông") ==> forall k :: k in SaigonKeys ==> k in keys
    ensures Includes(ToLower(name), "giáp bát") ==> forall k :: k in HanoiKeys ==> k in keys
    ensures Includes(ToLower(name), "điện biên") || Includes(ToLower(name), "dien bien") ==>
              forall k :: k in DienBienKeys ==> k in keys
    ensures Includes(ToLower(name), "an giang") ==> "an giang" in keys
    ensures forall k :: k in keys ==>
              k == ToLower(name) || k == BaseName(name) ||
              (k in SaigonKeys && Includes(ToLower(name), "miền đông")) ||
              (k in HanoiKeys && Includes(ToLower(name), "giáp bát")) ||
              (k in DienBienKeys && (Includes(ToLower(name), "điện biên") || Includes(ToLower(name), "dien bien"))) ||
              (k in AnGiangKeys && Includes(ToLower(name), "an giang"))
  {
    var lower := ToLower(name);
    var base := BaseName(name);
    AliasMembers(lower, base, Synonyms(lower));
    [lower] + (if base != lower then [base] else []) + Synonyms(lower)
  }

  /** Membership in the alias list, apart from what the synonym groups are. */
  lemma AliasMembers(lower: string, base: string, synonyms: seq<string>)
    ensures var keys := [lower] + (if base != lower then [base] else []) + synonyms;
      |keys| >= 1 && keys[0] == lower && base in keys &&
      (forall k :: k in synonyms ==> k in keys) &&
      (forall k :: k in keys ==> k == lower || k == base || k in synonyms)
  {
  }

  /** The synonym groups whose marker the lowercased name `lower` contains, in order. */
  function Synonyms(lower: string): (keys: seq<string>)
    ensures Includes(lower, "miền đông") ==> forall k :: k in SaigonKeys ==> k in keys
    ensures Includes(lower, "giáp bát") ==> forall k :: k in HanoiKeys ==> k in keys
    ensures Includes(lower, "điện biên") || Includes(lower, "dien bien") ==>
              forall k :: k in DienBienKeys ==> k in keys
    ensures Includes(lower, "an giang") ==> "an giang" in keys
    ensures forall k :: k in keys ==>
              (k in SaigonKeys && Includes(lower, "miền đông")) ||
              (k in HanoiKeys && Includes(lower, "giáp bát")) ||
              (k in DienBienKeys && (Includes(lower, "điện biên") || Includes(lower, "dien bien"))) ||
              (k in AnGiangKeys && Includes(lower, "an giang"))
  {
    var saigon := if Includes(lower, "miền đông") then SaigonKeys else [];
    var hanoi := if Includes(lower, "giáp bát") then HanoiKeys else [];
    var dienBien := if Includes(lower, "điện biên") || Includes(lower, "dien bien") then DienBienKeys else [];
    var anGiang := if Includes(lower, "an giang") then AnGiangKeys else [];
    saigon + hanoi + dienBien + anGiang
  }

  /** The body of the `forEach` callback (lines 258-286) for a usable record. */
  function Register(m: Entries, r: LocationRecord): Entries
    requires Usable(r)
  {
    PutAll(m, Aliases(r.locationName.text), r.locationId)
  }

  /** Every alias of the record now maps to its id; every other key keeps its value. */
  lemma RegisterLookup(m: Entries, r: LocationRecord, k: string)
    requires Usable(r)
    ensures Lookup(Register(m, r), k) ==
              if k in Aliases(r.locationName.text) then Some(r.locationId) else Lookup(m, k)
  {
    PutAllLookup(m, Aliases(r.locationName.text), r.locationId, k);
  }

  /** The map the `forEach` builds from an empty object, for records none of which throws. */
  function Build(rs: seq<LocationRecord>): (m: Entries)
    ensures DistinctKeys(m) && NonZeroIds(m)
  {
    if rs == [] then []
    else
      var prev := Build(rs[..|rs| - 1]);
      var last := rs[|rs| - 1];
      if Usable(last) then Register(prev, last) else prev
  }

  /** Reference reading of "later records overwrite earlier keys": the id of the last
      usable record that registers `k`. */
  function LastOwner(rs: seq<LocationRecord>, k: string): Option<int>
  {
    if rs == [] then None
    else
      var last := rs[|rs| - 1];
      if Usable(last) && k in Aliases(last.locationName.text) then Some(last.locationId)
      else LastOwner(rs[..|rs| - 1], k)
  }

  /** A key of the built map holds the id of the last record that registers it. */
  lemma {:induction false} BuildLookup(rs: seq<LocationRecord>, k: string)
    ensures Lookup(Build(rs), k) == LastOwner(rs, k)
  {
    if rs != [] {
      var last := rs[|rs| - 1];
      BuildLookup(rs[..|rs| - 1], k);
      if Usable(last) {
        RegisterLookup(Build(rs[..|rs| - 1]), last, k);
      }
    }
  }

  /** Index of the first record whose name makes the load throw, or `|rs|`. */
  function FirstThrow(rs: seq<LocationRecord>): (k: nat)
    ensures k <= |rs|
    ensures k < |rs| ==> Throws(rs[k])
    ensures forall j :: 0 <= j < k ==> !Throws(rs[j])
  {
    if rs == [] then 0
    else if Throws(rs[0]) then 0
    else 1 + FirstThrow(rs[1..])
  }

  /** One more record extends the build by that record's registration, if it is usable. */
  lemma BuildStep(rs: seq<LocationRecord>, i: nat)
    requires i < |rs|
    ensures Build(rs[..i + 1]) == if Usable(rs[i]) then Register(Build(rs[..i]), rs[i]) else Build(rs[..i])
  {
    assert rs[..i + 1][..i] == rs[..i];
  }

  /** The scan stops at the first throwing record, or at the end. */
  lemma FirstThrowAt(rs: seq<LocationRecord>, i: nat)
    requires i <= |rs| && (i == |rs| || Throws(rs[i]))
    requires forall j :: 0 <= j < i ==> !Throws(rs[j])
    ensures FirstThrow(rs) == i
  {
  }

  /* ---------- the cache as state transitions ---------- */

  /** `loadLocationsFromAPI()` (lines 239-297): the new state and the returned flag. A
      non-array or missing payload leaves everything as it was; otherwise the map is
      cleared and rebuilt record by record, and only a load that reaches the end
      stamps the time. */
  function Loaded(s: CacheState, catalog: Catalog, now: int): (CacheState, bool)
  {
    match catalog
    case Records(rs) =>
      var k := FirstThrow(rs);
      if k == |rs| then (CacheState(Build(rs), Some(now)), true)
      else (CacheState(Build(rs[..k]), s.builtAt), false)
    case _ => (s, false)
  }

  /** `needReload || Object.keys(LOCATION_MAP).length === 0` (lines 305-307). */
  predicate NeedsReload(s: CacheState, now: int) {
    s.builtAt.None? || s.builtAt.value == 0 || now - s.builtAt.value > CacheDuration || |s.entries| == 0
  }

  /** Lines 305-313: reload when needed; a failed reload installs a copy of the fallback map. */
  function Refreshed(s: CacheState, now: int, catalog: Catalog): CacheState
  {
    if !NeedsReload(s, now) then s
    else
      var (t, ok) := Loaded(s, catalog, now);
      if ok then t else CacheState(Fallback, t.builtAt)
  }

  /** What a refresh does to the stamp and the map: a fresh cache is left alone; a
      reload that succeeds stamps `now` and holds exactly the catalog's map; one that
      fails leaves the stamp as it was and holds exactly the fallback map. */
  lemma RefreshOutcome(s: CacheState, now: int, catalog: Catalog)
    ensures !NeedsReload(s, now) ==> Refreshed(s, now, catalog) == s
    ensures NeedsReload(s, now) && catalog.Records? && FirstThrow(catalog.records) == |catalog.records| ==>
              Refreshed(s, now, catalog) == CacheState(Build(catalog.records), Some(now))
    ensures NeedsReload(s, now) && !(catalog.Records? && FirstThrow(catalog.records) == |catalog.records|) ==>
              Refreshed(s, now, catalog) == CacheState(Fallback, s.builtAt)
  {
  }

  /** A reload is attempted exactly when the stamp is missing (or zero), older than an
      hour, or the map is empty; within the hour a non-empty map is reused. */
  lemma FreshWithinAnHour(s: CacheState, t: int, now: int, catalog: Catalog)
    requires s.builtAt == Some(t) && t != 0 && now - t <= CacheDuration && |s.entries| > 0
    ensures Refreshed(s, now, catalog) == s
  {
  }

  /** A catalog with no usable record loads an empty map and stamps it; the next lookup
      reloads because the map is empty, and if that reload fails, the fallback map
      inherits the fresh stamp and is reused for the rest of the hour. */
  lemma FallbackInheritsStamp(t: int, now: int, later: int, catalog: Catalog)
    requires t != 0 && now - t <= CacheDuration && later - t <= CacheDuration
    ensures Refreshed(CacheState([], None), t, Records([])) == CacheState([], Some(t))
    ensures Refreshed(CacheState([], Some(t)), now, Unreachable) == CacheState(Fallback, Some(t))
    ensures Refreshed(CacheState(Fallback, Some(t)), later, catalog) == CacheState(Fallback, Some(t))
  {
    RefreshOutcome(CacheState([], None), t, Records([]));
    RefreshOutcome(CacheState([], Some(t)), now, Unreachable);
    FreshWithinAnHour(CacheState(Fallback, Some(t)), t, later, catalog);
  }

  /* ---------- lookup ---------- */

  /** `key.includes(normalized) || normalized.includes(key)` */
  predicate Overlaps(key: string, q: string) {
    Includes(key, q) || Includes(q, key)
  }

  /** Index of the first entry, in property order, whose key overlaps the query. */
  function FirstOverlap(m: Entries, q: string): (r: Option<nat>)
    ensures r.Some? ==> r.value < |m| && Overlaps(m[r.value].0, q)
    ensures r.Some? ==> forall j :: 0 <= j < r.value ==> !Overlaps(m[j].0, q)
    ensures r.None? ==> forall j :: 0 <= j < |m| ==> !Overlaps(m[j].0, q)
  {
    if m == [] then None
    else if Overlaps(m[0].0, q) then Some(0)
    else match FirstOverlap(m[1..], q)
      case Some(i) => Some(i + 1)
      case None => None
  }

  /** Lines 314-326 on the map: a truthy exact hit, else the first overlapping entry, else null. */
  function Match(m: Entries, q: string): (r: Option<int>)
    ensures Lookup(m, q).Some? && Lookup(m, q).value != 0 ==> r == Lookup(m, q)
    ensures r.None? <==> (Lookup(m, q).None? || Lookup(m, q).value == 0) && forall j :: 0 <= j < |m| ==> !Overlaps(m[j].0, q)
    ensures r.Some? ==> exists i :: 0 <= i < |m| && m[i].1 == r.value
    ensures NonZeroIds(m) ==> r.None? || r.value != 0
    ensures (Lookup(m, q).None? || Lookup(m, q).value == 0) && FirstOverlap(m, q).Some? ==>
              r == Some(m[FirstOverlap(m, q).value].1)
  {
    match Lookup(m, q)
    case Some(v) =>
      if v != 0 then Some(v)
      else (match FirstOverlap(m, q) case Some(i) => Some(m[i].1) case None => None)
    case None =>
      match FirstOverlap(m, q) case Some(i) => Some(m[i].1) case None => None
  }

  /** Lines 319-323: the `for…of` loop over the map's entries, which returns the id of the
      first key that overlaps the query, or falls through to null. */
  method ScanOverlaps(m: Entries, q: string) returns (id: Option<int>)
    ensures id == match FirstOverlap(m, q) case Some(i) => Some(m[i].1) case None => None
  {
    var i := 0;
    while i < |m|
      invariant 0 <= i <= |m|
      invariant forall j :: 0 <= j < i ==> !Overlaps(m[j].0, q)
    {
      if Includes(m[i].0, q) || Includes(q, m[i].0) {
        assert FirstOverlap(m, q) == Some(i);
        return Some(m[i].1);
      }
      i := i + 1;
    }
    return None;
  }

  /** A name that is only whitespace trims to the empty query, which every key contains:
      unless the empty string is itself a key, the first entry's id is returned. */
  lemma BlankQuery(m: Entries, name: string)
    requires Trim(name) == "" && m != [] && !HasKey(m, "")
    ensures Match(m, ToLower(Trim(name))) == Some(m[0].1)
  {
    assert ToLower(Trim(name)) == "";
    IncludesTrivia(m[0].0);
  }

  /** A failed reload leaves exactly the fallback keys: `điện biên` and `dien bien` give 22,
      `an giang` gives 8. */
  lemma FallbackIds()
    ensures Match(Fallback, "điện biên") == Some(22)
    ensures Match(Fallback, "dien bien") == Some(22)
    ensures Match(Fallback, "an giang") == Some(8)
  {
  }

  /** The fallback map has distinct keys and non-zero ids. */
  lemma FallbackShape()
    ensures DistinctKeys(Fallback) && NonZeroIds(Fallback)
  {
  }

  /** Every refresh keeps the map's keys distinct and its ids non-zero: a reload builds
      such a map and the fallback map is one. */
  lemma RefreshKeepsShape(s: CacheState, now: int, catalog: Catalog)
    requires DistinctKeys(s.entries) && NonZeroIds(s.entries)
    ensures DistinctKeys(Refreshed(s, now, catalog).entries) && NonZeroIds(Refreshed(s, now, catalog).entries)
  {
    FallbackShape();
  }

  /** The value of the built map on any key some record registers is the id of the last
      such record, and so is the resolver's answer for that exact query. */
  lemma BuiltMatch(rs: seq<LocationRecord>, q: string)
    requires LastOwner(rs, q).Some?
    ensures Match(Build(rs), q) == LastOwner(rs, q)
  {
    BuildLookup(rs, q);
    var m := Build(rs);
    var i :| 0 <= i < |m| && m[i] == (q, Lookup(m, q).value);
  }

  /** The first key of the built map is the lower-cased name of the first record, when
      that record is usable: later records only update keys in place or append new ones. */
  lemma {:induction false} BuildFirstKey(rs: seq<LocationRecord>)
    requires rs != [] && Usable(rs[0])
    ensures |Build(rs)| > 0 && Build(rs)[0].0 == ToLower(rs[0].locationName.text)
  {
    if |rs| == 1 {
      assert rs[..0] == [];
      var keys := Aliases(rs[0].locationName.text);
      assert Put([], keys[0], rs[0].locationId) == [(keys[0], rs[0].locationId)];
    } else {
      var init := rs[..|rs| - 1];
      assert init[0] == rs[0];
      BuildFirstKey(init);
    }
  }

  /** A query that is not itself a key but overlaps the first record's lower-cased name
      resolves, by the loop's early exit, to the id that name holds: that of the last
      record registering it. */
  lemma PartialMatchesFirstRecord(rs: seq<LocationRecord>, q: string)
    requires rs != [] && Usable(rs[0]) && !HasKey(Build(rs), q)
    requires Overlaps(ToLower(rs[0].locationName.text), q)
    ensures Match(Build(rs), q) == LastOwner(rs, ToLower(rs[0].locationName.text))
  {
    var m, k := Build(rs), ToLower(rs[0].locationName.text);
    BuildFirstKey(rs);
    assert FirstOverlap(m, q) == Some(0);
    BuildLookup(rs, k);
    assert Lookup(m, k) == Some(m[0].1);
  }

  /** `bến xe miền đông` is already lower case and holds the `miền đông` marker. */
  lemma MienDongName(name: string)
    requires name == "bến xe miền đông"
    ensures ToLower(name) == name && Includes(name, "miền đông")
  {
    assert OccursAt(name, "miền đông", 7);
  }

  /** A record named `bến xe miền đông` makes `sài gòn` resolve to its id. */
  lemma MienDongMeansSaigon(name: string, id: int)
    requires name == "bến xe miền đông" && id != 0
    ensures Match(Build([LocationRecord(id, Named(name))]), "sài gòn") == Some(id)
  {
    var r := LocationRecord(id, Named(name));
    MienDongName(name);
    assert "sài gòn" in SaigonKeys;
    assert [r][..0] == [];
    assert LastOwner([r], "sài gòn") == Some(id);
    BuiltMatch([r], "sài gòn");
  }

  /* ---------- reading a property of a plain object ---------- */

  /** What `LOCATION_MAP[normalized]` reads on a plain object: an own property, or a
      member inherited from `Object.prototype`. */
  datatype Property = OwnId(id: int) | Inherited(member: string)

  /** The names of `Object.prototype`'s members that are entirely lower case, the only
      ones a lowercased query can spell. */
  const LowerPrototypeNames: seq<string> := ["constructor", "__proto__"]

  /** `LOCATION_MAP[q]` as the engine reads it. */
  function PropertyAsWritten(m: Entries, q: string): (r: Option<Property>)
    ensures HasKey(m, q) ==> r == Some(OwnId(Lookup(m, q).value))
    ensures !HasKey(m, q) ==> (r.Some? <==> q in LowerPrototypeNames)
  {
    match Lookup(m, q)
    case Some(v) => Some(OwnId(v))
    case None => if q in LowerPrototypeNames then Some(Inherited(q)) else None
  }

  /** Lines 314-326 as written: an inherited member is truthy, so it is returned as the id. */
  function MatchAsWritten(m: Entries, q: string): Option<Property>
  {
    match PropertyAsWritten(m, q)
    case Some(OwnId(v)) =>
      if v != 0 then Some(OwnId(v))
      else (match FirstOverlap(m, q) case Some(i) => Some(OwnId(m[i].1)) case None => None)
    case Some(Inherited(n)) => Some(Inherited(n))
    case None =>
      match FirstOverlap(m, q) case Some(i) => Some(OwnId(m[i].1)) case None => None
  }

  /** The query `Constructor` reads `Object.prototype.constructor` (a function) from any
      map without that key, and the resolver returns it as a location id; the model's
      `Match` reads own keys only and returns an id of the map or null. */
  lemma PrototypeLeak(m: Entries, name: string)
    requires name == "Constructor" && !HasKey(m, "constructor")
    ensures MatchAsWritten(m, ToLower(Trim(name))) == Some(Inherited("constructor"))
    ensures Match(m, ToLower(Trim(name))).Some? ==>
              exists i :: 0 <= i < |m| && m[i].1 == Match(m, ToLower(Trim(name))).value
  {
    ConstructorQuery(name);
  }

  /** `'Constructor'.trim().toLowerCase()` is `constructor`. */
  lemma ConstructorQuery(name: string)
    requires name == "Constructor"
    ensures ToLower(Trim(name)) == "constructor"
  {
    ConstructorTrimmed(name);
    ConstructorLowered(name);
  }

  /** `Constructor` has no whitespace at its ends. */
  lemma ConstructorTrimmed(name: string)
    requires name == "Constructor"
    ensures Trim(name) == name
  {
  }

  /** Only the capital of `Constructor` is lowered. */
  lemma ConstructorLowered(name: string)
    requires name == "Constructor"
    ensures ToLower(name) == "constructor"
  {
    assert name == ['C'] + "onstructor";
    LowerCapitalised('C', "onstructor");
  }

  /** Lower-casing an ASCII capital followed by ASCII lower-case letters changes only the capital. */
  lemma LowerCapitalised(c: char, rest: string)
    requires 'A' <= c <= 'Z'
    requires forall k :: 0 <= k < |rest| ==> 'a' <= rest[k] <= 'z'
    ensures ToLower([c] + rest) == [(c as int + 32) as char] + rest
  {
    var s := [c] + rest;
    forall k | 1 <= k < |s| ensures ToLower(s)[k] == s[k] {
      assert s[k] == rest[k - 1];
    }
  }

  /* ---------- the cache object ---------- */

  /** `LOCATION_MAP` and `LOCATION_CACHE_TIME`. */
  class LocationCache {
    var entries: Entries
    var builtAt: Option<int>

    ghost predicate Valid()
      reads this
    {
      DistinctKeys(entries) && NonZeroIds(entries)
    }

    function State(): CacheState
      reads this
    {
      CacheState(entries, builtAt)
    }

    /** `let LOCATION_MAP = {}; let LOCATION_CACHE_TIME = null;` */
    constructor ()
      ensures entries == [] && builtAt == None && Valid()
    {
      entries := [];
      builtAt := None;
    }

    /** `loadLocationsFromAPI()`, lines 239-297. */
    method Load(catalog: Catalog, now: int) returns (ok: bool)
      requires Valid()
      modifies this
      ensures Valid()
      ensures (State(), ok) == Loaded(old(State()), catalog, now)
    {
      if !catalog.Records? {
        return false;
      }
      var rs := catalog.records;
      entries := [];
      var i := 0;
      while i < |rs| && !Throws(rs[i])
        invariant 0 <= i <= |rs|
        invariant forall j :: 0 <= j < i ==> !Throws(rs[j])
        invariant entries == Build(rs[..i])
        invariant builtAt == old(builtAt)
        invariant DistinctKeys(entries) && NonZeroIds(entries)
      {
        BuildStep(rs, i);
        if Usable(rs[i]) {
          entries := Register(entries, rs[i]);
        }
        i := i + 1;
      }
      FirstThrowAt(rs, i);
      if i < |rs| {
        return false;
      }
      assert rs[..i] == rs;
      builtAt := Some(now);
      ok := true;
    }

    /** Lines 305-313: reload when stale or empty; on failure use a copy of the fallback map. */
    method Refresh(now: int, catalog: Catalog)
      requires Valid()
      modifies this
      ensures Valid()
      ensures State() == Refreshed(old(State()), now, catalog)
    {
      if NeedsReload(State(), now) {
        var ok := Load(catalog, now);
        if !ok {
          entries := Fallback;
        }
      }
    }

    /** `getLocationId(locationName)`, lines 302-327. `catalog` is what a reload would
        fetch; it is only consulted when a reload is needed. */
    method Resolve(name: string, now: int, catalog: Catalog) returns (id: Option<int>)
      requires Valid()
      modifies this
      ensures Valid()
      ensures name == "" ==> id.None? && State() == old(State())
      ensures name != "" ==> State() == Refreshed(old(State()), now, catalog)
      ensures name != "" ==> id == Match(entries, ToLower(Trim(name)))
    {
      if name == "" {
        return None;
      }
      Refresh(now, catalog);
      var q := ToLower(Trim(name));
      var hit := Lookup(entries, q);
      if hit.Some? && hit.value != 0 {
        return hit;
      }
      id := ScanOverlaps(entries, q);
    }
  }
}
