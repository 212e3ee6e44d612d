/** The hazard collection as the handlers use it: stored records, the order a
    `sort({field: ±1})` puts them in, equality filters, `skip`/`limit`
    windows, and the partial update that `findByIdAndUpdate` applies. The
    database is an in-memory sequence of records held by a class. */
module HazardStore {
  import opened Js
  import opened HazardModel

  /** A stored hazard: its identifier, its document and the two timestamps
      the schema's `timestamps` option maintains. */
  datatype Hazard = Hazard(id: nat, doc: HazardDoc, createdAt: int, updatedAt: int)

  // ---------------------------------------------------------------------------
  // Sort order

  /** The value a record sorts by, reduced to what the comparison needs. */
  datatype Key =
    | KNull
    | KNum(n: real)
    | KText(s: string)
    | KObject
    | KArray
    | KId(id: nat)
    | KBool(b: bool)
    | KDate(t: int)

  /** The order of value kinds: null (and a missing field) before numbers,
      then text, objects, arrays, identifiers, booleans and dates. */
  function Rank(k: Key): nat {
    match k
    case KNull => 0
    case KNum(_) => 1
    case KText(_) => 2
    case KObject => 3
    case KArray => 4
    case KId(_) => 5
    case KBool(_) => 6
    case KDate(_) => 7
  }

  function ValueKey(v: Value): Key {
    match v
    case Undefined => KNull
    case Null => KNull
    case Number(n) => KNum(n)
    case Str(s) => KText(s)
    case Bool(b) => KBool(b)
    case Object(_) => KObject
    case Array(_) => KArray
  }

  /** The paths a stored record has. */
  const StoredPaths: set<string> := {"_id", "createdAt", "updatedAt", "credibilityScore", "verified", "hazardType",
    "severity", "description", "location", "tags", "source", "reportedBy", "images", "videos"}

  /** The key of `h` under the sort field `field`; an unknown field is
      missing from every record. */
  function SortKey(h: Hazard, field: string): (k: Key)
    ensures field in {"createdAt", "updatedAt"} ==> k.KDate?
    ensures field !in StoredPaths ==> k == KNull
  {
    if field == "_id" then KId(h.id)
    else if field == "createdAt" then KDate(h.createdAt)
    else if field == "updatedAt" then KDate(h.updatedAt)
    else if field == "credibilityScore" then KNum(h.doc.credibilityScore as real)
    else if field == "verified" then KBool(h.doc.verified)
    else if field == "hazardType" then ValueKey(h.doc.hazardType)
    else if field == "severity" then ValueKey(h.doc.severity)
    else if field == "description" then ValueKey(h.doc.description)
    else if field == "location" then ValueKey(h.doc.location)
    else if field == "tags" then ValueKey(h.doc.tags)
    else if field == "source" then ValueKey(h.doc.source)
    else if field == "reportedBy" then ValueKey(h.doc.reportedBy)
    else if field == "images" || field == "videos" then KArray
    else KNull
  }

  /** Code-point lexicographic order on text (the order of UTF-8 bytes). */
  predicate TextLe(a: string, b: string) {
    a == [] || (b != [] && (a[0] < b[0] || (a[0] == b[0] && TextLe(a[1..], b[1..]))))
  }

  lemma {:induction false} TextLeTotal(a: string, b: string)
    ensures TextLe(a, b) || TextLe(b, a)
  {
    if a != [] && b != [] && a[0] == b[0] {
      TextLeTotal(a[1..], b[1..]);
    }
  }

  lemma {:induction false} TextLeTrans(a: string, b: string, c: string)
    requires TextLe(a, b) && TextLe(b, c)
    ensures TextLe(a, c)
  {
    if a != [] && a[0] == b[0] && b[0] == c[0] {
      TextLeTrans(a[1..], b[1..], c[1..]);
    }
  }

  predicate KeyLe(a: Key, b: Key) {
    if Rank(a) != Rank(b) then Rank(a) < Rank(b)
    else match (a, b)
      case (KNum(x), KNum(y)) => x <= y
      case (KText(x), KText(y)) => TextLe(x, y)
      case (KId(x), KId(y)) => x <= y
      case (KBool(x), KBool(y)) => !x || y
      case (KDate(x), KDate(y)) => x <= y
      case _ => true
  }

  /** Any two keys are comparable. */
  lemma KeyLeTotal(a: Key, b: Key)
    ensures KeyLe(a, b) || KeyLe(b, a)
  {
    if a.KText? && b.KText? {
      TextLeTotal(a.s, b.s);
    }
  }

  lemma KeyLeTrans(a: Key, b: Key, c: Key)
    requires KeyLe(a, b) && KeyLe(b, c)
    ensures KeyLe(a, c)
  {
    if a.KText? && b.KText? && c.KText? {
      TextLeTrans(a.s, b.s, c.s);
    }
  }

  /** `{[field]: ascending ? 1 : -1}`. */
  datatype SortSpec = SortSpec(field: string, ascending: bool)

  /** `x` may come before `y` in the order `spec` asks for. */
  predicate Precedes(x: Hazard, y: Hazard, spec: SortSpec) {
    if spec.ascending then KeyLe(SortKey(x, spec.field), SortKey(y, spec.field))
    else KeyLe(SortKey(y, spec.field), SortKey(x, spec.field))
  }

  lemma PrecedesTotal(x: Hazard, y: Hazard, spec: SortSpec)
    ensures Precedes(x, y, spec) || Precedes(y, x, spec)
  {
    KeyLeTotal(SortKey(x, spec.field), SortKey(y, spec.field));
  }

  lemma PrecedesTrans(x: Hazard, y: Hazard, z: Hazard, spec: SortSpec)
    requires Precedes(x, y, spec) && Precedes(y, z, spec)
    ensures Precedes(x, z, spec)
  {
    var kx, ky, kz := SortKey(x, spec.field), SortKey(y, spec.field), SortKey(z, spec.field);
    if spec.ascending { KeyLeTrans(kx, ky, kz); } else { KeyLeTrans(kz, ky, kx); }
  }

  /** Each record may come before the next. */
  predicate Sorted(s: seq<Hazard>, spec: SortSpec) {
    forall i :: 0 <= i < |s| - 1 ==> Precedes(s[i], s[i + 1], spec)
  }

  /** Puts `x` before the first record it may precede. */
  function InsertSorted(x: Hazard, s: seq<Hazard>, spec: SortSpec): (r: seq<Hazard>)
    ensures multiset(r) == multiset(s) + multiset{x}
    ensures |r| == |s| + 1
    ensures r[0] == x || (s != [] && r[0] == s[0])
    ensures Sorted(s, spec) ==> Sorted(r, spec)
  {
    if s == [] then [x]
    else if Precedes(x, s[0], spec) then [x] + s
    else
      var rest := InsertSorted(x, s[1..], spec);
      PrecedesTotal(x, s[0], spec);
      assert s == [s[0]] + s[1..];
      [s[0]] + rest
  }

  /** The records of `s` in the order `spec` asks for. */
  function SortBy(s: seq<Hazard>, spec: SortSpec): (r: seq<Hazard>)
    ensures multiset(r) == multiset(s)
    ensures |r| == |s|
    ensures Sorted(r, spec)
  {
    if s == [] then []
    else
      assert s == [s[0]] + s[1..];
      InsertSorted(s[0], SortBy(s[1..], spec), spec)
  }

  // ---------------------------------------------------------------------------
  // Filters and windows

  /** The stored value of a filterable path; other paths are never set. */
  function FieldValue(h: Hazard, path: string): Value {
    if path == "severity" then h.doc.severity
    else if path == "hazardType" then h.doc.hazardType
    else Undefined
  }

  /** `find(filter)` keeps a record whose every filtered path equals the
      filter's value. */
  predicate Matches(h: Hazard, filter: map<string, Value>) {
    forall path :: path in filter ==> FieldValue(h, path) == filter[path]
  }

  /** The records that match, in store order. */
  function FilterBy(s: seq<Hazard>, filter: map<string, Value>): (r: seq<Hazard>)
    ensures forall i :: 0 <= i < |r| ==> Matches(r[i], filter)
    ensures forall i :: 0 <= i < |s| ==> (Matches(s[i], filter) <==> s[i] in r)
    ensures multiset(r) <= multiset(s)
  {
    if s == [] then []
    else
      var rest := FilterBy(s[1..], filter);
      assert s == [s[0]] + s[1..];
      assert forall i :: 1 <= i < |s| ==> s[i] == s[1..][i - 1];
      if Matches(s[0], filter) then [s[0]] + rest else rest
  }

  /** An empty filter matches everything. */
  lemma {:induction false} FilterByEmpty(s: seq<Hazard>)
    ensures FilterBy(s, map[]) == s
  {
    if s != [] {
      FilterByEmpty(s[1..]);
      assert s == [s[0]] + s[1..];
    }
  }

  /** `limit(n)`: 0 means no limit. */
  function Take(s: seq<Hazard>, limit: nat): (r: seq<Hazard>)
    ensures limit > 0 ==> |r| == if |s| < limit then |s| else limit
    ensures limit == 0 ==> r == s
    ensures r <= s
  {
    if limit == 0 || |s| <= limit then s else s[..limit]
  }

  /** `skip(n)`: past the end, nothing is left. */
  function Drop(s: seq<Hazard>, skip: nat): (r: seq<Hazard>)
    ensures |r| == if skip < |s| then |s| - skip else 0
    ensures forall i :: 0 <= i < |r| ==> r[i] == s[skip + i]
  {
    if skip < |s| then s[skip..] else []
  }

  /** `find(filter).sort(spec).limit(limit).skip(skip)`: the database applies
      the skip before the limit whatever order the calls are written in. */
  function Query(s: seq<Hazard>, filter: map<string, Value>, spec: SortSpec, skip: nat, limit: nat): (r: seq<Hazard>)
    ensures |r| == WindowLength(CountMatches(s, filter), skip, limit)
    ensures forall i :: 0 <= i < |r| ==> skip + i < CountMatches(s, filter) && r[i] == SortBy(FilterBy(s, filter), spec)[skip + i]
    ensures forall i :: 0 <= i < |r| ==> Matches(r[i], filter) && r[i] in s
    ensures Sorted(r, spec)
  {
    var sorted := SortBy(FilterBy(s, filter), spec);
    WindowOfSorted(sorted, spec, skip, limit);
    SortedMatches(s, filter, spec);
    Take(Drop(sorted, skip), limit)
  }

  /** A window of a sorted sequence holds records of it, in sorted order. */
  lemma WindowOfSorted(sorted: seq<Hazard>, spec: SortSpec, skip: nat, limit: nat)
    requires Sorted(sorted, spec)
    ensures var w := Take(Drop(sorted, skip), limit);
      Sorted(w, spec) && forall i :: 0 <= i < |w| ==> w[i] in sorted
  {
    var w := Take(Drop(sorted, skip), limit);
    assert forall i :: 0 <= i < |w| ==> w[i] == sorted[skip + i];
  }

  /** The sorted matching records are records of the store that match. */
  lemma SortedMatches(s: seq<Hazard>, filter: map<string, Value>, spec: SortSpec)
    ensures forall h :: h in SortBy(FilterBy(s, filter), spec) ==> Matches(h, filter) && h in s
  {
    var m := FilterBy(s, filter);
    var sorted := SortBy(m, spec);
    forall h | h in sorted
      ensures Matches(h, filter) && h in s
    {
      assert h in multiset(sorted);
      assert h in multiset(m);
      assert h in m;
      var i :| 0 <= i < |m| && m[i] == h;
    }
  }

  /** The windows are consecutive pieces of one sorted list: the window at
      `skip` followed by the window at `skip + limit` is the window at `skip`
      of twice the size. */
  lemma QueryWindowsAdjacent(s: seq<Hazard>, filter: map<string, Value>, spec: SortSpec, skip: nat, limit: nat)
    requires limit > 0
    ensures Query(s, filter, spec, skip, limit) + Query(s, filter, spec, skip + limit, limit) ==
      Query(s, filter, spec, skip, 2 * limit)
  {
    var sorted := SortBy(FilterBy(s, filter), spec);
    var n := |sorted|;
    if skip + limit < n {
      assert Drop(sorted, skip + limit) == Drop(sorted, skip)[limit..];
    }
  }

  /** A window that starts past the matching records is empty. */
  lemma QueryPastEnd(s: seq<Hazard>, filter: map<string, Value>, spec: SortSpec, skip: nat, limit: nat)
    requires skip >= CountMatches(s, filter)
    ensures Query(s, filter, spec, skip, limit) == []
  {
    var sorted := SortBy(FilterBy(s, filter), spec);
    assert |multiset(sorted)| == |sorted|;
    assert |multiset(FilterBy(s, filter))| == |FilterBy(s, filter)|;
  }

  /** How many of `total` records a window at `skip` of at most `limit`
      (0: no limit) holds. */
  function WindowLength(total: nat, skip: nat, limit: nat): (n: nat)
    ensures n <= total
    ensures limit > 0 ==> n <= limit
    ensures n == 0 <==> skip >= total
  {
    if skip >= total then 0
    else if limit == 0 || total - skip <= limit then total - skip
    else limit
  }

  /** `countDocuments(filter)`. */
  function CountMatches(s: seq<Hazard>, filter: map<string, Value>): nat {
    |FilterBy(s, filter)|
  }

  // ---------------------------------------------------------------------------
  // Partial updates

  /** A file added to a media array by `$push`. */
  datatype MediaPush = PushImage(url: string) | PushVideo(url: string)

  /** The update document handed to `findByIdAndUpdate`: the paths to `$set`
      (a missing key is `None`) and at most one `$push`. */
  datatype UpdatePayload = UpdatePayload(
    hazardType: Option<Value>,
    severity: Option<Value>,
    description: Option<Value>,
    location: Option<Value>,
    verified: Option<bool>,
    tags: Option<Value>,
    push: Option<MediaPush>)

  /** With `runValidators`, the validators of the paths being set, and only
      those, run; `location` has no validator beyond `required`, which a set
      value other than `null` passes. */
  function UpdateErrors(p: UpdatePayload): (paths: set<string>)
    ensures paths <= {"hazardType", "severity", "description", "location", "tags"}
    ensures p.hazardType.None? && p.severity.None? && p.description.None? && p.location.None? && p.tags.None? ==>
      paths == {}
  {
    (if p.hazardType.Some? && !EnumOk(p.hazardType.value, HazardTypes) then {"hazardType"} else {}) +
    (if p.severity.Some? && !EnumOk(p.severity.value, Severities) then {"severity"} else {}) +
    (if p.description.Some? && !DescriptionOk(p.description.value) then {"description"} else {}) +
    (if p.location.Some? && p.location.value in {Undefined, Null} then {"location"} else {}) +
    (if p.tags.Some? && !TagsOk(p.tags.value) then {"tags"} else {})
  }

  /** A path the update may `$set`: the payload's value when it sets the
      path, the stored value otherwise. */
  predicate SetOrKept(stored: Value, given: Option<Value>, updated: Value) {
    if given.Some? then updated == given.value else updated == stored
  }

  /** The document after `$set` and `$push`, with `location` the location to
      store. Paths the update cannot name keep their stored values, and a
      `$push` appends its file to the array it names. */
  function Merge(d: HazardDoc, p: UpdatePayload, location: Value): (r: HazardDoc)
    ensures r.location == location
    ensures SetOrKept(d.hazardType, p.hazardType, r.hazardType) && SetOrKept(d.severity, p.severity, r.severity)
    ensures SetOrKept(d.description, p.description, r.description) && SetOrKept(d.tags, p.tags, r.tags)
    ensures r.verified == (if p.verified.Some? then p.verified.value else d.verified)
    ensures p.push.None? ==> r.images == d.images && r.videos == d.videos
    ensures p.push.Some? && p.push.value.PushImage? ==>
      r.images == d.images + [p.push.value.url] && r.videos == d.videos
    ensures p.push.Some? && p.push.value.PushVideo? ==>
      r.videos == d.videos + [p.push.value.url] && r.images == d.images
    ensures r.credibilityScore == d.credibilityScore && r.source == d.source && r.reportedBy == d.reportedBy
  {
    d.(hazardType := p.hazardType.GetOr(d.hazardType),
       severity := p.severity.GetOr(d.severity),
       description := p.description.GetOr(d.description),
       location := location,
       verified := p.verified.GetOr(d.verified),
       tags := p.tags.GetOr(d.tags),
       images := if p.push.Some? && p.push.value.PushImage? then d.images + [p.push.value.url] else d.images,
       videos := if p.push.Some? && p.push.value.PushVideo? then d.videos + [p.push.value.url] else d.videos)
  }

  /** What `findByIdAndUpdate` refuses before it looks for the record: with
      `runValidators` the update is cast and validated first, so neither
      check depends on the stored document. The result is the location to
      store, if the update sets one. As written, a new location is stored as
      it came: the pre-validate hook belongs to `save`. */
  function CheckUpdateAsWritten(p: UpdatePayload): (r: Result<Option<Value>, SaveError>)
    ensures r.Ok? <==> UpdateErrors(p) == {}
    ensures r.Ok? ==> r.value == p.location
    ensures r.Err? ==> r.error == ValidationFailed(UpdateErrors(p))
  {
    var errors := UpdateErrors(p);
    if errors != {} then Err(ValidationFailed(errors)) else Ok(p.location)
  }

  /** The same checks with the location hook applied to a new location, as
      the schema's "normalize later" design requires of every write: the
      hook first, whose error stops the update, then the validators. */
  function CheckUpdate(p: UpdatePayload): (r: Result<Option<Value>, SaveError>)
    ensures r.Ok? <==> UpdateErrors(p) == {} && (p.location.Some? ==> NormalizeLocation(p.location.value).Ok?)
    ensures r.Ok? ==> (r.value.Some? <==> p.location.Some?)
    ensures r.Ok? && p.location.Some? ==> r.value.value == NormalizeLocation(p.location.value).value
    ensures p.location.Some? && NormalizeLocation(p.location.value).Err? ==>
      r == Err(LocationFailed(NormalizeLocation(p.location.value).error))
    ensures r.Err? && r.error.ValidationFailed? ==> r.error.paths == UpdateErrors(p) && r.error.paths != {}
  {
    var errors := UpdateErrors(p);
    match p.location
    case Some(loc) =>
      (match NormalizeLocation(loc)
       case Err(e) => Err(LocationFailed(e))
       case Ok(normal) => if errors != {} then Err(ValidationFailed(errors)) else Ok(Some(normal)))
    case None =>
      if errors != {} then Err(ValidationFailed(errors)) else Ok(None)
  }

  /** `findByIdAndUpdate` on the record `h` as it behaves: a text location is
      stored as text. */
  function ApplyUpdateAsWritten(h: Hazard, p: UpdatePayload, now: int): (r: Result<Hazard, SaveError>)
    ensures r.Ok? <==> UpdateErrors(p) == {}
    ensures r.Err? ==> r == Err(ValidationFailed(UpdateErrors(p)))
    ensures r.Ok? ==> r.value.id == h.id && r.value.createdAt == h.createdAt && r.value.updatedAt == now
    ensures r.Ok? ==> r.value.doc == Merge(h.doc, p, p.location.GetOr(h.doc.location))
  {
    match CheckUpdateAsWritten(p)
    case Err(e) => Err(e)
    case Ok(loc) => Ok(h.(doc := Merge(h.doc, p, loc.GetOr(h.doc.location)), updatedAt := now))
  }

  /** The corrected update on the record `h`: a new location goes through the
      hook. Whether it succeeds, and with which error, does not depend on `h`. */
  function ApplyUpdate(h: Hazard, p: UpdatePayload, now: int): (r: Result<Hazard, SaveError>)
    ensures r.Ok? <==> UpdateErrors(p) == {} && (p.location.Some? ==> NormalizeLocation(p.location.value).Ok?)
    ensures r.Err? ==> r == Err(CheckUpdate(p).error)
    ensures r.Ok? ==> r.value.id == h.id && r.value.createdAt == h.createdAt && r.value.updatedAt == now
    ensures r.Ok? ==>
      r.value.doc == Merge(h.doc, p, if p.location.Some? then NormalizeLocation(p.location.value).value else h.doc.location)
    ensures r.Ok? && !h.doc.location.Str? ==> !r.value.doc.location.Str?
  {
    match CheckUpdate(p)
    case Err(e) => Err(e)
    case Ok(loc) => Ok(h.(doc := Merge(h.doc, p, loc.GetOr(h.doc.location)), updatedAt := now))
  }

  /** A valid stored document stays valid: the validators of every path the
      update sets have passed, and the other paths keep their values. */
  lemma ApplyUpdateKeepsValid(h: Hazard, p: UpdatePayload, now: int)
    requires Valid(h.doc) && ApplyUpdate(h, p, now).Ok?
    ensures Valid(ApplyUpdate(h, p, now).value.doc)
  {
    var d := ApplyUpdate(h, p, now).value.doc;
    assert "hazardType" !in UpdateErrors(p) && "severity" !in UpdateErrors(p);
    assert "description" !in UpdateErrors(p) && "tags" !in UpdateErrors(p);
    assert "hazardType" !in ValidationErrors(h.doc) && "severity" !in ValidationErrors(h.doc);
    assert "description" !in ValidationErrors(h.doc) && "tags" !in ValidationErrors(h.doc);
    assert "location" !in ValidationErrors(h.doc);
    assert "source" !in ValidationErrors(h.doc) && "reportedBy" !in ValidationErrors(h.doc);
    assert ValidationErrors(d) == {};
  }

  /** The update as written stores a text location verbatim: a point
      document updated with `"34.05, -118.25"` holds that text afterwards. */
  lemma UpdateStoresTextLocation(h: Hazard, now: int)
    ensures var p := UpdatePayload(None, None, None, Some(Str("34.05, -118.25")), None, None, None);
      ApplyUpdateAsWritten(h, p, now).Ok? &&
      ApplyUpdateAsWritten(h, p, now).value.doc.location == Str("34.05, -118.25")
  {
    var p := UpdatePayload(None, None, None, Some(Str("34.05, -118.25")), None, None, None);
    assert UpdateErrors(p) == {};
  }

  /** The corrected update stores the point the hook builds from a text
      location, and refuses a text location the hook rejects. */
  lemma UpdateNormalizesTextLocation(h: Hazard, now: int, raw: string)
    ensures var p := UpdatePayload(None, None, None, Some(Str(raw)), None, None, None);
      match NormalizeText(raw)
      case Ok(point) => ApplyUpdate(h, p, now).Ok? && ApplyUpdate(h, p, now).value.doc.location == point
      case Err(e) => ApplyUpdate(h, p, now) == Err(LocationFailed(e))
  {
    var p := UpdatePayload(None, None, None, Some(Str(raw)), None, None, None);
    assert UpdateErrors(p) == {};
  }

  /** Worked example: on the same input as the update as written, the corrected update stores the point. */
  lemma UpdateNormalizesExample(h: Hazard, now: int, raw: string)
    requires raw == "34.05, -118.25"
    ensures var p := UpdatePayload(None, None, None, Some(Str(raw)), None, None, None);
      ApplyUpdate(h, p, now).Ok? && ApplyUpdate(h, p, now).value.doc.location == PointValue(-118.25, 34.05)
  {
    NormalizeExample(raw);
    UpdateNormalizesTextLocation(h, now, raw);
  }

  /** Apart from the location, the corrected update agrees with the update
      as written; only a location the hook rejects turns success into an error. */
  lemma ApplyUpdateAgrees(h: Hazard, p: UpdatePayload, now: int)
    ensures p.location.None? ==> ApplyUpdate(h, p, now) == ApplyUpdateAsWritten(h, p, now)
    ensures p.location.Some? && !p.location.value.Str? ==>
      ApplyUpdate(h, p, now) == ApplyUpdateAsWritten(h, p, now)
    ensures ApplyUpdate(h, p, now).Ok? ==> ApplyUpdateAsWritten(h, p, now).Ok?
  {
  }

  /** Media only grows: an update appends at most one file and removes none. */
  lemma UpdateAppendsMedia(h: Hazard, p: UpdatePayload, now: int)
    requires ApplyUpdate(h, p, now).Ok?
    ensures var d := ApplyUpdate(h, p, now).value.doc;
      h.doc.images <= d.images && h.doc.videos <= d.videos &&
      |d.images| + |d.videos| == |h.doc.images| + |h.doc.videos| + (if p.push.Some? then 1 else 0)
  {
  }

  // ---------------------------------------------------------------------------
  // The collection

  /** Identifiers are distinct and below the next one to hand out. */
  predicate IdsFresh(records: seq<Hazard>, nextId: nat) {
    (forall i :: 0 <= i < |records| ==> records[i].id < nextId) &&
    (forall i, j :: 0 <= i < j < |records| ==> records[i].id != records[j].id)
  }

  /** Every stored location has been through the hook. */
  predicate LocationsNormalized(records: seq<Hazard>) {
    forall i :: 0 <= i < |records| ==> !records[i].doc.location.Str?
  }

  /** Every stored document passed validation. */
  predicate DocumentsValid(records: seq<Hazard>) {
    forall i :: 0 <= i < |records| ==> Valid(records[i].doc)
  }

  /** The position of the record with identifier `id`, if any. */
  function IndexOf(records: seq<Hazard>, id: nat): (r: Option<nat>)
    ensures r.Some? ==> r.value < |records| && records[r.value].id == id
    ensures r.None? ==> forall i :: 0 <= i < |records| ==> records[i].id != id
  {
    if records == [] then None
    else if records[0].id == id then Some(0)
    else match IndexOf(records[1..], id)
      case None => None
      case Some(k) => Some(k + 1)
  }

  class HazardCollection {
    var records: seq<Hazard>
    var nextId: nat

    ghost predicate Valid()
      reads this
    {
      IdsFresh(records, nextId) && LocationsNormalized(records) && DocumentsValid(records)
    }

    constructor ()
      ensures Valid() && records == [] && nextId == 0
    {
      records, nextId := [], 0;
    }

    /** `new Hazard(...).save()` once the document passed the hook and validation. */
    method Insert(doc: HazardDoc, now: int) returns (h: Hazard)
      requires Valid() && !doc.location.Str? && HazardModel.Valid(doc)
      modifies this
      ensures Valid()
      ensures h == Hazard(old(nextId), doc, now, now)
      ensures records == old(records) + [h] && nextId == old(nextId) + 1
    {
      h := Hazard(nextId, doc, now, now);
      records := records + [h];
      nextId := nextId + 1;
    }

    /** `findById(id)`. */
    method FindById(id: nat) returns (r: Option<Hazard>)
      requires Valid()
      ensures r.Some? <==> exists i :: 0 <= i < |records| && records[i].id == id
      ensures r.Some? ==> r.value in records && r.value.id == id
    {
      var k := IndexOf(records, id);
      r := if k.Some? then Some(records[k.value]) else None;
    }

    /** `findByIdAndUpdate(id, p, {new: true, runValidators: true})`, with the
        location hook applied. The update is checked before the record is
        looked up: a refused update is refused whether or not the record
        exists, and `None` (no record) comes only for an update that passed.
        The stored record is replaced in place. */
    method UpdateById(id: nat, p: UpdatePayload, now: int) returns (r: Option<Result<Hazard, SaveError>>)
      requires Valid()
      modifies this
      ensures Valid() && nextId == old(nextId)
      ensures CheckUpdate(p).Err? ==> r == Some(Err(CheckUpdate(p).error)) && records == old(records)
      ensures CheckUpdate(p).Ok? && IndexOf(old(records), id).None? ==> r == None && records == old(records)
      ensures CheckUpdate(p).Ok? && IndexOf(old(records), id).Some? ==>
        var k := IndexOf(old(records), id).value;
        r == Some(ApplyUpdate(old(records)[k], p, now)) && r.value.Ok? &&
        records == old(records)[k := r.value.value]
    {
      var c := CheckUpdate(p);
      if c.Err? {
        return Some(Err(c.error));
      }
      var k := IndexOf(records, id);
      if k.None? {
        return None;
      }
      var u := ApplyUpdate(records[k.value], p, now);
      ApplyUpdateKeepsValid(records[k.value], p, now);
      records := records[k.value := u.value];
      return Some(u);
    }

    /** `findByIdAndDelete(id)`: the record is removed, the rest keep their order. */
    method DeleteById(id: nat) returns (r: Option<Hazard>)
      requires Valid()
      modifies this
      ensures Valid() && nextId == old(nextId)
      ensures r.None? <==> IndexOf(old(records), id).None?
      ensures r.None? ==> records == old(records)
      ensures r.Some? ==> var k := IndexOf(old(records), id).value;
        r.value == old(records)[k] && records == old(records)[..k] + old(records)[k + 1..]
    {
      var k := IndexOf(records, id);
      if k.None? {
        return None;
      }
      r := Some(records[k.value]);
      var i := k.value;
      var rest := records[..i] + records[i + 1..];
      assert forall a :: 0 <= a < |rest| ==> rest[a] == records[if a < i then a else a + 1];
      records := rest;
    }
  }
}
