/** The hazard document: the schema's enumerations, required fields, length
    limit and defaults, and the pre-validate hook that rewrites a `"lat,lng"`
    text location into a GeoJSON point. */
module HazardModel {
  import opened Js
  import opened JsString
  import opened JsNumber
  import Credibility

  const HazardTypes: seq<string> := ["Earthquake", "Flood", "Wildfire", "Tornado", "Landslide", "Tsunami"]
  const Severities: seq<string> := ["low", "moderate", "high", "severe"]
  const TagValues: seq<string> := ["help", "warning", "info", "fun"]
  const Sources: seq<string> := ["Citizen Report", "News Agency", "Sensor Data", "Drone Footage", "Ocean Buoy"]
  const DescriptionMaxLength: nat := 1000
  const DefaultSource: string := "Citizen Report"
  const DefaultReportedBy: string := "Anonymous"

  // ---------------------------------------------------------------------------
  // Location normalisation (the pre-validate hook)

  datatype LocationError = InvalidFormat | InvalidNumbers

  predicate QuotedWith(t: string, q: char) {
    |t| > 0 && t[0] == q && t[|t| - 1] == q
  }

  /** Removes one pair of matching outer `"` or `'`: `loc.slice(1, -1)`, which
      is empty for a one-character string. */
  function StripQuotes(t: string): (r: string)
    ensures r != t ==> (QuotedWith(t, '"') || QuotedWith(t, '\'')) && r == (if |t| >= 2 then t[1..|t| - 1] else [])
    ensures !QuotedWith(t, '"') && !QuotedWith(t, '\'') ==> r == t
    ensures |r| <= |t|
  {
    if QuotedWith(t, '"') || QuotedWith(t, '\'') then
      (if |t| >= 2 then t[1..|t| - 1] else "")
    else t
  }

  /** `loc.split(",").map(v => v.trim())`. */
  function LocationParts(t: string): (parts: seq<string>)
    ensures |parts| == Count(t, ',') + 1
  {
    var pieces := Split(t, ',');
    seq(|pieces|, i requires 0 <= i < |pieces| => Trim(pieces[i]))
  }

  /** The hook's treatment of a text location: trim, strip one pair of quotes,
      demand exactly two comma-separated parts, convert both with unary `+`,
      and build the point with the order reversed to `[lng, lat]`. */
  function NormalizeText(raw: string): (r: Result<Value, LocationError>)
    ensures r.Ok? ==> exists lng: real, lat: real :: r.value == PointValue(lng, lat)
  {
    var parts := LocationParts(StripQuotes(Trim(raw)));
    if |parts| != 2 then Err(InvalidFormat)
    else
      var lat := ToNumber(parts[0]);
      var lng := ToNumber(parts[1]);
      if !lat.Finite? || !lng.Finite? then Err(InvalidNumbers)
      else Ok(PointValue(lng.value, lat.value))
  }

  /** The hook on the document's `location`: only a string is rewritten. */
  function NormalizeLocation(location: Value): (r: Result<Value, LocationError>)
    ensures r.Ok? ==> !r.value.Str?
    ensures !location.Str? ==> r == Ok(location)
  {
    if location.Str? then NormalizeText(location.s) else Ok(location)
  }

  /** A pair of matching `"` or `'` around the text is removed, and only that pair. */
  lemma StripMatchingQuotes(q: char, m: string)
    requires q == '"' || q == '\''
    ensures StripQuotes([q] + m + [q]) == m
  {
    var t := [q] + m + [q];
    assert t[0] == q && t[|t| - 1] == q;
    assert t[1..|t| - 1] == m;
  }

  /** Text that does not open and close with the same quote character is kept. */
  lemma StripKeepsUnquoted(t: string)
    requires !QuotedWith(t, '"') && !QuotedWith(t, '\'')
    ensures StripQuotes(t) == t
  {
  }

  /** A text location with other than exactly one comma (after trimming and
      unquoting) is a format error, and only such a location is: the numbers
      are never looked at. */
  lemma FormatErrorIff(raw: string)
    ensures NormalizeText(raw) == Err(InvalidFormat) <==> Count(StripQuotes(Trim(raw)), ',') != 1
  {
    var parts := LocationParts(StripQuotes(Trim(raw)));
    assert |parts| == Count(StripQuotes(Trim(raw)), ',') + 1;
  }

  /** With exactly one comma between `a` and `b`, the location is the point
      `[+b, +a]` — longitude first — when both convert to finite numbers, and
      a numbers error otherwise. */
  lemma NormalizeLatLng(raw: string, a: string, b: string)
    requires StripQuotes(Trim(raw)) == a + [','] + b
    requires ',' !in a && ',' !in b
    ensures NormalizeText(raw) ==
      if ToNumber(a).Finite? && ToNumber(b).Finite? then Ok(PointValue(ToNumber(b).value, ToNumber(a).value))
      else Err(InvalidNumbers)
  {
    SplitTwo(a, b, ',');
    var parts := LocationParts(a + [','] + b);
    assert parts == [Trim(a), Trim(b)];
    ToNumberOfTrimmed(a);
    ToNumberOfTrimmed(b);
  }

  /** Two texts whose parts trim alike normalise alike: whitespace around
      either part never matters, so `"a , b"` reads as `"a,b"`. */
  lemma SameTrimmedParts(r1: string, a1: string, b1: string, r2: string, a2: string, b2: string)
    requires StripQuotes(Trim(r1)) == a1 + [','] + b1 && ',' !in a1 && ',' !in b1
    requires StripQuotes(Trim(r2)) == a2 + [','] + b2 && ',' !in a2 && ',' !in b2
    requires Trim(a1) == Trim(a2) && Trim(b1) == Trim(b2)
    ensures NormalizeText(r1) == NormalizeText(r2)
  {
    NormalizeLatLng(r1, a1, b1);
    NormalizeLatLng(r2, a2, b2);
    ToNumberOfTrimmed(a1);
    ToNumberOfTrimmed(a2);
    ToNumberOfTrimmed(b1);
    ToNumberOfTrimmed(b2);
  }

  /** Whitespace around the whole location text is ignored. */
  lemma NormalizePadded(w1: string, s: string, w2: string)
    requires AllWhitespace(w1) && AllWhitespace(w2)
    ensures NormalizeText(w1 + s + w2) == NormalizeText(s)
  {
    TrimPadded(w1, s, w2);
  }

  /** Two texts with the same unquoted core normalise alike. */
  lemma SameCore(r1: string, r2: string)
    requires StripQuotes(Trim(r1)) == StripQuotes(Trim(r2))
    ensures NormalizeText(r1) == NormalizeText(r2)
  {
  }

  /** A location in matching quotes reads as the same location without them. */
  lemma NormalizeQuoted(q: char, m: string)
    requires q == '"' || q == '\''
    requires Trim(m) == m && !QuotedWith(m, '"') && !QuotedWith(m, '\'')
    ensures NormalizeText([q] + m + [q]) == NormalizeText(m)
  {
    QuotedTrimmed(q, m);
    StripMatchingQuotes(q, m);
    StripKeepsUnquoted(m);
    SameCore([q] + m + [q], m);
  }

  /** A quote character is not whitespace, so quoted text has nothing to trim. */
  lemma QuotedTrimmed(q: char, m: string)
    requires q == '"' || q == '\''
    ensures Trim([q] + m + [q]) == [q] + m + [q]
  {
    var t := [q] + m + [q];
    assert IsTrimmed(t) by {
      assert t[0] == q && t[|t| - 1] == q;
    }
    assert t == [] + t + [];
    TrimUnique(t, [], t, []);
  }

  /** The hook is idempotent: a location it produced, or a point it was
      given, passes through a second run unchanged. */
  lemma NormalizeIdempotent(location: Value)
    ensures NormalizeLocation(location).Ok? ==>
      NormalizeLocation(NormalizeLocation(location).value) == NormalizeLocation(location)
  {
  }

  /** A lone quote character is unquoted to the empty text, which has one part. */
  lemma LoneQuoteIsFormatError()
    ensures NormalizeText("\"") == Err(InvalidFormat)
  {
    assert StripQuotes(Trim("\"")) == "" by {
      TrimUnique("\"", [], "\"", []);
    }
    FormatErrorIff("\"");
  }

  /** A single number, with no comma, is a format error. */
  lemma MissingCommaIsFormatError()
    ensures NormalizeText("34.05") == Err(InvalidFormat)
  {
    var t := "34.05";
    assert Trim(t) == t by { TrimUnique(t, [], t, []); }
    CountAbsent(t, ',');
    FormatErrorIff(t);
  }

  /** A lone comma has two empty parts, and `+""` is 0: the point `[0, 0]`. */
  lemma LoneCommaIsOrigin()
    ensures NormalizeText(",") == Ok(PointValue(0.0, 0.0))
  {
    TrimmedText(",");
    StripKeepsUnquoted(",");
    assert "," == [] + [','] + [];
    NormalizeLatLng(",", [], []);
  }

  /** Step of the worked example `WordsAreNumbersError`: the trimmed, unquoted text. */
  lemma WordsShape()
    ensures StripQuotes(Trim("not,numbers")) == "not" + [','] + "numbers"
  {
    TrimmedText("not,numbers");
    StripKeepsUnquoted("not,numbers");
    WordsParts();
  }

  /** Step of the worked example `WordsAreNumbersError`: where the comma sits. */
  lemma WordsParts()
    ensures "not,numbers" == "not" + [','] + "numbers"
  {
  }

  /** Step of the worked example `WordsAreNumbersError`: one comma only. */
  lemma WordsNoCommas()
    ensures ',' !in "not" && ',' !in "numbers"
  {
  }

  /** Step of the worked example `WordsAreNumbersError`: a word is not a number. */
  lemma WordIsNaN()
    ensures ToNumber("not") == NonFinite
  {
    assert Trim("not") == "not" by { TrimUnique("not", [], "not", []); }
    ToNumberNonNumeric("not");
  }

  /** One comma, but a part that is not a number: a numbers error. */
  lemma NumbersError(raw: string, a: string, b: string)
    requires StripQuotes(Trim(raw)) == a + [','] + b
    requires ',' !in a && ',' !in b
    requires ToNumber(a) == NonFinite || ToNumber(b) == NonFinite
    ensures NormalizeText(raw) == Err(InvalidNumbers)
  {
    NormalizeLatLng(raw, a, b);
  }

  /** Worked example: two words around a comma have the right shape but are not numbers. */
  lemma WordsAreNumbersError(raw: string)
    requires raw == "not,numbers"
    ensures NormalizeText(raw) == Err(InvalidNumbers)
  {
    WordsShape();
    WordsNoCommas();
    WordIsNaN();
    NumbersError(raw, "not", "numbers");
  }

  /** Step of the worked example `NormalizeExample`: the trimmed, unquoted text. */
  lemma ExampleShape()
    ensures StripQuotes(Trim("34.05, -118.25")) == "34.05" + [','] + (" " + "-118.25")
  {
    TrimmedText("34.05, -118.25");
    StripKeepsUnquoted("34.05, -118.25");
    ExampleParts();
  }

  /** Solver step for the worked examples: text with no outer whitespace trims to itself. */
  lemma TrimmedText(t: string)
    requires IsTrimmed(t)
    ensures Trim(t) == t
  {
    TrimUnique(t, [], t, []);
  }

  /** Step of the worked example `NormalizeExample`: where the comma sits. */
  lemma ExampleParts()
    ensures "34.05, -118.25" == "34.05" + [','] + (" " + "-118.25")
  {
  }

  /** Step of the worked example `NormalizeExample`: one comma only. */
  lemma ExampleNoCommas()
    ensures ',' !in "34.05" && ',' !in " " + "-118.25"
  {
  }

  /** Step of the worked example `NormalizeExample`: the padded longitude part. */
  lemma ExampleLongitude()
    ensures ToNumber(" " + "-118.25") == Finite(-118.25)
  {
    ToNumberPadded(" ", "-118.25", "");
    assert " " + "-118.25" + "" == " " + "-118.25";
    ToNumberLongitudeExample();
  }

  /** Worked example of the documented form: latitude first, with the point storing longitude first. */
  lemma NormalizeExample(raw: string)
    requires raw == "34.05, -118.25"
    ensures NormalizeText(raw) == Ok(PointValue(-118.25, 34.05))
  {
    ExampleShape();
    ExampleNoCommas();
    ToNumberLatitudeExample();
    ExampleLongitude();
    PointOfParts(raw, "34.05", " " + "-118.25", 34.05, -118.25);
  }

  /** One comma between two finite numbers gives the point, longitude first. */
  lemma PointOfParts(raw: string, a: string, b: string, lat: real, lng: real)
    requires StripQuotes(Trim(raw)) == a + [','] + b && ',' !in a && ',' !in b
    requires ToNumber(a) == Finite(lat) && ToNumber(b) == Finite(lng)
    ensures NormalizeText(raw) == Ok(PointValue(lng, lat))
  {
    NormalizeLatLng(raw, a, b);
  }

  // ---------------------------------------------------------------------------
  // The schema

  /** The controller's `hazardData` and anything else handed to `new Hazard(...)`.
      `Undefined` and `None` mark fields that were not given. */
  datatype HazardData = HazardData(
    hazardType: Value,
    severity: Value,
    description: Value,
    location: Value,
    tags: Value,
    images: Option<seq<string>>,
    videos: Option<seq<string>>,
    credibilityScore: Option<int>,
    source: Value,
    verified: Option<bool>,
    reportedBy: Value)

  /** The fields of a hazard document once its defaults are in place. */
  datatype HazardDoc = HazardDoc(
    hazardType: Value,
    severity: Value,
    description: Value,
    location: Value,
    tags: Value,
    images: seq<string>,
    videos: seq<string>,
    credibilityScore: int,
    source: Value,
    verified: bool,
    reportedBy: Value)

  /** What `new Hazard(data)` fills in: unset arrays are empty, an unset score is
      `calculateCredibility(this.severity)` with jitter `j`, `source` is
      "Citizen Report", `verified` false and `reportedBy` "Anonymous". */
  function ApplyDefaults(data: HazardData, j: int): (doc: HazardDoc)
    requires 0 <= j <= 14
    ensures doc.hazardType == data.hazardType && doc.severity == data.severity
    ensures doc.description == data.description && doc.location == data.location
    ensures data.tags == Undefined ==> doc.tags == Array([])
    ensures data.tags != Undefined ==> doc.tags == data.tags
    ensures data.images.None? ==> doc.images == []
    ensures data.images.Some? ==> doc.images == data.images.value
    ensures data.videos.None? ==> doc.videos == []
    ensures data.videos.Some? ==> doc.videos == data.videos.value
    ensures data.credibilityScore.Some? ==> doc.credibilityScore == data.credibilityScore.value
    ensures data.credibilityScore.None? ==>
      Credibility.BaseScore(data.severity) <= doc.credibilityScore <= Credibility.BaseScore(data.severity) + 14
    ensures data.source == Undefined ==> doc.source == Str(DefaultSource)
    ensures data.source != Undefined ==> doc.source == data.source
    ensures data.verified.None? ==> !doc.verified
    ensures data.verified.Some? ==> doc.verified == data.verified.value
    ensures data.reportedBy == Undefined ==> doc.reportedBy == Str(DefaultReportedBy)
    ensures data.reportedBy != Undefined ==> doc.reportedBy == data.reportedBy
  {
    HazardDoc(
      data.hazardType, data.severity, data.description, data.location,
      if data.tags == Undefined then Array([]) else data.tags,
      data.images.GetOr([]), data.videos.GetOr([]),
      data.credibilityScore.GetOr(Credibility.CalculateCredibility(data.severity, j)),
      if data.source == Undefined then Str(DefaultSource) else data.source,
      data.verified.GetOr(false),
      if data.reportedBy == Undefined then Str(DefaultReportedBy) else data.reportedBy)
  }

  /** A required String path with an enumeration: a missing value, `null` or ""
      fails `required`; numbers and booleans cast to text that is not in any of
      the enumerations; arrays and objects do not cast to String. */
  predicate EnumOk(v: Value, allowed: seq<string>) {
    v.Str? && v.s in allowed
  }

  /** `description`: required, at most 1000 UTF-16 code units. A number or boolean
      casts to a short non-empty text, so it passes. */
  predicate DescriptionOk(v: Value) {
    match v
    case Str(s) => 0 < Utf16Length(s) <= DescriptionMaxLength
    case Number(_) => true
    case Bool(_) => true
    case _ => false
  }

  /** An optional String path without an enumeration: anything that casts. */
  predicate StringCastOk(v: Value) {
    !v.Array? && !v.Object?
  }

  /** The elements the `tags` array path holds: an array as it is, `null`
      kept as `null` with no elements, and any other value wrapped in a
      one-element array. */
  function TagList(v: Value): seq<Value> {
    if v.Array? then v.items else if v.Null? then [] else [v]
  }

  /** Every tag element is a required String from the tag enumeration. */
  predicate TagsOk(v: Value) {
    forall i :: 0 <= i < |TagList(v)| ==> EnumOk(TagList(v)[i], TagValues)
  }

  /** The paths that fail validation. */
  function ValidationErrors(doc: HazardDoc): (paths: set<string>)
    ensures paths <= {"hazardType", "severity", "description", "location", "tags", "source", "reportedBy"}
    ensures doc.location in {Undefined, Null} ==> "location" in paths
  {
    (if EnumOk(doc.hazardType, HazardTypes) then {} else {"hazardType"}) +
    (if EnumOk(doc.severity, Severities) then {} else {"severity"}) +
    (if DescriptionOk(doc.description) then {} else {"description"}) +
    (if doc.location != Undefined && doc.location != Null then {} else {"location"}) +
    (if TagsOk(doc.tags) then {} else {"tags"}) +
    (if doc.source == Undefined || EnumOk(doc.source, Sources) then {} else {"source"}) +
    (if StringCastOk(doc.reportedBy) then {} else {"reportedBy"})
  }

  predicate Valid(doc: HazardDoc) {
    ValidationErrors(doc) == {}
  }

  datatype SaveError = LocationFailed(reason: LocationError) | ValidationFailed(paths: set<string>)

  /** `new Hazard(data).save()` up to the write: defaults, then the
      pre-validate hook (whose error stops validation), then validation. */
  function Prepare(data: HazardData, j: int): (r: Result<HazardDoc, SaveError>)
    requires 0 <= j <= 14
    ensures r.Ok? ==> Valid(r.value) && !r.value.location.Str?
    ensures r.Ok? ==> r.value == ApplyDefaults(data, j).(location := r.value.location)
    ensures var hooked := NormalizeLocation(ApplyDefaults(data, j).location);
      r.Ok? ==> hooked.Ok? && r.value.location == hooked.value
    ensures var hooked := NormalizeLocation(ApplyDefaults(data, j).location);
      hooked.Err? ==> r == Err(LocationFailed(hooked.error))
    ensures var doc := ApplyDefaults(data, j);
      var hooked := NormalizeLocation(doc.location);
      hooked.Ok? ==> (r.Ok? <==> Valid(doc.(location := hooked.value)))
    ensures var doc := ApplyDefaults(data, j);
      var hooked := NormalizeLocation(doc.location);
      r.Err? && r.error.ValidationFailed? ==>
        hooked.Ok? && r.error.paths == ValidationErrors(doc.(location := hooked.value)) && r.error.paths != {}
  {
    var doc := ApplyDefaults(data, j);
    match NormalizeLocation(doc.location)
    case Err(e) => Err(LocationFailed(e))
    case Ok(location) =>
      var d := doc.(location := location);
      if Valid(d) then Ok(d) else Err(ValidationFailed(ValidationErrors(d)))
  }

  /** What a valid document holds: a listed hazard type and severity, a
      description of at most 1000 characters, a location, only listed tags
      and, when set, a listed source. */
  lemma ValidDocument(doc: HazardDoc)
    requires Valid(doc)
    ensures doc.hazardType.Str? && doc.hazardType.s in HazardTypes
    ensures doc.severity.Str? && doc.severity.s in Severities
    ensures doc.description.Str? ==> 0 < |doc.description.s| <= DescriptionMaxLength
    ensures doc.location != Undefined && doc.location != Null
    ensures doc.tags.Array? ==>
      forall i :: 0 <= i < |doc.tags.items| ==> doc.tags.items[i].Str? && doc.tags.items[i].s in TagValues
    ensures doc.tags.Str? ==> doc.tags.s in TagValues
    ensures doc.source.Str? ==> doc.source.s in Sources
  {
    assert "hazardType" !in ValidationErrors(doc);
    assert "severity" !in ValidationErrors(doc);
    assert "description" !in ValidationErrors(doc);
    assert "location" !in ValidationErrors(doc);
    assert "tags" !in ValidationErrors(doc);
    assert "source" !in ValidationErrors(doc);
    TagsCases(doc.tags);
  }

  /** Each required path fails when it is missing, `null` or (for text) empty. */
  lemma RequiredPaths(doc: HazardDoc)
    ensures doc.hazardType in {Undefined, Null, Str("")} ==> "hazardType" in ValidationErrors(doc)
    ensures doc.severity in {Undefined, Null, Str("")} ==> "severity" in ValidationErrors(doc)
    ensures doc.description in {Undefined, Null, Str("")} ==> "description" in ValidationErrors(doc)
    ensures doc.location in {Undefined, Null} ==> "location" in ValidationErrors(doc)
  {
    assert Utf16Length("") == 0;
  }

  /** The description limit counts UTF-16 units: more than 1000 characters
      always fail, and up to 500 characters of any kind always pass. */
  lemma DescriptionLength(s: string)
    ensures |s| > DescriptionMaxLength ==> !DescriptionOk(Str(s))
    ensures 0 < |s| <= DescriptionMaxLength / 2 ==> DescriptionOk(Str(s))
    ensures (forall i :: 0 <= i < |s| ==> s[i] as int < 0x1_0000) ==>
      (DescriptionOk(Str(s)) <==> 0 < |s| <= DescriptionMaxLength)
  {
    BmpLength(s);
  }

  /** Inside the Basic Multilingual Plane a character is one UTF-16 unit. */
  lemma {:induction false} BmpLength(s: string)
    ensures (forall i :: 0 <= i < |s| ==> s[i] as int < 0x1_0000) ==> Utf16Length(s) == |s|
  {
    if s != [] && (forall i :: 0 <= i < |s| ==> s[i] as int < 0x1_0000) {
      assert forall i :: 0 <= i < |s[1..]| ==> s[1..][i] == s[i + 1];
      BmpLength(s[1..]);
    }
  }

  /** A text `tags` value is wrapped into a one-element array, so it passes
      exactly when it is itself one of the tags; an array passes when every
      element is a tag; the empty array and `null` always pass. */
  lemma TagsCases(v: Value)
    ensures v.Str? ==> (TagsOk(v) <==> v.s in TagValues)
    ensures TagsOk(Array([])) && TagsOk(Null)
    ensures v.Array? ==> (TagsOk(v) <==> forall i :: 0 <= i < |v.items| ==> EnumOk(v.items[i], TagValues))
  {
    if v.Str? {
      assert TagList(v) == [v];
      assert TagsOk(v) <==> EnumOk(TagList(v)[0], TagValues);
    }
    if v.Array? {
      assert TagList(v) == v.items;
    }
  }

  /** The defaults themselves satisfy the schema: a document given only the
      four required fields, validly, and no location problem, is saved. */
  lemma DefaultsAreValid(data: HazardData, j: int)
    requires 0 <= j <= 14
    requires EnumOk(data.hazardType, HazardTypes) && EnumOk(data.severity, Severities)
    requires DescriptionOk(data.description) && data.location.Object?
    requires data.tags == Undefined && data.source == Undefined && data.reportedBy == Undefined
    requires data.verified == None
    ensures Prepare(data, j).Ok?
    ensures var d := Prepare(data, j).value;
      d.tags == Array([]) && d.source == Str(DefaultSource) && !d.verified &&
      (data.images.None? ==> d.images == []) && (data.videos.None? ==> d.videos == []) &&
      d.reportedBy == Str(DefaultReportedBy) && d.location == data.location &&
      (data.credibilityScore.None? ==> d.credibilityScore == Credibility.CalculateCredibility(data.severity, j))
  {
    var doc := ApplyDefaults(data, j);
    TagsCases(doc.tags);
    assert Valid(doc);
  }

  // ---------------------------------------------------------------------------
  // The document, as the hook sees it

  class HazardDocument {
    var hazardType: Value
    var severity: Value
    var description: Value
    var location: Value
    var tags: Value
    var images: seq<string>
    var videos: seq<string>
    var credibilityScore: int
    var source: Value
    var verified: bool
    var reportedBy: Value

    function Snapshot(): HazardDoc
      reads this
    {
      HazardDoc(hazardType, severity, description, location, tags, images, videos,
                credibilityScore, source, verified, reportedBy)
    }

    /** `new Hazard(data)`. */
    constructor (data: HazardData, j: int)
      requires 0 <= j <= 14
      ensures Snapshot() == ApplyDefaults(data, j)
    {
      var d := ApplyDefaults(data, j);
      hazardType, severity, description, location, tags := d.hazardType, d.severity, d.description, d.location, d.tags;
      images, videos, credibilityScore := d.images, d.videos, d.credibilityScore;
      source, verified, reportedBy := d.source, d.verified, d.reportedBy;
    }

    /** The pre-validate hook: a string location is trimmed, unquoted, split,
        converted and replaced by a point; on an error it is left as it was. */
    method PreValidate() returns (err: Option<LocationError>)
      modifies this
      ensures NormalizeLocation(old(location)).Ok? ==>
        err == None && Snapshot() == old(Snapshot()).(location := NormalizeLocation(old(location)).value)
      ensures NormalizeLocation(old(location)).Err? ==>
        err == Some(NormalizeLocation(old(location)).error) && Snapshot() == old(Snapshot())
    {
      if location.Str? {
        var loc := Trim(location.s);
        if QuotedWith(loc, '"') || QuotedWith(loc, '\'') {
          loc := if |loc| >= 2 then loc[1..|loc| - 1] else "";
        }
        assert loc == StripQuotes(Trim(old(location).s));
        var parts := LocationParts(loc);
        if |parts| != 2 {
          return Some(InvalidFormat);
        }
        var lat := ToNumber(parts[0]);
        var lng := ToNumber(parts[1]);
        if !lat.Finite? || !lng.Finite? {
          return Some(InvalidNumbers);
        }
        location := PointValue(lng.value, lat.value);
      }
      return None;
    }
  }
}
