/** The request handlers: the listing query (filter, sort, pagination), the
    create and update payloads built from a request body and an optional
    uploaded file, the lenient tag parsing, and the list of media files
    removed with a hazard. Each handler's answer is a `Response`. */
module HazardController {
  import opened Js
  import opened HazardModel
  import opened HazardStore
  import Credibility

  /** What a handler sends: a status with a payload, or an error text. */
  datatype Response =
    | Listed(listing: Listing)
    | Found(hazard: Hazard)
    | Created(hazard: Hazard)
    | Updated(hazard: Hazard)
    | Deleted
    | Failed(status: nat, error: string)

  // ---------------------------------------------------------------------------
  // Listing

  /** The query string of `GET /`: `limit`, `page` and `sortBy` are absent or
      already read as numbers and text. */
  datatype ListQuery = ListQuery(
    severity: Value,
    hazardType: Value,
    limit: Option<nat>,
    page: Option<nat>,
    sortBy: Option<string>,
    sortOrder: Value)

  const DefaultLimit: nat := 50
  const DefaultPage: nat := 1
  const DefaultSortBy: string := "createdAt"

  /** The filter: a `severity` or `hazardType` key exactly for a truthy
      query value, holding that value, and no other key. */
  function FilterOf(severity: Value, hazardType: Value): (filter: map<string, Value>)
    ensures "severity" in filter <==> Truthy(severity)
    ensures "hazardType" in filter <==> Truthy(hazardType)
    ensures filter.Keys <= {"severity", "hazardType"}
    ensures "severity" in filter ==> filter["severity"] == severity
    ensures "hazardType" in filter ==> filter["hazardType"] == hazardType
  {
    var withSeverity := if Truthy(severity) then map["severity" := severity] else map[];
    if Truthy(hazardType) then withSeverity["hazardType" := hazardType] else withSeverity
  }

  /** The handler's assignments, one key after the other. */
  method BuildFilter(severity: Value, hazardType: Value) returns (filter: map<string, Value>)
    ensures filter == FilterOf(severity, hazardType)
  {
    filter := map[];
    if Truthy(severity) {
      filter := filter["severity" := severity];
    }
    if Truthy(hazardType) {
      filter := filter["hazardType" := hazardType];
    }
  }

  /** A record passes the filter when it agrees with every truthy query value;
      a falsy one constrains nothing. */
  lemma FilterMatches(h: Hazard, severity: Value, hazardType: Value)
    ensures Matches(h, FilterOf(severity, hazardType)) <==>
      (Truthy(severity) ==> h.doc.severity == severity) &&
      (Truthy(hazardType) ==> h.doc.hazardType == hazardType)
  {
    var filter := FilterOf(severity, hazardType);
    if Truthy(severity) && !Matches(h, filter) {
      var path :| path in filter && FieldValue(h, path) != filter[path];
    }
  }

  /** `{[sortBy]: sortOrder === 'asc' ? 1 : -1}` with the defaults `createdAt`
      and `desc`. */
  function SortSpecOf(sortBy: Option<string>, sortOrder: Value): (spec: SortSpec)
    ensures spec.ascending <==> sortOrder == Str("asc")
    ensures spec.field == sortBy.GetOr(DefaultSortBy)
  {
    SortSpec(sortBy.GetOr(DefaultSortBy), sortOrder == Str("asc"))
  }

  /** The number the sort document holds. */
  function Direction(spec: SortSpec): int {
    if spec.ascending then 1 else -1
  }

  /** The direction is 1 exactly for `"asc"` and -1 for anything else, the
      default `"desc"` and a missing value included. */
  lemma DirectionOf(sortBy: Option<string>, sortOrder: Value)
    ensures Direction(SortSpecOf(sortBy, sortOrder)) == 1 <==> sortOrder == Str("asc")
    ensures Direction(SortSpecOf(sortBy, sortOrder)) == -1 <==> sortOrder != Str("asc")
    ensures SortSpecOf(None, Undefined) == SortSpec("createdAt", false)
  {
  }

  /** `Math.ceil(a / b)` for a positive `b`: the least `c` with `c * b >= a`. */
  function CeilDiv(a: nat, b: nat): (c: nat)
    requires b > 0
    ensures c * b >= a
    ensures c > 0 ==> (c - 1) * b < a
  {
    (a + b - 1) / b
  }

  /** `(page - 1) * limit`: never negative from page 1 on, and negative
      exactly for page 0 with a positive limit. */
  function Skip(page: nat, limit: nat): (skip: int)
    ensures page >= 1 ==> skip >= 0
    ensures skip < 0 <==> page == 0 && limit > 0
  {
    (page - 1) * limit
  }

  /** `Math.ceil(total / limit)`; for a zero limit that is `Infinity` or `NaN`,
      which the JSON response carries as `null`. */
  function TotalPages(total: nat, limit: nat): (pages: Option<nat>)
    ensures pages.Some? <==> limit > 0
    ensures pages.Some? ==> pages.value * limit >= total && (pages.value > 0 ==> (pages.value - 1) * limit < total)
    ensures pages == Some(0) <==> limit > 0 && total == 0
  {
    if limit == 0 then None else Some(CeilDiv(total, limit))
  }

  datatype Pagination = Pagination(currentPage: nat, totalPages: Option<nat>, totalItems: nat, itemsPerPage: nat)
  datatype Listing = Listing(hazards: seq<Hazard>, pagination: Pagination)

  /** `getHazards` over the records of the collection. A negative skip (page 0
      with a positive limit) makes the database refuse the query. */
  function GetHazards(records: seq<Hazard>, q: ListQuery): (r: Response)
    ensures r.Listed? || r == Failed(500, "Failed to fetch hazards")
    ensures r.Failed? <==> q.page == Some(0) && q.limit.GetOr(DefaultLimit) > 0
  {
    var limit := q.limit.GetOr(DefaultLimit);
    var page := q.page.GetOr(DefaultPage);
    var filter := FilterOf(q.severity, q.hazardType);
    var skip := Skip(page, limit);
    if skip < 0 then Failed(500, "Failed to fetch hazards")
    else
      var total := CountMatches(records, filter);
      Listed(Listing(Query(records, filter, SortSpecOf(q.sortBy, q.sortOrder), skip, limit),
                     Pagination(page, TotalPages(total, limit), total, limit)))
  }

  /** The listing of a query whose skip is not negative. */
  lemma ListedQuery(records: seq<Hazard>, q: ListQuery)
    requires q.page != Some(0) || q.limit.GetOr(DefaultLimit) == 0
    ensures var limit := q.limit.GetOr(DefaultLimit);
      var filter := FilterOf(q.severity, q.hazardType);
      GetHazards(records, q).Listed? &&
      GetHazards(records, q).listing.hazards ==
        HazardStore.Query(records, filter, SortSpecOf(q.sortBy, q.sortOrder), Skip(q.page.GetOr(DefaultPage), limit), limit)
  {
  }

  /** What a successful listing holds: as many records as the window at
      `(page - 1) * limit` of the matching records has room for, so at most
      `limit` (0 is no limit) and none past the last match; each a matching
      record of the collection, in the order asked for; and the page, page
      count, match count and limit it was asked for. */
  lemma GetHazardsListing(records: seq<Hazard>, q: ListQuery)
    requires q.page != Some(0) || q.limit.GetOr(DefaultLimit) == 0
    ensures var r := GetHazards(records, q);
      var limit := q.limit.GetOr(DefaultLimit);
      var filter := FilterOf(q.severity, q.hazardType);
      var skip := Skip(q.page.GetOr(DefaultPage), limit);
      var hs := r.listing.hazards;
      r.Listed? && skip >= 0 &&
      |hs| == WindowLength(CountMatches(records, filter), skip as nat, limit) &&
      (limit > 0 ==> |hs| <= limit) &&
      (forall i :: 0 <= i < |hs| ==> Matches(hs[i], filter) && hs[i] in records) &&
      Sorted(hs, SortSpecOf(q.sortBy, q.sortOrder)) &&
      r.listing.pagination == Pagination(q.page.GetOr(DefaultPage), TotalPages(CountMatches(records, filter), limit),
                                         CountMatches(records, filter), limit)
  {
    ListedQuery(records, q);
  }

  /** Every page from the first to the last one reported starts inside the
      matching records. */
  lemma PageWithinTotal(page: nat, limit: nat, total: nat)
    requires limit > 0
    requires 1 <= page <= CeilDiv(total, limit)
    ensures 0 <= Skip(page, limit) < total
  {
    var c := CeilDiv(total, limit);
    assert (page - 1) * limit <= (c - 1) * limit;
  }

  lemma SkipPastLastPage(page: nat, limit: nat, total: nat)
    requires limit > 0 && page > CeilDiv(total, limit)
    ensures Skip(page, limit) >= total
  {
    var c := CeilDiv(total, limit);
    assert (page - 1) * limit >= c * limit by {
      assert (page - 1) * limit == c * limit + (page - 1 - c) * limit;
    }
  }

  lemma SkipStep(p: nat, limit: nat)
    requires p >= 1
    ensures Skip(p, limit) == (p - 1) * limit >= 0
    ensures Skip(p + 1, limit) == Skip(p, limit) + limit
  {
  }

  /** A page past the last one is empty. */
  lemma PageBeyondTotalIsEmpty(records: seq<Hazard>, q: ListQuery)
    requires var limit := q.limit.GetOr(DefaultLimit);
      limit > 0 && q.page.GetOr(DefaultPage) > CeilDiv(CountMatches(records, FilterOf(q.severity, q.hazardType)), limit)
    ensures GetHazards(records, q).Listed? && GetHazards(records, q).listing.hazards == []
  {
    var limit := q.limit.GetOr(DefaultLimit);
    var page := q.page.GetOr(DefaultPage);
    var filter := FilterOf(q.severity, q.hazardType);
    var total := CountMatches(records, filter);
    SkipPastLastPage(page, limit, total);
    ListedQuery(records, q);
    QueryPastEnd(records, filter, SortSpecOf(q.sortBy, q.sortOrder), Skip(page, limit), limit);
  }

  /** The records page `p` of a query lists: the window of the sorted
      matching records at `(p - 1) * limit`. */
  function PageOf(records: seq<Hazard>, q: ListQuery, p: nat): seq<Hazard>
    requires p >= 1
  {
    var limit := q.limit.GetOr(DefaultLimit);
    SkipStep(p, limit);
    HazardStore.Query(records, FilterOf(q.severity, q.hazardType), SortSpecOf(q.sortBy, q.sortOrder), Skip(p, limit), limit)
  }

  /** Asking for page `p` lists `PageOf(records, q, p)`. */
  lemma PageListing(records: seq<Hazard>, q: ListQuery, p: nat)
    requires p >= 1
    ensures var r := GetHazards(records, q.(page := Some(p)));
      r.Listed? && r.listing.hazards == PageOf(records, q, p)
  {
    SkipStep(p, q.limit.GetOr(DefaultLimit));
    ListedQuery(records, q.(page := Some(p)));
  }

  /** Page `p + 1` continues exactly where page `p` stops: the two together are
      the window of twice the size at page `p`'s start. */
  lemma ConsecutivePages(records: seq<Hazard>, q: ListQuery, p: nat)
    requires p >= 1 && q.limit.GetOr(DefaultLimit) > 0
    ensures var limit := q.limit.GetOr(DefaultLimit);
      PageOf(records, q, p) + PageOf(records, q, p + 1) ==
      HazardStore.Query(records, FilterOf(q.severity, q.hazardType), SortSpecOf(q.sortBy, q.sortOrder), (p - 1) * limit, 2 * limit)
  {
    var limit := q.limit.GetOr(DefaultLimit);
    var filter, spec := FilterOf(q.severity, q.hazardType), SortSpecOf(q.sortBy, q.sortOrder);
    SkipStep(p, limit);
    var skip: nat := Skip(p, limit);
    assert PageOf(records, q, p) == HazardStore.Query(records, filter, spec, skip, limit);
    assert PageOf(records, q, p + 1) == HazardStore.Query(records, filter, spec, skip + limit, limit);
    QueryWindowsAdjacent(records, filter, spec, skip, limit);
  }

  /** Worked example, `?severity=high&page=2&limit=10`: at most ten records, all of severity
      `high`, reported as page 2. */
  lemma ListingExample(records: seq<Hazard>, q: ListQuery)
    requires q == ListQuery(Str("high"), Undefined, Some(10), Some(2), None, Undefined)
    ensures var r := GetHazards(records, q);
      r.Listed? && |r.listing.hazards| <= 10 && r.listing.pagination.currentPage == 2 &&
      forall i :: 0 <= i < |r.listing.hazards| ==> r.listing.hazards[i].doc.severity == Str("high")
  {
    var r := GetHazards(records, q);
    ListedQuery(records, q);
    forall i | 0 <= i < |r.listing.hazards|
      ensures r.listing.hazards[i].doc.severity == Str("high")
    {
      FilterMatches(r.listing.hazards[i], Str("high"), Undefined);
    }
  }

  /** Without query parameters: 50 records at most, newest first. */
  lemma ListingDefaults(records: seq<Hazard>)
    ensures var r := GetHazards(records, ListQuery(Undefined, Undefined, None, None, None, Undefined));
      r.Listed? && |r.listing.hazards| <= 50 && r.listing.pagination.currentPage == 1 &&
      r.listing.pagination.totalItems == |records| &&
      Sorted(r.listing.hazards, SortSpec("createdAt", false))
  {
    var q := ListQuery(Undefined, Undefined, None, None, None, Undefined);
    GetHazardsListing(records, q);
    FilterByEmpty(records);
    assert FilterOf(Undefined, Undefined) == map[];
  }

  // ---------------------------------------------------------------------------
  // Tags

  /** `try { JSON.parse(tags) } catch { Array.isArray(tags) ? tags : [tags] }`,
      where `parse` is what `JSON.parse` made of `tags`. */
  function ParseTags(tags: Value, parse: JsonParse): (r: Value)
    ensures parse.ParseFailed? ==> r.Array? && r.items == (if tags.Array? then tags.items else [tags])
    ensures parse.Parsed? ==> r == parse.value
  {
    match parse
    case Parsed(v) => v
    case ParseFailed => if tags.Array? then tags else Array([tags])
  }

  /** On create, falsy tags become the empty list. */
  function CreateTags(tags: Value, parse: JsonParse): (r: Value)
    ensures !Truthy(tags) ==> r == Array([])
    ensures Truthy(tags) ==> r == ParseTags(tags, parse)
  {
    if Truthy(tags) then ParseTags(tags, parse) else Array([])
  }

  /** On update, falsy tags leave the `tags` key out. */
  function UpdateTags(tags: Value, parse: JsonParse): (r: Option<Value>)
    ensures r.Some? <==> Truthy(tags)
    ensures r.Some? ==> r.value == ParseTags(tags, parse)
  {
    if Truthy(tags) then Some(ParseTags(tags, parse)) else None
  }

  /** Text that is not JSON becomes a one-element list holding that text,
      and since that text is not one of the tags, the document does not validate. */
  lemma UnparsableTagsAreRejected(s: string, doc: HazardDoc)
    requires s != "" && s !in TagValues
    requires doc.tags == CreateTags(Str(s), ParseFailed)
    ensures doc.tags == Array([Str(s)])
    ensures "tags" in ValidationErrors(doc)
  {
    TagsCases(doc.tags);
    assert !EnumOk(doc.tags.items[0], TagValues);
  }

  /** A JSON array of tags survives validation exactly when every element is one. */
  lemma ParsedTagArray(tags: Value, items: seq<Value>)
    requires Truthy(tags)
    ensures TagsOk(CreateTags(tags, Parsed(Array(items)))) <==>
      forall i :: 0 <= i < |items| ==> EnumOk(items[i], TagValues)
  {
    TagsCases(Array(items));
  }

  // ---------------------------------------------------------------------------
  // Uploaded media

  /** What the upload middleware put in `req.file`. */
  datatype UploadedFile = UploadedFile(filename: string, mimetype: string, path: string)

  predicate StartsWith(s: string, prefix: string) {
    |prefix| <= |s| && s[..|prefix|] == prefix
  }

  predicate IsImage(f: UploadedFile) {
    StartsWith(f.mimetype, "image/")
  }

  predicate IsVideo(f: UploadedFile) {
    StartsWith(f.mimetype, "video/")
  }

  /** The public URL of an uploaded file. */
  function FileUrl(f: UploadedFile): (url: string)
    ensures StartsWith(url, "/uploads/") && url[|"/uploads/"|..] == f.filename
  {
    "/uploads/" + f.filename
  }

  /** No mimetype is both an image and a video type. */
  lemma ImageNotVideo(f: UploadedFile)
    ensures IsImage(f) ==> !IsVideo(f)
  {
    if IsImage(f) {
      assert f.mimetype[0] == f.mimetype[..6][0] == 'i';
    }
  }

  // ---------------------------------------------------------------------------
  // Create

  /** The fields of the request body the handlers read. */
  datatype Body = Body(hazardType: Value, severity: Value, description: Value, location: Value, tags: Value, verified: Value)

  /** `hazardData` as `createHazard` builds it: five body fields, parsed tags,
      the media array the mimetype selects, and a freshly drawn score. Nothing
      else from the body reaches the document. */
  function CreatePayload(body: Body, file: Option<UploadedFile>, parse: JsonParse, j: int): (data: HazardData)
    requires 0 <= j <= 14
    ensures data.credibilityScore == Some(Credibility.CalculateCredibility(body.severity, j))
    ensures data.verified.None? && data.source == Undefined && data.reportedBy == Undefined
    ensures data.tags == CreateTags(body.tags, parse)
    ensures data.images.Some? <==> file.Some? && IsImage(file.value)
    ensures data.videos.Some? <==> file.Some? && IsVideo(file.value)
    ensures data.images.Some? ==> data.images.value == [FileUrl(file.value)]
    ensures data.videos.Some? ==> data.videos.value == [FileUrl(file.value)]
  {
    HazardData(body.hazardType, body.severity, body.description, body.location,
               CreateTags(body.tags, parse),
               if file.Some? && IsImage(file.value) then Some([FileUrl(file.value)]) else None,
               if file.Some? && IsVideo(file.value) then Some([FileUrl(file.value)]) else None,
               Some(Credibility.CalculateCredibility(body.severity, j)),
               Undefined, None, Undefined)
  }

  /** The handler's assignments, key after key. */
  method BuildCreatePayload(body: Body, file: Option<UploadedFile>, parse: JsonParse, j: int) returns (data: HazardData)
    requires 0 <= j <= 14
    ensures data == CreatePayload(body, file, parse, j)
  {
    var parsedTags := Array([]);
    if Truthy(body.tags) {
      parsedTags := ParseTags(body.tags, parse);
    }
    data := HazardData(body.hazardType, body.severity, body.description, body.location, parsedTags,
                       None, None, None, Undefined, None, Undefined);
    if file.Some? {
      var url := FileUrl(file.value);
      if IsImage(file.value) {
        data := data.(images := Some([url]));
      }
      if IsVideo(file.value) {
        data := data.(videos := Some([url]));
      }
    }
    data := data.(credibilityScore := Some(Credibility.CalculateCredibility(body.severity, j)));
  }

  /** A file fills at most one media array; a file that is neither an image
      nor a video fills none, and both arrays are then saved empty. */
  lemma CreateMedia(body: Body, f: UploadedFile, parse: JsonParse, j: int)
    requires 0 <= j <= 14
    ensures var data := CreatePayload(body, Some(f), parse, j);
      !(data.images.Some? && data.videos.Some?) &&
      (!IsImage(f) && !IsVideo(f) ==> ApplyDefaults(data, j).images == [] && ApplyDefaults(data, j).videos == [])
  {
    ImageNotVideo(f);
  }

  /** A created hazard is never verified and keeps the default source and
      reporter, whatever the body says; its score lies in its severity's band. */
  lemma CreateIgnoresClientFields(body: Body, file: Option<UploadedFile>, parse: JsonParse, j: int)
    requires 0 <= j <= 14
    requires Prepare(CreatePayload(body, file, parse, j), j).Ok?
    ensures var d := Prepare(CreatePayload(body, file, parse, j), j).value;
      !d.verified && d.source == Str(DefaultSource) && d.reportedBy == Str(DefaultReportedBy) &&
      Credibility.BaseScore(body.severity) <= d.credibilityScore <= Credibility.BaseScore(body.severity) + 14
  {
  }

  /** A body without a description is refused before anything is stored. */
  lemma MissingDescriptionRejected(body: Body, file: Option<UploadedFile>, parse: JsonParse, j: int)
    requires 0 <= j <= 14
    requires body.description == Undefined
    ensures Prepare(CreatePayload(body, file, parse, j), j).Err?
  {
    var data := CreatePayload(body, file, parse, j);
    var doc := ApplyDefaults(data, j);
    match NormalizeLocation(doc.location)
    case Err(_) =>
    case Ok(location) =>
      RequiredPaths(doc.(location := location));
  }

  /** A body whose tags are text that `JSON.parse` rejects and that is not a
      tag is refused too. */
  lemma UnparsableTagsRejectCreate(body: Body, file: Option<UploadedFile>, j: int)
    requires 0 <= j <= 14
    requires body.tags.Str? && body.tags.s != "" && body.tags.s !in TagValues
    ensures Prepare(CreatePayload(body, file, ParseFailed, j), j).Err?
  {
    var data := CreatePayload(body, file, ParseFailed, j);
    var doc := ApplyDefaults(data, j);
    match NormalizeLocation(doc.location)
    case Err(_) =>
    case Ok(location) =>
      UnparsableTagsAreRejected(body.tags.s, doc.(location := location));
  }

  /** `createHazard`: build the payload, run the document's hook and
      validation, store it; on any failure the uploaded file is removed. */
  method CreateHazard(store: HazardCollection, body: Body, file: Option<UploadedFile>, parse: JsonParse, j: int, now: int)
    returns (resp: Response, removed: seq<string>)
    requires store.Valid() && 0 <= j <= 14
    modifies store
    ensures store.Valid()
    ensures var r := Prepare(CreatePayload(body, file, parse, j), j);
      if r.Ok? then
        resp == Created(Hazard(old(store.nextId), r.value, now, now)) &&
        store.records == old(store.records) + [resp.hazard] && removed == []
      else
        resp == Failed(400, "Failed to create hazard") && store.records == old(store.records) &&
        store.nextId == old(store.nextId) && removed == (if file.Some? then [file.value.path] else [])
  {
    var data := BuildCreatePayload(body, file, parse, j);
    var doc := new HazardDocument(data, j);
    var err := doc.PreValidate();
    var snapshot := doc.Snapshot();
    if err.Some? || !Valid(snapshot) {
      resp := Failed(400, "Failed to create hazard");
      removed := if file.Some? then [file.value.path] else [];
      return;
    }
    var h := store.Insert(snapshot, now);
    resp, removed := Created(h), [];
  }

  /** `getHazardById`; `None` stands for an identifier that is not an ObjectId. */
  method GetHazardById(store: HazardCollection, id: Option<nat>) returns (resp: Response)
    requires store.Valid()
    ensures id.None? ==> resp == Failed(400, "Invalid hazard ID")
    ensures id.Some? && IndexOf(store.records, id.value).None? ==> resp == Failed(404, "Hazard not found")
    ensures id.Some? && IndexOf(store.records, id.value).Some? ==>
      resp == Found(store.records[IndexOf(store.records, id.value).value])
  {
    if id.None? {
      return Failed(400, "Invalid hazard ID");
    }
    var k := IndexOf(store.records, id.value);
    if k.None? {
      return Failed(404, "Hazard not found");
    }
    return Found(store.records[k.value]);
  }

  // ---------------------------------------------------------------------------
  // Update

  /** `updateData` as `updateHazard` builds it: a key for each truthy body
      field, `verified` whenever it was sent, and one `$push` for a file. */
  function UpdatePayloadOf(body: Body, file: Option<UploadedFile>, parse: JsonParse): (p: UpdatePayload)
    ensures p.hazardType == (if Truthy(body.hazardType) then Some(body.hazardType) else None)
    ensures p.severity == (if Truthy(body.severity) then Some(body.severity) else None)
    ensures p.description == (if Truthy(body.description) then Some(body.description) else None)
    ensures p.location == (if Truthy(body.location) then Some(body.location) else None)
    ensures p.verified.Some? <==> body.verified != Undefined
    ensures p.verified.Some? ==> (p.verified.value <==> body.verified == Str("true"))
    ensures p.tags == UpdateTags(body.tags, parse)
    ensures p.push.Some? <==> file.Some?
    ensures p.push.Some? ==>
      (p.push.value.url == FileUrl(file.value) && (p.push.value.PushImage? <==> IsImage(file.value)))
  {
    UpdatePayload(
      if Truthy(body.hazardType) then Some(body.hazardType) else None,
      if Truthy(body.severity) then Some(body.severity) else None,
      if Truthy(body.description) then Some(body.description) else None,
      if Truthy(body.location) then Some(body.location) else None,
      if body.verified != Undefined then Some(body.verified == Str("true")) else None,
      UpdateTags(body.tags, parse),
      if file.Some? then Some(if IsImage(file.value) then PushImage(FileUrl(file.value)) else PushVideo(FileUrl(file.value)))
      else None)
  }

  /** The handler's assignments, key after key. */
  method BuildUpdatePayload(body: Body, file: Option<UploadedFile>, parse: JsonParse) returns (p: UpdatePayload)
    ensures p == UpdatePayloadOf(body, file, parse)
  {
    p := UpdatePayload(None, None, None, None, None, None, None);
    if Truthy(body.hazardType) {
      p := p.(hazardType := Some(body.hazardType));
    }
    if Truthy(body.severity) {
      p := p.(severity := Some(body.severity));
    }
    if Truthy(body.description) {
      p := p.(description := Some(body.description));
    }
    if Truthy(body.location) {
      p := p.(location := Some(body.location));
    }
    if body.verified != Undefined {
      p := p.(verified := Some(body.verified == Str("true")));
    }
    if Truthy(body.tags) {
      p := p.(tags := Some(ParseTags(body.tags, parse)));
    }
    if file.Some? {
      var url := FileUrl(file.value);
      p := p.(push := Some(if IsImage(file.value) then PushImage(url) else PushVideo(url)));
    }
  }

  /** Any file that is not an image, a PDF say, is appended to `videos`. */
  lemma UpdateFileIsImageOrVideo(body: Body, f: UploadedFile, parse: JsonParse)
    requires !IsImage(f)
    ensures UpdatePayloadOf(body, Some(f), parse).push == Some(PushVideo(FileUrl(f)))
  {
  }

  /** Only the text `"true"` sets the flag: a JSON `true` clears it. */
  lemma VerifiedOnlyFromText(body: Body, file: Option<UploadedFile>, parse: JsonParse)
    ensures body.verified == Bool(true) ==> UpdatePayloadOf(body, file, parse).verified == Some(false)
    ensures body.verified == Str("true") ==> UpdatePayloadOf(body, file, parse).verified == Some(true)
    ensures body.verified == Str("") ==> UpdatePayloadOf(body, file, parse).verified == Some(false)
  {
  }

  /** A field sent empty cannot clear a stored value: it is left out of the update. */
  lemma EmptyFieldsKeepStoredValues(h: Hazard, body: Body, parse: JsonParse, now: int)
    requires body.hazardType in {Undefined, Str("")} && body.severity in {Undefined, Str("")}
    requires body.description in {Undefined, Str("")} && body.location in {Undefined, Str("")}
    requires ApplyUpdate(h, UpdatePayloadOf(body, None, parse), now).Ok?
    ensures var d := ApplyUpdate(h, UpdatePayloadOf(body, None, parse), now).value.doc;
      d.hazardType == h.doc.hazardType && d.severity == h.doc.severity &&
      d.description == h.doc.description && d.location == h.doc.location &&
      d.images == h.doc.images && d.videos == h.doc.videos
  {
  }

  /** `updateHazard`, with the corrected update (the location hook runs on a
      new location). A malformed identifier or a refused update answers 400
      and removes the uploaded file, whether or not a record has that
      identifier; an update that passed but finds no record answers 404 and
      leaves the file where the upload put it. */
  method UpdateHazard(store: HazardCollection, id: Option<nat>, body: Body, file: Option<UploadedFile>, parse: JsonParse, now: int)
    returns (resp: Response, removed: seq<string>)
    requires store.Valid()
    modifies store
    ensures store.Valid() && store.nextId == old(store.nextId)
    ensures var cleanup := if file.Some? then [file.value.path] else [];
      var p := UpdatePayloadOf(body, file, parse);
      if id.None? || CheckUpdate(p).Err? then
        resp == Failed(400, "Failed to update hazard") && removed == cleanup && store.records == old(store.records)
      else if IndexOf(old(store.records), id.value).None? then
        resp == Failed(404, "Hazard not found") && removed == [] && store.records == old(store.records)
      else
        var k := IndexOf(old(store.records), id.value).value;
        var u := ApplyUpdate(old(store.records)[k], p, now);
        u.Ok? && resp == Updated(u.value) && removed == [] && store.records == old(store.records)[k := u.value]
  {
    var cleanup := if file.Some? then [file.value.path] else [];
    if id.None? {
      return Failed(400, "Failed to update hazard"), cleanup;
    }
    var p := BuildUpdatePayload(body, file, parse);
    var r := store.UpdateById(id.value, p, now);
    if r.None? {
      return Failed(404, "Hazard not found"), [];
    }
    if r.value.Err? {
      return Failed(400, "Failed to update hazard"), cleanup;
    }
    return Updated(r.value.value), [];
  }

  // ---------------------------------------------------------------------------
  // Delete

  /** `[...(hazard.images || []), ...(hazard.videos || [])]`. */
  function FilesToDelete(images: Option<seq<string>>, videos: Option<seq<string>>): (files: seq<string>)
    ensures |files| == |images.GetOr([])| + |videos.GetOr([])|
    ensures forall i :: 0 <= i < |images.GetOr([])| ==> files[i] == images.GetOr([])[i]
    ensures forall i :: 0 <= i < |videos.GetOr([])| ==> files[|images.GetOr([])| + i] == videos.GetOr([])[i]
  {
    images.GetOr([]) + videos.GetOr([])
  }

  /** `path.join(__dirname, '../', f)` for a URL below the project root `root`. */
  function DiskPath(root: string, f: string): (path: string)
    ensures |path| >= |root| + |f| && path[..|root|] == root && path[|path| - |f|..] == f
  {
    if f != [] && f[0] == '/' then root + f else root + "/" + f
  }

  /** `filesToDelete.forEach(f => fs.unlink(...))`: the paths removed, in order. */
  method UnlinkAll(root: string, files: seq<string>) returns (removed: seq<string>)
    ensures |removed| == |files|
    ensures forall i :: 0 <= i < |files| ==> removed[i] == DiskPath(root, files[i])
  {
    removed := [];
    var i := 0;
    while i < |files|
      invariant 0 <= i <= |files|
      invariant |removed| == i
      invariant forall k :: 0 <= k < i ==> removed[k] == DiskPath(root, files[k])
    {
      removed := removed + [DiskPath(root, files[i])];
      i := i + 1;
    }
  }

  /** `deleteHazard`: the record's images and then its videos are removed
      from disk, then the record itself. */
  method DeleteHazard(store: HazardCollection, id: Option<nat>, root: string) returns (resp: Response, removed: seq<string>)
    requires store.Valid()
    modifies store
    ensures store.Valid() && store.nextId == old(store.nextId)
    ensures id.None? ==> resp == Failed(400, "Failed to delete hazard") && removed == [] && store.records == old(store.records)
    ensures id.Some? && IndexOf(old(store.records), id.value).None? ==>
      resp == Failed(404, "Hazard not found") && removed == [] && store.records == old(store.records)
    ensures id.Some? && IndexOf(old(store.records), id.value).Some? ==>
      var k := IndexOf(old(store.records), id.value).value;
      var h := old(store.records)[k];
      var files := FilesToDelete(Some(h.doc.images), Some(h.doc.videos));
      resp == Deleted && store.records == old(store.records)[..k] + old(store.records)[k + 1..] &&
      |removed| == |files| && forall i :: 0 <= i < |files| ==> removed[i] == DiskPath(root, files[i])
  {
    if id.None? {
      return Failed(400, "Failed to delete hazard"), [];
    }
    var found := store.FindById(id.value);
    if found.None? {
      return Failed(404, "Hazard not found"), [];
    }
    var h := found.value;
    removed := UnlinkAll(root, FilesToDelete(Some(h.doc.images), Some(h.doc.videos)));
    var gone := store.DeleteById(id.value);
    resp := Deleted;
  }
}
