# Hazard reports: a Dafny model

A small Express and Mongoose API stores hazard reports: earthquakes, floods
and so on, each with a severity, a description, a location and optional
tags and media. This project models the three parts of it that hold real
logic, and proves properties of the model.

- **Credibility scoring** (`Credibility`). A new report gets a base score
  from its severity and a random jitter of 0 to 14. The jitter is a
  parameter. The `min(100, …)` cap never takes effect.
- **The hazard document** (`HazardModel`). This covers the schema's
  enumerations, required paths, the 1000-unit description limit and the
  defaults. It also covers the pre-validate hook, which turns a text
  location `"lat,lng"` into a GeoJSON point `[lng, lat]`. The hook is a
  method on a `HazardDocument` class whose fields it overwrites. It is
  proved against the pure `NormalizeLocation`.
  - The hook uses JavaScript's `trim`, `split` and unary `+`. These are
    modelled in `JsString` and `JsNumber`: `+""` is 0, numbers are exact
    reals, and overflow to an infinity is the only non-finite outcome of a
    literal.
- **The request handlers** (`HazardController`). This covers the listing
  filter, the sort document and pagination, the lenient tag parsing, the
  create and update payloads, media classification by mimetype, and the
  files removed with a hazard.
  - The database is a `HazardCollection` class over an in-memory sequence
    of records (`HazardStore`). Its query is filter, then sort, then skip,
    then limit. Sorting uses the value-kind order MongoDB applies.

JavaScript values are the `Js.Value` datatype. `Undefined` stands for a
missing field, and truthiness is `Js.Truthy`.

The create path runs the document's hook; the update path does not. Both
are modelled, and the update path is the finding below.

A tag text that is not JSON never fails the parse: the handler wraps it
into a one-element list. The schema's tag enumeration then refuses that
list unless the text is itself one of the four tags, so such a body is
answered 400 (`HazardController.UnparsableTagsRejectCreate`).

## Model

| member | source | states |
|---|---|---|
| Credibility.Jitter | utils/calculateCredibility.js:5 | `Math.floor(Math.random() * 15)` lies in 0..14 for every draw in [0, 1) |
| Credibility.Min | utils/calculateCredibility.js:5 | `Math.min(a, b)` is at most both arguments and equal to one of them |
| Credibility.BaseScore | utils/calculateCredibility.js:2-4 | the base is one of 85, 75, 60 and 45, and it is 45 exactly when the severity is none of `severe`, `high` and `moderate` |
| Credibility.CalculateCredibility | utils/calculateCredibility.js:1-6 | the score lies between the severity's base and base + 14, and always in [45, 99] |
| Credibility.CapNeverApplies | utils/calculateCredibility.js:5 | the cap at 100 never fires: the score is exactly base + jitter and below 100 |
| Credibility.ScoreBand | utils/calculateCredibility.js:2-5 | severe scores 85..99, high 75..89, moderate 60..74, low 45..59 |
| Credibility.MonotoneInSeverity | utils/calculateCredibility.js:2-5 | for equal jitter, a strictly higher severity scores strictly higher |
| Credibility.HighMayOutscoreSevere | utils/calculateCredibility.js:2-5 | across jitters the order breaks: a high report can outscore a severe one |
| Credibility.UnknownScoresAsLow | utils/calculateCredibility.js:2-4 | an unknown or missing severity scores exactly like `low` |
| Credibility.EveryScoreReachable | utils/calculateCredibility.js:5 | every score in a severity's band is produced by some random draw |
| JsString.Trim | models/hazardModel.js:62 | `trim` leaves no whitespace at either end and never lengthens the text |
| JsString.TrimUnique | models/hazardModel.js:62 | whenever a text is whitespace, a trimmed core and whitespace, `trim` returns that core |
| JsString.TrimSplit | models/hazardModel.js:62 | `trim` removes only whitespace: the text is a pad, its trimmed form and a pad |
| JsString.TrimPadded | models/hazardModel.js:62 | extra whitespace on either side does not change what a text trims to |
| JsString.TrimIdempotent | models/hazardModel.js:62 | trimming twice is trimming once |
| JsString.Split | models/hazardModel.js:69 | `split(",")` gives one more part than there are commas, no part holds a comma, and the parts join back to the text |
| JsString.SplitNoSeparator | models/hazardModel.js:69 | a text without the separator splits into itself |
| JsString.SplitTwo | models/hazardModel.js:69 | `a,b` with comma-free `a` and `b` splits into exactly `[a, b]` |
| JsString.Utf16Length | models/hazardModel.js:23 | a string's UTF-16 length is between its character count and twice that |
| JsNumber.Rounded | models/hazardModel.js:76 | a value is finite for `isFinite` exactly when its magnitude is below the double overflow threshold, and it is then kept |
| JsNumber.ToNumber | models/hazardModel.js:73-74 | unary `+` of blank text is 0, and a finite result always lies inside the range of doubles |
| JsNumber.ToNumberDecimalText | models/hazardModel.js:73-74 | unary `+` reads back the decimal text of every natural number below the overflow threshold |
| JsNumber.ToNumberNegativeDecimalText | models/hazardModel.js:73-74 | … and of its negation |
| JsNumber.DecimalLiteralWithPoint | models/hazardModel.js:73-74 | a literal `w.f` has the value of its whole digits plus its fraction digits over 10^|f| |
| JsNumber.ToNumberPointLiteral | models/hazardModel.js:73-74 | unary `+` on `w.f` is that value, rounded only for overflow |
| JsNumber.ToNumberNegativePointLiteral | models/hazardModel.js:73-74 | unary `+` on `-w.f` is the negated value |
| JsNumber.ToNumberPadded | models/hazardModel.js:73-74 | unary `+` ignores whitespace around its operand |
| JsNumber.ToNumberOfTrimmed | models/hazardModel.js:69-74 | unary `+` of a trimmed part equals unary `+` of the untrimmed part |
| JsNumber.ToNumberNonNumeric | models/hazardModel.js:73-76 | text whose first non-blank character cannot start a number converts to a non-finite value |
| JsNumber.ToNumberLatitudeExample | models/hazardModel.js:73 | `+"34.05"` is 34.05 |
| JsNumber.ToNumberLongitudeExample | models/hazardModel.js:74 | `+"-118.25"` is -118.25 |
| Js.PointValue | models/hazardModel.js:78 | the GeoJSON point the hook stores: `type` is `"Point"` and `coordinates` is `[lng, lat]`, longitude first |
| HazardModel.LocationParts | models/hazardModel.js:69 | the split-and-trim of a location has one more part than the text has commas |
| HazardModel.QuotedWith | models/hazardModel.js:65 | a text opens and closes with the quote character, `startsWith(q) && endsWith(q)`; a lone quote does both |
| HazardModel.StripQuotes | models/hazardModel.js:64-67 | the text changes only when it opens and closes with the same `"` or `'`, and then loses exactly its first and last character (a lone quote becomes empty) |
| HazardModel.NormalizeText | models/hazardModel.js:61-78 | a text location that normalises becomes a GeoJSON point |
| HazardModel.NormalizeLocation | models/hazardModel.js:61-80 | a non-text location passes unchanged, and a successful run never leaves text behind |
| HazardModel.StripMatchingQuotes | models/hazardModel.js:65-67 | exactly one matching pair of outer `"` or `'` is removed |
| HazardModel.StripKeepsUnquoted | models/hazardModel.js:65-67 | text without a matching outer pair, mismatched quotes included, is kept as it is |
| HazardModel.FormatErrorIff | models/hazardModel.js:69-70 | the format error happens if and only if the unquoted text has other than exactly one comma; the numbers are not looked at first |
| HazardModel.NormalizeLatLng | models/hazardModel.js:69-78 | with one comma, the result is the point `[+b, +a]` (longitude first) when both parts are finite, and the numbers error otherwise |
| HazardModel.SameTrimmedParts | models/hazardModel.js:69 | two locations whose parts trim alike normalise alike, so `"a , b"` reads as `"a,b"` |
| HazardModel.NormalizePadded | models/hazardModel.js:62 | whitespace around the whole location text is ignored |
| HazardModel.SameCore | models/hazardModel.js:62-69 | two texts that trim and unquote to the same core normalise alike |
| HazardModel.NormalizeQuoted | models/hazardModel.js:62-67 | a location in matching quotes normalises like the same location without them |
| HazardModel.NormalizeIdempotent | models/hazardModel.js:61-80 | running the hook on its own output is a no-op |
| HazardModel.LoneQuoteIsFormatError | models/hazardModel.js:65-70 | a single `"` strips to the empty text and fails the two-part check |
| HazardModel.MissingCommaIsFormatError | models/hazardModel.js:69-70 | a single number without a comma is a format error |
| HazardModel.LoneCommaIsOrigin | models/hazardModel.js:69-78 | `","` becomes the point `[0, 0]`, because `+""` is 0 |
| HazardModel.WordIsNaN | models/hazardModel.js:73-76 | a word converts to a non-finite value |
| HazardModel.NumbersError | models/hazardModel.js:73-76 | one comma, but a part that is not finite, gives the numbers error |
| HazardModel.WordsAreNumbersError | models/hazardModel.js:73-76 | `"not,numbers"` has the right shape and still gives the numbers error |
| HazardModel.NormalizeExample | models/hazardModel.js:60-81 | `"34.05, -118.25"` becomes the point with coordinates `[-118.25, 34.05]` |
| HazardModel.ApplyDefaults | models/hazardModel.js:31-54 | the given paths are kept; an unset `tags`, `images` or `videos` is empty, an unset score is `calculateCredibility(severity)` and lies in the severity's band, an unset `source` is "Citizen Report", `verified` false and `reportedBy` "Anonymous" |
| HazardModel.Prepare | models/hazardModel.js:6-81 | a hook error stops the save with that error; once the hook succeeds, the document is saved exactly when it validates with the hook's location, and the saved document is the defaulted input with that location; a validation failure names the failing paths |
| HazardModel.EnumOk | models/hazardModel.js:6-22 | a required enumerated String path passes only text in its list; a number or boolean casts to text in no list, and an array or object does not cast |
| HazardModel.DescriptionOk | models/hazardModel.js:23 | `description` is required and holds at most 1000 UTF-16 units |
| HazardModel.StringCastOk | models/hazardModel.js:54 | a value casts to the String path `reportedBy` unless it is an array or an object |
| HazardModel.TagList | models/hazardModel.js:31-33 | the `tags` array path holds an array as it is, `null` as no elements, and any other value as a one-element array |
| HazardModel.TagsOk | models/hazardModel.js:31-33 | every element of `tags` is required and one of help, warning, info, fun |
| HazardModel.ValidationErrors | models/hazardModel.js:6-54 | the failing paths are schema paths, and a missing or `null` location always fails |
| HazardModel.Valid | models/hazardModel.js:6-54 | a document is valid when no schema path fails |
| HazardModel.ValidDocument | models/hazardModel.js:6-52 | a valid document has a listed hazard type and severity, a description of at most 1000 characters, a location, only listed tags and, when set, a listed source |
| HazardModel.RequiredPaths | models/hazardModel.js:6-29 | a missing, `null` or empty hazard type, severity or description, and a missing or `null` location, each fail validation |
| HazardModel.DescriptionLength | models/hazardModel.js:23 | more than 1000 characters always fail; up to 500 always pass; inside the BMP, at most 1000 pass |
| HazardModel.BmpLength | models/hazardModel.js:23 | inside the BMP the UTF-16 length is the character count |
| HazardModel.TagsCases | models/hazardModel.js:31-33 | a text tag passes exactly when it is a listed tag; an array passes when every element is one; `[]` and `null` pass |
| HazardModel.DefaultsAreValid | models/hazardModel.js:42-54 | given only valid required fields, the document saves with `source` "Citizen Report", `verified` false, `reportedBy` "Anonymous", empty tags, empty media where none was given, and the drawn score |
| HazardModel.HazardDocument.constructor | models/hazardModel.js:6-57 | `new Hazard(data)` holds the data with the schema defaults filled in |
| HazardModel.HazardDocument.PreValidate | models/hazardModel.js:60-81 | the hook replaces the location by `NormalizeLocation`'s result and changes nothing else; on an error it reports that error and leaves the document as it was |
| HazardStore.TextLeTotal | controllers/hazardController.js:19-21 | any two texts are comparable in the code-point order |
| HazardStore.TextLeTrans | controllers/hazardController.js:19-21 | the text order is transitive |
| HazardStore.SortKey | controllers/hazardController.js:19-21 | `createdAt` and `updatedAt` sort as dates, and a field the records do not have is missing from all of them |
| HazardStore.KeyLe | controllers/hazardController.js:19-21 | keys compare first by value kind (null, numbers, text, objects, arrays, ids, booleans, dates), then by value |
| HazardStore.KeyLeTotal | controllers/hazardController.js:19-21 | any two sort keys are comparable, across value kinds too |
| HazardStore.KeyLeTrans | controllers/hazardController.js:19-21 | the key order is transitive |
| HazardStore.Precedes | controllers/hazardController.js:19-21 | under `{[sortBy]: 1}` a record may come first when its key is not above the other's, under -1 when it is not below |
| HazardStore.PrecedesTotal | controllers/hazardController.js:19-21 | the order that `{[sortBy]: ±1}` asks for is total, in both directions |
| HazardStore.PrecedesTrans | controllers/hazardController.js:19-21 | that order is transitive |
| HazardStore.Sorted | controllers/hazardController.js:21 | every record may come before the next one in the order `sort(...)` asks for |
| HazardStore.InsertSorted | controllers/hazardController.js:21 | inserting into a sorted list keeps it sorted and adds exactly that record |
| HazardStore.SortBy | controllers/hazardController.js:21 | `sort(...)` returns a sorted permutation of its input, of the same length |
| HazardStore.FieldValue | controllers/hazardController.js:15-16 | the stored value at a filtered path: `severity` or `hazardType`, the only keys a filter can hold |
| HazardStore.Matches | controllers/hazardController.js:14-21 | a record matches when it is equal to the filter's value at every key of the filter, so `{}` matches every record |
| HazardStore.FilterBy | controllers/hazardController.js:21 | `find(filter)` keeps exactly the matching records, and nothing that was not there |
| HazardStore.FilterByEmpty | controllers/hazardController.js:21 | the empty filter keeps every record, in order |
| HazardStore.Take | controllers/hazardController.js:21 | `limit(n)` keeps the first n records, and `limit(0)` keeps all |
| HazardStore.Drop | controllers/hazardController.js:21 | `skip(n)` drops the first n records; past the end nothing is left |
| HazardStore.WindowLength | controllers/hazardController.js:18-21 | a window holds no more than the records and no more than a positive limit, and is empty exactly when the skip reaches the total |
| HazardStore.CountMatches | controllers/hazardController.js:22 | `countDocuments(filter)` is the number of matching records |
| HazardStore.Query | controllers/hazardController.js:21 | the query returns the window at `skip` of the sorted matching records: as many as fit in `limit` (0 is no limit) before the matches run out, record `i` being sorted match `skip + i`; all are matching stored records, in the sort order asked for |
| HazardStore.QueryWindowsAdjacent | controllers/hazardController.js:18-21 | the window at `skip` followed by the window at `skip + limit` is the window at `skip` of twice the size |
| HazardStore.QueryPastEnd | controllers/hazardController.js:21-22 | a skip at or past the match count gives an empty window |
| HazardStore.UpdateErrors | controllers/hazardController.js:100 | with `runValidators`, only the validators of the paths being set run, so an update that sets none of them has no errors |
| HazardStore.Merge | controllers/hazardController.js:84-100 | each path the update sets takes the payload's value and every other path keeps the stored one; a `$push` appends its one file to the array it names; score, source and reporter never change |
| HazardStore.CheckUpdateAsWritten | controllers/hazardController.js:100 | as written, an update is refused exactly when a validator of a set path fails, and a new location is kept as it came |
| HazardStore.CheckUpdate | controllers/hazardController.js:100 | corrected update (see Findings): refused exactly when the hook rejects a new location or a validator fails; a hook error is reported as such; a new location is the hook's output |
| HazardStore.ApplyUpdateAsWritten | controllers/hazardController.js:100 | `findByIdAndUpdate` succeeds exactly when the validators of the set paths pass, and then holds the merge of the stored document and the update, the new location stored as it came; it keeps the id and creation time |
| HazardStore.ApplyUpdate | controllers/hazardController.js:100 | corrected update (see Findings): it succeeds exactly when the set paths validate and the hook accepts a new location, and then holds the merge with the hook's location; a refusal does not depend on the stored record |
| HazardStore.ApplyUpdateKeepsValid | controllers/hazardController.js:100 | a valid stored document stays valid after a successful update |
| HazardStore.UpdateStoresTextLocation | controllers/hazardController.js:88-100 | the update as written stores the text `"34.05, -118.25"` verbatim |
| HazardStore.UpdateNormalizesTextLocation | controllers/hazardController.js:88-100 | the corrected update stores the point the hook builds from a text location, and refuses one the hook rejects |
| HazardStore.UpdateNormalizesExample | controllers/hazardController.js:88-100 | on the same input, the corrected update stores the point `[-118.25, 34.05]` |
| HazardStore.ApplyUpdateAgrees | controllers/hazardController.js:100 | without a text location, the two updates agree; the corrected one succeeds only where the one as written does |
| HazardStore.UpdateAppendsMedia | controllers/hazardController.js:95-100 | an update keeps the stored media and appends exactly one file when one was uploaded |
| HazardStore.IndexOf | controllers/hazardController.js:41 | the position found holds that identifier, and none is found only when no record holds it |
| HazardStore.HazardCollection.Insert | controllers/hazardController.js:70-71 | `save()` appends the new record with a fresh identifier, and the store stays consistent |
| HazardStore.HazardCollection.FindById | controllers/hazardController.js:41 | `findById` finds a record exactly when one has that identifier, and returns that stored record |
| HazardStore.HazardCollection.UpdateById | controllers/hazardController.js:100 | corrected update (see Findings): a refused update is refused whether or not the record exists and changes nothing; a passing update of an unknown id finds nothing; otherwise the record is replaced in place by `ApplyUpdate` and the store stays consistent |
| HazardStore.HazardCollection.DeleteById | controllers/hazardController.js:119 | `findByIdAndDelete` removes exactly that record and keeps the others in order |
| HazardController.FilterOf | controllers/hazardController.js:14-16 | the filter has a `severity` or `hazardType` key exactly when that query value is truthy, holding it, and no other key |
| Js.Truthy | controllers/hazardController.js:85-90 | `undefined`, `null`, `false`, 0 and the empty text are falsy, every other value is truthy |
| HazardController.BuildFilter | controllers/hazardController.js:14-16 | the key-by-key assignments build that filter |
| HazardController.FilterMatches | controllers/hazardController.js:15-16 | a record passes the filter if and only if it agrees with every truthy query value |
| HazardController.SortSpecOf | controllers/hazardController.js:13-19 | the sort is ascending exactly for `"asc"`, on `sortBy` or `createdAt` by default |
| HazardController.Direction | controllers/hazardController.js:19 | the sort document's value: 1 for ascending, -1 for descending |
| HazardController.DirectionOf | controllers/hazardController.js:19 | the direction is 1 if and only if `sortOrder` is `"asc"` and -1 otherwise; the defaults are `createdAt` and descending |
| HazardController.CeilDiv | controllers/hazardController.js:28 | `Math.ceil(total / limit)` is the least page count that covers `total` |
| HazardController.Skip | controllers/hazardController.js:18 | `(page - 1) * limit` is never negative from page 1 on, and negative exactly for page 0 with a positive limit |
| HazardController.TotalPages | controllers/hazardController.js:28 | `Math.ceil(total / limit)` is defined exactly for a positive limit, is then the least page count that covers `total`, and is 0 only when nothing matches |
| HazardController.GetHazards | controllers/hazardController.js:11-35 | the listing fails with 500 exactly when page 0 meets a positive limit, which makes the skip negative |
| HazardController.ListedQuery | controllers/hazardController.js:18-21 | otherwise the records listed are the query's window at `(page - 1) * limit` |
| HazardController.GetHazardsListing | controllers/hazardController.js:18-31 | a listing holds exactly as many records as the window at `(page - 1) * limit` of the matches has room for, so at most `limit`; all matching and stored, in the requested order; `totalItems` is the match count; `totalPages` is its ceiling over `limit` |
| HazardController.PageWithinTotal | controllers/hazardController.js:18-28 | for every page from 1 to `totalPages`, `0 <= skip < total` |
| HazardController.SkipPastLastPage | controllers/hazardController.js:18-28 | past `totalPages` the skip reaches the match count |
| HazardController.SkipStep | controllers/hazardController.js:18 | each page's skip is one limit beyond the previous one's |
| HazardController.PageBeyondTotalIsEmpty | controllers/hazardController.js:18-22 | a page past the last one lists nothing |
| HazardController.PageListing | controllers/hazardController.js:18-21 | asking for page `p` lists page `p`'s window |
| HazardController.ConsecutivePages | controllers/hazardController.js:18-21 | page `p + 1` starts exactly where page `p` stops: together they are the double-size window at page `p`'s start |
| HazardController.ListingExample | controllers/hazardController.js:13-31 | `?severity=high&page=2&limit=10` lists at most ten `high` records as page 2 |
| HazardController.ListingDefaults | controllers/hazardController.js:13-31 | without parameters: at most 50 records, every record counted, page 1, newest first |
| HazardController.ParseTags | controllers/hazardController.js:56-57 | parsed JSON is taken as it is; otherwise an array is kept and a scalar becomes a one-element list |
| HazardController.CreateTags | controllers/hazardController.js:54-58 | on create, falsy tags give `[]` |
| HazardController.UpdateTags | controllers/hazardController.js:90-93 | on update, a `tags` key is present exactly for truthy tags |
| HazardController.UnparsableTagsAreRejected | controllers/hazardController.js:54-58 | a text that is not JSON becomes a one-element list, which fails validation unless the text is a tag |
| HazardController.ParsedTagArray | controllers/hazardController.js:56 | a parsed JSON array survives validation exactly when every element is a tag |
| HazardController.FileUrl | controllers/hazardController.js:63 | the URL is `/uploads/` followed by the stored file name |
| HazardController.StartsWith | controllers/hazardController.js:64-65 | `startsWith`: the text begins with the prefix, which is no longer than the text |
| HazardController.IsImage | controllers/hazardController.js:64 | an image is a file whose mimetype starts with `image/` |
| HazardController.IsVideo | controllers/hazardController.js:65 | a video is a file whose mimetype starts with `video/` |
| HazardController.ImageNotVideo | controllers/hazardController.js:64-65 | no mimetype is both an image and a video type |
| HazardController.CreatePayload | controllers/hazardController.js:52-68 | the payload carries the parsed tags and the drawn score; `images` is set exactly for an `image/` file and `videos` exactly for a `video/` file, each to that file's URL; no verified, source or reporter comes from the body |
| HazardController.BuildCreatePayload | controllers/hazardController.js:54-68 | the key-by-key assignments build that payload |
| HazardController.CreateMedia | controllers/hazardController.js:62-66 | a file fills at most one media array, and any other file type fills none |
| HazardController.CreateIgnoresClientFields | controllers/hazardController.js:52-70 | a created hazard is unverified, keeps the default source and reporter, and scores in its severity's band |
| HazardController.MissingDescriptionRejected | controllers/hazardController.js:52-76 | a body without a description is refused |
| HazardController.UnparsableTagsRejectCreate | controllers/hazardController.js:54-76 | a body whose tag text is not JSON and not a tag is refused |
| HazardController.CreateHazard | controllers/hazardController.js:50-78 | a valid body is stored as one new record and answered with 201; otherwise nothing is stored, the answer is 400 and the upload is removed |
| HazardController.GetHazardById | controllers/hazardController.js:39-47 | a malformed id answers 400, an unknown one 404, and a known one the stored record |
| HazardController.UpdatePayloadOf | controllers/hazardController.js:83-98 | only truthy body fields are set; `verified` is set whenever sent, to whether it is the text `"true"`; one file is one push, to `images` exactly for an `image/` mimetype |
| HazardController.BuildUpdatePayload | controllers/hazardController.js:84-98 | the key-by-key assignments build that payload |
| HazardController.UpdateFileIsImageOrVideo | controllers/hazardController.js:95-98 | any file that is not an image, a PDF say, is appended to `videos` |
| HazardController.VerifiedOnlyFromText | controllers/hazardController.js:89 | the text `"true"` sets the flag, while a JSON `true` or `""` clears it |
| HazardController.EmptyFieldsKeepStoredValues | controllers/hazardController.js:85-88 | a field sent empty cannot clear a stored value |
| HazardController.UpdateHazard | controllers/hazardController.js:81-108 | corrected update (see Findings): a malformed id or a refused update answers 400 and removes the upload, whether or not the record exists; a passing update of an unknown id answers 404 and keeps the upload; success replaces the record in place |
| HazardController.FilesToDelete | controllers/hazardController.js:116 | the files are the images and then the videos, in stored order, with a missing array treated as empty |
| HazardController.DiskPath | controllers/hazardController.js:117 | the disk path of a media URL lies below the project root and ends with that URL |
| HazardController.UnlinkAll | controllers/hazardController.js:117 | each file's disk path is removed, in list order |
| HazardController.DeleteHazard | controllers/hazardController.js:111-124 | a known hazard's images and videos are removed, then the record itself; otherwise nothing changes and the answer is 400 or 404 |

## Findings

| source | as written | input that shows it | evidently intended | confidence | as-written member | corrected member |
|---|---|---|---|---|---|---|
| controllers/hazardController.js:88-100 | the new location goes to `findByIdAndUpdate`. That call runs update validators, but not the document's pre-validate hook (models/hazardModel.js:60-81), so a text location is stored as text | an update of a stored point with `location = "34.05, -118.25"` | the text becomes the point `[-118.25, 34.05]`, as it does on create (the schema's "Store as mixed, normalize later", models/hazardModel.js:25) | medium, not executed | HazardStore.UpdateStoresTextLocation | HazardStore.UpdateNormalizesTextLocation |

`HazardStore.ApplyUpdateAsWritten` models the update as written.
`HazardStore.ApplyUpdate` is the corrected update: it runs
`NormalizeLocation` on a new location. The collection and the
`updateHazard` handler use the corrected one. This keeps the collection's
invariant that no stored location is text. Both updates are cast and
validated before the record is looked up, as `runValidators` does. So a
refused update answers 400, and its upload is removed, even for an
identifier that no record holds.
`HazardStore.UpdateNormalizesExample` shows, on the input above, that the
corrected update stores the point.

## Left out

Why each piece is absent:

- **Database calls.** `save`, `find`, `countDocuments`, `findById`,
  `findByIdAndUpdate` and `findByIdAndDelete` are Mongoose and MongoDB
  behaviour. They stand in as an in-memory `HazardCollection`.
  - An ObjectId becomes `Option<nat>`: `None` is a malformed identifier,
    which Mongoose's CastError (raised when it casts the id) turns into a
    400 response.
  - Timestamps come from a `now` parameter.
- **Error details.** The response's `details: error.message` text is not
  modelled; only status and error text are.
- HazardStore.FilterBy: matches by equality only. A query parameter such as
  `?severity[$ne]=low` arrives as an object, and `find` reads it as a
  MongoDB query operator. The model does not capture operators.
- HazardController.FilterMatches: states equality matching, so it has the
  same gap as `HazardStore.FilterBy` for object-valued query parameters.
- HazardStore.SortKey: a dotted sort path such as `location.type` or
  `tags.0` sorts by the nested value in MongoDB. The model treats it as a
  field that every record lacks, so such a sort keeps store order.
- HazardController.GetHazards: its "fails exactly for page 0" promise covers
  only the negative skip. MongoDB also refuses some sort documents: an
  empty field name (`?sortBy=`), a `$`-prefixed name, or an otherwise
  invalid path. The source answers those with 500,
  where the model returns a listing.
- **Query-string coercion.** `parseInt` and JavaScript's coercion of query
  strings (`page - 1` on text, `NaN` pages and limits) are not modelled:
  `page` and `limit` arrive as naturals. A repeated query parameter, which
  Express hands over as an array, is not modelled either.
- **Sort details.**
  - Records with equal keys keep store order in the model. MongoDB leaves
    that order unspecified.
  - Arrays and objects compare only by value kind, not element by element.
  - Text compares by code point, not by a collation.
- **Mongoose casting.** This is reduced to what validation sees. Numbers
  and booleans cast to text that is in no enumeration. Arrays and objects
  do not cast to String.
- **`Math.random`.** It becomes the jitter parameter `j` (or the draw `u`
  via `Credibility.Jitter`).
- **`JSON.parse`.** Its outcome on the tag text is a parameter, `Parsed(v)`
  or `ParseFailed`.
- **Unary `+` and doubles.** Unary `+` works on exact reals. Rounding to
  the nearest double is not modelled; overflow to an infinity is.
  `Infinity` and NaN are both `NonFinite`, because `isFinite` is the only
  test applied. NaN is not a `Js.Value`, since a JSON or form body cannot
  carry it.
- **`fs.unlink`.** It is asynchronous file I/O with ignored callbacks. The
  model returns the list of paths it is asked to remove.
  - `HazardController.DiskPath` joins the root and the URL without
    `path.join`'s normalisation of `..` segments.
  - Whether a removal fails is not modelled.
- **Concurrency.** Async ordering and concurrent requests are not
  modelled.
- **Other files.** The Express wiring (app/app.js, routes/hazardRoutes.js,
  server.js), the error middleware (middleware/errorHandler.js) and the
  seed script (scripts/seed.js) are not part of this model.
