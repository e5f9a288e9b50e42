# Usage-guideline package generator — a Dafny model

The application collects a small form: whether rights are inherited, four
usage levels from 1 to 4, a free description and contact details. The form
can be exported to JSON and imported back. The server can render it as a
PDF guideline laid out on one `Page` element and ship that PDF in a ZIP archive together with the
four level icons and a JSON dump of the form.

This project models the core of that application and proves properties about
the model:

- `results.dfy` — `Option` and `Result`.
- `json_value.dfy` — JSON values, the kind names the schema reports, and a
  `JsonCodec` that stands for `JSON.parse`/`JSON.stringify`. The codec is a
  pair of functions supplied by the caller.
- `form_schema.dfy` — the form schema: seven declared keys with their
  types, and levels bounded by 1 and 4. `Validate` models `safeParse` with
  the schema library's behaviour:
  - a non-object input gives one root type issue;
  - otherwise the issues of all fields are collected in declaration order;
  - a missing key is an `undefined` type issue;
  - a number is checked against the minimum, then the maximum;
  - extra keys are stripped.
  `Accepts` is an independent, per-field statement of which JSON values the
  schema admits.
- `pdf_document.dfy` — `renderImage` and the element tree of the PDF
  document. It covers the title, the rights line, four level lines (each
  followed by its icon when `renderImage` gives a non-empty path), the free
  description and the contact line. Text children are kept as a list of
  strings and numbers, as the JSX writes them.
- `form_data_service.dfy` — `validateFormData`, `exportJSON` and `importJSON`,
  with every thrown error modelled as an `Err` carrying its message.
- `generate_zip.dfy` — the `POST` route:
  - `Archive` and `ChunkList` are objects the handler updates in place;
  - `Post` and `FillArchive` are the handler's steps, loops included;
  - `Generate` and `Package` are the specification they are proved against;
  - the request body, the PDF renderer, the file reads, `JSON.stringify` and
    the archiver's output are fields of a `Host` value, passed in as
    parameters.

## Model

| member | source | states |
|---|---|---|
| FormSchema.FieldIssues | types/formData.ts:4-10 | A field has no issues exactly when its value has the declared type (and, for a level, lies between 1 and 4); every issue is reported at that field's key. |
| FormSchema.ShapeIssues | types/formData.ts:3-11 | The issue list over the declared shape is empty exactly when every declared field is accepted; the set of its paths is exactly the set of failing keys. |
| FormSchema.ShapeIssuesInOrder | types/formData.ts:3-11 | The issues over the shape report one path per failing key, in the order the keys are declared. |
| FormSchema.ValidateReportsInOrder | types/formData.ts:3-11 | A rejected object is reported with one issue per failing declared key, in declaration order. |
| FormSchema.ShapeAcceptsIffAccepts | types/formData.ts:3-11 | Per-field acceptance over the shape coincides with the independent schema predicate `Accepts`. |
| FormSchema.ShapeKeysAre | types/formData.ts:3-11 | The keys of the shape are exactly the seven declared field names. |
| FormSchema.ToJson | types/formData.ts:3-13 | A record serialises to an object whose keys are exactly the declared keys. |
| FormSchema.Validate | types/formData.ts:3-11 | Parsing succeeds exactly when the schema accepts the input. On success the record has every level in 1..4 and carries the input's value at every declared key. On failure there is at least one issue. A non-object input gives the single root "expected object" issue; an object input gives issues whose paths are exactly its failing keys. |
| FormSchema.ValidateIdempotent | types/formData.ts:3-11 | Validating the record that validation produced gives the same record again. |
| FormSchema.ValidRecordValidates | types/formData.ts:3-13 | Every record whose levels lie in 1..4 validates to itself. |
| FormSchema.ValidateKeepsDeclaredKeys | types/formData.ts:3-11 | The validated record holds exactly the declared keys with the input's values; extra keys are dropped. |
| FormSchema.MissingKeyRejected | types/formData.ts:4-10 | An object that lacks a declared key is rejected, with an issue at that key. |
| JsonValue.KindOf | types/formData.ts:4-10 | The received kind reported in a type issue is "undefined" exactly for a missing value, and otherwise names the value's JSON kind. |
| PdfDocument.RenderImage | components/PDFDocument.tsx:53-66 | Levels 1, 2, 3 and 4 give `/icons/1.png` … `/icons/4.png`; every other number, fractional or out of range, gives the empty string. |
| PdfDocument.TextOrderIsFixed | components/PDFDocument.tsx:68-105 | The text elements of the document are always, in order: the title, the rights line, the four level lines and the free-description and contact lines. |
| PdfDocument.ImagesAreLevelIcons | components/PDFDocument.tsx:76-99 | The images of the document are the icons of levels 1 to 4, in level order; a level without an icon contributes none. |
| PdfDocument.ImageFollowsLevelLine | components/PDFDocument.tsx:76-101 | Each level's icon, when it has one, sits directly after that level's line, and the next line (the next level, or the free description) follows it. |
| PdfDocument.IconLevelCountSum | components/PDFDocument.tsx:79-98 | The number of levels that get an icon is the sum, over the four levels, of each level's icon count. |
| PdfDocument.PageShape | components/PDFDocument.tsx:68-105 | The document holds a single `Page` element of size A4 with eight texts and one image per icon level; a record whose levels are all 1, 2, 3 or 4 gets four images. |
| FormDataService.ValidateFormData | services/formDataService.ts:30-37 | Succeeds exactly when the schema accepts, with the schema's record; otherwise fails with "Invalid form data. Please check your input.". |
| FormDataService.ImportJSON | services/formDataService.ts:18-28 | Succeeds exactly when the text parses and the schema accepts it. A parse failure is reported as "Invalid JSON format: " followed by the parser's message. A schema failure is reported as that prefix followed by the validation message. Every error starts with the prefix. |
| FormDataService.ImportExportRoundTrip | services/formDataService.ts:4-37 | Importing the export of a record with levels in 1..4 gives the record back, whenever the codec parses that export to the object it printed. |
| FormDataService.ExportOutOfRangeDoesNotImport | services/formDataService.ts:4-37 | The export of a record with a level outside 1..4 does not import: under the same assumption, the import fails with the prefixed validation message. |
| GenerateZip.Archive.constructor | app/api/generate-zip/route.tsx:14-16 | A new archive has no entries. |
| GenerateZip.Archive.Append | app/api/generate-zip/route.tsx:21 | Appending adds one named entry at the end and changes nothing else. |
| GenerateZip.ChunkList.Push | app/api/generate-zip/route.tsx:34-35 | The data listener adds one chunk at the end. |
| GenerateZip.CollectChunks | app/api/generate-zip/route.tsx:34-43 | Pushing every emitted chunk in emission order and joining the list gives the chunks' bytes one after the other. |
| GenerateZip.ConcatAt | app/api/generate-zip/route.tsx:43 | In the concatenated buffer, chunk `i` occupies the bytes starting at the total length of the chunks before it. |
| GenerateZip.Respond | app/api/generate-zip/route.tsx:45-56 | Status 200 exactly on success, with the ZIP content type, the attachment disposition and the archive bytes; any failure gives status 500 with the JSON body `{error: "Failed to generate ZIP file"}`. |
| GenerateZip.ReadIcons | app/api/generate-zip/route.tsx:23-28 | The icon loop appends at most one entry per name; it appends one per name when no read fails. Entry `j` is named `icons/<names[j]>`, and a failure is always an unreadable icon. |
| GenerateZip.Package | app/api/generate-zip/route.tsx:21-43 | The first entry is always the rendered PDF. On success there are six entries and the last is the JSON dump of the record. Every failure at this stage is an unreadable icon or an archiver error. |
| GenerateZip.Generate | app/api/generate-zip/route.tsx:9-57 | On success six entries were appended. A bad body, a schema rejection or a render failure happens before any append. A schema rejection carries at least one issue. Any entry list starts with the PDF. |
| GenerateZip.Post | app/api/generate-zip/route.tsx:9-57 | The handler's response is the one `Generate` specifies. The archive it creates holds exactly `Generate`'s entries; when no archive is created, `Generate` appends nothing. |
| GenerateZip.FillArchive | app/api/generate-zip/route.tsx:21-43 | The appends, the icon loop (stopping at the first unreadable icon), the JSON dump and the chunk collection leave the archive holding exactly the entries `Package` specifies, and give its outcome. |
| GenerateZip.IconReadsStop | app/api/generate-zip/route.tsx:24-28 | A failed icon read ends the loop with that failure and no new entry. |
| GenerateZip.IconsStopForGood | app/api/generate-zip/route.tsx:24-28 | Once a read has failed, the later icon names change neither the entries nor the failure. |
| GenerateZip.ReadIconsSucceedsIff | app/api/generate-zip/route.tsx:23-28 | The icon loop succeeds exactly when every icon can be read, and then appends `icons/<name>` holding each file's bytes, in order. |
| GenerateZip.ReadIconsFailsAt | app/api/generate-zip/route.tsx:23-28 | When icon `k` is the first unreadable one, the loop has appended the icons before `k` and fails with `k`'s path. |
| GenerateZip.PackageOnSuccess | app/api/generate-zip/route.tsx:21-43 | A successful packaging step read every icon and appended the PDF, the four icons and the JSON dump, in that order. |
| GenerateZip.GenerateReachesPackage | app/api/generate-zip/route.tsx:11-21 | A successful request has a parsed body, a validated record and a rendered PDF, and went on to packaging with them. |
| GenerateZip.SuccessfulArchive | app/api/generate-zip/route.tsx:11-43 | A successful request validated its body and rendered the PDF from the validated record. The archive holds six entries: that PDF, each icon file's bytes, and the JSON text of the validated record (not of the raw body). |
| GenerateZip.SuccessfulManifest | app/api/generate-zip/route.tsx:21-32 | A successful archive's entry names are `guideline.pdf`, `icons/1.png` … `icons/4.png` and `form-data.json`, in that order. |
| GenerateZip.InvalidBodyAnswers500 | app/api/generate-zip/route.tsx:12 | A body the schema rejects gets status 500 with the schema's issues as the failure, and nothing is appended to the archive. |
| GenerateZip.UnreadableIconAnswers500 | app/api/generate-zip/route.tsx:23-28 | When icon `k` is the first unreadable one, the answer is the 500 error with no archive bytes. The archive got only the PDF and the icons before `k`, and no JSON dump. |
| GenerateZip.SucceedsIff | app/api/generate-zip/route.tsx:9-57 | The request succeeds exactly when the body parses and passes the schema, the PDF renders, every icon reads and the archiver finishes. |
| GenerateZip.SuccessBytesAreChunks | app/api/generate-zip/route.tsx:34-43 | The bytes of a successful request are the archiver's chunks concatenated in emission order. |

## Left out

- `createDownloadLink` (services/formDataService.ts:8-16) creates a browser blob and clicks a link; it is DOM side effects only.
- The concrete JSON text format is not modelled. `JSON.parse` and `JSON.stringify` (including the two-space indentation) are the `parse` and `stringify` fields of a codec supplied by the caller. The round trip is proved for each record whose export the codec parses back to the printed object. It is not stated for all values at once: no codec can be injective on JSON values holding arbitrary reals.
- Numbers are modelled as mathematical reals. IEEE-754 doubles, NaN and infinities are not modelled. Neither is the text the PDF prints for a number: a level is kept as a number child of its text element.
- The bytes of the rendered PDF and of the ZIP format (archiver with zlib level 9) are not modelled. The renderer and the archiver's output are `Host` fields, and only the order of the entries appended and of the chunks emitted is modelled.
- The physical page count of the PDF is not modelled. The document holds one `Page` element, and the renderer may wrap long content (a long free description, say) onto further physical pages.
- Styles, fonts, the `View` wrapper and the image sizes of the PDF are not modelled; only the page size and the element sequence are.
- `console.error` logging in the route's catch block is left out because it is I/O.
- `path.resolve` is left out: an icon is read from the relative path `./public/icons/<name>`, and resolution against the working directory belongs to the file-system stand-in.
- The handler's async steps are modelled as sequential calls. The "data" listener is modelled as one push per emitted chunk, in emission order, and the "error" event as a failed `finalize`.
- FormDataService.ImportJSON: the second catch branch ("Invalid JSON format. Please check your file.") is not modelled. Both failures it could catch are `Error` instances, so that branch cannot be reached.
- GenerateZip.Respond: every failure gives the same 500 body. The route's catch block does not tell a missing icon or a bad body apart from other failures, so the model has no distinct asset error.
- The page component (`app/page.tsx`) and the drag-and-drop importer (`components/DragDropImport.tsx`) are user-interface code and are not part of this model.
