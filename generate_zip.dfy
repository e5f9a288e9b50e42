/**
 * The ZIP route handler (`POST`): read the request body, validate it against
 * the schema, render the guideline PDF, append the PDF, the four icons and
 * the validated record as JSON to an archive, and answer with the archive's
 * bytes; any failure on the way becomes one HTTP 500 response.
 *
 * The request body, PDF rendering, file reads, JSON text and the archiver's
 * output are foreign code; they are the fields of a `Host` value.
 */
module GenerateZip {
  import opened Results
  import opened JsonValue
  import opened FormSchema
  import opened PdfDocument

  newtype Byte = x: int | 0 <= x < 256
  type Bytes = seq<Byte>

  /** What an archive entry holds: a buffer, or a string the archiver stores as UTF-8. */
  datatype Content = Binary(bytes: Bytes) | Utf8(text: string)

  datatype Entry = Entry(name: string, content: Content)

  /** The archiver object, seen as the list of entries appended to it so far. */
  class Archive {
    var entries: seq<Entry>

    constructor ()
      ensures entries == []
    {
      entries := [];
    }

    /** `archive.append(content, { name })`: adds one entry at the end. */
    method Append(content: Content, name: string)
      modifies this
      ensures entries == old(entries) + [Entry(name, content)]
    {
      entries := entries + [Entry(name, content)];
    }
  }

  /** The `chunks` array filled by the archive's "data" listener. */
  class ChunkList {
    var chunks: seq<Bytes>

    constructor ()
      ensures chunks == []
    {
      chunks := [];
    }

    /** `chunks.push(chunk)`. */
    method Push(chunk: Bytes)
      modifies this
      ensures chunks == old(chunks) + [chunk]
    {
      chunks := chunks + [chunk];
    }
  }

  /** `Buffer.concat`: the chunks' bytes one after the other. */
  function Concat(chunks: seq<Bytes>): Bytes
  {
    if chunks == [] then [] else Concat(chunks[..|chunks| - 1]) + chunks[|chunks| - 1]
  }

  lemma {:induction false} ConcatAppend(a: seq<Bytes>, b: seq<Bytes>)
    ensures Concat(a + b) == Concat(a) + Concat(b)
    decreases |b|
  {
    if b == [] {
      assert a + b == a;
    } else {
      assert (a + b)[..|a + b| - 1] == a + b[..|b| - 1];
      ConcatAppend(a, b[..|b| - 1]);
      assert Concat(a + b) == Concat(a + b[..|b| - 1]) + b[|b| - 1];
    }
  }

  /** Where chunk `i` starts in the concatenation: the total length of the chunks before it. */
  function Offset(chunks: seq<Bytes>, i: nat): nat
    requires i <= |chunks|
  {
    |Concat(chunks[..i])|
  }

  /** Chunk `i` occupies the bytes from its offset on, so the result keeps the emission order. */
  lemma ConcatAt(chunks: seq<Bytes>, i: nat)
    requires i < |chunks|
    ensures Offset(chunks, i) + |chunks[i]| <= |Concat(chunks)|
    ensures Concat(chunks)[Offset(chunks, i)..Offset(chunks, i) + |chunks[i]|] == chunks[i]
  {
    assert chunks == chunks[..i] + [chunks[i]] + chunks[i + 1..];
    ConcatAppend(chunks[..i] + [chunks[i]], chunks[i + 1..]);
    ConcatAppend(chunks[..i], [chunks[i]]);
    assert Concat([chunks[i]]) == chunks[i] by {
      assert [chunks[i]][..0] == [];
    }
  }

  /**
   * The handler's collaborators: the parsed request body (`req.json()`),
   * `renderToBuffer`, `fs.readFile` of a resolved path, `JSON.stringify(_, null, 2)`
   * and `finalize` (the chunks the archiver emits before "end", or the
   * message of its "error" event). Each may fail.
   */
  datatype Host = Host(
    requestBody: Result<Json, string>,
    renderToBuffer: Document -> Result<Bytes, string>,
    readFile: string -> Result<Bytes, string>,
    stringify: Json -> string,
    finalize: seq<Entry> -> Result<seq<Bytes>, string>)

  /** Why a request failed; the catch block logs it and answers 500 whatever it is. */
  datatype Failure =
    | BadBody(message: string)
    | SchemaViolation(issues: seq<Issue>)
    | RenderFailed(message: string)
    | IconUnreadable(path: string, message: string)
    | ArchiveFailed(message: string)

  datatype Body = ZipBody(bytes: Bytes) | JsonBody(json: Json)

  datatype Response = Response(status: nat, headers: seq<(string, string)>, body: Body)

  const PdfEntryName: string := "guideline.pdf"
  const JsonEntryName: string := "form-data.json"
  const IconNames: seq<string> := ["1.png", "2.png", "3.png", "4.png"]

  /** Where an icon is read from. */
  function IconSource(name: string): string
  {
    "./public/icons/" + name
  }

  /** The entry name an icon gets in the archive. */
  function IconEntryName(name: string): string
  {
    "icons/" + name
  }

  /** The two answers of the route: the archive as an attachment, or the fixed 500 error. */
  function Respond(outcome: Result<Bytes, Failure>): (resp: Response)
    ensures resp.status == 200 <==> outcome.Ok?
    ensures outcome.Ok? ==>
              && resp.body == ZipBody(outcome.value)
              && ("Content-Type", "application/zip") in resp.headers
              && ("Content-Disposition", "attachment; filename=guideline-package.zip") in resp.headers
    ensures outcome.Err? ==>
              && resp.status == 500
              && resp.body == JsonBody(JObject(map["error" := JString("Failed to generate ZIP file")]))
  {
    match outcome
    case Ok(zip) =>
      Response(200, [("Content-Type", "application/zip"),
                     ("Content-Disposition", "attachment; filename=guideline-package.zip")], ZipBody(zip))
    case Err(_) =>
      Response(500, [("Content-Type", "application/json")],
               JsonBody(JObject(map["error" := JString("Failed to generate ZIP file")])))
  }

  /** The icon entries appended by the loop over `names`, and the read failure that stopped it, if any. */
  datatype IconReads = IconReads(entries: seq<Entry>, failure: Option<Failure>)

  /** The icon loop, as a function of the names processed so far. */
  function ReadIcons(host: Host, names: seq<string>): (r: IconReads)
    ensures |r.entries| <= |names|
    ensures r.failure.None? ==> |r.entries| == |names|
    ensures r.failure.Some? ==> r.failure.value.IconUnreadable?
    ensures forall j :: 0 <= j < |r.entries| ==> r.entries[j].name == IconEntryName(names[j])
  {
    if names == [] then IconReads([], None)
    else
      var prev := ReadIcons(host, names[..|names| - 1]);
      var name := names[|names| - 1];
      if prev.failure.Some? then prev
      else
        match host.readFile(IconSource(name))
        case Err(m) => IconReads(prev.entries, Some(IconUnreadable(IconSource(name), m)))
        case Ok(bytes) => IconReads(prev.entries + [Entry(IconEntryName(name), Binary(bytes))], None)
  }

  /** What one request does: the entries it appended, and its zip bytes or the failure it logs. */
  datatype Run = Run(appended: seq<Entry>, outcome: Result<Bytes, Failure>)

  /** The failures that happen before anything is appended to the archive. */
  predicate BeforeArchive(f: Failure)
  {
    f.BadBody? || f.SchemaViolation? || f.RenderFailed?
  }

  /** The handler's specification, step by step as the source does it. */
  function Generate(host: Host): (r: Run)
    ensures r.outcome.Ok? ==> |r.appended| == 6
    ensures r.outcome.Err? && BeforeArchive(r.outcome.error) ==> r.appended == []
    ensures r.outcome.Err? && r.outcome.error.SchemaViolation? ==> r.outcome.error.issues != []
    ensures r.appended != [] ==> r.appended[0].name == PdfEntryName
  {
    match host.requestBody
    case Err(m) => Run([], Err(BadBody(m)))
    case Ok(body) =>
      match Validate(body)
      case Err(issues) => Run([], Err(SchemaViolation(issues)))
      case Ok(data) =>
        match host.renderToBuffer(Render(data))
        case Err(m) => Run([], Err(RenderFailed(m)))
        case Ok(pdf) => Package(host, data, pdf)
  }

  /** From the rendered PDF on: the appends, then the archiver's output. */
  function Package(host: Host, data: FormData, pdf: Bytes): (r: Run)
    ensures |r.appended| >= 1 && r.appended[0] == Entry(PdfEntryName, Binary(pdf))
    ensures r.outcome.Ok? ==> |r.appended| == 6
    ensures r.outcome.Ok? ==> r.appended[5] == Entry(JsonEntryName, Utf8(host.stringify(ToJson(data))))
    ensures r.outcome.Err? ==> r.outcome.error.IconUnreadable? || r.outcome.error.ArchiveFailed?
  {
    var icons := ReadIcons(host, IconNames);
    var head := [Entry(PdfEntryName, Binary(pdf))] + icons.entries;
    if icons.failure.Some? then Run(head, Err(icons.failure.value))
    else
      var all := head + [Entry(JsonEntryName, Utf8(host.stringify(ToJson(data))))];
      match host.finalize(all)
      case Err(m) => Run(all, Err(ArchiveFailed(m)))
      case Ok(chunks) => Run(all, Ok(Concat(chunks)))
  }

  /**
   * `POST`: the response is the one `Generate` specifies. `archive` is the
   * archive the handler created (none when the body was unreadable or
   * invalid), and its entries are the ones `Generate` specifies.
   */
  method Post(host: Host) returns (resp: Response, ghost archive: Archive?)
    ensures resp == Respond(Generate(host).outcome)
    ensures archive == null ==> Generate(host).appended == []
    ensures archive != null ==> archive.entries == Generate(host).appended
  {
    archive := null;
    if host.requestBody.Err? {
      return Respond(Err(BadBody(host.requestBody.error))), archive;
    }
    var formData := host.requestBody.value;
    var validated := Validate(formData);
    if validated.Err? {
      return Respond(Err(SchemaViolation(validated.error))), archive;
    }
    var data := validated.value;
    var zip := new Archive();
    archive := zip;
    var pdf := host.renderToBuffer(Render(data));
    if pdf.Err? {
      return Respond(Err(RenderFailed(pdf.error))), archive;
    }
    var outcome;
    ghost var appended;
    outcome, appended := FillArchive(host, zip, data, pdf.value);
    resp := Respond(outcome);
  }

  /**
   * The part of `POST` after rendering: append the PDF, the icons (stopping at
   * the first unreadable one) and the JSON dump to `archive`, then collect the
   * archiver's chunks. The result and the entries are those `Package` specifies.
   */
  method FillArchive(host: Host, archive: Archive, data: FormData, pdf: Bytes)
    returns (outcome: Result<Bytes, Failure>, ghost appended: seq<Entry>)
    requires archive.entries == []
    modifies archive
    ensures Run(appended, outcome) == Package(host, data, pdf)
    ensures archive.entries == appended
  {
    archive.Append(Binary(pdf), PdfEntryName);

    var i := 0;
    while i < |IconNames|
      invariant 0 <= i <= |IconNames|
      invariant ReadIcons(host, IconNames[..i]).failure.None?
      invariant archive.entries == [Entry(PdfEntryName, Binary(pdf))] + ReadIcons(host, IconNames[..i]).entries
    {
      var iconName := IconNames[i];
      assert IconNames[..i + 1][..i] == IconNames[..i];
      var iconContent := host.readFile(IconSource(iconName));
      if iconContent.Err? {
        IconReadsStop(host, IconNames, i);
        IconsStopForGood(host, IconNames, i + 1);
        return Err(IconUnreadable(IconSource(iconName), iconContent.error)), archive.entries;
      }
      archive.Append(Binary(iconContent.value), IconEntryName(iconName));
      i := i + 1;
    }
    assert IconNames[..i] == IconNames;

    var formDataJson := host.stringify(ToJson(data));
    archive.Append(Utf8(formDataJson), JsonEntryName);
    appended := archive.entries;

    var emitted := host.finalize(archive.entries);
    if emitted.Err? {
      return Err(ArchiveFailed(emitted.error)), appended;
    }
    var zipBuffer := CollectChunks(emitted.value);
    outcome := Ok(zipBuffer);
  }

  /**
   * The "data" listener pushes each chunk the archiver emits, in emission
   * order, and `Buffer.concat` joins them: the result is the chunks' bytes
   * one after the other.
   */
  method CollectChunks(emitted: seq<Bytes>) returns (zipBuffer: Bytes)
    ensures zipBuffer == Concat(emitted)
  {
    var chunks := new ChunkList();
    var k := 0;
    while k < |emitted|
      invariant 0 <= k <= |emitted|
      invariant chunks.chunks == emitted[..k]
    {
      chunks.Push(emitted[k]);
      k := k + 1;
    }
    assert emitted[..k] == emitted;
    zipBuffer := Concat(chunks.chunks);
  }

  /** Once a read fails the loop stops: the failure of the first `i + 1` names is the one at `i`. */
  lemma IconReadsStop(host: Host, names: seq<string>, i: nat)
    requires i < |names|
    requires ReadIcons(host, names[..i]).failure.None?
    requires host.readFile(IconSource(names[i])).Err?
    ensures ReadIcons(host, names[..i + 1]).failure.Some?
    ensures ReadIcons(host, names[..i + 1]).entries == ReadIcons(host, names[..i]).entries
    ensures ReadIcons(host, names[..i + 1]).failure.value
            == IconUnreadable(IconSource(names[i]), host.readFile(IconSource(names[i])).error)
  {
    assert names[..i + 1][..i] == names[..i];
  }

  /** After a failed read nothing more is read: the outcome of the whole loop is the one at the failure. */
  lemma {:induction false} IconsStopForGood(host: Host, names: seq<string>, n: nat)
    requires n <= |names|
    requires ReadIcons(host, names[..n]).failure.Some?
    ensures ReadIcons(host, names) == ReadIcons(host, names[..n])
    decreases |names| - n
  {
    if n < |names| {
      assert names[..|names| - 1][..n] == names[..n];
      IconsStopForGood(host, names[..|names| - 1], n);
    } else {
      assert names[..n] == names;
    }
  }

  /** Every icon in `names` can be read. */
  predicate AllReadable(host: Host, names: seq<string>)
  {
    forall j :: 0 <= j < |names| ==> host.readFile(IconSource(names[j])).Ok?
  }

  /** The entries for `names` when every read succeeds: `icons/<name>` holding the file's bytes. */
  function IconEntries(host: Host, names: seq<string>): seq<Entry>
    requires AllReadable(host, names)
  {
    seq(|names|, j requires 0 <= j < |names| =>
      Entry(IconEntryName(names[j]), Binary(host.readFile(IconSource(names[j])).value)))
  }

  /** The icon loop fails exactly when some read fails, and otherwise appends one entry per name, in order. */
  lemma {:induction false} ReadIconsSucceedsIff(host: Host, names: seq<string>)
    ensures ReadIcons(host, names).failure.None? <==> AllReadable(host, names)
    ensures AllReadable(host, names) ==> ReadIcons(host, names).entries == IconEntries(host, names)
  {
    if names != [] {
      var init := names[..|names| - 1];
      ReadIconsSucceedsIff(host, init);
      if AllReadable(host, names) {
        assert AllReadable(host, init) by {
          forall j | 0 <= j < |init| ensures host.readFile(IconSource(init[j])).Ok? {
            assert init[j] == names[j];
          }
        }
        assert ReadIcons(host, names).entries == IconEntries(host, init) + [IconEntries(host, names)[|names| - 1]];
      } else if AllReadable(host, init) {
        assert !host.readFile(IconSource(names[|names| - 1])).Ok? by {
          if host.readFile(IconSource(names[|names| - 1])).Ok? {
            forall j | 0 <= j < |names| ensures host.readFile(IconSource(names[j])).Ok? {
              if j < |init| { assert init[j] == names[j]; }
            }
          }
        }
      }
    }
  }

  /** When the read of `names[k]` is the first to fail, the loop has appended the icons before it and stops. */
  lemma ReadIconsFailsAt(host: Host, names: seq<string>, k: nat)
    requires k < |names|
    requires AllReadable(host, names[..k])
    requires host.readFile(IconSource(names[k])).Err?
    ensures ReadIcons(host, names)
            == IconReads(IconEntries(host, names[..k]),
                         Some(IconUnreadable(IconSource(names[k]), host.readFile(IconSource(names[k])).error)))
  {
    ReadIconsSucceedsIff(host, names[..k]);
    IconReadsStop(host, names, k);
    IconsStopForGood(host, names, k + 1);
  }

  /** The names of a list of entries, in order. */
  function EntryNames(entries: seq<Entry>): seq<string>
  {
    seq(|entries|, i requires 0 <= i < |entries| => entries[i].name)
  }

  /** A successful packaging step read every icon and appended the PDF, the icons and the JSON dump, in order. */
  lemma PackageOnSuccess(host: Host, data: FormData, pdf: Bytes)
    requires Package(host, data, pdf).outcome.Ok?
    ensures AllReadable(host, IconNames)
    ensures Package(host, data, pdf).appended
            == [Entry(PdfEntryName, Binary(pdf))] + IconEntries(host, IconNames)
               + [Entry(JsonEntryName, Utf8(host.stringify(ToJson(data))))]
  {
    ReadIconsSucceedsIff(host, IconNames);
  }

  /** A successful request got through the body, validation and rendering steps to packaging. */
  lemma GenerateReachesPackage(host: Host)
    requires Generate(host).outcome.Ok?
    ensures host.requestBody.Ok? && Validate(host.requestBody.value).Ok?
    ensures host.renderToBuffer(Render(Validate(host.requestBody.value).value)).Ok?
    ensures Generate(host) == Package(host, Validate(host.requestBody.value).value,
                                      host.renderToBuffer(Render(Validate(host.requestBody.value).value)).value)
  {
  }

  /** The six entries of a complete archive, by position. */
  lemma ArchiveLayout(entries: seq<Entry>, first: Entry, icons: seq<Entry>, last: Entry)
    requires |icons| == 4 && entries == [first] + icons + [last]
    ensures |entries| == 6 && entries[0] == first && entries[5] == last
    ensures forall j :: 1 <= j <= 4 ==> entries[j] == icons[j - 1]
  {
  }

  /**
   * A successful request has validated its body, rendered the PDF from the
   * validated record and read every icon, and the archive holds, in this
   * order: the PDF, the four icons and the JSON dump of the validated record
   * (not of the raw body).
   */
  lemma SuccessfulArchive(host: Host)
    requires Generate(host).outcome.Ok?
    ensures host.requestBody.Ok? && Validate(host.requestBody.value).Ok?
    ensures var data := Validate(host.requestBody.value).value;
            var entries := Generate(host).appended;
            && host.renderToBuffer(Render(data)).Ok?
            && AllReadable(host, IconNames)
            && |entries| == 6
            && entries[0] == Entry(PdfEntryName, Binary(host.renderToBuffer(Render(data)).value))
            && (forall j :: 1 <= j <= 4 ==>
                  entries[j] == Entry(IconEntryName(IconNames[j - 1]),
                                      Binary(host.readFile(IconSource(IconNames[j - 1])).value)))
            && entries[5] == Entry(JsonEntryName, Utf8(host.stringify(ToJson(data))))
  {
    GenerateReachesPackage(host);
    var data := Validate(host.requestBody.value).value;
    var pdf := host.renderToBuffer(Render(data)).value;
    PackageOnSuccess(host, data, pdf);
    ArchiveLayout(Generate(host).appended, Entry(PdfEntryName, Binary(pdf)), IconEntries(host, IconNames),
                  Entry(JsonEntryName, Utf8(host.stringify(ToJson(data)))));
  }

  /** The four icon entry names, spelled out. */
  lemma IconEntryNamesSpelled()
    ensures IconEntryName(IconNames[0]) == "icons/1.png" && IconEntryName(IconNames[1]) == "icons/2.png"
    ensures IconEntryName(IconNames[2]) == "icons/3.png" && IconEntryName(IconNames[3]) == "icons/4.png"
  {
  }

  /** The names of six entries, listed. */
  lemma SixNames(es: seq<Entry>, n0: string, n1: string, n2: string, n3: string, n4: string, n5: string)
    requires |es| == 6
    requires es[0].name == n0 && es[1].name == n1 && es[2].name == n2
    requires es[3].name == n3 && es[4].name == n4 && es[5].name == n5
    ensures EntryNames(es) == [n0, n1, n2, n3, n4, n5]
  {
  }

  /** The entry names of a successful archive, spelled out. */
  lemma SuccessfulManifest(host: Host)
    requires Generate(host).outcome.Ok?
    ensures EntryNames(Generate(host).appended)
            == ["guideline.pdf", "icons/1.png", "icons/2.png", "icons/3.png", "icons/4.png", "form-data.json"]
  {
    SuccessfulArchive(host);
    IconEntryNamesSpelled();
    var es := Generate(host).appended;
    assert es[1].name == "icons/1.png" && es[2].name == "icons/2.png";
    assert es[3].name == "icons/3.png" && es[4].name == "icons/4.png";
    SixNames(es, PdfEntryName, "icons/1.png", "icons/2.png", "icons/3.png", "icons/4.png", JsonEntryName);
  }

  /** A body the schema rejects gets the 500 answer before any archive entry is appended. */
  lemma InvalidBodyAnswers500(host: Host)
    requires host.requestBody.Ok? && !Accepts(host.requestBody.value)
    ensures Generate(host).appended == []
    ensures Generate(host).outcome == Err(SchemaViolation(Validate(host.requestBody.value).error))
    ensures Respond(Generate(host).outcome).status == 500
  {
  }

  /**
   * When icon `k` is the first that cannot be read, the answer is the 500
   * error, no bytes are returned, and the archive got only the PDF and the
   * icons before `k` (in particular no JSON dump).
   */
  lemma UnreadableIconAnswers500(host: Host, k: nat)
    requires host.requestBody.Ok? && Accepts(host.requestBody.value)
    requires host.renderToBuffer(Render(Validate(host.requestBody.value).value)).Ok?
    requires k < |IconNames| && AllReadable(host, IconNames[..k])
    requires host.readFile(IconSource(IconNames[k])).Err?
    ensures Generate(host).outcome.Err? && Generate(host).outcome.error.IconUnreadable?
    ensures Respond(Generate(host).outcome).status == 500 && !Respond(Generate(host).outcome).body.ZipBody?
    ensures var pdf := host.renderToBuffer(Render(Validate(host.requestBody.value).value)).value;
            Generate(host).appended == [Entry(PdfEntryName, Binary(pdf))] + IconEntries(host, IconNames[..k])
  {
    ReadIconsFailsAt(host, IconNames, k);
  }

  /**
   * The request succeeds exactly when the body parses and passes the schema,
   * the PDF renders, every icon reads and the archiver finishes.
   */
  lemma SucceedsIff(host: Host)
    ensures Generate(host).outcome.Ok? <==>
              && host.requestBody.Ok? && Accepts(host.requestBody.value)
              && host.renderToBuffer(Render(Validate(host.requestBody.value).value)).Ok?
              && AllReadable(host, IconNames)
              && host.finalize(Generate(host).appended).Ok?
  {
    if Generate(host).outcome.Ok? {
      GenerateReachesPackage(host);
      var data := Validate(host.requestBody.value).value;
      PackageOnSuccess(host, data, host.renderToBuffer(Render(data)).value);
    } else if host.requestBody.Ok? && Accepts(host.requestBody.value) {
      var data := Validate(host.requestBody.value).value;
      if host.renderToBuffer(Render(data)).Ok? && AllReadable(host, IconNames) {
        ReadIconsSucceedsIff(host, IconNames);
        assert Generate(host) == Package(host, data, host.renderToBuffer(Render(data)).value);
      }
    }
  }

  /** The bytes of a successful request are the archiver's chunks concatenated in emission order. */
  lemma SuccessBytesAreChunks(host: Host)
    requires Generate(host).outcome.Ok?
    ensures host.finalize(Generate(host).appended).Ok?
    ensures Generate(host).outcome.value == Concat(host.finalize(Generate(host).appended).value)
  {
    GenerateReachesPackage(host);
  }
}
