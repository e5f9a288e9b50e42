/**
 * The import/export adapter: `validateFormData` turns a schema rejection into
 * one fixed error, `exportJSON` pretty-prints a record, and `importJSON`
 * parses text and validates it, reporting both kinds of failure under one
 * "Invalid JSON format: " prefix.
 */
module FormDataService {
  import opened Results
  import opened JsonValue
  import opened FormSchema

  const InvalidFormData: string := "Invalid form data. Please check your input."
  const InvalidJsonPrefix: string := "Invalid JSON format: "

  /** `validateFormData`: the schema's record, or the fixed message when the schema rejects. */
  function ValidateFormData(data: Json): (r: Result<FormData, string>)
    ensures r.Ok? <==> Accepts(data)
    ensures r.Ok? ==> Validate(data) == Ok(r.value) && Valid(r.value)
    ensures r.Err? ==> r.error == InvalidFormData
  {
    match Validate(data)
    case Ok(d) => Ok(d)
    case Err(_) => Err(InvalidFormData)
  }

  /** `exportJSON`: the record as pretty-printed JSON text. */
  function ExportJSON(codec: JsonCodec, data: FormData): string
  {
    codec.stringify(ToJson(data))
  }

  /**
   * `importJSON`: parse, then validate; either failure is rethrown with the
   * message prefixed by "Invalid JSON format: ". (Both failures are Error
   * instances, so the catch block's other branch cannot be reached.)
   */
  function ImportJSON(codec: JsonCodec, text: string): (r: Result<FormData, string>)
    ensures r.Ok? <==> codec.parse(text).Ok? && Accepts(codec.parse(text).value)
    ensures r.Ok? ==> Validate(codec.parse(text).value) == Ok(r.value) && Valid(r.value)
    ensures r.Err? ==> |r.error| >= |InvalidJsonPrefix| && r.error[..|InvalidJsonPrefix|] == InvalidJsonPrefix
    ensures codec.parse(text).Err? ==> r == Err(InvalidJsonPrefix + codec.parse(text).error)
    ensures codec.parse(text).Ok? && !Accepts(codec.parse(text).value) ==>
              r == Err(InvalidJsonPrefix + InvalidFormData)
  {
    match codec.parse(text)
    case Err(message) => Err(InvalidJsonPrefix + message)
    case Ok(json) =>
      match ValidateFormData(json)
      case Ok(d) => Ok(d)
      case Err(message) => Err(InvalidJsonPrefix + message)
  }

  /**
   * Round trip: importing what was exported gives the record back, for every
   * record the schema admits, whenever the codec parses this export back to
   * the object it printed.
   */
  lemma ImportExportRoundTrip(codec: JsonCodec, d: FormData)
    requires codec.parse(ExportJSON(codec, d)) == Ok(ToJson(d))
    requires Valid(d)
    ensures ImportJSON(codec, ExportJSON(codec, d)) == Ok(d)
  {
    ValidRecordValidates(d);
  }

  /**
   * A record with a level outside 1..4 can be exported, but its export does
   * not import: it fails with the prefixed validation message.
   */
  lemma ExportOutOfRangeDoesNotImport(codec: JsonCodec, d: FormData)
    requires codec.parse(ExportJSON(codec, d)) == Ok(ToJson(d))
    requires !Valid(d)
    ensures ImportJSON(codec, ExportJSON(codec, d)) == Err(InvalidJsonPrefix + InvalidFormData)
  {
  }
}
