/** The JSON documents the pipeline reads and writes, as immutable values. */
module Records {
  import opened Wrappers

  /** A JSON value; numbers are kept as their literal text since nothing here computes with them. */
  datatype Json =
    | JNull
    | JBool(b: bool)
    | JNumber(literal: string)
    | JString(s: string)
    | JArray(items: seq<Json>)
    | JObject(fields: map<string, Json>)

  /**
   * The `researchPayload` object of a detail document. Only `html_content` is
   * read by the extraction; the other two keys are the ones the crawler adds
   * when it fetched the body with a second request.
   */
  datatype Payload = Payload(
    htmlContent: Option<string>,
    publicationId: Option<string>,
    parsedByAnotherRequest: bool)

  /** One `baseInfo` entry; a missing key reads as `JNull`, like `dict.get(key, None)`. */
  datatype BaseInfo = BaseInfo(publishedDate: Json, title: Json)

  /**
   * A parsed `data/<year>/detail/<publicationId>.json` document: the optional
   * payload, the `baseInfo` list, and the `s3Urls.asp` path the crawler may
   * use to fetch a missing payload (absent when either key is missing).
   */
  datatype DetailRecord = DetailRecord(
    researchPayload: Option<Payload>,
    baseInfo: seq<BaseInfo>,
    aspPath: Option<string>)
}
