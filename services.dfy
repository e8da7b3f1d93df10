/**
 * The collaborators of the handler, made abstract: storage, the JSON decoder,
 * the translation provider and the response bucket read from the environment
 * (lambda.py:5-7), and the effects the handler has on them.
 */
module Services {
  import opened Wrappers
  import opened Request

  type Bytes = seq<bv8>

  /**
   * Each service is a function that may fail: `None` (or `false` for a put)
   * stands for the exception the boto3 client or `json.loads` would raise.
   */
  datatype Environment = Environment(
    responseBucket: string,
    getObject: (string, string) -> Option<Bytes>,
    parseRequest: Bytes -> Option<RawRequest>,
    translateText: (string, string, string) -> Option<string>,
    putObject: (string, string, TranslationResponse) -> bool)

  /** One call to an external service, in the order the handler makes it. */
  datatype Effect =
    | GetObject(bucket: string, key: string)
    | TranslateText(text: string, source: string, target: string)
    | PutObject(bucket: string, key: string, body: TranslationResponse)
}
