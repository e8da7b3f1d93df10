/**
 * The translation request read from storage, its default resolution
 * (lambda.py:19-21), and the response object built from it (lambda.py:32-37).
 */
module Request {
  import opened Wrappers

  const DEFAULT_SOURCE_LANGUAGE: string := "auto"
  const DEFAULT_TARGET_LANGUAGE: string := "de"

  /** A parsed request object; a field missing from the JSON object is `None`. */
  datatype RawRequest = RawRequest(
    sourceLanguageCode: Option<string>,
    targetLanguageCode: Option<string>,
    textList: Option<seq<string>>)

  /** A request with its defaults applied. */
  datatype TranslationRequest = TranslationRequest(source: string, target: string, texts: seq<string>)

  /** The object written back to storage. */
  datatype TranslationResponse = TranslationResponse(
    sourceLanguageCode: string,
    targetLanguageCode: string,
    originalText: seq<string>,
    translatedText: seq<string>)

  /** Absent fields take their defaults; present fields are used as given. */
  function Resolve(raw: RawRequest): (r: TranslationRequest)
    ensures raw.sourceLanguageCode.None? ==> r.source == DEFAULT_SOURCE_LANGUAGE
    ensures raw.sourceLanguageCode.Some? ==> r.source == raw.sourceLanguageCode.value
    ensures raw.targetLanguageCode.None? ==> r.target == DEFAULT_TARGET_LANGUAGE
    ensures raw.targetLanguageCode.Some? ==> r.target == raw.targetLanguageCode.value
    ensures raw.textList.None? ==> r.texts == []
    ensures raw.textList.Some? ==> r.texts == raw.textList.value
  {
    TranslationRequest(
      raw.sourceLanguageCode.GetOr(DEFAULT_SOURCE_LANGUAGE),
      raw.targetLanguageCode.GetOr(DEFAULT_TARGET_LANGUAGE),
      raw.textList.GetOr([]))
  }

  /** The request written out with every field present. */
  function Explicit(request: TranslationRequest): RawRequest
  {
    RawRequest(Some(request.source), Some(request.target), Some(request.texts))
  }

  /** The request a response echoes: its resolved codes and its original texts. */
  function EchoedRequest(response: TranslationResponse): TranslationRequest
  {
    TranslationRequest(response.sourceLanguageCode, response.targetLanguageCode, response.originalText)
  }

  /** The response echoes the resolved request unchanged and carries the translations. */
  function BuildResponse(request: TranslationRequest, translated: seq<string>): (r: TranslationResponse)
    ensures EchoedRequest(r) == request
    ensures r.translatedText == translated
  {
    TranslationResponse(request.source, request.target, request.texts, translated)
  }

  /** Writing every field out and resolving again gives back the same request. */
  lemma ResolveExplicit(request: TranslationRequest)
    ensures Resolve(Explicit(request)) == request
  {
  }

  /** An empty request object resolves to automatic detection into German with no texts. */
  lemma ResolveEmpty()
    ensures Resolve(RawRequest(None, None, None)) == TranslationRequest("auto", "de", [])
  {
  }
}
