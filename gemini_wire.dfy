/** The wire shapes exchanged with the generative-language provider: the outbound
    request body the service builds and the inbound response as the JSON mapper
    produces it. Every level of the inbound shape may be null. */
module GeminiWire {
  import opened JavaText

  /** Outbound: `{"contents": [{"parts": [{"text": ...}]}]}`. */
  datatype OutPart = OutPart(text: string)
  datatype OutContent = OutContent(parts: seq<OutPart>)
  datatype RequestBody = RequestBody(contents: seq<OutContent>)

  /** Inbound: `{"candidates": [{"content": {"parts": [{"text": ...}]}}]}`,
      where each list, each list element and each field may be null. */
  datatype Part = Part(text: JString)
  datatype Content = Content(parts: Option<seq<Option<Part>>>)
  datatype Candidate = Candidate(content: Option<Content>)
  datatype GeminiResponse = GeminiResponse(candidates: Option<seq<Option<Candidate>>>)

  /** What the JSON mapper gives for a raw body: a response, or the exception it threw. */
  datatype ParseOutcome = Parsed(response: GeminiResponse) | ParseFailed(error: Exception)
}
