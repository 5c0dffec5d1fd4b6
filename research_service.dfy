/** The research service: it wraps a piece of content in the instruction prompt of the
    requested operation, posts the prompt to the generative-language provider, and
    returns the first text fragment of the provider's answer. Every failure comes back
    through the same string channel, prefixed "Internal error: " or "Error parsing: ". */
module ResearchService {
  import opened JavaText
  import opened GeminiWire

  // ---------------------------------------------------------------------------
  // Prompt construction
  // ---------------------------------------------------------------------------

  // Each template is written as two literals only so that the verifier can see the
  // characters of its opening words; the strings are the same.
  const SummarizeTemplate: string :=
    "Provide a clear and concise summary" + " of the following text in a few sentences:\n\n"
  const SuggestTemplate: string :=
    "Based on the following content:"
    + " suggest related topics and further reading. Format the response with clear headings and bullet points:\n\n"

  /** The two operation tags that have an instruction template. */
  predicate KnownOperation(operation: string) {
    operation == "summarize" || operation == "suggest"
  }

  /** The instruction prefix of a known operation; both end in a colon and a blank line. */
  function Template(operation: string): (t: string)
    requires KnownOperation(operation)
    ensures |t| >= 3 && t[|t| - 3..] == ":\n\n"
  {
    if operation == "summarize" then SummarizeTemplate else SuggestTemplate
  }

  datatype Result<+T> = Ok(value: T) | Err(error: Exception)

  /** The prompt for an operation tag and a content: the tag's template followed by the
      content as given, or the "Unknown Operation" exception for any other tag. */
  function Prompt(operation: string, content: string): (r: Result<string>)
    ensures r.Ok? <==> KnownOperation(operation)
    ensures r.Err? ==> r.error == Thrown(Some("Unknown Operation: " + operation))
  {
    if KnownOperation(operation) then Ok(Template(operation) + content)
    else Err(Thrown(Some("Unknown Operation: " + operation)))
  }

  /** The prompt is written into a buffer step by step: first the operation's template,
      then the content. An unknown tag throws before the content is appended. */
  method BuildPrompt(operation: string, content: string) returns (r: Result<string>)
    ensures r == Prompt(operation, content)
  {
    var buffer: string := [];
    if operation == "summarize" {
      buffer := buffer + SummarizeTemplate;
    } else if operation == "suggest" {
      buffer := buffer + SuggestTemplate;
    } else {
      return Err(Thrown(Some("Unknown Operation: " + operation)));
    }
    buffer := buffer + content;
    assert buffer == Template(operation) + content;
    r := Ok(buffer);
  }

  /** A prompt of a known operation starts with exactly that operation's template and
      continues with exactly the content: nothing is escaped, trimmed or added. */
  lemma PromptKeepsContentVerbatim(operation: string, content: string)
    requires KnownOperation(operation)
    ensures Prompt(operation, content).Ok?
    ensures var p, t := Prompt(operation, content).value, Template(operation);
      |p| == |t| + |content| && p[..|t|] == t && p[|t|..] == content
  {
  }

  /** Inverse of `Prompt`: recovers the operation tag and the content from a prompt. */
  function SplitPrompt(prompt: string): Option<(string, string)> {
    if SummarizeTemplate <= prompt then Some(("summarize", prompt[|SummarizeTemplate|..]))
    else if SuggestTemplate <= prompt then Some(("suggest", prompt[|SuggestTemplate|..]))
    else None
  }

  /** Round trip: the tag and the content can be read back from every prompt, because the
      two templates differ in their first character. */
  lemma {:induction false} SplitPromptInvertsPrompt(operation: string, content: string)
    requires KnownOperation(operation)
    ensures SplitPrompt(Prompt(operation, content).value) == Some((operation, content))
  {
    var t := Template(operation);
    var p := t + content;
    assert p[..|t|] == t && p[|t|..] == content;
    if operation == "suggest" {
      assert operation[2] == 'g' != "summarize"[2];
      assert t == SuggestTemplate;
      assert p[0] == 'B' != SummarizeTemplate[0];
    }
  }

  /** Different requests never share a prompt. */
  lemma PromptInjective(op1: string, content1: string, op2: string, content2: string)
    requires Prompt(op1, content1).Ok? && Prompt(op1, content1) == Prompt(op2, content2)
    ensures op1 == op2 && content1 == content2
  {
    SplitPromptInvertsPrompt(op1, content1);
    SplitPromptInvertsPrompt(op2, content2);
  }

  // ---------------------------------------------------------------------------
  // Response extraction
  // ---------------------------------------------------------------------------

  const NoValidResponseText: string := "No valid response found."

  /** Where a null list element is dereferenced while navigating a response. */
  datatype NullSite = NullFirstCandidate | NullFirstPart

  /** The outcome of extraction, before it is rendered to the returned string. */
  datatype Extraction =
    | Text(text: JString)             // the first part's text, possibly null
    | NoValidResponse                 // some level is absent or empty
    | ParseError(message: JString)    // the JSON mapper threw
    | NullDereference(site: NullSite) // a null element was dereferenced inside the try

  /** Navigation from the parsed response to the first candidate's first part. */
  function Navigate(response: GeminiResponse): Extraction {
    match response.candidates
    case None => NoValidResponse
    case Some(candidates) =>
      if |candidates| == 0 then NoValidResponse
      else match candidates[0]
        case None => NullDereference(NullFirstCandidate)
        case Some(first) =>
          match first.content
          case None => NoValidResponse
          case Some(content) =>
            match content.parts
            case None => NoValidResponse
            case Some(parts) =>
              if |parts| == 0 then NoValidResponse
              else match parts[0]
                case None => NullDereference(NullFirstPart)
                case Some(part) => Text(part.text)
  }

  function Extract(parsed: ParseOutcome): Extraction {
    match parsed
    case ParseFailed(e) => ParseError(e.message)
    case Parsed(response) => Navigate(response)
  }

  /** The string the service returns for an extraction outcome. The message of a null
      dereference comes from the runtime and is left opaque as `npeMessage`. */
  function Render(x: Extraction, npeMessage: NullSite -> JString): (s: JString)
    ensures s == Some(NoValidResponseText) <==> x == NoValidResponse || x == Text(Some(NoValidResponseText))
    ensures (x.ParseError? || x.NullDereference?) ==> s.Some? && "Error parsing: " <= s.value
  {
    assert NoValidResponseText[0] == 'N';
    match x
    case Text(t) => t
    case NoValidResponse => Some(NoValidResponseText)
    case ParseError(m) => Some(Concat("Error parsing: ", m))
    case NullDereference(site) => Some(Concat("Error parsing: ", npeMessage(site)))
  }

  /** Response extraction as a whole: parse the raw body (the JSON mapper is the
      parameter `parse`), navigate, render. */
  function ExtractTextFromResponse(body: JString, parse: JString -> ParseOutcome,
                                   npeMessage: NullSite -> JString): (r: JString)
    ensures r == Some(NoValidResponseText) <==>
      && parse(body).Parsed?
      && (|| MissingLevel(parse(body).response)
          || (HasFirstPart(parse(body).response)
              && FirstPartText(parse(body).response) == Some(NoValidResponseText)))
  {
    var parsed := parse(body);
    if parsed.Parsed? then
      NavigateClassified(parsed.response);
      Render(Extract(parsed), npeMessage)
    else
      Render(Extract(parsed), npeMessage)
  }

  /** The response has a non-null first candidate with content, and a non-null first part. */
  predicate HasFirstPart(r: GeminiResponse) {
    && r.candidates.Some? && |r.candidates.value| > 0
    && r.candidates.value[0].Some?
    && r.candidates.value[0].value.content.Some?
    && r.candidates.value[0].value.content.value.parts.Some?
    && |r.candidates.value[0].value.content.value.parts.value| > 0
    && r.candidates.value[0].value.content.value.parts.value[0].Some?
  }

  function FirstPartText(r: GeminiResponse): JString
    requires HasFirstPart(r)
  {
    r.candidates.value[0].value.content.value.parts.value[0].value.text
  }

  /** Some level on the way to the first part is null or empty: the candidates list, or,
      below a non-null first candidate, its content, its parts list. */
  predicate MissingLevel(r: GeminiResponse) {
    || r.candidates.None?
    || |r.candidates.value| == 0
    || (r.candidates.value[0].Some? &&
        (|| r.candidates.value[0].value.content.None?
         || r.candidates.value[0].value.content.value.parts.None?
         || |r.candidates.value[0].value.content.value.parts.value| == 0))
  }

  /** The three outcomes of navigation, each characterised in both directions: the first
      part's text exactly when there is a first part; "no valid response" exactly when a
      level is missing; otherwise a null element was dereferenced. */
  lemma NavigateClassified(r: GeminiResponse)
    ensures Navigate(r).Text? <==> HasFirstPart(r)
    ensures HasFirstPart(r) ==> Navigate(r) == Text(FirstPartText(r))
    ensures Navigate(r) == NoValidResponse <==> MissingLevel(r)
    ensures Navigate(r).NullDereference? <==> !HasFirstPart(r) && !MissingLevel(r)
  {
  }

  /** A response with text `t` at the first candidate's first part. */
  function Embed(t: JString, laterParts: seq<Option<Part>>, laterCandidates: seq<Option<Candidate>>)
    : GeminiResponse
  {
    GeminiResponse(Some([Some(Candidate(Some(Content(Some([Some(Part(t))] + laterParts)))))] + laterCandidates))
  }

  /** Round trip: text embedded at the first candidate's first part is returned unchanged,
      whatever the later parts and candidates hold. */
  lemma ExtractEmbedded(t: JString, laterParts: seq<Option<Part>>, laterCandidates: seq<Option<Candidate>>,
                        npeMessage: NullSite -> JString)
    ensures Render(Extract(Parsed(Embed(t, laterParts, laterCandidates))), npeMessage) == t
  {
  }

  /** Candidates after the first never affect the outcome. */
  lemma LaterCandidatesIgnored(first: Option<Candidate>, later: seq<Option<Candidate>>)
    ensures Navigate(GeminiResponse(Some([first] + later))) == Navigate(GeminiResponse(Some([first])))
  {
  }

  /** Parts after the first never affect the outcome. */
  lemma LaterPartsIgnored(first: Option<Part>, later: seq<Option<Part>>, candidates: seq<Option<Candidate>>)
    ensures var c := Candidate(Some(Content(Some([first] + later))));
            var c1 := Candidate(Some(Content(Some([first]))));
            Navigate(GeminiResponse(Some([Some(c)] + candidates)))
              == Navigate(GeminiResponse(Some([Some(c1)] + candidates)))
  {
  }

  /** A parse failure is reported with the parser's message and never yields text. */
  lemma ParseFailureReported(body: JString, parse: JString -> ParseOutcome, npeMessage: NullSite -> JString)
    requires parse(body).ParseFailed?
    ensures ExtractTextFromResponse(body, parse, npeMessage)
              == Some(Concat("Error parsing: ", parse(body).error.message))
  {
  }

  /** The returned string does not tell a model answer that reads "No valid response found."
      from a response without an answer. */
  lemma AnswerAndNoResponseCollide(npeMessage: NullSite -> JString)
    ensures Render(Text(Some(NoValidResponseText)), npeMessage) == Render(NoValidResponse, npeMessage)
  {
  }

  // ---------------------------------------------------------------------------
  // Orchestration
  // ---------------------------------------------------------------------------

  /** A caller's request; the request itself, its content and its operation may be null. */
  datatype Request = Request(content: JString, operation: JString)

  /** The configured provider endpoint and key. */
  datatype Config = Config(apiUrl: string, apiKey: string)

  /** One outbound POST: the target URI and the JSON body. */
  datatype Outbound = Outbound(uri: string, body: RequestBody)

  /** What the transport gives back for a POST: the response body (null when empty),
      or the exception it threw (connection failure, non-2xx status, timeout). */
  datatype SendOutcome = Received(body: JString) | SendFailed(error: Exception)

  const InvalidRequestMessage: string := "Request content and operation must not be null"

  predicate ValidRequest(request: Option<Request>) {
    request.Some? && request.value.content.Some? && request.value.operation.Some?
  }

  /** Validate, build the prompt, POST it once, extract the answer; any exception on the
      way is returned as "Internal error: " followed by its message. `sent` is the list of
      POSTs made, in order. */
  method ProcessContent(config: Config, request: Option<Request>,
                        send: Outbound -> SendOutcome, parse: JString -> ParseOutcome,
                        npeMessage: NullSite -> JString)
    returns (result: JString, sent: seq<Outbound>)
    ensures |sent| <= 1
    ensures !ValidRequest(request) ==>
      result == Some("Internal error: " + InvalidRequestMessage) && sent == []
    ensures ValidRequest(request) && !KnownOperation(request.value.operation.value) ==>
      result == Some("Internal error: Unknown Operation: " + request.value.operation.value) && sent == []
    ensures ValidRequest(request) && KnownOperation(request.value.operation.value) ==>
      && |sent| == 1
      && sent[0].uri == config.apiUrl + "?key=" + config.apiKey
      && |sent[0].body.contents| == 1
      && |sent[0].body.contents[0].parts| == 1
      && sent[0].body.contents[0].parts[0].text
           == Template(request.value.operation.value) + request.value.content.value
      && result == match send(sent[0])
                   case SendFailed(e) => Some(Concat("Internal error: ", e.message))
                   case Received(body) => ExtractTextFromResponse(body, parse, npeMessage)
  {
    sent := [];
    var thrown: Option<Exception> := None;
    result := None;
    if !ValidRequest(request) {
      thrown := Some(Thrown(Some(InvalidRequestMessage)));
    } else {
      var prompt := BuildPrompt(request.value.operation.value, request.value.content.value);
      match prompt
      case Err(e) =>
        assert "Internal error: " + ("Unknown Operation: " + request.value.operation.value)
            == "Internal error: Unknown Operation: " + request.value.operation.value;
        thrown := Some(e);
      case Ok(text) =>
        var body := RequestBody([OutContent([OutPart(text)])]);
        var outbound := Outbound(config.apiUrl + "?key=" + config.apiKey, body);
        sent := sent + [outbound];
        var reply := send(outbound);
        match reply
        case SendFailed(e) =>
          thrown := Some(e);
        case Received(raw) =>
          result := ExtractTextFromResponse(raw, parse, npeMessage);
    }
    if thrown.Some? {
      result := Some(Concat("Internal error: ", thrown.value.message));
    }
  }
}
