# Research assistant service, modelled in Dafny

The research assistant turns a piece of text and an operation tag into one request to
a generative-language provider. The tag is `"summarize"` or `"suggest"`. The service
puts the tag's instruction prefix in front of the text, POSTs the prompt to the
provider's URL with the API key as a query parameter, and returns the text of the first
part of the first candidate in the JSON answer. Failures come back through the same
string result. An exception becomes `"Internal error: " + message`. A parser failure
becomes `"Error parsing: " + message`. A response without an answer becomes
`"No valid response found."`.

The model has three modules:

- `JavaText` (`java_text.dfy`) covers the Java conventions the service depends on.
  Strings may be null (`JString = Option<string>`). `"x" + null` produces `"xnull"`. An
  exception is seen only through its message, which may be null.
- `GeminiWire` (`gemini_wire.dfy`) holds the outbound request body and the inbound
  response. Every list, list element and field of the inbound response may be null. It
  also holds the outcome of the JSON mapper: a parsed response, or the exception it
  threw.
- `ResearchService` (`research_service.dfy`) covers the three parts of the service:
  - Prompt construction (`ResearchService.java` lines 82-98). `BuildPrompt` appends to
    a buffer step by step and is proved equal to the function `Prompt`. An unknown tag
    throws before the content is appended.
  - Response extraction, a pure function (`ResearchService.java` lines 65-80).
    `Navigate` follows the null and emptiness checks of lines 68-76. `Extract` adds the
    parse step of line 67 and the parser's exception of lines 77-78. `Render` gives the
    returned string of lines 73, 76 and 78. `ExtractTextFromResponse` composes the
    three.
  - Orchestration, the method `ProcessContent`. The transport (`send`), the JSON mapper
    (`parse`) and the runtime's null-pointer messages (`npeMessage`) are passed in as
    parameters. The method returns the string result and the list `sent` of POSTs it
    made.

Where the code's behaviour is surprising, the model follows the code:

- A first part whose `text` is null makes extraction return null, not
  `"No valid response found."`. The code returns the field without checking it.
- An empty content string is accepted. Only a null request, a null content or a null
  operation is rejected.
- A null first candidate or a null first part is dereferenced inside the `try` block of
  extraction. The result is `"Error parsing: "` followed by the runtime's message. It is
  not `"No valid response found."`.
- Errors are not returned as a typed result. Every result is one nullable string, as in
  the code. The internal `Extraction` datatype separates the outcomes before they are
  rendered to that string.

## Model

| member | source | states |
|---|---|---|
| `ResearchService.Template` | research-assistant/research-assistant/src/main/java/com/research/assistant/ResearchService.java:85-91 | Every known operation has an instruction prefix. Each prefix ends in a colon and a blank line. |
| `ResearchService.Prompt` | research-assistant/research-assistant/src/main/java/com/research/assistant/ResearchService.java:82-98 | A prompt is produced exactly when the tag is `"summarize"` or `"suggest"`. There is no default. Any other tag yields the exception `"Unknown Operation: " + tag`. |
| `ResearchService.BuildPrompt` | research-assistant/research-assistant/src/main/java/com/research/assistant/ResearchService.java:82-98 | Appending the template and then the content to a buffer gives exactly `Prompt`. |
| `ResearchService.PromptKeepsContentVerbatim` | research-assistant/research-assistant/src/main/java/com/research/assistant/ResearchService.java:85-97 | A known operation's prompt is that operation's template followed by the content. The content is not escaped, trimmed or extended. |
| `ResearchService.SplitPromptInvertsPrompt` | research-assistant/research-assistant/src/main/java/com/research/assistant/ResearchService.java:85-97 | Round trip: the operation tag and the content can be read back from every prompt. |
| `ResearchService.PromptInjective` | research-assistant/research-assistant/src/main/java/com/research/assistant/ResearchService.java:85-97 | Two requests that produce the same prompt have the same tag and the same content. |
| `ResearchService.Render` | research-assistant/research-assistant/src/main/java/com/research/assistant/ResearchService.java:73-78 | The string `"No valid response found."` comes back exactly for a response without an answer or for an answer that is literally that string. A parser failure or a null dereference always starts with `"Error parsing: "`, so it never reads like a missing answer. |
| `ResearchService.NavigateClassified` | research-assistant/research-assistant/src/main/java/com/research/assistant/ResearchService.java:68-76 | Each claim holds in both directions. Text is returned exactly when a non-null first candidate has a non-null first part, and it is that part's text. `"No valid response found."` is returned exactly when candidates, content or parts is null or empty. Every other response dereferences a null element. |
| `ResearchService.ExtractEmbedded` | research-assistant/research-assistant/src/main/java/com/research/assistant/ResearchService.java:68-73 | Round trip: text placed at `candidates[0].content.parts[0].text` is extracted unchanged, whatever the later parts and candidates hold. |
| `ResearchService.LaterCandidatesIgnored` | research-assistant/research-assistant/src/main/java/com/research/assistant/ResearchService.java:68-69 | Candidates after the first never change the outcome. |
| `ResearchService.LaterPartsIgnored` | research-assistant/research-assistant/src/main/java/com/research/assistant/ResearchService.java:70-73 | Parts after the first never change the outcome. |
| `ResearchService.ExtractTextFromResponse` | research-assistant/research-assistant/src/main/java/com/research/assistant/ResearchService.java:65-80 | The result is `"No valid response found."` exactly when the body parses and then either a level on the way to the first part is null or empty, or the first part's text is that very string. |
| `ResearchService.ParseFailureReported` | research-assistant/research-assistant/src/main/java/com/research/assistant/ResearchService.java:66-78 | A parser failure yields exactly `"Error parsing: "` followed by the parser's message. It never yields the first part's text; the result depends only on the parser's message. |
| `ResearchService.AnswerAndNoResponseCollide` | research-assistant/research-assistant/src/main/java/com/research/assistant/ResearchService.java:73-76 | A provider answer that reads `"No valid response found."` gives the same string as a response without an answer. |
| `ResearchService.ProcessContent` | research-assistant/research-assistant/src/main/java/com/research/assistant/ResearchService.java:27-63 | A null request, content or operation gives `"Internal error: Request content and operation must not be null"`. An unknown tag gives `"Internal error: Unknown Operation: " + tag`. Neither case sends anything. Otherwise there is exactly one POST, to `url + "?key=" + key`. Its body has one `contents` entry with one `parts` entry, and that part's text is the prompt. A transport failure gives `"Internal error: " + message`. Any other reply is passed to extraction. |

## Left out

- The HTTP POST, `retrieve()` and `block()` are network I/O. They are the parameter
  `send`, which returns a body (null when empty) or an exception. Timeouts and status
  handling belong to that parameter.
- JSON parsing is a foreign library. It is the parameter `parse`, which returns a
  parsed response or an exception. The JSON grammar is not modelled.
- The JSON mapper's own null cases are not modelled separately. The body `null` parses
  to a null response, and dereferencing it on line 68 throws. A null body (an empty
  reply from `send`) makes the mapper itself throw. Both end as "Error parsing: " plus
  a message, so both are covered only by `parse` returning `ParseFailed`.
- The text of runtime-generated exception messages is not modelled. Null-pointer
  messages come from the parameter `npeMessage`. Transport and parser messages are
  opaque values.
- Console logging and stack-trace printing are output with no behaviour to state.
- Dependency injection, service registration and construction of the HTTP client and
  JSON mapper are framework wiring. The URL and key are plain strings in `Config`.
  Null configuration values are not modelled.
- Throwables that are not `Exception`s escape the `catch` blocks. They are not modelled.
- `GeminiResponse.java` and `ResearchRequest.java` are not part of this model. Their
  shapes come from the getters that `ResearchService.java` calls.
