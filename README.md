# himu-ai, modelled in Dafny

himu-ai is a chat with "Himu", a character from Humayun Ahmed's novels. A
React page (`himu-frontend/src/App.jsx`) keeps a message list, an input
string and a loading flag, and posts each message to a Spring backend. The
backend's `ChatController` fills in a default model name. `VertexAiService`
builds a Vertex AI `generateContent` call: it picks the endpoint, prefixes
the message with a fixed instruction prompt, finds an access token and
decodes the answer into the reply text.

The model has five modules, one per file:

- `Wrappers` (wrappers.dfy): `Option`. It stands for Java's nullable
  references and for inputs that may be absent.
- `ChatClient` (chat_client.dfy): the page. Its state is the class `App`,
  with fields `messages`, `input` and `isLoading`. The awaited `fetch`
  splits the submit handler into two methods. `HandleSubmit` runs up to the
  request and returns the request body. `HandleOutcome` runs when the
  request settles with an `Outcome`: `Ok(reply)`, `NotOk(status)` or
  `Threw`. Both methods are specified by value-level step functions
  (`SubmitStep`, `ResolveStep`, `EditStep`). Over those functions,
  `Dispatch` and `Run` replay any sequence of events and apply the
  `disabled={isLoading}` guard. The lemmas prove the page invariant
  `Consistent` over every event sequence.
- `Json` (json.dfy): the tree that Jackson decodes a response into
  (maps, lists, strings, booleans, integers). It gives `Map.get`
  (`Get`, which yields null for a missing key), `String.valueOf`
  (`ToJavaString`) and a path lookup `At`, used as the reference for the
  decoder.
- `VertexAi` (vertex_ai_service.dfy): the service. Endpoint selection uses
  `equalsIgnoreCase`. The module also covers URL formatting, the prompt,
  the request body, `parseVertexResponse`, the token priority chain and
  the choice of fallback reply. The class `VertexAiService` holds the
  configured fields. The environment variables, the result of the gcloud
  run and the outcome of the HTTP call are method parameters.
- `ChatController` (chat_controller.dfy): model defaulting and forwarding.

The page holds a single message list. It posts only `{message}`, so the
backend always applies its default model for it, and every reply carries
the sender `himu`. The page has no control for choosing a model.

## Model

| member | source | states |
|---|---|---|
| `ChatClient.Trim` | himu-frontend/src/App.jsx:10 | `input.trim()` is empty exactly when every character of the input is ECMAScript whitespace or a line terminator |
| `ChatClient.TrimStart` | himu-frontend/src/App.jsx:10 | the result is a suffix of the input; everything removed is whitespace; the result does not start with whitespace |
| `ChatClient.TrimEnd` | himu-frontend/src/App.jsx:10 | the result is a prefix of the input; everything removed is whitespace; the result does not end with whitespace |
| `ChatClient.SubmitStep` | himu-frontend/src/App.jsx:10-24 | blank input: the state is unchanged and nothing is sent. Otherwise: the untrimmed input is appended as a user message after the earlier messages, the input becomes `''`, loading is set, and the request body's `message` is the input as it was before clearing |
| `ChatClient.InitialConsistent` | himu-frontend/src/App.jsx:4-6 | the initial state (no messages, empty input, not loading) satisfies the page invariant |
| `ChatClient.DispatchConsistent` | himu-frontend/src/App.jsx:8-39 | every event (an edit, a submission, a settlement) keeps the invariant: the senders alternate user/himu, loading holds exactly when the count is odd, and the input is empty while loading |
| `ChatClient.RunConsistent` | himu-frontend/src/App.jsx:8-39 | every state reachable by any sequence of events satisfies the invariant. So while loading there is exactly one unanswered user message (the count is odd and the senders alternate), and no second turn starts before the first one resolves |
| `ChatClient.RunOnlyAppends` | himu-frontend/src/App.jsx:13-36 | across any sequence of events, the earlier message list is a prefix of the later one |
| `ChatClient.BlankSubmitIsNoOp` | himu-frontend/src/App.jsx:10 | the early return on blank input, as an event: a submission of blank input leaves the state as it was |
| `ChatClient.LoadingBlocksSubmit` | himu-frontend/src/App.jsx:81-86 | the `disabled={isLoading}` guard, as an event: while loading, a submission or an edit is dropped |
| `ChatClient.AcceptedTurn` | himu-frontend/src/App.jsx:12-39 | an accepted turn posts the input as typed. It appends exactly two messages: the user's text, then Himu's (the reply, or the error text). It ends not loading, with empty input |
| `ChatClient.FailuresLookAlike` | himu-frontend/src/App.jsx:27-36 | the two failure branches, side by side: a non-ok status and a thrown error lead to the same state |
| `ChatClient.ResolveStep` | himu-frontend/src/App.jsx:27-39 | settling appends exactly one Himu message after the earlier ones: the reply when the response is ok, the fixed error text otherwise. Loading is cleared, the input is kept, and settling an outstanding turn keeps the invariant |
| `ChatClient.App.constructor` | himu-frontend/src/App.jsx:4-6 | the page starts with no messages, empty input and not loading, and satisfies the invariant |
| `ChatClient.App.Edit` | himu-frontend/src/App.jsx:77-81 | with the field enabled, the input becomes the typed text and nothing else changes |
| `ChatClient.App.HandleSubmit` | himu-frontend/src/App.jsx:8-25 | the new fields and the returned request body are exactly `SubmitStep` of the old fields; the invariant is kept |
| `ChatClient.App.HandleOutcome` | himu-frontend/src/App.jsx:27-39 | one Himu message is appended (the reply if ok, else the error text), loading is cleared, and the invariant is kept |
| `Json.Get` | himu-backend/src/main/java/com/himu/ai/service/VertexAiService.java:149 | a key that is absent yields null; a present key yields the value of its first entry; a non-null result is the value of an entry with that key |
| `Json.NatToString` | himu-backend/src/main/java/com/himu/ai/service/VertexAiService.java:164 | the text is decimal digits only, without a leading zero, and denotes the number |
| `Json.IntToString` | himu-backend/src/main/java/com/himu/ai/service/VertexAiService.java:164 | a non-negative number is written in decimal digits only; a negative one as `-` followed by digits only. The digits denote the magnitude and have no leading zero |
| `Json.ToJavaString` | himu-backend/src/main/java/com/himu/ai/service/VertexAiService.java:164 | `toString` of a decoded value: a string is itself, null is `"null"`, a boolean is `"true"` or `"false"` as it holds, an integer is exactly `IntToString` of it (sign, digits only, no leading zero, the right value), a list is bracketed by `[` `]` and a map by `{` `}` |
| `VertexAi.FallbacksDistinct` | himu-backend/src/main/java/com/himu/ai/service/VertexAiService.java:89-96 | the not-understood, cannot-talk and authentication replies are three different strings |
| `VertexAi.Himu2Spellings` | himu-backend/src/main/java/com/himu/ai/service/VertexAiService.java:53 | `"himu-2".equalsIgnoreCase(m)` holds exactly for the case variants of himu-2, with dotless i and dotted capital I counted as i |
| `VertexAi.VertexAiService.EndpointId` | himu-backend/src/main/java/com/himu/ai/service/VertexAiService.java:51-58 | a spelling of himu-2 selects `himu2EndpointId`; every other name, unknown ones included, selects `himu1EndpointId` |
| `VertexAi.VertexAiService.GetEndpointUrl` | himu-backend/src/main/java/com/himu/ai/service/VertexAiService.java:51-64 | a spelling of himu-2 gives the URL of `himu2EndpointId`; any other name gives the URL of `himu1EndpointId`, both under the configured location and project |
| `VertexAi.FormatEndpointUrl` | himu-backend/src/main/java/com/himu/ai/service/VertexAiService.java:60-63 | the URL starts with `https://<location>-aiplatform.googleapis.com/v1/projects/` and ends with `:generateContent` |
| `VertexAi.SplitJoinSlash` | himu-backend/src/main/java/com/himu/ai/service/VertexAiService.java:60-63 | splitting at `/` gives back the joined segments when none contains a `/` |
| `VertexAi.EndpointUrlRoundTrip` | himu-backend/src/main/java/com/himu/ai/service/VertexAiService.java:60-63 | for a location, project and endpoint without `/`, each sits in its own slot of the URL: project after `projects/`, location in the host and after `locations/`, endpoint after `endpoints/` and before `:generateContent`; decoding the URL gives all three back |
| `VertexAi.EndpointUrlDeterminesEndpoint` | himu-backend/src/main/java/com/himu/ai/service/VertexAiService.java:60-63 | for a fixed location and project, two endpoint ids give the same URL only if they are equal |
| `VertexAi.FullPrompt` | himu-backend/src/main/java/com/himu/ai/service/VertexAiService.java:69 | the prompt is the master prompt as a prefix, followed by the user message (`"null"` for a null message) as the rest |
| `VertexAi.MasterPromptEndsWithUserCue` | himu-backend/src/main/java/com/himu/ai/service/VertexAiService.java:24-31 | the master prompt ends with `"USER: "` |
| `VertexAi.PromptRoundTrip` | himu-backend/src/main/java/com/himu/ai/service/VertexAiService.java:69 | stripping the master prompt from a full prompt gives back the user message |
| `VertexAi.NullMessagePromptsAsLiteralNull` | himu-backend/src/main/java/com/himu/ai/service/VertexAiService.java:69 | a null message and the text `"null"` produce the same prompt |
| `VertexAi.BuildRequestBody` | himu-backend/src/main/java/com/himu/ai/service/VertexAiService.java:73-75 | the body built from a prompt reads back as that prompt: one user content with one part carrying the text |
| `VertexAi.RequestBodyShape` | himu-backend/src/main/java/com/himu/ai/service/VertexAiService.java:73-75 | a request body comes from the prompt exactly when it has one `contents` entry with role `"user"` and one part whose text is the prompt |
| `VertexAi.ParseVertexResponse` | himu-backend/src/main/java/com/himu/ai/service/VertexAiService.java:147-170 | the reply is `ReplyAtPath`: `toString` of the non-null value at `candidates[0].content.parts[0].text`, or the not-understood text when that value is missing, null, or any level on the way is absent, empty or of the wrong kind |
| `VertexAi.ParseFollowsReplyPath` | himu-backend/src/main/java/com/himu/ai/service/VertexAiService.java:147-170 | the decoder returns `candidates[0].content.parts[0].text` as a string when every level is present, non-empty and of the right kind. Otherwise it returns the fixed not-understood text. It is total |
| `VertexAi.CandidateResponseRoundTrip` | himu-backend/src/main/java/com/himu/ai/service/VertexAiService.java:149-164 | an answer built around a text decodes to that text |
| `VertexAi.LaterCandidatesIgnored` | himu-backend/src/main/java/com/himu/ai/service/VertexAiService.java:153-162 | extra candidates and extra parts after the first do not change the reply |
| `VertexAi.FirstUsable` | himu-backend/src/main/java/com/himu/ai/service/VertexAiService.java:103-142 | the result is None exactly when no source is usable (non-null and non-empty). Otherwise it is the usable source with the lowest index, and every earlier source is unusable |
| `VertexAi.VertexAiService.GetAccessToken` | himu-backend/src/main/java/com/himu/ai/service/VertexAiService.java:103-142 | the token is the first usable value among `VERTEX_AI_ACCESS_TOKEN`, `GOOGLE_ACCESS_TOKEN`, the configured token and gcloud's first line (gcloud counts only on exit code 0). None stands for the exception when none qualifies |
| `VertexAi.VertexAiService.constructor` | himu-backend/src/main/java/com/himu/ai/service/VertexAiService.java:33-48 | the fields hold the configured project, location, endpoint ids and token |
| `VertexAi.VertexAiService.Exchange` | himu-backend/src/main/java/com/himu/ai/service/VertexAiService.java:66-97 | no usable token means no call and the authentication reply. Otherwise the call goes to the endpoint URL of the model, with the header `Bearer ` followed by exactly the first usable token (non-empty), and its body carries the full prompt. A transport failure then gives the cannot-talk reply; an answer gives its decoded text |
| `VertexAi.VertexAiService.GetHimuResponse` | himu-backend/src/main/java/com/himu/ai/service/VertexAiService.java:66-97 | the call it issues and the reply it returns are those of `Exchange` |
| `ChatController.EffectiveModel` | himu-backend/src/main/java/com/himu/ai/controller/ChatController.java:20-23 | a null or empty model becomes `"himu-1"`; a non-empty model is kept unchanged; the result is never empty |
| `ChatController.ChatWithHimu` | himu-backend/src/main/java/com/himu/ai/controller/ChatController.java:19-26 | the call made and the reply returned are exactly the service's `Exchange` for the request's message as sent and the effective model; so any call goes to the endpoint URL of the effective model and carries the full prompt built from that message |
| `ChatController.DefaultModelRoutesToHimu1` | himu-backend/src/main/java/com/himu/ai/controller/ChatController.java:20-24 | a request with a null or empty model reaches the himu-1 endpoint |
| `ChatController.UnknownModelRoutesToHimu1` | himu-backend/src/main/java/com/himu/ai/controller/ChatController.java:20-24 | an unrecognised non-empty name is forwarded unchanged and reaches the himu-1 endpoint |
| `ChatController.Himu2RoutesToHimu2` | himu-backend/src/main/java/com/himu/ai/controller/ChatController.java:20-24 | any spelling of himu-2 reaches the himu-2 endpoint |

## Left out

- The `fetch` call, the `WebClient` POST, Reactor's `Mono` chaining and JSON (de)serialisation are network and library plumbing. Their results are inputs to the model: `Outcome` on the page, `Transport` in the service. A response that does not decode to a map counts as `TransportFailed`.
- An HTTP error status from `retrieve()` is part of `TransportFailed`.
- A response body that is the JSON literal `null` is not modelled. Reactor would turn it into an empty `Mono`, which yields no reply at all.
- An ok response whose JSON has no `reply` field is not modelled. The page would append a message with undefined text; in the model, `Ok` always carries a string.
- `System.getenv` and the gcloud `ProcessBuilder` run are values (`Environment`, `GcloudRun`). The model does not capture that the process is started only when the earlier sources fail.
- Logging (`System.err.println`, `printStackTrace`) has no logical effect and is left out.
- JSX markup, CSS classes and placeholder texts are presentation and are left out. The `disabled={isLoading}` guard is kept: it is the precondition of `App.Edit` and `App.HandleSubmit`, and the way `Dispatch` drops events.
- React's render scheduling is not modelled. `disabled` is assumed to take effect before the next event is handled.
- Spring dependency injection, `@CrossOrigin`, `@Value` and Lombok are left out. `ChatRequest` is a two-field datatype, and `ChatResponse` is taken to be a one-field DTO holding `reply` (its file is not part of this model).
- `equalsIgnoreCase`: only ASCII case mapping plus dotless i and dotted capital I are modelled. These are the only characters whose Unicode case mapping can match a letter of the name with `"himu-2"`, so deciding `"himu-2"` is exact. `EqualsIgnoreCase` is not a full model for other strings.
- `ToJavaString`: JSON numbers are integers only. Fractional numbers and `Double.toString` are not modelled.
- `Json.Get`: decoded objects are assumed to have distinct keys, as a decoded map does. For an entry list with a repeated key, `Get` returns the first entry; Jackson keeps the last.
- `VertexAi.VertexAiService.Exchange`: building the request (`.uri`, `.header`, `.bodyValue`, `.retrieve`) is assumed not to throw. In the source, the `catch (RuntimeException e)` covers that code too, so an exception there (for instance a URI template error from a `{` in a configured id) would also give the authentication reply. In the model that reply arises only when no token is usable.
- `Json.ToJavaString`: the contract fixes lists and maps only by their enclosing brackets. It does not state how the elements and entries between them are written; the body writes them, separated by ", ", as `AbstractCollection.toString` and `AbstractMap.toString` do.
