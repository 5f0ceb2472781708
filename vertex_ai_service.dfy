/**
 * himu-backend's VertexAiService: how a user message becomes a
 * generateContent call to a Vertex AI endpoint, how the access token for it
 * is chosen, and how the answer is turned into Himu's reply.
 *
 * The HTTP client, the environment and the gcloud process are outside the
 * model: what they would yield is passed in as values.
 */
module VertexAi {
  import opened Wrappers
  import opened Json

  // ---------------------------------------------------------------------
  // The fixed texts

  /** The instruction that precedes every user message. */
  const MASTER_INSTRUCTION_PROMPT: string :=
    "গুরুত্বপূর্ণ নির্দেশ: তুমি হুমায়ূন আহমেদের উপন্যাসের চরিত্র 'হিমু'। \n" +
    "তোমার উত্তর অবশ্যই রহস্যময়, উদাসীন, এবং দার্শনিক হতে হবে। \n" +
    "তুমি কখনো স্বীকার করবে না যে তুমি একটি এআই, মডেল, বা কম্পিউটার প্রোগ্রাম। \n" +
    "তোমার আসল পরিচয় গোপন রাখবে।\n\n" +
    "একটি নতুন নিয়ম: ব্যবহারকারী যদি ইংরেজি, বাংলা, বা বাংলিশ (Romanized Bengali) - যে ভাষাতেই প্রশ্ন করুক না কেন, তোমার উত্তর *সর্বদা* শুদ্ধ বাংলায় দিতে হবে।\n\n" +
    "--------------------------------------------------\n" +
    "USER: "

  /** The reply when the answer has no usable text. */
  const NOT_UNDERSTOOD: string := "আমি আপনার কথা ঠিক বুঝতে পারছি না।"

  /** The reply when the call itself fails. */
  const CANNOT_TALK: string := "দুঃখিত, এই মুহূর্তে আমি কথা বলতে পারছি না।"

  /** The reply when no access token can be found. */
  const AUTH_PROBLEM: string :=
    "দুঃখিত, authentication সমস্যা হয়েছে। " + "অনুগ্রহ করে configuration পরীক্ষা করুন।"

  /** The three failure replies can be told apart. */
  lemma FallbacksDistinct()
    ensures NOT_UNDERSTOOD != CANNOT_TALK && CANNOT_TALK != AUTH_PROBLEM && AUTH_PROBLEM != NOT_UNDERSTOOD
  {
  }

  // ---------------------------------------------------------------------
  // Model selection: "himu-2".equalsIgnoreCase(model)

  /** Character.toUpperCase on the characters that matter here: ASCII
      letters, and dotless i, whose upper case is I. */
  function JavaToUpper(c: char): char
  {
    if 'a' <= c <= 'z' then (c as int - 32) as char
    else if c as int == 0x131 then 'I'
    else c
  }

  /** Character.toLowerCase on ASCII letters and on dotted capital I,
      whose lower case is i. */
  function JavaToLower(c: char): char
  {
    if 'A' <= c <= 'Z' then (c as int + 32) as char
    else if c as int == 0x130 then 'i'
    else c
  }

  /** The per-character test of String.regionMatches(ignoreCase = true). */
  predicate CharsEqualIgnoreCase(a: char, b: char)
  {
    a == b ||
    JavaToUpper(a) == JavaToUpper(b) ||
    JavaToLower(JavaToUpper(a)) == JavaToLower(JavaToUpper(b))
  }

  predicate EqualsIgnoreCase(a: string, b: string)
  {
    |a| == |b| && forall i :: 0 <= i < |a| ==> CharsEqualIgnoreCase(a[i], b[i])
  }

  /** The spellings of "himu-2" that select the second endpoint: each of
      h, i, m, u in either case, i also as dotless i or dotted capital I. */
  predicate IsHimu2Spelling(m: string)
  {
    |m| == 6 &&
    (m[0] == 'h' || m[0] == 'H') &&
    (m[1] == 'i' || m[1] == 'I' || m[1] as int == 0x131 || m[1] as int == 0x130) &&
    (m[2] == 'm' || m[2] == 'M') &&
    (m[3] == 'u' || m[3] == 'U') &&
    m[4] == '-' && m[5] == '2'
  }

  lemma Himu2Spellings(m: string)
    ensures EqualsIgnoreCase("himu-2", m) <==> IsHimu2Spelling(m)
  {
  }

  const HOST_SUFFIX: string := "-aiplatform.googleapis.com"
  const METHOD_SUFFIX: string := ":generateContent"

  /** Segments joined by '/'. */
  function JoinSlash(segments: seq<string>): string
    requires |segments| >= 1
  {
    if |segments| == 1 then segments[0] else segments[0] + "/" + JoinSlash(segments[1..])
  }

  /** The '/'-separated segments of an endpoint URL, in the order of the
      template https://LOCATION-aiplatform.googleapis.com/v1/projects/PROJECT/locations/LOCATION/endpoints/ENDPOINT:generateContent */
  function EndpointUrlSegments(location: string, projectId: string, endpointId: string): seq<string>
  {
    ["https:", "", location + HOST_SUFFIX, "v1", "projects", projectId, "locations", location,
     "endpoints", endpointId + METHOD_SUFFIX]
  }

  lemma HostPrefix(location: string, rest: string)
    ensures "https://" + location + "-aiplatform.googleapis.com/v1/projects/" + rest ==
            "https:" + "/" + ("" + "/" + (location + HOST_SUFFIX + "/" + ("v1" + "/" + ("projects" + "/" + rest))))
  {
  }

  lemma {:induction false} JoinSlashEndsWithLast(segments: seq<string>)
    requires |segments| >= 1
    ensures var j := JoinSlash(segments); var last := segments[|segments| - 1];
            |j| >= |last| && j[|j| - |last|..] == last
  {
    if |segments| > 1 {
      JoinSlashEndsWithLast(segments[1..]);
      var j := JoinSlash(segments);
      var r := JoinSlash(segments[1..]);
      assert j == segments[0] + "/" + r;
      var last := segments[|segments| - 1];
      assert j[|j| - |last|..] == r[|r| - |last|..];
    }
  }

  /** The URL of an endpoint's generateContent method. */
  function FormatEndpointUrl(location: string, projectId: string, endpointId: string): (url: string)
    ensures "https://" + location + "-aiplatform.googleapis.com/v1/projects/" <= url
    ensures |url| >= 16 && url[|url| - 16..] == ":generateContent"
  {
    var segments := EndpointUrlSegments(location, projectId, endpointId);
    var url := JoinSlash(segments);
    var rest := JoinSlash(segments[5..]);
    assert url == "https:" + "/" + ("" + "/" + (location + HOST_SUFFIX + "/" + ("v1" + "/" + ("projects" + "/" + rest)))) by {
      assert JoinSlash(segments[4..]) == "projects" + "/" + rest by { assert segments[4..][1..] == segments[5..]; }
      assert JoinSlash(segments[3..]) == "v1" + "/" + JoinSlash(segments[4..]) by { assert segments[3..][1..] == segments[4..]; }
      assert JoinSlash(segments[2..]) == location + HOST_SUFFIX + "/" + JoinSlash(segments[3..]) by { assert segments[2..][1..] == segments[3..]; }
      assert JoinSlash(segments[1..]) == "" + "/" + JoinSlash(segments[2..]) by { assert segments[1..][1..] == segments[2..]; }
    }
    HostPrefix(location, rest);
    JoinSlashEndsWithLast(segments);
    var last := endpointId + METHOD_SUFFIX;
    assert last[|last| - 16..] == ":generateContent";
    url
  }

  /** The '/'-separated segments of a string. */
  function Split(s: string): (segments: seq<string>)
    ensures |segments| >= 1
  {
    if s == [] then [""]
    else
      var rest := Split(s[1..]);
      if s[0] == '/' then [""] + rest else [[s[0]] + rest[0]] + rest[1..]
  }

  lemma {:induction false} SplitNoSlash(x: string)
    requires '/' !in x
    ensures Split(x) == [x]
  {
    if x != [] {
      SplitNoSlash(x[1..]);
      assert [x[0]] + x[1..] == x;
    }
  }

  lemma {:induction false} SplitAtSlash(x: string, y: string)
    requires '/' !in x
    ensures Split(x + "/" + y) == [x] + Split(y)
  {
    if x == [] {
      assert (x + "/" + y)[1..] == y;
    } else {
      assert (x + "/" + y)[1..] == x[1..] + "/" + y;
      SplitAtSlash(x[1..], y);
      assert [x[0]] + x[1..] == x;
    }
  }

  /** Splitting undoes joining when no segment holds a '/'. */
  lemma {:induction false} SplitJoinSlash(segments: seq<string>)
    requires |segments| >= 1
    requires forall i :: 0 <= i < |segments| ==> '/' !in segments[i]
    ensures Split(JoinSlash(segments)) == segments
  {
    if |segments| == 1 {
      SplitNoSlash(segments[0]);
    } else {
      SplitJoinSlash(segments[1..]);
      SplitAtSlash(segments[0], JoinSlash(segments[1..]));
    }
  }

  /** Reads location, project and endpoint back from an endpoint URL. */
  function EndpointUrlParts(url: string): Option<(string, string, string)>
  {
    var segments := Split(url);
    if |segments| == 10 && segments[0] == "https:" && segments[1] == "" &&
       segments[2] == segments[7] + HOST_SUFFIX && segments[3] == "v1" &&
       segments[4] == "projects" && segments[6] == "locations" && segments[8] == "endpoints" &&
       |segments[9]| >= 16 && segments[9][|segments[9]| - 16..] == METHOD_SUFFIX
    then Some((segments[7], segments[5], segments[9][..|segments[9]| - 16]))
    else None
  }

  lemma NoSlashConcat(a: string, b: string)
    requires '/' !in a && '/' !in b
    ensures '/' !in a + b
  {
    forall i | 0 <= i < |a + b| ensures (a + b)[i] != '/' {
      if i < |a| { assert (a + b)[i] == a[i]; } else { assert (a + b)[i] == b[i - |a|]; }
    }
  }

  /** Location, project and endpoint sit in their slots of the URL: for
      components without '/', they can be read back from it. */
  lemma EndpointUrlRoundTrip(location: string, projectId: string, endpointId: string)
    requires '/' !in location && '/' !in projectId && '/' !in endpointId
    ensures EndpointUrlParts(FormatEndpointUrl(location, projectId, endpointId)) ==
      Some((location, projectId, endpointId))
  {
    var segments := EndpointUrlSegments(location, projectId, endpointId);
    NoSlashConcat(location, HOST_SUFFIX);
    NoSlashConcat(endpointId, METHOD_SUFFIX);
    SplitJoinSlash(segments);
    var last := endpointId + METHOD_SUFFIX;
    assert last[..|last| - 16] == endpointId;
    assert last[|last| - 16..] == METHOD_SUFFIX;
  }

  /** Joins that agree on every segment but the last agree on the last too. */
  lemma {:induction false} JoinSlashLastInjective(xs: seq<string>, ys: seq<string>)
    requires |xs| == |ys| >= 1
    requires forall i :: 0 <= i < |xs| - 1 ==> xs[i] == ys[i]
    requires JoinSlash(xs) == JoinSlash(ys)
    ensures xs[|xs| - 1] == ys[|ys| - 1]
  {
    if |xs| > 1 {
      var jx := JoinSlash(xs[1..]);
      var jy := JoinSlash(ys[1..]);
      assert JoinSlash(xs) == xs[0] + "/" + jx;
      assert JoinSlash(ys) == xs[0] + "/" + jy;
      assert jx == JoinSlash(xs)[|xs[0]| + 1..];
      assert jy == JoinSlash(ys)[|xs[0]| + 1..];
      JoinSlashLastInjective(xs[1..], ys[1..]);
    }
  }

  /** For one project and location, the URL names the endpoint: different
      endpoints never share a URL. */
  lemma EndpointUrlDeterminesEndpoint(location: string, projectId: string, e1: string, e2: string)
    requires FormatEndpointUrl(location, projectId, e1) == FormatEndpointUrl(location, projectId, e2)
    ensures e1 == e2
  {
    var s1 := EndpointUrlSegments(location, projectId, e1);
    var s2 := EndpointUrlSegments(location, projectId, e2);
    JoinSlashLastInjective(s1, s2);
    var l1 := e1 + METHOD_SUFFIX;
    var l2 := e2 + METHOD_SUFFIX;
    assert l1[..|e1|] == e1;
    assert l2[..|e2|] == e2;
  }

  // ---------------------------------------------------------------------
  // The prompt and the request body

  /** String concatenation of a possibly null String: null reads "null". */
  function JavaString(s: Option<string>): string
  {
    match s
    case None => "null"
    case Some(t) => t
  }

  /** MASTER_INSTRUCTION_PROMPT + userMessage. */
  function FullPrompt(userMessage: Option<string>): (p: string)
    ensures |p| == |MASTER_INSTRUCTION_PROMPT| + |JavaString(userMessage)|
    ensures MASTER_INSTRUCTION_PROMPT <= p
    ensures p[|MASTER_INSTRUCTION_PROMPT|..] == JavaString(userMessage)
  {
    var p := MASTER_INSTRUCTION_PROMPT + JavaString(userMessage);
    assert p[..|MASTER_INSTRUCTION_PROMPT|] == MASTER_INSTRUCTION_PROMPT;
    p
  }

  /** The master prompt ends with the "USER: " cue that the message
      follows. */
  lemma MasterPromptEndsWithUserCue()
    ensures |MASTER_INSTRUCTION_PROMPT| >= 6
    ensures MASTER_INSTRUCTION_PROMPT[|MASTER_INSTRUCTION_PROMPT| - 6..] == "USER: "
  {
  }

  /** The user's part of a prompt, when it starts with the master prompt. */
  function UserMessageOf(prompt: string): Option<string>
  {
    if MASTER_INSTRUCTION_PROMPT <= prompt then Some(prompt[|MASTER_INSTRUCTION_PROMPT|..]) else None
  }

  /** The message can be read back from the prompt. */
  lemma PromptRoundTrip(userMessage: Option<string>)
    ensures UserMessageOf(FullPrompt(userMessage)) == Some(JavaString(userMessage))
  {
  }

  /** A null message and the message "null" give the same prompt. */
  lemma NullMessagePromptsAsLiteralNull()
    ensures FullPrompt(None) == FullPrompt(Some("null"))
  {
  }

  datatype Part = Part(text: string)
  datatype Content = Content(role: string, parts: seq<Part>)

  /** { "contents": [ { "role": ..., "parts": [ { "text": ... } ] } ] } */
  datatype GenerateContentRequest = GenerateContentRequest(contents: seq<Content>)

  function BuildRequestBody(fullPrompt: string): (body: GenerateContentRequest)
    ensures PromptOf(body) == Some(fullPrompt)
  {
    var textPart := Part(fullPrompt);
    var rolePart := Content("user", [textPart]);
    GenerateContentRequest([rolePart])
  }

  /** The prompt of a body with a single user content of a single part. */
  function PromptOf(body: GenerateContentRequest): Option<string>
  {
    if |body.contents| == 1 && body.contents[0].role == "user" && |body.contents[0].parts| == 1
    then Some(body.contents[0].parts[0].text)
    else None
  }

  /** The bodies the service builds are exactly those with one user content
      of one part, and the part's text is the prompt. */
  lemma RequestBodyShape(fullPrompt: string, body: GenerateContentRequest)
    ensures PromptOf(body) == Some(fullPrompt) <==> body == BuildRequestBody(fullPrompt)
  {
    if PromptOf(body) == Some(fullPrompt) {
      assert body.contents[0].parts == [Part(fullPrompt)];
      assert body.contents[0] == Content("user", [Part(fullPrompt)]);
      assert body.contents == [Content("user", [Part(fullPrompt)])];
    }
  }

  // ---------------------------------------------------------------------
  // Decoding the answer

  /** candidates[0].content.parts[0].text */
  const REPLY_PATH: seq<Step> := [Key("candidates"), First, Key("content"), Key("parts"), First, Key("text")]

  /** parseVertexResponse. Every miss (a null or absent level, an empty
      list, a value of another kind, which Java meets as a
      NullPointerException or ClassCastException and catches) gives
      NOT_UNDERSTOOD. */
  function ParseVertexResponse(response: seq<Field>): (reply: string)
    ensures reply == ReplyAtPath(response)
    ensures At(JObject(response), REPLY_PATH).None? ==> reply == NOT_UNDERSTOOD
    ensures reply != NOT_UNDERSTOOD ==>
      At(JObject(response), REPLY_PATH).Some? && reply == ToJavaString(At(JObject(response), REPLY_PATH).value)
  {
    match Get(response, "candidates")
    case JArray(candidates) =>
      if |candidates| == 0 then NOT_UNDERSTOOD
      else
        (match candidates[0]
         case JObject(firstCandidate) =>
          (match Get(firstCandidate, "content")
           case JObject(content) =>
             (match Get(content, "parts")
              case JArray(parts) =>
                if |parts| == 0 then NOT_UNDERSTOOD
                else
                  (match parts[0]
                   case JObject(firstPart) =>
                     var text := Get(firstPart, "text");
                     if text != JNull then ToJavaString(text) else NOT_UNDERSTOOD
                   case _ => NOT_UNDERSTOOD)
              case _ => NOT_UNDERSTOOD)
           case _ => NOT_UNDERSTOOD)
         case _ => NOT_UNDERSTOOD)
    case _ => NOT_UNDERSTOOD
  }

  /** The reply a response carries, stated by its path alone. */
  function ReplyAtPath(response: seq<Field>): string
  {
    match At(JObject(response), REPLY_PATH)
    case Some(text) => if text != JNull then ToJavaString(text) else NOT_UNDERSTOOD
    case None => NOT_UNDERSTOOD
  }

  /** The parser returns the text at candidates[0].content.parts[0].text
      when every level is there with its expected kind, and NOT_UNDERSTOOD
      otherwise. */
  lemma ParseFollowsReplyPath(response: seq<Field>)
    ensures ParseVertexResponse(response) == ReplyAtPath(response)
  {
  }

  /** { "candidates": [ { "content": { "parts": [ { "text": text } ] } } ] } */
  function CandidateResponse(text: string): seq<Field>
  {
    var part := JObject([Field("text", JString(text))]);
    var content := JObject([Field("parts", JArray([part]))]);
    [Field("candidates", JArray([JObject([Field("content", content)])]))]
  }

  /** A well-formed answer decodes to its text, whatever the text is. */
  lemma CandidateResponseRoundTrip(text: string)
    ensures ParseVertexResponse(CandidateResponse(text)) == text
  {
    var part := [Field("text", JString(text))];
    var content := [Field("parts", JArray([JObject(part)]))];
    var candidate := [Field("content", JObject(content))];
    assert Get(CandidateResponse(text), "candidates") == JArray([JObject(candidate)]);
    assert Get(candidate, "content") == JObject(content);
    assert Get(content, "parts") == JArray([JObject(part)]);
    assert Get(part, "text") == JString(text);
  }

  /** Only the first candidate and its first part are read. */
  lemma LaterCandidatesIgnored(text: string, rest: seq<Json>, moreParts: seq<Json>)
    ensures ParseVertexResponse([Field("candidates", JArray([JObject([Field("content",
      JObject([Field("parts", JArray([JObject([Field("text", JString(text))])] + moreParts))]))])] + rest))]) == text
  {
    var part := [Field("text", JString(text))];
    var content := [Field("parts", JArray([JObject(part)] + moreParts))];
    var candidate := [Field("content", JObject(content))];
    var candidates := [JObject(candidate)] + rest;
    assert Get([Field("candidates", JArray(candidates))], "candidates") == JArray(candidates);
    assert candidates[0] == JObject(candidate);
    assert Get(candidate, "content") == JObject(content);
    assert Get(content, "parts") == JArray([JObject(part)] + moreParts);
    assert ([JObject(part)] + moreParts)[0] == JObject(part);
    assert Get(part, "text") == JString(text);
  }

  // ---------------------------------------------------------------------
  // The access token

  /** System.getenv for the two token variables. */
  datatype Environment = Environment(vertexAiAccessToken: Option<string>, googleAccessToken: Option<string>)

  /** What `gcloud auth print-access-token` would do: fail to start or be
      read (an exception), or exit with a code after printing a first line
      (None when it printed nothing). */
  datatype GcloudRun = GcloudFailed | GcloudExited(exitCode: int, firstLine: Option<string>)

  /** The token gcloud supplies: its first line, on exit code 0. */
  function GcloudToken(run: GcloudRun): Option<string>
  {
    match run
    case GcloudFailed => None
    case GcloudExited(exitCode, firstLine) => if exitCode == 0 then firstLine else None
  }

  /** A token source that is neither null nor empty. */
  predicate Usable(t: Option<string>)
  {
    t.Some? && t.value != ""
  }

  /** The first usable source, in priority order. */
  function FirstUsable(sources: seq<Option<string>>): (r: Option<string>)
    ensures r.None? <==> forall i :: 0 <= i < |sources| ==> !Usable(sources[i])
    ensures r.Some? ==> Usable(r)
    ensures r.Some? ==> exists i :: 0 <= i < |sources| && sources[i] == r &&
                                    forall j :: 0 <= j < i ==> !Usable(sources[j])
  {
    if sources == [] then None
    else if Usable(sources[0]) then sources[0]
    else
      var r := FirstUsable(sources[1..]);
      assert forall i :: 0 < i < |sources| ==> sources[i] == sources[1..][i - 1];
      assert r.Some? ==> exists i :: 0 <= i < |sources| && sources[i] == r &&
                                     forall j :: 0 <= j < i ==> !Usable(sources[j])
      by {
        if r.Some? {
          var k :| 0 <= k < |sources| - 1 && sources[1..][k] == r &&
            forall j :: 0 <= j < k ==> !Usable(sources[1..][j]);
          assert sources[k + 1] == r;
        }
      }
      r
  }

  /** VERTEX_AI_ACCESS_TOKEN, GOOGLE_ACCESS_TOKEN, the configured token,
      gcloud, in that order. */
  function TokenSources(env: Environment, cached: Option<string>, gcloud: GcloudRun): seq<Option<string>>
  {
    [env.vertexAiAccessToken, env.googleAccessToken, cached, GcloudToken(gcloud)]
  }

  // ---------------------------------------------------------------------
  // The exchange

  /** The POST the service issues. */
  datatype HttpCall = HttpCall(url: string, authorization: string, body: GenerateContentRequest)

  /** How the POST ends: an error (transport, HTTP error status, a body that
      does not decode to a map), or a decoded map. */
  datatype Transport = TransportFailed | Received(response: seq<Field>)

  /** The call made (None when no token was found) and the reply. */
  datatype ExchangeResult = ExchangeResult(call: Option<HttpCall>, reply: string)

  class VertexAiService {
    const projectId: string
    const location: string
    const himu1EndpointId: string
    const himu2EndpointId: string
    var cachedAccessToken: Option<string>

    constructor (projectId: string, himu1EndpointId: string, himu2EndpointId: string,
                 location: string, accessToken: Option<string>)
      ensures this.projectId == projectId && this.location == location
      ensures this.himu1EndpointId == himu1EndpointId && this.himu2EndpointId == himu2EndpointId
      ensures cachedAccessToken == accessToken
    {
      this.projectId := projectId;
      this.location := location;
      this.himu1EndpointId := himu1EndpointId;
      this.himu2EndpointId := himu2EndpointId;
      this.cachedAccessToken := accessToken;
    }

    /** The endpoint a model name selects; anything but a spelling of
        himu-2 selects himu-1. */
    function EndpointId(model: string): (endpointId: string)
      ensures IsHimu2Spelling(model) ==> endpointId == himu2EndpointId
      ensures !IsHimu2Spelling(model) ==> endpointId == himu1EndpointId
    {
      Himu2Spellings(model);
      if EqualsIgnoreCase("himu-2", model) then himu2EndpointId else himu1EndpointId
    }

    /** getEndpointUrl: the URL of the endpoint the model name selects. */
    function GetEndpointUrl(model: string): (url: string)
      ensures IsHimu2Spelling(model) ==> url == FormatEndpointUrl(location, projectId, himu2EndpointId)
      ensures !IsHimu2Spelling(model) ==> url == FormatEndpointUrl(location, projectId, himu1EndpointId)
    {
      FormatEndpointUrl(location, projectId, EndpointId(model))
    }

    /** getAccessToken; None stands for the RuntimeException it throws. */
    method GetAccessToken(env: Environment, gcloud: GcloudRun) returns (token: Option<string>)
      ensures token == FirstUsable(TokenSources(env, cachedAccessToken, gcloud))
    {
      ghost var sources := TokenSources(env, cachedAccessToken, gcloud);
      var envToken := env.vertexAiAccessToken;
      if envToken.Some? && envToken.value != "" {
        return envToken;
      }
      assert FirstUsable(sources) == FirstUsable(sources[1..]);
      var googleAccessToken := env.googleAccessToken;
      if googleAccessToken.Some? && googleAccessToken.value != "" {
        return googleAccessToken;
      }
      assert FirstUsable(sources[1..]) == FirstUsable(sources[2..]);
      if cachedAccessToken.Some? && cachedAccessToken.value != "" {
        return cachedAccessToken;
      }
      assert FirstUsable(sources[2..]) == FirstUsable(sources[3..]);
      if gcloud.GcloudExited? {
        var line := gcloud.firstLine;
        if gcloud.exitCode == 0 && line.Some? && line.value != "" {
          return line;
        }
      }
      assert !Usable(GcloudToken(gcloud));
      return None;
    }

    /** What getHimuResponse sends and what it finally replies. */
    function Exchange(userMessage: Option<string>, model: string, env: Environment,
                      gcloud: GcloudRun, transport: Transport): (r: ExchangeResult)
      reads this
      ensures r.call.None? <==> forall i :: 0 <= i < 4 ==> !Usable(TokenSources(env, cachedAccessToken, gcloud)[i])
      ensures r.call.None? ==> r.reply == AUTH_PROBLEM
      ensures r.call.Some? ==>
        r.call.value.url == GetEndpointUrl(model) &&
        PromptOf(r.call.value.body) == Some(FullPrompt(userMessage)) &&
        r.call.value.authorization == "Bearer " + FirstUsable(TokenSources(env, cachedAccessToken, gcloud)).value
      ensures r.call.Some? && transport.TransportFailed? ==> r.reply == CANNOT_TALK
      ensures r.call.Some? && transport.Received? ==> r.reply == ReplyAtPath(transport.response)
    {
      var fullPrompt := FullPrompt(userMessage);
      var requestBody := BuildRequestBody(fullPrompt);
      var endpointUrl := GetEndpointUrl(model);
      match FirstUsable(TokenSources(env, cachedAccessToken, gcloud))
      case None => ExchangeResult(None, AUTH_PROBLEM)
      case Some(accessToken) =>
        var call := HttpCall(endpointUrl, "Bearer " + accessToken, requestBody);
        match transport
        case TransportFailed => ExchangeResult(Some(call), CANNOT_TALK)
        case Received(response) =>
          ParseFollowsReplyPath(response);
          ExchangeResult(Some(call), ParseVertexResponse(response))
    }

    /** getHimuResponse: the call it issues, if any, and its reply. */
    method GetHimuResponse(userMessage: Option<string>, model: string, env: Environment,
                           gcloud: GcloudRun, transport: Transport)
      returns (call: Option<HttpCall>, reply: string)
      ensures ExchangeResult(call, reply) == Exchange(userMessage, model, env, gcloud, transport)
    {
      var fullPrompt := FullPrompt(userMessage);
      var requestBody := BuildRequestBody(fullPrompt);
      var endpointUrl := GetEndpointUrl(model);
      var accessToken := GetAccessToken(env, gcloud);
      if accessToken.None? {
        return None, AUTH_PROBLEM;
      }
      call := Some(HttpCall(endpointUrl, "Bearer " + accessToken.value, requestBody));
      match transport {
        case TransportFailed =>
          reply := CANNOT_TALK;
        case Received(response) =>
          reply := ParseVertexResponse(response);
      }
    }
  }
}
