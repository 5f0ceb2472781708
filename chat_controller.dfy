/**
 * himu-backend's ChatController: POST /api/chat defaults the model name and
 * forwards the request to the service.
 */
module ChatController {
  import opened Wrappers
  import opened VertexAi

  /** The request DTO; Jackson leaves a missing field null. */
  datatype ChatRequest = ChatRequest(message: Option<string>, model: Option<string>)

  /** The response DTO: { "reply": ... }. */
  datatype ChatResponse = ChatResponse(reply: string)

  const DEFAULT_MODEL: string := "himu-1"

  /** The model name passed on: a null or empty name becomes himu-1, any
      other name is kept as sent. */
  function EffectiveModel(model: Option<string>): (m: string)
    ensures m != ""
    ensures model.None? ==> m == DEFAULT_MODEL
    ensures model == Some("") ==> m == DEFAULT_MODEL
    ensures model.Some? && model.value != "" ==> m == model.value
  {
    match model
    case None => DEFAULT_MODEL
    case Some(name) => if name == "" then DEFAULT_MODEL else name
  }

  /** chatWithHimu: the call the service makes and the reply it gives are
      those for the message as sent and the effective model. */
  method ChatWithHimu(service: VertexAiService, request: ChatRequest, env: Environment,
                      gcloud: GcloudRun, transport: Transport)
    returns (call: Option<HttpCall>, response: ChatResponse)
    ensures ExchangeResult(call, response.reply) ==
      service.Exchange(request.message, EffectiveModel(request.model), env, gcloud, transport)
    ensures call.Some? ==>
      call.value.url == service.GetEndpointUrl(EffectiveModel(request.model)) &&
      PromptOf(call.value.body) == Some(FullPrompt(request.message))
  {
    var model := request.model;
    if model.None? || model.value == "" {
      model := Some(DEFAULT_MODEL);
    }
    var reply;
    call, reply := service.GetHimuResponse(request.message, model.value, env, gcloud, transport);
    response := ChatResponse(reply);
  }

  /** A request without a model name talks to the himu-1 endpoint. */
  lemma DefaultModelRoutesToHimu1(service: VertexAiService, model: Option<string>)
    requires model.None? || model == Some("")
    ensures service.GetEndpointUrl(EffectiveModel(model)) ==
      FormatEndpointUrl(service.location, service.projectId, service.himu1EndpointId)
  {
  }

  /** A name that is no spelling of himu-2, "himu-3" or "gpt" say, is
      forwarded as is and then also lands on himu-1. */
  lemma UnknownModelRoutesToHimu1(service: VertexAiService, name: string)
    requires name != "" && !IsHimu2Spelling(name)
    ensures EffectiveModel(Some(name)) == name
    ensures service.GetEndpointUrl(EffectiveModel(Some(name))) ==
      FormatEndpointUrl(service.location, service.projectId, service.himu1EndpointId)
  {
  }

  /** Any spelling of himu-2 reaches the himu-2 endpoint. */
  lemma Himu2RoutesToHimu2(service: VertexAiService, name: string)
    requires IsHimu2Spelling(name)
    ensures service.GetEndpointUrl(EffectiveModel(Some(name))) ==
      FormatEndpointUrl(service.location, service.projectId, service.himu2EndpointId)
  {
  }
}
