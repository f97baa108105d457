/** The service-facing parts of `remove_pii_with_azure_ai` and
    `get_pii_entities`, with the Azure Text Analytics call replaced by its
    reply, which the caller supplies. */
module Detection {
  import opened Wrappers
  import opened Entities
  import Redaction

  /** A value read from the environment counts as set when it is present and
      not empty (Python truthiness of `os.environ.get`). */
  predicate IsSet(v: Option<string>) {
    v.Some? && v.value != ""
  }

  /** `AZURE_AI_LANGUAGE_ENDPOINT` and `AZURE_AI_LANGUAGE_KEY`. */
  datatype AiConfig = AiConfig(endpoint: Option<string>, key: Option<string>)

  predicate Configured(c: AiConfig) {
    IsSet(c.endpoint) && IsSet(c.key)
  }

  /** How the service step ends for the one-document batch, once the
      credentials are present: building the client or the call raises, the
      response is empty, the document reports an error, or entities are
      recognised. */
  datatype ServiceReply =
    | CallRaised
    | EmptyResponse
    | DocumentError
    | Recognized(entities: seq<Entity>)

  datatype DetectionError = NotConfigured | ServiceFailure

  /** The configuration check and service call shared by both entry points. */
  function Detect(config: AiConfig, reply: ServiceReply): (r: Result<seq<Entity>, DetectionError>)
    ensures r == Err(NotConfigured) <==> !Configured(config)
    ensures r.Ok? <==> Configured(config) && reply.Recognized?
    ensures r.Ok? ==> r.value == reply.entities
  {
    if !Configured(config) then Err(NotConfigured)
    else match reply
      case Recognized(es) => Ok(es)
      case _ => Err(ServiceFailure)
  }

  /** The returned text, and whether the service step was attempted: it is
      set once the configuration check passes, even when building the client
      fails before any request is sent. */
  datatype PiiRun = PiiRun(cleaned: string, serviceCalled: bool)

  /** `remove_pii_with_azure_ai`: empty text comes back as it is, every
      failure becomes the empty-string sentinel, and otherwise the recognised
      entities are redacted. */
  function RemovePii(text: string, config: AiConfig, reply: ServiceReply): (r: PiiRun)
    ensures r.serviceCalled <==> text != "" && Configured(config)
    ensures r.cleaned == "" <==> text == "" || Detect(config, reply).Err?
    ensures text != "" && reply.Recognized? && Configured(config) ==>
      r.cleaned == Redaction.Redact(text, reply.entities)
  {
    if text == "" then PiiRun(text, false)
    else match Detect(config, reply)
      case Err(NotConfigured) => PiiRun("", false)
      case Err(ServiceFailure) => PiiRun("", true)
      case Ok(es) => PiiRun(Redaction.Redact(text, es), true)
  }

  /** `get_pii_entities`: empty text yields no entities without a call, and a
      failure is re-raised rather than turned into a sentinel. The entities
      are passed through unchanged. */
  function GetPiiEntities(text: string, config: AiConfig, reply: ServiceReply): (r: Result<seq<Entity>, DetectionError>)
    ensures text == "" ==> r == Ok([])
    ensures text != "" ==> (r.Err? <==> !Configured(config) || !reply.Recognized?)
    ensures text != "" && r.Ok? ==> r.value == reply.entities
  {
    if text == "" then Ok([]) else Detect(config, reply)
  }

  /** The two entry points agree: the sentinel appears exactly when
      `get_pii_entities` raises for non-empty text, and otherwise the cleaned
      text is the redaction of the entities it returns. */
  lemma SentinelMatchesRaise(text: string, config: AiConfig, reply: ServiceReply)
    ensures text != "" ==>
      (RemovePii(text, config, reply).cleaned == "" <==> GetPiiEntities(text, config, reply).Err?)
    ensures GetPiiEntities(text, config, reply).Ok? ==>
      RemovePii(text, config, reply).cleaned == Redaction.Redact(text, GetPiiEntities(text, config, reply).value)
  {
  }

  /** Empty text is returned unchanged whatever the service would say, and
      the service is not called. */
  lemma EmptyTextSkipsService(config: AiConfig, reply1: ServiceReply, reply2: ServiceReply)
    ensures RemovePii("", config, reply1) == RemovePii("", config, reply2) == PiiRun("", false)
    ensures GetPiiEntities("", config, reply1) == GetPiiEntities("", config, reply2) == Ok([])
  {
  }
}
