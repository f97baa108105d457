/** `processTranscript`: validate the request, redact the transcription,
    store the cleaned text and answer, each failing stage ending the request
    with a fixed status and message. */
module Pipeline {
  import opened Wrappers
  import opened Detection

  /** A parsed JSON value; numbers are not distinguished beyond being numbers. */
  datatype Json =
    | JNull
    | JBool(b: bool)
    | JNumber(n: int)
    | JString(s: string)
    | JArray(items: seq<Json>)
    | JObject(fields: map<string, Json>)

  /** The request body: either it does not parse as JSON or it parses to a value. */
  datatype Payload = Unparseable | Parsed(json: Json)

  /** The HTTP method and the body of the request. */
  datatype Request = Request(verb: string, payload: Payload)

  /** The environment the function reads: the two storage connection-string
      variables and the PII service configuration. */
  datatype Env = Env(webJobsStorage: Option<string>, storageConnectionString: Option<string>, ai: AiConfig)

  /** What the storage account does when asked: whether a client can be built
      from the connection string, how container creation ends, and whether
      the upload succeeds. */
  datatype CreateOutcome =
    | Created
    | AlreadyExists
      /** Any other failure whose error code is a string or absent. */
    | CreateFailed
      /** A failure whose error code attribute is present but null: lower-casing
          it raises inside the handler, and that escapes to the save-failed
          branch. */
    | CreateFailedNullCode

  /** Whether the container-creation step lets the request go on to the upload. */
  predicate CreateTolerated(c: CreateOutcome) {
    !c.CreateFailedNullCode?
  }
  datatype StorageReply = StorageReply(clientBuilt: bool, create: CreateOutcome, uploadSucceeds: bool)

  /** One call made on the storage account. */
  datatype StorageCall =
    | CreateContainer(container: string)
    | UploadBlob(container: string, blob: string, content: string, overwrite: bool)

  datatype Body = ErrorBody(error: string) | TranscriptionBody(transcription: string)

  datatype Response = Response(status: nat, body: Body, allow: Option<string>)

  /** The response, whether the detection service was called, and the calls
      made on storage in order. */
  datatype Outcome = Outcome(response: Response, detectionCalled: bool, storage: seq<StorageCall>)

  const MethodNotAllowedMessage: string := "Method not allowed. Use POST."
  const InvalidJsonMessage: string := "Invalid JSON payload"
  const IdMessage: string := "Field 'id' is required and must be a string"
  const TranscriptionMessage: string := "Field 'transcription' is required and must be a string"
  const RemovalFailedMessage: string := "Failed to remove PII from transcription"
  const StorageNotConfiguredMessage: string := "Storage connection string not configured. Set 'AzureWebJobsStorage' in settings."
  const SaveFailedMessage: string := "Failed to save cleaned transcript"

  const ContainerName: string := "cleaned-transcriptions"

  /** The blob a transcript with this id is stored under. */
  function BlobName(id: string): (name: string)
    ensures |name| == |id| + 12 && name[..|id|] == id
    ensures name[|id|..] == "_cleaned.txt"
  {
    id + "_cleaned.txt"
  }

  /** Reading a field of the payload: a missing key reads as null. */
  function Field(fields: map<string, Json>, key: string): Json {
    if key in fields then fields[key] else JNull
  }

  /** The id passes when it is a non-empty string. */
  predicate ValidId(v: Json) {
    v.JString? && v.s != ""
  }

  /** The transcription passes when it is a string, empty or not. */
  predicate ValidTranscription(v: Json) {
    v.JString?
  }

  /** The storage connection string: `AzureWebJobsStorage` when it is set,
      else `AZURE_STORAGE_CONNECTION_STRING` when that is set, else none. */
  function ConnectionString(env: Env): (c: Option<string>)
    ensures IsSet(env.webJobsStorage) ==> c == env.webJobsStorage
    ensures !IsSet(env.webJobsStorage) && IsSet(env.storageConnectionString) ==> c == env.storageConnectionString
    ensures c.None? <==> !IsSet(env.webJobsStorage) && !IsSet(env.storageConnectionString)
    ensures c.Some? ==> c.value != ""
  {
    if IsSet(env.webJobsStorage) then env.webJobsStorage
    else if IsSet(env.storageConnectionString) then env.storageConnectionString
    else None
  }

  function Error(status: nat, message: string): Response {
    Response(status, ErrorBody(message), None)
  }

  /** The persistence stage, entered with the cleaned text. A failing
      container creation is ignored unless its error code is null; that case
      and any other storage failure end in the save-failed error. */
  function Persist(id: string, cleaned: string, env: Env, store: StorageReply, called: bool): (o: Outcome)
    ensures o.detectionCalled == called
    ensures o.response.status == 200 ==> o.response.body == TranscriptionBody(cleaned)
    ensures o.response.status != 200 ==> o.response.body.ErrorBody?
    ensures forall i :: 0 <= i < |o.storage| && o.storage[i].UploadBlob? ==>
      o.storage[i] == UploadBlob(ContainerName, BlobName(id), cleaned, true)
    ensures !CreateTolerated(store.create) ==>
      o.response.status != 200 && forall i :: 0 <= i < |o.storage| ==> !o.storage[i].UploadBlob?
  {
    match ConnectionString(env)
    case None => Outcome(Error(500, StorageNotConfiguredMessage), called, [])
    case Some(_) =>
      if !store.clientBuilt then Outcome(Error(500, SaveFailedMessage), called, [])
      else if !CreateTolerated(store.create) then
        Outcome(Error(500, SaveFailedMessage), called, [CreateContainer(ContainerName)])
      else
        var calls := [CreateContainer(ContainerName), UploadBlob(ContainerName, BlobName(id), cleaned, true)];
        if store.uploadSucceeds then Outcome(Response(200, TranscriptionBody(cleaned), None), called, calls)
        else Outcome(Error(500, SaveFailedMessage), called, calls)
  }

  /** A POST whose body parses must parse to an object: the function reads
      fields of it and fails outright otherwise. */
  predicate Handled(req: Request) {
    req.verb == "POST" && req.payload.Parsed? ==> req.payload.json.JObject?
  }

  /** The whole request handler. */
  function ProcessTranscript(req: Request, env: Env, reply: ServiceReply, store: StorageReply): (o: Outcome)
    requires Handled(req)
    ensures o.response.status in {200, 400, 405, 500}
    ensures o.response.allow.Some? <==> o.response.status == 405
    ensures o.response.status in {400, 405} ==> !o.detectionCalled && o.storage == []
    ensures |o.storage| <= 2
  {
    if req.verb != "POST" then
      Outcome(Response(405, ErrorBody(MethodNotAllowedMessage), Some("POST")), false, [])
    else if req.payload.Unparseable? then
      Outcome(Error(400, InvalidJsonMessage), false, [])
    else
      var fields := req.payload.json.fields;
      var id := Field(fields, "id");
      var transcription := Field(fields, "transcription");
      if !ValidId(id) then Outcome(Error(400, IdMessage), false, [])
      else if !ValidTranscription(transcription) then Outcome(Error(400, TranscriptionMessage), false, [])
      else
        var run := RemovePii(transcription.s, env.ai, reply);
        if run.cleaned == "" then Outcome(Error(500, RemovalFailedMessage), run.serviceCalled, [])
        else Persist(id.s, run.cleaned, env, store, run.serviceCalled)
  }
}
