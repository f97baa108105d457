/** What `processTranscript` guarantees about its responses and its writes. */
module PipelineProperties {
  import opened Wrappers
  import opened Entities
  import opened StableSort
  import opened Redaction
  import opened Detection
  import opened Pipeline
  import RedactionProperties
  import RedactionScenarios

  /** A request that passes every validation step. */
  predicate Valid(req: Request) {
    && req.verb == "POST"
    && req.payload.Parsed?
    && req.payload.json.JObject?
    && ValidId(Field(req.payload.json.fields, "id"))
    && ValidTranscription(Field(req.payload.json.fields, "transcription"))
  }

  function IdOf(req: Request): string
    requires Valid(req)
  {
    Field(req.payload.json.fields, "id").s
  }

  function TranscriptionOf(req: Request): string
    requires Valid(req)
  {
    Field(req.payload.json.fields, "transcription").s
  }

  /** Any method but POST is refused with 405 and an `Allow: POST` header,
      before anything else happens. */
  lemma NonPostRefused(req: Request, env: Env, reply: ServiceReply, store: StorageReply)
    requires req.verb != "POST"
    ensures ProcessTranscript(req, env, reply, store)
      == Outcome(Response(405, ErrorBody(MethodNotAllowedMessage), Some("POST")), false, [])
  {
  }

  /** A body that is not JSON is refused with 400 before detection or storage. */
  lemma UnparseableRefused(req: Request, env: Env, reply: ServiceReply, store: StorageReply)
    requires req.verb == "POST" && req.payload.Unparseable?
    ensures ProcessTranscript(req, env, reply, store)
      == Outcome(Response(400, ErrorBody(InvalidJsonMessage), None), false, [])
  {
  }

  /** A bad id is reported whatever the transcription field holds, because it
      is checked first. */
  lemma IdCheckedFirst(req: Request, env: Env, reply: ServiceReply, store: StorageReply)
    requires req.verb == "POST" && req.payload.Parsed? && req.payload.json.JObject?
    requires !ValidId(Field(req.payload.json.fields, "id"))
    ensures ProcessTranscript(req, env, reply, store)
      == Outcome(Response(400, ErrorBody(IdMessage), None), false, [])
  {
  }

  /** With a good id, a missing, null or non-string transcription is refused. */
  lemma TranscriptionChecked(req: Request, env: Env, reply: ServiceReply, store: StorageReply)
    requires req.verb == "POST" && req.payload.Parsed? && req.payload.json.JObject?
    requires ValidId(Field(req.payload.json.fields, "id"))
    requires !ValidTranscription(Field(req.payload.json.fields, "transcription"))
    ensures ProcessTranscript(req, env, reply, store)
      == Outcome(Response(400, ErrorBody(TranscriptionMessage), None), false, [])
  {
  }

  /** A request is refused as a client error exactly when it fails validation,
      and then neither the detection service nor storage is touched. */
  lemma ClientErrorIffInvalid(req: Request, env: Env, reply: ServiceReply, store: StorageReply)
    requires Handled(req)
    ensures var o := ProcessTranscript(req, env, reply, store);
      && (o.response.status in {400, 405} <==> !Valid(req))
      && (!Valid(req) ==> !o.detectionCalled && o.storage == [])
  {
  }

  /** When redaction yields the empty sentinel the request ends in 500 and
      nothing is stored. */
  lemma RedactionFailureStoresNothing(req: Request, env: Env, reply: ServiceReply, store: StorageReply)
    requires Valid(req)
    requires RemovePii(TranscriptionOf(req), env.ai, reply).cleaned == ""
    ensures var o := ProcessTranscript(req, env, reply, store);
      && o.response == Response(500, ErrorBody(RemovalFailedMessage), None)
      && o.storage == []
  {
  }

  /** An empty transcription passes validation yet always ends in the
      redaction-failure 500, without a service call, because the redaction
      returns the empty text as it is. */
  lemma EmptyTranscriptionFails(req: Request, env: Env, reply: ServiceReply, store: StorageReply)
    requires Valid(req) && TranscriptionOf(req) == ""
    ensures ProcessTranscript(req, env, reply, store)
      == Outcome(Response(500, ErrorBody(RemovalFailedMessage), None), false, [])
  {
  }

  /** Without either storage connection-string variable set, the request ends
      in 500 with nothing stored. */
  lemma StorageNotConfiguredStoresNothing(req: Request, env: Env, reply: ServiceReply, store: StorageReply)
    requires Valid(req)
    requires RemovePii(TranscriptionOf(req), env.ai, reply).cleaned != ""
    requires !IsSet(env.webJobsStorage) && !IsSet(env.storageConnectionString)
    ensures var o := ProcessTranscript(req, env, reply, store);
      && o.response == Response(500, ErrorBody(StorageNotConfiguredMessage), None)
      && o.storage == []
  {
  }

  /** Only redacted text is ever uploaded: an upload happens only after the
      service recognised entities in a non-empty transcription, and it writes
      exactly the redaction of that transcription to `<id>_cleaned.txt` in
      the `cleaned-transcriptions` container, overwriting. */
  lemma OnlyRedactedTextStored(req: Request, env: Env, reply: ServiceReply, store: StorageReply, i: nat)
    requires Handled(req)
    requires i < |ProcessTranscript(req, env, reply, store).storage|
    requires ProcessTranscript(req, env, reply, store).storage[i].UploadBlob?
    ensures Valid(req) && TranscriptionOf(req) != ""
    ensures Configured(env.ai) && reply.Recognized?
    ensures ConnectionString(env).Some? && store.clientBuilt && CreateTolerated(store.create)
    ensures ProcessTranscript(req, env, reply, store).storage[i]
      == UploadBlob(ContainerName, BlobName(IdOf(req)), Redact(TranscriptionOf(req), reply.entities), true)
  {
  }

  /** A valid request whose redaction succeeds moves on to persistence with
      the cleaned text. */
  lemma ValidRequestPersists(req: Request, env: Env, reply: ServiceReply, store: StorageReply)
    requires Valid(req)
    requires RemovePii(TranscriptionOf(req), env.ai, reply).cleaned != ""
    ensures var run := RemovePii(TranscriptionOf(req), env.ai, reply);
      ProcessTranscript(req, env, reply, store) == Persist(IdOf(req), run.cleaned, env, store, run.serviceCalled)
  {
  }

  /** For well-formed detector output the uploaded text is the original
      transcription with every entity span cut out and its placeholder put in
      its place, and its length accounts for each replacement. */
  lemma StoredTextLayout(req: Request, env: Env, reply: ServiceReply, store: StorageReply, i: nat)
    requires Handled(req) && Valid(req) && reply.Recognized?
    requires WellFormed(reply.entities, |TranscriptionOf(req)|)
    requires i < |ProcessTranscript(req, env, reply, store).storage|
    requires ProcessTranscript(req, env, reply, store).storage[i].UploadBlob?
    ensures var content := ProcessTranscript(req, env, reply, store).storage[i].content;
      && Chain(SortDesc(reply.entities))
      && InBounds(SortDesc(reply.entities), |TranscriptionOf(req)|)
      && content == Render(TranscriptionOf(req), SortDesc(reply.entities))
      && |content| == |TranscriptionOf(req)| - SumLength(reply.entities) + SumPlaceholder(reply.entities)
  {
    OnlyRedactedTextStored(req, env, reply, store, i);
    RedactionProperties.RedactLayout(TranscriptionOf(req), reply.entities);
  }

  /** How container creation ends never changes the outcome, as long as a
      failure does not carry a null error code. */
  lemma ContainerErrorIgnored(req: Request, env: Env, reply: ServiceReply, store: StorageReply, create: CreateOutcome)
    requires Handled(req)
    requires CreateTolerated(store.create) && CreateTolerated(create)
    ensures ProcessTranscript(req, env, reply, store)
      == ProcessTranscript(req, env, reply, store.(create := create))
  {
  }

  /** A container-creation failure with a null error code ends the request in
      the save-failed 500 after the creation attempt, with no upload. */
  lemma NullCodeCreateFailureAborts(req: Request, env: Env, reply: ServiceReply, store: StorageReply)
    requires Valid(req)
    requires RemovePii(TranscriptionOf(req), env.ai, reply).cleaned != ""
    requires ConnectionString(env).Some? && store.clientBuilt
    requires store.create == CreateFailedNullCode
    ensures var o := ProcessTranscript(req, env, reply, store);
      && o.response == Response(500, ErrorBody(SaveFailedMessage), None)
      && o.storage == [CreateContainer(ContainerName)]
  {
  }

  /** A storage failure after a successful redaction ends in 500 with the
      fixed save-failed message, so the response carries no transcript text. */
  lemma SaveFailureHidesText(req: Request, env: Env, reply: ServiceReply, store: StorageReply)
    requires Valid(req)
    requires RemovePii(TranscriptionOf(req), env.ai, reply).cleaned != ""
    requires ConnectionString(env).Some?
    requires !store.clientBuilt || !store.uploadSucceeds
    ensures ProcessTranscript(req, env, reply, store).response
      == Response(500, ErrorBody(SaveFailedMessage), None)
  {
  }

  /** Success happens exactly when every stage succeeds (container creation
      counting as a success unless it fails with a null error code), and then
      the response
      returns the cleaned text after one container creation and one upload. */
  lemma SuccessIffAllStagesSucceed(req: Request, env: Env, reply: ServiceReply, store: StorageReply)
    requires Handled(req)
    ensures var o := ProcessTranscript(req, env, reply, store);
      o.response.status == 200 <==>
        && Valid(req)
        && RemovePii(TranscriptionOf(req), env.ai, reply).cleaned != ""
        && ConnectionString(env).Some?
        && store.clientBuilt
        && CreateTolerated(store.create)
        && store.uploadSucceeds
    ensures var o := ProcessTranscript(req, env, reply, store);
      o.response.status == 200 ==>
        var cleaned := RemovePii(TranscriptionOf(req), env.ai, reply).cleaned;
        && o.response.body == TranscriptionBody(cleaned)
        && o.storage == [CreateContainer(ContainerName), UploadBlob(ContainerName, BlobName(IdOf(req)), cleaned, true)]
  {
  }

  const Configuration: Env := Env(Some("UseDevelopmentStorage=true"), None, AiConfig(Some("https://lang.example"), Some("key")))
  const Healthy: StorageReply := StorageReply(true, Created, true)

  function PostJson(id: string, transcription: string): Request {
    Request("POST", Parsed(JObject(map["id" := JString(id), "transcription" := JString(transcription)])))
  }

  lemma PostJsonValid(id: string, transcription: string)
    requires id != ""
    ensures Valid(PostJson(id, transcription))
    ensures IdOf(PostJson(id, transcription)) == id
    ensures TranscriptionOf(PostJson(id, transcription)) == transcription
  {
  }

  /** A step of `ScenarioNameRedacted`. The literals are pinned parameters
      rather than written into the contract, so that the solver works with
      names instead of unfolding long string literals at every step; this
      keeps the proof within the resource limit. */
  lemma NameRemoved(text: string, person: Entity, cleaned: string)
    requires text == "My name is John Doe."
    requires person == Entity("John Doe", "Person", None, 11, 8)
    requires cleaned == "My name is [REDACTED_PERSON]."
    ensures RemovePii(text, Configuration.ai, Recognized([person])) == PiiRun(cleaned, true)
  {
    RedactionScenarios.NameRedacted();
  }

  lemma HealthyStorageStores(id: string, cleaned: string, called: bool)
    ensures Persist(id, cleaned, Configuration, Healthy, called)
      == Outcome(Response(200, TranscriptionBody(cleaned), None), called,
                 [CreateContainer(ContainerName), UploadBlob(ContainerName, BlobName(id), cleaned, true)])
  {
  }

  lemma BlobNameOfT1()
    ensures BlobName("T1") == "T1_cleaned.txt"
  {
  }

  /** The end-to-end run behind `ScenarioNameRedacted`, with the literals as
      pinned parameters for the reason given at `NameRemoved`. */
  lemma NameRedactedEndToEnd(text: string, person: Entity, cleaned: string)
    requires text == "My name is John Doe."
    requires person == Entity("John Doe", "Person", None, 11, 8)
    requires cleaned == "My name is [REDACTED_PERSON]."
    ensures var o := ProcessTranscript(PostJson("T1", text), Configuration, Recognized([person]), Healthy);
      && o.response == Response(200, TranscriptionBody(cleaned), None)
      && o.storage == [CreateContainer("cleaned-transcriptions"),
                       UploadBlob("cleaned-transcriptions", "T1_cleaned.txt", cleaned, true)]
  {
    var req := PostJson("T1", text);
    PostJsonValid("T1", text);
    NameRemoved(text, person, cleaned);
    ValidRequestPersists(req, Configuration, Recognized([person]), Healthy);
    HealthyStorageStores("T1", cleaned, true);
    BlobNameOfT1();
  }

  /** A person's name is replaced by its placeholder, stored and returned. */
  lemma ScenarioNameRedacted()
    ensures var o := ProcessTranscript(PostJson("T1", "My name is John Doe."), Configuration,
                                       Recognized([Entity("John Doe", "Person", None, 11, 8)]), Healthy);
      && o.response == Response(200, TranscriptionBody("My name is [REDACTED_PERSON]."), None)
      && o.storage == [CreateContainer("cleaned-transcriptions"),
                       UploadBlob("cleaned-transcriptions", "T1_cleaned.txt", "My name is [REDACTED_PERSON].", true)]
  {
    NameRedactedEndToEnd("My name is John Doe.", Entity("John Doe", "Person", None, 11, 8), "My name is [REDACTED_PERSON].");
  }

  /** Text without entities is stored and returned unchanged. */
  lemma ScenarioNoEntities()
    ensures var o := ProcessTranscript(PostJson("T2", "No PII here."), Configuration, Recognized([]), Healthy);
      && o.response == Response(200, TranscriptionBody("No PII here."), None)
      && o.storage == [CreateContainer("cleaned-transcriptions"),
                       UploadBlob("cleaned-transcriptions", "T2_cleaned.txt", "No PII here.", true)]
  {
    PostJsonValid("T2", "No PII here.");
    assert BlobName("T2") == "T2_cleaned.txt";
  }

  /** A service that is not configured leads to 500 and no storage call. */
  lemma ScenarioServiceNotConfigured(reply: ServiceReply)
    ensures var env := Configuration.(ai := AiConfig(None, None));
      var o := ProcessTranscript(PostJson("T3", "Call me at 555-0100."), env, reply, Healthy);
      && o.response == Response(500, ErrorBody(RemovalFailedMessage), None)
      && o.storage == []
  {
  }

  /** An upload failure after redaction leads to 500 with the fixed message. */
  lemma ScenarioUploadFails()
    ensures var o := ProcessTranscript(PostJson("T4", "No PII here."), Configuration, Recognized([]),
                                       StorageReply(true, AlreadyExists, false));
      o.response == Response(500, ErrorBody(SaveFailedMessage), None)
  {
  }
}
