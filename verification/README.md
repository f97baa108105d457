# strip-pii: redaction and transcript-processing model

This project models the two pieces of logic at the core of strip-pii in Dafny:

- **PII redaction** (`remove_pii_with_azure_ai`). The Azure AI Language service reports entity spans in a transcript. Each span is given as an offset, a length and a category. The spans are sorted by offset, highest first, with Python's stable sort. Then each span is cut out of the text and replaced by `[REDACTED_<CATEGORY>]`, where the category is upper-cased. Empty text is returned as it is. Any failure is reported as the empty string `""`. The sibling `get_pii_entities` instead returns `[]` for empty text and re-raises on failure.
- **The HTTP handler** (`processTranscript`). It runs a fixed sequence of stages:
  1. method check;
  2. JSON parse;
  3. `id` check;
  4. `transcription` check;
  5. redaction;
  6. storage connection-string lookup;
  7. container creation, whose errors are ignored unless the error code is null;
  8. upload of `<id>_cleaned.txt` with overwrite;
  9. a 200 response carrying the cleaned text.

  Each failing stage ends the request with a fixed status and message.

The model is purely functional:

- The detection service's answer is an input, `Detection.ServiceReply`. It is one of:
  - the call raised;
  - an empty response;
  - a per-document error;
  - the recognised entities.
- The storage account's behaviour is also an input, `Pipeline.StorageReply`. It says whether a client can be built, how container creation ends, and whether the upload succeeds.
- The environment variables are an `Env` value.
- The handler returns an `Outcome`. It holds:
  - the response (status, error or transcription body, and the `Allow` header);
  - whether the detection service step was attempted;
  - the storage calls made, in order.

Python's slicing clamps indices past the end of the string, and the model does the same (`Redaction.Clamp`). So `Redact` is total: it makes no assumption about the spans the service returns. The layout properties assume well-formed spans as lemma hypotheses:

- every span lies inside the text;
- every length is positive;
- no two spans overlap.

`Redaction.Render` gives an independent description of the result, computed from the original text alone. `RedactionProperties.RedactLayout` proves that the in-place loop computes it.

Modules, in dependency order:

- `Wrappers`: `Option` and `Result`.
- `Entities`: the entity record, upper-casing and the placeholder.
- `StableSort`: the stable descending sort by offset, and what it means to be stable.
- `Redaction`: the loop and the reference layout.
- `RedactionProperties`: the loop's proofs.
- `RedactionScenarios`: a worked example.
- `Detection`: the configuration and service guards of both entry points.
- `Pipeline`: the handler.
- `PipelineProperties`: the handler's properties and scenarios.

Notes on the code's behaviour:

- **Container creation.** A container-creation exception does not end the request when its error code is a string or is absent (function_app.py:82-86). Only the debug log depends on the code. If the exception's error code is present but null, lower-casing it at function_app.py:85 raises. That error escapes to the handler at function_app.py:95, which answers with the save-failed 500 before any upload. `Pipeline.CreateOutcome` has a separate case for this.
- **Equal offsets.** Entities with equal offsets are replaced in their input order, because Python's sort is stable (pii_detection.py:61).
- **Failure sentinel.** `remove_pii_with_azure_ai` reports failure as the empty string, not as a separate error value. The handler cannot tell a failure from an empty result (function_app.py:50-51). `PipelineProperties.EmptyTranscriptionFails` proves the consequence: an empty transcription passes validation but always ends in the redaction-failure 500.
- **Service step.** `Detection.PiiRun.serviceCalled` records that the service step was attempted after the configuration check. It is also set when building the client fails before any request is sent (pii_detection.py:43-44).

## Model

| member | source | states |
|---|---|---|
| Entities.Upper | pii_detection.py:67 | upper-casing keeps the length, leaves no lower-case letter, maps each lower-case letter to its capital and keeps every other character |
| Entities.Placeholder | pii_detection.py:67 | the replacement for a category is 11 characters longer than the category |
| Entities.PlaceholderShape | pii_detection.py:67 | every replacement starts with `[REDACTED_`, ends with `]`, and between them holds exactly the upper-cased category |
| StableSort.Insert | pii_detection.py:61 | inserting into a sequence sorted by descending offset keeps it sorted, adds exactly the one entity, and puts it in front of every entity already there with the same offset (it came earlier in the input) |
| StableSort.SortDesc | pii_detection.py:61 | the result is sorted by non-increasing offset, is a permutation of the input, and keeps the input order among entities with equal offsets |
| StableSort.SortedDeterminedByOffsets | pii_detection.py:61 | two sequences sorted by descending offset that agree on the order of the entities at each offset are equal |
| StableSort.StableSortUnique | pii_detection.py:61 | any ordering sorted by descending offset that keeps the relative order of equal-offset entities is exactly the sort's result, so the stable sort is fully determined |
| StableSort.SortSums | pii_detection.py:61 | sorting changes neither the total span length nor the total placeholder length |
| Redaction.Clamp | pii_detection.py:68 | a slice bound is the index itself when it lies within the text, and the text's length otherwise |
| Redaction.ReplaceSpan | pii_detection.py:64-68 | one step keeps the text before the span start, puts the placeholder at the span start, keeps the text after the span end right after the placeholder, and changes the length by the placeholder length minus the span length |
| Redaction.ApplyAll | pii_detection.py:63-68 | the loop yields the empty string only when it starts from the empty text and has no entities |
| Redaction.Redact | pii_detection.py:57-68 | with no entities the text comes back unchanged; the result is empty only for empty text with no entities |
| RedactionProperties.PrefixKept | pii_detection.py:63-68 | when every span starts at or after k, the loop leaves the first k characters untouched |
| RedactionProperties.OffsetsStayValid | pii_detection.py:60-68 | in descending order, before the i-th step the text up to that span's offset is still the original, so the offset points to the same place as in the original text |
| RedactionProperties.ApplyAllFrame | pii_detection.py:63-68 | text appended after all spans is carried through the loop unchanged |
| RedactionProperties.ApplyAllIsRender | pii_detection.py:63-68 | for spans that each end before the start of the ones processed earlier, the in-place loop equals the layout computed from the original text |
| RedactionProperties.RenderLength | pii_detection.py:63-68 | the result's length is the text length minus the span lengths plus the placeholder lengths |
| RedactionProperties.RenderPlaceholderAt | pii_detection.py:63-68 | each entity's placeholder appears in the result at its offset shifted by the length changes of the spans before it |
| RedactionProperties.RenderKeepsSuffix | pii_detection.py:63-68 | text after the end of every span is the unchanged tail of the result |
| RedactionProperties.SortedSpansFormChain | pii_detection.py:61 | sorting non-empty, non-overlapping spans by descending offset makes each one end before the start of every span processed earlier |
| RedactionProperties.RedactLayout | pii_detection.py:57-74 | for in-bounds, non-empty, non-overlapping spans, the redacted text is the original with every span replaced by its placeholder, and its length is the text length minus the span lengths plus the placeholder lengths |
| RedactionProperties.RedactKeepsPrefix | pii_detection.py:60-68 | the text before the smallest span offset comes through redaction unchanged, for any spans |
| RedactionProperties.RedactKeepsSuffix | pii_detection.py:63-68 | for well-formed spans, the text after the last span end is the unchanged tail of the redacted text |
| RedactionScenarios.NameRedacted | pii_detection.py:63-68 | "My name is John Doe." with a Person entity at 11..19 becomes "My name is [REDACTED_PERSON]." |
| Detection.Detect | pii_detection.py:36-55 | a missing or empty endpoint or key is a configuration error; otherwise only a recognised reply succeeds, and it yields the reported entities |
| Detection.RemovePii | pii_detection.py:29-78 | the service step is attempted exactly for non-empty text with configured credentials; the result is empty exactly for empty text or a detection failure; otherwise it is the redaction of the recognised entities |
| Detection.GetPiiEntities | pii_detection.py:93-138 | empty text yields no entities; a failure on non-empty text is reported as an error, not a sentinel; a success returns the recognised entities |
| Detection.SentinelMatchesRaise | pii_detection.py:76-78 | for non-empty text, the redaction returns the empty sentinel exactly when entity retrieval raises, and otherwise it redacts the entities retrieval returns |
| Detection.EmptyTextSkipsService | pii_detection.py:29-30 | empty text is returned unchanged without a service call, whatever the service would answer |
| Pipeline.BlobName | function_app.py:61 | the blob name is the id followed by `_cleaned.txt` |
| Pipeline.ConnectionString | function_app.py:63-66 | `AzureWebJobsStorage` is used when it is set and non-empty; otherwise `AZURE_STORAGE_CONNECTION_STRING` is used when it is set and non-empty; otherwise there is none |
| Pipeline.Persist | function_app.py:59-101 | the persistence stage answers 200 only with the cleaned text, otherwise an error body; every upload writes the cleaned text to `<id>_cleaned.txt` in `cleaned-transcriptions` with overwrite; a container failure with a null error code never gives 200 and is never followed by an upload |
| Pipeline.ProcessTranscript | function_app.py:15-110 | the status is 200, 400, 405 or 500; the `Allow` header is sent exactly with 405; a 400 or 405 comes without a detection call or storage call; at most two storage calls are made |
| PipelineProperties.NonPostRefused | function_app.py:15-21 | any method but POST gets 405, "Method not allowed. Use POST." and `Allow: POST`, with no detection or storage |
| PipelineProperties.UnparseableRefused | function_app.py:23-31 | a body that is not JSON gets 400 "Invalid JSON payload" with no detection or storage |
| PipelineProperties.IdCheckedFirst | function_app.py:34-41 | an id that is missing, empty or not a string gets the 400 id message, whatever the transcription field holds |
| PipelineProperties.TranscriptionChecked | function_app.py:42-47 | with a valid id, a missing, null or non-string transcription gets the 400 transcription message |
| PipelineProperties.ClientErrorIffInvalid | function_app.py:15-47 | a request gets 400 or 405 exactly when it fails validation, and then neither detection nor storage is touched |
| PipelineProperties.RedactionFailureStoresNothing | function_app.py:50-57 | an empty redaction result gets 500 "Failed to remove PII from transcription" and nothing is stored |
| PipelineProperties.EmptyTranscriptionFails | function_app.py:42-57 | an empty transcription passes validation and still ends in the redaction-failure 500, without a service call or a write |
| PipelineProperties.StorageNotConfiguredStoresNothing | function_app.py:63-74 | with neither connection-string variable set, the request gets 500 with the not-configured message and nothing is stored |
| PipelineProperties.OnlyRedactedTextStored | function_app.py:88-93 | an upload happens only for a valid request with non-empty text that the configured service processed, after a container step that did not fail with a null error code, and it writes exactly the redaction of the transcription to `<id>_cleaned.txt` in `cleaned-transcriptions` with overwrite |
| PipelineProperties.StoredTextLayout | function_app.py:88-93 | for well-formed entities, the uploaded text is the transcription with every span replaced by its placeholder, and its length accounts for every replacement |
| PipelineProperties.ValidRequestPersists | function_app.py:50-61 | a valid request with a non-empty redaction result moves on to persistence with that result |
| PipelineProperties.ContainerErrorIgnored | function_app.py:79-86 | how container creation ends never changes the outcome, as long as no failure carries a null error code |
| PipelineProperties.NullCodeCreateFailureAborts | function_app.py:79-101 | a container-creation failure with a null error code makes lower-casing the code raise; the request then gets the save-failed 500 after the creation attempt, with no upload |
| PipelineProperties.SaveFailureHidesText | function_app.py:95-101 | a storage client or upload failure after redaction gets 500 with the fixed "Failed to save cleaned transcript" body |
| PipelineProperties.SuccessIffAllStagesSucceed | function_app.py:106-110 | the response is 200 exactly when validation, redaction, the connection-string lookup, the client, the container step (any outcome but a failure with a null error code) and the upload all succeed; the body then holds the cleaned text, after exactly one container creation and one upload |
| PipelineProperties.ScenarioNameRedacted | function_app.py:15-110 | a POST of "My name is John Doe." with a Person entity stores and returns "My name is [REDACTED_PERSON]." under `T1_cleaned.txt` |
| PipelineProperties.ScenarioNoEntities | function_app.py:15-110 | text without entities is stored and returned unchanged |
| PipelineProperties.ScenarioServiceNotConfigured | function_app.py:50-57 | without service credentials the request gets the redaction-failure 500 and nothing is stored |
| PipelineProperties.ScenarioUploadFails | function_app.py:95-101 | an upload failure gets the save-failed 500 even when the container already exists |

## Left out

- The Azure Text Analytics client, the key credential and the `recognize_pii_entities` call are left out. They are external services, so the service's answer is a `ServiceReply` input.
- `BlobServiceClient`, the container client, `ContentSettings` and the UTF-8 encoding of the upload are left out. They are external storage code; storage is recorded as a trace of calls, and an input decides their outcomes.
- Logging is left out. It has no effect on results.
- The Azure Functions decorator, the HTTP request and response objects, JSON serialisation of the body, and the `application/json` mimetype are left out. Requests and responses are plain datatypes.
- Top-level JSON values that are not objects are a precondition (`Pipeline.Handled`). The source fails on them with an unhandled exception at `payload.get`, not with a defined response.
- JSON numbers are modelled as integers. Only their not-being-a-string matters to validation.
- `confidence_score` and the copying of entity fields into dictionaries in `get_pii_entities` are left out. They are a pass-through of floating-point metadata.
- The test scripts under tests/ are left out. They call live services and only print results.
- Offsets index the text as a sequence of characters. The service's choice of string-index unit (UTF-16 code units versus code points) is not modelled.
- Entities.Upper: maps only the ASCII letters a-z to capitals, not the full Unicode case mapping of `str.upper`, which can also change the length.
- PipelineProperties.ContainerErrorIgnored: covers only container-creation outcomes other than a failure with a null error code, because the code aborts on that one (function_app.py:85); `PipelineProperties.NullCodeCreateFailureAborts` states what happens then.
