# Workout scanner: label post-processing

The workout scanner sends a camera frame or an uploaded photo to a cloud
image-labelling service. It then turns the service's ordered list of
`(Name, Confidence)` labels into the list of gym equipment shown to the user.
This project models that post-processing as Dafny functions and proves what it
does. The post-processing exists in two request handlers:

- `/upload` (frontend/server.js). Every label name goes through the alias table
  `LABEL_MAPPING`; a name that is not a key passes through unchanged. An entry is
  kept when its new name is in `WORKOUT_ITEMS` and is neither `"Fitness"` nor
  `"Gym"`. Each survivor is rendered as `"<name> (<confidence>%)"`.
- `/detect-frame` (backend/server.js). A request needs a truthy `imageBase64`
  and a truthy `sessionId`, or it is answered 400. Labels whose raw name is in
  `gymEquipmentList` become `detectedItems`, under their raw name. Every label,
  unfiltered, is also returned as `allLabels`.

Files:

- `labels.dfy`, module `LabelFilter`: the shared primitive. It holds alias
  resolution (`Resolve`, `ResolveAll`), the stable keep filter (`Select`) and
  their composition (`Pipeline`). The lemmas characterise the filter exactly:
  it keeps a stable subsequence, keeps a position iff the test passes, does not
  de-duplicate, and distributes over concatenation.
- `upload_flow.dfy`, module `UploadFlow`: the constant tables and the
  `/upload` pipeline, with lemmas about specific labels.
- `frame_flow.dfy`, module `FrameFlow`: the request-field check, `detectedItems`
  and `allLabels`.

The label list the vision service returns is an input. The renderer for
`Confidence.toFixed(2)` is a function parameter `fmt: real -> string`, so no
result depends on how it rounds. Both flows are instances of the one primitive.
The frame flow is `Pipeline` with an empty alias table and no exclusions
(`FrameFlow.FrameIsPipeline`).

Three facts about the code that are easy to miss:

- A malformed label has no dedicated error. A missing `Confidence` throws
  inside the `try` and ends in the 500 path, which is not modelled.
- The output is not de-duplicated: every kept occurrence appears
  (`LabelFilter.SelectIndices`).
- With the tables as written, excluding `"Fitness"` and `"Gym"` never changes
  the upload result (`UploadFlow.ExclusionRedundant`).

## Model

| member | source | states |
|---|---|---|
| `LabelFilter.Resolve` | frontend/server.js:84 | the result is either the name itself or the name's alias; a name that is not a key is returned unchanged; an empty result only comes from an empty name, because `||` falls back on an empty (falsy) alias |
| `UploadFlow.MappingResolves` | frontend/server.js:41-49 | no alias in `LABEL_MAPPING` is empty, so a key is always replaced by its alias and any other name passes through unchanged |
| `LabelFilter.ResolveAll` | frontend/server.js:83-86 | proved by recursion: one entry per input label, and entry i is label i with its name resolved and its confidence unchanged |
| `LabelFilter.Select` | frontend/server.js:91-92 | the result is no longer than the input; every entry comes from the input and passes the vocabulary and exclusion test |
| `LabelFilter.Pipeline` | frontend/server.js:83-92 | alias then filter: no longer than the input, and every surviving name is in the vocabulary and not excluded |
| `LabelFilter.SelectIndices` | frontend/server.js:91-92 | stable filter: the result picks strictly increasing input positions, and a position is picked iff its label passes the test, so there is no re-sorting, no de-duplication and nothing else is dropped |
| `LabelFilter.SelectAppend` | frontend/server.js:91-92 | filtering a concatenation is the concatenation of the filtered parts |
| `LabelFilter.PipelineAround` | frontend/server.js:83-92 | a label inside a list contributes exactly its resolved form if admitted, or nothing, and leaves its neighbours' results unchanged |
| `LabelFilter.SelectDisjointExclusion` | frontend/server.js:92 | an exclusion list that shares no name with the vocabulary removes nothing |
| `LabelFilter.NoAliasIsIdentity` | backend/server.js:45-48 | with an empty alias table the pipeline is the plain filter on raw names |
| `UploadFlow.RenderAll` | frontend/server.js:93 | proved by recursion: one entry per kept label, and entry k is kept label k rendered as `"<name> (<conf>%)"` |
| `UploadFlow.Detections` | frontend/server.js:83-93 | never longer than the label list; empty input gives empty output |
| `UploadFlow.Upload` | frontend/server.js:55-98 | 400 "No file uploaded" iff there is no file; otherwise the detections of the labels |
| `UploadFlow.DetectionsSelect` | frontend/server.js:83-93 | entry k is the rendered, renamed label at a strictly increasing input position; a label is kept iff its resolved name is in `WORKOUT_ITEMS` and not `"Fitness"`/`"Gym"` |
| `UploadFlow.DetectionsAppend` | frontend/server.js:83-93 | the detections of a concatenation are the concatenated detections, so a repeated label gives repeated entries |
| `UploadFlow.DetectionsAround` | frontend/server.js:83-93 | one label in context adds exactly its rendered entry when kept, and nothing otherwise |
| `UploadFlow.GymWeightsRendered` | frontend/server.js:42 | a raw "Gym Weights" label is shown as "Dumbbells / Barbells (<conf>%)" in its place (alias on line 42, vocabulary on line 34) |
| `UploadFlow.BenchPressRenamed` | frontend/server.js:45 | a raw "Bench Press" label is shown as "Weight Bench (<conf>%)" in its place |
| `UploadFlow.BenchPressNeverKept` | frontend/server.js:33-49 | no kept entry is named "Bench Press", although that name is in `WORKOUT_ITEMS`: the name is a key of the alias table and no alias yields it |
| `UploadFlow.BicepCurlsDropped` | frontend/server.js:44 | a raw "Bicep Curls" label never changes the result: its alias "Dumbbells" is not in `WORKOUT_ITEMS` |
| `UploadFlow.GenericCategoryDropped` | frontend/server.js:92 | a raw "Fitness" or "Gym" label never changes the result |
| `UploadFlow.ExclusionRedundant` | frontend/server.js:33-38 | the detections equal those computed with no exclusion list, since neither "Fitness" nor "Gym" is in `WORKOUT_ITEMS` |
| `FrameFlow.Describe` | backend/server.js:47-50 | proved by recursion: one entry per label, and entry i carries label i's raw name and its rendered confidence followed by "%" |
| `FrameFlow.DetectedItems` | backend/server.js:45-50 | never longer than the label list; every name is in `gymEquipmentList` |
| `FrameFlow.AllLabels` | backend/server.js:55-58 | same length as the label list; entry i carries label i's raw name and its rendered confidence followed by "%" |
| `FrameFlow.DetectFrame` | backend/server.js:26-59 | 400 "Missing image data or session ID." iff `imageBase64` or `sessionId` is falsy; otherwise `detectedItems` and `allLabels`, the first no longer than the second, the second as long as the input |
| `FrameFlow.RejectionIgnoresVision` | backend/server.js:28-30 | a rejected request's response is independent of the vision answer and the renderer, since the handler answers before the vision call |
| `FrameFlow.DetectedItemsSelect` | backend/server.js:45-50 | `detectedItems` holds the labels at strictly increasing positions, under their raw names; a label is kept iff its raw name is in `gymEquipmentList` |
| `FrameFlow.DetectedWithinAllLabels` | backend/server.js:45-58 | `detectedItems` is a subsequence of `allLabels`, and each kept label renders identically in both |
| `FrameFlow.FrameIsPipeline` | backend/server.js:45-50 | `detectedItems` is the shared pipeline with no alias table and no exclusions |
| `FrameFlow.DetectedAround` | backend/server.js:45-50 | a label whose raw name is on the list adds exactly its own entry in its place, without changing its neighbours' entries |
| `FrameFlow.GenericCategoryKept` | backend/server.js:22 | a "Gym" or "Fitness" label is kept by this flow, in its place and under its own name |

## Left out

- HTTP plumbing is not modelled: Express, multer, cors, dotenv, `app.listen` and console logging.
- The S3 upload (`PutObjectCommand`) and its `Date.now()`-based key are not modelled. They are a network call and a clock.
- The vision call (`DetectLabelsCommand`) is not modelled, and neither are its `MaxLabels` and `MinConfidence` parameters. Its answer is the input `labels`.
- The base64 decode of `imageBase64` (`Buffer.from`) is library code that cannot be seen here.
- `toFixed(2)` is floating-point rendering. It is the parameter `fmt`, so its rounding is not modelled.
- The `catch` paths answering 500 are not modelled. They are reached when a collaborator fails or a label is malformed, and labels are always well-formed in the model.
- `FrameFlow.DetectFrame`: answers with `detectedItems` and `allLabels` for every truthy `imageBase64`. In the source, `Buffer.from(imageBase64, 'base64')` runs before the `try`. It throws on a boolean, a number or a plain object that is not array-like, so such a request gets neither that answer nor the 500 answer. The model does not capture this case, because `Buffer.from` is library code that cannot be seen here.
- The alias table is a plain finite map. JavaScript object lookup through the prototype chain is not modelled: a label named `"constructor"`, for example, would yield a function in the source.
- `FrameFlow.Truthy`: the `Number` case treats only zero as falsy, because `real` has no NaN. A NaN field is therefore not modelled.
- JavaScript strings are UTF-16 code units, modelled as `seq<char>`. Only equality and concatenation are used.
- frontend/src/App.js is not part of this model. It is the React client: camera capture, polling and `fetch`.
