# Notebook generation: a Dafny model

This project models the notebook-generation core of a FastAPI service.
A user submits a topic. The service stores a PENDING notebook and a PENDING task in Firestore, then schedules a background job.

The job does the following:
- marks the task PROCESSING and the notebook PROCESSING_TEXT;
- asks a language model for text with `image - [description]` placeholders;
- scrapes one image per placeholder and has a validator judge it;
- replaces each validated placeholder with a Markdown image;
- marks both records COMPLETED.

Any exception outside the per-image step marks both records FAILED.
Separate lookups return a notebook under its owner's path and a task only to its owner.

The modules are:
- `NotebookModel`, `TaskModel`: the enums, the stored records with their defaults, and the partial updates.
- `DocumentStore`: the store, in two forms.
  - `Db` and `Perform` are a pure model of one `set`/`update` call. An oracle `Faults` says which call raises. An `update` on a missing document raises.
  - The class `Store` holds the same state as fields and is proved to follow `Perform`.
- `ImageScraper`, `ImageValidator`: the two mock services.
- `Placeholders`: the placeholder scanner (the regex `image - \[(.*?)\]`, written out) and the assembly loop.
- `NotebookTasks`: the background job.
  - The pure specification is `Run`, a fold over a list of store `Action`s.
  - The imperative `GenerateNotebookContent` and its loops are proved equal to `Run`.
- `PipelineProperties`: what `Run` does.
  - Reference folds ignore timestamps.
  - The order of status events is stated exactly.
  - Success, failure and frame lemmas.
- `NotebookService`, `TaskService`: submission, scheduling and the two lookups.
- `EndToEnd`: a submission followed by its job, seen through the lookups.

The three external services are parameters of type `Ports`. Each call yields a result or an exception message. Call `k` of a port is the call for the k-th placeholder.

## Model

| member | source | states |
|---|---|---|
| NotebookModel.ParseNotebookStatus | app/models/notebook.py:7-12 | a string parses only to the status whose stored name it is; no other string parses |
| NotebookModel.NotebookStatusRoundTrip | app/models/notebook.py:7-12 | every notebook status reads back as itself, so the five stored names are distinct |
| NotebookModel.ParseImageRequestStatus | app/models/notebook.py:14-18 | a string parses only to the image-request status whose name it is |
| NotebookModel.ImageRequestStatusRoundTrip | app/models/notebook.py:14-18 | the four image-request statuses read back as themselves |
| NotebookModel.NewImageRequest | app/models/notebook.py:21-26 | a new request has the query, status PENDING and no urls or reason |
| NotebookModel.NewNotebook | app/models/notebook.py:36-44 | a new notebook has the given id, topic, user, status and times, no text, no image requests, no content and no error |
| NotebookModel.EmptyNotebookUpdate | app/models/notebook.py:60-71 | every field of an update except `updated_at` is absent by default |
| TaskModel.ParseTaskStatus | app/models/task.py:7-11 | a string parses only to the task status whose name it is |
| TaskModel.TaskStatusRoundTrip | app/models/task.py:7-11 | the four task statuses read back as themselves |
| TaskModel.ParseToolType | app/models/task.py:14-16 | only "notebook_generator" and "story_book_generator" parse, each to its own tool type |
| TaskModel.ToolTypeRoundTrip | app/models/task.py:14-16 | both tool types read back as themselves |
| TaskModel.NewTask | app/models/task.py:27-34 | a new task has the given id, user, tool, payload, status, result document and times, and no error |
| TaskModel.EmptyTaskUpdate | app/models/task.py:45-53 | status, result document and error are absent in a default task update |
| DocumentStore.Perform | app/background/notebook_tasks.py:14-17 | one store call: it succeeds iff the oracle lets it and an updated document exists; a failure changes only the call count; a success appends exactly its write to the log; keys never disappear |
| DocumentStore.Store.SetNotebook | app/services/notebook_service.py:34-35 | the in-place `set` on a notebook path follows `Perform` |
| DocumentStore.Store.SetTask | app/services/notebook_service.py:51-53 | the in-place `set` on `tasks/{id}` follows `Perform` |
| DocumentStore.Store.UpdateNotebook | app/background/notebook_tasks.py:14-17 | the in-place notebook `update` follows `Perform`, raising on a missing document |
| DocumentStore.Store.UpdateTask | app/background/notebook_tasks.py:21-24 | the in-place task `update` follows `Perform`, raising on a missing document |
| DocumentStore.ApplyNotebookUpdate | app/background/notebook_tasks.py:14-17 | Firestore's field merge of a notebook `update` keeps the id, owner and creation time and takes the update's time |
| DocumentStore.NotebookUpdateMerges | app/background/notebook_tasks.py:14-17 | in that merge each field the update holds (topic, status, generated text, image requests, final content, error) overwrites, and each absent field keeps the notebook's value |
| DocumentStore.EmptyNotebookUpdateKeeps | app/background/notebook_tasks.py:14-17 | an update holding no field moves only the update time |
| DocumentStore.ApplyTaskUpdate | app/background/notebook_tasks.py:21-24 | the same merge for a task `update` keeps id, owner, tool, payload and creation time and takes the update's time |
| DocumentStore.TaskUpdateMerges | app/background/notebook_tasks.py:21-24 | in that merge status, result document and error overwrite when the update holds them and keep the task's value when absent |
| DocumentStore.EmptyTaskUpdateKeeps | app/background/notebook_tasks.py:21-24 | a task update holding no field moves only the update time |
| Text.ReplaceFirst | app/background/notebook_tasks.py:101 | `replace(p, r, 1)`: unchanged without an occurrence, otherwise the first occurrence is replaced |
| Text.Lower | app/services/ai/image_validator.py:37 | `str.lower` on ASCII: the same length, each upper-case ASCII letter becomes its lower-case letter, and every other character is kept in place |
| Text.LowerIdempotent | app/services/ai/image_validator.py:37 | lower-casing twice gives the same text as lower-casing once |
| ImageScraper.ReplaceChar | app/services/ai/image_scraper.py:26 | `replace(" ", "-")`: the same length, each occurrence of the character becomes the replacement, every other character stays in place, and text without it is unchanged |
| ImageScraper.RemoveChar | app/services/ai/image_scraper.py:26 | `replace(c, "")`: none of `c` is left, no character is added, and text without `c` is unchanged |
| ImageScraper.RemoveCharCounts | app/services/ai/image_scraper.py:26 | every character other than `c` is kept exactly as often as it occurs |
| ImageScraper.RemoveCharConcat | app/services/ai/image_scraper.py:26 | removal works piece by piece over a concatenation, so the kept characters stay in their order |
| ImageScraper.Slug | app/services/ai/image_scraper.py:26 | the slug has no space or bracket, and every character is `-` or from the lower-cased query |
| ImageScraper.SlugLength | app/services/ai/image_scraper.py:26 | the slug keeps every character of the query except the brackets: it is shorter by exactly the number of `[` and `]` |
| ImageScraper.RemoveCharLength | app/services/ai/image_scraper.py:26 | removing a character shortens the text by the number of its copies |
| ImageScraper.SlugIdempotent | app/services/ai/image_scraper.py:26 | the slug of a slug is itself |
| ImageScraper.ScrapeImages | app/services/ai/image_scraper.py:14-31 | the loop returns `MockUrls`: empty for `count <= 0`, otherwise url i is `https://picsum.photos/seed/{slug}-{i+1}/800/600` |
| ImageScraper.MockUrls | app/services/ai/image_scraper.py:23-31 | the list the loop builds: `count` urls for a positive count and none otherwise; its contents are stated by `ScrapeImages`, `MockUrlsDistinct`, `MockUrlsSeeded` and `MockUrlsNonEmpty` |
| ImageScraper.MockUrlsSeeded | app/services/ai/image_scraper.py:26-27 | every url starts with `https://picsum.photos/seed/{slug}-` for the query's slug |
| ImageScraper.MockUrlsDistinct | app/services/ai/image_scraper.py:24-27 | the urls of one call are pairwise distinct |
| ImageScraper.MockUrlsNonEmpty | app/services/ai/image_scraper.py:24-31 | with `count >= 1` there are exactly `count` urls and the first is the index-1 url |
| ImageValidator.ValidateImage | app/services/ai/image_validator.py:14-51 | the url is returned iff the image is accepted, and then it is the input url; a query containing "fail_validation" in lower case is always rejected; any other query is accepted iff the random draw is not below 0.1 |
| ImageValidator.ValidationIgnoresTextContext | app/services/ai/image_validator.py:17-51 | the verdict is the same for every text context |
| Placeholders.CloseFromFirst | app/background/notebook_tasks.py:45 | the non-greedy `(.*?)\]` closes at a `]` reached over text without `]` or newline, that is at the first `]` |
| Placeholders.CloseFromPlain | app/background/notebook_tasks.py:45 | the query a match closes contains no `]` and no newline |
| Placeholders.Markers | app/background/notebook_tasks.py:44-46 | the group-1 texts of `re.finditer(r"image - \[(.*?)\]", text)`, left to right: the scan from index 0, whose results `MarkersWellFormed`, `MarkersOfRender`, `NoMarkersInCleanText` and `ExtractQueries` state |
| Placeholders.MarkersWellFormed | app/background/notebook_tasks.py:44-46 | every extracted query holds no `]` and no newline, and the text contains `image - [q]` for it |
| Placeholders.MarkersOfRender | app/background/notebook_tasks.py:44-46 | for text laid out as plain segments and placeholders, the queries come out in order, duplicates included, one per placeholder |
| Placeholders.NoMarkersInCleanText | app/background/notebook_tasks.py:44-50 | text without `image - [` yields no queries |
| Placeholders.ExtractQueries | app/background/notebook_tasks.py:44-46 | the scanning loop returns exactly `Markers(text)` |
| Placeholders.AssembleContent | app/background/notebook_tasks.py:96-101 | the assembly loop returns `Assemble(text, requests)`, the requests applied in list order |
| Placeholders.Assemble | app/background/notebook_tasks.py:96-101 | the final content: the requests applied to the text one by one in list order, each replacing the first remaining copy of its placeholder when validated; properties in `AssembleContent`, `AssembleIgnoresUnvalidated`, `EmbedFirstMarker` and `SecondDuplicateUntouched` |
| Placeholders.AssembleIgnoresUnvalidated | app/background/notebook_tasks.py:97-101 | requests that are not VALIDATED with a non-empty url have no effect |
| Placeholders.AssembleWithoutValidated | app/background/notebook_tasks.py:96-101 | without a validated request the final content is the generated text |
| Placeholders.EmbedFirstMarker | app/background/notebook_tasks.py:99-101 | a validated request replaces its first placeholder with `![q](url)` |
| Placeholders.SecondDuplicateUntouched | app/background/notebook_tasks.py:101 | of two identical placeholders, one validated request replaces only the first |
| NotebookTasks.ProcessImage | app/background/notebook_tasks.py:55-87 | a processed request keeps its query and ends VALIDATED or FAILED; it has a validated url iff VALIDATED and a reason iff FAILED; a scraper exception or an empty list gives FAILED with that reason; a non-empty scrape records its first url as the original url; then a validator exception gives FAILED with its message, acceptance with a non-empty url gives VALIDATED with that url, and any other verdict gives FAILED with "Image validation failed or not suitable"; VALIDATED only when the validator accepted with a url |
| NotebookTasks.ProcessAll | app/background/notebook_tasks.py:54-89 | one settled request per query, in query order |
| NotebookTasks.ProcessImageQuery | app/background/notebook_tasks.py:55-89 | the loop body, updating the request step by step, equals `ProcessImage` |
| NotebookTasks.ProcessImageQueries | app/background/notebook_tasks.py:54-89 | the loop over the queries equals `ProcessAll`, so no failure ends it early |
| NotebookTasks.NotebookStatusUpdate | app/background/notebook_tasks.py:13-17 | the update writes the status and the time, plus the message only when one is given and non-empty, and nothing else |
| NotebookTasks.TaskStatusUpdate | app/background/notebook_tasks.py:20-24 | the same rule for the task update |
| NotebookTasks.Exec | app/background/notebook_tasks.py:31-110 | the try block's store calls made in order; the first one that raises ends the sequence with its message, and no later call is made; its effect is stated by `ExecQuietLog` and `ExecQuietDocs` |
| NotebookTasks.TryBlock | app/background/notebook_tasks.py:31-111 | the two start updates, text generation, then the work actions; a raising store call or a raising text service ends it with that message |
| NotebookTasks.Run | app/background/notebook_tasks.py:27-122 | the job: the try block, then on an exception the handler's two FAILED updates, with any exception in the handler dropped; what it leaves is stated by the `PipelineProperties` lemmas |
| NotebookTasks.UpdateNotebookStatus | app/background/notebook_tasks.py:13-18 | one notebook `update` of `NotebookStatusUpdate`, timed at the call |
| NotebookTasks.UpdateTaskStatus | app/background/notebook_tasks.py:20-25 | one task `update` of `TaskStatusUpdate`, timed at the call |
| NotebookTasks.ProcessImagePhase | app/background/notebook_tasks.py:50-92 | the image phase performs its actions and returns `Requests(ports, text)` |
| NotebookTasks.FinishPhase | app/background/notebook_tasks.py:96-110 | assembly and the three final writes perform `FinishActions` |
| NotebookTasks.GenerateFromText | app/background/notebook_tasks.py:37-110 | from the text on, the try block performs `WorkActions` |
| NotebookTasks.GenerateNotebookContent | app/background/notebook_tasks.py:27-122 | the background job leaves the store in the state `Run` gives |
| PipelineProperties.ExecQuietLog | app/background/notebook_tasks.py:31-110 | when no call raises and both documents exist, every action is performed and logged in order |
| PipelineProperties.ExecQuietDocs | app/background/notebook_tasks.py:31-110 | the records then equal the reference fold of the actions, up to timestamps |
| PipelineProperties.RunCompletes | app/background/notebook_tasks.py:31-111 | when nothing raises, both records end COMPLETED, the notebook holds the text, the requests (when placeholders exist) and the assembled content, and the task is otherwise unchanged; the status writes are exactly task PROCESSING, notebook PROCESSING_TEXT, notebook PROCESSING_IMAGES only with placeholders, notebook COMPLETED, task COMPLETED; without placeholders nothing writes `image_requests` and the content is the text |
| PipelineProperties.RunFrame | app/background/notebook_tasks.py:27-122 | the job touches only its own task and notebook, adds no document and only appends to the log |
| PipelineProperties.RunFailureMarksBoth | app/background/notebook_tasks.py:113-120 | after an exception in the try block, when the handler's writes succeed, the notebook and then the task are marked FAILED with the message, which is written only when non-empty |
| PipelineProperties.HandlerFailureSwallowed | app/background/notebook_tasks.py:118-122 | when the handler's first write raises, the job ends in the try block's state with no further write and nothing raised |
| PipelineProperties.HandlerLeavesTaskBehind | app/background/notebook_tasks.py:119-122 | when only the handler's task write raises, the notebook ends FAILED and the task is left as the try block left it |
| PipelineProperties.RunTextFails | app/background/notebook_tasks.py:32-35 | when text generation raises, the writes are task PROCESSING, notebook PROCESSING_TEXT, notebook FAILED, task FAILED, and both records end FAILED with the message |
| PipelineProperties.TryBlockStopsAtTaskCompleted | app/background/notebook_tasks.py:109-110 | without placeholders, when only the task COMPLETED write raises, the try block has performed every earlier action, notebook COMPLETED included, and raises that message |
| PipelineProperties.CompletedNotebookCanEndFailed | app/background/notebook_tasks.py:109-120 | a notebook can be marked COMPLETED and then FAILED: the status events are task PROCESSING, notebook PROCESSING_TEXT, notebook COMPLETED, notebook FAILED, task FAILED, and the notebook ends FAILED while holding its final content |
| PipelineProperties.MockImageOutcome | app/background/notebook_tasks.py:57-78 | with the mock services, every request gets the index-1 url of its slug, is VALIDATED iff the query lacks "fail_validation" and the draw is not low, and otherwise fails as not suitable |
| PipelineProperties.MockPorts | app/background/notebook_tasks.py:59-69 | the services as the repository wires them: the mock scraper asked for one image and the mock validator with one random draw per query; stated by `MockImageOutcome` |
| PipelineProperties.RequestsFollowPlaceholders | app/background/notebook_tasks.py:44-89 | for text laid out as segments, there is one processed request per placeholder, in order, carrying its query |
| NotebookService.BackgroundTasks.AddTask | app/services/notebook_service.py:58-64 | scheduling appends exactly one job to the queue |
| NotebookService.CreateNotebookAndTask | app/services/notebook_service.py:8-72 | the service leaves the store, the queue and its result as `Submit` says |
| NotebookService.Submit | app/services/notebook_service.py:8-72 | the notebook `set`, then the task `set`, then the scheduling; an exception from either `set` is returned and stops what follows; stated by `SubmitOutcome`, `SubmitCreatesPendingRecords` and the two write-failure lemmas |
| NotebookService.SubmitOutcome | app/services/notebook_service.py:35-64 | the submission succeeds iff neither `set` raises; then exactly one job is scheduled, otherwise none |
| NotebookService.SubmitCreatesPendingRecords | app/services/notebook_service.py:20-72 | a successful submission stores a PENDING notebook (topic, user, defaults) under the user's path and a PENDING notebook-generator task whose payload is `{topic, notebook_id}` and whose result document is the notebook; it returns exactly the stored records and schedules `(task_id, user_id, notebook_id, topic)` |
| NotebookService.SubmitTaskWriteFails | app/services/notebook_service.py:34-53 | when the task `set` raises, the notebook stays stored, no task is added and nothing is scheduled |
| NotebookService.SubmitNotebookWriteFails | app/services/notebook_service.py:34-35 | when the notebook `set` raises, nothing is stored or scheduled |
| NotebookService.GetNotebookByIdAsWritten | app/services/notebook_service.py:75-81 | as written, an existing notebook raises a TypeError and only a missing one returns `None` |
| NotebookService.CreatedNotebookUnreadableAsWritten | app/services/notebook_service.py:80 | as written, reading back a just-created notebook raises |
| NotebookService.GetNotebookById | app/services/notebook_service.py:75-81 | `None` exactly when no document exists under the user's path, otherwise a notebook carrying the document id |
| NotebookService.NotebookLookupReturnsStored | app/services/notebook_service.py:77-81 | apart from the id, the notebook returned is the stored document field for field |
| NotebookService.CreatedNotebookReadBack | app/services/notebook_service.py:75-81 | reading back a just-created notebook returns exactly the record the service returned |
| NotebookService.NotebookLookupIsPerUser | app/services/notebook_service.py:77 | storing a notebook under one user's path leaves every other user's lookup of the same id unchanged |
| TaskService.GetTaskByIdAsWritten | app/services/task_service.py:5-23 | as written, a task owned by the caller raises a TypeError; another user's task and a missing task give `None` |
| TaskService.CreatedTaskUnreadableAsWritten | app/services/task_service.py:18 | as written, the owner reading back a just-created task gets the TypeError |
| TaskService.GetTaskById | app/services/task_service.py:5-23 | a task is returned exactly when it exists and its stored user is the caller, with the document id and the caller as owner; otherwise `None`, so absent and foreign look alike |
| TaskService.TaskLookupReturnsStored | app/services/task_service.py:17-18 | the returned task carries the stored status, tool, payload, result document, error and times |
| TaskService.TaskLookupOwnership | app/services/task_service.py:14-22 | the owner sees the task and every other user gets `None` |
| TaskService.CreatedTaskReadBack | app/services/task_service.py:14-23 | the owner reads back exactly the task the service returned; any other user gets `None` |
| EndToEnd.ScheduledJobHasDocs | app/services/notebook_service.py:34-64 | the scheduled job finds both of its documents |
| EndToEnd.SubmittedTopicCompletes | app/background/notebook_tasks.py:27-111 | when nothing raises, the corrected lookups (`TaskService.GetTaskById`, `NotebookService.GetNotebookById`) show the submitter a COMPLETED task pointing at a COMPLETED notebook with the topic, the text, the requests and the assembled content, and no error; the lookups as written raise on these records instead (`TaskService.CreatedTaskUnreadableAsWritten`, `NotebookService.CreatedNotebookUnreadableAsWritten`) |

## Left out

- The store's `get` never raises in this model. Only `set` and `update` calls can fail, through the fault oracle.
- Firestore client set-up, HTTP routing, the authentication stub, settings and the User model are not part of this model. The lookups take the user id as an input. The endpoints turn an exception from the service into status 500; that is outside this model too.
- `asyncio` scheduling and sleeps: `BackgroundTasks` is a queue of job descriptors, and when the queued job runs is not modelled.
- `print` and `traceback` logging are not modelled.
- `NotebookService.DuplicateKeywordError`: the TypeError text follows CPython's format, which names the class with its module; the exact wording varies between Python versions.
- `datetime.utcnow` is a clock `nat -> int` read at the ordinal of the store call. `uuid4` and the default-factory times of a new record are inputs (`Generated`). Because of that the model does not show that every new record has a fresh id.
- `model_dump` serialisation is not modelled. A stored record is the same value as the Python model, so enum values and strings are not told apart.
- The language-model text service is a port, and the generated text is an arbitrary input. Its fixed template is not modelled.
- An exception's `str(e)` is the message the port or the store returns.
- `random.random() < 0.1` is a boolean input (`drawBelowThreshold`); in `MockPorts` it is a draw per placeholder.
- Lower-casing is ASCII only.
- Python's regex engine is not modelled. The scanner `Markers` stands in for `re.finditer(r"image - \[(.*?)\]", ...)`.
- `MockPorts`: the port for `validate_image` receives the scraped url, and the validator's sentinel test is the one above. Neither mock service ever raises.
- An empty topic is accepted, as the code does. Rejecting it would be natural, but nothing in the code checks it.
- `app/models/notebook.py:7` and `app/models/task.py:7` use `enum` without importing it. `app/services/notebook_service.py:75` uses `Optional` without importing it. Module loading is not modelled, so these are noted only.
- One would expect a status never to move backwards, but the code does not ensure it, so no monotonicity is claimed. `PipelineProperties.CompletedNotebookCanEndFailed` shows a notebook going from COMPLETED to FAILED.

## Findings

| source | as written | input that shows it | evidently intended | confidence | as-written member | corrected member |
|---|---|---|---|---|---|---|
| app/services/notebook_service.py:80 | `Notebook(**doc.to_dict(), notebook_id=doc.id)`; the stored dict came from `model_dump`, so it already holds `notebook_id` | any notebook created by `create_notebook_and_task`, then read with its own id and user: the call gets `notebook_id` twice and raises a TypeError | return the stored notebook with the document id | high (not executed) | NotebookService.CreatedNotebookUnreadableAsWritten | NotebookService.CreatedNotebookReadBack |
| app/services/task_service.py:18 | `Task(**task_data, task_id=doc.id)`; the stored dict already holds `task_id` | a task created by `create_notebook_and_task`, read by its owner: the call gets `task_id` twice and raises a TypeError | return the stored task with the document id to its owner | high (not executed) | TaskService.CreatedTaskUnreadableAsWritten | TaskService.CreatedTaskReadBack |
