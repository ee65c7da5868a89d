/** The background notebook-generation pipeline: status updates, text
    generation, image processing per placeholder, assembly of the final
    content, and the failure handler that marks both records FAILED. */
module NotebookTasks {
  import opened Wrappers
  import opened Timestamps
  import opened Text
  import opened NotebookModel
  import opened TaskModel
  import opened DocumentStore
  import opened Placeholders
  import opened ImageValidator
  import opened ImageScraper

  // ---------------------------------------------------------------------------
  // The AI services the pipeline awaits. Each may raise; `Err(m)` is an
  // exception whose `str()` is m. The index k says which image query (in list
  // order) a scraper or validator call belongs to, so that per-call behaviour
  // such as the validator's random draw can differ between calls.

  datatype Ports = Ports(
    generateText: string -> Result<string, string>,
    scrapeImages: (nat, string) -> Result<seq<string>, string>,
    validateImage: (nat, string, string, string) -> Result<Verdict, string>)

  /** The arguments of `generate_notebook_content_task`. */
  datatype Job = Job(taskId: string, userId: string, notebookId: string, topic: string)

  function KeyOf(job: Job): NotebookKey {
    NotebookKey(job.userId, job.notebookId)
  }

  const NoImagesMessage := "No images found by scraper"
  const NotSuitableMessage := "Image validation failed or not suitable"

  // ---------------------------------------------------------------------------
  // One image query.

  /** What every processed request satisfies: it ended VALIDATED or FAILED,
      it has a validated url exactly when VALIDATED (and then also the
      scraped url it came from), and a reason exactly when FAILED. */
  predicate Settled(r: ImageRequest) {
    && (r.status == ImageRequestStatus.Validated || r.status == ImageRequestStatus.Failed)
    && (r.validatedImageUrl.Some? <==> r.status == ImageRequestStatus.Validated)
    && (r.errorMessage.Some? <==> r.status == ImageRequestStatus.Failed)
    && (r.status == ImageRequestStatus.Validated ==> r.originalUrl.Some?)
  }

  /** The body of the per-query loop: scrape one image, validate it, and
      record the outcome; an exception from either service is caught and
      becomes the request's reason. */
  function ProcessImage(ports: Ports, k: nat, query: string, text: string): (r: ImageRequest)
    ensures r.query == query && Settled(r)
    ensures r.status == ImageRequestStatus.Validated <==> Embeddable(r)
    ensures ports.scrapeImages(k, query).Err? ==>
              r.status == ImageRequestStatus.Failed && r.originalUrl.None?
              && r.errorMessage == Some(ports.scrapeImages(k, query).error)
    ensures ports.scrapeImages(k, query) == Ok([]) ==>
              r.status == ImageRequestStatus.Failed && r.originalUrl.None?
              && r.errorMessage == Some(NoImagesMessage)
    ensures r.originalUrl.Some? ==>
              ports.scrapeImages(k, query).Ok? && |ports.scrapeImages(k, query).value| > 0
              && r.originalUrl.value == ports.scrapeImages(k, query).value[0]
    ensures r.status == ImageRequestStatus.Validated ==>
              var v := ports.validateImage(k, r.originalUrl.value, text, query);
              v.Ok? && v.value.isValid && r.validatedImageUrl == v.value.validatedUrl
    ensures var s := ports.scrapeImages(k, query);
      s.Ok? && |s.value| > 0 ==>
        var v := ports.validateImage(k, s.value[0], text, query);
        && r.originalUrl == Some(s.value[0])
        && (v.Err? ==> r.status == ImageRequestStatus.Failed && r.errorMessage == Some(v.error))
        && (v.Ok? && v.value.isValid && v.value.validatedUrl.Some? && v.value.validatedUrl.value != "" ==>
              r.status == ImageRequestStatus.Validated && r.validatedImageUrl == v.value.validatedUrl
              && r.errorMessage.None?)
        && (v.Ok? && !(v.value.isValid && v.value.validatedUrl.Some? && v.value.validatedUrl.value != "") ==>
              r.status == ImageRequestStatus.Failed && r.validatedImageUrl.None?
              && r.errorMessage == Some(NotSuitableMessage))
  {
    var pending := NewImageRequest(query);
    match ports.scrapeImages(k, query)
    case Err(m) => pending.(status := ImageRequestStatus.Failed, errorMessage := Some(m))
    case Ok(urls) =>
      if urls == [] then pending.(status := ImageRequestStatus.Failed, errorMessage := Some(NoImagesMessage))
      else
        var fetched := pending.(originalUrl := Some(urls[0]), status := ImageRequestStatus.Fetched);
        match ports.validateImage(k, urls[0], text, query)
        case Err(m) => fetched.(status := ImageRequestStatus.Failed, errorMessage := Some(m))
        case Ok(Verdict(isValid, validatedUrl)) =>
          if isValid && validatedUrl.Some? && validatedUrl.value != ""
          then fetched.(validatedImageUrl := validatedUrl, status := ImageRequestStatus.Validated)
          else fetched.(status := ImageRequestStatus.Failed, errorMessage := Some(NotSuitableMessage))
  }

  /** The requests the loop produces, one per query, in order. */
  function ProcessAll(ports: Ports, text: string, queries: seq<string>): (rs: seq<ImageRequest>)
    ensures |rs| == |queries|
    ensures forall i :: 0 <= i < |rs| ==> rs[i].query == queries[i] && Settled(rs[i])
  {
    seq(|queries|, i requires 0 <= i < |queries| => ProcessImage(ports, i, queries[i], text))
  }

  /** The loop body as the source writes it, updating the request in place. */
  method ProcessImageQuery(ports: Ports, k: nat, query: string, text: string)
    returns (request: ImageRequest)
    ensures request == ProcessImage(ports, k, query, text)
  {
    request := NewImageRequest(query);
    var scraped := ports.scrapeImages(k, query);
    if scraped.Err? {
      request := request.(status := ImageRequestStatus.Failed, errorMessage := Some(scraped.error));
      return;
    }
    var scrapedUrls := scraped.value;
    if |scrapedUrls| > 0 {
      request := request.(originalUrl := Some(scrapedUrls[0]));
      request := request.(status := ImageRequestStatus.Fetched);
      var checked := ports.validateImage(k, request.originalUrl.value, text, query);
      if checked.Err? {
        request := request.(status := ImageRequestStatus.Failed, errorMessage := Some(checked.error));
        return;
      }
      var isValid, validatedUrl := checked.value.isValid, checked.value.validatedUrl;
      if isValid && validatedUrl.Some? && validatedUrl.value != "" {
        request := request.(validatedImageUrl := validatedUrl);
        request := request.(status := ImageRequestStatus.Validated);
      } else {
        request := request.(status := ImageRequestStatus.Failed);
        request := request.(errorMessage := Some(NotSuitableMessage));
      }
    } else {
      request := request.(status := ImageRequestStatus.Failed);
      request := request.(errorMessage := Some(NoImagesMessage));
    }
  }

  /** The loop over `image_queries`, appending each processed request. */
  method ProcessImageQueries(ports: Ports, text: string, queries: seq<string>)
    returns (processed: seq<ImageRequest>)
    ensures processed == ProcessAll(ports, text, queries)
  {
    processed := [];
    for i := 0 to |queries|
      invariant processed == ProcessAll(ports, text, queries[..i])
    {
      var request := ProcessImageQuery(ports, i, queries[i], text);
      processed := processed + [request];
    }
    assert queries[..|queries|] == queries;
  }

  // ---------------------------------------------------------------------------
  // The store writes the pipeline makes.

  /** `update_notebook_status`'s fields: the status and `updated_at`, and
      `error_message` only when a non-empty message is given. */
  function NotebookStatusUpdate(status: NotebookStatus, errorMessage: Option<string>, now: Time)
    : (u: NotebookUpdate)
    ensures u.status == Some(status) && u.updatedAt == now
    ensures u.errorMessage.Some? <==> errorMessage.Some? && errorMessage.value != ""
    ensures u.errorMessage.Some? ==> u.errorMessage == errorMessage
    ensures u.topicInput.None? && u.llmGeneratedText.None? && u.imageRequests.None? && u.finalContent.None?
  {
    var u := EmptyNotebookUpdate(now).(status := Some(status));
    if errorMessage.Some? && errorMessage.value != "" then u.(errorMessage := errorMessage) else u
  }

  /** `update_task_status`'s fields, with the same rule for the message. */
  function TaskStatusUpdate(status: TaskStatus, errorMessage: Option<string>, now: Time): (u: TaskUpdate)
    ensures u.status == Some(status) && u.updatedAt == now && u.resultDocumentId.None?
    ensures u.errorMessage.Some? <==> errorMessage.Some? && errorMessage.value != ""
    ensures u.errorMessage.Some? ==> u.errorMessage == errorMessage
  {
    var u := EmptyTaskUpdate(now).(status := Some(status));
    if errorMessage.Some? && errorMessage.value != "" then u.(errorMessage := errorMessage) else u
  }

  /** `update_notebook_status(db, user_id, notebook_id, status, error_message)`;
      the timestamp is the clock reading at the moment of the call. */
  method UpdateNotebookStatus(store: Store, clock: Clock, userId: string, notebookId: string,
                              status: NotebookStatus, errorMessage: Option<string>)
    returns (err: Option<string>)
    modifies store
    ensures Outcome(store.State(), err) ==
            Perform(old(store.State()), store.fault,
                    Write.UpdateNotebook(NotebookKey(userId, notebookId),
                                         NotebookStatusUpdate(status, errorMessage, clock(old(store.calls)))))
  {
    var updateData := NotebookStatusUpdate(status, errorMessage, clock(store.calls));
    err := store.UpdateNotebook(NotebookKey(userId, notebookId), updateData);
  }

  /** `update_task_status(db, task_id, status, error_message)`. */
  method UpdateTaskStatus(store: Store, clock: Clock, taskId: string,
                          status: TaskStatus, errorMessage: Option<string>)
    returns (err: Option<string>)
    modifies store
    ensures Outcome(store.State(), err) ==
            Perform(old(store.State()), store.fault,
                    Write.UpdateTask(taskId, TaskStatusUpdate(status, errorMessage, clock(old(store.calls)))))
  {
    var updateData := TaskStatusUpdate(status, errorMessage, clock(store.calls));
    err := store.UpdateTask(taskId, updateData);
  }

  // ---------------------------------------------------------------------------
  // The pipeline as a list of store writes.

  /** One store call of the pipeline. */
  datatype Action =
    | MarkTask(taskStatus: TaskStatus, taskError: Option<string>)
    | MarkNotebook(notebookStatus: NotebookStatus, notebookError: Option<string>)
    | SaveText(text: string)
    | SaveImageRequests(requests: seq<ImageRequest>)
    | SaveFinalContent(content: string)

  function NotebookUpdateOf(a: Action, now: Time): NotebookUpdate
    requires !a.MarkTask?
  {
    match a
    case MarkNotebook(s, e) => NotebookStatusUpdate(s, e, now)
    case SaveText(t) => EmptyNotebookUpdate(now).(llmGeneratedText := Some(t))
    case SaveImageRequests(rs) => EmptyNotebookUpdate(now).(imageRequests := Some(rs))
    case SaveFinalContent(c) => EmptyNotebookUpdate(now).(finalContent := Some(c))
  }

  /** The store call an action makes at time `now`. */
  function ToWrite(job: Job, a: Action, now: Time): Write {
    if a.MarkTask? then Write.UpdateTask(job.taskId, TaskStatusUpdate(a.taskStatus, a.taskError, now))
    else Write.UpdateNotebook(KeyOf(job), NotebookUpdateOf(a, now))
  }

  /** The actions run in order; the first call that raises ends the run with
      its message, and the later actions never happen. */
  function Exec(db: Db, fault: Faults, clock: Clock, job: Job, actions: seq<Action>): Outcome
    decreases |actions|
  {
    if actions == [] then Outcome(db, None)
    else
      var o := Perform(db, fault, ToWrite(job, actions[0], clock(db.calls)));
      if o.err.Some? then o else Exec(o.db, fault, clock, job, actions[1..])
  }

  /** The two status updates at the top of the `try` block. */
  function StartActions(): seq<Action> {
    [MarkTask(TaskStatus.Processing, None), MarkNotebook(NotebookStatus.ProcessingText, None)]
  }

  /** The image requests the generated text leads to (none without markers). */
  function Requests(ports: Ports, text: string): seq<ImageRequest> {
    ProcessAll(ports, text, Markers(text))
  }

  /** The image phase, entered only when the text has markers. */
  function ImageActions(ports: Ports, text: string): seq<Action> {
    if Markers(text) == [] then []
    else [MarkNotebook(NotebookStatus.ProcessingImages, None), SaveImageRequests(Requests(ports, text))]
  }

  /** The last three writes of the `try` block. */
  function FinishActions(finalContent: string): seq<Action> {
    [SaveFinalContent(finalContent),
     MarkNotebook(NotebookStatus.Completed, None),
     MarkTask(TaskStatus.Completed, None)]
  }

  /** Everything after the text was generated. */
  function WorkActions(ports: Ports, text: string): seq<Action> {
    [SaveText(text)] + ImageActions(ports, text) + FinishActions(Assemble(text, Requests(ports, text)))
  }

  /** The `except` handler's two updates. */
  function FailureActions(message: string): seq<Action> {
    [MarkNotebook(NotebookStatus.Failed, Some(message)), MarkTask(TaskStatus.Failed, Some(message))]
  }

  /** The `try` block: the state it leaves and the exception it raised. */
  function TryBlock(db: Db, fault: Faults, clock: Clock, job: Job, ports: Ports): Outcome {
    var started := Exec(db, fault, clock, job, StartActions());
    if started.err.Some? then started
    else match ports.generateText(job.topic)
      case Err(m) => Outcome(started.db, Some(m))
      case Ok(text) => Exec(started.db, fault, clock, job, WorkActions(ports, text))
  }

  /** `generate_notebook_content_task`: the `try` block, then on an exception
      the handler; an exception inside the handler is caught and dropped. */
  function Run(db: Db, fault: Faults, clock: Clock, job: Job, ports: Ports): Db {
    var tried := TryBlock(db, fault, clock, job, ports);
    if tried.err.None? then tried.db
    else Exec(tried.db, fault, clock, job, FailureActions(tried.err.value)).db
  }

  /** Unfolding `Exec` by one action. */
  lemma ExecCons(db: Db, fault: Faults, clock: Clock, job: Job, actions: seq<Action>)
    requires actions != []
    ensures var o := Perform(db, fault, ToWrite(job, actions[0], clock(db.calls)));
            Exec(db, fault, clock, job, actions) ==
            (if o.err.Some? then o else Exec(o.db, fault, clock, job, actions[1..]))
  {
  }

  /** `Exec` of an empty remainder leaves the outcome of the last call. */
  lemma ExecLast(db: Db, fault: Faults, clock: Clock, job: Job, a: Action)
    ensures Exec(db, fault, clock, job, [a]) == Perform(db, fault, ToWrite(job, a, clock(db.calls)))
  {
    assert [a][1..] == [];
  }

  /** Running two lists is running the first and, if nothing raised, the second. */
  lemma {:induction false} ExecAppend(db: Db, fault: Faults, clock: Clock, job: Job,
                                      xs: seq<Action>, ys: seq<Action>)
    ensures var o := Exec(db, fault, clock, job, xs);
            Exec(db, fault, clock, job, xs + ys) ==
            (if o.err.Some? then o else Exec(o.db, fault, clock, job, ys))
    decreases |xs|
  {
    if xs != [] {
      assert (xs + ys)[0] == xs[0];
      assert (xs + ys)[1..] == xs[1..] + ys;
      var o := Perform(db, fault, ToWrite(job, xs[0], clock(db.calls)));
      if o.err.None? {
        ExecAppend(o.db, fault, clock, job, xs[1..], ys);
      }
    } else {
      assert xs + ys == ys;
    }
  }

  // ---------------------------------------------------------------------------
  // The imperative pipeline, proved to make exactly the calls of `Run`.

  /** The image phase: `PROCESSING_IMAGES`, the per-query loop and the
      `image_requests` write, all skipped when there are no queries. */
  method ProcessImagePhase(store: Store, clock: Clock, ports: Ports, job: Job, text: string,
                           imageQueries: seq<string>)
    returns (err: Option<string>, processed: seq<ImageRequest>)
    requires imageQueries == Markers(text)
    modifies store
    ensures processed == Requests(ports, text)
    ensures Outcome(store.State(), err) == Exec(old(store.State()), store.fault, clock, job, ImageActions(ports, text))
  {
    processed := [];
    err := None;
    if |imageQueries| > 0 {
      ghost var todo := ImageActions(ports, text);
      ExecCons(store.State(), store.fault, clock, job, todo);
      err := UpdateNotebookStatus(store, clock, job.userId, job.notebookId, NotebookStatus.ProcessingImages, None);
      processed := ProcessImageQueries(ports, text, imageQueries);
      if err.Some? { return; }
      ExecLast(store.State(), store.fault, clock, job, todo[1]);
      assert todo[1..] == [todo[1]];
      err := store.UpdateNotebook(KeyOf(job), EmptyNotebookUpdate(clock(store.calls)).(imageRequests := Some(processed)));
    }
  }

  /** The final-content write and the two COMPLETED updates. */
  method FinishPhase(store: Store, clock: Clock, job: Job, finalContent: string)
    returns (err: Option<string>)
    modifies store
    ensures Outcome(store.State(), err) == Exec(old(store.State()), store.fault, clock, job, FinishActions(finalContent))
  {
    ghost var todo := FinishActions(finalContent);
    ExecCons(store.State(), store.fault, clock, job, todo);
    err := store.UpdateNotebook(KeyOf(job), EmptyNotebookUpdate(clock(store.calls)).(finalContent := Some(finalContent)));
    if err.Some? { return; }
    todo := todo[1..];
    ExecCons(store.State(), store.fault, clock, job, todo);
    err := UpdateNotebookStatus(store, clock, job.userId, job.notebookId, NotebookStatus.Completed, None);
    if err.Some? { return; }
    todo := todo[1..];
    ExecLast(store.State(), store.fault, clock, job, todo[0]);
    assert todo == [todo[0]];
    err := UpdateTaskStatus(store, clock, job.taskId, TaskStatus.Completed, None);
  }

  /** The part of the `try` block after the text was generated. */
  method GenerateFromText(store: Store, clock: Clock, ports: Ports, job: Job, text: string)
    returns (err: Option<string>)
    modifies store
    ensures Outcome(store.State(), err) == Exec(old(store.State()), store.fault, clock, job, WorkActions(ports, text))
  {
    ghost var db0 := store.State();
    ghost var tail := ImageActions(ports, text) + FinishActions(Assemble(text, Requests(ports, text)));
    assert WorkActions(ports, text) == [SaveText(text)] + tail;
    ExecAppend(db0, store.fault, clock, job, [SaveText(text)], tail);
    ExecLast(db0, store.fault, clock, job, SaveText(text));
    err := store.UpdateNotebook(KeyOf(job), EmptyNotebookUpdate(clock(store.calls)).(llmGeneratedText := Some(text)));
    if err.Some? { return; }

    ghost var db1 := store.State();
    ExecAppend(db1, store.fault, clock, job, ImageActions(ports, text), FinishActions(Assemble(text, Requests(ports, text))));
    var imageQueries := ExtractQueries(text);
    var processed;
    err, processed := ProcessImagePhase(store, clock, ports, job, text, imageQueries);
    if err.Some? { return; }

    var finalContent := AssembleContent(text, processed);
    err := FinishPhase(store, clock, job, finalContent);
  }

  /** `generate_notebook_content_task(task_id, user_id, notebook_id, topic)`. */
  method GenerateNotebookContent(store: Store, clock: Clock, ports: Ports,
                                 taskId: string, userId: string, notebookId: string, topic: string)
    modifies store
    ensures store.State() == Run(old(store.State()), store.fault, clock, Job(taskId, userId, notebookId, topic), ports)
  {
    var job := Job(taskId, userId, notebookId, topic);
    ghost var db0 := store.State();

    ExecCons(store.State(), store.fault, clock, job, StartActions());
    var err := UpdateTaskStatus(store, clock, taskId, TaskStatus.Processing, None);
    if err.None? {
      ExecLast(store.State(), store.fault, clock, job, StartActions()[1]);
      err := UpdateNotebookStatus(store, clock, userId, notebookId, NotebookStatus.ProcessingText, None);
    }
    assert Outcome(store.State(), err) == Exec(db0, store.fault, clock, job, StartActions());

    if err.None? {
      var generated := ports.generateText(topic);
      if generated.Err? {
        err := Some(generated.error);
      } else {
        err := GenerateFromText(store, clock, ports, job, generated.value);
      }
    }
    assert Outcome(store.State(), err) == TryBlock(db0, store.fault, clock, job, ports);

    if err.Some? {
      var errorMessage := err.value;
      ExecCons(store.State(), store.fault, clock, job, FailureActions(errorMessage));
      var handlerErr := UpdateNotebookStatus(store, clock, userId, notebookId, NotebookStatus.Failed, Some(errorMessage));
      if handlerErr.None? {
        ExecLast(store.State(), store.fault, clock, job, FailureActions(errorMessage)[1]);
        handlerErr := UpdateTaskStatus(store, clock, taskId, TaskStatus.Failed, Some(errorMessage));
      }
    }
  }
}
