/** The notebook service: creating the PENDING notebook and task and
    scheduling the pipeline, and reading a notebook back. */
module NotebookService {
  import opened Wrappers
  import opened Timestamps
  import opened NotebookModel
  import opened TaskModel
  import opened DocumentStore
  import opened NotebookTasks

  /** The values the models' default factories produce: two gen uuids and
      one clock reading per timestamp field. */
  datatype Generated = Generated(
    notebookId: string,
    taskId: string,
    notebookCreatedAt: Time,
    notebookUpdatedAt: Time,
    taskCreatedAt: Time,
    taskUpdatedAt: Time)

  /** The work queue the request hands the pipeline to; it runs after the
      response is sent. */
  class BackgroundTasks {
    var jobs: seq<Job>

    constructor ()
      ensures jobs == []
    {
      jobs := [];
    }

    /** `background_tasks.add_task(generate_notebook_content_task, ...)` */
    method AddTask(job: Job)
      modifies this
      ensures jobs == old(jobs) + [job]
    {
      jobs := jobs + [job];
    }
  }

  /** The notebook the service creates: PENDING, for the topic and user. */
  function InitialNotebook(topic: string, userId: string, gen: Generated): Notebook {
    NewNotebook(topic, userId, NotebookStatus.Pending, gen.notebookId,
                gen.notebookCreatedAt, gen.notebookUpdatedAt)
  }

  /** The task payload: the topic and the id of the notebook it fills in. */
  function TaskPayload(topic: string, notebookId: string): Payload {
    map["topic" := topic, "notebook_id" := notebookId]
  }

  /** The task the service creates: PENDING, pointing at the notebook. */
  function InitialTask(topic: string, userId: string, gen: Generated): Task {
    NewTask(userId, ToolType.NotebookGenerator, TaskPayload(topic, gen.notebookId), TaskStatus.Pending,
            Some(gen.notebookId), gen.taskId, gen.taskCreatedAt, gen.taskUpdatedAt)
  }

  /** The arguments the pipeline is scheduled with. */
  function JobFor(topic: string, userId: string, gen: Generated): Job {
    Job(gen.taskId, userId, gen.notebookId, topic)
  }

  /** What a submission leaves: the store, the jobs it scheduled and what it
      returns (an exception's message, or the two records). */
  datatype Submission = Submission(db: Db, scheduled: seq<Job>, result: Result<(Notebook, Task), string>)

  /** `create_notebook_and_task`: set the notebook, set the task, schedule
      the pipeline; an exception from either `set` propagates to the caller
      and stops everything after it. */
  function Submit(db: Db, fault: Faults, topic: string, userId: string, gen: Generated): Submission {
    var nb := InitialNotebook(topic, userId, gen);
    var t := InitialTask(topic, userId, gen);
    var n := Perform(db, fault, Write.SetNotebook(NotebookKey(userId, gen.notebookId), nb));
    if n.err.Some? then Submission(n.db, [], Err(n.err.value))
    else
      var o := Perform(n.db, fault, Write.SetTask(gen.taskId, t));
      if o.err.Some? then Submission(o.db, [], Err(o.err.value))
      else Submission(o.db, [JobFor(topic, userId, gen)], Ok((nb, t)))
  }

  /** The service as the source writes it, on the store and the queue. */
  method CreateNotebookAndTask(store: Store, backgroundTasks: BackgroundTasks,
                               topic: string, userId: string, gen: Generated)
    returns (result: Result<(Notebook, Task), string>)
    modifies store, backgroundTasks
    ensures var s := Submit(old(store.State()), store.fault, topic, userId, gen);
      && store.State() == s.db
      && backgroundTasks.jobs == old(backgroundTasks.jobs) + s.scheduled
      && result == s.result
  {
    var notebookToCreate := InitialNotebook(topic, userId, gen);
    var err := store.SetNotebook(NotebookKey(userId, notebookToCreate.notebookId), notebookToCreate);
    if err.Some? {
      return Err(err.value);
    }
    var taskToCreate := InitialTask(topic, userId, gen);
    err := store.SetTask(taskToCreate.taskId, taskToCreate);
    if err.Some? {
      return Err(err.value);
    }
    backgroundTasks.AddTask(Job(taskToCreate.taskId, userId, notebookToCreate.notebookId, topic));
    result := Ok((notebookToCreate, taskToCreate));
  }

  /** The submission succeeds exactly when neither `set` raises; only then is
      the pipeline scheduled, exactly once. */
  lemma SubmitOutcome(db: Db, fault: Faults, topic: string, userId: string, gen: Generated)
    ensures var s := Submit(db, fault, topic, userId, gen);
      && (s.result.Ok? <==> fault(db.calls).None? && fault(db.calls + 1).None?)
      && (s.result.Ok? ==> s.scheduled == [JobFor(topic, userId, gen)])
      && (s.result.Err? ==> s.scheduled == [])
  {
  }

  /** A successful submission stores a PENDING notebook and a PENDING task
      that points at it through its payload and its result document, returns
      exactly the stored records, and leaves both documents in place for the
      scheduled job. */
  lemma SubmitCreatesPendingRecords(db: Db, fault: Faults, topic: string, userId: string, gen: Generated)
    requires Submit(db, fault, topic, userId, gen).result.Ok?
    ensures var s := Submit(db, fault, topic, userId, gen);
      var (nb, t) := s.result.value;
      var key := NotebookKey(userId, gen.notebookId);
      && key in s.db.notebooks && s.db.notebooks[key] == nb
      && gen.taskId in s.db.tasks && s.db.tasks[gen.taskId] == t
      && nb.status == NotebookStatus.Pending && t.status == TaskStatus.Pending
      && nb.topicInput == topic && nb.userId == userId && t.userId == userId
      && nb.notebookId == gen.notebookId && t.taskId == gen.taskId
      && t.toolType == ToolType.NotebookGenerator
      && t.inputPayload == map["topic" := topic, "notebook_id" := nb.notebookId]
      && t.resultDocumentId == Some(nb.notebookId)
      && nb.llmGeneratedText.None? && nb.imageRequests == [] && nb.finalContent.None?
      && nb.errorMessage.None? && t.errorMessage.None?
      && s.db.log == db.log + [Write.SetNotebook(key, nb), Write.SetTask(t.taskId, t)]
      && s.scheduled == [Job(t.taskId, userId, nb.notebookId, topic)]
  {
  }

  /** When the task write raises, the notebook has already been stored:
      it stays PENDING with no task and no job pointing at it. */
  lemma SubmitTaskWriteFails(db: Db, fault: Faults, topic: string, userId: string, gen: Generated)
    requires fault(db.calls).None? && fault(db.calls + 1).Some?
    ensures var s := Submit(db, fault, topic, userId, gen);
      && s.result == Err(fault(db.calls + 1).value)
      && s.scheduled == []
      && s.db.tasks == db.tasks
      && s.db.notebooks == db.notebooks[NotebookKey(userId, gen.notebookId) := InitialNotebook(topic, userId, gen)]
  {
  }

  /** When the notebook write raises, nothing is stored and nothing scheduled. */
  lemma SubmitNotebookWriteFails(db: Db, fault: Faults, topic: string, userId: string, gen: Generated)
    requires fault(db.calls).Some?
    ensures var s := Submit(db, fault, topic, userId, gen);
      && s.result == Err(fault(db.calls).value)
      && s.scheduled == [] && s.db == db.(calls := db.calls + 1)
  {
  }

  // ---------------------------------------------------------------------------
  // Reading a notebook back.

  /** The message of the TypeError Python raises when a call passes the same
      keyword twice; the callable is named with its module, as CPython
      names a class. */
  function DuplicateKeywordError(model: string, field: string): string {
    model + "() got multiple values for keyword argument '" + field + "'"
  }

  /** `get_notebook_by_id` as written: `Notebook(**doc.to_dict(),
      notebook_id=doc.id)`. The stored dict was produced by `model_dump`, so
      it already holds "notebook_id", and the call raises a TypeError for
      every existing document. */
  function GetNotebookByIdAsWritten(db: Db, notebookId: string, userId: string): (r: Result<Option<Notebook>, string>)
    ensures r.Err? <==> NotebookKey(userId, notebookId) in db.notebooks
    ensures r.Ok? ==> r.value.None?
  {
    if NotebookKey(userId, notebookId) in db.notebooks
    then Err(DuplicateKeywordError("app.models.notebook.Notebook", "notebook_id"))
    else Ok(None)
  }

  /** `get_notebook_by_id` as intended: the stored notebook, carrying the
      document id, or `None` when there is no such document under the user. */
  function GetNotebookById(db: Db, notebookId: string, userId: string): (r: Option<Notebook>)
    ensures r.Some? <==> NotebookKey(userId, notebookId) in db.notebooks
    ensures r.Some? ==> r.value.notebookId == notebookId
  {
    var key := NotebookKey(userId, notebookId);
    if key in db.notebooks then Some(db.notebooks[key].(notebookId := notebookId)) else None
  }

  /** As written, reading back a notebook the service has just created
      raises instead of returning it. */
  lemma CreatedNotebookUnreadableAsWritten(db: Db, fault: Faults, topic: string, userId: string, gen: Generated)
    requires Submit(db, fault, topic, userId, gen).result.Ok?
    ensures GetNotebookByIdAsWritten(Submit(db, fault, topic, userId, gen).db, gen.notebookId, userId)
         == Err(DuplicateKeywordError("app.models.notebook.Notebook", "notebook_id"))
  {
    SubmitCreatesPendingRecords(db, fault, topic, userId, gen);
  }

  /** As intended, reading back a notebook the service has just created
      returns exactly the record the service returned. */
  lemma CreatedNotebookReadBack(db: Db, fault: Faults, topic: string, userId: string, gen: Generated)
    requires Submit(db, fault, topic, userId, gen).result.Ok?
    ensures GetNotebookById(Submit(db, fault, topic, userId, gen).db, gen.notebookId, userId)
         == Some(Submit(db, fault, topic, userId, gen).result.value.0)
  {
    SubmitCreatesPendingRecords(db, fault, topic, userId, gen);
  }

  /** Apart from the id it is read under, the notebook returned is the
      stored one, field for field. */
  lemma NotebookLookupReturnsStored(db: Db, notebookId: string, userId: string)
    requires GetNotebookById(db, notebookId, userId).Some?
    ensures var n := GetNotebookById(db, notebookId, userId).value;
      var s := db.notebooks[NotebookKey(userId, notebookId)];
      && n.topicInput == s.topicInput && n.userId == s.userId && n.status == s.status
      && n.llmGeneratedText == s.llmGeneratedText && n.imageRequests == s.imageRequests
      && n.finalContent == s.finalContent && n.errorMessage == s.errorMessage
      && n.createdAt == s.createdAt && n.updatedAt == s.updatedAt
  {
  }

  /** Notebooks live under their owner: storing a notebook for one user does
      not change what another user's lookup of the same id returns. */
  lemma NotebookLookupIsPerUser(db: Db, notebookId: string, userId: string, otherUser: string, nb: Notebook)
    requires userId != otherUser
    ensures GetNotebookById(db.(notebooks := db.notebooks[NotebookKey(userId, notebookId) := nb]), notebookId, otherUser)
         == GetNotebookById(db, notebookId, otherUser)
  {
  }
}
