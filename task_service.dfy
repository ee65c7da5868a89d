/** The task service: reading a task back for the user who owns it. */
module TaskService {
  import opened Wrappers
  import opened TaskModel
  import opened DocumentStore
  import NotebookService

  /** `get_task_by_id` as written: a task owned by the caller goes through
      `Task(**task_data, task_id=doc.id)`. The stored dict was produced by
      `model_dump`, so it already holds "task_id", and that call raises a
      TypeError. Another user's task, or no task, gives `None`. */
  function GetTaskByIdAsWritten(db: Db, taskId: string, userId: string): (r: Result<Option<Task>, string>)
    ensures r.Err? <==> taskId in db.tasks && db.tasks[taskId].userId == userId
    ensures r.Ok? ==> r.value.None?
  {
    if taskId in db.tasks && db.tasks[taskId].userId == userId
    then Err(NotebookService.DuplicateKeywordError("app.models.task.Task", "task_id"))
    else Ok(None)
  }

  /** `get_task_by_id` as intended: the stored task, carrying the document
      id, when it exists and belongs to the caller; `None` otherwise, so that
      another user's task looks the same as a missing one. */
  function GetTaskById(db: Db, taskId: string, userId: string): (r: Option<Task>)
    ensures r.Some? <==> taskId in db.tasks && db.tasks[taskId].userId == userId
    ensures r.Some? ==> r.value.taskId == taskId && r.value.userId == userId
  {
    if taskId in db.tasks && db.tasks[taskId].userId == userId
    then Some(db.tasks[taskId].(taskId := taskId))
    else None
  }

  /** Apart from the id it is read under, the task returned is the stored one. */
  lemma TaskLookupReturnsStored(db: Db, taskId: string, userId: string)
    requires GetTaskById(db, taskId, userId).Some?
    ensures var t := GetTaskById(db, taskId, userId).value;
      var s := db.tasks[taskId];
      && t.status == s.status && t.toolType == s.toolType && t.inputPayload == s.inputPayload
      && t.resultDocumentId == s.resultDocumentId && t.errorMessage == s.errorMessage
      && t.createdAt == s.createdAt && t.updatedAt == s.updatedAt
  {
  }

  /** A task is shown to its owner and to nobody else. */
  lemma TaskLookupOwnership(db: Db, taskId: string, owner: string, other: string)
    requires taskId in db.tasks && db.tasks[taskId].userId == owner && other != owner
    ensures GetTaskById(db, taskId, other).None?
    ensures GetTaskById(db, taskId, owner).Some?
  {
  }

  /** As written, the owner cannot read back a task the service has just
      created: the lookup raises. */
  lemma CreatedTaskUnreadableAsWritten(db: Db, fault: Faults, topic: string, userId: string, gen: NotebookService.Generated)
    requires NotebookService.Submit(db, fault, topic, userId, gen).result.Ok?
    ensures GetTaskByIdAsWritten(NotebookService.Submit(db, fault, topic, userId, gen).db, gen.taskId, userId)
         == Err(NotebookService.DuplicateKeywordError("app.models.task.Task", "task_id"))
  {
    NotebookService.SubmitCreatesPendingRecords(db, fault, topic, userId, gen);
  }

  /** As intended, the owner reads back exactly the task the service
      returned, and any other user sees nothing. */
  lemma CreatedTaskReadBack(db: Db, fault: Faults, topic: string, userId: string, gen: NotebookService.Generated, other: string)
    requires NotebookService.Submit(db, fault, topic, userId, gen).result.Ok? && other != userId
    ensures var s := NotebookService.Submit(db, fault, topic, userId, gen);
      && GetTaskById(s.db, gen.taskId, userId) == Some(s.result.value.1)
      && GetTaskById(s.db, gen.taskId, other).None?
  {
    NotebookService.SubmitCreatesPendingRecords(db, fault, topic, userId, gen);
  }
}
