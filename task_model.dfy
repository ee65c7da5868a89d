/** The task records: status and tool-type enumerations, the stored task
    with its defaults, and the partial update. */
module TaskModel {
  import opened Wrappers
  import opened Timestamps

  datatype TaskStatus = Pending | Processing | Completed | Failed

  function TaskStatusValue(s: TaskStatus): string {
    match s
    case Pending => "PENDING"
    case Processing => "PROCESSING"
    case Completed => "COMPLETED"
    case Failed => "FAILED"
  }

  function ParseTaskStatus(v: string): (r: Option<TaskStatus>)
    ensures r.Some? ==> TaskStatusValue(r.value) == v
    ensures r.None? ==> forall s :: TaskStatusValue(s) != v
  {
    if v == "PENDING" then Some(TaskStatus.Pending)
    else if v == "PROCESSING" then Some(TaskStatus.Processing)
    else if v == "COMPLETED" then Some(TaskStatus.Completed)
    else if v == "FAILED" then Some(TaskStatus.Failed)
    else None
  }

  /** Each task status reads back as itself, so the four names are distinct. */
  lemma TaskStatusRoundTrip(s: TaskStatus)
    ensures ParseTaskStatus(TaskStatusValue(s)) == Some(s)
  {
  }

  datatype ToolType = NotebookGenerator | StoryBookGenerator

  function ToolTypeValue(t: ToolType): string {
    match t
    case NotebookGenerator => "notebook_generator"
    case StoryBookGenerator => "story_book_generator"
  }

  function ParseToolType(v: string): (r: Option<ToolType>)
    ensures r.Some? ==> ToolTypeValue(r.value) == v
    ensures r.None? ==> forall t :: ToolTypeValue(t) != v
  {
    if v == "notebook_generator" then Some(NotebookGenerator)
    else if v == "story_book_generator" then Some(StoryBookGenerator)
    else None
  }

  /** Each tool type reads back as itself. */
  lemma ToolTypeRoundTrip(t: ToolType)
    ensures ParseToolType(ToolTypeValue(t)) == Some(t)
  {
  }

  /** The input payload is a string-keyed map (`Dict[str, Any]`). */
  type Payload = map<string, string>

  /** A task document as stored under `tasks/{task_id}`. */
  datatype Task = Task(
    taskId: string,
    userId: string,
    toolType: ToolType,
    inputPayload: Payload,
    status: TaskStatus,
    resultDocumentId: Option<string>,
    errorMessage: Option<string>,
    createdAt: Time,
    updatedAt: Time)

  /** `TaskInDBBase(user_id=..., tool_type=..., input_payload=..., status=...,
      result_document_id=...)`; the fresh id and clock readings come from
      the default factories, and `error_message` defaults to absent. */
  function NewTask(userId: string, toolType: ToolType, inputPayload: Payload, status: TaskStatus,
                   resultDocumentId: Option<string>,
                   taskId: string, createdAt: Time, updatedAt: Time): (t: Task)
    ensures t.taskId == taskId && t.userId == userId && t.toolType == toolType
    ensures t.inputPayload == inputPayload && t.status == status
    ensures t.resultDocumentId == resultDocumentId && t.errorMessage.None?
    ensures t.createdAt == createdAt && t.updatedAt == updatedAt
  {
    Task(taskId, userId, toolType, inputPayload, status, resultDocumentId, None, createdAt, updatedAt)
  }

  /** The fields one `update` call writes; `None` means absent. */
  datatype TaskUpdate = TaskUpdate(
    status: Option<TaskStatus>,
    resultDocumentId: Option<string>,
    errorMessage: Option<string>,
    updatedAt: Time)

  /** `TaskUpdate()`: every optional field absent. */
  function EmptyTaskUpdate(updatedAt: Time): (u: TaskUpdate)
    ensures u.status.None? && u.resultDocumentId.None? && u.errorMessage.None?
    ensures u.updatedAt == updatedAt
  {
    TaskUpdate(None, None, None, updatedAt)
  }
}
