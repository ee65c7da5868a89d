/** The document store as the core uses it: `tasks/{task_id}` and
    `users/{user_id}/notebooks/{notebook_id}`, each with `set` (replace),
    `update` (merge the given fields; raises when the document is absent)
    and `get`. Any call may raise; which ones do is an oracle indexed by the
    call's ordinal number. */
module DocumentStore {
  import opened Wrappers
  import opened Timestamps
  import opened NotebookModel
  import opened TaskModel

  /** The path `users/{userId}/notebooks/{notebookId}`. */
  datatype NotebookKey = NotebookKey(userId: string, notebookId: string)

  /** One successful store call, as it appears in the write log. */
  datatype Write =
    | SetTask(taskId: string, task: Task)
    | SetNotebook(key: NotebookKey, notebook: Notebook)
    | UpdateTask(taskId: string, taskUpdate: TaskUpdate)
    | UpdateNotebook(key: NotebookKey, notebookUpdate: NotebookUpdate)

  /** The store's whole state: both collections, the log of writes that
      took effect, and how many calls have been made. */
  datatype Db = Db(
    tasks: map<string, Task>,
    notebooks: map<NotebookKey, Notebook>,
    log: seq<Write>,
    calls: nat)

  /** The state after one call and the message of the exception it raised. */
  datatype Outcome = Outcome(db: Db, err: Option<string>)

  /** `Some(m)` at index n: the n-th store call raises with message m. */
  type Faults = nat -> Option<string>

  /** What the store raises when `update` targets a missing document. */
  const NotFoundMessage := "404 No document to update"

  /** Merging an update into a notebook: present fields overwrite. */
  function ApplyNotebookUpdate(nb: Notebook, u: NotebookUpdate): (r: Notebook)
    ensures r.notebookId == nb.notebookId && r.userId == nb.userId && r.createdAt == nb.createdAt
    ensures r.updatedAt == u.updatedAt
  {
    nb.(topicInput := u.topicInput.GetOr(nb.topicInput),
        status := u.status.GetOr(nb.status),
        llmGeneratedText := if u.llmGeneratedText.Some? then u.llmGeneratedText else nb.llmGeneratedText,
        imageRequests := u.imageRequests.GetOr(nb.imageRequests),
        finalContent := if u.finalContent.Some? then u.finalContent else nb.finalContent,
        errorMessage := if u.errorMessage.Some? then u.errorMessage else nb.errorMessage,
        updatedAt := u.updatedAt)
  }

  /** Merging an update into a task: present fields overwrite. */
  function ApplyTaskUpdate(t: Task, u: TaskUpdate): (r: Task)
    ensures r.taskId == t.taskId && r.userId == t.userId && r.toolType == t.toolType
    ensures r.inputPayload == t.inputPayload && r.createdAt == t.createdAt
    ensures r.updatedAt == u.updatedAt
  {
    t.(status := u.status.GetOr(t.status),
       resultDocumentId := if u.resultDocumentId.Some? then u.resultDocumentId else t.resultDocumentId,
       errorMessage := if u.errorMessage.Some? then u.errorMessage else t.errorMessage,
       updatedAt := u.updatedAt)
  }

  /** Each field a notebook update holds overwrites; each absent field is kept. */
  lemma NotebookUpdateMerges(nb: Notebook, u: NotebookUpdate)
    ensures var r := ApplyNotebookUpdate(nb, u);
      && r.topicInput == u.topicInput.GetOr(nb.topicInput)
      && r.status == u.status.GetOr(nb.status)
      && r.imageRequests == u.imageRequests.GetOr(nb.imageRequests)
      && (u.llmGeneratedText.Some? ==> r.llmGeneratedText == u.llmGeneratedText)
      && (u.llmGeneratedText.None? ==> r.llmGeneratedText == nb.llmGeneratedText)
      && (u.finalContent.Some? ==> r.finalContent == u.finalContent)
      && (u.finalContent.None? ==> r.finalContent == nb.finalContent)
      && (u.errorMessage.Some? ==> r.errorMessage == u.errorMessage)
      && (u.errorMessage.None? ==> r.errorMessage == nb.errorMessage)
  {
  }

  /** Each field a task update holds overwrites; each absent field is kept. */
  lemma TaskUpdateMerges(t: Task, u: TaskUpdate)
    ensures var r := ApplyTaskUpdate(t, u);
      && r.status == u.status.GetOr(t.status)
      && (u.resultDocumentId.Some? ==> r.resultDocumentId == u.resultDocumentId)
      && (u.resultDocumentId.None? ==> r.resultDocumentId == t.resultDocumentId)
      && (u.errorMessage.Some? ==> r.errorMessage == u.errorMessage)
      && (u.errorMessage.None? ==> r.errorMessage == t.errorMessage)
  {
  }

  /** An update with no field set only moves the update time. */
  lemma EmptyNotebookUpdateKeeps(nb: Notebook, at: Time)
    ensures ApplyNotebookUpdate(nb, EmptyNotebookUpdate(at)) == nb.(updatedAt := at)
  {
  }

  lemma EmptyTaskUpdateKeeps(t: Task, at: Time)
    ensures ApplyTaskUpdate(t, EmptyTaskUpdate(at)) == t.(updatedAt := at)
  {
  }

  /** An `update` needs its document to exist; a `set` does not. */
  predicate TargetExists(db: Db, w: Write) {
    match w
    case UpdateTask(id, _) => id in db.tasks
    case UpdateNotebook(key, _) => key in db.notebooks
    case _ => true
  }

  /** One store call. */
  function Perform(db: Db, fault: Faults, w: Write): (o: Outcome)
    ensures o.db.calls == db.calls + 1
    ensures o.err.None? <==> fault(db.calls).None? && TargetExists(db, w)
    ensures o.err.Some? ==> o.db == db.(calls := db.calls + 1)
    ensures o.err.None? ==> o.db.log == db.log + [w]
    ensures db.tasks.Keys <= o.db.tasks.Keys && db.notebooks.Keys <= o.db.notebooks.Keys
  {
    var next := db.(calls := db.calls + 1);
    if fault(db.calls).Some? then Outcome(next, fault(db.calls))
    else match w
      case SetTask(id, t) =>
        Outcome(next.(tasks := db.tasks[id := t], log := db.log + [w]), None)
      case SetNotebook(key, nb) =>
        Outcome(next.(notebooks := db.notebooks[key := nb], log := db.log + [w]), None)
      case UpdateTask(id, u) =>
        if id in db.tasks
        then Outcome(next.(tasks := db.tasks[id := ApplyTaskUpdate(db.tasks[id], u)], log := db.log + [w]), None)
        else Outcome(next, Some(NotFoundMessage))
      case UpdateNotebook(key, u) =>
        if key in db.notebooks
        then Outcome(next.(notebooks := db.notebooks[key := ApplyNotebookUpdate(db.notebooks[key], u)],
                           log := db.log + [w]), None)
        else Outcome(next, Some(NotFoundMessage))
  }

  /** The store client: its collections change in place with every call. */
  class Store {
    var tasks: map<string, Task>
    var notebooks: map<NotebookKey, Notebook>
    var log: seq<Write>
    var calls: nat
    const fault: Faults

    function State(): Db
      reads this
    {
      Db(tasks, notebooks, log, calls)
    }

    constructor (fault: Faults, tasks: map<string, Task>, notebooks: map<NotebookKey, Notebook>)
      ensures State() == Db(tasks, notebooks, [], 0) && this.fault == fault
    {
      this.tasks, this.notebooks, this.log, this.calls := tasks, notebooks, [], 0;
      this.fault := fault;
    }

    /** `db.collection("tasks").document(taskId).set(task)` */
    method SetTask(taskId: string, task: Task) returns (err: Option<string>)
      modifies this
      ensures Outcome(State(), err) == Perform(old(State()), fault, Write.SetTask(taskId, task))
    {
      err := fault(calls);
      calls := calls + 1;
      if err.None? {
        tasks := tasks[taskId := task];
        log := log + [Write.SetTask(taskId, task)];
      }
    }

    /** `db.collection("users").document(u).collection("notebooks").document(n).set(nb)` */
    method SetNotebook(key: NotebookKey, notebook: Notebook) returns (err: Option<string>)
      modifies this
      ensures Outcome(State(), err) == Perform(old(State()), fault, Write.SetNotebook(key, notebook))
    {
      err := fault(calls);
      calls := calls + 1;
      if err.None? {
        notebooks := notebooks[key := notebook];
        log := log + [Write.SetNotebook(key, notebook)];
      }
    }

    /** `db.collection("tasks").document(taskId).update(fields)` */
    method UpdateTask(taskId: string, u: TaskUpdate) returns (err: Option<string>)
      modifies this
      ensures Outcome(State(), err) == Perform(old(State()), fault, Write.UpdateTask(taskId, u))
    {
      err := fault(calls);
      calls := calls + 1;
      if err.None? {
        if taskId in tasks {
          tasks := tasks[taskId := ApplyTaskUpdate(tasks[taskId], u)];
          log := log + [Write.UpdateTask(taskId, u)];
        } else {
          err := Some(NotFoundMessage);
        }
      }
    }

    /** `...document(notebookId).update(fields)` */
    method UpdateNotebook(key: NotebookKey, u: NotebookUpdate) returns (err: Option<string>)
      modifies this
      ensures Outcome(State(), err) == Perform(old(State()), fault, Write.UpdateNotebook(key, u))
    {
      err := fault(calls);
      calls := calls + 1;
      if err.None? {
        if key in notebooks {
          notebooks := notebooks[key := ApplyNotebookUpdate(notebooks[key], u)];
          log := log + [Write.UpdateNotebook(key, u)];
        } else {
          err := Some(NotFoundMessage);
        }
      }
    }
  }
}
