/** A submission followed by its background job, seen through the lookups. */
module EndToEnd {
  import opened Wrappers
  import opened Timestamps
  import opened NotebookModel
  import opened TaskModel
  import opened DocumentStore
  import opened Placeholders
  import opened NotebookTasks
  import opened PipelineProperties
  import NotebookService
  import TaskService

  /** The job a successful submission schedules finds both of its documents. */
  lemma ScheduledJobHasDocs(db: Db, fault: Faults, topic: string, userId: string, gen: NotebookService.Generated)
    requires NotebookService.Submit(db, fault, topic, userId, gen).result.Ok?
    ensures var s := NotebookService.Submit(db, fault, topic, userId, gen);
      && |s.scheduled| == 1 && HasDocs(s.db, s.scheduled[0])
  {
    NotebookService.SubmitCreatesPendingRecords(db, fault, topic, userId, gen);
  }

  /** When nothing raises, the owner who submitted a topic ends up reading a
      COMPLETED task that points at a COMPLETED notebook holding the
      generated text and the assembled content for that topic. */
  lemma SubmittedTopicCompletes(db: Db, fault: Faults, clock: Clock, ports: Ports,
                                topic: string, userId: string, gen: NotebookService.Generated, text: string)
    requires NotebookService.Submit(db, fault, topic, userId, gen).result.Ok?
    requires ports.generateText(topic) == Ok(text)
    requires Quiet(fault, db.calls + 2, |StartActions() + WorkActions(ports, text)|)
    ensures var s := NotebookService.Submit(db, fault, topic, userId, gen);
      var r := Run(s.db, fault, clock, s.scheduled[0], ports);
      var t := TaskService.GetTaskById(r, gen.taskId, userId);
      var nb := NotebookService.GetNotebookById(r, gen.notebookId, userId);
      && t.Some? && t.value.status == TaskStatus.Completed
      && t.value.resultDocumentId == Some(gen.notebookId)
      && t.value.errorMessage.None?
      && nb.Some? && nb.value.status == NotebookStatus.Completed
      && nb.value.topicInput == topic
      && nb.value.llmGeneratedText == Some(text)
      && nb.value.finalContent == Some(Assemble(text, Requests(ports, text)))
      && nb.value.imageRequests == (if Markers(text) == [] then [] else Requests(ports, text))
      && nb.value.errorMessage.None?
  {
    var s := NotebookService.Submit(db, fault, topic, userId, gen);
    NotebookService.SubmitCreatesPendingRecords(db, fault, topic, userId, gen);
    var job := s.scheduled[0];
    assert job == Job(gen.taskId, userId, gen.notebookId, topic);
    RunCompletes(s.db, fault, clock, job, ports, text);
  }
}
