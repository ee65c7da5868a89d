/** What a run of the notebook pipeline does to the store: the exact writes
    it makes, the records it leaves, and the order of the status changes,
    on the success path, on each failure path and in the handler. */
module PipelineProperties {
  import opened Wrappers
  import opened Timestamps
  import opened NotebookModel
  import opened TaskModel
  import opened DocumentStore
  import opened Placeholders
  import opened NotebookTasks
  import opened Text
  import opened ImageScraper
  import opened ImageValidator

  // ---------------------------------------------------------------------------
  // A reference for one document: the fields an action list leaves on it,
  // with the clock left out (every `updated_at` is a fresh clock reading).

  function Untimed(nb: Notebook): Notebook {
    nb.(updatedAt := 0)
  }

  function UntimedTask(t: Task): Task {
    t.(updatedAt := 0)
  }

  function NotebookStep(nb: Notebook, a: Action): Notebook {
    if a.MarkTask? then nb else ApplyNotebookUpdate(nb, NotebookUpdateOf(a, 0))
  }

  function TaskStep(t: Task, a: Action): Task {
    if a.MarkTask? then ApplyTaskUpdate(t, TaskStatusUpdate(a.taskStatus, a.taskError, 0)) else t
  }

  /** The notebook after the actions, timestamps aside. */
  function NotebookAfter(nb: Notebook, actions: seq<Action>): Notebook
    decreases |actions|
  {
    if actions == [] then Untimed(nb) else NotebookAfter(NotebookStep(nb, actions[0]), actions[1..])
  }

  /** The task after the actions, timestamps aside. */
  function TaskAfter(t: Task, actions: seq<Action>): Task
    decreases |actions|
  {
    if actions == [] then UntimedTask(t) else TaskAfter(TaskStep(t, actions[0]), actions[1..])
  }

  /** The writes the actions make from call number `from` on. */
  function Stamped(job: Job, clock: Clock, from: nat, actions: seq<Action>): (ws: seq<Write>)
    ensures |ws| == |actions|
    decreases |actions|
  {
    if actions == [] then []
    else [ToWrite(job, actions[0], clock(from))] + Stamped(job, clock, from + 1, actions[1..])
  }

  /** No store call numbered from `from` to `from + count - 1` raises. */
  ghost predicate Quiet(fault: Faults, from: nat, count: nat) {
    forall n :: from <= n < from + count ==> fault(n).None?
  }

  /** Both documents of the job exist. */
  predicate HasDocs(db: Db, job: Job) {
    job.taskId in db.tasks && KeyOf(job) in db.notebooks
  }

  lemma {:induction false} NotebookAfterUntimed(a: Notebook, b: Notebook, actions: seq<Action>)
    requires Untimed(a) == Untimed(b)
    ensures NotebookAfter(a, actions) == NotebookAfter(b, actions)
    decreases |actions|
  {
    if actions != [] {
      NotebookAfterUntimed(NotebookStep(a, actions[0]), NotebookStep(b, actions[0]), actions[1..]);
    }
  }

  lemma {:induction false} TaskAfterUntimed(a: Task, b: Task, actions: seq<Action>)
    requires UntimedTask(a) == UntimedTask(b)
    ensures TaskAfter(a, actions) == TaskAfter(b, actions)
    decreases |actions|
  {
    if actions != [] {
      TaskAfterUntimed(TaskStep(a, actions[0]), TaskStep(b, actions[0]), actions[1..]);
    }
  }

  lemma {:induction false} NotebookAfterAppend(nb: Notebook, xs: seq<Action>, ys: seq<Action>)
    ensures NotebookAfter(nb, xs + ys) == NotebookAfter(NotebookAfter(nb, xs), ys)
    decreases |xs|
  {
    if xs == [] {
      assert xs + ys == ys;
      NotebookAfterUntimed(nb, Untimed(nb), ys);
    } else {
      assert (xs + ys)[0] == xs[0] && (xs + ys)[1..] == xs[1..] + ys;
      NotebookAfterAppend(NotebookStep(nb, xs[0]), xs[1..], ys);
    }
  }

  lemma {:induction false} TaskAfterAppend(t: Task, xs: seq<Action>, ys: seq<Action>)
    ensures TaskAfter(t, xs + ys) == TaskAfter(TaskAfter(t, xs), ys)
    decreases |xs|
  {
    if xs == [] {
      assert xs + ys == ys;
      TaskAfterUntimed(t, UntimedTask(t), ys);
    } else {
      assert (xs + ys)[0] == xs[0] && (xs + ys)[1..] == xs[1..] + ys;
      TaskAfterAppend(TaskStep(t, xs[0]), xs[1..], ys);
    }
  }

  /** One call that does not raise, on a job whose documents exist. */
  lemma PerformQuiet(db: Db, fault: Faults, clock: Clock, job: Job, a: Action)
    requires HasDocs(db, job) && fault(db.calls).None?
    ensures var o := Perform(db, fault, ToWrite(job, a, clock(db.calls)));
      && o.err.None? && HasDocs(o.db, job)
      && o.db.log == db.log + [ToWrite(job, a, clock(db.calls))]
      && Untimed(o.db.notebooks[KeyOf(job)]) == Untimed(NotebookStep(db.notebooks[KeyOf(job)], a))
      && UntimedTask(o.db.tasks[job.taskId]) == UntimedTask(TaskStep(db.tasks[job.taskId], a))
  {
    var key := KeyOf(job);
    var o := Perform(db, fault, ToWrite(job, a, clock(db.calls)));
    if a.MarkTask? {
      assert o.db.tasks[job.taskId]
          == ApplyTaskUpdate(db.tasks[job.taskId], TaskStatusUpdate(a.taskStatus, a.taskError, clock(db.calls)));
    } else {
      assert o.db.notebooks[key] == ApplyNotebookUpdate(db.notebooks[key], NotebookUpdateOf(a, clock(db.calls)));
    }
  }

  /** Without a raising call, running the actions makes exactly their
      writes, in order. */
  lemma {:induction false} ExecQuietLog(db: Db, fault: Faults, clock: Clock, job: Job, actions: seq<Action>)
    requires HasDocs(db, job) && Quiet(fault, db.calls, |actions|)
    ensures var o := Exec(db, fault, clock, job, actions);
      && o.err.None? && HasDocs(o.db, job)
      && o.db.calls == db.calls + |actions|
      && o.db.log == db.log + Stamped(job, clock, db.calls, actions)
    decreases |actions|
  {
    if actions != [] {
      var w := ToWrite(job, actions[0], clock(db.calls));
      assert TargetExists(db, w);
      var o := Perform(db, fault, w);
      assert Quiet(fault, o.db.calls, |actions[1..]|);
      ExecQuietLog(o.db, fault, clock, job, actions[1..]);
      ExecCons(db, fault, clock, job, actions);
      var rest := Stamped(job, clock, db.calls + 1, actions[1..]);
      assert Stamped(job, clock, db.calls, actions) == [w] + rest;
      assert db.log + [w] + rest == db.log + ([w] + rest);
    }
  }

  /** Without a raising call, each document ends as the reference fold says. */
  lemma {:induction false} ExecQuietDocs(db: Db, fault: Faults, clock: Clock, job: Job, actions: seq<Action>)
    requires HasDocs(db, job) && Quiet(fault, db.calls, |actions|)
    ensures var o := Exec(db, fault, clock, job, actions);
      && HasDocs(o.db, job)
      && Untimed(o.db.notebooks[KeyOf(job)]) == NotebookAfter(db.notebooks[KeyOf(job)], actions)
      && UntimedTask(o.db.tasks[job.taskId]) == TaskAfter(db.tasks[job.taskId], actions)
    decreases |actions|
  {
    if actions != [] {
      var a := actions[0];
      var key := KeyOf(job);
      var o := Perform(db, fault, ToWrite(job, a, clock(db.calls)));
      PerformQuiet(db, fault, clock, job, a);
      assert Quiet(fault, o.db.calls, |actions[1..]|);
      ExecQuietDocs(o.db, fault, clock, job, actions[1..]);
      ExecCons(db, fault, clock, job, actions);
      NotebookAfterUntimed(o.db.notebooks[key], NotebookStep(db.notebooks[key], a), actions[1..]);
      TaskAfterUntimed(o.db.tasks[job.taskId], TaskStep(db.tasks[job.taskId], a), actions[1..]);
    }
  }

  // ---------------------------------------------------------------------------
  // Status changes, in the order the store records them.

  datatype StatusEvent = TaskMarked(taskStatus: TaskStatus) | NotebookMarked(notebookStatus: NotebookStatus)

  /** The status change one write records, if any. */
  function WriteEvent(w: Write): seq<StatusEvent> {
    match w
    case SetTask(_, t) => [TaskMarked(t.status)]
    case SetNotebook(_, nb) => [NotebookMarked(nb.status)]
    case UpdateTask(_, u) => if u.status.Some? then [TaskMarked(u.status.value)] else []
    case UpdateNotebook(_, u) => if u.status.Some? then [NotebookMarked(u.status.value)] else []
  }

  /** The status changes a sequence of writes records. */
  function StatusEvents(ws: seq<Write>): seq<StatusEvent>
    decreases |ws|
  {
    if ws == [] then [] else WriteEvent(ws[0]) + StatusEvents(ws[1..])
  }

  /** The status changes an action list asks for. */
  function ActionEvents(actions: seq<Action>): seq<StatusEvent>
    decreases |actions|
  {
    if actions == [] then []
    else
      (match actions[0]
       case MarkTask(s, _) => [TaskMarked(s)]
       case MarkNotebook(s, _) => [NotebookMarked(s)]
       case _ => [])
      + ActionEvents(actions[1..])
  }

  lemma {:induction false} StatusEventsAppend(xs: seq<Write>, ys: seq<Write>)
    ensures StatusEvents(xs + ys) == StatusEvents(xs) + StatusEvents(ys)
    decreases |xs|
  {
    if xs == [] {
      assert xs + ys == ys;
    } else {
      assert (xs + ys)[0] == xs[0] && (xs + ys)[1..] == xs[1..] + ys;
      StatusEventsAppend(xs[1..], ys);
    }
  }

  lemma {:induction false} ActionEventsAppend(xs: seq<Action>, ys: seq<Action>)
    ensures ActionEvents(xs + ys) == ActionEvents(xs) + ActionEvents(ys)
    decreases |xs|
  {
    if xs == [] {
      assert xs + ys == ys;
    } else {
      assert (xs + ys)[0] == xs[0] && (xs + ys)[1..] == xs[1..] + ys;
      ActionEventsAppend(xs[1..], ys);
    }
  }

  /** The writes of an action list record exactly the changes it asks for. */
  lemma {:induction false} StampedEvents(job: Job, clock: Clock, from: nat, actions: seq<Action>)
    ensures StatusEvents(Stamped(job, clock, from, actions)) == ActionEvents(actions)
    decreases |actions|
  {
    if actions != [] {
      var ws := Stamped(job, clock, from, actions);
      assert ws[0] == ToWrite(job, actions[0], clock(from));
      assert ws[1..] == Stamped(job, clock, from + 1, actions[1..]);
      StampedEvents(job, clock, from + 1, actions[1..]);
    }
  }

  /** A write that stores image requests. */
  predicate WritesImages(w: Write) {
    w.UpdateNotebook? && w.notebookUpdate.imageRequests.Some?
  }

  lemma {:induction false} StampedWritesImages(job: Job, clock: Clock, from: nat, actions: seq<Action>)
    ensures forall w :: w in Stamped(job, clock, from, actions) && WritesImages(w) ==>
              exists a :: a in actions && a.SaveImageRequests?
    decreases |actions|
  {
    if actions != [] {
      StampedWritesImages(job, clock, from + 1, actions[1..]);
      forall w | w in Stamped(job, clock, from, actions) && WritesImages(w)
        ensures exists a :: a in actions && a.SaveImageRequests?
      {
        if w == ToWrite(job, actions[0], clock(from)) {
          assert actions[0] in actions;
        } else {
          var a :| a in actions[1..] && a.SaveImageRequests?;
          assert a in actions;
        }
      }
    }
  }

  // ---------------------------------------------------------------------------
  // The reference fold on concrete action lists.

  lemma NotebookAfterCons(nb: Notebook, a: Action, rest: seq<Action>)
    ensures NotebookAfter(nb, [a] + rest) == NotebookAfter(NotebookStep(nb, a), rest)
  {
    assert ([a] + rest)[1..] == rest;
  }

  lemma TaskAfterCons(t: Task, a: Action, rest: seq<Action>)
    ensures TaskAfter(t, [a] + rest) == TaskAfter(TaskStep(t, a), rest)
  {
    assert ([a] + rest)[1..] == rest;
  }

  /** The two PROCESSING updates and the text write. */
  lemma StartedNotebook(nb: Notebook, text: string)
    ensures NotebookAfter(nb, StartActions() + [SaveText(text)])
         == nb.(status := NotebookStatus.ProcessingText, llmGeneratedText := Some(text), updatedAt := 0)
  {
    var start := StartActions();
    assert start + [SaveText(text)] == [start[0]] + ([start[1]] + ([SaveText(text)] + []));
    NotebookAfterCons(nb, start[0], [start[1]] + ([SaveText(text)] + []));
    NotebookAfterCons(nb, start[1], [SaveText(text)] + []);
    NotebookAfterCons(NotebookStep(nb, start[1]), SaveText(text), []);
  }

  /** The image phase: PROCESSING_IMAGES and the requests. */
  lemma ImagePhaseNotebook(nb: Notebook, reqs: seq<ImageRequest>)
    requires nb.updatedAt == 0
    ensures NotebookAfter(nb, [MarkNotebook(NotebookStatus.ProcessingImages, None), SaveImageRequests(reqs)])
         == nb.(status := NotebookStatus.ProcessingImages, imageRequests := reqs)
  {
    var a, b := MarkNotebook(NotebookStatus.ProcessingImages, None), SaveImageRequests(reqs);
    assert [a, b] == [a] + ([b] + []);
    NotebookAfterCons(nb, a, [b] + []);
    NotebookAfterCons(NotebookStep(nb, a), b, []);
  }

  /** The final-content write and the two COMPLETED updates. */
  lemma FinishedNotebook(nb: Notebook, finalContent: string)
    ensures NotebookAfter(nb, FinishActions(finalContent))
         == nb.(status := NotebookStatus.Completed, finalContent := Some(finalContent), updatedAt := 0)
  {
    var fin := FinishActions(finalContent);
    assert fin == [fin[0]] + ([fin[1]] + ([fin[2]] + []));
    NotebookAfterCons(nb, fin[0], [fin[1]] + ([fin[2]] + []));
    NotebookAfterCons(NotebookStep(nb, fin[0]), fin[1], [fin[2]] + []);
    NotebookAfterCons(NotebookStep(NotebookStep(nb, fin[0]), fin[1]), fin[2], []);
  }

  /** The notebook the whole `try` block leaves when nothing raises. */
  lemma CompletedNotebook(nb: Notebook, ports: Ports, text: string)
    ensures var reqs := Requests(ports, text);
      NotebookAfter(nb, StartActions() + WorkActions(ports, text))
      == Untimed(nb.(status := NotebookStatus.Completed,
                     llmGeneratedText := Some(text),
                     imageRequests := if Markers(text) == [] then nb.imageRequests else reqs,
                     finalContent := Some(Assemble(text, reqs))))
  {
    var reqs := Requests(ports, text);
    var start := StartActions();
    var img := ImageActions(ports, text);
    var content := Assemble(text, reqs);
    assert start + WorkActions(ports, text) == (start + [SaveText(text)]) + img + FinishActions(content);
    NotebookAfterAppend(nb, (start + [SaveText(text)]) + img, FinishActions(content));
    NotebookAfterAppend(nb, start + [SaveText(text)], img);
    StartedNotebook(nb, text);
    var n1 := nb.(status := NotebookStatus.ProcessingText, llmGeneratedText := Some(text), updatedAt := 0);
    if Markers(text) != [] {
      ImagePhaseNotebook(n1, reqs);
    }
    FinishedNotebook(NotebookAfter(n1, img), content);
  }

  /** Notebook-only actions leave the task alone. */
  lemma {:induction false} TaskAfterNotebookOnly(t: Task, actions: seq<Action>)
    requires forall i :: 0 <= i < |actions| ==> !actions[i].MarkTask?
    ensures TaskAfter(t, actions) == UntimedTask(t)
    decreases |actions|
  {
    if actions != [] {
      TaskAfterNotebookOnly(t, actions[1..]);
      TaskAfterUntimed(TaskStep(t, actions[0]), t, actions[1..]);
    }
  }

  /** The actions between the two task updates of the `try` block. */
  function NotebookPhase(ports: Ports, text: string): seq<Action> {
    [MarkNotebook(NotebookStatus.ProcessingText, None), SaveText(text)] + ImageActions(ports, text)
    + [SaveFinalContent(Assemble(text, Requests(ports, text))), MarkNotebook(NotebookStatus.Completed, None)]
  }

  lemma TryBlockShape(ports: Ports, text: string)
    ensures StartActions() + WorkActions(ports, text)
         == [MarkTask(TaskStatus.Processing, None)] + NotebookPhase(ports, text) + [MarkTask(TaskStatus.Completed, None)]
    ensures forall i :: 0 <= i < |NotebookPhase(ports, text)| ==> !NotebookPhase(ports, text)[i].MarkTask?
  {
  }

  /** The task the whole `try` block leaves when nothing raises. */
  lemma CompletedTask(t: Task, ports: Ports, text: string)
    ensures TaskAfter(t, StartActions() + WorkActions(ports, text)) == UntimedTask(t.(status := TaskStatus.Completed))
  {
    var first := MarkTask(TaskStatus.Processing, None);
    var last := MarkTask(TaskStatus.Completed, None);
    var mid := NotebookPhase(ports, text);
    TryBlockShape(ports, text);
    TaskAfterAppend(t, [first] + mid, [last]);
    TaskAfterCons(t, first, mid);
    TaskAfterNotebookOnly(TaskStep(t, first), mid);
    TaskAfterCons(TaskAfter(TaskStep(t, first), mid), last, []);
    assert [last] == [last] + [];
  }

  lemma StartedEvents(text: string)
    ensures ActionEvents(StartActions() + [SaveText(text)])
         == [TaskMarked(TaskStatus.Processing), NotebookMarked(NotebookStatus.ProcessingText)]
  {
    var start := StartActions();
    assert start + [SaveText(text)] == [start[0]] + ([start[1]] + ([SaveText(text)] + []));
    ActionEventsCons(start[0], [start[1]] + ([SaveText(text)] + []));
    ActionEventsCons(start[1], [SaveText(text)] + []);
    ActionEventsCons(SaveText(text), []);
  }

  lemma ImagePhaseEvents(reqs: seq<ImageRequest>)
    ensures ActionEvents([MarkNotebook(NotebookStatus.ProcessingImages, None), SaveImageRequests(reqs)])
         == [NotebookMarked(NotebookStatus.ProcessingImages)]
  {
    var a, b := MarkNotebook(NotebookStatus.ProcessingImages, None), SaveImageRequests(reqs);
    assert [a, b] == [a] + ([b] + []);
    ActionEventsCons(a, [b] + []);
    ActionEventsCons(b, []);
  }

  lemma FinishedEvents(finalContent: string)
    ensures ActionEvents(FinishActions(finalContent))
         == [NotebookMarked(NotebookStatus.Completed), TaskMarked(TaskStatus.Completed)]
  {
    var fin := FinishActions(finalContent);
    assert fin == [fin[0]] + ([fin[1]] + ([fin[2]] + []));
    ActionEventsCons(fin[0], [fin[1]] + ([fin[2]] + []));
    ActionEventsCons(fin[1], [fin[2]] + []);
    ActionEventsCons(fin[2], []);
  }

  /** The status changes the `try` block asks for when nothing raises. */
  lemma CompletedEvents(ports: Ports, text: string)
    ensures ActionEvents(StartActions() + WorkActions(ports, text))
         == [TaskMarked(TaskStatus.Processing), NotebookMarked(NotebookStatus.ProcessingText)]
            + (if Markers(text) == [] then [] else [NotebookMarked(NotebookStatus.ProcessingImages)])
            + [NotebookMarked(NotebookStatus.Completed), TaskMarked(TaskStatus.Completed)]
  {
    var start := StartActions();
    var img := ImageActions(ports, text);
    var content := Assemble(text, Requests(ports, text));
    assert start + WorkActions(ports, text) == (start + [SaveText(text)]) + img + FinishActions(content);
    ActionEventsAppend(start + [SaveText(text)], img);
    ActionEventsAppend((start + [SaveText(text)]) + img, FinishActions(content));
    StartedEvents(text);
    FinishedEvents(content);
    if Markers(text) != [] {
      ImagePhaseEvents(Requests(ports, text));
    }
  }

  lemma ActionEventsCons(a: Action, rest: seq<Action>)
    ensures ActionEvents([a] + rest)
         == (match a
             case MarkTask(s, _) => [TaskMarked(s)]
             case MarkNotebook(s, _) => [NotebookMarked(s)]
             case _ => [])
            + ActionEvents(rest)
  {
    assert ([a] + rest)[1..] == rest;
  }

  // ---------------------------------------------------------------------------
  // The success path.

    /** When nothing raises, the run is the try block's run of all its actions. */
  lemma RunQuiet(db: Db, fault: Faults, clock: Clock, job: Job, ports: Ports, text: string)
    requires HasDocs(db, job) && ports.generateText(job.topic) == Ok(text)
    requires Quiet(fault, db.calls, |StartActions() + WorkActions(ports, text)|)
    ensures var all := StartActions() + WorkActions(ports, text);
      && Exec(db, fault, clock, job, all).err.None?
      && Run(db, fault, clock, job, ports) == Exec(db, fault, clock, job, all).db
  {
    var start := StartActions();
    ExecAppend(db, fault, clock, job, start, WorkActions(ports, text));
    ExecQuietLog(db, fault, clock, job, start);
    ExecQuietLog(db, fault, clock, job, start + WorkActions(ports, text));
  }

  /** The records a run without exceptions leaves. */
  lemma RunCompletesRecords(db: Db, fault: Faults, clock: Clock, job: Job, ports: Ports, text: string)
    requires HasDocs(db, job) && ports.generateText(job.topic) == Ok(text)
    requires Quiet(fault, db.calls, |StartActions() + WorkActions(ports, text)|)
    ensures var r := Run(db, fault, clock, job, ports);
      var nb := db.notebooks[KeyOf(job)];
      var reqs := Requests(ports, text);
      && HasDocs(r, job)
      && r.notebooks[KeyOf(job)].status == NotebookStatus.Completed
      && Untimed(r.notebooks[KeyOf(job)])
         == Untimed(nb.(status := NotebookStatus.Completed,
                        llmGeneratedText := Some(text),
                        imageRequests := if Markers(text) == [] then nb.imageRequests else reqs,
                        finalContent := Some(Assemble(text, reqs))))
      && UntimedTask(r.tasks[job.taskId]) == UntimedTask(db.tasks[job.taskId].(status := TaskStatus.Completed))
      && (Markers(text) == [] ==> r.notebooks[KeyOf(job)].finalContent == Some(text))
  {
    var all := StartActions() + WorkActions(ports, text);
    RunQuiet(db, fault, clock, job, ports, text);
    ExecQuietDocs(db, fault, clock, job, all);
    CompletedNotebook(db.notebooks[KeyOf(job)], ports, text);
    CompletedTask(db.tasks[job.taskId], ports, text);
  }

  /** The writes a run without exceptions makes. */
  lemma RunCompletesLog(db: Db, fault: Faults, clock: Clock, job: Job, ports: Ports, text: string)
    requires HasDocs(db, job) && ports.generateText(job.topic) == Ok(text)
    requires Quiet(fault, db.calls, |StartActions() + WorkActions(ports, text)|)
    ensures var r := Run(db, fault, clock, job, ports);
      && db.log <= r.log
      && StatusEvents(r.log[|db.log|..])
         == [TaskMarked(TaskStatus.Processing), NotebookMarked(NotebookStatus.ProcessingText)]
            + (if Markers(text) == [] then [] else [NotebookMarked(NotebookStatus.ProcessingImages)])
            + [NotebookMarked(NotebookStatus.Completed), TaskMarked(TaskStatus.Completed)]
  {
    var all := StartActions() + WorkActions(ports, text);
    RunQuietWrites(db, fault, clock, job, ports, text);
    StampedEvents(job, clock, db.calls, all);
    CompletedEvents(ports, text);
  }

  /** A run without exceptions on text without placeholders never writes
      `image_requests`. */
  lemma RunSkipsImages(db: Db, fault: Faults, clock: Clock, job: Job, ports: Ports, text: string)
    requires HasDocs(db, job) && ports.generateText(job.topic) == Ok(text) && Markers(text) == []
    requires Quiet(fault, db.calls, |StartActions() + WorkActions(ports, text)|)
    ensures var r := Run(db, fault, clock, job, ports);
      && db.log <= r.log
      && forall w :: w in r.log[|db.log|..] ==> !WritesImages(w)
  {
    var all := StartActions() + WorkActions(ports, text);
    RunQuietWrites(db, fault, clock, job, ports, text);
    StampedWritesImages(job, clock, db.calls, all);
    NoImageActions(ports, text);
  }

  /** Without placeholders the run has no action that saves image requests. */
  lemma NoImageActions(ports: Ports, text: string)
    requires Markers(text) == []
    ensures forall a :: a in StartActions() + WorkActions(ports, text) ==> !a.SaveImageRequests?
  {
    assert StartActions() + WorkActions(ports, text)
        == StartActions() + [SaveText(text)] + FinishActions(Assemble(text, Requests(ports, text)));
  }

  /** The writes of a run without exceptions are the stamped actions. */
  lemma RunQuietWrites(db: Db, fault: Faults, clock: Clock, job: Job, ports: Ports, text: string)
    requires HasDocs(db, job) && ports.generateText(job.topic) == Ok(text)
    requires Quiet(fault, db.calls, |StartActions() + WorkActions(ports, text)|)
    ensures var r := Run(db, fault, clock, job, ports);
      && db.log <= r.log
      && r.log[|db.log|..] == Stamped(job, clock, db.calls, StartActions() + WorkActions(ports, text))
  {
    var all := StartActions() + WorkActions(ports, text);
    RunQuiet(db, fault, clock, job, ports, text);
    ExecQuietLog(db, fault, clock, job, all);
    DropPrefix(db.log, Stamped(job, clock, db.calls, all));
  }

  lemma DropPrefix(a: seq<Write>, b: seq<Write>)
    ensures a <= a + b && (a + b)[|a|..] == b
  {
  }

/** When the text is generated and no store call raises, the run makes the
      status changes task PROCESSING, notebook PROCESSING_TEXT, (notebook
      PROCESSING_IMAGES only if the text has placeholders), notebook
      COMPLETED, task COMPLETED, in this order; the notebook ends COMPLETED
      holding the text, the requests and the assembled content; the task ends
      COMPLETED and otherwise unchanged; and without placeholders the image
      requests are never written. */
  lemma RunCompletes(db: Db, fault: Faults, clock: Clock, job: Job, ports: Ports, text: string)
    requires HasDocs(db, job) && ports.generateText(job.topic) == Ok(text)
    requires Quiet(fault, db.calls, |StartActions() + WorkActions(ports, text)|)
    ensures var r := Run(db, fault, clock, job, ports);
      var nb := db.notebooks[KeyOf(job)];
      var reqs := Requests(ports, text);
      && HasDocs(r, job)
      && r.notebooks[KeyOf(job)].status == NotebookStatus.Completed
      && Untimed(r.notebooks[KeyOf(job)])
         == Untimed(nb.(status := NotebookStatus.Completed,
                        llmGeneratedText := Some(text),
                        imageRequests := if Markers(text) == [] then nb.imageRequests else reqs,
                        finalContent := Some(Assemble(text, reqs))))
      && UntimedTask(r.tasks[job.taskId]) == UntimedTask(db.tasks[job.taskId].(status := TaskStatus.Completed))
      && db.log <= r.log
      && StatusEvents(r.log[|db.log|..])
         == [TaskMarked(TaskStatus.Processing), NotebookMarked(NotebookStatus.ProcessingText)]
            + (if Markers(text) == [] then [] else [NotebookMarked(NotebookStatus.ProcessingImages)])
            + [NotebookMarked(NotebookStatus.Completed), TaskMarked(TaskStatus.Completed)]
      && (Markers(text) == [] ==> forall w :: w in r.log[|db.log|..] ==> !WritesImages(w))
      && (Markers(text) == [] ==> r.notebooks[KeyOf(job)].finalContent == Some(text))
  {
    RunCompletesRecords(db, fault, clock, job, ports, text);
    RunCompletesLog(db, fault, clock, job, ports, text);
    if Markers(text) == [] {
      RunSkipsImages(db, fault, clock, job, ports, text);
    }
  }


  // ---------------------------------------------------------------------------
  // Frame: a run touches only its own task and notebook, and only adds to the
  // log; this holds whatever raises.

  ghost predicate Framed(db: Db, db': Db, job: Job) {
    && db'.tasks.Keys == db.tasks.Keys && db'.notebooks.Keys == db.notebooks.Keys
    && (forall id :: id in db.tasks && id != job.taskId ==> db'.tasks[id] == db.tasks[id])
    && (forall k :: k in db.notebooks && k != KeyOf(job) ==> db'.notebooks[k] == db.notebooks[k])
    && db.log <= db'.log && db.calls <= db'.calls
  }

  lemma PerformFrame(db: Db, fault: Faults, clock: Clock, job: Job, a: Action)
    ensures Framed(db, Perform(db, fault, ToWrite(job, a, clock(db.calls))).db, job)
  {
  }

  lemma {:induction false} ExecFrame(db: Db, fault: Faults, clock: Clock, job: Job, actions: seq<Action>)
    ensures Framed(db, Exec(db, fault, clock, job, actions).db, job)
    decreases |actions|
  {
    if actions != [] {
      var o := Perform(db, fault, ToWrite(job, actions[0], clock(db.calls)));
      PerformFrame(db, fault, clock, job, actions[0]);
      if o.err.None? {
        ExecFrame(o.db, fault, clock, job, actions[1..]);
      }
    }
  }

  lemma TryBlockFrame(db: Db, fault: Faults, clock: Clock, job: Job, ports: Ports)
    ensures Framed(db, TryBlock(db, fault, clock, job, ports).db, job)
  {
    var started := Exec(db, fault, clock, job, StartActions());
    ExecFrame(db, fault, clock, job, StartActions());
    if started.err.None? && ports.generateText(job.topic).Ok? {
      ExecFrame(started.db, fault, clock, job, WorkActions(ports, ports.generateText(job.topic).value));
    }
  }

  /** Whatever raises, a run changes no other task or notebook, creates and
      deletes no document, and only appends to the write log. */
  lemma RunFrame(db: Db, fault: Faults, clock: Clock, job: Job, ports: Ports)
    ensures Framed(db, Run(db, fault, clock, job, ports), job)
  {
    var tried := TryBlock(db, fault, clock, job, ports);
    TryBlockFrame(db, fault, clock, job, ports);
    if tried.err.Some? {
      ExecFrame(tried.db, fault, clock, job, FailureActions(tried.err.value));
    }
  }

  // ---------------------------------------------------------------------------
  // The failure paths.

  /** When the message is empty (`str(e) == ""`) no `error_message` is written. */
  function Reason(m: string, old_: Option<string>): Option<string> {
    if m != "" then Some(m) else old_
  }

  lemma FailedNotebook(nb: Notebook, m: string)
    ensures NotebookAfter(nb, FailureActions(m))
         == nb.(status := NotebookStatus.Failed, errorMessage := Reason(m, nb.errorMessage), updatedAt := 0)
  {
    var f := FailureActions(m);
    assert f == [f[0]] + ([f[1]] + []);
    NotebookAfterCons(nb, f[0], [f[1]] + []);
    NotebookAfterCons(NotebookStep(nb, f[0]), f[1], []);
  }

  lemma FailedTask(t: Task, m: string)
    ensures TaskAfter(t, FailureActions(m))
         == t.(status := TaskStatus.Failed, errorMessage := Reason(m, t.errorMessage), updatedAt := 0)
  {
    var f := FailureActions(m);
    assert f == [f[0]] + ([f[1]] + []);
    TaskAfterCons(t, f[0], [f[1]] + []);
    TaskAfterCons(TaskStep(t, f[0]), f[1], []);
  }

  lemma FailedEvents(m: string)
    ensures ActionEvents(FailureActions(m)) == [NotebookMarked(NotebookStatus.Failed), TaskMarked(TaskStatus.Failed)]
  {
    var f := FailureActions(m);
    assert f == [f[0]] + ([f[1]] + []);
    ActionEventsCons(f[0], [f[1]] + []);
    ActionEventsCons(f[1], []);
  }

  /** Whatever made the `try` block raise, if the handler's two calls do not
      raise, both records end FAILED and carry the message (when it is not
      empty), and the handler's status changes are notebook FAILED, then task
      FAILED. */
  lemma RunFailureMarksBoth(db: Db, fault: Faults, clock: Clock, job: Job, ports: Ports)
    requires HasDocs(db, job)
    requires TryBlock(db, fault, clock, job, ports).err.Some?
    requires Quiet(fault, TryBlock(db, fault, clock, job, ports).db.calls, 2)
    ensures var tried := TryBlock(db, fault, clock, job, ports);
      var m := tried.err.value;
      var r := Run(db, fault, clock, job, ports);
      && HasDocs(tried.db, job) && HasDocs(r, job)
      && r.notebooks[KeyOf(job)].status == NotebookStatus.Failed
      && r.tasks[job.taskId].status == TaskStatus.Failed
      && Untimed(r.notebooks[KeyOf(job)])
         == Untimed(tried.db.notebooks[KeyOf(job)].(status := NotebookStatus.Failed,
                                                    errorMessage := Reason(m, tried.db.notebooks[KeyOf(job)].errorMessage)))
      && UntimedTask(r.tasks[job.taskId])
         == UntimedTask(tried.db.tasks[job.taskId].(status := TaskStatus.Failed,
                                                    errorMessage := Reason(m, tried.db.tasks[job.taskId].errorMessage)))
      && tried.db.log <= r.log
      && StatusEvents(r.log[|tried.db.log|..])
         == [NotebookMarked(NotebookStatus.Failed), TaskMarked(TaskStatus.Failed)]
  {
    var tried := TryBlock(db, fault, clock, job, ports);
    var m := tried.err.value;
    TryBlockFrame(db, fault, clock, job, ports);
    ExecQuietLog(tried.db, fault, clock, job, FailureActions(m));
    ExecQuietDocs(tried.db, fault, clock, job, FailureActions(m));
    FailedNotebook(tried.db.notebooks[KeyOf(job)], m);
    FailedTask(tried.db.tasks[job.taskId], m);
    var r := Run(db, fault, clock, job, ports);
    assert r.log[|tried.db.log|..] == Stamped(job, clock, tried.db.calls, FailureActions(m));
    StampedEvents(job, clock, tried.db.calls, FailureActions(m));
    FailedEvents(m);
  }

  /** An exception in the handler's first call is swallowed: nothing more is
      written, and the run ends with the state the `try` block left. */
  lemma HandlerFailureSwallowed(db: Db, fault: Faults, clock: Clock, job: Job, ports: Ports)
    requires TryBlock(db, fault, clock, job, ports).err.Some?
    requires fault(TryBlock(db, fault, clock, job, ports).db.calls).Some?
    ensures var tried := TryBlock(db, fault, clock, job, ports);
      Run(db, fault, clock, job, ports) == tried.db.(calls := tried.db.calls + 1)
  {
    var tried := TryBlock(db, fault, clock, job, ports);
    ExecCons(tried.db, fault, clock, job, FailureActions(tried.err.value));
  }

  /** The handler on a state where its first call succeeds and its second
      raises. */
  lemma HandlerSecondCallRaises(d: Db, fault: Faults, clock: Clock, job: Job, m: string)
    requires HasDocs(d, job) && fault(d.calls).None? && fault(d.calls + 1).Some?
    ensures var r := Exec(d, fault, clock, job, FailureActions(m)).db;
      && HasDocs(r, job)
      && r.notebooks[KeyOf(job)].status == NotebookStatus.Failed
      && r.tasks == d.tasks
  {
    var f := FailureActions(m);
    ExecCons(d, fault, clock, job, f);
    PerformQuiet(d, fault, clock, job, f[0]);
    var o := Perform(d, fault, ToWrite(job, f[0], clock(d.calls)));
    ExecLast(o.db, fault, clock, job, f[1]);
    assert f[1..] == [f[1]];
  }

  /** When only the handler's second call raises, the notebook ends FAILED
      but the task keeps whatever status the `try` block left it in. */
  lemma HandlerLeavesTaskBehind(db: Db, fault: Faults, clock: Clock, job: Job, ports: Ports)
    requires HasDocs(db, job)
    requires TryBlock(db, fault, clock, job, ports).err.Some?
    requires fault(TryBlock(db, fault, clock, job, ports).db.calls).None?
    requires fault(TryBlock(db, fault, clock, job, ports).db.calls + 1).Some?
    ensures var tried := TryBlock(db, fault, clock, job, ports);
      var r := Run(db, fault, clock, job, ports);
      && HasDocs(r, job)
      && r.notebooks[KeyOf(job)].status == NotebookStatus.Failed
      && r.tasks == tried.db.tasks
  {
    var tried := TryBlock(db, fault, clock, job, ports);
    TryBlockFrame(db, fault, clock, job, ports);
    HandlerSecondCallRaises(tried.db, fault, clock, job, tried.err.value);
  }

  lemma StartNotebook(nb: Notebook)
    ensures NotebookAfter(nb, StartActions()) == nb.(status := NotebookStatus.ProcessingText, updatedAt := 0)
  {
    var start := StartActions();
    assert start == [start[0]] + ([start[1]] + []);
    NotebookAfterCons(nb, start[0], [start[1]] + []);
    NotebookAfterCons(nb, start[1], []);
  }

  lemma StartTask(t: Task)
    ensures TaskAfter(t, StartActions()) == t.(status := TaskStatus.Processing, updatedAt := 0)
  {
    var start := StartActions();
    assert start == [start[0]] + ([start[1]] + []);
    TaskAfterCons(t, start[0], [start[1]] + []);
    TaskAfterCons(TaskStep(t, start[0]), start[1], []);
  }

  lemma StartEvents()
    ensures ActionEvents(StartActions()) == [TaskMarked(TaskStatus.Processing), NotebookMarked(NotebookStatus.ProcessingText)]
  {
    var start := StartActions();
    assert start == [start[0]] + ([start[1]] + []);
    ActionEventsCons(start[0], [start[1]] + []);
    ActionEventsCons(start[1], []);
  }

  /** With the text call raising m, the run is the start updates followed
      by the handler's updates. */
  lemma RunOnTextError(db: Db, fault: Faults, clock: Clock, job: Job, ports: Ports, m: string)
    requires ports.generateText(job.topic) == Err(m)
    requires Exec(db, fault, clock, job, StartActions()).err.None?
    ensures Run(db, fault, clock, job, ports) == Exec(db, fault, clock, job, StartActions() + FailureActions(m)).db
  {
    ExecAppend(db, fault, clock, job, StartActions(), FailureActions(m));
  }

  lemma TextFailureFolds(nb: Notebook, t: Task, m: string)
    ensures NotebookAfter(nb, StartActions() + FailureActions(m))
         == Untimed(nb.(status := NotebookStatus.Failed, errorMessage := Reason(m, nb.errorMessage)))
    ensures TaskAfter(t, StartActions() + FailureActions(m))
         == UntimedTask(t.(status := TaskStatus.Failed, errorMessage := Reason(m, t.errorMessage)))
    ensures ActionEvents(StartActions() + FailureActions(m))
         == [TaskMarked(TaskStatus.Processing), NotebookMarked(NotebookStatus.ProcessingText),
             NotebookMarked(NotebookStatus.Failed), TaskMarked(TaskStatus.Failed)]
  {
    NotebookAfterAppend(nb, StartActions(), FailureActions(m));
    StartNotebook(nb);
    FailedNotebook(NotebookAfter(nb, StartActions()), m);
    TaskAfterAppend(t, StartActions(), FailureActions(m));
    StartTask(t);
    FailedTask(TaskAfter(t, StartActions()), m);
    ActionEventsAppend(StartActions(), FailureActions(m));
    StartEvents();
    FailedEvents(m);
  }

  /** When text generation raises m and no store call raises, exactly four
      writes happen: task PROCESSING, notebook PROCESSING_TEXT, notebook
      FAILED, task FAILED. The image phase is never entered, no text or
      content is stored, and both records carry m (when it is not empty). */
  lemma RunTextFails(db: Db, fault: Faults, clock: Clock, job: Job, ports: Ports, m: string)
    requires HasDocs(db, job) && ports.generateText(job.topic) == Err(m)
    requires Quiet(fault, db.calls, 4)
    ensures var r := Run(db, fault, clock, job, ports);
      var nb := db.notebooks[KeyOf(job)];
      var t := db.tasks[job.taskId];
      && HasDocs(r, job)
      && Untimed(r.notebooks[KeyOf(job)])
         == Untimed(nb.(status := NotebookStatus.Failed, errorMessage := Reason(m, nb.errorMessage)))
      && UntimedTask(r.tasks[job.taskId])
         == UntimedTask(t.(status := TaskStatus.Failed, errorMessage := Reason(m, t.errorMessage)))
      && db.log <= r.log && |r.log| == |db.log| + 4
      && StatusEvents(r.log[|db.log|..])
         == [TaskMarked(TaskStatus.Processing), NotebookMarked(NotebookStatus.ProcessingText),
             NotebookMarked(NotebookStatus.Failed), TaskMarked(TaskStatus.Failed)]
  {
    var all := StartActions() + FailureActions(m);
    ExecQuietLog(db, fault, clock, job, StartActions());
    RunOnTextError(db, fault, clock, job, ports, m);
    ExecQuietLog(db, fault, clock, job, all);
    ExecQuietDocs(db, fault, clock, job, all);
    TextFailureFolds(db.notebooks[KeyOf(job)], db.tasks[job.taskId], m);
    var r := Run(db, fault, clock, job, ports);
    assert r.log[|db.log|..] == Stamped(job, clock, db.calls, all);
    StampedEvents(job, clock, db.calls, all);
  }

  lemma {:induction false} NotebookAfterIsUntimed(nb: Notebook, actions: seq<Action>)
    ensures NotebookAfter(nb, actions).updatedAt == 0
    decreases |actions|
  {
    if actions != [] {
      NotebookAfterIsUntimed(NotebookStep(nb, actions[0]), actions[1..]);
    }
  }

  /** The `try` block without placeholders, up to (not including) the task's
      COMPLETED update. */
  function UntilTaskCompleted(text: string): seq<Action> {
    StartActions() + [SaveText(text)] + [SaveFinalContent(text), MarkNotebook(NotebookStatus.Completed, None)]
  }

  lemma UntilTaskCompletedFolds(nb: Notebook, text: string)
    ensures NotebookAfter(nb, UntilTaskCompleted(text))
         == nb.(status := NotebookStatus.Completed, llmGeneratedText := Some(text),
                finalContent := Some(text), updatedAt := 0)
    ensures ActionEvents(UntilTaskCompleted(text))
         == [TaskMarked(TaskStatus.Processing), NotebookMarked(NotebookStatus.ProcessingText),
             NotebookMarked(NotebookStatus.Completed)]
  {
    var head := StartActions() + [SaveText(text)];
    var a, b := SaveFinalContent(text), MarkNotebook(NotebookStatus.Completed, None);
    assert [a, b] == [a] + ([b] + []);
    NotebookAfterAppend(nb, head, [a, b]);
    StartedNotebook(nb, text);
    NotebookAfterCons(NotebookAfter(nb, head), a, [b] + []);
    NotebookAfterCons(NotebookStep(NotebookAfter(nb, head), a), b, []);
    ActionEventsAppend(head, [a, b]);
    StartedEvents(text);
    ActionEventsCons(a, [b] + []);
    ActionEventsCons(b, []);
  }

  /** Without placeholders, when only call number db.calls + 5 raises, the
      `try` block stops at the task's COMPLETED update. */
  lemma TryBlockStopsAtTaskCompleted(db: Db, fault: Faults, clock: Clock, job: Job, ports: Ports,
                                     text: string, m: string)
    requires HasDocs(db, job) && ports.generateText(job.topic) == Ok(text) && Markers(text) == []
    requires forall n: nat :: fault(n) == (if n == db.calls + 5 then Some(m) else None)
    ensures var pre := Exec(db, fault, clock, job, UntilTaskCompleted(text));
      && TryBlock(db, fault, clock, job, ports) == Outcome(pre.db.(calls := pre.db.calls + 1), Some(m))
      && pre.db.calls == db.calls + 5
  {
    var start := StartActions();
    var work := WorkActions(ports, text);
    var last := MarkTask(TaskStatus.Completed, None);
    var pre := UntilTaskCompleted(text);
    assert Requests(ports, text) == [];
    assert start + work == start + ([SaveText(text)] + [SaveFinalContent(text), MarkNotebook(NotebookStatus.Completed, None), last]);
    assert start + work == pre + [last];
    ExecQuietLog(db, fault, clock, job, start);
    ExecAppend(db, fault, clock, job, start, work);
    ExecAppend(db, fault, clock, job, pre, [last]);
    ExecQuietLog(db, fault, clock, job, pre);
    var o := Exec(db, fault, clock, job, pre);
    ExecLast(o.db, fault, clock, job, last);
  }

  /** The records the counterexample run leaves. */
  lemma CanEndFailedRecords(db: Db, fault: Faults, clock: Clock, job: Job, ports: Ports,
                            text: string, m: string)
    requires HasDocs(db, job) && ports.generateText(job.topic) == Ok(text) && Markers(text) == [] && m != ""
    requires forall n: nat :: fault(n) == (if n == db.calls + 5 then Some(m) else None)
    ensures var r := Run(db, fault, clock, job, ports);
      && HasDocs(r, job)
      && r.notebooks[KeyOf(job)].status == NotebookStatus.Failed
      && r.notebooks[KeyOf(job)].finalContent == Some(text)
      && r.notebooks[KeyOf(job)].errorMessage == Some(m)
      && r.tasks[job.taskId].status == TaskStatus.Failed
  {
    var key := KeyOf(job);
    var pre := UntilTaskCompleted(text);
    TryBlockStopsAtTaskCompleted(db, fault, clock, job, ports, text, m);
    ExecQuietDocs(db, fault, clock, job, pre);
    var tried := TryBlock(db, fault, clock, job, ports);
    assert Quiet(fault, tried.db.calls, 2);
    RunFailureMarksBoth(db, fault, clock, job, ports);
    UntilTaskCompletedFolds(db.notebooks[key], text);
  }

  /** Two appends in a row leave both appended parts as the suffix. */
  lemma LogSuffix(l0: seq<Write>, l1: seq<Write>, l2: seq<Write>, s1: seq<Write>, s2: seq<Write>)
    requires l1 == l0 + s1 && l2 == l1 + s2
    ensures l0 <= l2 && l2[|l0|..] == s1 + s2
  {
    assert l2 == l0 + (s1 + s2);
  }

  /** The status changes of the counterexample run. */
  lemma CanEndFailedEvents(db: Db, fault: Faults, clock: Clock, job: Job, ports: Ports,
                           text: string, m: string)
    requires HasDocs(db, job) && ports.generateText(job.topic) == Ok(text) && Markers(text) == [] && m != ""
    requires forall n: nat :: fault(n) == (if n == db.calls + 5 then Some(m) else None)
    ensures var r := Run(db, fault, clock, job, ports);
      && db.log <= r.log
      && StatusEvents(r.log[|db.log|..])
         == [TaskMarked(TaskStatus.Processing), NotebookMarked(NotebookStatus.ProcessingText),
             NotebookMarked(NotebookStatus.Completed),
             NotebookMarked(NotebookStatus.Failed), TaskMarked(TaskStatus.Failed)]
  {
    var pre := UntilTaskCompleted(text);
    var f := FailureActions(m);
    TryBlockStopsAtTaskCompleted(db, fault, clock, job, ports, text, m);
    ExecQuietLog(db, fault, clock, job, pre);
    var tried := TryBlock(db, fault, clock, job, ports);
    var s1 := Stamped(job, clock, db.calls, pre);
    assert tried.db.log == db.log + s1;
    ExecQuietLog(tried.db, fault, clock, job, f);
    var s2 := Stamped(job, clock, tried.db.calls, f);
    var r := Run(db, fault, clock, job, ports);
    assert r == Exec(tried.db, fault, clock, job, f).db;
    LogSuffix(db.log, tried.db.log, r.log, s1, s2);
    StatusEventsAppend(s1, s2);
    StampedEvents(job, clock, db.calls, pre);
    StampedEvents(job, clock, tried.db.calls, f);
    UntilTaskCompletedFolds(db.notebooks[KeyOf(job)], text);
    FailedEvents(m);
  }

  /** Statuses are not monotonic: when the text has no placeholders and only
      the last call of the `try` block (task COMPLETED) raises m, the notebook
      is first marked COMPLETED and then FAILED by the handler, although its
      final content was already stored. */
  lemma CompletedNotebookCanEndFailed(db: Db, fault: Faults, clock: Clock, job: Job, ports: Ports,
                                      text: string, m: string)
    requires HasDocs(db, job) && ports.generateText(job.topic) == Ok(text) && Markers(text) == [] && m != ""
    requires forall n: nat :: fault(n) == (if n == db.calls + 5 then Some(m) else None)
    ensures var r := Run(db, fault, clock, job, ports);
      && HasDocs(r, job) && db.log <= r.log
      && StatusEvents(r.log[|db.log|..])
         == [TaskMarked(TaskStatus.Processing), NotebookMarked(NotebookStatus.ProcessingText),
             NotebookMarked(NotebookStatus.Completed),
             NotebookMarked(NotebookStatus.Failed), TaskMarked(TaskStatus.Failed)]
      && r.notebooks[KeyOf(job)].status == NotebookStatus.Failed
      && r.notebooks[KeyOf(job)].finalContent == Some(text)
      && r.notebooks[KeyOf(job)].errorMessage == Some(m)
      && r.tasks[job.taskId].status == TaskStatus.Failed
  {
    CanEndFailedRecords(db, fault, clock, job, ports, text, m);
    CanEndFailedEvents(db, fault, clock, job, ports, text, m);
  }

  // ---------------------------------------------------------------------------
  // The services as the repository wires them.

  /** The mock scraper asked for one image, and the mock validator whose
      random draw for query number k falls below 0.1 exactly when `draws(k)`. */
  function MockPorts(generateText: string -> Result<string, string>, draws: nat -> bool): Ports {
    Ports(generateText,
          (k: nat, q: string) => Ok(MockUrls(q, 1)),
          (k: nat, url: string, text: string, q: string) => Ok(ValidateImage(url, text, q, draws(k))))
  }

  /** With the mock services every query gets its picsum url; it is
      validated exactly when the query lacks the sentinel and the draw is not
      below the threshold, and otherwise fails as "not suitable" (never as
      "no images found"). */
  lemma MockImageOutcome(generateText: string -> Result<string, string>, draws: nat -> bool,
                         k: nat, query: string, text: string)
    ensures var r := ProcessImage(MockPorts(generateText, draws), k, query, text);
      && r.originalUrl == Some(MockUrl(Slug(query), 1))
      && (r.status == ImageRequestStatus.Validated <==> !Contains(Lower(query), FailSentinel) && !draws(k))
      && (r.status == ImageRequestStatus.Validated ==> r.validatedImageUrl == r.originalUrl)
      && (r.status == ImageRequestStatus.Failed ==> r.errorMessage == Some(NotSuitableMessage))
  {
    MockUrlsNonEmpty(query, 1);
    var url := MockUrl(Slug(query), 1);
    assert url[0] == 'h';
  }

  /** The requests follow the placeholders of a laid-out text, one per
      placeholder and in order. */
  lemma RequestsFollowPlaceholders(ports: Ports, segs: seq<Segment>, tail: string)
    requires WellLaidOut(segs, tail)
    ensures var rs := Requests(ports, Render(segs, tail));
      |rs| == |segs| && forall i :: 0 <= i < |segs| ==> rs[i].query == segs[i].query
  {
    MarkersOfRender(segs, tail);
  }
}
