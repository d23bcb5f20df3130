/**
 The indexing protocol: any number of tasks interleaved with document commands, each
 transaction one atomic step, with failure possible at every phase.

 A run is a list of steps; Run folds them from the empty knowledge base.  A step that is
 not enabled changes nothing, so every list of steps is a run.  A task may also begin
 without a queued message (redelivery), which only adds behaviours.
 */
module Indexing {
  import opened Wrappers
  import opened KnowledgeStore
  import Chunking
  import Frontmatter

  type TaskId = nat

  datatype State = State(store: Store, tasks: map<TaskId, Task>)

  datatype Step =
    | Create(id: DocId, title: string, upload: Upload)
    | Update(id: DocId, newTitle: Option<string>, newUpload: Option<Upload>)
    | Delete(id: DocId)
    | Configure(embedding: Option<EmbeddingConfig>)
    | Begin(task: TaskId, id: DocId)
    | Embed(task: TaskId, reply: Option<seq<Vector>>)
    | Replace(task: TaskId)
    | Fail(task: TaskId)

  function Initial(embedding: Option<EmbeddingConfig>): State {
    State(Store(map[], [], multiset{}, embedding), map[])
  }

  predicate CanReplace(s: State, task: TaskId) {
    task in s.tasks && s.tasks[task].Ready? && |s.tasks[task].chunks| == |s.tasks[task].vectors|
  }

  function BeginTask(s: State, task: TaskId, id: DocId): State {
    var taken := s.(store := s.store.(queue := s.store.queue - multiset{id}));
    var read := ReadPhase(s.store, id);
    if read.Snapshot? then taken.(tasks := s.tasks[task := read.task]) else taken
  }

  function Apply(s: State, step: Step): State {
    match step
    case Create(id, title, upload) => s.(store := CreateDocument(s.store, id, title, upload))
    case Update(id, title, upload) => s.(store := UpdateDocument(s.store, id, title, upload))
    case Delete(id) => s.(store := DeleteDocument(s.store, id))
    case Configure(embedding) => s.(store := s.store.(embedding := embedding))
    case Begin(task, id) =>
      if task in s.tasks then s else BeginTask(s, task, id)
    case Embed(task, reply) =>
      if task !in s.tasks || !s.tasks[task].Read? then s
      else
        var next := EmbedPhase(s.tasks[task], reply);
        if next.None? then s.(tasks := s.tasks - {task})
        else s.(tasks := s.tasks[task := next.value])
    case Replace(task) =>
      if !CanReplace(s, task) then s
      else State(ReplacePhase(s.store, s.tasks[task]), s.tasks - {task})
    case Fail(task) => s.(tasks := s.tasks - {task})
  }

  function Run(start: State, steps: seq<Step>): State {
    if steps == [] then start
    else Apply(Run(start, steps[..|steps| - 1]), steps[|steps| - 1])
  }

  // ---------------------------------------------------------------- all or nothing

  /**
   The rows are the whole index of the content under the config: its chunks, with the size
   and the overlap the config stores, numbered from zero, and that snapshot on every row.
   */
  ghost predicate IsIndexOf(rows: seq<ChunkRow>, id: DocId, content: string, config: EmbeddingConfig) {
    && ValidateParams(config.params).Some?
    && var size, overlap := config.params.chunkSize.value, config.params.chunkOverlap.value;
       var chunks := Chunking.Chunks(content, size, overlap);
       && |content| <= 1000 * (size - overlap)
       && |rows| == |chunks|
       && forall i :: 0 <= i < |rows| ==>
                        && rows[i].documentId == id && rows[i].chunkIndex == i && rows[i].content == chunks[i]
                        && rows[i].configId == config.id
                        && rows[i].params == ParamFields(size, overlap, config.params.strategy.value)
  }

  /** In state past the document had the task's content and the default config was the task's. */
  ghost predicate ReadIn(past: State, task: Task) {
    && task.doc in past.store.documents
    && past.store.documents[task.doc].content == task.content
    && past.store.embedding == Some(task.config)
    && ValidateParams(task.config.params) == Some(task.params)
  }

  ghost predicate WholeTask(task: Task) {
    task.Ready? ==>
      && ChunkContent(task.content, task.params) == Success(task.chunks)
      && |task.vectors| == |task.chunks|
  }

  ghost predicate TaskRead(start: State, steps: seq<Step>, task: Task) {
    exists k :: 0 <= k <= |steps| && ReadIn(Run(start, steps[..k]), task)
  }

  /** Every running task holds a snapshot of one moment of the run, whole. */
  ghost predicate TasksSound(start: State, steps: seq<Step>) {
    forall t :: t in Run(start, steps).tasks ==>
                  WholeTask(Run(start, steps).tasks[t]) && TaskRead(start, steps, Run(start, steps).tasks[t])
  }

  /** In state past the rows were the index of the document's content under the default config. */
  ghost predicate IndexedIn(past: State, rows: seq<ChunkRow>, id: DocId) {
    && id in past.store.documents
    && past.store.embedding.Some?
    && IsIndexOf(rows, id, past.store.documents[id].content, past.store.embedding.value)
  }

  /**
   Step k answers a task on the document with one vector for each row, and row i is chunk i
   of that task's content with vector i, its config and its parameters.
   */
  ghost predicate EmbeddedAt(start: State, steps: seq<Step>, k: nat, rows: seq<ChunkRow>, id: DocId) {
    && k < |steps| && steps[k].Embed? && steps[k].reply.Some? && |steps[k].reply.value| == |rows|
    && var tasks := Run(start, steps[..k]).tasks;
       && steps[k].task in tasks && tasks[steps[k].task].doc == id
       && var task := tasks[steps[k].task];
          && TaskRead(start, steps, task)
          && IsIndexOf(rows, id, task.content, task.config)
          && forall i :: 0 <= i < |rows| ==> rows[i].embedding == steps[k].reply.value[i]
  }

  ghost predicate RowsEmbedded(start: State, steps: seq<Step>, rows: seq<ChunkRow>, id: DocId) {
    exists k: nat :: EmbeddedAt(start, steps, k, rows, id)
  }

  ghost predicate RowsRead(start: State, steps: seq<Step>, rows: seq<ChunkRow>, id: DocId) {
    exists k :: 0 <= k <= |steps| && IndexedIn(Run(start, steps[..k]), rows, id)
  }

  /** The two are one task, perhaps at different phases. */
  ghost predicate SameSnapshot(a: Task, b: Task) {
    a.doc == b.doc && a.content == b.content && a.config == b.config && a.params == b.params
  }

  /** Step k answers the second phase of task t, which then held the same snapshot, with its vectors. */
  ghost predicate AnsweredAt(start: State, steps: seq<Step>, k: nat, t: TaskId, task: Task) {
    && k < |steps| && task.Ready? && steps[k] == Embed(t, Some(task.vectors))
    && var tasks := Run(start, steps[..k]).tasks;
       t in tasks && tasks[t].Read? && SameSnapshot(tasks[t], task)
  }

  /** The vectors of a task with chunks are one whole reply of the provider. */
  ghost predicate Answered(start: State, steps: seq<Step>, t: TaskId, task: Task) {
    task.Ready? && task.chunks != [] ==> exists k: nat :: AnsweredAt(start, steps, k, t, task)
  }

  lemma AnsweredGrows(start: State, steps: seq<Step>, step: Step, t: TaskId, task: Task)
    requires Answered(start, steps, t, task)
    ensures Answered(start, steps + [step], t, task)
  {
    if task.Ready? && task.chunks != [] {
      var k: nat :| AnsweredAt(start, steps, k, t, task);
      assert (steps + [step])[..k] == steps[..k];
      assert AnsweredAt(start, steps + [step], k, t, task);
    }
  }

  /** How a task comes to be ready with chunks: it was, or this step brings the reply it holds. */
  lemma StepAnswers(s: State, step: Step, t: TaskId)
    requires t in Apply(s, step).tasks
    requires Apply(s, step).tasks[t].Ready? && Apply(s, step).tasks[t].chunks != []
    ensures var now := Apply(s, step).tasks[t];
            && t in s.tasks
            && (|| s.tasks[t] == now
                || (s.tasks[t].Read? && SameSnapshot(s.tasks[t], now) && step == Embed(t, Some(now.vectors))))
  {
  }

  lemma AnsweredNow(start: State, steps: seq<Step>, step: Step, t: TaskId, now: Task)
    requires now.Ready? && step == Embed(t, Some(now.vectors))
    requires var tasks := Run(start, steps).tasks; t in tasks && tasks[t].Read? && SameSnapshot(tasks[t], now)
    ensures Answered(start, steps + [step], t, now)
  {
    assert (steps + [step])[..|steps|] == steps;
    assert AnsweredAt(start, steps + [step], |steps|, t, now);
  }

  /** In every reachable state a ready task pairs its chunks with the components of one reply to that very task. */
  lemma {:induction false} TasksAreAnswered(start: State, steps: seq<Step>, t: TaskId)
    requires start.tasks == map[] && t in Run(start, steps).tasks
    ensures Answered(start, steps, t, Run(start, steps).tasks[t])
  {
    if steps != [] {
      var before, step := steps[..|steps| - 1], steps[|steps| - 1];
      var s, now := Run(start, before), Run(start, steps).tasks[t];
      RunLast(start, before, step);
      assert steps == before + [step];
      if now.Ready? && now.chunks != [] {
        StepAnswers(s, step, t);
        if s.tasks[t] == now {
          TasksAreAnswered(start, before, t);
          AnsweredGrows(start, before, step, t, now);
        } else {
          AnsweredNow(start, before, step, t, now);
        }
      }
    }
  }

  lemma TaskReadGrows(start: State, steps: seq<Step>, step: Step, was: Task, now: Task)
    requires TaskRead(start, steps, was) && SameSnapshot(was, now)
    ensures TaskRead(start, steps + [step], now)
  {
    var k :| 0 <= k <= |steps| && ReadIn(Run(start, steps[..k]), was);
    assert (steps + [step])[..k] == steps[..k];
    assert ReadIn(Run(start, (steps + [step])[..k]), now);
  }

  lemma TaskReadNow(start: State, steps: seq<Step>, step: Step, now: Task)
    requires ReadIn(Run(start, steps), now)
    ensures TaskRead(start, steps + [step], now)
  {
    assert (steps + [step])[..|steps|] == steps;
    assert ReadIn(Run(start, (steps + [step])[..|steps|]), now);
  }

  lemma RowsReadGrows(start: State, steps: seq<Step>, step: Step, rows: seq<ChunkRow>, id: DocId)
    requires RowsRead(start, steps, rows, id)
    ensures RowsRead(start, steps + [step], rows, id)
  {
    var k :| 0 <= k <= |steps| && IndexedIn(Run(start, steps[..k]), rows, id);
    assert (steps + [step])[..k] == steps[..k];
  }

  lemma RowsEmbeddedGrows(start: State, steps: seq<Step>, step: Step, rows: seq<ChunkRow>, id: DocId)
    requires RowsEmbedded(start, steps, rows, id)
    ensures RowsEmbedded(start, steps + [step], rows, id)
  {
    var k: nat :| EmbeddedAt(start, steps, k, rows, id);
    var task := Run(start, steps[..k]).tasks[steps[k].task];
    assert (steps + [step])[..k] == steps[..k];
    TaskReadGrows(start, steps, step, task, task);
    assert EmbeddedAt(start, steps + [step], k, rows, id);
  }

  lemma RunLast(start: State, steps: seq<Step>, step: Step)
    ensures Run(start, steps + [step]) == Apply(Run(start, steps), step)
  {
    assert (steps + [step])[..|steps|] == steps;
  }

  /** What a step can do to the tasks: drop them, keep them, begin one on the current document, or advance one. */
  lemma StepTasks(s: State, step: Step, t: TaskId)
    requires t in Apply(s, step).tasks
    requires t in s.tasks ==> WholeTask(s.tasks[t])
    ensures WholeTask(Apply(s, step).tasks[t])
    ensures var now := Apply(s, step).tasks[t];
            || ReadIn(s, now)
            || (t in s.tasks && SameSnapshot(s.tasks[t], now))
  {
  }

  lemma {:induction false} TasksAlwaysSound(start: State, steps: seq<Step>)
    requires start.tasks == map[]
    ensures TasksSound(start, steps)
  {
    if steps != [] {
      var before, step := steps[..|steps| - 1], steps[|steps| - 1];
      TasksAlwaysSound(start, before);
      RunLast(start, before, step);
      assert steps == before + [step];
      var s := Run(start, before);
      forall t | t in Run(start, steps).tasks
        ensures WholeTask(Run(start, steps).tasks[t]) && TaskRead(start, steps, Run(start, steps).tasks[t])
      {
        StepTasks(s, step, t);
        var now := Run(start, steps).tasks[t];
        if ReadIn(s, now) {
          TaskReadNow(start, before, step, now);
        } else {
          TaskReadGrows(start, before, step, s.tasks[t], now);
        }
      }
    }
  }

  /** The step commits a replacement of the document's rows. */
  predicate Replaces(s: State, step: Step, id: DocId) {
    step.Replace? && CanReplace(s, step.task) && s.tasks[step.task].doc == id && id in s.store.documents
  }

  /** The rows the task has to write. */
  function TaskRows(task: Task): seq<ChunkRow>
    requires task.Ready? && |task.chunks| == |task.vectors|
  {
    IndexRows(task.doc, task.chunks, task.vectors, task.config.id, task.params)
  }

  lemma DeleteRows(s: State, gone: DocId, id: DocId)
    ensures RowsOf(Apply(s, Delete(gone)).store.rows, id)
            == if gone == id && id in s.store.documents then [] else RowsOf(s.store.rows, id)
  {
    RowsOfWithout(s.store.rows, gone, id);
  }

  lemma ReplacedRows(s: State, t: TaskId, id: DocId)
    ensures RowsOf(Apply(s, Replace(t)).store.rows, id)
            == if Replaces(s, Replace(t), id) then TaskRows(s.tasks[t]) else RowsOf(s.store.rows, id)
  {
    if CanReplace(s, t) && s.tasks[t].doc in s.store.documents {
      ReplaceRows(s.store, s.tasks[t], id);
    }
  }

  lemma OtherStepRows(s: State, step: Step)
    requires !step.Delete? && !step.Replace?
    ensures Apply(s, step).store.rows == s.store.rows
  {
  }

  /**
   The rows of a document change only by deleting the document, which removes them, or by
   a replacement that commits, which leaves exactly the task's rows.  In particular no
   failed task and no edit changes a chunk.
   */
  lemma RowsChangeOnlyBy(s: State, step: Step, id: DocId)
    ensures RowsOf(Apply(s, step).store.rows, id) ==
            if step.Delete? && step.id == id && id in s.store.documents then []
            else if Replaces(s, step, id) then TaskRows(s.tasks[step.task])
            else RowsOf(s.store.rows, id)
  {
    match step {
      case Delete(gone) => DeleteRows(s, gone, id);
      case Replace(t) => ReplacedRows(s, t, id);
      case _ => OtherStepRows(s, step);
    }
  }

  ghost predicate AllOrNothing(start: State, steps: seq<Step>, id: DocId) {
    var s := Run(start, steps);
    var rows := RowsOf(s.store.rows, id);
    rows != [] ==>
      id in s.store.documents && RowsRead(start, steps, rows, id) && RowsEmbedded(start, steps, rows, id)
  }

  lemma ReplaceIndexes(start: State, steps: seq<Step>, step: Step, id: DocId)
    requires start.tasks == map[]
    requires Replaces(Run(start, steps), step, id)
    ensures RowsRead(start, steps + [step], RowsOf(Run(start, steps + [step]).store.rows, id), id)
  {
    var s := Run(start, steps);
    var task := s.tasks[step.task];
    TasksAlwaysSound(start, steps);
    RowsChangeOnlyBy(s, step, id);
    RunLast(start, steps, step);
    var k :| 0 <= k <= |steps| && ReadIn(Run(start, steps[..k]), task);
    var rows := RowsOf(Run(start, steps + [step]).store.rows, id);
    assert rows == TaskRows(task);
    assert IsIndexOf(rows, id, task.content, task.config);
    assert (steps + [step])[..k] == steps[..k];
    assert IndexedIn(Run(start, (steps + [step])[..k]), rows, id);
  }

  lemma ReplaceEmbeds(start: State, steps: seq<Step>, step: Step, id: DocId)
    requires start.tasks == map[]
    requires Replaces(Run(start, steps), step, id) && Run(start, steps).tasks[step.task].chunks != []
    ensures RowsEmbedded(start, steps, TaskRows(Run(start, steps).tasks[step.task]), id)
  {
    var task := Run(start, steps).tasks[step.task];
    TasksAlwaysSound(start, steps);
    TasksAreAnswered(start, steps, step.task);
    var k: nat :| AnsweredAt(start, steps, k, step.task, task);
    var asked := Run(start, steps[..k]).tasks[step.task];
    SameTaskRead(start, steps, task, asked);
    assert EmbeddedAt(start, steps, k, TaskRows(task), id);
  }

  lemma SameTaskRead(start: State, steps: seq<Step>, a: Task, b: Task)
    requires TaskRead(start, steps, a) && SameSnapshot(a, b)
    ensures TaskRead(start, steps, b)
  {
    var k :| 0 <= k <= |steps| && ReadIn(Run(start, steps[..k]), a);
    assert ReadIn(Run(start, steps[..k]), b);
  }

  lemma DocumentStays(s: State, step: Step, id: DocId)
    requires id in s.store.documents
    ensures id in Apply(s, step).store.documents <==> !(step.Delete? && step.id == id)
  {
  }

  lemma StepKeepsAllOrNothing(start: State, steps: seq<Step>, step: Step, id: DocId)
    requires start.tasks == map[]
    requires AllOrNothing(start, steps, id)
    ensures AllOrNothing(start, steps + [step], id)
  {
    var s := Run(start, steps);
    RunLast(start, steps, step);
    RowsChangeOnlyBy(s, step, id);
    if id in s.store.documents {
      DocumentStays(s, step, id);
      if Replaces(s, step, id) {
        ReplaceIndexes(start, steps, step, id);
        if s.tasks[step.task].chunks != [] {
          ReplaceEmbeds(start, steps, step, id);
          RowsEmbeddedGrows(start, steps, step, TaskRows(s.tasks[step.task]), id);
        }
      } else if RowsOf(s.store.rows, id) != [] {
        RowsReadGrows(start, steps, step, RowsOf(s.store.rows, id), id);
        RowsEmbeddedGrows(start, steps, step, RowsOf(s.store.rows, id), id);
      }
    }
  }

  /**
   In every reachable state the rows of a document are either none, or the complete index
   of the content the document had at one moment of the run under the config that was the
   default at that same moment, and their embeddings are one reply of the provider to a
   task on that content, row i with component i.  A deleted document has no rows.
   */
  lemma {:induction false} ReplacementIsAllOrNothing(embedding: Option<EmbeddingConfig>, steps: seq<Step>, id: DocId)
    ensures AllOrNothing(Initial(embedding), steps, id)
  {
    if steps != [] {
      var before, step := steps[..|steps| - 1], steps[|steps| - 1];
      ReplacementIsAllOrNothing(embedding, before, id);
      StepKeepsAllOrNothing(Initial(embedding), before, step, id);
      assert steps == before + [step];
    }
  }

  /** No chunk row belongs to a document that is not there. */
  lemma NoOrphans(embedding: Option<EmbeddingConfig>, steps: seq<Step>)
    ensures var s := Run(Initial(embedding), steps);
            forall r :: r in s.store.rows ==> r.documentId in s.store.documents
  {
    var s := Run(Initial(embedding), steps);
    forall r | r in s.store.rows
      ensures r.documentId in s.store.documents
    {
      assert r in RowsOf(s.store.rows, r.documentId);
      ReplacementIsAllOrNothing(embedding, steps, r.documentId);
    }
  }

  predicate AllFit(documents: map<DocId, Doc>) {
    forall id :: id in documents ==> Fits(documents[id])
  }

  /** Every stored document fits its columns: what they refuse is never stored, and so never indexed. */
  lemma {:induction false} DocumentsFit(embedding: Option<EmbeddingConfig>, steps: seq<Step>)
    ensures AllFit(Run(Initial(embedding), steps).store.documents)
    ensures forall id :: id in Run(Initial(embedding), steps).store.documents ==>
                           var doc := Run(Initial(embedding), steps).store.documents[id];
                           && |doc.title| <= 255 && '\0' !in doc.title && '\0' !in doc.content
                           && Frontmatter.JsonTree(doc.metadata) && Frontmatter.NulFreeTree(doc.metadata)
  {
    if steps != [] {
      var before := steps[..|steps| - 1];
      DocumentsFit(embedding, before);
      StepKeepsFit(Run(Initial(embedding), before), steps[|steps| - 1]);
    }
    var documents := Run(Initial(embedding), steps).store.documents;
    forall id | id in documents
      ensures |documents[id].title| <= 255 && '\0' !in documents[id].title && '\0' !in documents[id].content
      ensures Frontmatter.JsonTree(documents[id].metadata) && Frontmatter.NulFreeTree(documents[id].metadata)
    {
      FitsIff(documents[id]);
    }
  }

  lemma StepKeepsFit(s: State, step: Step)
    requires AllFit(s.store.documents)
    ensures AllFit(Apply(s, step).store.documents)
  {
  }

  /** What the commands leave in a document, and what ends a task. */
  lemma StepEffects(s: State, id: DocId, title: string, upload: Upload, t: TaskId, embedding: Option<EmbeddingConfig>)
    ensures var next := Apply(s, Create(id, title, upload)).store.documents;
            upload.Success? && id !in s.store.documents && id in next ==>
              next[id] == Doc(title, upload.value.body, upload.value.metadata)
    ensures var next := Apply(s, Update(id, Some(title), None)).store.documents;
            id in s.store.documents ==>
              && id in next && next[id].content == s.store.documents[id].content
              && next[id].title == if Fits(s.store.documents[id].(title := title)) then title
                                   else s.store.documents[id].title
    ensures Apply(s, Configure(embedding)).store == s.store.(embedding := embedding)
    ensures t !in Apply(s, Fail(t)).tasks && Apply(s, Fail(t)).store == s.store
  {
  }

  // ---------------------------------------------------------------- freshness

  /** The rows are the whole index of content, under some config. */
  ghost predicate Fresh(rows: seq<ChunkRow>, id: DocId, content: string) {
    exists config :: IsIndexOf(rows, id, content, config)
  }

  predicate Running(s: State, id: DocId) {
    exists t :: t in s.tasks && s.tasks[t].doc == id
  }

  /** The step ends a task of the document with an exception. */
  predicate FailsTask(s: State, step: Step, id: DocId) {
    match step
    case Begin(t, d) => d == id && t !in s.tasks && ReadPhase(s.store, d) in {NoConfig, BadParams}
    case Embed(t, reply) =>
      t in s.tasks && s.tasks[t].doc == id && s.tasks[t].Read? && EmbedPhase(s.tasks[t], reply).None?
    case Fail(t) => t in s.tasks && s.tasks[t].doc == id
    case _ => false
  }

  /** The step begins a task of the document while another one is running. */
  predicate Overlaps(s: State, step: Step, id: DocId) {
    step.Begin? && step.id == id && Running(s, id)
  }

  /** Along the run no task of the document fails and no two of them overlap. */
  ghost predicate Calm(start: State, steps: seq<Step>, id: DocId) {
    forall k :: 0 <= k < |steps| ==>
                  && !FailsTask(Run(start, steps[..k]), steps[k], id)
                  && !Overlaps(Run(start, steps[..k]), steps[k], id)
  }

  ghost predicate Single(s: State, id: DocId) {
    forall t, u :: t in s.tasks && u in s.tasks && s.tasks[t].doc == id && s.tasks[u].doc == id ==> t == u
  }

  /** Every running task of the document holds the given content. */
  ghost predicate TasksHold(s: State, id: DocId, content: string) {
    forall t :: t in s.tasks && s.tasks[t].doc == id ==> s.tasks[t].content == content
  }

  /** A task is still queued, or the running task's snapshot is current, or the index is fresh and nothing runs. */
  ghost predicate FreshOrPending(s: State, id: DocId) {
    id in s.store.documents ==>
      var content := s.store.documents[id].content;
      || s.store.queue[id] > 0
      || (TasksHold(s, id, content) && (Running(s, id) || Fresh(RowsOf(s.store.rows, id), id, content)))
  }

  ghost predicate Good(s: State, id: DocId) {
    && Single(s, id)
    && FreshOrPending(s, id)
    && forall t :: t in s.tasks ==>
                     WholeTask(s.tasks[t]) && ValidateParams(s.tasks[t].config.params) == Some(s.tasks[t].params)
  }

  lemma PhaseIsFresh(s: Store, task: Task)
    requires task.Ready? && WholeTask(task) && ValidateParams(task.config.params) == Some(task.params)
    requires task.doc in s.documents
    ensures Fresh(RowsOf(ReplacePhase(s, task).rows, task.doc), task.doc, task.content)
  {
    ReplaceRows(s, task, task.doc);
    assert IsIndexOf(TaskRows(task), task.doc, task.content, task.config);
  }

  lemma ReplaceIsFresh(s: State, t: TaskId)
    requires CanReplace(s, t) && WholeTask(s.tasks[t])
    requires ValidateParams(s.tasks[t].config.params) == Some(s.tasks[t].params)
    requires s.tasks[t].doc in s.store.documents
    ensures Fresh(RowsOf(Apply(s, Replace(t)).store.rows, s.tasks[t].doc), s.tasks[t].doc, s.tasks[t].content)
  {
    var task := s.tasks[t];
    PhaseIsFresh(s.store, task);
    assert Apply(s, Replace(t)).store == ReplacePhase(s.store, task);
  }

  lemma StepKeepsSingle(s: State, step: Step, id: DocId)
    requires Good(s, id)
    requires !FailsTask(s, step, id) && !Overlaps(s, step, id)
    ensures Single(Apply(s, step), id)
  {
  }

  /** A command that leaves nothing queued for the document did not touch its content or its rows. */
  lemma CommandFacts(s: State, step: Step, id: DocId)
    requires step.Create? || step.Update? || step.Delete? || step.Configure?
    requires id in Apply(s, step).store.documents && Apply(s, step).store.queue[id] == 0
    ensures Apply(s, step).tasks == s.tasks
    ensures id in s.store.documents && s.store.queue[id] == 0
    ensures Apply(s, step).store.documents[id].content == s.store.documents[id].content
  {
  }

  lemma CommandKeepsFresh(s: State, step: Step, id: DocId)
    requires Good(s, id)
    requires step.Create? || step.Update? || step.Delete? || step.Configure?
    ensures FreshOrPending(Apply(s, step), id)
  {
    var next := Apply(s, step);
    if id in next.store.documents && next.store.queue[id] == 0 {
      CommandFacts(s, step, id);
      RowsChangeOnlyBy(s, step, id);
      OtherTaskKeepsFresh(s, next, id);
    }
  }

  /** A step that leaves a document's content, queue, rows and tasks alone keeps its standing. */
  lemma OtherTaskKeepsFresh(s: State, next: State, id: DocId)
    requires FreshOrPending(s, id)
    requires id in next.store.documents ==>
               id in s.store.documents && next.store.documents[id].content == s.store.documents[id].content
    requires next.store.queue[id] == s.store.queue[id]
    requires RowsOf(next.store.rows, id) == RowsOf(s.store.rows, id)
    requires forall t :: t in s.tasks && s.tasks[t].doc == id ==> t in next.tasks && next.tasks[t] == s.tasks[t]
    requires forall t :: t in next.tasks && next.tasks[t].doc == id ==> t in s.tasks && next.tasks[t] == s.tasks[t]
    ensures FreshOrPending(next, id)
  {
    if Running(s, id) {
      var t :| t in s.tasks && s.tasks[t].doc == id;
      assert next.tasks[t].doc == id;
    }
  }

  lemma BeginKeepsFresh(s: State, step: Step, id: DocId)
    requires Good(s, id)
    requires step.Begin? && !FailsTask(s, step, id) && !Overlaps(s, step, id)
    ensures FreshOrPending(Apply(s, step), id)
  {
    var next := Apply(s, step);
    if id in s.store.documents && step.task !in s.tasks {
      if step.id == id {
        assert next.tasks[step.task].doc == id;
        assert TasksHold(next, id, s.store.documents[id].content);
      } else {
        OtherTaskKeepsFresh(s, next, id);
      }
    }
  }

  /** The one thing a task that does not fail can do in its second phase is stay, with the same content. */
  lemma EmbedFacts(s: State, step: Step, id: DocId)
    requires (step.Embed? || step.Fail?) && !FailsTask(s, step, id)
    ensures Apply(s, step).store == s.store
    ensures forall t :: t in s.tasks && s.tasks[t].doc == id ==>
                          t in Apply(s, step).tasks && Apply(s, step).tasks[t].doc == id
    ensures forall t :: t in Apply(s, step).tasks ==>
                          t in s.tasks && Apply(s, step).tasks[t].doc == s.tasks[t].doc
                          && Apply(s, step).tasks[t].content == s.tasks[t].content
  {
  }

  lemma EmbedKeepsFresh(s: State, step: Step, id: DocId)
    requires Good(s, id)
    requires (step.Embed? || step.Fail?) && !FailsTask(s, step, id)
    ensures FreshOrPending(Apply(s, step), id)
  {
    EmbedFacts(s, step, id);
    if Running(s, id) {
      var t :| t in s.tasks && s.tasks[t].doc == id;
      assert t in Apply(s, step).tasks && Apply(s, step).tasks[t].doc == id;
    }
  }

  lemma OwnReplaceKeepsFresh(s: State, t: TaskId)
    requires CanReplace(s, t)
    requires Good(s, s.tasks[t].doc)
    ensures FreshOrPending(Apply(s, Replace(t)), s.tasks[t].doc)
  {
    var task := s.tasks[t];
    if task.doc in s.store.documents {
      ReplaceIsFresh(s, t);
      assert TasksHold(Apply(s, Replace(t)), task.doc, s.store.documents[task.doc].content);
    }
  }

  lemma StepKeepsTasksWhole(s: State, step: Step, id: DocId)
    requires Good(s, id)
    ensures var next := Apply(s, step);
            forall t :: t in next.tasks ==>
                          WholeTask(next.tasks[t])
                          && ValidateParams(next.tasks[t].config.params) == Some(next.tasks[t].params)
  {
    var next := Apply(s, step);
    forall t | t in next.tasks
      ensures WholeTask(next.tasks[t]) && ValidateParams(next.tasks[t].config.params) == Some(next.tasks[t].params)
    {
      StepTasks(s, step, t);
    }
  }

  lemma StepKeepsGood(s: State, step: Step, id: DocId)
    requires Good(s, id)
    requires !FailsTask(s, step, id) && !Overlaps(s, step, id)
    ensures Good(Apply(s, step), id)
  {
    StepKeepsSingle(s, step, id);
    StepKeepsTasksWhole(s, step, id);
    match step {
      case Begin(_, _) => BeginKeepsFresh(s, step, id);
      case Embed(_, _) => EmbedKeepsFresh(s, step, id);
      case Fail(_) => EmbedKeepsFresh(s, step, id);
      case Replace(t) =>
        if CanReplace(s, t) && s.tasks[t].doc == id {
          OwnReplaceKeepsFresh(s, t);
        } else if CanReplace(s, t) {
          RowsChangeOnlyBy(s, step, id);
          OtherTaskKeepsFresh(s, Apply(s, step), id);
        }
      case _ => CommandKeepsFresh(s, step, id);
    }
  }

  lemma {:induction false} CalmRunsStayGood(embedding: Option<EmbeddingConfig>, steps: seq<Step>, id: DocId)
    requires Calm(Initial(embedding), steps, id)
    ensures Good(Run(Initial(embedding), steps), id)
  {
    var start := Initial(embedding);
    if steps != [] {
      var n := |steps| - 1;
      var before := steps[..n];
      forall k | 0 <= k < |before|
        ensures !FailsTask(Run(start, before[..k]), before[k], id) && !Overlaps(Run(start, before[..k]), before[k], id)
      {
        assert before[..k] == steps[..k];
      }
      CalmRunsStayGood(embedding, before, id);
      StepKeepsGood(Run(start, before), steps[n], id);
    }
  }

  /**
   When no task of the document fails and no two overlap, then whenever nothing is queued
   and nothing is running for it, its rows are the whole index of its current content.
   */
  lemma FreshWhenIdle(embedding: Option<EmbeddingConfig>, steps: seq<Step>, id: DocId)
    requires Calm(Initial(embedding), steps, id)
    ensures var s := Run(Initial(embedding), steps);
            id in s.store.documents && s.store.queue[id] == 0 && !Running(s, id) ==>
              Fresh(RowsOf(s.store.rows, id), id, s.store.documents[id].content)
  {
    CalmRunsStayGood(embedding, steps, id);
  }

  // ---------------------------------------------------------------- freshness without assumptions

  lemma SameIndexSameContent(
      rows: seq<ChunkRow>, id: DocId, a: string, p: EmbeddingConfig, b: string, q: EmbeddingConfig)
    requires IsIndexOf(rows, id, a, p) && IsIndexOf(rows, id, b, q)
    ensures a == b
  {
    var params, others := ValidateParams(p.params).value, ValidateParams(q.params).value;
    var chunks := Chunking.Chunks(a, params.chunkSize, params.chunkOverlap);
    var pieces := Chunking.Chunks(b, others.chunkSize, others.chunkOverlap);
    if rows == [] {
      assert chunks == [] && pieces == [];
      Chunking.Reassembles(a, params.chunkSize, params.chunkOverlap);
      Chunking.Reassembles(b, others.chunkSize, others.chunkOverlap);
    } else {
      assert params == rows[0].params == others;
      assert forall i :: 0 <= i < |rows| ==> chunks[i] == rows[i].content == pieces[i];
      assert chunks == pieces;
      Chunking.ChunksInjective(a, b, params.chunkSize, params.chunkOverlap);
    }
  }

  /**
   Replacement has no content-version guard: the index it leaves is fresh exactly when the
   content the task read in its first phase is still the document's content.
   */
  lemma ReplaceFreshIff(s: State, t: TaskId)
    requires CanReplace(s, t) && WholeTask(s.tasks[t])
    requires ValidateParams(s.tasks[t].config.params) == Some(s.tasks[t].params)
    requires s.tasks[t].doc in s.store.documents
    ensures var id := s.tasks[t].doc;
            Fresh(RowsOf(Apply(s, Replace(t)).store.rows, id), id, s.store.documents[id].content)
            <==> s.tasks[t].content == s.store.documents[id].content
  {
    var task := s.tasks[t];
    ReplaceIsFresh(s, t);
    FreshOfBoth(RowsOf(Apply(s, Replace(t)).store.rows, task.doc), task.doc,
                task.content, s.store.documents[task.doc].content);
  }

  /** What the last committed replacement of the document read, if any since the document was last deleted. */
  function LastRead(start: State, steps: seq<Step>, id: DocId): Option<string> {
    if steps == [] then None
    else
      var before, step := steps[..|steps| - 1], steps[|steps| - 1];
      var s := Run(start, before);
      if step.Delete? && step.id == id && id in s.store.documents then None
      else if Replaces(s, step, id) then Some(s.tasks[step.task].content)
      else LastRead(start, before, id)
  }

  /** The rows are the whole index of that content; none when there was no replacement. */
  ghost predicate IndexOfLastRead(rows: seq<ChunkRow>, id: DocId, read: Option<string>) {
    if read.None? then rows == [] else Fresh(rows, id, read.value)
  }

  lemma ReplacementReads(start: State, steps: seq<Step>, step: Step, id: DocId)
    requires start.tasks == map[] && Replaces(Run(start, steps), step, id)
    ensures var s := Run(start, steps);
            Fresh(RowsOf(Apply(s, step).store.rows, id), id, s.tasks[step.task].content)
  {
    TasksAlwaysSound(start, steps);
    ReplaceIsFresh(Run(start, steps), step.task);
  }

  lemma {:induction false} RowsAreLastRead(embedding: Option<EmbeddingConfig>, steps: seq<Step>, id: DocId)
    ensures IndexOfLastRead(RowsOf(Run(Initial(embedding), steps).store.rows, id), id,
                            LastRead(Initial(embedding), steps, id))
  {
    if steps != [] {
      var start, before, step := Initial(embedding), steps[..|steps| - 1], steps[|steps| - 1];
      var s := Run(start, before);
      RowsAreLastRead(embedding, before, id);
      RowsChangeOnlyBy(s, step, id);
      if Replaces(s, step, id) {
        ReplacementReads(start, before, step, id);
      }
    }
  }

  lemma NoRowsForNoContent(id: DocId, config: EmbeddingConfig)
    requires ValidateParams(config.params).Some?
    ensures IsIndexOf([], id, "", config)
  {
    var params := ValidateParams(config.params).value;
    assert |Chunking.Chunks("", params.chunkSize, params.chunkOverlap)| == 0;
  }

  lemma EmptyIndex(id: DocId, content: string)
    ensures Fresh([], id, content) <==> content == ""
  {
    var config := EmbeddingConfig(0, "", "", RawParams(Some(256), Some(0), Some(Chunking.FIXED_SIZE)));
    NoRowsForNoContent(id, config);
    FreshOfBoth([], id, "", content);
  }

  /**
   In every run, with failures and overlaps of any kind, a document's index is fresh
   exactly when its last committed replacement read the content it has now, or when none
   was committed and its content is empty.
   */
  lemma FreshIff(embedding: Option<EmbeddingConfig>, steps: seq<Step>, id: DocId)
    requires id in Run(Initial(embedding), steps).store.documents
    ensures var s, read := Run(Initial(embedding), steps), LastRead(Initial(embedding), steps, id);
            var content := s.store.documents[id].content;
            Fresh(RowsOf(s.store.rows, id), id, content) <==> content == if read.Some? then read.value else ""
  {
    var s, read := Run(Initial(embedding), steps), LastRead(Initial(embedding), steps, id);
    var rows, content := RowsOf(s.store.rows, id), s.store.documents[id].content;
    RowsAreLastRead(embedding, steps, id);
    if read.None? {
      EmptyIndex(id, content);
    } else {
      FreshOfBoth(rows, id, read.value, content);
    }
  }

  lemma FreshOfBoth(rows: seq<ChunkRow>, id: DocId, read: string, content: string)
    requires Fresh(rows, id, read)
    ensures Fresh(rows, id, content) <==> content == read
  {
    if Fresh(rows, id, content) {
      var p :| IsIndexOf(rows, id, read, p);
      var q :| IsIndexOf(rows, id, content, q);
      SameIndexSameContent(rows, id, read, p, content, q);
    }
  }

  // ---------------------------------------------------------------- why overlap matters

  ghost predicate NoFailure(start: State, steps: seq<Step>, id: DocId) {
    forall k :: 0 <= k < |steps| ==> !FailsTask(Run(start, steps[..k]), steps[k], id)
  }

  /** A run without failures goes on with a step that is none. */
  lemma Extend(start: State, steps: seq<Step>, step: Step, id: DocId) returns (longer: seq<Step>)
    requires NoFailure(start, steps, id) && !FailsTask(Run(start, steps), step, id)
    ensures NoFailure(start, longer, id)
    ensures Run(start, longer) == Apply(Run(start, steps), step)
  {
    longer := steps + [step];
    RunLast(start, steps, step);
    forall k | 0 <= k < |steps + [step]|
      ensures !FailsTask(Run(start, (steps + [step])[..k]), (steps + [step])[k], id)
    {
      assert (steps + [step])[..k] == steps[..k];
      assert steps[..|steps|] == steps;
    }
  }

  /** The columns take an untitled document with this upload. */
  predicate FitsUntitled(document: Frontmatter.Document) {
    Fits(Doc("", document.body, document.metadata))
  }

  /** A document is made and a task has read it. */
  lemma OneRead(config: EmbeddingConfig, id: DocId, document: Frontmatter.Document) returns (steps: seq<Step>)
    requires ValidateParams(config.params).Some? && FitsUntitled(document)
    ensures NoFailure(Initial(Some(config)), steps, id)
    ensures Run(Initial(Some(config)), steps) == OneReader(config, id, document)
  {
    var start := Initial(Some(config));
    steps := Extend(start, [], Create(id, "", Success(document)), id);
    steps := Extend(start, steps, Begin(1, id), id);
  }

  function OneReader(config: EmbeddingConfig, id: DocId, document: Frontmatter.Document): State
    requires ValidateParams(config.params).Some?
  {
    State(Store(map[id := Doc("", document.body, document.metadata)], [], multiset{}, Some(config)),
          map[1 := Read(id, document.body, config, ValidateParams(config.params).value)])
  }

  lemma SecondRead(config: EmbeddingConfig, id: DocId, before: Frontmatter.Document, after: Frontmatter.Document)
    requires ValidateParams(config.params).Some? && FitsUntitled(before) && FitsUntitled(after)
    ensures var edited := Apply(OneReader(config, id, before), Update(id, None, Some(Success(after))));
            var params := ValidateParams(config.params).value;
            && !FailsTask(edited, Begin(2, id), id)
            && var s := Apply(edited, Begin(2, id));
               && s.store == Store(map[id := Doc("", after.body, after.metadata)], [], multiset{}, Some(config))
               && s.tasks == map[1 := Read(id, before.body, config, params), 2 := Read(id, after.body, config, params)]
  {
    var edited := Apply(OneReader(config, id, before), Update(id, None, Some(Success(after))));
    assert Updated(Doc("", before.body, before.metadata), None, Some(Success(after)))
           == Doc("", after.body, after.metadata);
    assert edited.store == Store(map[id := Doc("", after.body, after.metadata)], [], multiset{id}, Some(config));
    assert multiset{id} - multiset{id} == multiset{};
  }

  /** Two tasks have read the document, one before and one after an edit. */
  lemma BothRead(config: EmbeddingConfig, id: DocId, before: Frontmatter.Document, after: Frontmatter.Document)
    returns (steps: seq<Step>)
    requires ValidateParams(config.params).Some? && FitsUntitled(before) && FitsUntitled(after)
    ensures NoFailure(Initial(Some(config)), steps, id)
    ensures var s := Run(Initial(Some(config)), steps);
            var params := ValidateParams(config.params).value;
            && s.store == Store(map[id := Doc("", after.body, after.metadata)], [], multiset{}, Some(config))
            && s.tasks == map[1 := Read(id, before.body, config, params), 2 := Read(id, after.body, config, params)]
  {
    var start := Initial(Some(config));
    SecondRead(config, id, before, after);
    steps := OneRead(config, id, before);
    steps := Extend(start, steps, Update(id, None, Some(Success(after))), id);
    steps := Extend(start, steps, Begin(2, id), id);
  }

  /** A task that has read runs to its end and commits. */
  lemma Finish(start: State, steps: seq<Step>, t: TaskId, id: DocId) returns (longer: seq<Step>)
    requires NoFailure(start, steps, id)
    requires t in Run(start, steps).tasks && Run(start, steps).tasks[t].Read? && Run(start, steps).tasks[t].doc == id
    requires id in Run(start, steps).store.documents
    requires var task := Run(start, steps).tasks[t];
             ChunkContent(task.content, task.params).Success? && ValidateParams(task.config.params) == Some(task.params)
    ensures NoFailure(start, longer, id)
    ensures var s, next := Run(start, steps), Run(start, longer);
            && next.tasks == s.tasks - {t}
            && next.store.documents == s.store.documents && next.store.queue == s.store.queue
            && (Fresh(RowsOf(next.store.rows, id), id, s.store.documents[id].content)
                <==> s.tasks[t].content == s.store.documents[id].content)
  {
    var s := Run(start, steps);
    var chunks := ChunkContent(s.tasks[t].content, s.tasks[t].params).value;
    var reply := Some(seq(|chunks|, i => []));
    longer := Extend(start, steps, Embed(t, reply), id);
    var embedded := Run(start, longer);
    assert CanReplace(embedded, t);
    ReplaceFreshIff(embedded, t);
    longer := Extend(start, longer, Replace(t), id);
    assert Run(start, longer).tasks == s.tasks - {t};
  }

  /**
   The non-overlap assumption is needed (docs/knowledge-base-chunking-research.md line 38): for every document
   and every edit that changes its content there is a run in which nothing fails, and
   nothing is queued or running at the end, but the index is not of the current content.
   */
  lemma OverlapLosesAnEdit(
      config: EmbeddingConfig, id: DocId, before: Frontmatter.Document, after: Frontmatter.Document)
    returns (steps: seq<Step>)
    requires ValidateParams(config.params).Some? && before.body != after.body
    requires FitsUntitled(before) && FitsUntitled(after)
    requires ChunkContent(before.body, ValidateParams(config.params).value).Success?
    requires ChunkContent(after.body, ValidateParams(config.params).value).Success?
    ensures NoFailure(Initial(Some(config)), steps, id)
    ensures var s := Run(Initial(Some(config)), steps);
            && id in s.store.documents && s.store.queue[id] == 0 && !Running(s, id)
            && s.store.documents[id].content == after.body
            && !Fresh(RowsOf(s.store.rows, id), id, after.body)
  {
    steps := BothRead(config, id, before, after);
    steps := Finish(Initial(Some(config)), steps, 2, id);
    steps := Finish(Initial(Some(config)), steps, 1, id);
  }

  // ---------------------------------------------------------------- one task, undisturbed

  /** The store after a task that ran from its message to its end with nothing in between. */
  function TaskOutcome(s: Store, id: DocId, reply: Option<seq<Vector>>): Store {
    var taken := s.(queue := s.queue - multiset{id});
    var read := ReadPhase(s, id);
    if !read.Snapshot? then taken
    else
      var ready := EmbedPhase(read.task, reply);
      if ready.None? then taken else ReplacePhase(taken, ready.value)
  }

  /** The three steps of a run, one after the other, are that outcome. */
  lemma TaskOutcomeIsRun(s: Store, t: TaskId, id: DocId, reply: Option<seq<Vector>>)
    ensures Apply(Apply(Apply(State(s, map[]), Begin(t, id)), Embed(t, reply)), Replace(t))
            == State(TaskOutcome(s, id, reply), map[])
  {
    var begun := Apply(State(s, map[]), Begin(t, id));
    var embedded := Apply(begun, Embed(t, reply));
    var read := ReadPhase(s, id);
    if read.Snapshot? {
      assert begun.tasks == map[t := read.task];
      var ready := EmbedPhase(read.task, reply);
      if ready.Some? {
        assert embedded.tasks == map[t := ready.value];
        assert embedded.tasks - {t} == map[];
      } else {
        assert embedded.tasks == map[];
      }
    }
  }

  /** There is a valid config, the content has at most 1000 chunks, and the provider gives one vector for each. */
  ghost predicate CanIndex(content: string, embedding: Option<EmbeddingConfig>, reply: Option<seq<Vector>>) {
    && embedding.Some? && ValidateParams(embedding.value.params).Some?
    && var size, overlap := embedding.value.params.chunkSize.value, embedding.value.params.chunkOverlap.value;
       && |content| <= 1000 * (size - overlap)
       && (content == "" || (reply.Some? && |reply.value| == |Chunking.Chunks(content, size, overlap)|))
  }

  /** Only the empty content has no chunk. */
  lemma NoChunksIff(content: string, size: nat, overlap: nat)
    requires overlap < size
    ensures Chunking.Chunks(content, size, overlap) == [] <==> content == ""
  {
    Chunking.Reassembles(content, size, overlap);
    Chunking.Reassembles("", size, overlap);
  }

  /**
   index_knowledge_document_task from its message to its commit, with nothing in between:
   it does what its three steps do in a run, an exception leaves every row as it was, and
   success leaves the document, if it is still there, indexed under the default config.
   */
  method IndexKnowledgeDocument(kb: KnowledgeBase, id: DocId, reply: Option<seq<Vector>>) returns (raised: bool)
    modifies kb
    ensures kb.View() == TaskOutcome(old(kb.View()), id, reply)
    ensures kb.documents == old(kb.documents) && kb.embedding == old(kb.embedding)
    ensures kb.queue == old(kb.queue) - multiset{id}
    ensures raised <==> id in kb.documents && !CanIndex(kb.documents[id].content, kb.embedding, reply)
    ensures raised || id !in kb.documents ==> kb.rows == old(kb.rows)
    ensures !raised && id in kb.documents ==>
              && (forall d :: d != id ==> RowsOf(kb.rows, d) == RowsOf(old(kb.rows), d))
              && IsIndexOf(RowsOf(kb.rows, id), id, kb.documents[id].content, kb.embedding.value)
              && forall i :: 0 <= i < |RowsOf(kb.rows, id)| ==> RowsOf(kb.rows, id)[i].embedding == reply.value[i]
  {
    kb.queue := kb.queue - multiset{id};
    var read := kb.ReadDocument(id);
    if read.Gone? {
      return false;
    }
    if !read.Snapshot? {
      return true;
    }
    NoChunksIff(read.task.content, read.task.params.chunkSize, read.task.params.chunkOverlap);
    var ready := KnowledgeBase.Embed(read.task, reply);
    if ready.None? {
      return true;
    }
    kb.ReplaceChunks(ready.value);
    return false;
  }
}
