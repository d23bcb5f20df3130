/**
 The knowledge base tables and the transactions on them: the document commands
 (app/commands/knowledge_documents, app/repositories/knowledge_document_repository.py) and
 the three phases of the indexing task (app/tasks/index_knowledge_document.py).

 Every function below is one committed transaction, or the one phase of the task that
 runs with no transaction open.  The class KnowledgeBase does the same work step by step,
 as the source does, and is proved to produce exactly these transactions.
 */
module KnowledgeStore {
  import opened Wrappers
  import opened Chunking
  import Frontmatter

  type DocId = nat
  type ConfigId = nat
  type Vector = seq<real>

  /** ModelConfig.params as stored; a missing column reads as no fields. */
  datatype RawParams = RawParams(chunkSize: Option<int>, chunkOverlap: Option<int>, strategy: Option<string>)

  datatype ParamFields = ParamFields(chunkSize: nat, chunkOverlap: nat, strategy: string)

  /** EmbeddingConfigParams after validation. */
  type Params = p: ParamFields | p.chunkOverlap < p.chunkSize witness ParamFields(256, 0, FIXED_SIZE)

  datatype EmbeddingConfig = EmbeddingConfig(id: ConfigId, provider: string, model: string, params: RawParams)

  datatype Doc = Doc(title: string, content: string, metadata: Frontmatter.Yaml)

  datatype ChunkRow = ChunkRow(
    documentId: DocId,
    chunkIndex: nat,
    content: string,
    embedding: Vector,
    configId: ConfigId,
    params: Params)

  /** The local variables of an indexing task after its first and after its second phase. */
  datatype Task =
    | Read(doc: DocId, content: string, config: EmbeddingConfig, params: Params)
    | Ready(doc: DocId, content: string, config: EmbeddingConfig, params: Params,
            chunks: seq<string>, vectors: seq<Vector>)

  datatype Store = Store(
    documents: map<DocId, Doc>,
    rows: seq<ChunkRow>,
    queue: multiset<DocId>,
    embedding: Option<EmbeddingConfig>)

  /** What split_frontmatter made of an upload. */
  type Upload = Result<Frontmatter.Document, Frontmatter.FrontmatterError>

  type Loader = string -> Result<Frontmatter.Yaml, string>

  function UploadOf(raw: Option<string>, load: Loader): Option<Upload> {
    if raw.Some? then Some(Frontmatter.SplitFrontmatter(raw.value, load)) else None
  }

  /** All fields there and in range, and the one strategy there is; what is read is what is stored. */
  function ValidateParams(raw: RawParams): (p: Option<Params>)
    ensures p.Some? <==> && raw.chunkSize.Some? && raw.chunkOverlap.Some?
                         && 256 <= raw.chunkSize.value <= 8192
                         && 0 <= raw.chunkOverlap.value < raw.chunkSize.value
                         && raw.strategy == Some("fixed_size")
    ensures p.Some? ==> && p.value.chunkSize == raw.chunkSize.value
                        && p.value.chunkOverlap == raw.chunkOverlap.value
                        && p.value.strategy == "fixed_size"
  {
    if raw.chunkSize.None? || raw.chunkOverlap.None? || raw.strategy.None? then None
    else if !(256 <= raw.chunkSize.value <= 8192) then None
    else if raw.chunkOverlap.value < 0 || raw.strategy.value != FIXED_SIZE then None
    else if raw.chunkOverlap.value >= raw.chunkSize.value then None
    else Some(ParamFields(raw.chunkSize.value, raw.chunkOverlap.value, raw.strategy.value))
  }

  function ChunkContent(content: string, params: Params): Result<seq<string>, ChunkError> {
    Chunked(content, params.chunkSize, params.chunkOverlap, params.strategy)
  }

  // ---------------------------------------------------------------- chunk rows

  /** The rows of one document, in insertion order. */
  function RowsOf(rows: seq<ChunkRow>, id: DocId): (mine: seq<ChunkRow>)
    ensures forall r :: r in mine <==> r in rows && r.documentId == id
  {
    if rows == [] then []
    else (if rows[0].documentId == id then [rows[0]] else []) + RowsOf(rows[1..], id)
  }

  /** The table after DELETE ... WHERE document_id = id. */
  function Without(rows: seq<ChunkRow>, id: DocId): seq<ChunkRow> {
    if rows == [] then []
    else (if rows[0].documentId == id then [] else [rows[0]]) + Without(rows[1..], id)
  }

  /** One row for each chunk, numbered from zero. */
  function IndexRows(id: DocId, chunks: seq<string>, vectors: seq<Vector>, configId: ConfigId, params: Params)
    : seq<ChunkRow>
    requires |chunks| == |vectors|
  {
    seq(|chunks|, i requires 0 <= i < |chunks| => ChunkRow(id, i, chunks[i], vectors[i], configId, params))
  }

  lemma {:induction false} RowsOfConcat(a: seq<ChunkRow>, b: seq<ChunkRow>, id: DocId)
    ensures RowsOf(a + b, id) == RowsOf(a, id) + RowsOf(b, id)
  {
    if a == [] {
      assert a + b == b;
    } else {
      assert (a + b)[1..] == a[1..] + b;
      RowsOfConcat(a[1..], b, id);
    }
  }

  lemma {:induction false} RowsOfUniform(rows: seq<ChunkRow>, owner: DocId, id: DocId)
    requires forall i :: 0 <= i < |rows| ==> rows[i].documentId == owner
    ensures RowsOf(rows, id) == if owner == id then rows else []
  {
    if rows != [] {
      RowsOfUniform(rows[1..], owner, id);
      assert rows == [rows[0]] + rows[1..];
    }
  }

  lemma {:induction false} RowsOfWithout(rows: seq<ChunkRow>, gone: DocId, id: DocId)
    ensures RowsOf(Without(rows, gone), id) == if gone == id then [] else RowsOf(rows, id)
  {
    if rows != [] {
      RowsOfWithout(rows[1..], gone, id);
      var head := if rows[0].documentId == gone then [] else [rows[0]];
      RowsOfConcat(head, Without(rows[1..], gone), id);
    }
  }

  // ---------------------------------------------------------------- transactions

  const MAX_TITLE: nat := 255

  /** What the columns take: a short title, text without NUL, and metadata that is JSON without NUL. */
  predicate Fits(doc: Doc) {
    && |doc.title| <= MAX_TITLE
    && Frontmatter.NulFree(doc.title) && Frontmatter.NulFree(doc.content)
    && Frontmatter.Storable(doc.metadata)
  }

  lemma FitsIff(doc: Doc)
    ensures Fits(doc) <==>
              && |doc.title| <= 255 && '\0' !in doc.title && '\0' !in doc.content
              && Frontmatter.JsonTree(doc.metadata) && Frontmatter.NulFreeTree(doc.metadata)
  {
    Frontmatter.StorableIff(doc.metadata);
  }

  /** CreateKnowledgeDocumentCommand: refused when the upload does not split, the key is taken, or a column refuses. */
  function CreateDocument(s: Store, id: DocId, title: string, upload: Upload): Store {
    if upload.Failure? || id in s.documents || !Fits(Doc(title, upload.value.body, upload.value.metadata)) then s
    else s.(documents := s.documents[id := Doc(title, upload.value.body, upload.value.metadata)],
            queue := s.queue + multiset{id})
  }

  /** The record with the fields that were sent. */
  function Updated(doc: Doc, title: Option<string>, upload: Option<Upload>): Doc
    requires upload.Some? ==> upload.value.Success?
  {
    var titled := if title.Some? then doc.(title := title.value) else doc;
    if upload.None? then titled
    else titled.(content := upload.value.value.body, metadata := upload.value.value.metadata)
  }

  /** UpdateKnowledgeDocumentCommand: content is written, and indexing enqueued, only when content was sent. */
  function UpdateDocument(s: Store, id: DocId, title: Option<string>, upload: Option<Upload>): Store {
    if id !in s.documents || (upload.Some? && upload.value.Failure?) then s
    else
      var updated := Updated(s.documents[id], title, upload);
      if !Fits(updated) then s
      else if upload.None? then s.(documents := s.documents[id := updated])
      else s.(documents := s.documents[id := updated], queue := s.queue + multiset{id})
  }

  /** DeleteKnowledgeDocumentCommand with the ON DELETE CASCADE of the chunk rows. */
  function DeleteDocument(s: Store, id: DocId): Store {
    if id !in s.documents then s
    else s.(documents := s.documents - {id}, rows := Without(s.rows, id))
  }

  datatype ReadOutcome = Gone | NoConfig | BadParams | Snapshot(task: Task)

  /** Phase 1: the document and the default embedding config, read in one transaction. */
  function ReadPhase(s: Store, id: DocId): ReadOutcome {
    if id !in s.documents then Gone
    else if s.embedding.None? then NoConfig
    else
      var params := ValidateParams(s.embedding.value.params);
      if params.None? then BadParams
      else Snapshot(Read(id, s.documents[id].content, s.embedding.value, params.value))
  }

  /** Phase 2: chunk and embed. None when chunking, the provider or the length check raises. */
  function EmbedPhase(task: Task, reply: Option<seq<Vector>>): Option<Task>
    requires task.Read?
  {
    var chunks := ChunkContent(task.content, task.params);
    if chunks.Failure? then None
    else if chunks.value == [] then Some(Ready(task.doc, task.content, task.config, task.params, [], []))
    else if reply.None? || |reply.value| != |chunks.value| then None
    else Some(Ready(task.doc, task.content, task.config, task.params, chunks.value, reply.value))
  }

  /** Phase 3: nothing for a document that is gone, else the old rows out and the new ones in. */
  function ReplacePhase(s: Store, task: Task): Store
    requires task.Ready? && |task.chunks| == |task.vectors|
  {
    if task.doc !in s.documents then s
    else s.(rows := Without(s.rows, task.doc)
                    + IndexRows(task.doc, task.chunks, task.vectors, task.config.id, task.params))
  }

  /** After a replacement the document has exactly the task's rows and every other document its old ones. */
  lemma ReplaceRows(s: Store, task: Task, id: DocId)
    requires task.Ready? && |task.chunks| == |task.vectors|
    requires task.doc in s.documents
    ensures RowsOf(ReplacePhase(s, task).rows, id)
            == if id == task.doc
               then IndexRows(task.doc, task.chunks, task.vectors, task.config.id, task.params)
               else RowsOf(s.rows, id)
  {
    var added := IndexRows(task.doc, task.chunks, task.vectors, task.config.id, task.params);
    RowsOfConcat(Without(s.rows, task.doc), added, id);
    RowsOfWithout(s.rows, task.doc, id);
    RowsOfUniform(added, task.doc, id);
    if id != task.doc {
      assert RowsOf(s.rows, id) + [] == RowsOf(s.rows, id);
    }
  }

  // ---------------------------------------------------------------- the tables, updated in place

  class KnowledgeBase {
    var documents: map<DocId, Doc>
    var rows: seq<ChunkRow>
    var queue: multiset<DocId>
    var embedding: Option<EmbeddingConfig>

    function View(): Store
      reads this
    {
      Store(documents, rows, queue, embedding)
    }

    constructor (embedding: Option<EmbeddingConfig>)
      ensures View() == Store(map[], [], multiset{}, embedding)
    {
      documents, rows, queue := map[], [], multiset{};
      this.embedding := embedding;
    }

    method Create(id: DocId, title: string, raw: string, load: Loader) returns (ok: bool)
      modifies this
      ensures View() == CreateDocument(old(View()), id, title, Frontmatter.SplitFrontmatter(raw, load))
      ensures var upload := Frontmatter.SplitFrontmatter(raw, load);
              ok <==> && upload.Success? && id !in old(documents)
                      && Fits(Doc(title, upload.value.body, upload.value.metadata))
      ensures !ok ==> View() == old(View())
      ensures ok ==>
                && documents.Keys == old(documents).Keys + {id}
                && (forall d :: d in old(documents) ==> documents[d] == old(documents)[d])
                && documents[id].title == title && Frontmatter.IsBodyOf(documents[id].content, raw)
                && rows == old(rows) && embedding == old(embedding)
                && queue == old(queue) + multiset{id}
    {
      var upload := Frontmatter.SplitFrontmatter(raw, load);
      if upload.Failure? {
        return false;
      }
      if id in documents {
        return false;
      }
      var record := Doc(title, upload.value.body, upload.value.metadata);
      if !Fits(record) {
        return false;
      }
      documents := documents[id := record];
      queue := queue + multiset{id};
      Frontmatter.SplitBody(raw, load);
      return true;
    }

    method Update(id: DocId, title: Option<string>, raw: Option<string>, load: Loader) returns (ok: bool)
      modifies this
      ensures View() == UpdateDocument(old(View()), id, title, UploadOf(raw, load))
      ensures ok <==> && id in old(documents) && (raw.Some? ==> UploadOf(raw, load).value.Success?)
                      && Fits(Updated(old(documents)[id], title, UploadOf(raw, load)))
      ensures !ok ==> View() == old(View())
      ensures ok ==>
                && documents.Keys == old(documents).Keys
                && (forall d :: d in documents && d != id ==> documents[d] == old(documents)[d])
                && documents[id].title == (if title.Some? then title.value else old(documents)[id].title)
                && (raw.None? ==> documents[id].content == old(documents)[id].content
                                  && documents[id].metadata == old(documents)[id].metadata)
                && (raw.Some? ==> Frontmatter.IsBodyOf(documents[id].content, raw.value)
                                  && documents[id].metadata == UploadOf(raw, load).value.value.metadata)
                && rows == old(rows) && embedding == old(embedding)
                && queue == old(queue) + if raw.Some? then multiset{id} else multiset{}
    {
      var upload := UploadOf(raw, load);
      if id !in documents {
        return false;
      }
      var contentChanged := upload.Some?;
      if contentChanged && upload.value.Failure? {
        return false;
      }
      var record := documents[id];
      if title.Some? {
        record := record.(title := title.value);
      }
      if contentChanged {
        record := record.(content := upload.value.value.body);
        record := record.(metadata := upload.value.value.metadata);
      }
      if !Fits(record) {
        return false;
      }
      documents := documents[id := record];
      if contentChanged {
        queue := queue + multiset{id};
        Frontmatter.SplitBody(raw.value, load);
      }
      return true;
    }

    method Delete(id: DocId) returns (ok: bool)
      modifies this
      ensures View() == DeleteDocument(old(View()), id)
      ensures ok <==> id in old(documents)
      ensures !ok ==> View() == old(View())
      ensures ok ==> && documents.Keys == old(documents).Keys - {id}
                     && (forall d :: d in documents ==> documents[d] == old(documents)[d])
                     && (forall d :: RowsOf(rows, d) == if d == id then [] else RowsOf(old(rows), d))
                     && queue == old(queue) && embedding == old(embedding)
    {
      if id !in documents {
        return false;
      }
      documents := documents - {id};
      rows := Without(rows, id);
      forall d
        ensures RowsOf(rows, d) == if d == id then [] else RowsOf(old(rows), d)
      {
        RowsOfWithout(old(rows), id, d);
      }
      return true;
    }

    method ReadDocument(id: DocId) returns (r: ReadOutcome)
      ensures r == ReadPhase(View(), id)
      ensures r.Gone? <==> id !in documents
      ensures r.NoConfig? <==> id in documents && embedding.None?
      ensures r.Snapshot? ==>
                && id in documents && embedding == Some(r.task.config)
                && r.task.Read? && r.task.doc == id && r.task.content == documents[id].content
                && embedding.value.params.chunkSize == Some(r.task.params.chunkSize)
                && embedding.value.params.chunkOverlap == Some(r.task.params.chunkOverlap)
                && embedding.value.params.strategy == Some(r.task.params.strategy)
      ensures r.BadParams? ==> && id in documents && embedding.Some?
                               && ValidateParams(embedding.value.params).None?
    {
      if id !in documents {
        return Gone;
      }
      var content := documents[id].content;
      if embedding.None? {
        return NoConfig;
      }
      var params := ValidateParams(embedding.value.params);
      if params.None? {
        return BadParams;
      }
      return Snapshot(Read(id, content, embedding.value, params.value));
    }

    static method Embed(task: Task, reply: Option<seq<Vector>>) returns (r: Option<Task>)
      requires task.Read?
      ensures r == EmbedPhase(task, reply)
      ensures var params := task.params;
              var chunks := Chunks(task.content, params.chunkSize, params.chunkOverlap);
              && (r.Some? <==> && params.strategy == "fixed_size"
                               && |task.content| <= 1000 * (params.chunkSize - params.chunkOverlap)
                               && (chunks == [] || (reply.Some? && |reply.value| == |chunks|)))
              && (r.Some? ==> r.value == Ready(task.doc, task.content, task.config, params, chunks,
                                               if chunks == [] then [] else reply.value))
    {
      var chunked := ChunkText(task.content, task.params.chunkSize, task.params.chunkOverlap, task.params.strategy);
      if chunked.Failure? {
        return None;
      }
      var chunks := chunked.value;
      var vectors: seq<Vector> := [];
      if chunks != [] {
        if reply.None? {
          return None;
        }
        vectors := reply.value;
        if |vectors| != |chunks| {
          return None;
        }
      }
      return Some(Ready(task.doc, task.content, task.config, task.params, chunks, vectors));
    }

    method ReplaceChunks(task: Task)
      requires task.Ready? && |task.chunks| == |task.vectors|
      modifies this
      ensures View() == ReplacePhase(old(View()), task)
      ensures documents == old(documents) && queue == old(queue) && embedding == old(embedding)
      ensures task.doc !in documents ==> rows == old(rows)
      ensures task.doc in documents ==>
                && (forall d :: d != task.doc ==> RowsOf(rows, d) == RowsOf(old(rows), d))
                && var mine := RowsOf(rows, task.doc);
                   && |mine| == |task.chunks|
                   && forall i :: 0 <= i < |mine| ==>
                                    mine[i] == ChunkRow(task.doc, i, task.chunks[i], task.vectors[i],
                                                        task.config.id, task.params)
    {
      if task.doc !in documents {
        return;
      }
      ghost var before := View();
      rows := Without(rows, task.doc);
      ghost var kept := rows;
      ghost var all := IndexRows(task.doc, task.chunks, task.vectors, task.config.id, task.params);
      for index := 0 to |task.chunks|
        invariant rows == kept + all[..index]
        invariant documents == old(documents) && queue == old(queue) && embedding == old(embedding)
      {
        rows := rows + [ChunkRow(task.doc, index, task.chunks[index], task.vectors[index],
                                 task.config.id, task.params)];
      }
      assert all[..|task.chunks|] == all;
      forall d
        ensures RowsOf(rows, d) == if d == task.doc then all else RowsOf(old(rows), d)
      {
        ReplaceRows(before, task, d);
      }
    }
  }
}
