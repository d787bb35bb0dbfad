/** The task and data lifecycle of the back end (`process_file_task`,
    `delete_file_task`) on an in-memory document store with two collections,
    `processing_tasks` and `app_data`, and a counter handing out fresh
    document ids. Download, file parsing and the push notification are not
    performed: the parsed rows and the step at which a run fails are inputs. */
module TaskStore {
  import opened Wrappers
  import opened Headers
  import opened Spreadsheet

  /** A document id; the store draws fresh ones from a counter. */
  type Id = nat

  /** A stored field value. `Ref` is a task id written as a field,
      `ServerTimestamp` the placeholder the server replaces by its clock, and
      `Data` a cell copied from a converted record. */
  datatype Field = Str(s: string) | Null | Bool(b: bool) | Int(i: int) | Ref(id: Id)
                 | ServerTimestamp | Data(cell: Cell)

  type Doc = map<string, Field>

  datatype ProcessRequest = ProcessRequest(
    filePath: string,
    fileName: string,
    userId: string,
    category: string,
    fileType: string,
    customName: Option<string>,
    expiryDate: Option<string>)

  /** `userId` is carried but never consulted: deletion checks no ownership. */
  datatype DeleteRequest = DeleteRequest(taskId: Id, userId: string)

  const SideFile := "side"
  /** At most this many converted records are written per run. */
  const BatchCap := 400
  const SourceFileIdField := "sourceFileId"

  /** The steps of a conversion run, in the order they happen. */
  datatype Step = CreateTask | Download | ReadFile | Convert | CommitBatch | UpdateStatus | Notify

  /** The step at which a run raised, with the text of the exception. */
  datatype Failure = Failure(step: Step, message: string)

  /** What a run logged: the task was never stored, it completed (and the
      notification went out or not), or it ended in the error state. */
  datatype Report = NotCreated | Finished(taskId: Id, notified: bool) | Errored(taskId: Id, message: string)

  /** The run gets as far as converting the rows: it fails at no step, or
      at one after the conversion. */
  predicate Converts(failure: Option<Failure>)
  {
    failure.None? || failure.value.step in {CommitBatch, UpdateStatus, Notify}
  }

  predicate FailsAt(failure: Option<Failure>, s: Step)
  {
    failure.Some? && failure.value.step == s
  }

  /** An optional text stored as a field: `None` is stored as null. */
  function OptionalStr(o: Option<string>): (f: Field)
    ensures o.Some? <==> f.Str?
    ensures o.Some? ==> f == Str(o.value)
    ensures o.None? ==> f == Null
  {
    match o
    case None => Null
    case Some(s) => Str(s)
  }

  // ---------------------------------------------------------------------
  // Documents written by a run

  /** The status of a task. */
  datatype Status = Processing | Completed | Error

  function StatusText(s: Status): string
  {
    match s
    case Processing => "processing"
    case Completed => "completed"
    case Error => "error"
  }

  /** A document of `processing_tasks`. Optional fields are absent when
      `None`; `customName` may be present and null, hence its two layers. */
  datatype TaskDoc = TaskDoc(
    fileName: string,
    uploadedBy: string,
    status: Status,
    category: string,
    fileType: string,
    notificationSent: bool,
    customName: Option<Option<string>>,
    expiryDate: Option<string>,
    recordCount: Option<nat>,
    errorMessage: Option<string>)

  /** `m` with `key` set when `v` is present, unchanged otherwise. */
  function Put(m: Doc, key: string, v: Option<Field>): (r: Doc)
    ensures v.Some? ==> r == m[key := v.value]
    ensures v.None? ==> r == m
  {
    if v.Some? then m[key := v.value] else m
  }

  /** The fields every task document has; `createdAt` is the server's clock. */
  function BaseFields(t: TaskDoc): Doc
  {
    map["fileName" := Str(t.fileName), "uploadedBy" := Str(t.uploadedBy),
        "status" := Str(StatusText(t.status)), "category" := Str(t.category),
        "type" := Str(t.fileType), "createdAt" := ServerTimestamp,
        "notificationSent" := Bool(t.notificationSent)]
  }

  function NameEntry(t: TaskDoc): Option<Field>
  {
    if t.customName.Some? then Some(OptionalStr(t.customName.value)) else None
  }

  function ExpiryEntry(t: TaskDoc): Option<Field>
  {
    if t.expiryDate.Some? then Some(Str(t.expiryDate.value)) else None
  }

  function CountEntry(t: TaskDoc): Option<Field>
  {
    if t.recordCount.Some? then Some(Int(t.recordCount.value)) else None
  }

  function ErrorEntry(t: TaskDoc): Option<Field>
  {
    if t.errorMessage.Some? then Some(Str(t.errorMessage.value)) else None
  }

  /** The fields a task document stores: the base fields and each optional
      field that is present. */
  function TaskFields(t: TaskDoc): Doc
  {
    Put(Put(Put(Put(BaseFields(t), "customName", NameEntry(t)), "expiryDate", ExpiryEntry(t)),
            "recordCount", CountEntry(t)), "errorMessage", ErrorEntry(t))
  }

  /** The task record a run starts with: `processing`, not yet notified,
      neither counted nor failed; a side file also records its custom name
      (null when it has none), and its expiry date when one is given and
      non-empty; a main file records neither. */
  function TaskRecord(req: ProcessRequest): (t: TaskDoc)
    ensures t.status == Processing && !t.notificationSent
    ensures t.fileName == req.fileName && t.uploadedBy == req.userId
    ensures t.category == req.category && t.fileType == req.fileType
    ensures t.customName == (if req.fileType == SideFile then Some(req.customName) else None)
    ensures t.expiryDate.Some? <==> req.fileType == SideFile && req.expiryDate.Some? && req.expiryDate.value != ""
    ensures t.expiryDate.Some? ==> t.expiryDate == req.expiryDate
    ensures t.recordCount == None && t.errorMessage == None
  {
    var side := req.fileType == SideFile;
    TaskDoc(req.fileName, req.userId, Processing, req.category, req.fileType, false,
            if side then Some(req.customName) else None,
            if side && req.expiryDate.Some? && req.expiryDate.value != "" then req.expiryDate else None,
            None, None)
  }

  /** The stored task record has the seven fields every task has, plus
      `customName` exactly for a side file and `expiryDate` exactly when a
      side file names a non-empty one. */
  lemma TaskRecordFields(req: ProcessRequest)
    ensures var d := TaskFields(TaskRecord(req));
            && d.Keys == {"fileName", "uploadedBy", "status", "category", "type", "createdAt", "notificationSent"}
                         + (if req.fileType == SideFile then {"customName"} else {})
                         + (if req.fileType == SideFile && req.expiryDate.Some? && req.expiryDate.value != ""
                            then {"expiryDate"} else {})
            && d["status"] == Str("processing") && d["notificationSent"] == Bool(false)
            && ("customName" in d ==> d["customName"] == OptionalStr(req.customName))
  {
  }

  /** The fields a written record is tagged with; they win over record
      columns of the same name. */
  const TagFields: set<string> := {SourceFileIdField, "category", "customName", "updatedAt"}

  /** A document of `app_data`: a converted record and the tags of the run
      that wrote it. */
  datatype DataDoc = DataDoc(cells: Row, sourceFileId: Id, category: string, customName: Option<string>)

  /** The fields such a document stores: the record's cells, overwritten by
      the tags where a column has a tag's name. */
  function Fields(d: DataDoc): (m: Doc)
    ensures m.Keys == d.cells.Keys + TagFields
    ensures m[SourceFileIdField] == Ref(d.sourceFileId) && m["category"] == Str(d.category)
    ensures m["customName"] == OptionalStr(d.customName) && m["updatedAt"] == ServerTimestamp
    ensures forall c :: c in d.cells && c !in TagFields ==> m[c] == Data(d.cells[c])
  {
    (map c | c in d.cells :: Data(d.cells[c]))[SourceFileIdField := Ref(d.sourceFileId)]
      ["category" := Str(d.category)]["customName" := OptionalStr(d.customName)]
      ["updatedAt" := ServerTimestamp]
  }

  /** A converted record as a run writes it. */
  function Tagged(item: Row, taskId: Id, req: ProcessRequest): DataDoc
  {
    DataDoc(item, taskId, req.category, req.customName)
  }

  /** How many of `n` converted records a run writes: all of them, up to
      `BatchCap`. */
  function WrittenCount(n: nat): (k: nat)
    ensures k <= n && k <= BatchCap
    ensures n <= BatchCap ==> k == n
    ensures n > BatchCap ==> k == BatchCap
  {
    if n < BatchCap then n else BatchCap
  }

  /** The batch that writes the first `count` items under consecutive fresh
      ids from `start`. */
  function Batch(start: Id, items: seq<Row>, count: nat, taskId: Id, req: ProcessRequest): (b: map<Id, DataDoc>)
    requires count <= |items|
    ensures forall k :: k in b <==> start <= k < start + count
    decreases count
  {
    if count == 0 then map[]
    else Batch(start, items, count - 1, taskId, req)[start + count - 1 := Tagged(items[count - 1], taskId, req)]
  }

  /** The task after the final update of a successful run. */
  function MarkCompleted(task: TaskDoc, count: nat): TaskDoc
  {
    task.(status := Completed, recordCount := Some(count), notificationSent := true)
  }

  /** The task after a run failed once it was stored. */
  function MarkError(task: TaskDoc, message: string): TaskDoc
  {
    task.(status := Error, errorMessage := Some(message))
  }

  /** Setting an optional field and setting another key commute. */
  lemma PutUpdate(m: Doc, key: string, v: Option<Field>, k: string, x: Field)
    requires k != key
    ensures Put(m[k := x], key, v) == Put(m, key, v)[k := x]
  {
    if v.Some? {
      assert m[k := x][key := v.value] == m[key := v.value][k := x];
    }
  }

  /** The final update merges `status`, `recordCount` and
      `notificationSent` into the stored fields and leaves the rest alone. */
  lemma CompletedMerges(task: TaskDoc, count: nat)
    ensures TaskFields(MarkCompleted(task, count)) ==
            TaskFields(task)["status" := Str("completed")]["recordCount" := Int(count)]["notificationSent" := Bool(true)]
  {
    var c := MarkCompleted(task, count);
    var done, sent := Str("completed"), Bool(true);
    var b := BaseFields(task);
    assert BaseFields(c) == b["status" := done]["notificationSent" := sent];
    var n := Put(b, "customName", NameEntry(task));
    PutUpdate(b["status" := done], "customName", NameEntry(task), "notificationSent", sent);
    PutUpdate(b, "customName", NameEntry(task), "status", done);
    var x := Put(n, "expiryDate", ExpiryEntry(task));
    PutUpdate(n["status" := done], "expiryDate", ExpiryEntry(task), "notificationSent", sent);
    PutUpdate(n, "expiryDate", ExpiryEntry(task), "status", done);
    var r := Put(x, "recordCount", CountEntry(task));
    assert Put(x[ "status" := done]["notificationSent" := sent], "recordCount", CountEntry(c)) ==
           r["status" := done]["recordCount" := Int(count)]["notificationSent" := sent];
    PutUpdate(r["status" := done]["recordCount" := Int(count)], "errorMessage", ErrorEntry(task), "notificationSent", sent);
    PutUpdate(r["status" := done], "errorMessage", ErrorEntry(task), "recordCount", Int(count));
    PutUpdate(r, "errorMessage", ErrorEntry(task), "status", done);
  }

  /** The error update merges `status` and `errorMessage` into the stored
      fields and leaves the rest alone. */
  lemma ErrorMerges(task: TaskDoc, message: string)
    ensures TaskFields(MarkError(task, message)) ==
            TaskFields(task)["status" := Str("error")]["errorMessage" := Str(message)]
  {
    var e := MarkError(task, message);
    var failed := Str("error");
    var b := BaseFields(task);
    assert BaseFields(e) == b["status" := failed];
    var n := Put(b, "customName", NameEntry(task));
    PutUpdate(b, "customName", NameEntry(task), "status", failed);
    var x := Put(n, "expiryDate", ExpiryEntry(task));
    PutUpdate(n, "expiryDate", ExpiryEntry(task), "status", failed);
    var r := Put(x, "recordCount", CountEntry(task));
    PutUpdate(x, "recordCount", CountEntry(task), "status", failed);
    PutUpdate(r, "errorMessage", ErrorEntry(task), "status", failed);
    if task.errorMessage.Some? {
      UpdateTwice(r["status" := failed], "errorMessage", Str(task.errorMessage.value), Str(message));
    }
  }

  /** Whether a run commits its batch: it fails at no step, or only after
      the commit. */
  predicate Commits(failure: Option<Failure>)
  {
    failure.None? || failure.value.step in {UpdateStatus, Notify}
  }

  /** Whether a run's final status update goes through. */
  predicate Completes(failure: Option<Failure>)
  {
    failure.None? || failure.value.step == Notify
  }

  /** The stored task at the end of a run that stored `task`: completed with
      the record count when the status update went through, failed with the
      exception's text otherwise. */
  function Outcome(task: TaskDoc, count: nat, failure: Option<Failure>): (r: TaskDoc)
    ensures r.status != Processing
    ensures r.status == Completed <==> Completes(failure)
    ensures Completes(failure) ==> r.recordCount == Some(count) && r.notificationSent
    ensures !Completes(failure) ==> r.errorMessage == Some(failure.value.message)
    ensures !Completes(failure) ==> r.recordCount == task.recordCount && r.notificationSent == task.notificationSent
    ensures r.fileName == task.fileName && r.uploadedBy == task.uploadedBy && r.category == task.category
    ensures r.fileType == task.fileType && r.customName == task.customName && r.expiryDate == task.expiryDate
  {
    if Completes(failure) then MarkCompleted(task, count) else MarkError(task, failure.value.message)
  }

  /** `app_data` after a run that drew `taskId`: the batch of converted
      records under the ids following `taskId` when the run got past the
      commit (the conversion having been possible), unchanged otherwise. */
  ghost predicate SavedData(before: map<Id, DataDoc>, after: map<Id, DataDoc>, taskId: Id, rows: seq<Row>, req: ProcessRequest, failure: Option<Failure>)
  {
    if Commits(failure) then
      NormalizeInjective(ColumnsOf(rows)) &&
      after == before + Batch(taskId + 1, ProcessRows(rows, ColumnsOf(rows), req.category), WrittenCount(|rows|), taskId, req)
    else after == before
  }

  /** What a run logs: nothing was stored exactly when creating the task
      failed; the run finished exactly when the status update went through,
      and then notified exactly when nothing failed at all; otherwise it
      logged the exception's text. */
  function RunReport(taskId: Id, failure: Option<Failure>): (r: Report)
    ensures r == NotCreated <==> FailsAt(failure, CreateTask)
    ensures r.Finished? <==> Completes(failure)
    ensures r.Finished? ==> r.taskId == taskId && (r.notified <==> failure.None?)
    ensures r.Errored? ==> r.taskId == taskId && r.message == failure.value.message
  {
    if failure.None? then Finished(taskId, true)
    else if failure.value.step == CreateTask then NotCreated
    else if failure.value.step == Notify then Finished(taskId, false)
    else Errored(taskId, failure.value.message)
  }

  /** The `app_data` query on `sourceFileId`. */
  function Matching(data: map<Id, DataDoc>, taskId: Id): (ids: set<Id>)
    ensures forall k :: k in ids <==> k in data && Fields(data[k])[SourceFileIdField] == Ref(taskId)
  {
    set k | k in data && data[k].sourceFileId == taskId
  }

  /** A document's stored `sourceFileId` is the id of the task that wrote it. */
  lemma MatchingBySource(data: map<Id, DataDoc>, taskId: Id)
    ensures forall k :: k in Matching(data, taskId) <==> k in data && data[k].sourceFileId == taskId
  {
    forall k | k in data
      ensures Fields(data[k])[SourceFileIdField] == Ref(taskId) <==> data[k].sourceFileId == taskId
    {
      assert Fields(data[k])[SourceFileIdField] == Ref(data[k].sourceFileId);
    }
  }

  /** `app_data` with the documents of one task gone and every other
      document as it was. */
  function RemoveSource(data: map<Id, DataDoc>, taskId: Id): map<Id, DataDoc>
  {
    map k | k in data && data[k].sourceFileId != taskId :: data[k]
  }

  /** Deleting every document the query returns leaves exactly the documents
      of other tasks, unchanged. */
  lemma DeleteMatching(data: map<Id, DataDoc>, taskId: Id)
    ensures data - Matching(data, taskId) == RemoveSource(data, taskId)
  {
    MatchingBySource(data, taskId);
  }

  // ---------------------------------------------------------------------
  // Properties of the written documents

  /** The document under id `start + i` is the `i`-th item, tagged. */
  lemma {:induction false} BatchAt(start: Id, items: seq<Row>, count: nat, taskId: Id, req: ProcessRequest, i: nat)
    requires count <= |items| && i < count
    ensures start + i in Batch(start, items, count, taskId, req)
    ensures Batch(start, items, count, taskId, req)[start + i] == Tagged(items[i], taskId, req)
    decreases count
  {
    if i < count - 1 {
      BatchAt(start, items, count - 1, taskId, req, i);
    }
  }

  /** A batch holds one document per item written: no two share an id. */
  lemma {:induction false} BatchSize(start: Id, items: seq<Row>, count: nat, taskId: Id, req: ProcessRequest)
    requires count <= |items|
    ensures |Batch(start, items, count, taskId, req)| == count
    decreases count
  {
    if count > 0 {
      BatchSize(start, items, count - 1, taskId, req);
      assert start + count - 1 !in Batch(start, items, count - 1, taskId, req);
    }
  }

  /** The document under id `start + i` stores the `i`-th record's cells
      under the task's id, category and custom name. */
  predicate WrittenAt(b: map<Id, DataDoc>, start: Id, records: seq<Row>, taskId: Id, req: ProcessRequest, i: nat)
    requires i < |records|
  {
    && start + i in b
    && b[start + i].cells == records[i]
    && Fields(b[start + i])[SourceFileIdField] == Ref(taskId)
    && Fields(b[start + i])["category"] == Str(req.category)
    && Fields(b[start + i])["customName"] == OptionalStr(req.customName)
  }

  /** A run writes at most 400 documents, all of its converted records when
      there are at most 400; the `i`-th one stores the `i`-th record's cells
      under the task's id, category and custom name. */
  lemma WrittenRecords(start: Id, records: seq<Row>, taskId: Id, req: ProcessRequest)
    ensures var b := Batch(start, records, WrittenCount(|records|), taskId, req);
            && |b| <= BatchCap
            && (|records| <= BatchCap ==> |b| == |records|)
            && (forall i :: 0 <= i < |b| ==> WrittenAt(b, start, records, taskId, req, i))
  {
    var count := WrittenCount(|records|);
    var b := Batch(start, records, count, taskId, req);
    BatchSize(start, records, count, taskId, req);
    forall i | 0 <= i < |b| ensures WrittenAt(b, start, records, taskId, req, i) {
      BatchAt(start, records, count, taskId, req, i);
    }
  }

  /** Every document of a batch belongs to the task that wrote it. */
  lemma {:induction false} BatchFromTask(start: Id, items: seq<Row>, count: nat, taskId: Id, req: ProcessRequest)
    requires count <= |items|
    ensures forall k :: k in Batch(start, items, count, taskId, req) ==>
              Batch(start, items, count, taskId, req)[k].sourceFileId == taskId
    decreases count
  {
    if count > 0 {
      BatchFromTask(start, items, count - 1, taskId, req);
    }
  }

  /** Deleting a task right after it wrote its batch gives back the documents
      that were there before, when none of them belonged to the task. */
  lemma {:induction false} DeleteUndoesBatch(data: map<Id, DataDoc>, start: Id, items: seq<Row>, count: nat,
                                            taskId: Id, req: ProcessRequest)
    requires count <= |items|
    requires forall k :: k in data ==> k < start
    requires forall k :: k in data ==> data[k].sourceFileId != taskId
    ensures RemoveSource(data + Batch(start, items, count, taskId, req), taskId) == data
  {
    var b := Batch(start, items, count, taskId, req);
    BatchFromTask(start, items, count, taskId, req);
    var r := RemoveSource(data + b, taskId);
    assert r.Keys == data.Keys;
  }

  /** A second write to the same key replaces the first. */
  lemma UpdateTwice<K, V>(m: map<K, V>, k: K, a: V, b: V)
    ensures m[k := a][k := b] == m[k := b]
  {
  }

  // ---------------------------------------------------------------------
  // The store

  class Firestore {
    /** `processing_tasks`. */
    var tasks: map<Id, TaskDoc>
    /** `app_data`. */
    var appData: map<Id, DataDoc>
    /** The next fresh document id. */
    var nextId: Id

    /** Every id in use, and every task a document refers to, was drawn
        from the counter already. */
    ghost predicate Valid()
      reads this
    {
      && (forall k :: k in tasks ==> k < nextId)
      && (forall k :: k in appData ==> k < nextId)
      && (forall k :: k in appData ==> appData[k].sourceFileId < nextId)
    }

    constructor ()
      ensures Valid() && tasks == map[] && appData == map[] && nextId == 0
    {
      tasks := map[];
      appData := map[];
      nextId := 0;
    }

    /** `process_file_task` on the parsed `rows`, failing at the step
        `failure` names (a failure at `Notify` is caught and logged). The
        conversion runs only once the file is read; its precondition is
        that no two columns normalise to the same name. */
    method ProcessFileTask(req: ProcessRequest, rows: seq<Row>, failure: Option<Failure>)
      returns (report: Report)
      requires Valid()
      requires Converts(failure) ==> NormalizeInjective(ColumnsOf(rows))
      modifies this
      ensures Valid() && nextId > old(nextId)
      ensures report == RunReport(old(nextId), failure)
      ensures tasks == if FailsAt(failure, CreateTask) then old(tasks)
                       else old(tasks)[old(nextId) := Outcome(TaskRecord(req), |rows|, failure)]
      ensures SavedData(old(appData), appData, old(nextId), rows, req, failure)
    {
      // A. the task record, under a fresh id
      var taskId := nextId;
      nextId := nextId + 1;
      if FailsAt(failure, CreateTask) {
        return NotCreated;
      }
      report := RunStoredTask(taskId, req, rows, failure);
    }

    /** Steps A to F once the id `taskId` is drawn: the task record is
        stored, the file is read and converted, and the results are saved.
        A failure before the conversion marks the task as failed. */
    method RunStoredTask(taskId: Id, req: ProcessRequest, rows: seq<Row>, failure: Option<Failure>)
      returns (report: Report)
      requires Valid() && nextId == taskId + 1 && taskId !in tasks && !FailsAt(failure, CreateTask)
      requires Converts(failure) ==> NormalizeInjective(ColumnsOf(rows))
      modifies this
      ensures Valid() && nextId >= old(nextId)
      ensures report == RunReport(taskId, failure)
      ensures tasks == old(tasks)[taskId := Outcome(TaskRecord(req), |rows|, failure)]
      ensures SavedData(old(appData), appData, taskId, rows, req, failure)
    {
      tasks := tasks[taskId := TaskRecord(req)];

      // B, C. download, read and convert
      if !Converts(failure) {
        tasks := tasks[taskId := MarkError(TaskRecord(req), failure.value.message)];
        UpdateTwice(old(tasks), taskId, TaskRecord(req), MarkError(TaskRecord(req), failure.value.message));
        return Errored(taskId, failure.value.message);
      }
      var processed := Convert(rows, req.category);
      report := SaveResults(taskId, processed, req, failure);
      UpdateTwice(old(tasks), taskId, TaskRecord(req), Outcome(TaskRecord(req), |rows|, failure));
    }

    /** Step C: `process` on the parsed rows, whose result is the record-by-
        record conversion. */
    static method Convert(rows: seq<Row>, category: string) returns (processed: seq<Row>)
      requires NormalizeInjective(ColumnsOf(rows))
      ensures processed == ProcessRows(rows, ColumnsOf(rows), category)
    {
      processed := Process(rows, category);
      ProcessIsRowwise(rows, category);
    }

    /** Steps D to F of a run whose conversion produced `processed`: the
        tagged batch of the first `BatchCap` records is committed at once,
        then the task is marked completed, then the notification goes out
        (its failure is only logged). A failure at the commit or at the
        update marks the task as failed, the first before any record is
        written, the second after. */
    method SaveResults(taskId: Id, processed: seq<Row>, req: ProcessRequest, failure: Option<Failure>)
      returns (report: Report)
      requires Valid() && taskId in tasks && nextId == taskId + 1 && Converts(failure)
      modifies this
      ensures Valid() && nextId == old(nextId) + WrittenCount(|processed|)
      ensures report == RunReport(taskId, failure)
      ensures tasks == old(tasks)[taskId := Outcome(old(tasks)[taskId], |processed|, failure)]
      ensures appData == if Commits(failure)
                         then old(appData) + Batch(taskId + 1, processed, WrittenCount(|processed|), taskId, req)
                         else old(appData)
    {
      var task := tasks[taskId];
      var batch := WriteBatch(taskId, processed, WrittenCount(|processed|), req);
      if FailsAt(failure, CommitBatch) {
        tasks := tasks[taskId := MarkError(task, failure.value.message)];
        return Errored(taskId, failure.value.message);
      }
      BatchFromTask(taskId + 1, processed, WrittenCount(|processed|), taskId, req);
      Commit(batch, taskId);
      report := Conclude(taskId, task, |processed|, failure);
    }

    /** Steps E and F once the batch is committed: the status update marks
        `task` completed with `count` records, unless it raises, in which
        case the task is marked as failed; a failing notification is only
        logged. */
    method Conclude(taskId: Id, task: TaskDoc, count: nat, failure: Option<Failure>) returns (report: Report)
      requires Valid() && taskId in tasks && Commits(failure)
      modifies this
      ensures Valid() && report == RunReport(taskId, failure)
      ensures tasks == old(tasks)[taskId := Outcome(task, count, failure)]
      ensures appData == old(appData) && nextId == old(nextId)
    {
      if FailsAt(failure, UpdateStatus) {
        tasks := tasks[taskId := MarkError(task, failure.value.message)];
        return Errored(taskId, failure.value.message);
      }
      tasks := tasks[taskId := MarkCompleted(task, count)];
      report := Finished(taskId, !FailsAt(failure, Notify));
    }

    /** `batch.commit()`: every staged document is written at once. */
    method Commit(batch: map<Id, DataDoc>, taskId: Id)
      requires Valid() && taskId < nextId
      requires forall k :: k in batch ==> k < nextId && batch[k].sourceFileId == taskId
      modifies this
      ensures Valid() && appData == old(appData) + batch
      ensures tasks == old(tasks) && nextId == old(nextId)
    {
      appData := appData + batch;
    }

    /** The write loop of a run: one fresh id for each of the first `count`
        items, each item tagged and staged in a batch not yet committed. */
    method WriteBatch(taskId: Id, items: seq<Row>, count: nat, req: ProcessRequest) returns (batch: map<Id, DataDoc>)
      requires count <= |items|
      modifies this
      ensures batch == Batch(old(nextId), items, count, taskId, req)
      ensures nextId == old(nextId) + count
      ensures tasks == old(tasks) && appData == old(appData)
    {
      batch := map[];
      var k := 0;
      while k < count
        invariant 0 <= k <= count
        invariant nextId == old(nextId) + k
        invariant batch == Batch(old(nextId), items, k, taskId, req)
        invariant tasks == old(tasks) && appData == old(appData)
      {
        batch := batch[nextId := Tagged(items[k], taskId, req)];
        nextId := nextId + 1;
        k := k + 1;
      }
    }

    /** The documents a query returned, staged one by one in a delete batch. */
    static method StageDeletes(docs: set<Id>) returns (staged: set<Id>)
      ensures staged == docs
    {
      staged := {};
      var rest := docs;
      while rest != {}
        invariant staged + rest == docs && staged !! rest
        decreases |rest|
      {
        var d :| d in rest;
        staged := staged + {d};
        rest := rest - {d};
      }
    }

    /** `delete_file_task`: nothing happens for an unknown task; otherwise the
        task's documents are removed in one batch and then the task itself.
        `failure` is the step that raises, if any; the exception is logged
        and the steps after it do not happen. */
    method DeleteFileTask(req: DeleteRequest, failure: Option<DeleteStep>)
      requires Valid()
      modifies this
      ensures Valid() && nextId == old(nextId)
      ensures req.taskId !in old(tasks) || failure == Some(ReadTask) ==>
                tasks == old(tasks) && appData == old(appData)
      ensures req.taskId in old(tasks) && failure == Some(CommitDelete) ==>
                tasks == old(tasks) && appData == old(appData)
      ensures req.taskId in old(tasks) && failure == Some(RemoveTask) ==>
                tasks == old(tasks) && appData == RemoveSource(old(appData), req.taskId)
      ensures req.taskId in old(tasks) && failure == None ==>
                tasks == old(tasks) - {req.taskId} && appData == RemoveSource(old(appData), req.taskId)
    {
      // 1. the task
      if failure == Some(ReadTask) || req.taskId !in tasks {
        return;
      }
      // 3. its documents, gathered into one batch
      var toDelete := StageDeletes(Matching(appData, req.taskId));
      if failure == Some(CommitDelete) {
        return;
      }
      DeleteMatching(appData, req.taskId);
      appData := appData - toDelete;
      // 4. the task record
      if failure == Some(RemoveTask) {
        return;
      }
      tasks := tasks - {req.taskId};
    }
  }

  /** The steps of a deletion that can raise. */
  datatype DeleteStep = ReadTask | CommitDelete | RemoveTask
}
