/**
 * The processing webhook (app/api/admin/uploads/process/route.ts).
 *
 * The queued job names an upload. The handler marks the upload as
 * processing, fetches its file, runs `uploadDocument` on it with the title
 * and type saved in the upload's metadata, and marks the upload completed
 * or failed. The fetch is a parameter, as are the parser, the splitter and
 * the model `uploadDocument` needs.
 */
module UploadProcessing {
  import opened Wrappers
  import opened EmbeddingStore
  import opened Ingestion
  import opened Uploads

  /** What `fetch(upload.fileUrl)` gives: a response with its `ok` flag,
    * status text and body size, or a rejection with its message. */
  datatype FetchOutcome = Response(ok: bool, statusText: string, size: nat) | NetworkError(message: string)

  const FetchFailedPrefix := "Failed to fetch file from S3: "
  const ProcessFailedReply := "Failed to process upload"
  /** `String({})` */
  const ObjectText := "[object Object]"

  /** The upload once processing starts. */
  function MarkProcessing(u: Upload): (r: Upload)
    ensures r.id == u.id
    ensures r.status == Processing && r.processingProgress == Some(10)
    ensures r.(status := u.status, processingProgress := u.processingProgress) == u
  {
    u.(status := Processing, processingProgress := Some(10))
  }

  /** The upload once processing succeeds; `documentId` is `None` when the
    * value given is `undefined`, which the update skips. */
  function MarkCompleted(u: Upload, documentId: Option<DocId>): (r: Upload)
    ensures r.id == u.id
    ensures r.status == Completed && r.processingProgress == Some(100)
    ensures r.documentId == (if documentId.Some? then documentId else u.documentId)
    ensures r.(status := u.status, processingProgress := u.processingProgress, documentId := u.documentId) == u
  {
    u.(status := Completed, processingProgress := Some(100),
       documentId := if documentId.Some? then documentId else u.documentId)
  }

  /** The upload once processing fails; the progress is left where it was. */
  function MarkFailed(u: Upload, message: string): (r: Upload)
    ensures r.id == u.id
    ensures r.status == Failed && r.error == Some(message)
    ensures r.(status := u.status, error := u.error) == u
  {
    u.(status := Failed, error := Some(message))
  }

  /** A metadata value appended to a form: text as it is; the file entry was
    * stored as an empty JSON object and reads back as `[object Object]`. */
  function AsFormText(v: FormValue): (r: string)
    ensures v.TextValue? ==> r == v.text
    ensures v.FileValue? ==> r == ObjectText
  {
    match v
    case TextValue(t) => t
    case FileValue(_) => ObjectText
  }

  /** `formData.get(key)` on the rebuilt form, for a key other than `file`:
    * the saved text, or `[object Object]` for a saved file entry. */
  function Lookup(metadata: map<string, FormValue>, key: string): (r: Option<string>)
    ensures r.Some? <==> key in metadata
    ensures key in metadata && metadata[key].TextValue? ==> r == Some(metadata[key].text)
    ensures key in metadata && metadata[key].FileValue? ==> r == Some(ObjectText)
  {
    if key in metadata then Some(AsFormText(metadata[key])) else None
  }

  /** The form the handler gives `uploadDocument`: the fetched file under the
    * upload's original name, then the saved metadata. The first `file` entry
    * is the fetched file, so a saved `file` entry is never read. */
  function ProcessingForm(u: Upload, size: nat): (f: FormData)
    ensures f.file == Some(File(u.originalFileName, size))
    ensures f.title == Lookup(u.metadata, "title") && f.docType == Lookup(u.metadata, "type")
  {
    FormData(Some(File(u.originalFileName, size)), Lookup(u.metadata, "type"), Lookup(u.metadata, "title"))
  }

  /** The message the inner `catch` writes into the upload, or `None` when
    * processing succeeds. */
  function FailureOf(
    u: Upload,
    fetch: string -> FetchOutcome,
    load: File -> Result<seq<TextDocument>, Thrown>,
    split: seq<TextDocument> -> seq<TextDocument>,
    embed: string -> Result<Vector, Thrown>)
    : (r: Option<string>)
    ensures fetch(u.fileUrl).NetworkError? ==> r == Some(fetch(u.fileUrl).message)
    ensures fetch(u.fileUrl).Response? && !fetch(u.fileUrl).ok ==>
      r == Some(FetchFailedPrefix + fetch(u.fileUrl).statusText)
    ensures r.None? <==>
      fetch(u.fileUrl).Response? && fetch(u.fileUrl).ok &&
      Outcome(ProcessingForm(u, fetch(u.fileUrl).size), load, split, embed).success
  {
    match fetch(u.fileUrl)
    case NetworkError(m) => Some(m)
    case Response(ok, statusText, size) =>
      if !ok then Some(FetchFailedPrefix + statusText)
      else
        var result := Outcome(ProcessingForm(u, size), load, split, embed);
        if result.success then None else Some(result.message)
  }

  /** The store after the processing of upload `u`, given the store before
    * it (`docs0`, `rows0` and the next ids): what `uploadDocument` leaves
    * when the file was fetched, the store as it was otherwise. */
  ghost predicate StoreAfter(
    u: Upload,
    fetch: string -> FetchOutcome,
    load: File -> Result<seq<TextDocument>, Thrown>,
    split: seq<TextDocument> -> seq<TextDocument>,
    embed: string -> Result<Vector, Thrown>,
    docs0: map<DocId, Document>, rows0: seq<EmbeddingRow>, nextDocument: DocId, nextEmbedding: EmbeddingId,
    docs: map<DocId, Document>, rows: seq<EmbeddingRow>)
  {
    if fetch(u.fileUrl).Response? && fetch(u.fileUrl).ok then
      var form := ProcessingForm(u, fetch(u.fileUrl).size);
      && docs == DocumentsAfter(form, load, docs0, nextDocument)
      && rows == EmbeddingsAfter(form, load, split, embed, rows0, nextDocument, nextEmbedding)
    else docs == docs0 && rows == rows0
  }

  /** An upload whose metadata lacks its title fails, once its file is
    * fetched, with the message of the missing fields, whatever the file,
    * and leaves the store as it was. */
  lemma {:induction false} MissingTitleFails(
    u: Upload,
    fetch: string -> FetchOutcome,
    load: File -> Result<seq<TextDocument>, Thrown>,
    split: seq<TextDocument> -> seq<TextDocument>,
    embed: string -> Result<Vector, Thrown>)
    requires "title" !in u.metadata
    requires fetch(u.fileUrl).Response? && fetch(u.fileUrl).ok
    ensures FailureOf(u, fetch, load, split, embed) == Some(MissingFieldsMessage)
    ensures forall docs0, rows0, nextDocument, nextEmbedding, docs, rows ::
      StoreAfter(u, fetch, load, split, embed, docs0, rows0, nextDocument, nextEmbedding, docs, rows)
      <==> docs == docs0 && rows == rows0
  {
  }

  /** The first update of `handler`: the upload, if it exists, is marked as
    * processing and returned. */
  method Start(uploads: UploadTable, uploadId: UploadId) returns (upload: Option<Upload>)
    requires uploads.Valid()
    modifies uploads
    ensures uploads.Valid()
    ensures upload.Some? <==> uploadId in old(uploads.rows)
    ensures upload.None? ==> uploads.rows == old(uploads.rows)
    ensures upload.Some? ==>
      && upload.value == MarkProcessing(old(uploads.rows)[uploadId])
      && uploads.rows == old(uploads.rows)[uploadId := upload.value]
  {
    uploads.Update(uploadId, MarkProcessing);
    upload := if uploadId in uploads.rows then Some(uploads.rows[uploadId]) else None;
  }

  /** The `try` block of `handler` after the first update: fetches the
    * upload's file and runs `uploadDocument` on it. `failure` is the message
    * of a failed attempt; `inserted` the document stored, if any. */
  method Ingest(
    db: Database, u: Upload,
    fetch: string -> FetchOutcome,
    load: File -> Result<seq<TextDocument>, Thrown>,
    split: seq<TextDocument> -> seq<TextDocument>,
    embed: string -> Result<Vector, Thrown>)
    returns (failure: Option<string>, inserted: Option<DocId>)
    requires db.Valid()
    modifies db
    ensures db.Valid()
    ensures failure == FailureOf(u, fetch, load, split, embed)
    ensures StoreAfter(u, fetch, load, split, embed,
      old(db.documents), old(db.embeddings), old(db.nextDocumentId), old(db.nextEmbeddingId), db.documents, db.embeddings)
    ensures failure.None? ==> inserted.Some? && inserted.value in db.documents && inserted.value !in old(db.documents)
  {
    inserted := None;
    match fetch(u.fileUrl)
    case NetworkError(m) =>
      failure := Some(m);
    case Response(ok, statusText, size) =>
      if !ok {
        failure := Some(FetchFailedPrefix + statusText);
      } else {
        var result;
        result, inserted := UploadDocument(db, ProcessingForm(u, size), load, split, embed);
        failure := if result.success then None else Some(result.message);
      }
  }

  /** `handler`, as written: on success the update sets `documentId` to
    * `result.document?.id`, but the result of `uploadDocument` has no
    * `document`, so the value is `undefined` and the column is never
    * written. */
  method Handle(
    uploads: UploadTable, db: Database, uploadId: UploadId,
    fetch: string -> FetchOutcome,
    load: File -> Result<seq<TextDocument>, Thrown>,
    split: seq<TextDocument> -> seq<TextDocument>,
    embed: string -> Result<Vector, Thrown>)
    returns (reply: Reply<bool>)
    requires uploads.Valid() && db.Valid()
    modifies uploads, db
    ensures uploads.Valid() && db.Valid()
    ensures uploadId !in old(uploads.rows) ==>
      reply == Failure(500, ProcessFailedReply) && uploads.rows == old(uploads.rows)
    ensures uploadId in old(uploads.rows) ==>
      var u := MarkProcessing(old(uploads.rows)[uploadId]);
      var failure := FailureOf(u, fetch, load, split, embed);
      && reply == SettledReply(failure)
      && uploads.rows == old(uploads.rows)[uploadId := Settled(u, failure, None)]
    ensures uploadId !in old(uploads.rows) ==> db.documents == old(db.documents) && db.embeddings == old(db.embeddings)
    ensures uploadId in old(uploads.rows) ==>
      StoreAfter(MarkProcessing(old(uploads.rows)[uploadId]), fetch, load, split, embed,
        old(db.documents), old(db.embeddings), old(db.nextDocumentId), old(db.nextEmbeddingId), db.documents, db.embeddings)
    ensures uploadId in old(uploads.rows) ==>
      && uploads.rows[uploadId].status in {Completed, Failed}
      && uploads.rows[uploadId].documentId == old(uploads.rows)[uploadId].documentId
  {
    var upload := Start(uploads, uploadId);
    if upload.None? {
      // `throw new Error('Upload not found')`, caught by the outer `catch`.
      return Failure(500, ProcessFailedReply);
    }
    var failure, inserted := Ingest(db, upload.value, fetch, load, split, embed);
    reply := Settle(uploads, uploadId, failure, None, old(uploads.rows));
  }

  /** The upload after the last update of `handler`: failed with the
    * message of a failed attempt, otherwise completed with `documentId`. */
  function Settled(u: Upload, failure: Option<string>, documentId: Option<DocId>): (r: Upload)
    ensures r.id == u.id && r.status in {Completed, Failed}
    ensures failure.Some? ==> r == MarkFailed(u, failure.value)
    ensures failure.None? ==> r == MarkCompleted(u, documentId)
    ensures documentId.None? ==> r.documentId == u.documentId
  {
    if failure.Some? then MarkFailed(u, failure.value) else MarkCompleted(u, documentId)
  }

  /** The reply of `handler`: `{ success: true }`, or status 500 when the
    * attempt failed. */
  function SettledReply(failure: Option<string>): (r: Reply<bool>)
    ensures failure.None? <==> r == Success(true)
    ensures failure.Some? <==> r == Failure(500, ProcessFailedReply)
  {
    if failure.Some? then Failure(500, ProcessFailedReply) else Success(true)
  }

  /** The last update of `handler` and its reply. `before` is the table
    * before the first update, which changed only this upload. */
  method Settle(
    uploads: UploadTable, uploadId: UploadId, failure: Option<string>, documentId: Option<DocId>,
    ghost before: map<UploadId, Upload>)
    returns (reply: Reply<bool>)
    requires uploads.Valid() && uploadId in uploads.rows
    requires uploads.rows == before[uploadId := uploads.rows[uploadId]]
    modifies uploads
    ensures uploads.Valid()
    ensures reply == SettledReply(failure)
    ensures uploads.rows == old(uploads.rows)[uploadId := Settled(old(uploads.rows)[uploadId], failure, documentId)]
    ensures uploads.rows == before[uploadId := Settled(old(uploads.rows)[uploadId], failure, documentId)]
  {
    uploads.Update(uploadId, (u: Upload) => Settled(u, failure, documentId));
    reply := SettledReply(failure);
  }

  /** A completed upload keeps the `documentId` it had: a new upload, which
    * has none, never gets one. */
  lemma {:induction false} CompletedUploadStaysUnlinked(u: Upload)
    requires u.documentId.None?
    ensures MarkCompleted(MarkProcessing(u), None).status == Completed
    ensures MarkCompleted(MarkProcessing(u), None).documentId.None?
  {
  }

  /** `handler` as evidently intended: a completed upload records the
    * document its processing stored, and that document exists. */
  method HandleAndLink(
    uploads: UploadTable, db: Database, uploadId: UploadId,
    fetch: string -> FetchOutcome,
    load: File -> Result<seq<TextDocument>, Thrown>,
    split: seq<TextDocument> -> seq<TextDocument>,
    embed: string -> Result<Vector, Thrown>)
    returns (reply: Reply<bool>)
    requires uploads.Valid() && db.Valid()
    modifies uploads, db
    ensures uploads.Valid() && db.Valid()
    ensures uploadId !in old(uploads.rows) ==>
      reply == Failure(500, ProcessFailedReply) && uploads.rows == old(uploads.rows)
    ensures uploadId in old(uploads.rows) ==>
      var u := MarkProcessing(old(uploads.rows)[uploadId]);
      var failure := FailureOf(u, fetch, load, split, embed);
      && reply == SettledReply(failure)
      && uploadId in uploads.rows
      && uploads.rows == old(uploads.rows)[uploadId := Settled(u, failure, uploads.rows[uploadId].documentId)]
      && (failure.None? ==>
            && uploads.rows[uploadId].status == Completed
            && uploads.rows[uploadId].documentId.Some?
            && uploads.rows[uploadId].documentId.value in db.documents
            && uploads.rows[uploadId].documentId.value !in old(db.documents))
    ensures uploadId !in old(uploads.rows) ==> db.documents == old(db.documents) && db.embeddings == old(db.embeddings)
    ensures uploadId in old(uploads.rows) ==>
      StoreAfter(MarkProcessing(old(uploads.rows)[uploadId]), fetch, load, split, embed,
        old(db.documents), old(db.embeddings), old(db.nextDocumentId), old(db.nextEmbeddingId), db.documents, db.embeddings)
  {
    var upload := Start(uploads, uploadId);
    if upload.None? {
      return Failure(500, ProcessFailedReply);
    }
    var failure, inserted := Ingest(db, upload.value, fetch, load, split, embed);
    reply := Settle(uploads, uploadId, failure, inserted, old(uploads.rows));
  }
}
