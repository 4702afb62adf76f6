/**
 * The upload queue (app/api/admin/uploads/route.ts).
 *
 * POST stores the file in S3, records an upload row in state `pending` and
 * queues a processing job addressed to the application's own webhook.
 * PATCH overwrites the progress fields of one upload row. The rows live in
 * `UploadTable`; S3 and the queue are reduced to their outcomes, and the
 * environment variables the base URL is read from are a parameter.
 */
module Uploads {
  import opened Wrappers
  import opened Text
  import opened EmbeddingStore
  import opened Ingestion

  /** The environment variables `getBaseUrl` reads; `None` is an unset one. */
  datatype Env = Env(nodeEnv: Option<string>, ngrokUrl: Option<string>, appUrl: Option<string>)

  const DefaultAppUrl := "https://numainda.codeforpakistan.org"
  const ProcessPath := "/api/admin/uploads/process"

  /** `https://` is put in front of a URL that does not start with `http`. */
  function WithScheme(url: string): (r: string)
    ensures StartsWith(r, "http")
    ensures |url| <= |r| && r[|r| - |url|..] == url
    ensures StartsWith(url, "http") ==> r == url
  {
    if StartsWith(url, "http") then url else "https://" + url
  }

  /** Adding the scheme twice is adding it once. */
  lemma {:induction false} WithSchemeIdempotent(url: string)
    ensures WithScheme(WithScheme(url)) == WithScheme(url)
  {
  }

  /** The application URL: the configured one when it is set and not empty,
    * the public site otherwise. */
  function AppUrl(env: Env): (r: string)
    ensures r != ""
    ensures env.appUrl.Some? && env.appUrl.value != "" ==> r == env.appUrl.value
    ensures env.appUrl.None? || env.appUrl.value == "" ==> r == DefaultAppUrl
  {
    if Provided(env.appUrl) then env.appUrl.value else DefaultAppUrl
  }

  /** Whether the ngrok tunnel is used: development mode with the tunnel's
    * URL set. */
  predicate UsesTunnel(env: Env): (b: bool)
    ensures b <==> env.nodeEnv == Some("development") && env.ngrokUrl.Some? && env.ngrokUrl.value != ""
  {
    env.nodeEnv == Some("development") && Provided(env.ngrokUrl)
  }

  /** `getBaseUrl`: the tunnel in development, otherwise the application URL
    * with a scheme. */
  function GetBaseUrl(env: Env): (r: string)
    ensures r != ""
    ensures UsesTunnel(env) ==> r == env.ngrokUrl.value
    ensures !UsesTunnel(env) ==> StartsWith(r, "http") && r == WithScheme(AppUrl(env))
    ensures !UsesTunnel(env) && !Provided(env.appUrl) ==> r == DefaultAppUrl
  {
    if UsesTunnel(env) then env.ngrokUrl.value else WithScheme(AppUrl(env))
  }

  /** A value of a multipart form: text or a file. */
  datatype FormValue = TextValue(text: string) | FileValue(file: File)

  /** A multipart form: its entries in order; a key may repeat. */
  type Form = seq<(string, FormValue)>

  /** `formData.get(key)`: the first entry with that key. */
  function Get(form: Form, key: string): (r: Option<FormValue>)
    ensures r.None? <==> forall i :: 0 <= i < |form| ==> form[i].0 != key
    ensures r.Some? ==>
      exists i ::
        && 0 <= i < |form|
        && form[i] == (key, r.value)
        && forall j :: 0 <= j < i ==> form[j].0 != key
  {
    if |form| == 0 then None
    else if form[0].0 == key then Some(form[0].1)
    else
      var r := Get(form[1..], key);
      assert forall i :: 1 <= i < |form| ==> form[i] == form[1..][i - 1];
      r
  }

  /** A form value is truthy unless it is missing or the empty text. */
  predicate Truthy(v: Option<FormValue>): (b: bool)
    ensures b <==> v.Some? && (v.value.TextValue? ==> v.value.text != "")
  {
    v.Some? && (v.value.FileValue? || v.value.text != "")
  }

  /** `Object.fromEntries(formData.entries())`: every key of the form, with
    * the value of its last entry (`FromEntriesLastWins`). */
  function FromEntries(form: Form): (r: map<string, FormValue>)
    ensures forall k :: k in r <==> exists i :: 0 <= i < |form| && form[i].0 == k
  {
    if |form| == 0 then map[]
    else
      var init := form[..|form| - 1];
      var rest := FromEntries(init);
      var r := rest[form[|form| - 1].0 := form[|form| - 1].1];
      forall k ensures k in r <==> exists i :: 0 <= i < |form| && form[i].0 == k {
        if k in rest {
          var i :| 0 <= i < |init| && init[i].0 == k;
          assert form[i].0 == k;
        }
        if exists i :: 0 <= i < |form| && form[i].0 == k {
          var i :| 0 <= i < |form| && form[i].0 == k;
          if i < |init| {
            assert init[i].0 == k;
          }
        }
      }
      r
  }

  /** A key's value is that of its last entry. */
  lemma {:induction false} FromEntriesLastWins(form: Form, k: string)
    requires k in FromEntries(form)
    ensures exists i ::
      && 0 <= i < |form|
      && form[i] == (k, FromEntries(form)[k])
      && forall j :: i < j < |form| ==> form[j].0 != k
  {
    var init := form[..|form| - 1];
    var last := form[|form| - 1];
    if k == last.0 {
      assert form[|form| - 1] == (k, FromEntries(form)[k]);
    } else {
      FromEntriesLastWins(init, k);
      var i :| 0 <= i < |init| && init[i] == (k, FromEntries(init)[k]) && forall j :: i < j < |init| ==> init[j].0 != k;
      assert form[i] == init[i];
      assert forall j :: i < j < |form| ==> form[j].0 != k by {
        forall j | i < j < |form| ensures form[j].0 != k {
          if j < |init| { assert form[j] == init[j]; }
        }
      }
    }
  }

  /** The metadata of a new upload: `title` and `type`, then every form
    * entry spread over them. */
  function Metadata(form: Form): (r: map<string, FormValue>)
    requires Get(form, "title").Some? && Get(form, "type").Some?
    ensures r.Keys == FromEntries(form).Keys + {"title", "type"}
    ensures forall k :: k in FromEntries(form) ==> r[k] == FromEntries(form)[k]
  {
    map["title" := Get(form, "title").value, "type" := Get(form, "type").value] + FromEntries(form)
  }

  /** The metadata holds the title and the type, but as the LAST entries of
    * those keys: the spread overwrites the values the route validated,
    * which are the first ones. */
  lemma {:induction false} MetadataIsEntries(form: Form)
    requires Get(form, "title").Some? && Get(form, "type").Some?
    ensures Metadata(form) == FromEntries(form)
    ensures "title" in Metadata(form) && "type" in Metadata(form)
  {
    var m := FromEntries(form);
    var i :| 0 <= i < |form| && form[i] == ("title", Get(form, "title").value);
    var j :| 0 <= j < |form| && form[j] == ("type", Get(form, "type").value);
    assert form[i].0 == "title" && form[j].0 == "type";
    assert "title" in m && "type" in m;
    var base := map["title" := Get(form, "title").value, "type" := Get(form, "type").value];
    MergeIntoWider(base, m);
  }

  /** Spreading a map over one with no other keys gives the spread map. */
  lemma {:induction false} MergeIntoWider(base: map<string, FormValue>, m: map<string, FormValue>)
    requires base.Keys <= m.Keys
    ensures base + m == m
  {
    assert (base + m).Keys == m.Keys;
  }

  /** The status column of an upload. */
  datatype Status = Pending | Processing | Completed | Failed

  type UploadId = nat

  /** An upload row. A progress value or error of `None` is one the code
    * never wrote. */
  datatype Upload = Upload(
    id: UploadId,
    originalFileName: string,
    fileSize: nat,
    fileUrl: string,
    status: Status,
    error: Option<string>,
    uploadProgress: Option<int>,
    processingProgress: Option<int>,
    documentId: Option<DocId>,
    metadata: map<string, FormValue>)

  /** The processing job queued for an upload. */
  datatype Job = Job(url: string, uploadId: UploadId)

  /** A JSON response: a body, or an error with its HTTP status. */
  datatype Reply<T> = Success(body: T) | Failure(status: nat, error: string)

  const MissingFieldsReply := "Missing required fields"
  const CreateFailedReply := "Failed to create upload"
  const MissingIdReply := "Missing upload ID"

  /** A field of a PATCH body: absent (`undefined`, which the update skips),
    * `null`, or a value. */
  datatype Field<T> = Absent | Null | Present(value: T)

  /** The column after an update with `f`. */
  function Assign<T>(f: Field<T>, current: Option<T>): (r: Option<T>)
    ensures f.Absent? ==> r == current
    ensures f.Null? ==> r.None?
    ensures f.Present? ==> r == Some(f.value)
  {
    match f
    case Absent => current
    case Null => None
    case Present(v) => Some(v)
  }

  /** The body of a PATCH request. */
  datatype PatchRequest = PatchRequest(
    id: Option<UploadId>,
    status: Option<Status>,
    error: Field<string>,
    uploadProgress: Field<int>,
    processingProgress: Field<int>)

  /** The row after a PATCH: status, error and both progress values are
    * written as given; every other column keeps its value. */
  function ApplyPatch(u: Upload, req: PatchRequest): (r: Upload)
    ensures r.id == u.id && r.originalFileName == u.originalFileName && r.fileSize == u.fileSize
    ensures r.fileUrl == u.fileUrl && r.documentId == u.documentId && r.metadata == u.metadata
    ensures r.status == (if req.status.Some? then req.status.value else u.status)
    ensures r.error == Assign(req.error, u.error)
    ensures r.uploadProgress == Assign(req.uploadProgress, u.uploadProgress)
    ensures r.processingProgress == Assign(req.processingProgress, u.processingProgress)
  {
    u.(status := if req.status.Some? then req.status.value else u.status,
       error := Assign(req.error, u.error),
       uploadProgress := Assign(req.uploadProgress, u.uploadProgress),
       processingProgress := Assign(req.processingProgress, u.processingProgress))
  }

  /** A PATCH body with every field absent changes nothing. */
  lemma {:induction false} EmptyPatchChangesNothing(u: Upload, id: Option<UploadId>)
    ensures ApplyPatch(u, PatchRequest(id, None, Absent, Absent, Absent)) == u
  {
  }

  /** The `document_uploads` table. */
  class UploadTable {
    var rows: map<UploadId, Upload>
    var nextId: UploadId

    /** Each row is stored under its own id; ids are positive and below the
      * next id to hand out. */
    ghost predicate Valid()
      reads this
    {
      && 1 <= nextId
      && forall id :: id in rows ==> 1 <= id < nextId && rows[id].id == id
    }

    constructor ()
      ensures Valid() && rows == map[]
    {
      rows := map[];
      nextId := 1;
    }

    /** `update ... set ... where id = ?`: the row with that id, if there is
      * one, is replaced by `f` of it; no other row changes. */
    method Update(id: UploadId, f: Upload -> Upload)
      requires Valid()
      requires forall u :: f(u).id == u.id
      modifies this
      ensures Valid()
      ensures id in old(rows) ==> rows == old(rows)[id := f(old(rows)[id])]
      ensures id !in old(rows) ==> rows == old(rows)
      ensures nextId == old(nextId)
    {
      if id in rows {
        rows := rows[id := f(rows[id])];
      }
    }

    /** POST: validates the form, stores the file (`stored` is the URL S3
      * gave it, or `None` when the upload threw), records a pending upload
      * and queues its processing job (`published` tells whether the queue
      * accepted it). `job` is the job that was sent, if one was. */
    method Post(form: Form, env: Env, stored: Option<string>, published: bool)
      returns (reply: Reply<Upload>, job: Option<Job>)
      requires Valid()
      modifies this
      ensures Valid()
      ensures !Truthy(Get(form, "file")) || !Truthy(Get(form, "title")) || !Truthy(Get(form, "type")) ==>
        reply == Failure(400, MissingFieldsReply) && job.None? && rows == old(rows)
      ensures reply.Success? || job.Some? <==>
        && Truthy(Get(form, "file")) && Truthy(Get(form, "title")) && Truthy(Get(form, "type"))
        && Get(form, "file").value.FileValue? && stored.Some?
      ensures job.Some? ==>
        var file := Get(form, "file").value.file;
        var id := job.value.uploadId;
        && id !in old(rows)
        && rows == old(rows)[id := Upload(id, file.name, file.size, stored.value, Pending, None, None, None, None, Metadata(form))]
        && job.value.url == GetBaseUrl(env) + ProcessPath
        && (published ==> reply == Success(rows[id]))
        && (!published ==> reply == Failure(500, CreateFailedReply))
      ensures job.None? ==> rows == old(rows)
      ensures job.None? && reply.Failure? && reply.status == 500 ==> reply.error == CreateFailedReply
    {
      var file, title, docType := Get(form, "file"), Get(form, "title"), Get(form, "type");
      if !Truthy(file) || !Truthy(title) || !Truthy(docType) {
        return Failure(400, MissingFieldsReply), None;
      }
      // A text entry named `file` has no `arrayBuffer`: the call throws.
      if !file.value.FileValue? || stored.None? {
        return Failure(500, CreateFailedReply), None;
      }
      var upload := Upload(nextId, file.value.file.name, file.value.file.size, stored.value,
                           Pending, None, None, None, None, Metadata(form));
      rows := rows[upload.id := upload];
      nextId := nextId + 1;
      job := Some(Job(GetBaseUrl(env) + ProcessPath, upload.id));
      if !published {
        return Failure(500, CreateFailedReply), job;
      }
      reply := Success(upload);
    }

    /** PATCH: without an id (or with the falsy id 0) nothing changes;
      * otherwise the row with that id, if any, takes the request's fields
      * and is returned. */
    method Patch(req: PatchRequest) returns (reply: Reply<Option<Upload>>)
      requires Valid()
      modifies this
      ensures Valid()
      ensures req.id.None? || req.id.value == 0 ==> reply == Failure(400, MissingIdReply) && rows == old(rows)
      ensures req.id.Some? && req.id.value != 0 ==>
        var id := req.id.value;
        && (id in old(rows) ==> rows == old(rows)[id := ApplyPatch(old(rows)[id], req)] && reply == Success(Some(rows[id])))
        && (id !in old(rows) ==> rows == old(rows) && reply == Success(None))
    {
      if req.id.None? || req.id.value == 0 {
        return Failure(400, MissingIdReply);
      }
      var id := req.id.value;
      Update(id, (u: Upload) => ApplyPatch(u, req));
      reply := if id in rows then Success(Some(rows[id])) else Success(None);
    }
  }
}
