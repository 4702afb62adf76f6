/**
 * Document ingestion (lib/actions/documents.ts, `uploadDocument`).
 *
 * An upload carries a PDF file, a document type and a title. The PDF is
 * parsed into pages, the pages are split into chunks, the full text (pages
 * joined by newlines) is stored as a document, every chunk is embedded and
 * tagged with its page number, the first section heading and the first date
 * or time it contains, and the embedded chunks are stored as one batch that
 * refers to the new document. Any failure is turned into an unsuccessful
 * result carrying the thrown message. The PDF parser, the text splitter and
 * the embedding model are parameters.
 */
module Ingestion {
  import opened Wrappers
  import opened Text
  import opened MetadataTagger
  import opened EmbeddingStore
  import opened Embedding

  /** An uploaded file: its name and its size in bytes (its bytes reach
    * this model only through the parser). */
  datatype File = File(name: string, size: nat)

  /** The three form fields read by `uploadDocument`; `None` is a field the
    * form does not carry. */
  datatype FormData = FormData(file: Option<File>, docType: Option<string>, title: Option<string>)

  /** A page of the parsed PDF, or a chunk of one: its text and the page
    * number found in its metadata, if any. */
  datatype TextDocument = TextDocument(pageContent: string, pageNumber: Option<int>)

  /** `{ success, message }` */
  datatype UploadResult = UploadResult(success: bool, message: string)

  const MissingFieldsMessage := "Missing required fields"
  const SuccessMessage := "Document successfully uploaded and processed"
  const UnknownErrorMessage := "Unknown error occurred"

  /** A text field is truthy when it is present and not empty. */
  predicate Provided(v: Option<string>) {
    v.Some? && v.value != ""
  }

  /** The guard `!file || !type || !title`, negated: a file, and a type and
    * a title that are present and not empty. */
  predicate HasRequiredFields(form: FormData): (b: bool)
    ensures b <==>
      && form.file.Some?
      && form.docType.Some? && form.docType.value != ""
      && form.title.Some? && form.title.value != ""
  {
    form.file.Some? && Provided(form.docType) && Provided(form.title)
  }

  /** The message of the catch block: an Error's own message, a fixed text
    * for anything else that was thrown. */
  function MessageOf(t: Thrown): (m: string)
    ensures t.Error? ==> m == t.message
    ensures t.NonError? ==> m == UnknownErrorMessage
  {
    match t
    case Error(message) => message
    case NonError => UnknownErrorMessage
  }

  /** The text of each page, in order. */
  function Contents(pages: seq<TextDocument>): (r: seq<string>)
    ensures |r| == |pages| && forall i :: 0 <= i < |r| ==> r[i] == pages[i].pageContent
  {
    seq(|pages|, i requires 0 <= i < |pages| => pages[i].pageContent)
  }

  /** `Array.prototype.join('\n')`: the pieces in order with a newline
    * between each two; it starts with the first piece and ends with the
    * last. */
  function JoinLines(xs: seq<string>): (r: string)
    ensures |xs| == 0 ==> r == ""
    ensures |xs| >= 1 ==> |xs[0]| <= |r| && r[..|xs[0]|] == xs[0]
    ensures |xs| >= 1 ==> |xs[|xs| - 1]| <= |r| && r[|r| - |xs[|xs| - 1]|..] == xs[|xs| - 1]
    ensures |xs| >= 2 ==> |xs[0]| < |r| && r[|xs[0]|] == '\n'
  {
    if |xs| == 0 then ""
    else if |xs| == 1 then xs[0]
    else
      var rest := JoinLines(xs[1..]);
      var r := xs[0] + "\n" + rest;
      assert r[..|xs[0]|] == xs[0];
      assert xs[1..][|xs[1..]| - 1] == xs[|xs| - 1];
      assert r[|r| - |rest|..] == rest;
      r
  }

  /** `String.prototype.split('\n')`: the pieces between newlines; the empty
    * string gives one empty piece. */
  function SplitLines(s: string): (r: seq<string>)
    ensures |r| >= 1
  {
    if |s| == 0 then [""]
    else
      var rest := SplitLines(s[1..]);
      if s[0] == '\n' then [""] + rest else [[s[0]] + rest[0]] + rest[1..]
  }

  /** A piece without newlines splits into itself. */
  lemma {:induction false} SplitLinesOfLine(a: string)
    requires '\n' !in a
    ensures SplitLines(a) == [a]
  {
    if |a| > 0 {
      assert '\n' !in a[1..] by {
        forall c | c in a[1..] ensures c != '\n' { assert c in a; }
      }
      SplitLinesOfLine(a[1..]);
      assert [a[0]] + a[1..] == a;
    }
  }

  /** Splitting two texts joined by a newline splits each of them. */
  lemma {:induction false} SplitLinesAppend(a: string, b: string)
    ensures SplitLines(a + "\n" + b) == SplitLines(a) + SplitLines(b)
  {
    if |a| == 0 {
      assert a + "\n" + b == ['\n'] + b;
      assert (['\n'] + b)[1..] == b;
    } else {
      var s := a + "\n" + b;
      assert s[0] == a[0];
      assert s[1..] == a[1..] + "\n" + b;
      SplitLinesAppend(a[1..], b);
    }
  }

  /** The pieces of each text in turn. */
  function SplitEach(xs: seq<string>): (r: seq<string>)
    ensures |r| >= |xs|
  {
    if |xs| == 0 then [] else SplitLines(xs[0]) + SplitEach(xs[1..])
  }

  /** Splitting the stored content at newlines gives the lines of each page
    * in turn. */
  lemma {:induction false} SplitJoinLines(xs: seq<string>)
    requires |xs| >= 1
    ensures SplitLines(JoinLines(xs)) == SplitEach(xs)
  {
    if |xs| == 1 {
      assert SplitEach(xs) == SplitLines(xs[0]) + SplitEach(xs[1..]);
    } else {
      SplitJoinLines(xs[1..]);
      SplitLinesAppend(xs[0], JoinLines(xs[1..]));
    }
  }

  /** So the stored content gives the pages back when no page has a
    * newline of its own. */
  lemma {:induction false} SplitEachOfLines(xs: seq<string>)
    requires forall i :: 0 <= i < |xs| ==> '\n' !in xs[i]
    ensures SplitEach(xs) == xs
  {
    if |xs| > 0 {
      SplitLinesOfLine(xs[0]);
      SplitEachOfLines(xs[1..]);
      assert [xs[0]] + xs[1..] == xs;
    }
  }

  /** The metadata of a chunk: its page number, its first section heading
    * and its first date or time. */
  function Tag(chunk: TextDocument): (m: ChunkMetadata)
    ensures m.pageNumber == chunk.pageNumber
    ensures m.section.Some? ==> IsTrimmed(m.section.value)
    ensures m.timestamp.Some? ==> m.timestamp.value != ""
  {
    ChunkMetadata(chunk.pageNumber, DetectSection(chunk.pageContent), DetectTimestamp(chunk.pageContent))
  }

  /** The rows to insert for one embedded chunk, all referring to document `d`. */
  function ToRows(records: seq<EmbeddingRecord<ChunkMetadata>>, d: DocId): (r: seq<NewEmbedding>)
    ensures |r| == |records|
    ensures forall i :: 0 <= i < |r| ==>
      r[i] == NewEmbedding(Some(d), records[i].embedding, records[i].content, records[i].metadata)
  {
    seq(|records|, i requires 0 <= i < |records| =>
      NewEmbedding(Some(d), records[i].embedding, records[i].content, records[i].metadata))
  }

  /** `Promise.all` over the chunks followed by `flat()`: every chunk embedded
    * and tagged, in chunk order; the first chunk whose embedding fails
    * decides the error. */
  function EmbedChunks(chunks: seq<TextDocument>, embed: string -> Result<Vector, Thrown>)
    : (r: Result<seq<EmbeddingRecord<ChunkMetadata>>, Thrown>)
    ensures r.Ok? <==> forall i :: 0 <= i < |chunks| ==> embed(chunks[i].pageContent).Ok?
    ensures r.Ok? ==> |r.value| == |chunks|
    ensures r.Ok? ==>
      forall i :: 0 <= i < |chunks| ==>
        r.value[i] == EmbeddingRecord(chunks[i].pageContent, embed(chunks[i].pageContent).value, Tag(chunks[i]))
    ensures r.Err? ==> FirstFailure(chunks, embed, r.error)
  {
    if |chunks| == 0 then Ok([])
    else
      match GenerateEmbeddings(chunks[0].pageContent, Tag(chunks[0]), embed)
      case Err(e) =>
        assert FirstFailure(chunks, embed, e) by { assert embed(chunks[0].pageContent) == Err(e); }
        Err(e)
      case Ok(records) =>
        match EmbedChunks(chunks[1..], embed)
        case Err(e) =>
          FailureShift(chunks, embed, e);
          Err(e)
        case Ok(rest) =>
          RecordsShift(chunks, embed, records, rest);
          Ok(records + rest)
  }

  /** Chunk `i` is the first whose embedding fails, and it fails with `e`. */
  predicate FirstFailure(chunks: seq<TextDocument>, embed: string -> Result<Vector, Thrown>, e: Thrown) {
    exists i ::
      && 0 <= i < |chunks|
      && embed(chunks[i].pageContent) == Err(e)
      && forall j :: 0 <= j < i ==> embed(chunks[j].pageContent).Ok?
  }

  /** A first chunk that embeds moves the first failure of the rest back by one. */
  lemma {:induction false} FailureShift(chunks: seq<TextDocument>, embed: string -> Result<Vector, Thrown>, e: Thrown)
    requires chunks != [] && embed(chunks[0].pageContent).Ok?
    requires FirstFailure(chunks[1..], embed, e)
    ensures FirstFailure(chunks, embed, e)
    ensures !forall i :: 0 <= i < |chunks| ==> embed(chunks[i].pageContent).Ok?
  {
    var i :| 0 <= i < |chunks[1..]| && embed(chunks[1..][i].pageContent) == Err(e)
      && forall j :: 0 <= j < i ==> embed(chunks[1..][j].pageContent).Ok?;
    assert chunks[i + 1] == chunks[1..][i];
    forall j | 0 <= j < i + 1 ensures embed(chunks[j].pageContent).Ok? {
      if j > 0 { assert chunks[j] == chunks[1..][j - 1]; }
    }
  }

  /** The record of the first chunk followed by those of the rest are the
    * records of all the chunks. */
  lemma {:induction false} RecordsShift(
    chunks: seq<TextDocument>, embed: string -> Result<Vector, Thrown>,
    records: seq<EmbeddingRecord<ChunkMetadata>>, rest: seq<EmbeddingRecord<ChunkMetadata>>)
    requires chunks != [] && embed(chunks[0].pageContent).Ok?
    requires records == [EmbeddingRecord(chunks[0].pageContent, embed(chunks[0].pageContent).value, Tag(chunks[0]))]
    requires forall i :: 0 <= i < |chunks[1..]| ==> embed(chunks[1..][i].pageContent).Ok?
    requires |rest| == |chunks[1..]|
    requires forall i :: 0 <= i < |chunks[1..]| ==>
      rest[i] == EmbeddingRecord(chunks[1..][i].pageContent, embed(chunks[1..][i].pageContent).value, Tag(chunks[1..][i]))
    ensures forall i :: 0 <= i < |chunks| ==> embed(chunks[i].pageContent).Ok?
    ensures |records + rest| == |chunks|
    ensures forall i :: 0 <= i < |chunks| ==>
      (records + rest)[i] == EmbeddingRecord(chunks[i].pageContent, embed(chunks[i].pageContent).value, Tag(chunks[i]))
  {
    forall i | 0 < i < |chunks|
      ensures embed(chunks[i].pageContent).Ok?
      ensures (records + rest)[i] == EmbeddingRecord(chunks[i].pageContent, embed(chunks[i].pageContent).value, Tag(chunks[i]))
    {
      assert chunks[i] == chunks[1..][i - 1];
      assert (records + rest)[i] == rest[i - 1];
    }
  }

  /** The batch stored for document `d`: one row per chunk, in chunk order,
    * each referring to `d` and carrying the chunk's text, its vector and its
    * tags. */
  lemma {:induction false} RowsOfChunks(chunks: seq<TextDocument>, d: DocId, embed: string -> Result<Vector, Thrown>)
    requires EmbedChunks(chunks, embed).Ok?
    ensures var rows := ToRows(EmbedChunks(chunks, embed).value, d);
      && |rows| == |chunks|
      && forall i :: 0 <= i < |chunks| ==>
           rows[i] == NewEmbedding(Some(d), embed(chunks[i].pageContent).value, chunks[i].pageContent, Tag(chunks[i]))
  {
  }

  /** The vectors of the embedded chunks, in order. */
  function VectorsOf(records: seq<EmbeddingRecord<ChunkMetadata>>): (r: seq<Vector>)
    ensures |r| == |records| && forall i :: 0 <= i < |r| ==> r[i] == records[i].embedding
  {
    seq(|records|, i requires 0 <= i < |records| => records[i].embedding)
  }

  /** The rows all refer to the document just stored, so the foreign key
    * never fails: the insert fails exactly when the batch is empty or a
    * vector is not `Dimensions` wide. */
  lemma {:induction false} InsertErrorOfBatch(records: seq<EmbeddingRecord<ChunkMetadata>>, d: DocId, docs: map<DocId, Document>)
    requires d in docs
    ensures InsertError(ToRows(records, d), docs) == VectorError(VectorsOf(records))
  {
    assert Vectors(ToRows(records, d)) == VectorsOf(records);
  }

  /** The first failing chunk decides the error of `EmbedChunks`. */
  lemma {:induction false} FirstFailureDecides(chunks: seq<TextDocument>, embed: string -> Result<Vector, Thrown>, e: Thrown)
    requires FirstFailure(chunks, embed, e)
    ensures EmbedChunks(chunks, embed) == Err(e)
  {
    var i :| 0 <= i < |chunks| && embed(chunks[i].pageContent) == Err(e)
      && forall j :: 0 <= j < i ==> embed(chunks[j].pageContent).Ok?;
    var r := EmbedChunks(chunks, embed);
    assert r.Err?;
    var k :| 0 <= k < |chunks| && embed(chunks[k].pageContent) == Err(r.error)
      && forall j :: 0 <= j < k ==> embed(chunks[j].pageContent).Ok?;
    assert !(k < i) && !(i < k);
  }

  /** What `uploadDocument` returns, as a function of the form and of what
    * the parser, the splitter and the model produce (`OutcomeMessages` says
    * which failure decides the message). */
  function Outcome(
    form: FormData,
    load: File -> Result<seq<TextDocument>, Thrown>,
    split: seq<TextDocument> -> seq<TextDocument>,
    embed: string -> Result<Vector, Thrown>)
    : (r: UploadResult)
    ensures r.success ==> r.message == SuccessMessage
    ensures !HasRequiredFields(form) ==> r == UploadResult(false, MissingFieldsMessage)
  {
    if !HasRequiredFields(form) then UploadResult(false, MissingFieldsMessage)
    else
      match load(form.file.value)
      case Err(e) => UploadResult(false, MessageOf(e))
      case Ok(pages) =>
        match EmbedChunks(split(pages), embed)
        case Err(e) => UploadResult(false, MessageOf(e))
        case Ok(records) =>
          match VectorError(VectorsOf(records))
          case Some(e) => UploadResult(false, MessageOf(e))
          case None => UploadResult(true, SuccessMessage)
  }

  /** The first failure among the parse, the embedding of each chunk in
    * turn and the insert of the batch decides the message of a failed
    * upload. */
  lemma {:induction false} OutcomeMessages(
    form: FormData,
    load: File -> Result<seq<TextDocument>, Thrown>,
    split: seq<TextDocument> -> seq<TextDocument>,
    embed: string -> Result<Vector, Thrown>)
    requires HasRequiredFields(form)
    ensures load(form.file.value).Err? ==>
      Outcome(form, load, split, embed) == UploadResult(false, MessageOf(load(form.file.value).error))
    ensures load(form.file.value).Ok? ==>
      forall e :: FirstFailure(split(load(form.file.value).value), embed, e) ==>
        Outcome(form, load, split, embed) == UploadResult(false, MessageOf(e))
    ensures load(form.file.value).Ok? && split(load(form.file.value).value) == [] ==>
      Outcome(form, load, split, embed) == UploadResult(false, EmptyInsertMessage)
    ensures load(form.file.value).Ok? ==>
      var chunks := split(load(form.file.value).value);
      forall i ::
        && 0 <= i < |chunks|
        && (forall k :: 0 <= k <= i ==> embed(chunks[k].pageContent).Ok?)
        && |embed(chunks[i].pageContent).value| != Dimensions
        && (forall k :: 0 <= k < i ==> |embed(chunks[k].pageContent).value| == Dimensions)
        && (forall k :: i < k < |chunks| ==> embed(chunks[k].pageContent).Ok?)
        ==> Outcome(form, load, split, embed) == UploadResult(false, DimensionMessage(|embed(chunks[i].pageContent).value|))
  {
    if load(form.file.value).Ok? {
      var chunks := split(load(form.file.value).value);
      match EmbedChunks(chunks, embed)
      case Err(e) => FailuresAgree(chunks, embed, e);
      case Ok(_) => NoFailure(chunks, embed);
    }
  }

  /** When `EmbedChunks` fails with `e`, every first failure is `e`. */
  lemma {:induction false} FailuresAgree(chunks: seq<TextDocument>, embed: string -> Result<Vector, Thrown>, e: Thrown)
    requires EmbedChunks(chunks, embed) == Err(e)
    ensures forall e' :: FirstFailure(chunks, embed, e') ==> e' == e
  {
    forall e' | FirstFailure(chunks, embed, e') ensures e' == e {
      FirstFailureDecides(chunks, embed, e');
    }
  }

  /** When `EmbedChunks` succeeds no chunk fails, and the batch holds the
    * vectors of the chunks in order. */
  lemma {:induction false} NoFailure(chunks: seq<TextDocument>, embed: string -> Result<Vector, Thrown>)
    requires EmbedChunks(chunks, embed).Ok?
    ensures forall e :: !FirstFailure(chunks, embed, e)
    ensures var v := VectorsOf(EmbedChunks(chunks, embed).value);
      |v| == |chunks| && forall i :: 0 <= i < |chunks| ==> v[i] == embed(chunks[i].pageContent).value
  {
    forall e | FirstFailure(chunks, embed, e) ensures false {
      FirstFailureDecides(chunks, embed, e);
    }
  }

  /** An upload succeeds exactly when the form is complete, the PDF parses,
    * it yields at least one chunk, and every chunk embeds to a vector of the
    * column's width. */
  lemma {:induction false} SuccessIff(
    form: FormData,
    load: File -> Result<seq<TextDocument>, Thrown>,
    split: seq<TextDocument> -> seq<TextDocument>,
    embed: string -> Result<Vector, Thrown>)
    ensures Outcome(form, load, split, embed).success <==>
      && HasRequiredFields(form)
      && load(form.file.value).Ok?
      && var chunks := split(load(form.file.value).value);
         && |chunks| >= 1
         && forall i :: 0 <= i < |chunks| ==>
              embed(chunks[i].pageContent).Ok? && |embed(chunks[i].pageContent).value| == Dimensions
  {
    if HasRequiredFields(form) && load(form.file.value).Ok? {
      var chunks := split(load(form.file.value).value);
      var e := EmbedChunks(chunks, embed);
      if e.Ok? {
        assert forall i :: 0 <= i < |chunks| ==> e.value[i].embedding == embed(chunks[i].pageContent).value;
      }
    }
  }

  /** The documents table after `uploadDocument`, given the table before
    * it and the id its next row gets: one new row when the form is complete
    * and the PDF parses. */
  function DocumentsAfter(
    form: FormData,
    load: File -> Result<seq<TextDocument>, Thrown>,
    docs: map<DocId, Document>, next: DocId)
    : map<DocId, Document>
  {
    if HasRequiredFields(form) && load(form.file.value).Ok? then
      var pages := load(form.file.value).value;
      docs[next := Document(next, form.title.value, form.docType.value, JoinLines(Contents(pages)), form.file.value.name)]
    else docs
  }

  /** The embeddings table after `uploadDocument`, given the table before it
    * and the ids the next document and the next embedding get: the batch
    * of the new document when the upload succeeds. */
  function EmbeddingsAfter(
    form: FormData,
    load: File -> Result<seq<TextDocument>, Thrown>,
    split: seq<TextDocument> -> seq<TextDocument>,
    embed: string -> Result<Vector, Thrown>,
    rows: seq<EmbeddingRow>, nextDocument: DocId, nextEmbedding: EmbeddingId)
    : seq<EmbeddingRow>
  {
    if HasRequiredFields(form) && load(form.file.value).Ok? && EmbedChunks(split(load(form.file.value).value), embed).Ok?
       && Outcome(form, load, split, embed).success
    then rows + Numbered(ToRows(EmbedChunks(split(load(form.file.value).value), embed).value, nextDocument), nextEmbedding)
    else rows
  }

  /** `uploadDocument`: validates the form, parses and splits the PDF,
    * stores the document, embeds and tags the chunks, and stores the
    * embeddings. `inserted` is the id of the stored document, if one was
    * stored: a failure after that point leaves the document in place. */
  method UploadDocument(
    db: Database, form: FormData,
    load: File -> Result<seq<TextDocument>, Thrown>,
    split: seq<TextDocument> -> seq<TextDocument>,
    embed: string -> Result<Vector, Thrown>)
    returns (result: UploadResult, inserted: Option<DocId>)
    requires db.Valid()
    modifies db
    ensures db.Valid()
    ensures result == Outcome(form, load, split, embed)
    ensures inserted == if HasRequiredFields(form) && load(form.file.value).Ok? then Some(old(db.nextDocumentId)) else None
    ensures inserted.Some? ==> inserted.value !in old(db.documents)
    ensures !HasRequiredFields(form) ==>
      && result == UploadResult(false, MissingFieldsMessage)
      && db.documents == old(db.documents) && db.embeddings == old(db.embeddings)
    ensures HasRequiredFields(form) && load(form.file.value).Err? ==>
      && result == UploadResult(false, MessageOf(load(form.file.value).error))
      && db.documents == old(db.documents) && db.embeddings == old(db.embeddings)
    ensures !result.success ==> db.embeddings == old(db.embeddings)
    ensures db.documents == DocumentsAfter(form, load, old(db.documents), old(db.nextDocumentId))
    ensures db.embeddings ==
      EmbeddingsAfter(form, load, split, embed, old(db.embeddings), old(db.nextDocumentId), old(db.nextEmbeddingId))
  {
    if !HasRequiredFields(form) {
      return UploadResult(false, MissingFieldsMessage), None;
    }
    var file := form.file.value;
    var pages := load(file);
    if pages.Err? {
      return UploadResult(false, MessageOf(pages.error)), None;
    }
    var chunks := split(pages.value);
    var doc := db.InsertDocument(form.title.value, form.docType.value, JoinLines(Contents(pages.value)), file.name);
    inserted := Some(doc.id);
    var records := EmbedChunks(chunks, embed);
    if records.Err? {
      result := UploadResult(false, MessageOf(records.error));
      return;
    }
    InsertErrorOfBatch(records.value, doc.id, db.documents);
    var stored := db.InsertEmbeddings(ToRows(records.value, doc.id));
    if stored.Err? {
      result := UploadResult(false, MessageOf(stored.error));
    } else {
      result := UploadResult(true, SuccessMessage);
    }
  }
}
