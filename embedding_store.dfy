/**
 * The `documents` and `embeddings` tables (lib/db/schema/embeddings.ts) as
 * one store that keeps the table's integrity rules: every vector has 1536
 * components, every embedding has its own id (the primary key), and every
 * embedding that names a document names an existing one, which the cascade
 * on delete maintains.
 */
module EmbeddingStore {
  import opened Wrappers
  import opened Text

  /** `vector('embedding', { dimensions: 1536 })` */
  const Dimensions: nat := 1536

  type DocId = nat
  type EmbeddingId = nat

  /** An embedding vector; the floating-point components are modelled as reals. */
  type Vector = seq<real>

  /** The metadata written with each chunk's embedding. */
  datatype ChunkMetadata = ChunkMetadata(pageNumber: Option<int>, section: Option<string>, timestamp: Option<string>)

  /** A row of the `documents` table. */
  datatype Document = Document(id: DocId, title: string, docType: string, content: string, originalFileName: string)

  /** The values given for one embedding row; the id is filled in by the store. */
  datatype NewEmbedding = NewEmbedding(resourceId: Option<DocId>, embedding: Vector, content: string, metadata: ChunkMetadata)

  /** A row of the `embeddings` table. `content` is a string, never null. */
  datatype EmbeddingRow = EmbeddingRow(id: EmbeddingId, resourceId: Option<DocId>, content: string, embedding: Vector, metadata: ChunkMetadata)

  /** Drizzle refuses a bulk insert with no rows. */
  const EmptyInsertMessage := "values() must be called with at least one value"
  /** The foreign key of `embeddings.resource_id` refuses a `resourceId` with
    * no document; the constraint carries Drizzle's generated name. */
  const ForeignKeyMessage :=
    "insert or update on table \"embeddings\" violates foreign key constraint \"embeddings_resource_id_documents_id_fk\""

  const DimensionPrefix := "expected " + DecimalString(Dimensions) + " dimensions, not "

  /** pgvector's refusal of a vector of `width` components in a column of
    * `Dimensions`: the width can be read back from the end of the message. */
  function DimensionMessage(width: nat): (r: string)
    ensures |r| > |DimensionPrefix| && r[..|DimensionPrefix|] == DimensionPrefix
    ensures AllDigits(r[|DimensionPrefix|..]) && Num(r[|DimensionPrefix|..]) == width
  {
    NumOfDecimalString(width);
    var r := DimensionPrefix + DecimalString(width);
    assert r[|DimensionPrefix|..] == DecimalString(width);
    r
  }

  predicate RightDimensions(rows: seq<EmbeddingRow>) {
    forall i :: 0 <= i < |rows| ==> |rows[i].embedding| == Dimensions
  }

  predicate UniqueIds(rows: seq<EmbeddingRow>) {
    forall i, j :: 0 <= i < j < |rows| ==> rows[i].id != rows[j].id
  }

  /** Referential integrity: a null `resourceId` is allowed, any other names a document. */
  predicate ReferencesExist(rows: seq<EmbeddingRow>, docs: map<DocId, Document>) {
    forall i :: 0 <= i < |rows| && rows[i].resourceId.Some? ==> rows[i].resourceId.value in docs
  }

  predicate Integrity(docs: map<DocId, Document>, rows: seq<EmbeddingRow>) {
    RightDimensions(rows) && UniqueIds(rows) && ReferencesExist(rows, docs)
  }

  /** What `onDelete: 'cascade'` leaves of the embeddings when document `d`
    * is deleted: the others. */
  function WithoutDocument(rows: seq<EmbeddingRow>, d: DocId): (r: seq<EmbeddingRow>)
    ensures forall x :: x in r <==> x in rows && x.resourceId != Some(d)
    ensures |r| <= |rows|
  {
    if rows == [] then []
    else if rows[0].resourceId == Some(d) then WithoutDocument(rows[1..], d)
    else [rows[0]] + WithoutDocument(rows[1..], d)
  }

  /** The cascade keeps ids unique: it only leaves rows out. */
  lemma {:induction false} WithoutDocumentKeepsIdsUnique(rows: seq<EmbeddingRow>, d: DocId)
    requires UniqueIds(rows)
    ensures UniqueIds(WithoutDocument(rows, d))
  {
    if rows != [] {
      var rest := WithoutDocument(rows[1..], d);
      WithoutDocumentKeepsIdsUnique(rows[1..], d);
      if rows[0].resourceId != Some(d) {
        forall x | x in rest ensures x.id != rows[0].id {
          var k :| 0 <= k < |rows[1..]| && rows[1..][k] == x;
          assert rows[k + 1] == x;
        }
        var r := [rows[0]] + rest;
        forall i, j | 0 <= i < j < |r| ensures r[i].id != r[j].id {
          assert r[j] == rest[j - 1] && r[j] in rest;
          if i > 0 { assert r[i] == rest[i - 1]; }
        }
      }
    }
  }

  /** Deleting a document and its embeddings keeps the store's integrity. */
  lemma {:induction false} CascadeKeepsIntegrity(docs: map<DocId, Document>, rows: seq<EmbeddingRow>, d: DocId)
    requires Integrity(docs, rows)
    ensures Integrity(docs - {d}, WithoutDocument(rows, d))
  {
    var r := WithoutDocument(rows, d);
    forall i | 0 <= i < |r|
      ensures |r[i].embedding| == Dimensions
      ensures r[i].resourceId.Some? ==> r[i].resourceId.value in docs - {d}
    {
      assert r[i] in rows;
    }
    WithoutDocumentKeepsIdsUnique(rows, d);
  }

  /** The rows a bulk insert adds, with ids `first`, `first + 1`, ... */
  function Numbered(values: seq<NewEmbedding>, first: nat): (r: seq<EmbeddingRow>)
    ensures |r| == |values|
    ensures forall i :: 0 <= i < |r| ==>
      r[i] == EmbeddingRow(first + i, values[i].resourceId, values[i].content, values[i].embedding, values[i].metadata)
  {
    seq(|values|, i requires 0 <= i < |values| =>
      EmbeddingRow(first + i, values[i].resourceId, values[i].content, values[i].embedding, values[i].metadata))
  }

  /** The vectors of a batch, in order. */
  function Vectors(values: seq<NewEmbedding>): (r: seq<Vector>)
    ensures |r| == |values| && forall i :: 0 <= i < |r| ==> r[i] == values[i].embedding
  {
    seq(|values|, i requires 0 <= i < |values| => values[i].embedding)
  }

  /** The position of the first vector whose width is not `Dimensions`. */
  function FirstWrongWidth(vectors: seq<Vector>): (r: Option<nat>)
    ensures r.None? <==> forall i :: 0 <= i < |vectors| ==> |vectors[i]| == Dimensions
    ensures r.Some? ==>
      && r.value < |vectors| && |vectors[r.value]| != Dimensions
      && forall k :: 0 <= k < r.value ==> |vectors[k]| == Dimensions
  {
    if |vectors| == 0 then None
    else if |vectors[0]| != Dimensions then Some(0)
    else
      match FirstWrongWidth(vectors[1..])
      case None => None
      case Some(i) => Some(i + 1)
  }

  /** The checks a batch meets before its foreign keys are: Drizzle refuses
    * an empty batch, and pgvector refuses the first vector, in row order,
    * that is not `Dimensions` wide, naming its width. */
  function VectorError(vectors: seq<Vector>): (r: Option<Thrown>)
    ensures vectors == [] ==> r == Some(Error(EmptyInsertMessage))
    ensures forall i ::
      0 <= i < |vectors| && |vectors[i]| != Dimensions && (forall k :: 0 <= k < i ==> |vectors[k]| == Dimensions)
      ==> r == Some(Error(DimensionMessage(|vectors[i]|)))
    ensures r.None? <==> vectors != [] && forall i :: 0 <= i < |vectors| ==> |vectors[i]| == Dimensions
  {
    if vectors == [] then Some(Error(EmptyInsertMessage))
    else
      match FirstWrongWidth(vectors)
      case Some(i) => Some(Error(DimensionMessage(|vectors[i]|)))
      case None => None
  }

  /** Why the database refuses a bulk insert, if it does: nothing to insert,
    * then a vector of the wrong dimension, then a missing parent document. */
  function InsertError(values: seq<NewEmbedding>, docs: map<DocId, Document>): (r: Option<Thrown>)
    ensures r.None? <==>
      && values != []
      && (forall i :: 0 <= i < |values| ==> |values[i].embedding| == Dimensions)
      && (forall i :: 0 <= i < |values| && values[i].resourceId.Some? ==> values[i].resourceId.value in docs)
    ensures VectorError(Vectors(values)).Some? ==> r == VectorError(Vectors(values))
    ensures VectorError(Vectors(values)).None? && r.Some? ==> r == Some(Error(ForeignKeyMessage))
  {
    var vectors := Vectors(values);
    if VectorError(vectors).Some? then VectorError(vectors)
    else if exists i :: 0 <= i < |values| && values[i].resourceId.Some? && values[i].resourceId.value !in docs
    then Some(Error(ForeignKeyMessage))
    else None
  }

  class Database {
    var documents: map<DocId, Document>
    var embeddings: seq<EmbeddingRow>
    var nextDocumentId: nat
    var nextEmbeddingId: nat

    ghost predicate Valid()
      reads this
    {
      && Integrity(documents, embeddings)
      && (forall d :: d in documents ==> d < nextDocumentId && documents[d].id == d)
      && (forall i :: 0 <= i < |embeddings| ==> embeddings[i].id < nextEmbeddingId)
    }

    constructor ()
      ensures Valid() && documents == map[] && embeddings == []
    {
      documents, embeddings := map[], [];
      nextDocumentId, nextEmbeddingId := 0, 0;
    }

    /** Inserts a document row and returns it with its new id. */
    method InsertDocument(title: string, docType: string, content: string, originalFileName: string)
      returns (doc: Document)
      requires Valid()
      modifies this
      ensures Valid()
      ensures doc == Document(doc.id, title, docType, content, originalFileName)
      ensures doc.id == old(nextDocumentId) && doc.id !in old(documents)
      ensures documents == old(documents)[doc.id := doc]
      ensures embeddings == old(embeddings) && nextEmbeddingId == old(nextEmbeddingId)
    {
      doc := Document(nextDocumentId, title, docType, content, originalFileName);
      documents := documents[doc.id := doc];
      nextDocumentId := nextDocumentId + 1;
    }

    /** A bulk insert into `embeddings`: all rows or none. */
    method InsertEmbeddings(values: seq<NewEmbedding>) returns (r: Result<seq<EmbeddingRow>, Thrown>)
      requires Valid()
      modifies this
      ensures Valid()
      ensures documents == old(documents)
      ensures r.Err? <==> InsertError(values, documents).Some?
      ensures r.Err? ==> r.error == InsertError(values, documents).value && embeddings == old(embeddings)
      ensures r.Ok? ==> r.value == Numbered(values, old(nextEmbeddingId)) && embeddings == old(embeddings) + r.value
      ensures r.Ok? ==> forall i :: 0 <= i < |r.value| ==> r.value[i].id !in set k | 0 <= k < |old(embeddings)| :: old(embeddings)[k].id
    {
      var failure := InsertError(values, documents);
      if failure.Some? {
        return Err(failure.value);
      }
      var added := Numbered(values, nextEmbeddingId);
      embeddings := embeddings + added;
      nextEmbeddingId := nextEmbeddingId + |values|;
      r := Ok(added);
    }

    /** Deletes a document; the cascade removes exactly its embeddings. */
    method DeleteDocument(d: DocId)
      requires Valid()
      modifies this
      ensures Valid()
      ensures documents == old(documents) - {d}
      ensures embeddings == WithoutDocument(old(embeddings), d)
    {
      CascadeKeepsIntegrity(documents, embeddings, d);
      documents := documents - {d};
      embeddings := WithoutDocument(embeddings, d);
    }
  }
}
