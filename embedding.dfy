/**
 * Embedding generation and retrieval (lib/ai/embedding.ts).
 *
 * `GenerateEmbeddings` wraps one call of the embedding model into a
 * one-element list. `FindRelevantContent` embeds the query and runs the
 * similarity query: keep the rows whose similarity exceeds 0.75, order them
 * by similarity, highest first, keep at most six, and attach the title and
 * type of each row's document through a left join. The model and the cosine
 * similarity are parameters: what matters here is the selection rule.
 */
module Embedding {
  import opened Wrappers
  import opened EmbeddingStore

  /** One element of what `generateEmbeddings` returns. */
  datatype EmbeddingRecord<M> = EmbeddingRecord(content: string, embedding: Vector, metadata: M)

  /** `generateEmbeddings`: embeds the chunk's text and returns a single record
    * carrying that text and the chunk's metadata unchanged; a failure of the
    * model is passed on. */
  function GenerateEmbeddings<M>(pageContent: string, metadata: M, embed: string -> Result<Vector, Thrown>)
    : (r: Result<seq<EmbeddingRecord<M>>, Thrown>)
    ensures embed(pageContent).Err? ==> r == Err(embed(pageContent).error)
    ensures embed(pageContent).Ok? ==> r.Ok? && |r.value| == 1
    ensures embed(pageContent).Ok? ==>
      r.value[0] == EmbeddingRecord(pageContent, embed(pageContent).value, metadata)
  {
    match embed(pageContent)
    case Err(e) => Err(e)
    case Ok(v) => Ok([EmbeddingRecord(pageContent, v, metadata)])
  }

  /** The metadata the query is embedded with: `{ pageNumber: 1 }`. */
  datatype QueryMetadata = QueryMetadata(pageNumber: int)

  /** `gt(similarity, 0.75)` */
  const Threshold: real := 0.75
  /** `limit(6)` */
  const Limit: nat := 6

  /** One row of the similarity query before the join. */
  datatype Scored = Scored(row: EmbeddingRow, similarity: real)

  /** One result row of `findRelevantContent`. */
  datatype RelevantContent = RelevantContent(
    content: string, similarity: real,
    documentTitle: Option<string>, documentType: Option<string>,
    metadata: ChunkMetadata, pageNumber: Option<int>, section: Option<string>)

  function Min(a: nat, b: nat): nat { if a <= b then a else b }

  /** Every stored row with its similarity to the query. */
  function Score(rows: seq<EmbeddingRow>, similarity: (Vector, Vector) -> real, query: Vector): (r: seq<Scored>)
    ensures |r| == |rows|
    ensures forall i :: 0 <= i < |r| ==> r[i] == Scored(rows[i], similarity(rows[i].embedding, query))
  {
    seq(|rows|, i requires 0 <= i < |rows| => Scored(rows[i], similarity(rows[i].embedding, query)))
  }

  /** The rows the `where` clause keeps. */
  function AboveThreshold(xs: seq<Scored>): (r: seq<Scored>)
    ensures forall x :: multiset(r)[x] == if x.similarity > Threshold then multiset(xs)[x] else 0
  {
    if xs == [] then []
    else
      assert xs == [xs[0]] + xs[1..];
      if xs[0].similarity > Threshold then [xs[0]] + AboveThreshold(xs[1..]) else AboveThreshold(xs[1..])
  }

  predicate SortedDesc(xs: seq<Scored>) {
    forall i, j :: 0 <= i < j < |xs| ==> xs[i].similarity >= xs[j].similarity
  }

  /** A row no less similar than every row of an ordered list can head it. */
  lemma {:induction false} PrependKeepsSortedDesc(x: Scored, xs: seq<Scored>)
    requires SortedDesc(xs)
    requires forall j :: 0 <= j < |xs| ==> xs[j].similarity <= x.similarity
    ensures SortedDesc([x] + xs)
  {
    var r := [x] + xs;
    forall i, j | 0 <= i < j < |r| ensures r[i].similarity >= r[j].similarity {
      assert r[j] == xs[j - 1];
      if i > 0 { assert r[i] == xs[i - 1]; }
    }
  }

  /** A bound on the similarities of a list and of one more row bounds every
    * list holding exactly those rows. */
  lemma {:induction false} SimilarityBound(r: seq<Scored>, xs: seq<Scored>, x: Scored, b: real)
    requires multiset(r) == multiset(xs) + multiset{x}
    requires x.similarity <= b && forall j :: 0 <= j < |xs| ==> xs[j].similarity <= b
    ensures forall j :: 0 <= j < |r| ==> r[j].similarity <= b
  {
    forall j | 0 <= j < |r| ensures r[j].similarity <= b {
      assert r[j] in multiset(r);
      if r[j] != x {
        assert r[j] in multiset(xs);
        var k :| 0 <= k < |xs| && xs[k] == r[j];
      }
    }
  }

  /** The head of an ordered list stays ahead of a less similar row
    * inserted into its tail. */
  lemma {:induction false} KeepHead(x: Scored, xs: seq<Scored>, rest: seq<Scored>)
    requires SortedDesc(xs) && xs != [] && x.similarity < xs[0].similarity
    requires SortedDesc(rest) && multiset(rest) == multiset(xs[1..]) + multiset{x}
    ensures SortedDesc([xs[0]] + rest)
    ensures multiset([xs[0]] + rest) == multiset(xs) + multiset{x}
  {
    assert xs == [xs[0]] + xs[1..];
    assert forall j :: 0 <= j < |xs[1..]| ==> xs[1..][j].similarity <= xs[0].similarity;
    SimilarityBound(rest, xs[1..], x, xs[0].similarity);
    PrependKeepsSortedDesc(xs[0], rest);
  }

  /** Inserts `x` into a list ordered by decreasing similarity, before the
    * elements of equal similarity. */
  function InsertDesc(x: Scored, xs: seq<Scored>): (r: seq<Scored>)
    requires SortedDesc(xs)
    ensures SortedDesc(r)
    ensures multiset(r) == multiset(xs) + multiset{x}
  {
    if xs == [] || x.similarity >= xs[0].similarity then
      assert forall j :: 0 <= j < |xs| ==> xs[j].similarity <= xs[0].similarity;
      PrependKeepsSortedDesc(x, xs);
      [x] + xs
    else
      var rest := InsertDesc(x, xs[1..]);
      KeepHead(x, xs, rest);
      [xs[0]] + rest
  }

  /** `orderBy(desc(similarity))`. The database leaves the order of equal
    * similarities open; this order keeps them in storage order. */
  function SortDesc(xs: seq<Scored>): (r: seq<Scored>)
    ensures SortedDesc(r)
    ensures multiset(r) == multiset(xs)
  {
    if xs == [] then []
    else
      assert xs == [xs[0]] + xs[1..];
      InsertDesc(xs[0], SortDesc(xs[1..]))
  }

  /** `limit(6)` on a list ordered by decreasing similarity: what it leaves
    * out is no more similar than anything it keeps. */
  function TakeTop(t: seq<Scored>): (r: seq<Scored>)
    requires SortedDesc(t)
    ensures |r| == Min(Limit, |t|)
    ensures SortedDesc(r)
    ensures multiset(r) <= multiset(t)
    ensures |r| < Limit ==> r == t
    ensures forall x, i :: x in multiset(t) - multiset(r) && 0 <= i < |r| ==> x.similarity <= r[i].similarity
  {
    var n := Min(Limit, |t|);
    PrefixSortedDesc(t, n);
    PrefixIsTop(t, n);
    t[..n]
  }

  /** A prefix of an ordered list is ordered. */
  lemma {:induction false} PrefixSortedDesc(t: seq<Scored>, n: nat)
    requires SortedDesc(t) && n <= |t|
    ensures SortedDesc(t[..n])
  {
    forall i, j | 0 <= i < j < n ensures t[..n][i].similarity >= t[..n][j].similarity {
      assert t[..n][i] == t[i] && t[..n][j] == t[j];
    }
  }

  /** What a prefix of an ordered list leaves out is no more similar than
    * anything in the prefix. */
  lemma {:induction false} PrefixIsTop(t: seq<Scored>, n: nat)
    requires SortedDesc(t) && n <= |t|
    ensures multiset(t[..n]) <= multiset(t)
    ensures forall x, i :: x in multiset(t) - multiset(t[..n]) && 0 <= i < n ==> x.similarity <= t[..n][i].similarity
  {
    var r := t[..n];
    assert t == r + t[n..];
    forall x, i | x in multiset(t) - multiset(r) && 0 <= i < n ensures x.similarity <= r[i].similarity {
      assert x in multiset(t[n..]);
      var j :| 0 <= j < |t[n..]| && t[n..][j] == x;
      assert t[n + j] == x;
      assert r[i] == t[i];
    }
  }

  /** Filter, order and limit: the rows the query returns, before the join. */
  function Select(scored: seq<Scored>): (r: seq<Scored>)
    ensures |r| == Min(Limit, |AboveThreshold(scored)|)
    ensures forall i :: 0 <= i < |r| ==> r[i].similarity > Threshold
    ensures SortedDesc(r)
    ensures multiset(r) <= multiset(AboveThreshold(scored))
  {
    var above := AboveThreshold(scored);
    var r := TakeTop(SortDesc(above));
    forall i | 0 <= i < |r| ensures r[i].similarity > Threshold {
      assert r[i] in multiset(r);
      assert multiset(above)[r[i]] > 0;
    }
    r
  }

  /** The selection is a top six of the rows above the threshold: what it
    * leaves out is no more similar than anything it keeps, and it leaves
    * nothing out when it keeps fewer than six. */
  lemma {:induction false} SelectIsTopK(scored: seq<Scored>)
    ensures var r := Select(scored);
      && (|r| < Limit ==> multiset(r) == multiset(AboveThreshold(scored)))
      && (forall x, i :: x in multiset(AboveThreshold(scored)) - multiset(r) && 0 <= i < |r| ==>
            x.similarity <= r[i].similarity)
  {
    var sorted := SortDesc(AboveThreshold(scored));
    assert Select(scored) == TakeTop(sorted);
  }

  /** The left join: the document's title and type when the row names an
    * existing document, null otherwise; page number and section are read
    * from the row's metadata. */
  function Join(x: Scored, docs: map<DocId, Document>): (r: RelevantContent)
    ensures r.content == x.row.content && r.similarity == x.similarity && r.metadata == x.row.metadata
    ensures r.documentTitle.Some? <==> x.row.resourceId.Some? && x.row.resourceId.value in docs
    ensures r.documentType.Some? <==> r.documentTitle.Some?
    ensures r.documentTitle.Some? ==>
      r.documentTitle.value == docs[x.row.resourceId.value].title && r.documentType.value == docs[x.row.resourceId.value].docType
    ensures r.pageNumber == x.row.metadata.pageNumber && r.section == x.row.metadata.section
  {
    var doc := if x.row.resourceId.Some? && x.row.resourceId.value in docs then Some(docs[x.row.resourceId.value]) else None;
    RelevantContent(
      x.row.content, x.similarity,
      if doc.Some? then Some(doc.value.title) else None,
      if doc.Some? then Some(doc.value.docType) else None,
      x.row.metadata, x.row.metadata.pageNumber, x.row.metadata.section)
  }

  /** Every selected row is one of the scored rows. */
  lemma {:induction false} SelectedAreScored(scored: seq<Scored>)
    ensures forall i :: 0 <= i < |Select(scored)| ==> Select(scored)[i] in scored
  {
    var sel := Select(scored);
    forall i | 0 <= i < |sel| ensures sel[i] in scored {
      assert sel[i] in multiset(sel);
      assert sel[i] in multiset(AboveThreshold(scored));
      assert sel[i] in multiset(scored);
    }
  }

  /** The join applied to each selected row, in order. */
  function JoinAll(sel: seq<Scored>, docs: map<DocId, Document>): (r: seq<RelevantContent>)
    ensures |r| == |sel| && forall i :: 0 <= i < |r| ==> r[i] == Join(sel[i], docs)
  {
    seq(|sel|, i requires 0 <= i < |sel| => Join(sel[i], docs))
  }

  /** The join keeps each row's similarity, so it keeps the selection's
    * bounds and order. */
  lemma {:induction false} JoinKeepsSimilarities(sel: seq<Scored>, docs: map<DocId, Document>)
    requires |sel| <= Limit && SortedDesc(sel)
    requires forall i :: 0 <= i < |sel| ==> sel[i].similarity > Threshold
    ensures var r := JoinAll(sel, docs);
      && |r| <= Limit
      && (forall i :: 0 <= i < |r| ==> r[i].similarity > Threshold)
      && (forall i, j :: 0 <= i < j < |r| ==> r[i].similarity >= r[j].similarity)
  {
    var r := JoinAll(sel, docs);
    assert forall i :: 0 <= i < |r| ==> r[i].similarity == sel[i].similarity;
  }

  /** The similarity query of `findRelevantContent` for the query vector `query`. */
  function Relevant(rows: seq<EmbeddingRow>, docs: map<DocId, Document>, similarity: (Vector, Vector) -> real, query: Vector)
    : (r: seq<RelevantContent>)
    ensures |r| <= Limit
    ensures forall i :: 0 <= i < |r| ==> r[i].similarity > Threshold
    ensures forall i, j :: 0 <= i < j < |r| ==> r[i].similarity >= r[j].similarity
  {
    var sel := Select(Score(rows, similarity, query));
    JoinKeepsSimilarities(sel, docs);
    JoinAll(sel, docs)
  }

  /** Each result row is the join of a stored row with its similarity: the
    * query adds nothing and changes nothing but the attached document fields. */
  lemma {:induction false} RelevantRowsAreStored(rows: seq<EmbeddingRow>, docs: map<DocId, Document>, similarity: (Vector, Vector) -> real, query: Vector)
    ensures var r := Relevant(rows, docs, similarity, query);
      forall i :: 0 <= i < |r| ==>
        exists k :: 0 <= k < |rows| && r[i] == Join(Scored(rows[k], similarity(rows[k].embedding, query)), docs)
  {
    var scored := Score(rows, similarity, query);
    var sel := Select(scored);
    var r := Relevant(rows, docs, similarity, query);
    assert r == JoinAll(sel, docs);
    SelectedAreScored(scored);
    forall i | 0 <= i < |r|
      ensures exists k :: 0 <= k < |rows| && r[i] == Join(Scored(rows[k], similarity(rows[k].embedding, query)), docs)
    {
      var k :| 0 <= k < |scored| && scored[k] == sel[i];
      assert r[i] == Join(scored[k], docs);
    }
  }

  /** `findRelevantContent`: embeds the query (a failure is thrown to the
    * caller) and runs the similarity query with the query's vector. */
  function FindRelevantContent(
    userQuery: string, rows: seq<EmbeddingRow>, docs: map<DocId, Document>,
    embed: string -> Result<Vector, Thrown>, similarity: (Vector, Vector) -> real)
    : (r: Result<seq<RelevantContent>, Thrown>)
    ensures embed(userQuery).Err? ==> r == Err(embed(userQuery).error)
    ensures embed(userQuery).Ok? ==> r == Ok(Relevant(rows, docs, similarity, embed(userQuery).value))
  {
    match GenerateEmbeddings(userQuery, QueryMetadata(1), embed)
    case Err(e) => Err(e)
    case Ok(records) => Ok(Relevant(rows, docs, similarity, records[0].embedding))
  }

  /** No row above the threshold gives the empty list, and only then. */
  lemma {:induction false} NoMatchIsEmpty(rows: seq<EmbeddingRow>, docs: map<DocId, Document>, similarity: (Vector, Vector) -> real, query: Vector)
    ensures Relevant(rows, docs, similarity, query) == [] <==>
      forall k :: 0 <= k < |rows| ==> similarity(rows[k].embedding, query) <= Threshold
  {
    var scored := Score(rows, similarity, query);
    var above := AboveThreshold(scored);
    if exists k :: 0 <= k < |rows| && similarity(rows[k].embedding, query) > Threshold {
      var k :| 0 <= k < |rows| && similarity(rows[k].embedding, query) > Threshold;
      assert scored[k] in multiset(scored);
      assert scored[k] in multiset(above);
      assert |above| > 0;
    } else {
      forall x | x in multiset(scored) ensures x !in multiset(above) {
        var k :| 0 <= k < |scored| && scored[k] == x;
      }
      assert multiset(above) == multiset{};
    }
  }

  /** The result is a top six: a row above the threshold is returned when
    * fewer than six rows are returned, or when its similarity exceeds that
    * of the last row returned. Rows without a document are not excluded. */
  lemma {:induction false} TopK(rows: seq<EmbeddingRow>, docs: map<DocId, Document>, similarity: (Vector, Vector) -> real, query: Vector, k: nat)
    requires k < |rows| && similarity(rows[k].embedding, query) > Threshold
    requires var r := Relevant(rows, docs, similarity, query);
      |r| < Limit || similarity(rows[k].embedding, query) > r[|r| - 1].similarity
    ensures var r := Relevant(rows, docs, similarity, query);
      exists i :: 0 <= i < |r| && r[i] == Join(Scored(rows[k], similarity(rows[k].embedding, query)), docs)
  {
    var scored := Score(rows, similarity, query);
    var above := AboveThreshold(scored);
    var sel := Select(scored);
    var r := Relevant(rows, docs, similarity, query);
    var x := scored[k];
    SelectIsTopK(scored);
    assert x in multiset(scored);
    assert x in multiset(above);
    assert r == JoinAll(sel, docs);
    assert x in multiset(sel);
    var i :| 0 <= i < |sel| && sel[i] == x;
    assert r[i] == Join(x, docs);
  }
}
