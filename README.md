# Gov-Gpt ingestion and retrieval core, in Dafny

Gov-Gpt answers citizens' questions about legislative documents: the
constitution, election law, parliamentary bulletins and bills. Its core is
a document pipeline. An administrator uploads a PDF. The upload is queued,
and a webhook parses the PDF into pages and splits the pages into chunks.
Each chunk is tagged with a section heading and a date found in its text,
and then embedded. The full text is stored as a document, and the chunks
are stored as embedding rows that refer to it. A question is embedded the
same way. The six most similar stored chunks above a similarity of 0.75
are returned, with the title and type of their document. Parliamentary
proceedings are kept in a table of their own, listed newest first.

The project models that core. Each module follows one source file:

- `Text`: the JavaScript character classes and string helpers the code relies on (`\s`, `\b`, `trim`, `startsWith`).
- `MetadataTagger`: `detectSection` and `detectTimestamp`.
  - Each of their eight regular expressions is modelled exactly, greedy quantifiers and backtracking included.
  - `Find` is the leftmost-match search of `String.prototype.match`.
- `TaggerProperties`: which pattern wins when a markdown heading or an ISO date is present, and what it captures.
- `TaggerExamples`: worked inputs of the two detectors.
- `EmbeddingStore`: the `documents` and `embeddings` tables as the class `Database`.
  - The class keeps the tables' integrity: vectors of 1536 components, unique ids, and no row naming a missing document.
  - It has an all-or-nothing bulk insert and the cascade on delete.
- `Embedding`: `generateEmbeddings`, and `findRelevantContent` as a filter, order, limit and left join over the stored rows.
- `Ingestion`: `uploadDocument` as a method on the `Database`.
  - It validates the form, joins the page texts into the stored content, maps each chunk to one embedding row, and turns failures into results.
- `Uploads`: the upload queue route.
  - `getBaseUrl` and the form helpers, as functions.
  - The `document_uploads` table as the class `UploadTable`, with its POST and PATCH handlers.
- `UploadProcessing`: the processing webhook, which drives an upload from `pending` through `processing` to `completed` or `failed`.
- `ProceedingSchema`: the insert schema of proceedings, including its `YYYY-MM-DD` check.
- `Proceedings`: the listing, the lookup and the insert of proceedings.
  - The lemma `DateOrderIsChronological` proves that, for dates of the schema's shape, the text order the listing sorts by is calendar order.

Some behaviours of the code are easy to miss. The model keeps them:

- A markdown heading may be followed by blank lines: `\s+` runs over line breaks, and the section is taken from the next line with text (`MarkdownHeadingAt`).
- A heading with nothing after its hashes yields an empty section (`BlankHeading`).
- A PDF that yields no chunks leaves its document stored. It adds no embeddings and reports Drizzle's error for an empty insert (`SuccessIff`, `OutcomeMessages`, `UploadDocument`).
- The metadata of a new upload holds the LAST `title` and `type` entries of the form. The route validated the first ones (`MetadataIsEntries`).
- A `file` entry saved in that metadata reads back as `[object Object]`, but the processing form never reads it (`ProcessingForm`).
- The scheme check of `getBaseUrl` is a prefix test: `httpsite.example` is taken to have a scheme already (`WithScheme`).

Three facts of the code and its schema shape the data model:

- The `embeddings` table in `lib/db/schema/embeddings.ts` declares no `metadata` column. Yet `uploadDocument` writes one and `findRelevantContent` reads one, so `EmbeddingRow` carries it.
- `embeddings.resourceId` is nullable, so `resourceId` is an `Option`, and the integrity rule allows `None`.
- The document type is free text: `uploadDocument` accepts any non-empty string.

External services are parameters:

- the PDF parser: `load`;
- the text splitter: `split`;
- the embedding model: `embed`;
- the cosine similarity: `similarity`;
- the `fetch` of a stored file: `fetch`;
- S3: the URL it returned, `stored`;
- the queue: whether it accepted the job, `published`;
- the clock: `now`.

Row ids are handed out by counters, so uniqueness is an invariant of each table class.

## Model

| member | source | states |
|---|---|---|
| Text.Trim | lib/actions/documents.ts:23 | the result has no white space at either end, and it is the slice of the input left once only white space is cut from both ends |
| MetadataTagger.MatchAt | lib/actions/documents.ts:14-41 | a pattern's capture lies inside the text; for every pattern but the markdown heading it begins where the match begins |
| MetadataTagger.Find | lib/actions/documents.ts:21 | the leftmost match: the pattern matches at the returned position, and at no earlier one; no result means it matches nowhere |
| MetadataTagger.FirstOf | lib/actions/documents.ts:20-25 | from a given index on, the first pattern in list order that matches anywhere wins; every earlier pattern from that index matches nowhere; no result means none matches |
| MetadataTagger.DetectSection | lib/actions/documents.ts:11-28 | null exactly when none of the four section patterns matches; otherwise the trimmed capture of the first pattern that matches, which has no white space at either end |
| MetadataTagger.DetectTimestamp | lib/actions/documents.ts:31-52 | null exactly when none of the four date/time patterns matches; otherwise the untrimmed, non-empty capture of the first pattern that matches |
| TaggerProperties.HeadingWins | lib/actions/documents.ts:13-24 | a markdown heading anywhere beats the other section forms; the section is its text up to the end of its line, trimmed |
| TaggerProperties.IsoDateWins | lib/actions/documents.ts:33-48 | an ISO date anywhere beats the other date forms; the timestamp is the leftmost ISO date, ten characters of the shape YYYY-MM-DD |
| TaggerProperties.IsoDateSpan | lib/actions/documents.ts:35 | an ISO date match captures exactly the ten characters where it starts, and they have the shape YYYY-MM-DD |
| TaggerProperties.IsoDateShape | lib/actions/documents.ts:35 | the leftmost ISO date, when there is one, is ten characters of the shape YYYY-MM-DD |
| TaggerProperties.IsoDateFirst | lib/actions/documents.ts:33-48 | when an ISO date occurs anywhere, the search settles on the ISO pattern and its leftmost match |
| TaggerProperties.TimestampOfFirst | lib/actions/documents.ts:44-48 | the timestamp is the untrimmed capture of the match the search settles on |
| TaggerProperties.FirstPatternWins | lib/actions/documents.ts:20-25 | when the first pattern matches, the search stops at it |
| TaggerProperties.HeadingSpan | lib/actions/documents.ts:14 | a markdown heading captures the rest of a line: characters that are not line terminators, up to the end of that line |
| TaggerProperties.SectionOfFirst | lib/actions/documents.ts:20-24 | the section is the trimmed capture of the match the search settles on |
| TaggerExamples.BlankHeading | lib/actions/documents.ts:14-23 | `"#  "` yields the empty section rather than null |
| TaggerExamples.IsoDateExample | lib/actions/documents.ts:34-35 | `"2024-03-21 sitting"` is stamped `2024-03-21` |
| TaggerExamples.NoIsoDateIn | lib/actions/documents.ts:35 | `"On 21/03/2024"` holds no ISO date |
| TaggerExamples.NumericDateSpan | lib/actions/documents.ts:37 | in `"On 21/03/2024"` the numeric pattern matches at the day and captures through the end of the year |
| TaggerExamples.NumericDateAt3 | lib/actions/documents.ts:36-37 | the leftmost numeric date of `"On 21/03/2024"` starts at the day and covers the whole date |
| TaggerExamples.NumericDateExample | lib/actions/documents.ts:36-48 | without an ISO date, `"On 21/03/2024"` is stamped `21/03/2024` |
| EmbeddingStore.WithoutDocument | lib/db/schema/embeddings.ts:11-14 | the cascade keeps exactly the rows that do not refer to the deleted document |
| EmbeddingStore.WithoutDocumentKeepsIdsUnique | lib/db/schema/embeddings.ts:8-10 | the cascade keeps the primary key unique |
| EmbeddingStore.CascadeKeepsIntegrity | lib/db/schema/embeddings.ts:11-16 | deleting a document with its embeddings keeps the dimension, key and foreign-key rules |
| EmbeddingStore.Numbered | lib/db/schema/embeddings.ts:8-10 | a bulk insert adds one row per value, in order, carrying its fields, with consecutive ids from the next free one |
| EmbeddingStore.DimensionMessage | lib/db/schema/embeddings.ts:16 | pgvector's message `expected 1536 dimensions, not N`: the vector's width N can be read back from its digits |
| EmbeddingStore.FirstWrongWidth | lib/db/schema/embeddings.ts:16 | the position of the first vector, in row order, that is not 1536 wide; none exactly when every vector is |
| EmbeddingStore.VectorError | lib/db/schema/embeddings.ts:16 | an empty batch gives Drizzle's empty-insert message; otherwise the first vector of the wrong width gives pgvector's message with its width; no error exactly when the batch is non-empty and every vector is 1536 wide |
| EmbeddingStore.InsertError | lib/db/schema/embeddings.ts:11-16 | a bulk insert is refused exactly when it is empty, holds a vector not of 1536 components, or names a missing document; the batch checks come first, and a refusal after them is the foreign-key message naming `embeddings_resource_id_documents_id_fk` |
| EmbeddingStore.Database.InsertDocument | lib/actions/documents.ts:95-103 | the document row is stored under the next id, which no row has, with the given fields; the embeddings are untouched |
| EmbeddingStore.Database.InsertEmbeddings | lib/db/schema/embeddings.ts:8-16 | all rows or none: the insert fails exactly as `InsertError` says and then changes nothing; otherwise it appends the numbered rows, whose ids are new, and keeps integrity |
| EmbeddingStore.Database.DeleteDocument | lib/db/schema/embeddings.ts:11-14 | the document goes, and exactly its embeddings go with it; integrity holds afterwards |
| Embedding.GenerateEmbeddings | lib/ai/embedding.ts:10-23 | a single record with the input text, the model's vector and the metadata unchanged; a model failure is passed on |
| Embedding.Score | lib/ai/embedding.ts:31-34 | every stored row, in order, with its similarity to the query |
| Embedding.AboveThreshold | lib/ai/embedding.ts:50 | keeps exactly the rows whose similarity exceeds 0.75, each as often as it occurs |
| Embedding.InsertDesc | lib/ai/embedding.ts:51 | inserting into a list ordered by decreasing similarity keeps it ordered and adds exactly that row |
| Embedding.SortDesc | lib/ai/embedding.ts:51 | a permutation of its input, ordered by decreasing similarity |
| Embedding.TakeTop | lib/ai/embedding.ts:52 | at most six rows from the head of an ordered list; anything left out is no more similar than anything kept; nothing is left out when fewer than six are kept |
| Embedding.PrefixSortedDesc | lib/ai/embedding.ts:52 | a prefix of a list ordered by decreasing similarity is ordered |
| Embedding.PrefixIsTop | lib/ai/embedding.ts:52 | what a prefix of an ordered list leaves out is no more similar than anything in the prefix |
| Embedding.Select | lib/ai/embedding.ts:50-52 | at most six rows, each above the threshold, in decreasing similarity, taken from the rows above the threshold |
| Embedding.SelectIsTopK | lib/ai/embedding.ts:50-52 | a qualifying row left out is no more similar than every row returned; fewer than six returned means all qualifying rows are returned |
| Embedding.Join | lib/ai/embedding.ts:37-49 | left join: title and type are present exactly when the row names an existing document, and are that document's; page number and section come from the row's metadata |
| Embedding.SelectedAreScored | lib/ai/embedding.ts:48-52 | every selected row is one of the scored stored rows |
| Embedding.JoinAll | lib/ai/embedding.ts:37-49 | the join applied to every selected row, in order |
| Embedding.Relevant | lib/ai/embedding.ts:37-52 | at most six rows, each with similarity above 0.75, in non-increasing similarity |
| Embedding.RelevantRowsAreStored | lib/ai/embedding.ts:37-52 | every returned row is the join of some stored row with its similarity |
| Embedding.FindRelevantContent | lib/ai/embedding.ts:25-62 | a failure to embed the query is passed on; otherwise the similarity query runs with the query's vector |
| Embedding.NoMatchIsEmpty | lib/ai/embedding.ts:50 | the result is empty exactly when no stored row exceeds the threshold |
| Embedding.TopK | lib/ai/embedding.ts:49-52 | a row above the threshold is returned, even without a document, when fewer than six are returned or when it beats the last returned row |
| Ingestion.MessageOf | lib/actions/documents.ts:131-136 | a thrown Error gives its own message; anything else gives 'Unknown error occurred' |
| Ingestion.Contents | lib/actions/documents.ts:100 | the text of every page, in page order |
| Ingestion.HasRequiredFields | lib/actions/documents.ts:64-68 | holds exactly when the form has a file and a type and a title that are present and not empty |
| Ingestion.JoinLines | lib/actions/documents.ts:100 | the joined text is empty for no pages; it starts with the first page and ends with the last, and a newline follows the first page when there are more |
| Ingestion.SplitLinesAppend | lib/actions/documents.ts:100 | splitting two texts joined by a newline gives the pieces of the first followed by those of the second |
| Ingestion.SplitJoinLines | lib/actions/documents.ts:100 | the stored content splits at newlines into the lines of each page in turn |
| Ingestion.SplitEachOfLines | lib/actions/documents.ts:100 | so when no page contains a newline the stored content splits back into the page texts |
| Ingestion.Tag | lib/actions/documents.ts:109-113 | a chunk's metadata: its page number, a trimmed section, a non-empty timestamp |
| Ingestion.ToRows | lib/actions/documents.ts:118-125 | one row per record, in order, each naming the new document and carrying the record's text, vector and metadata |
| Ingestion.EmbedChunks | lib/actions/documents.ts:106-115 | succeeds exactly when every chunk embeds: one record per chunk in chunk order; otherwise the error of the first chunk that fails |
| Ingestion.RowsOfChunks | lib/actions/documents.ts:106-125 | the stored batch has one row per chunk in chunk order, with the new document's id, the chunk's text and vector, its page number and the detectors' tags |
| Ingestion.InsertErrorOfBatch | lib/actions/documents.ts:118-125 | rows that all name the new document never break the foreign key: the insert fails exactly as the batch checks on the chunks' vectors say |
| Ingestion.FirstFailureDecides | lib/actions/documents.ts:106-115 | the first chunk whose embedding fails decides the error of the whole batch |
| Ingestion.Outcome | lib/actions/documents.ts:60-138 | success carries the fixed success message; missing fields give 'Missing required fields' |
| Ingestion.OutcomeMessages | lib/actions/documents.ts:82-136 | the message of a failed upload comes from the first failure in order: the parse's error, then the first chunk whose embedding fails, then the insert of the batch (Drizzle's empty-insert message for no chunks, pgvector's message with the width of the first vector not 1536 wide) |
| Ingestion.SuccessIff | lib/actions/documents.ts:60-138 | an upload succeeds exactly when the form is complete, the PDF parses, there is a chunk, and every chunk embeds to 1536 components |
| Ingestion.UploadDocument | lib/actions/documents.ts:60-138 | returns `Outcome`; missing fields or a parse failure write nothing and store no document; otherwise the document with the newline-joined content is stored under the next id; the embeddings grow by the numbered chunk rows on success and stay as they were on failure |
| Uploads.WithScheme | app/api/admin/uploads/route.ts:21 | the result starts with `http` and ends with the input, which is kept as it is when it already starts with `http` |
| Uploads.WithSchemeIdempotent | app/api/admin/uploads/route.ts:21 | adding the scheme twice is adding it once |
| Uploads.AppUrl | app/api/admin/uploads/route.ts:19 | never empty: the configured URL when it is set and not empty, the public site otherwise |
| Uploads.UsesTunnel | app/api/admin/uploads/route.ts:15 | holds exactly in development with a tunnel URL that is set and not empty |
| Uploads.GetBaseUrl | app/api/admin/uploads/route.ts:14-22 | never empty; the tunnel URL in development when it is set; otherwise the app URL, or the public site, starting with `http` |
| Uploads.Get | app/api/admin/uploads/route.ts:37-39 | the value of the first entry with the key, or nothing when no entry has it |
| Uploads.Truthy | app/api/admin/uploads/route.ts:41 | a form value is truthy exactly when it is present and is a file or a non-empty text |
| Uploads.FromEntries | app/api/admin/uploads/route.ts:64 | exactly the keys of the form |
| Uploads.Metadata | app/api/admin/uploads/route.ts:60-65 | the keys are the form's keys plus `title` and `type`; every key of the form holds the value the spread gives it |
| Uploads.FromEntriesLastWins | app/api/admin/uploads/route.ts:64 | each key holds the value of its last entry |
| Uploads.MetadataIsEntries | app/api/admin/uploads/route.ts:60-65 | the metadata holds a title and a type, but it is just the form's entries, the last of each key |
| Uploads.Assign | app/api/admin/uploads/route.ts:100-106 | an absent field keeps the column, null clears it, a value replaces it |
| Uploads.ApplyPatch | app/api/admin/uploads/route.ts:98-108 | only status, error and the two progress columns change, each as the body gives it |
| Uploads.EmptyPatchChangesNothing | app/api/admin/uploads/route.ts:98-108 | a body with every field absent leaves the row unchanged |
| Uploads.UploadTable.Update | app/api/admin/uploads/route.ts:98-108 | the row with the id, if any, is transformed; no other row changes |
| Uploads.UploadTable.Post | app/api/admin/uploads/route.ts:34-85 | a missing field gives 400 and writes nothing; otherwise a pending row with a fresh id, the file's name, size and URL and the form's metadata is stored, and a job for that id goes to the base URL plus the process path |
| Uploads.UploadTable.Patch | app/api/admin/uploads/route.ts:87-118 | without a truthy id, 400 'Missing upload ID' and nothing changes; otherwise only that row is patched and returned |
| UploadProcessing.MarkProcessing | app/api/admin/uploads/process/route.ts:17-24 | status processing with progress 10; nothing else changes |
| UploadProcessing.MarkCompleted | app/api/admin/uploads/process/route.ts:62-70 | status completed with progress 100; the document id changes only when one is given |
| UploadProcessing.MarkFailed | app/api/admin/uploads/process/route.ts:72-81 | status failed with the message; the progress stays where it was |
| UploadProcessing.AsFormText | app/api/admin/uploads/process/route.ts:49-51 | a text value is appended as it is; a saved file entry becomes `[object Object]` |
| UploadProcessing.Lookup | app/api/admin/uploads/process/route.ts:49-52 | a saved metadata key is found exactly when it was saved, with its text, or `[object Object]` for a saved file entry |
| UploadProcessing.ProcessingForm | app/api/admin/uploads/process/route.ts:43-52 | the form carries the fetched file under the original name, and the saved title and type |
| UploadProcessing.FailureOf | app/api/admin/uploads/process/route.ts:36-84 | a network error or a non-ok response gives its message; otherwise no failure exactly when `uploadDocument` succeeds |
| UploadProcessing.MissingTitleFails | app/api/admin/uploads/process/route.ts:47-59 | saved metadata without a title fails with 'Missing required fields' once the file is fetched, and the store stays as it was |
| UploadProcessing.Start | app/api/admin/uploads/process/route.ts:17-34 | an existing upload is marked processing and returned; a missing one changes nothing |
| UploadProcessing.Ingest | app/api/admin/uploads/process/route.ts:36-59 | the failure is `FailureOf` the upload; the store ends as `uploadDocument` leaves it when the file was fetched, unchanged otherwise; on success the stored document is new |
| UploadProcessing.Settled | app/api/admin/uploads/process/route.ts:61-81 | the upload ends completed or failed: failed with the message of a failed attempt, otherwise completed with the given document id, kept when none is given |
| UploadProcessing.SettledReply | app/api/admin/uploads/process/route.ts:86-92 | `{ success: true }` exactly when the attempt succeeded, status 500 exactly when it failed |
| UploadProcessing.Settle | app/api/admin/uploads/process/route.ts:61-90 | the upload is settled and the reply given as `Settled` and `SettledReply` say; no other upload changes |
| UploadProcessing.Handle | app/api/admin/uploads/process/route.ts:12-94 | a missing upload gives 500 and changes nothing; otherwise the upload ends completed or failed, with the message on failure, and its document id unchanged; the store ends as `uploadDocument` leaves it when the file was fetched, unchanged otherwise |
| UploadProcessing.CompletedUploadStaysUnlinked | app/api/admin/uploads/process/route.ts:62-70 | a new upload that completes still has no document id |
| UploadProcessing.HandleAndLink | app/api/admin/uploads/process/route.ts:12-94 | as `Handle`, store included, but a completed upload records the id of the new document it stored |
| ProceedingSchema.IsDateFormat | lib/db/schema/parliamentary-proceedings.ts:24 | exactly ten characters: digits, with `-` at positions 4 and 7 |
| ProceedingSchema.RequiredIssue | lib/db/schema/parliamentary-proceedings.ts:22 | a text field yields 'Required' exactly when it is missing |
| ProceedingSchema.DateIssue | lib/db/schema/parliamentary-proceedings.ts:23-25 | the date is accepted exactly when it has the YYYY-MM-DD shape; otherwise 'Required' or the format message |
| ProceedingSchema.Issues | lib/db/schema/parliamentary-proceedings.ts:22-30 | no issues exactly when the four fields are present and the date has the shape; at most four issues, each about one of the four fields |
| ProceedingSchema.IssuesCover | lib/db/schema/parliamentary-proceedings.ts:22-30 | every missing field is reported as required, and a date of the wrong shape with the format message |
| ProceedingSchema.IssuesName | lib/db/schema/parliamentary-proceedings.ts:22-30 | a 'Required' issue names a missing field; any other issue is the format message about a present date of the wrong shape |
| ProceedingSchema.Validate | lib/db/schema/parliamentary-proceedings.ts:22-30 | accepts exactly when the four fields are present and the date has the shape; otherwise it reports the missing fields and the bad date |
| ProceedingSchema.OtherKeysIgnored | lib/db/schema/parliamentary-proceedings.ts:26-30 | keys other than the four fields, including id and timestamps, do not change the outcome |
| ProceedingSchema.CalendarNotChecked | lib/db/schema/parliamentary-proceedings.ts:24 | `2024-13-45` is accepted |
| Proceedings.LexLe | lib/proceedings.ts:15 | a prefix sorts at or before the text it starts |
| Proceedings.LexLeIff | lib/proceedings.ts:15 | text order as JavaScript compares strings: a prefix, or a smaller code at the first position where they differ |
| Proceedings.LexLeTotal | lib/proceedings.ts:15 | any two dates are comparable as text |
| Proceedings.LexLeTransitive | lib/proceedings.ts:15 | text order is transitive |
| Proceedings.LexLeAntisymmetric | lib/proceedings.ts:15 | texts ordered both ways are equal |
| Proceedings.TextOrderIsNumericOrder | lib/proceedings.ts:15 | between digit strings of equal width, text order is numeric order |
| Proceedings.DayOrder | lib/proceedings.ts:15 | for YYYY-MM-DD dates, text order of the day parts is day order |
| Proceedings.MonthDayOrder | lib/proceedings.ts:15 | for YYYY-MM-DD dates, text order from the month on is month, then day order |
| Proceedings.DateOrderIsChronological | lib/proceedings.ts:15 | for YYYY-MM-DD dates, text order is year, then month, then day order |
| Proceedings.InsertByDate | lib/proceedings.ts:15 | inserting into a newest-first listing keeps it newest first and adds exactly that entry |
| Proceedings.SortByDate | lib/proceedings.ts:15 | a permutation of its input, newest date first |
| Proceedings.Summary | lib/proceedings.ts:8-13 | the id, title, date and creation time of a proceeding |
| Proceedings.Project | lib/proceedings.ts:7-14 | every proceeding, projected, in storage order |
| Proceedings.FindById | lib/proceedings.ts:18-26 | a row with that id, or nothing exactly when no row has it |
| Proceedings.FindAppended | lib/proceedings.ts:28-45 | a row appended under a new id is what the lookup of that id finds |
| Proceedings.ProceedingsTable.GetProceedings | lib/proceedings.ts:6-16 | every proceeding, projected, newest date first |
| Proceedings.ProceedingsTable.GetProceeding | lib/proceedings.ts:18-26 | a stored proceeding with that id, or null exactly when none exists |
| Proceedings.ProceedingsTable.CreateProceeding | lib/proceedings.ts:28-45 | appends one proceeding with a fresh id and the given fields; existing rows stay; looking it up returns it |
| Proceedings.ListingIsReverseChronological | lib/proceedings.ts:6-16 | when every stored date has the schema's shape, the listing is newest first in calendar order |

## Left out

- PDF parsing (`PDFLoader`) and chunk splitting (`RecursiveCharacterTextSplitter`) are the parameters `load` and `split`. Chunk size, overlap and separators belong to those libraries. The splitter is taken never to fail.
- The page number of a chunk is whatever the splitter's metadata carries; the model takes it as given.
- The embedding model and the cosine distance are the parameters `embed` and `similarity`. Vectors are sequences of reals; floating point is not modelled.
- `Promise.all` over the chunks is modelled as a sequential map in chunk order. When several chunks fail, the model reports the first failure in chunk order; `Promise.all` reports the first in time.
- The HNSW index is a performance detail. The model scans every row exactly.
- Rows of equal similarity, and proceedings of equal date, come back in an order the database leaves open. The model fixes storage order.
- Dates are compared by character code, as text. Database collations other than code-point order are not modelled.
- Row ids are counters, not `generateId`/`nanoid` strings. Proceeding ids are numbers, not `varchar`s.
- `createdAt`/`updatedAt` come from the clock. `CreateProceeding` takes `now`; the upload rows carry no timestamps.
- `Date.now()` in the S3 file name is not modelled.
- S3 is reduced to the URL it returns, or its failure (`stored`). The queue is reduced to whether it accepted the job (`published`).
  - The queue's retries and its signature check are not modelled.
  - The parsing of request bodies is not modelled.
- Database outages are not modelled. Only the failures the table rules cause are: an empty insert, a vector of the wrong width, a missing parent document.
- EmbeddingStore.InsertError: pgvector's own refusals of an empty vector and of one wider than it supports are not modelled; every wrong width gets the `expected 1536 dimensions, not N` message. The constraint name in the foreign-key message is the one Drizzle generates for `documents.id`, since `lib/db/schema/documents.ts` is not part of this model.
- The GET handler of the upload route only lists the table ordered by `createdAt`, which the model does not store. It is not modelled.
- `lib/db/schema/documents.ts` and `lib/db/schema/document-uploads.ts` are not part of this model. The document and upload rows follow the fields the code reads and writes.
- Uploads.UploadTable.Patch: a `status` of null or one outside the four states is not modelled, because the column's definition is not part of this model. `updatedAt` is not modelled.
- ProceedingSchema.Validate: inputs are string-valued maps. A field of another JSON type, which the schema would also refuse, is not modelled.
- The determinism of the detectors is not a separate lemma: `DetectSection`, `DetectTimestamp` and `Tag` are functions, so equal chunks get equal tags.

## Findings

| source | as written | input that shows it | evidently intended | confidence | as-written member | corrected member |
|---|---|---|---|---|---|---|
| app/api/admin/uploads/process/route.ts:67 | on success the update sets `documentId` to `result.document?.id`, but `uploadDocument` returns only `success` and `message`, so the value is `undefined` and the update skips the column | any upload whose processing succeeds: it ends `completed` with no `documentId` | a completed upload records the id of the document its processing stored | high; not executed | UploadProcessing.Handle; UploadProcessing.CompletedUploadStaysUnlinked | UploadProcessing.HandleAndLink |
