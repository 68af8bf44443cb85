/** The persistence half of knowledge-base ingestion: every concept document is cut into
    chunks, every chunk is embedded, and the chunks are stored under one document per
    (user, content hash), replacing that document's earlier rows. The feed drives these
    steps over a whole guide and adds up what it did. */
module KnowledgeBase {
  import opened Common
  import opened Store
  import opened Embedding
  import opened Concepts

  datatype Chunk = Chunk(content: string, source: string)

  datatype EmbeddingResult = EmbeddingResult(embedding: seq<real>, chunk: Chunk)

  datatype FeedResult = FeedResult(documentsCreated: nat, totalChunks: nat, totalEmbeddings: nat)

  /** The code ingestion calls but that is not part of this model: the embedding
      provider (a response without values is an empty vector), the recursive text
      splitter with its token counter (text, chunk size, overlap), SHA-256 as hex, and
      reading a UTF-8 file. */
  datatype IngestServices = IngestServices(
    embed: string -> Result<seq<real>>,
    split: (string, int, int) -> seq<string>,
    hash: string -> string,
    readFile: string -> Result<string>)

  const DefaultChunkSize: int := 384

  const EmptyEmbeddingMessage: string := "Empty embedding returned"

  const MismatchMessage: string := "Chunks and embeddings count mismatch"

  // ---------------------------------------------------------------------------
  // Chunking
  // ---------------------------------------------------------------------------

  /** `Math.floor(chunkSize * 0.1)`: a tenth of the chunk size, rounded down. */
  function ChunkOverlap(chunkSize: int): (o: int)
    ensures 10 * o <= chunkSize < 10 * o + 10
  {
    chunkSize / 10
  }

  /** The contents of a list of chunks, in order. */
  function Contents(chunks: seq<Chunk>): (r: seq<string>)
    ensures |r| == |chunks|
    ensures forall i :: 0 <= i < |chunks| ==> r[i] == chunks[i].content
  {
    seq(|chunks|, i requires 0 <= i < |chunks| => chunks[i].content)
  }

  /** `splitIntoChunks`: the splitter's pieces in order, each tagged with the filename
      of the document it came from. */
  function SplitIntoChunks(svc: IngestServices, markdown: string, filename: string, chunkSize: int)
    : (r: seq<Chunk>)
    ensures Contents(r) == svc.split(markdown, chunkSize, ChunkOverlap(chunkSize))
    ensures forall i :: 0 <= i < |r| ==> r[i].source == filename
  {
    var pieces := svc.split(markdown, chunkSize, ChunkOverlap(chunkSize));
    seq(|pieces|, i requires 0 <= i < |pieces| => Chunk(pieces[i], filename))
  }

  // ---------------------------------------------------------------------------
  // Embedding
  // ---------------------------------------------------------------------------

  /** One chunk's embedding: the provider's error, an error for an empty vector, or the
      vector paired with its chunk. */
  function EmbedChunk(svc: IngestServices, c: Chunk): (r: Result<EmbeddingResult>)
    ensures r.Ok? <==> svc.embed(c.content).Ok? && svc.embed(c.content).value != []
    ensures r.Ok? ==> r.value == EmbeddingResult(svc.embed(c.content).value, c)
    ensures svc.embed(c.content).Err? ==> r == Err(svc.embed(c.content).error)
    ensures svc.embed(c.content) == Ok([]) ==> r == Err(Failure(EmptyEmbeddingMessage))
  {
    match svc.embed(c.content)
    case Err(e) => Err(e)
    case Ok(v) => if v == [] then Err(Failure(EmptyEmbeddingMessage)) else Ok(EmbeddingResult(v, c))
  }

  /** The embeddings of a list of chunks: one result per chunk, in order, unless some
      chunk fails, in which case the first failing chunk's error. */
  function EmbedAll(svc: IngestServices, chunks: seq<Chunk>): (r: Result<seq<EmbeddingResult>>)
    ensures r.Ok? <==> forall i :: 0 <= i < |chunks| ==> EmbedChunk(svc, chunks[i]).Ok?
    ensures r.Ok? ==> |r.value| == |chunks|
    ensures r.Ok? ==> forall i :: 0 <= i < |chunks| ==> r.value[i] == EmbedChunk(svc, chunks[i]).value
    ensures r.Err? ==> exists i :: 0 <= i < |chunks| && EmbedChunk(svc, chunks[i]) == Err(r.error)
                                  && forall j :: 0 <= j < i ==> EmbedChunk(svc, chunks[j]).Ok?
    decreases |chunks|
  {
    if chunks == [] then Ok([])
    else
      match EmbedChunk(svc, chunks[0])
      case Err(e) => Err(e)
      case Ok(x) =>
        var tail := chunks[1..];
        assert forall i :: 1 <= i < |chunks| ==> chunks[i] == tail[i - 1];
        var rest := EmbedAll(svc, tail);
        if rest.Err? then
          ghost var k :| 0 <= k < |tail| && EmbedChunk(svc, tail[k]) == Err(rest.error)
                         && forall j :: 0 <= j < k ==> EmbedChunk(svc, tail[j]).Ok?;
          assert EmbedChunk(svc, chunks[k + 1]) == Err(rest.error);
          assert forall j :: 0 <= j < k + 1 ==> EmbedChunk(svc, chunks[j]).Ok? by {
            forall j | 0 <= j < k + 1
              ensures EmbedChunk(svc, chunks[j]).Ok?
            {
              if j > 0 {
                assert chunks[j] == tail[j - 1];
              }
            }
          }
          Err(rest.error)
        else
          var values := [x] + rest.value;
          assert forall i :: 0 <= i < |chunks| ==> values[i] == EmbedChunk(svc, chunks[i]).value by {
            forall i | 0 <= i < |chunks|
              ensures values[i] == EmbedChunk(svc, chunks[i]).value
            {
              if i > 0 {
                assert values[i] == rest.value[i - 1];
              }
            }
          }
          Ok(values)
  }

  /** `generateEmbeddings`: asks the provider chunk by chunk and stops at the first
      failure. */
  method GenerateEmbeddings(svc: IngestServices, chunks: seq<Chunk>)
    returns (r: Result<seq<EmbeddingResult>>)
    ensures r == EmbedAll(svc, chunks)
  {
    var results: seq<EmbeddingResult> := [];
    for i := 0 to |chunks|
      invariant |results| == i
      invariant forall j :: 0 <= j < i ==> EmbedChunk(svc, chunks[j]).Ok?
      invariant forall j :: 0 <= j < i ==> results[j] == EmbedChunk(svc, chunks[j]).value
    {
      var response := svc.embed(chunks[i].content);
      if response.Err? {
        return Err(response.error);
      }
      var embedding := response.value;
      if embedding == [] {
        return Err(Failure(EmptyEmbeddingMessage));
      }
      results := results + [EmbeddingResult(embedding, chunks[i])];
    }
    var all := EmbedAll(svc, chunks);
    assert all.Ok? && |all.value| == |results|;
    assert forall j :: 0 <= j < |results| ==> all.value[j] == results[j];
    assert all.value == results;
    return Ok(results);
  }

  // ---------------------------------------------------------------------------
  // Saving
  // ---------------------------------------------------------------------------

  /** The document key: the hash of the chunk contents joined by blank lines. */
  function ContentHash(hash: string -> string, chunks: seq<Chunk>): string {
    hash(Join(Contents(chunks), "\n\n"))
  }

  /** Document `id` belongs to `userId` and has content hash `h`. */
  predicate HasKey(documents: map<Id, Document>, id: Id, userId: UserId, h: string) {
    id in documents && documents[id].userId == userId && documents[id].contentHash == h
  }

  /** The stored rows of a document, one per chunk in order: the chunk's text, its
      vector fitted to the column, and consecutive fresh ids from `first`. */
  predicate RowsFor(rows: seq<EmbeddingRow>, chunks: seq<Chunk>, embeddings: seq<EmbeddingResult>, first: nat)
    requires |chunks| == |embeddings|
  {
    && |rows| == |chunks|
    && forall i :: 0 <= i < |rows| ==>
         rows[i] == EmbeddingRow(first + i, chunks[i].content, NormalizeDimension(embeddings[i].embedding))
  }

  /** The insert loop: one row per chunk appended to the (emptied) document. */
  method InsertEmbeddings(db: Db, documentId: Id, chunks: seq<Chunk>, embeddings: seq<EmbeddingResult>)
    requires db.Valid() && documentId in db.documents && |chunks| == |embeddings|
    requires documentId in db.embeddings && db.embeddings[documentId] == []
    modifies db`nextId, db`embeddings
    ensures db.Valid()
    ensures db.nextId == old(db.nextId) + |chunks|
    ensures documentId in db.embeddings
    ensures db.embeddings == old(db.embeddings)[documentId := db.embeddings[documentId]]
    ensures RowsFor(db.embeddings[documentId], chunks, embeddings, old(db.nextId))
  {
    ghost var first, start := db.nextId, db.embeddings;
    ghost var rows: seq<EmbeddingRow> := [];
    for i := 0 to |chunks|
      invariant db.Valid()
      invariant db.nextId == first + i
      invariant db.embeddings == start[documentId := rows]
      invariant RowsFor(rows, chunks[..i], embeddings[..i], first)
    {
      var row := EmbeddingRow(first + i, chunks[i].content, NormalizeDimension(embeddings[i].embedding));
      InsertEmbedding(db, documentId, chunks[i], embeddings[i]);
      assert db.nextId == first + i + 1;
      UpdateTwice(start, documentId, rows, rows + [row]);
      RowsAppend(rows, chunks, embeddings, first, i);
      rows := rows + [row];
    }
    assert chunks[..|chunks|] == chunks && embeddings[..|chunks|] == embeddings;
  }

  /** One more row, for the next chunk, keeps the rows in step with the chunks. */
  lemma RowsAppend(rows: seq<EmbeddingRow>, chunks: seq<Chunk>, embeddings: seq<EmbeddingResult>, first: nat, i: nat)
    requires |chunks| == |embeddings| && i < |chunks|
    requires RowsFor(rows, chunks[..i], embeddings[..i], first)
    ensures RowsFor(rows + [EmbeddingRow(first + i, chunks[i].content, NormalizeDimension(embeddings[i].embedding))],
                    chunks[..i + 1], embeddings[..i + 1], first)
  {
  }

  /** One `INSERT INTO embeddings`: a fresh row at the end of the document's rows. */
  method InsertEmbedding(db: Db, documentId: Id, chunk: Chunk, embedding: EmbeddingResult)
    requires db.Valid() && documentId in db.embeddings
    modifies db`nextId, db`embeddings
    ensures db.Valid() && documentId in db.embeddings
    ensures db.nextId == old(db.nextId) + 1
    ensures db.embeddings == old(db.embeddings)[documentId :=
              old(db.embeddings[documentId])
              + [EmbeddingRow(old(db.nextId), chunk.content, NormalizeDimension(embedding.embedding))]]
  {
    var id := db.NewId();
    var row := EmbeddingRow(id, chunk.content, NormalizeDimension(embedding.embedding));
    var before := db.embeddings;
    RowsWellFormedMonotonic(before[documentId], id, db.nextId);
    RowsWellFormedAppend(before[documentId], row, db.nextId);
    db.embeddings := before[documentId := before[documentId] + [row]];
    forall d | d in db.embeddings
      ensures d in db.documents && RowsWellFormed(db.embeddings[d], db.nextId)
    {
      if d != documentId {
        RowsWellFormedMonotonic(before[d], id, db.nextId);
      }
    }
  }

  lemma RowsWellFormedAppend(rows: seq<EmbeddingRow>, row: EmbeddingRow, bound: nat)
    requires RowsWellFormed(rows, bound) && row.id < bound && |row.vector| == Dimension
    ensures RowsWellFormed(rows + [row], bound)
  {
  }

  /** `findFirst` on (userId, contentHash): the user's document with that hash, if any. */
  method FindDocument(documents: map<Id, Document>, userId: UserId, h: string) returns (found: Option<Id>)
    ensures found.Some? ==> HasKey(documents, found.value, userId, h)
    ensures found.None? ==> forall d :: !HasKey(documents, d, userId, h)
  {
    if exists d :: d in documents && documents[d].userId == userId && documents[d].contentHash == h {
      var d :| d in documents && documents[d].userId == userId && documents[d].contentHash == h;
      return Some(d);
    }
    return None;
  }

  /** A new document whose key no stored document has keeps the keys unique. */
  lemma KeysUniqueAfterCreate(documents: map<Id, Document>, id: Id, doc: Document)
    requires DocumentKeysUnique(documents) && id !in documents
    requires forall d :: !HasKey(documents, d, doc.userId, doc.contentHash)
    ensures DocumentKeysUnique(documents[id := doc])
  {
    var m := documents[id := doc];
    forall a, b | a in m && b in m && a != b
      ensures m[a].userId != m[b].userId || m[a].contentHash != m[b].contentHash
    {
      if a == id {
        assert !HasKey(documents, b, doc.userId, doc.contentHash);
      } else if b == id {
        assert !HasKey(documents, a, doc.userId, doc.contentHash);
      }
    }
  }

  /** The upsert of a document under (user, hash): the key is stored afterwards; when the
      user already had a document with that hash it is the one taken and nothing changes,
      otherwise a new document is added under an id the store did not hold. */
  ghost predicate Upserted(before: map<Id, Document>, after: map<Id, Document>, documentId: Id,
                           userId: UserId, filename: string, h: string)
  {
    && HasKey(after, documentId, userId, h)
    && ((exists d :: HasKey(before, d, userId, h)) ==>
          HasKey(before, documentId, userId, h) && after == before)
    && ((forall d :: !HasKey(before, d, userId, h)) ==>
          documentId !in before && after == before[documentId := Document(userId, filename, h)])
  }

  /** The document to save into: the user's document with content hash `h`, its rows
      deleted, or else a new document. */
  method OpenDocument(db: Db, userId: UserId, filename: string, h: string) returns (documentId: Id)
    requires db.Valid()
    modifies db`nextId, db`documents, db`embeddings
    ensures db.Valid()
    ensures Upserted(old(db.documents), db.documents, documentId, userId, filename, h)
    ensures db.embeddings == old(db.embeddings)[documentId := []]
    ensures old(db.nextId) <= db.nextId
  {
    var existing := FindDocument(db.documents, userId, h);
    if existing.Some? {
      documentId := existing.value;
    } else {
      documentId := db.NewId();
      KeysUniqueAfterCreate(db.documents, documentId, Document(userId, filename, h));
      db.documents := db.documents[documentId := Document(userId, filename, h)];
    }
    db.embeddings := db.embeddings[documentId := []];
  }

  /** `saveToDatabase`: refuses lists of different lengths before touching the store;
      otherwise takes the user's document with the same content hash, dropping its rows,
      or creates one, and then stores one row per chunk. */
  method SaveToDatabase(db: Db, hash: string -> string, userId: UserId, filename: string,
                        chunks: seq<Chunk>, embeddings: seq<EmbeddingResult>)
    returns (r: Result<()>, documentId: Id, ghost firstRow: nat)
    requires db.Valid()
    modifies db`nextId, db`documents, db`embeddings
    ensures db.Valid()
    ensures |chunks| != |embeddings| ==> r == Err(Failure(MismatchMessage)) && unchanged(db)
    ensures |chunks| == |embeddings| ==>
              var h := ContentHash(hash, chunks);
              && r == Ok(())
              && Upserted(old(db.documents), db.documents, documentId, userId, filename, h)
              && documentId in db.embeddings
              && db.embeddings == old(db.embeddings)[documentId := db.embeddings[documentId]]
              && old(db.nextId) <= firstRow
              && RowsFor(db.embeddings[documentId], chunks, embeddings, firstRow)
  {
    if |chunks| != |embeddings| {
      return Err(Failure(MismatchMessage)), 0, 0;
    }
    documentId := OpenDocument(db, userId, filename, ContentHash(hash, chunks));
    firstRow := db.nextId;
    ghost var afterOpen := db.embeddings;
    ghost var documents := db.documents;
    InsertEmbeddings(db, documentId, chunks, embeddings);
    assert db.documents == documents;
    UpdateTwice(old(db.embeddings), documentId, [], db.embeddings[documentId]);
    r := Ok(());
  }

  /** Two updates of one key leave the second value. */
  lemma UpdateTwice<K, V>(m: map<K, V>, k: K, a: V, b: V)
    ensures m[k := a][k := b] == m[k := b]
  {
  }

  // ---------------------------------------------------------------------------
  // Feeding a guide
  // ---------------------------------------------------------------------------

  /** The source is text when it has a line break or no path separator at all;
      otherwise it names a file. */
  predicate IsText(source: string) {
    '\n' in source || ('/' !in source && '\\' !in source)
  }

  /** The guide's text: the source itself, or the file it names. */
  function SourceText(svc: IngestServices, source: string): Result<string> {
    if IsText(source) then Ok(source) else svc.readFile(source)
  }

  /** `options.chunkSize || 384`: an absent (or not-a-number) or zero size means the
      default; the size used is never zero. */
  function EffectiveChunkSize(chunkSize: Option<int>): (n: int)
    ensures n != 0
    ensures chunkSize.Some? && chunkSize.value != 0 ==> n == chunkSize.value
    ensures chunkSize.None? || chunkSize.value == 0 ==> n == DefaultChunkSize
  {
    if chunkSize.Some? && chunkSize.value != 0 then chunkSize.value else DefaultChunkSize
  }

  /** The chunks of one concept's document. */
  function ConceptChunks(svc: IngestServices, c: Concept, chunkSize: int): seq<Chunk> {
    SplitIntoChunks(svc, Wrap(c), c.filename, chunkSize)
  }

  /** The number of chunks of all the concepts. */
  function ChunkTotal(svc: IngestServices, cs: seq<Concept>, chunkSize: int): nat {
    if cs == [] then 0
    else ChunkTotal(svc, cs[..|cs| - 1], chunkSize) + |ConceptChunks(svc, cs[|cs| - 1], chunkSize)|
  }

  /** The user has a document with content hash `h`. */
  ghost predicate HasDocument(documents: map<Id, Document>, userId: UserId, h: string) {
    exists d :: HasKey(documents, d, userId, h)
  }

  /** No document is removed or changed. */
  ghost predicate DocumentsKept(before: map<Id, Document>, after: map<Id, Document>) {
    forall d :: d in before ==> d in after && after[d] == before[d]
  }

  lemma HasDocumentKept(before: map<Id, Document>, after: map<Id, Document>, userId: UserId, h: string)
    requires DocumentsKept(before, after) && HasDocument(before, userId, h)
    ensures HasDocument(after, userId, h)
  {
    var d :| HasKey(before, d, userId, h);
    assert HasKey(after, d, userId, h);
  }

  /** The key under which a concept's chunks are stored. */
  function ConceptKey(svc: IngestServices, c: Concept, n: int): string {
    ContentHash(svc.hash, ConceptChunks(svc, c, n))
  }

  /** Every concept's chunks embed. */
  ghost predicate AllEmbed(svc: IngestServices, cs: seq<Concept>, n: int) {
    cs != [] ==> AllEmbed(svc, cs[..|cs| - 1], n) && EmbedAll(svc, ConceptChunks(svc, cs[|cs| - 1], n)).Ok?
  }

  /** Every concept has a document of the user under its key. */
  ghost predicate AllStored(documents: map<Id, Document>, svc: IngestServices, userId: UserId, cs: seq<Concept>, n: int) {
    cs != [] ==> AllStored(documents, svc, userId, cs[..|cs| - 1], n) && HasDocument(documents, userId, ConceptKey(svc, cs[|cs| - 1], n))
  }

  lemma {:induction false} AllEmbedMeans(svc: IngestServices, cs: seq<Concept>, n: int)
    ensures AllEmbed(svc, cs, n) <==> forall j :: 0 <= j < |cs| ==> EmbedAll(svc, ConceptChunks(svc, cs[j], n)).Ok?
  {
    if cs != [] {
      var init := cs[..|cs| - 1];
      AllEmbedMeans(svc, init, n);
      assert forall j :: 0 <= j < |init| ==> init[j] == cs[j];
    }
  }

  lemma {:induction false} AllStoredMeans(documents: map<Id, Document>, svc: IngestServices, userId: UserId, cs: seq<Concept>, n: int)
    requires AllStored(documents, svc, userId, cs, n)
    ensures forall j :: 0 <= j < |cs| ==> HasDocument(documents, userId, ConceptKey(svc, cs[j], n))
  {
    if cs != [] {
      var init := cs[..|cs| - 1];
      AllStoredMeans(documents, svc, userId, init, n);
      assert forall j :: 0 <= j < |init| ==> init[j] == cs[j];
    }
  }

  /** The concepts already stored stay stored while documents are only added. */
  lemma {:induction false} AllStoredKept(before: map<Id, Document>, after: map<Id, Document>,
                                         svc: IngestServices, userId: UserId, cs: seq<Concept>, n: int)
    requires DocumentsKept(before, after) && AllStored(before, svc, userId, cs, n)
    ensures AllStored(after, svc, userId, cs, n)
  {
    if cs != [] {
      AllStoredKept(before, after, svc, userId, cs[..|cs| - 1], n);
      HasDocumentKept(before, after, userId, ConceptKey(svc, cs[|cs| - 1], n));
    }
  }

  /** One iteration of the feed: chunk, embed and save one concept document; the chunk
      and embedding counts it adds. Nothing is written when embedding fails; otherwise
      the document keyed by the chunks' hash (reused or created) holds one row per chunk,
      in order, and no other document's rows change. */
  method FeedDocument(db: Db, svc: IngestServices, userId: UserId, md: ConceptMarkdown, chunkSize: int)
    returns (r: Result<(nat, nat)>, documentId: Id, ghost firstRow: nat)
    requires db.Valid()
    modifies db`nextId, db`documents, db`embeddings
    ensures db.Valid()
    ensures var chunks := SplitIntoChunks(svc, md.markdown, md.filename, chunkSize);
            var e := EmbedAll(svc, chunks);
            && (r.Ok? <==> e.Ok?)
            && (r.Err? ==> r.error == e.error && unchanged(db))
            && (r.Ok? ==> && r.value == (|chunks|, |chunks|)
                          && Upserted(old(db.documents), db.documents, documentId, userId, md.filename,
                                      ContentHash(svc.hash, chunks))
                          && documentId in db.embeddings
                          && db.embeddings == old(db.embeddings)[documentId := db.embeddings[documentId]]
                          && old(db.nextId) <= firstRow
                          && RowsFor(db.embeddings[documentId], chunks, e.value, firstRow))
    ensures DocumentsKept(old(db.documents), db.documents)
  {
    var chunks := SplitIntoChunks(svc, md.markdown, md.filename, chunkSize);
    var embeddings := GenerateEmbeddings(svc, chunks);
    if embeddings.Err? {
      return Err(embeddings.error), 0, 0;
    }
    var saved;
    saved, documentId, firstRow := SaveToDatabase(db, svc.hash, userId, md.filename, chunks, embeddings.value);
    r := Ok((|chunks|, |embeddings.value|));
  }

  /** The rows a concept's document holds once saved: one per chunk, in order, each with
      the chunk's text and the chunk's vector fitted to the column. */
  ghost predicate ConceptRows(rows: seq<EmbeddingRow>, svc: IngestServices, c: Concept, n: int) {
    var chunks := ConceptChunks(svc, c, n);
    var e := EmbedAll(svc, chunks);
    && e.Ok?
    && |rows| == |chunks|
    && forall i :: 0 <= i < |rows| ==>
         rows[i].chunkContent == chunks[i].content && rows[i].vector == NormalizeDimension(e.value[i].embedding)
  }

  /** The user's document under concept `c`'s key holds `c`'s rows. */
  ghost predicate StoredRows(documents: map<Id, Document>, embeddings: map<Id, seq<EmbeddingRow>>,
                             svc: IngestServices, userId: UserId, c: Concept, n: int)
  {
    exists d :: HasKey(documents, d, userId, ConceptKey(svc, c, n)) && d in embeddings
                && ConceptRows(embeddings[d], svc, c, n)
  }

  /** No concept after concept `j` has its key, so `j` is the last one saved under it. */
  ghost predicate LastWithKey(svc: IngestServices, cs: seq<Concept>, j: nat, n: int)
    requires j < |cs|
  {
    forall k :: j < k < |cs| ==> ConceptKey(svc, cs[k], n) != ConceptKey(svc, cs[j], n)
  }

  /** Each key the concepts were saved under holds the rows of the last concept saved
      under it: a later concept with the same key replaces the earlier one's rows. */
  ghost predicate RowsStored(documents: map<Id, Document>, embeddings: map<Id, seq<EmbeddingRow>>,
                             svc: IngestServices, userId: UserId, cs: seq<Concept>, n: int)
  {
    forall j :: 0 <= j < |cs| && LastWithKey(svc, cs, j, n) ==> StoredRows(documents, embeddings, svc, userId, cs[j], n)
  }

  /** Saving concept `i` into the document with its key, changing no other document's
      rows and removing no document, keeps the rows of every earlier key and adds its own. */
  lemma RowsStoredStep(documents: map<Id, Document>, embeddings: map<Id, seq<EmbeddingRow>>,
                       documents': map<Id, Document>, embeddings': map<Id, seq<EmbeddingRow>>,
                       svc: IngestServices, userId: UserId, cs: seq<Concept>, i: nat, n: int, id: Id)
    requires i < |cs| && RowsStored(documents, embeddings, svc, userId, cs[..i], n)
    requires DocumentsKept(documents, documents')
    requires HasKey(documents', id, userId, ConceptKey(svc, cs[i], n)) && id in embeddings'
    requires embeddings' == embeddings[id := embeddings'[id]]
    requires ConceptRows(embeddings'[id], svc, cs[i], n)
    ensures RowsStored(documents', embeddings', svc, userId, cs[..i + 1], n)
  {
    var before, after := cs[..i], cs[..i + 1];
    forall j | 0 <= j < |after| && LastWithKey(svc, after, j, n)
      ensures StoredRows(documents', embeddings', svc, userId, after[j], n)
    {
      if j == i {
        assert HasKey(documents', id, userId, ConceptKey(svc, after[j], n));
      } else {
        assert ConceptKey(svc, after[i], n) != ConceptKey(svc, after[j], n);
        assert LastWithKey(svc, before, j, n) by {
          forall k | j < k < |before|
            ensures ConceptKey(svc, before[k], n) != ConceptKey(svc, before[j], n)
          {
            assert before[k] == after[k];
          }
        }
        assert before[j] == after[j];
        var d :| HasKey(documents, d, userId, ConceptKey(svc, before[j], n)) && d in embeddings
                 && ConceptRows(embeddings[d], svc, before[j], n);
        assert HasKey(documents', d, userId, ConceptKey(svc, after[j], n));
        assert d != id;
      }
    }
  }

  /** A concept at or after `j` with concept `i`'s key is the last one saved under it. */
  lemma {:induction false} LastWithKeyExists(svc: IngestServices, cs: seq<Concept>, i: nat, j: nat, n: int)
    requires i <= j < |cs| && ConceptKey(svc, cs[j], n) == ConceptKey(svc, cs[i], n)
    ensures exists m :: j <= m < |cs| && ConceptKey(svc, cs[m], n) == ConceptKey(svc, cs[i], n)
                        && LastWithKey(svc, cs, m, n)
    decreases |cs| - j
  {
    if !LastWithKey(svc, cs, j, n) {
      var k :| j < k < |cs| && ConceptKey(svc, cs[k], n) == ConceptKey(svc, cs[j], n);
      LastWithKeyExists(svc, cs, i, k, n);
    }
  }

  /** Concept `i`'s document holds the rows of a concept saved at or after it under the
      same key. */
  lemma RowsOfEveryConcept(documents: map<Id, Document>, embeddings: map<Id, seq<EmbeddingRow>>,
                           svc: IngestServices, userId: UserId, cs: seq<Concept>, i: nat, n: int)
    requires i < |cs| && RowsStored(documents, embeddings, svc, userId, cs, n)
    ensures exists j :: i <= j < |cs| && ConceptKey(svc, cs[j], n) == ConceptKey(svc, cs[i], n)
                        && StoredRows(documents, embeddings, svc, userId, cs[j], n)
  {
    LastWithKeyExists(svc, cs, i, i, n);
    var m :| i <= m < |cs| && ConceptKey(svc, cs[m], n) == ConceptKey(svc, cs[i], n) && LastWithKey(svc, cs, m, n);
    assert StoredRows(documents, embeddings, svc, userId, cs[m], n);
  }

  /** The rows depend only on the chunk texts: two concepts whose chunks have the same
      texts have the same rows. So when equal keys mean equal texts, every concept's
      document holds that concept's own rows. */
  lemma ConceptRowsOfTexts(rows: seq<EmbeddingRow>, svc: IngestServices, c: Concept, c': Concept, n: int)
    requires Contents(ConceptChunks(svc, c, n)) == Contents(ConceptChunks(svc, c', n))
    requires ConceptRows(rows, svc, c', n)
    ensures ConceptRows(rows, svc, c, n)
  {

  }

  /** What a feed reports about the concepts of its guide: it succeeds exactly when every
      concept's chunks embed, then counts the concepts and (twice) their chunks, every
      concept is stored under a document of the user, and each such document holds the
      rows of the last concept saved under it; otherwise it fails with the first failing
      concept's error, the concepts before it stored in the same way. */
  ghost predicate Fed(svc: IngestServices, userId: UserId, cs: seq<Concept>, n: int,
                r: Result<FeedResult>, documents: map<Id, Document>, embeddings: map<Id, seq<EmbeddingRow>>)
  {
    && (r.Ok? <==> forall i :: 0 <= i < |cs| ==> EmbedAll(svc, ConceptChunks(svc, cs[i], n)).Ok?)
    && (r.Ok? ==> r.value == FeedResult(|cs|, ChunkTotal(svc, cs, n), ChunkTotal(svc, cs, n)))
    && (r.Ok? ==> forall i :: 0 <= i < |cs| ==> HasDocument(documents, userId, ConceptKey(svc, cs[i], n)))
    && (r.Ok? ==> RowsStored(documents, embeddings, svc, userId, cs, n))
    && (r.Err? ==> exists i :: 0 <= i < |cs| && EmbedAll(svc, ConceptChunks(svc, cs[i], n)) == Err(r.error)
                                && (forall j :: 0 <= j < i ==> EmbedAll(svc, ConceptChunks(svc, cs[j], n)).Ok?)
                                && AllStored(documents, svc, userId, cs[..i], n)
                                && RowsStored(documents, embeddings, svc, userId, cs[..i], n))
  }

  /** The feed fails with the error of concept `i` when every concept before it embeds
      and is stored. */
  lemma FedOnFailure(svc: IngestServices, userId: UserId, cs: seq<Concept>, i: nat, n: int, e: Error,
                     documents: map<Id, Document>, embeddings: map<Id, seq<EmbeddingRow>>)
    requires i < |cs| && AllEmbed(svc, cs[..i], n)
    requires AllStored(documents, svc, userId, cs[..i], n) && RowsStored(documents, embeddings, svc, userId, cs[..i], n)
    requires EmbedAll(svc, ConceptChunks(svc, cs[i], n)) == Err(e)
    ensures Fed(svc, userId, cs, n, Err(e), documents, embeddings)
  {
    AllEmbedMeans(svc, cs[..i], n);
    forall j | 0 <= j < i
      ensures EmbedAll(svc, ConceptChunks(svc, cs[j], n)).Ok?
    {
      assert cs[..i][j] == cs[j];
    }
    assert !EmbedAll(svc, ConceptChunks(svc, cs[i], n)).Ok?;
  }

  /** The loop body of the feed for concept `i`, whose document is `md`: on success the
      concepts up to `i` all embed and are all stored, with their rows; on failure
      nothing is written. */
  method FeedStep(db: Db, svc: IngestServices, userId: UserId, concepts: seq<Concept>, i: nat,
                  md: ConceptMarkdown, n: int)
    returns (r: Result<(nat, nat)>)
    requires db.Valid() && i < |concepts|
    requires md == ConceptMarkdown(concepts[i].filename, Wrap(concepts[i]))
    requires AllEmbed(svc, concepts[..i], n) && AllStored(db.documents, svc, userId, concepts[..i], n)
    requires RowsStored(db.documents, db.embeddings, svc, userId, concepts[..i], n)
    modifies db`nextId, db`documents, db`embeddings
    ensures db.Valid()
    ensures r.Err? ==> EmbedAll(svc, ConceptChunks(svc, concepts[i], n)) == Err(r.error) && unchanged(db)
    ensures r.Ok? ==> && r.value == (|ConceptChunks(svc, concepts[i], n)|, |ConceptChunks(svc, concepts[i], n)|)
                      && AllEmbed(svc, concepts[..i + 1], n)
                      && AllStored(db.documents, svc, userId, concepts[..i + 1], n)
                      && RowsStored(db.documents, db.embeddings, svc, userId, concepts[..i + 1], n)
                      && ChunkTotal(svc, concepts[..i + 1], n) == ChunkTotal(svc, concepts[..i], n) + r.value.0
    ensures DocumentsKept(old(db.documents), db.documents)
  {
    ghost var before, rowsBefore := db.documents, db.embeddings;
    var documentId;
    ghost var firstRow;
    r, documentId, firstRow := FeedDocument(db, svc, userId, md, n);
    if r.Ok? {
      PrefixStep(svc, concepts, i, n);
      StoredAfterSave(before, rowsBefore, db.documents, db.embeddings, svc, userId, concepts, i, n,
                      documentId, firstRow);
    }
  }

  /** Extending the prefix by concept `i`, whose chunks embed, keeps every concept
      embedding and adds its chunks to the total. */
  lemma PrefixStep(svc: IngestServices, cs: seq<Concept>, i: nat, n: int)
    requires i < |cs| && AllEmbed(svc, cs[..i], n) && EmbedAll(svc, ConceptChunks(svc, cs[i], n)).Ok?
    ensures AllEmbed(svc, cs[..i + 1], n)
    ensures ChunkTotal(svc, cs[..i + 1], n) == ChunkTotal(svc, cs[..i], n) + |ConceptChunks(svc, cs[i], n)|
  {
    assert cs[..i + 1][..i] == cs[..i];
  }

  /** Once concept `i` is saved into the document with its key, the concepts up to `i`
      are all stored, with their rows. */
  lemma StoredAfterSave(documents: map<Id, Document>, embeddings: map<Id, seq<EmbeddingRow>>,
                        documents': map<Id, Document>, embeddings': map<Id, seq<EmbeddingRow>>,
                        svc: IngestServices, userId: UserId, cs: seq<Concept>, i: nat, n: int,
                        id: Id, first: nat)
    requires i < |cs| && AllStored(documents, svc, userId, cs[..i], n)
    requires RowsStored(documents, embeddings, svc, userId, cs[..i], n)
    requires DocumentsKept(documents, documents')
    requires EmbedAll(svc, ConceptChunks(svc, cs[i], n)).Ok?
    requires HasKey(documents', id, userId, ConceptKey(svc, cs[i], n)) && id in embeddings'
    requires embeddings' == embeddings[id := embeddings'[id]]
    requires RowsFor(embeddings'[id], ConceptChunks(svc, cs[i], n), EmbedAll(svc, ConceptChunks(svc, cs[i], n)).value, first)
    ensures AllStored(documents', svc, userId, cs[..i + 1], n)
    ensures RowsStored(documents', embeddings', svc, userId, cs[..i + 1], n)
  {
    AllStoredKept(documents, documents', svc, userId, cs[..i], n);
    assert cs[..i + 1][..i] == cs[..i];
    assert ConceptRows(embeddings'[id], svc, cs[i], n);
    RowsStoredStep(documents, embeddings, documents', embeddings', svc, userId, cs, i, n, id);
  }

  /** Steps 2 to 5 of the feed: wrap every concept as its own document, then chunk,
      embed and save the documents one after another, adding up the counts. */
  method FeedConcepts(db: Db, svc: IngestServices, userId: UserId, concepts: seq<Concept>, n: int)
    returns (r: Result<FeedResult>)
    requires db.Valid()
    modifies db`nextId, db`documents, db`embeddings
    ensures db.Valid()
    ensures Fed(svc, userId, concepts, n, r, db.documents, db.embeddings)
    ensures DocumentsKept(old(db.documents), db.documents)
  {
    var markdowns := CreateConceptMarkdowns(concepts);
    var totalChunks, totalEmbeddings := 0, 0;
    for i := 0 to |markdowns|
      invariant db.Valid()
      invariant totalChunks == totalEmbeddings == ChunkTotal(svc, concepts[..i], n)
      invariant AllEmbed(svc, concepts[..i], n)
      invariant AllStored(db.documents, svc, userId, concepts[..i], n)
      invariant RowsStored(db.documents, db.embeddings, svc, userId, concepts[..i], n)
      invariant DocumentsKept(old(db.documents), db.documents)
    {
      var counts := FeedStep(db, svc, userId, concepts, i, markdowns[i], n);
      if counts.Err? {
        FedOnFailure(svc, userId, concepts, i, n, counts.error, db.documents, db.embeddings);
        return Err(counts.error);
      }
      totalChunks := totalChunks + counts.value.0;
      totalEmbeddings := totalEmbeddings + counts.value.1;
    }
    assert concepts[..|concepts|] == concepts;
    AllEmbedMeans(svc, concepts, n);
    AllStoredMeans(db.documents, svc, userId, concepts, n);
    r := Ok(FeedResult(|markdowns|, totalChunks, totalEmbeddings));
  }

  /** `feedKnowledgeBase`: parse the guide (text, or a file read first), wrap every
      concept as its own document, then chunk, embed and save them one after another. */
  method FeedKnowledgeBase(db: Db, svc: IngestServices, userId: UserId, source: string, chunkSize: Option<int>)
    returns (r: Result<FeedResult>)
    requires db.Valid()
    modifies db`nextId, db`documents, db`embeddings
    ensures db.Valid()
    ensures SourceText(svc, source).Err? ==> r == Err(SourceText(svc, source).error) && unchanged(db)
    ensures SourceText(svc, source).Ok? ==>
              Fed(svc, userId, ConceptsOf(Sections(SourceText(svc, source).value)),
                  EffectiveChunkSize(chunkSize), r, db.documents, db.embeddings)
    ensures DocumentsKept(old(db.documents), db.documents)
  {
    var n := EffectiveChunkSize(chunkSize);
    var text;
    if IsText(source) {
      text := source;
    } else {
      var file := svc.readFile(source);
      if file.Err? {
        return Err(file.error);
      }
      text := file.value;
    }
    var concepts := ParseMarkdownText(text);
    r := FeedConcepts(db, svc, userId, concepts, n);
  }
}
