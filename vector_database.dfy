/** The `VectorDatabase` class: ingestion into the index and the two query paths. */
module VectorEmbed {
  import opened Values
  import opened Chunking
  import opened Records
  import opened Retrieval

  class VectorDatabase {
    /** The embedding provider's `embed` call, one vector per text; uninterpreted. */
    const embed: seq<string> -> seq<Embedding>
    /** The index's similarity query over its current contents, given a vector and a
        limit; ranking and scores are uninterpreted. */
    const search: (map<string, Record>, Embedding, int) -> seq<Match>
    /** The contents of the external index, keyed by record id. */
    var index: map<string, Record>

    /** Binds the two services and the index as it already exists. */
    constructor (embed: seq<string> -> seq<Embedding>,
                 search: (map<string, Record>, Embedding, int) -> seq<Match>,
                 existing: map<string, Record>)
      ensures this.embed == embed && this.search == search && index == existing
    {
      this.embed := embed;
      this.search := search;
      index := existing;
    }

    /** `get_embedding`: a single string is sent as a one-element list, a list as it is. */
    function GetEmbedding(text: TextInput): (embeddings: seq<Embedding>)
      ensures text.Single? ==> embeddings == embed([text.text])
      ensures text.Many? ==> embeddings == embed(text.texts)
    {
      var texts := if text.Single? then [text.text] else text.texts;
      embed(texts)
    }

    /** `add_content_to_database`: chunk, embed, validate, then upsert one record per chunk.
        Every failure leaves the index untouched. */
    method AddContentToDatabase(content: string, sourceId: string, chunkSize: int)
      returns (outcome: Outcome)
      modifies this
      ensures chunkSize == 0 ==> outcome == Fail(RangeStepZero) && index == old(index)
      ensures chunkSize != 0 ==>
        var chunks := ChunkContent(content, chunkSize).value;
        var embeddings := GetEmbedding(Many(chunks));
        if !ValidEmbeddings(embeddings) then
          outcome == Fail(InvalidEmbeddingFormat) && index == old(index)
        else
          outcome == Pass && index == Upsert(old(index), BuildRecords(sourceId, chunks, embeddings))
    {
      var chunked := ChunkContent(content, chunkSize);
      if chunked.Failure? {
        return Fail(chunked.error);
      }
      var chunks := chunked.value;
      var embeddings := GetEmbedding(Many(chunks));
      if !ValidEmbeddings(embeddings) {
        return Fail(InvalidEmbeddingFormat);
      }
      var vectors := BuildRecords(sourceId, chunks, embeddings);
      index := Upsert(index, vectors);
      return Pass;
    }

    /** `query_database`: embed the query, ask the index for `fetch_limit` matches and map
        each one to `{text, source, score}`. */
    function QueryDatabase(query: string, topK: Option<int>): (r: Result<seq<QueryResult>>)
      reads this
      ensures GetEmbedding(Single(query)) == [] ==> r == Failure(IndexOutOfRange)
      ensures GetEmbedding(Single(query)) != [] ==>
        var matches := search(index, GetEmbedding(Single(query))[0], FetchLimit(topK));
        && (r.Success? <==> forall i :: 0 <= i < |matches| ==> "text" in matches[i].metadata)
        && (r.Failure? ==> r.error == MissingKey("text"))
        && (r.Success? ==> |r.value| == |matches| && forall i :: 0 <= i < |matches| ==>
              && r.value[i].text == matches[i].metadata["text"]
              && r.value[i].source == SourceOf(matches[i].metadata)
              && r.value[i].score == matches[i].score)
    {
      var embeddings := GetEmbedding(Single(query));
      if embeddings == [] then Failure(IndexOutOfRange)
      else ToQueryResults(search(index, embeddings[0], FetchLimit(topK)))
    }

    /** `index.list(prefix=...)`: the ids that start with `prefix`. */
    function ListIds(prefix: string): (ids: set<string>)
      reads this
      ensures forall id :: id in ids <==> id in index && prefix <= id
    {
      set id | id in index.Keys && prefix <= id
    }

    /** `index.fetch(ids=...)`: the stored records with those ids. */
    function Fetch(ids: set<string>): (fetched: map<string, Record>)
      reads this
      ensures fetched.Keys == ids * index.Keys
      ensures forall id :: id in fetched ==> fetched[id] == index[id]
    {
      map id | id in ids && id in index :: index[id]
    }

    /** `query_database_by_prefix`: no matching id gives `[]`; otherwise the fetched records
        are visited in the order the response yields them (`visited`), each becomes
        `{text, source, id}`, and the list is cut to `top_k`. A record without `'text'`
        raises KeyError, which is caught and gives `[]`. */
    method QueryDatabaseByPrefix(prefix: string, topK: Option<int>)
      returns (results: seq<PrefixResult>, ghost visited: seq<string>)
      ensures ListIds(prefix) == {} ==> results == []
      ensures !AllHaveText(Fetch(ListIds(prefix))) ==> results == []
      ensures ListIds(prefix) != {} && AllHaveText(Fetch(ListIds(prefix))) ==>
        && Enumerates(visited, ListIds(prefix))
        && results == TakeOpt(PrefixResults(Fetch(ListIds(prefix)), visited), topK)
    {
      visited := [];
      var matchingIds := ListIds(prefix);
      if matchingIds == {} {
        return [], visited;
      }
      var fetched := Fetch(matchingIds);
      results := [];
      var remaining := fetched.Keys;
      while remaining != {}
        invariant remaining <= fetched.Keys
        invariant forall i :: 0 <= i < |visited| ==> visited[i] in fetched && visited[i] !in remaining
        invariant forall id | id in fetched && id !in remaining :: id in visited
        invariant forall i, j :: 0 <= i < j < |visited| ==> visited[i] != visited[j]
        invariant forall i :: 0 <= i < |visited| ==> "text" in fetched[visited[i]].metadata
        invariant |results| == |visited|
        invariant forall i :: 0 <= i < |visited| ==>
          results[i] == ToPrefixResult(visited[i], fetched[visited[i]])
        decreases remaining
      {
        var id :| id in remaining;
        var vector := fetched[id];
        if "text" !in vector.metadata {
          assert !AllHaveText(fetched);
          return [], visited;
        }
        results := results + [ToPrefixResult(id, vector)];
        visited := visited + [id];
        remaining := remaining - {id};
      }
      assert AllHaveText(fetched) by {
        forall id | id in fetched
          ensures "text" in fetched[id].metadata
        {
          assert id in visited;
        }
      }
      assert fetched.Keys == matchingIds;
      assert Enumerates(visited, matchingIds);
      assert results == PrefixResults(fetched, visited);
      results := TakeOpt(results, topK);
    }
  }

  /** The texts stored under `source_id#0` .. `source_id#(n-1)`, in chunk order. */
  function StoredTexts(index: map<string, Record>, sourceId: string, n: nat): seq<string>
  {
    seq(n, i requires 0 <= i < n =>
      var id := VectorId(sourceId, i);
      if id in index && "text" in index[id].metadata then index[id].metadata["text"] else "")
  }

  /** After a successful ingest with a positive chunk size, chunk `i` is stored under
      `source_id#i` (an id that starts with `source_id#`) for every `i` below
      min(#chunks, #embeddings). */
  lemma IngestStoresEveryChunk(before: map<string, Record>, content: string, sourceId: string,
                               size: nat, embeddings: seq<Embedding>)
    requires size > 0
    ensures var chunks := Chunks(content, size);
      var after := Upsert(before, BuildRecords(sourceId, chunks, embeddings));
      forall i :: 0 <= i < Min(|chunks|, |embeddings|) ==>
        && VectorId(sourceId, i) in after
        && sourceId + "#" <= VectorId(sourceId, i)
        && after[VectorId(sourceId, i)] == MakeRecord(sourceId, i, chunks[i], embeddings[i])
  {
    var chunks := Chunks(content, size);
    var records := BuildRecords(sourceId, chunks, embeddings);
    RecordIdsDistinct(sourceId, chunks, embeddings);
    UpsertStores(before, records);
    var after := Upsert(before, records);
    forall i | 0 <= i < |records|
      ensures VectorId(sourceId, i) in after
      ensures after[VectorId(sourceId, i)] == MakeRecord(sourceId, i, chunks[i], embeddings[i])
    {
      assert records[i].id in Ids(records);
    }
  }

  /** An ingest leaves every id it does not write as it was: every id other than
      `source_id#i` for a new chunk `i`. */
  lemma IngestKeepsOtherIds(before: map<string, Record>, content: string, sourceId: string,
                            size: nat, embeddings: seq<Embedding>)
    requires size > 0
    ensures var chunks := Chunks(content, size);
      var after := Upsert(before, BuildRecords(sourceId, chunks, embeddings));
      forall id :: id in before &&
        (forall i :: 0 <= i < Min(|chunks|, |embeddings|) ==> id != VectorId(sourceId, i))
        ==> id in after && after[id] == before[id]
  {
    var chunks := Chunks(content, size);
    var records := BuildRecords(sourceId, chunks, embeddings);
    var after := Upsert(before, records);
    forall id | id in before && (forall i :: 0 <= i < |records| ==> id != VectorId(sourceId, i))
      ensures id in after && after[id] == before[id]
    {
      assert id !in Ids(records);
    }
  }

  /** Ingesting with enough embeddings makes the index hold the whole content: the texts
      stored under `source_id#0`, `source_id#1`, ... joined in order give the content back. */
  lemma IngestRoundTrip(before: map<string, Record>, content: string, sourceId: string,
                        size: nat, embeddings: seq<Embedding>)
    requires size > 0 && |embeddings| >= |Chunks(content, size)|
    ensures var after := Upsert(before, BuildRecords(sourceId, Chunks(content, size), embeddings));
      Concat(StoredTexts(after, sourceId, |Chunks(content, size)|)) == content
  {
    var chunks := Chunks(content, size);
    var after := Upsert(before, BuildRecords(sourceId, chunks, embeddings));
    IngestStoresEveryChunk(before, content, sourceId, size, embeddings);
    assert StoredTexts(after, sourceId, |chunks|) == chunks;
    ChunksRoundTrip(content, size);
  }

  /** Re-ingesting a source only overwrites ids it produces again: a chunk stored under
      `source_id#j` by an earlier, longer ingest survives when the new content has at
      most `j` chunks. */
  lemma StaleChunkSurvives(before: map<string, Record>, content: string, sourceId: string,
                           size: nat, embeddings: seq<Embedding>, j: nat)
    requires size > 0 && VectorId(sourceId, j) in before && j >= |Chunks(content, size)|
    ensures var after := Upsert(before, BuildRecords(sourceId, Chunks(content, size), embeddings));
      VectorId(sourceId, j) in after && after[VectorId(sourceId, j)] == before[VectorId(sourceId, j)]
  {
    IngestKeepsOtherIds(before, content, sourceId, size, embeddings);
    forall i | 0 <= i < |Chunks(content, size)|
      ensures VectorId(sourceId, j) != VectorId(sourceId, i)
    {
      VectorIdInjective(sourceId, i, j);
    }
  }
}
