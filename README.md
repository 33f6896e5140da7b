# VectorDatabase core, modelled in Dafny

This project models the bookkeeping of the `VectorDatabase` class in `vectorEmbed.py`.
That class ingests text into an external vector index and answers two kinds of query.
The model covers:

- **Ingestion** (`add_content_to_database`). The content is cut into fixed-size windows.
  The windows are sent to the embedding provider in one batch. The result is validated.
  One record per window that has an embedding is then upserted (`zip` stops at the
  shorter list, so there are min(#windows, #embeddings) records). Record `i` has the id
  `"{source_id}#{i}"` and the metadata `{text, source}`.
- **Similarity query** (`query_database`). The query is embedded and a fetch limit is
  chosen: 10000 when `top_k` is None. Each match becomes `{text, source, score}`.
- **Prefix query** (`query_database_by_prefix`). It lists the ids that start with a
  prefix and fetches those records. Each record becomes `{text, source, id}`, and the list
  is cut to `top_k`. Any failure gives an empty list.

The external services are parameters of the class:

- The embedding provider is the constant function `embed` (texts to vectors). Nothing is
  assumed about it.
- The index's similarity ranking is the constant function `search`. It takes the index
  contents, a vector and a limit, and returns matches. Scores are 64-bit float bit patterns
  that are only passed through.
- The index itself is the field `index: map<string, Record>`. Upsert overwrites by id,
  `list(prefix)` is the set of keys with that prefix, and `fetch` is a map restriction.
  The order in which the fetch response yields its records is a nondeterministic choice.

Embedding elements are `Elem = Float(bits) | NotFloat(kind)`, so the check
`isinstance(v, float)` is the predicate `IsFloat`. No floating-point arithmetic is modelled.

`Chunks` takes the windows one after the other from the front; `ChunkAt` proves that
window `k` is the comprehension's slice `content[k*size : k*size+size]`.

Modules: `Values` (data), `Decimal` (`str(i)` and its inverse), `Chunking`, `Records`
(validation, ids, records, upsert), `Retrieval` (result shaping) and `VectorEmbed`
(the class and the lemmas that connect ingestion to the stored index).

Behaviour of the code that the model keeps as written:

- The embedding check looks only at non-emptiness and float elements. There is no check
  of dimension, of length against the number of windows, or of finiteness.
- Re-ingesting a source only upserts. Older chunks of that source with higher indexes
  survive (`StaleChunkSurvives`).
- `chunk_size` goes straight to `range`. So 0 raises ValueError and a negative size yields
  no chunks (`ChunkContent`).
- Prefix results come in the order of the fetch response.
- The defaults `chunk_size=1000` and `top_k=100` are not modelled; callers pass both.

## Model

| member | source | states |
|---|---|---|
| `Chunking.Chunks` | vectorEmbed.py:42 | the windows for a positive size: none exactly when the content is empty, each between 1 and `chunk_size` characters long |
| `Chunking.ChunkContent` | vectorEmbed.py:42 | a zero chunk size raises ValueError (from `range`), a negative one gives no chunks, a positive one gives the windows |
| `Chunking.ChunkAt` | vectorEmbed.py:42 | chunk `k` starts inside the content and is exactly the slice `content[k*chunk_size : k*chunk_size+chunk_size]`, clipped at the end |
| `Chunking.ChunksRoundTrip` | vectorEmbed.py:42 | joining the chunks in order reproduces the content exactly |
| `Chunking.ChunkCountIsCeiling` | vectorEmbed.py:42 | the chunk count is ceil(len/chunk_size): it covers the content, one fewer would not, and empty content gives zero chunks |
| `Chunking.ChunkLengths` | vectorEmbed.py:42 | every chunk but the last has length `chunk_size`; the last has length in [1, chunk_size] |
| `Decimal.ToDecimal` | vectorEmbed.py:50 | `str(i)` is a non-empty string of decimal digits, one digit exactly when `i < 10` |
| `Decimal.ParseToDecimal` | vectorEmbed.py:50 | parsing `str(i)` back gives `i` |
| `Decimal.ToDecimalInjective` | vectorEmbed.py:50 | different indexes render to different strings |
| `Records.ValidEmbeddings` | vectorEmbed.py:45 | definition of the guard: the list is non-empty and every element of every embedding is a float |
| `Records.VectorId` | vectorEmbed.py:50 | `f"{source_id}#{i}"`: starts with `source_id#` and ends in at least one decimal digit |
| `Records.MakeRecord` | vectorEmbed.py:49-52 | one record: id `source_id#i`, values = the embedding, metadata with exactly the keys `text` (the chunk) and `source` (`source_id`) |
| `Records.ChunkIndexOfVectorId` | vectorEmbed.py:50 | the id of chunk `i` starts with `source_id#` and its tail reads back as `i` |
| `Records.VectorIdInjective` | vectorEmbed.py:50 | two chunks of one source get the same id only when they are the same chunk |
| `Records.BuildFrom` | vectorEmbed.py:49-53 | `enumerate(zip(...))` yields min(#chunks, #embeddings) records; record `i` pairs chunk `i` and embedding `i` under index `start + i` |
| `Records.BuildRecords` | vectorEmbed.py:49-53 | the `vectors` list: min(#chunks, #embeddings) records; record `i` has id `source_id#i`, values = embedding `i`, metadata `{text: chunk i, source: source_id}` |
| `Records.RecordIdsDistinct` | vectorEmbed.py:49-53 | the ids of the records built in one call are pairwise distinct |
| `Records.Upsert` | vectorEmbed.py:55 | `index.upsert`: the keys become the old keys plus the new ids, and the entry of every id not among the records is unchanged |
| `Records.UpsertStores` | vectorEmbed.py:55 | after upsert of records with distinct ids, each record is stored under its id |
| `Retrieval.SourceOf` | vectorEmbed.py:70 | `metadata.get('source', 'Unknown')`: the stored source, or 'Unknown' when there is none |
| `Retrieval.FetchLimit` | vectorEmbed.py:60 | the fetch limit is 10000 when `top_k` is None and `top_k` otherwise |
| `Retrieval.ToQueryResults` | vectorEmbed.py:68-72 | it succeeds exactly when every match has a `text` key, otherwise it raises KeyError('text'); one result per match in match order, with text and score passed through and source falling back to 'Unknown' |
| `Retrieval.Take` | vectorEmbed.py:97 | `results[:k]` is a prefix of `results` with min(k, n) elements, or max(0, n + k) elements for a negative `k` |
| `Retrieval.TakeOpt` | vectorEmbed.py:96-97 | no truncation when `top_k` is None; otherwise the `[:top_k]` prefix |
| `Retrieval.ToPrefixResult` | vectorEmbed.py:88-92 | one fetched record becomes `{text, source, id}`: its text, its source with the 'Unknown' fallback, and its id |
| `Retrieval.PrefixResults` | vectorEmbed.py:86-92 | the results built by visiting the fetched records in a given order: one per visited id, in that order |
| `Retrieval.EnumerationSize` | vectorEmbed.py:87 | a visit order that lists each fetched id once has one entry per fetched record |
| `VectorEmbed.VectorDatabase.GetEmbedding` | vectorEmbed.py:31-39 | a single string is sent to the provider as a one-element list, a list is sent unchanged |
| `VectorEmbed.VectorDatabase.AddContentToDatabase` | vectorEmbed.py:41-55 | a zero chunk size raises ValueError; invalid embeddings raise ValueError("Invalid embedding format"); in both cases the index is not touched; otherwise the index becomes the old index upserted with the built records |
| `VectorEmbed.VectorDatabase.QueryDatabase` | vectorEmbed.py:57-72 | an empty embedding result raises IndexError; otherwise the index is searched with the first embedding at the fetch limit, the call fails with KeyError('text') exactly when some match has no text, and otherwise returns one result per match in match order with text and score passed through and source falling back to 'Unknown' |
| `VectorEmbed.VectorDatabase.ListIds` | vectorEmbed.py:77 | the listed ids are exactly the stored ids that start with the prefix |
| `VectorEmbed.VectorDatabase.Fetch` | vectorEmbed.py:83 | the fetched records are exactly the stored records whose ids were asked for |
| `VectorEmbed.VectorDatabase.QueryDatabaseByPrefix` | vectorEmbed.py:74-103 | `[]` when no id matches or when some fetched record lacks `text` (the KeyError is caught); otherwise each matching record once, in the visit order, as `{text, source, id}`, cut to `top_k` |
| `VectorEmbed.IngestStoresEveryChunk` | vectorEmbed.py:41-55 | after ingest, chunk `i` is stored under `source_id#i` for every `i` below min(#chunks, #embeddings), and that id starts with `source_id#` |
| `VectorEmbed.IngestKeepsOtherIds` | vectorEmbed.py:49-55 | ingest leaves unchanged every stored id that differs from `source_id#i` for every new chunk `i` |
| `VectorEmbed.IngestRoundTrip` | vectorEmbed.py:42-55 | with one embedding per chunk, the texts stored under `source_id#0`, `source_id#1`, ... joined in order give the content back |
| `VectorEmbed.StaleChunkSurvives` | vectorEmbed.py:49-55 | re-ingesting a source with fewer chunks leaves its older chunks with higher indexes in the index |

## Left out

- Index provisioning in `__init__` (vectorEmbed.py:14-29): describe/delete/create calls on the index service. The constructor only binds the services and the existing index contents.
- The embedding provider call (vectorEmbed.py:33-39), the similarity ranking and the score values of the index service. They are the uninterpreted functions `embed` and `search`.
- `isinstance(e, list)` at vectorEmbed.py:45: `get_embedding` builds each embedding with `list(e)`, so it always holds and the model's embeddings are sequences by type.
- The Pinecone client's `list(prefix=...)` yields pages of ids rather than ids. The model reads line 77 as producing the matching ids themselves, so the effect of passing pages to `fetch` is not captured.
- Failures of the index service itself (transport errors in `list`, `fetch`, `upsert`, `query`). The only failure modelled inside the prefix query is the KeyError for a record without `text`. The catch at vectorEmbed.py:101-103 maps any failure to `[]` the same way.
- The `print` at vectorEmbed.py:102: logging only.
- Metadata values are modelled as strings. Pinecone also allows numbers, booleans and lists of strings.
- `api.py` (HTTP routes, CORS, error-to-500 mapping) and `streamlit/streamlit_app.py` (UI): thin callers of the class.
- Text extraction from PDF/DOCX/CSV, namespaces and delete-before-reingest, dimension checks, and per-source serialisation: none of them appears in vectorEmbed.py.
