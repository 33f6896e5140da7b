/** Embedding validation, record construction and the index's upsert. */
module Records {
  import opened Values
  import Decimal

  /** `isinstance(v, float)`. */
  predicate IsFloat(v: Elem) { v.Float? }

  /** The guard before upsert: the list is non-empty and every embedding holds only floats.
      (`isinstance(e, list)` always holds: each embedding is built by `list(e)`.) */
  predicate ValidEmbeddings(embeddings: seq<Embedding>)
  {
    |embeddings| > 0 && forall e | e in embeddings :: forall v | v in e :: IsFloat(v)
  }

  /** `f"{source_id}#{i}"`. */
  function VectorId(sourceId: string, i: nat): (id: string)
    ensures sourceId + "#" <= id && |sourceId| + 1 < |id|
    ensures forall k :: |sourceId| + 1 <= k < |id| ==> Decimal.IsDigit(id[k])
  {
    sourceId + "#" + Decimal.ToDecimal(i)
  }

  /** Reads the chunk index back out of an id made for `sourceId`. */
  function ChunkIndexOf(sourceId: string, id: string): Option<nat>
  {
    var p := sourceId + "#";
    if |p| < |id| && id[..|p|] == p && forall k | |p| <= k < |id| :: Decimal.IsDigit(id[k])
    then Some(Decimal.ParseDecimal(id[|p|..]))
    else None
  }

  /** The id of chunk `i` is well-formed: it starts with `source_id#` and its tail reads
      back as `i`. */
  lemma {:induction false} ChunkIndexOfVectorId(sourceId: string, i: nat)
    ensures ChunkIndexOf(sourceId, VectorId(sourceId, i)) == Some(i)
  {
    var p := sourceId + "#";
    var id := VectorId(sourceId, i);
    assert id[..|p|] == p;
    assert id[|p|..] == Decimal.ToDecimal(i);
    Decimal.ParseToDecimal(i);
  }

  /** Ids of different chunks of the same source differ. */
  lemma VectorIdInjective(sourceId: string, i: nat, j: nat)
    ensures VectorId(sourceId, i) == VectorId(sourceId, j) ==> i == j
  {
    ChunkIndexOfVectorId(sourceId, i);
    ChunkIndexOfVectorId(sourceId, j);
  }

  /** One record of the comprehension. */
  function MakeRecord(sourceId: string, i: nat, chunk: string, embedding: Embedding): (r: Record)
    ensures r.id == VectorId(sourceId, i) && r.values == embedding
    ensures r.metadata.Keys == {"text", "source"}
    ensures r.metadata["text"] == chunk && r.metadata["source"] == sourceId
  {
    Record(VectorId(sourceId, i), embedding, map["text" := chunk, "source" := sourceId])
  }

  /** `enumerate(zip(chunks, embeddings), start)` turned into records: zip stops at the
      shorter list. */
  function BuildFrom(sourceId: string, chunks: seq<string>, embeddings: seq<Embedding>, start: nat)
    : (records: seq<Record>)
    ensures |records| == Min(|chunks|, |embeddings|)
    ensures forall i :: 0 <= i < |records| ==>
      records[i] == MakeRecord(sourceId, start + i, chunks[i], embeddings[i])
  {
    if chunks == [] || embeddings == [] then []
    else [MakeRecord(sourceId, start, chunks[0], embeddings[0])]
         + BuildFrom(sourceId, chunks[1..], embeddings[1..], start + 1)
  }

  /** The `vectors` list of `add_content_to_database`: record `i` pairs chunk `i` with
      embedding `i` under id `source_id#i`, and there are min(#chunks, #embeddings) of them. */
  function BuildRecords(sourceId: string, chunks: seq<string>, embeddings: seq<Embedding>)
    : (records: seq<Record>)
    ensures |records| == Min(|chunks|, |embeddings|)
    ensures forall i :: 0 <= i < |records| ==>
      && records[i].id == VectorId(sourceId, i)
      && records[i].values == embeddings[i]
      && records[i].metadata == map["text" := chunks[i], "source" := sourceId]
  {
    BuildFrom(sourceId, chunks, embeddings, 0)
  }

  /** The records built in one call have pairwise distinct ids. */
  lemma RecordIdsDistinct(sourceId: string, chunks: seq<string>, embeddings: seq<Embedding>)
    ensures DistinctIds(BuildRecords(sourceId, chunks, embeddings))
  {
    var records := BuildRecords(sourceId, chunks, embeddings);
    forall i, j | 0 <= i < j < |records|
      ensures records[i].id != records[j].id
    {
      VectorIdInjective(sourceId, i, j);
    }
  }

  predicate DistinctIds(records: seq<Record>)
  {
    forall i, j :: 0 <= i < j < |records| ==> records[i].id != records[j].id
  }

  function Ids(records: seq<Record>): set<string>
  {
    set r | r in records :: r.id
  }

  /** `index.upsert(vectors)`: each record is inserted or overwrites the one with its id;
      the keys grow by the new ids and entries under other ids are untouched. */
  function Upsert(index: map<string, Record>, records: seq<Record>): (after: map<string, Record>)
    ensures after.Keys == index.Keys + Ids(records)
    ensures forall id :: id in index && id !in Ids(records) ==> after[id] == index[id]
    decreases |records|
  {
    if records == [] then index
    else
      assert Ids(records) == {records[0].id} + Ids(records[1..]) by {
        assert records == [records[0]] + records[1..];
      }
      Upsert(index[records[0].id := records[0]], records[1..])
  }

  /** With distinct ids, after upsert every record is stored under its id. */
  lemma {:induction false} UpsertStores(index: map<string, Record>, records: seq<Record>)
    requires DistinctIds(records)
    ensures forall i :: 0 <= i < |records| ==> Upsert(index, records)[records[i].id] == records[i]
    decreases |records|
  {
    if records != [] {
      var rest := records[1..];
      var next := index[records[0].id := records[0]];
      UpsertStores(next, rest);
      assert Ids(records) == {records[0].id} + Ids(rest) by {
        assert records == [records[0]] + rest;
      }
      forall i | 0 <= i < |records|
        ensures Upsert(index, records)[records[i].id] == records[i]
      {
        if i == 0 {
          assert records[0].id !in Ids(rest);
        } else {
          assert records[i] == rest[i - 1];
        }
      }
    }
  }
}
