/** Values exchanged between the vector database, the embedding provider and the index. */
module Values {

  /** The IEEE-754 bit pattern of a Python float; the model never computes with it. */
  type FloatBits = bv64

  /** One element of an embedding as the provider returned it: a Python `float`,
      or any other Python value (an `int`, a `str`, `None`, ...). */
  datatype Elem = Float(bits: FloatBits) | NotFloat(kind: string)

  /** An embedding is the list built by `list(e)` for one provider vector. */
  type Embedding = seq<Elem>

  /** Record metadata: a dictionary from key to string value. */
  type Metadata = map<string, string>

  /** One vector stored in the index: `{'id', 'values', 'metadata'}`. */
  datatype Record = Record(id: string, values: Embedding, metadata: Metadata)

  /** One match of a similarity query: the stored metadata and a score passed through. */
  datatype Match = Match(id: string, metadata: Metadata, score: FloatBits)

  /** One row of `query_database`: `{'text', 'source', 'score'}`. */
  datatype QueryResult = QueryResult(text: string, source: string, score: FloatBits)

  /** One row of `query_database_by_prefix`: `{'text', 'source', 'id'}`. */
  datatype PrefixResult = PrefixResult(text: string, source: string, id: string)

  /** The argument of `get_embedding`: `Union[str, List[str]]`. */
  datatype TextInput = Single(text: string) | Many(texts: seq<string>)

  /** The Python exceptions the core can raise. */
  datatype Error =
    | RangeStepZero          // `range(0, n, 0)` raises ValueError
    | InvalidEmbeddingFormat // ValueError("Invalid embedding format")
    | IndexOutOfRange        // `[][0]` raises IndexError
    | MissingKey(key: string) // `metadata[key]` raises KeyError

  datatype Option<+T> = None | Some(value: T)

  datatype Result<+T> = Success(value: T) | Failure(error: Error)

  /** Outcome of a call that returns `None` in Python or raises. */
  datatype Outcome = Pass | Fail(error: Error)

  function Min(a: int, b: int): int { if a <= b then a else b }

  function Max(a: int, b: int): int { if a <= b then b else a }
}
