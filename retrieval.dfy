/** Result shaping for the two query paths: fetch limit, match mapping, `[:top_k]`. */
module Retrieval {
  import opened Values

  /** The fetch limit handed to the index: 10000 when `top_k` is None. */
  function FetchLimit(topK: Option<int>): (limit: int)
    ensures topK.None? ==> limit == 10000
    ensures topK.Some? ==> limit == topK.value
  {
    match topK
    case None => 10000
    case Some(k) => k
  }

  /** `metadata.get('source', 'Unknown')`. */
  function SourceOf(metadata: Metadata): (source: string)
    ensures "source" in metadata ==> source == metadata["source"]
    ensures "source" !in metadata ==> source == "Unknown"
  {
    if "source" in metadata then metadata["source"] else "Unknown"
  }

  /** The list comprehension over `results.matches`: the first match without a `'text'`
      key raises KeyError, otherwise each match becomes `{text, source, score}`. */
  function ToQueryResults(matches: seq<Match>): (r: Result<seq<QueryResult>>)
    ensures r.Success? <==> forall i :: 0 <= i < |matches| ==> "text" in matches[i].metadata
    ensures r.Failure? ==> r.error == MissingKey("text")
    ensures r.Success? ==> |r.value| == |matches|
    ensures r.Success? ==> forall i :: 0 <= i < |matches| ==>
      && r.value[i].text == matches[i].metadata["text"]
      && r.value[i].source == SourceOf(matches[i].metadata)
      && r.value[i].score == matches[i].score
  {
    if matches == [] then Success([])
    else
      var m := matches[0];
      if "text" !in m.metadata then Failure(MissingKey("text"))
      else match ToQueryResults(matches[1..])
        case Failure(e) => Failure(e)
        case Success(rest) => Success([QueryResult(m.metadata["text"], SourceOf(m.metadata), m.score)] + rest)
  }

  /** How many elements `s[:k]` keeps: Python counts a negative `k` from the end. */
  function SliceLength(n: nat, k: int): (len: nat)
    ensures len <= n
  {
    if k >= 0 then Min(k, n) else Max(0, n + k)
  }

  /** `s[:k]`. */
  function Take<T>(s: seq<T>, k: int): (r: seq<T>)
    ensures |r| <= |s|
    ensures r <= s
    ensures k >= 0 ==> |r| == Min(k, |s|)
    ensures k < 0 ==> |r| == Max(0, |s| + k)
  {
    s[..SliceLength(|s|, k)]
  }

  /** `results[:top_k] if top_k is not None else results`. */
  function TakeOpt<T>(s: seq<T>, topK: Option<int>): (r: seq<T>)
    ensures r <= s
    ensures topK.None? ==> r == s
    ensures topK.Some? && topK.value >= 0 ==> |r| == Min(topK.value, |s|)
    ensures topK.Some? && topK.value < 0 ==> |r| == Max(0, |s| + topK.value)
  {
    if topK.None? then s else Take(s, topK.value)
  }

  /** The dictionary built for one fetched vector. */
  function ToPrefixResult(id: string, record: Record): (r: PrefixResult)
    requires "text" in record.metadata
    ensures r.id == id && r.text == record.metadata["text"] && r.source == SourceOf(record.metadata)
  {
    PrefixResult(record.metadata["text"], SourceOf(record.metadata), id)
  }

  predicate AllHaveText(fetched: map<string, Record>)
  {
    forall id | id in fetched :: "text" in fetched[id].metadata
  }

  /** The results built from `fetched`, visited in the order `ids`. */
  function PrefixResults(fetched: map<string, Record>, ids: seq<string>): (r: seq<PrefixResult>)
    requires AllHaveText(fetched)
    requires forall i :: 0 <= i < |ids| ==> ids[i] in fetched
    ensures |r| == |ids|
    ensures forall i :: 0 <= i < |ids| ==> r[i] == ToPrefixResult(ids[i], fetched[ids[i]])
  {
    seq(|ids|, i requires 0 <= i < |ids| => ToPrefixResult(ids[i], fetched[ids[i]]))
  }

  /** `ids` lists every key of `keys` exactly once. */
  predicate Enumerates(ids: seq<string>, keys: set<string>)
  {
    && (forall i :: 0 <= i < |ids| ==> ids[i] in keys)
    && (forall id | id in keys :: id in ids)
    && (forall i, j :: 0 <= i < j < |ids| ==> ids[i] != ids[j])
  }

  /** An enumeration has exactly one entry per key. */
  lemma {:induction false} EnumerationSize(ids: seq<string>, keys: set<string>)
    requires Enumerates(ids, keys)
    ensures |ids| == |keys|
    decreases |ids|
  {
    if ids == [] {
      assert keys == {};
    } else {
      var last := ids[|ids| - 1];
      var init := ids[..|ids| - 1];
      assert Enumerates(init, keys - {last}) by {
        forall id | id in keys - {last} ensures id in init {
          var i :| 0 <= i < |ids| && ids[i] == id;
          assert i < |ids| - 1;
          assert init[i] == id;
        }
      }
      EnumerationSize(init, keys - {last});
    }
  }
}
