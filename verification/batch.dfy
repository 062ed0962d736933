/**
 The batch runs of `lid/lid.py`: `precompute_bill_similarity` and the
 `compute_bill_similarity_matrix` command of `main`. Both read one bill id per
 line, map `retrieve_similar_bills` over the ids with a process pool, and the
 command folds the returned pairs into one JSON object keyed by bill id.

 Reading the id file, writing the JSON file, logging and the pool's processes
 are not part of this model: the lines of the file are an input, and
 `pool.map` is an in-order sequential map whose result is the same list.

 Every item of the map opens its own connection, so two items asking for the
 same id may see different answers (a transient failure on one of them, say).
 The model therefore gives the map a `World`: the backend the item at each
 position sees.
 */
module Batch {
  import Text
  import opened Search
  import opened Retrieval

  /** `[x.strip() for x in open(...)]`: one id per line of the id file. */
  function ReadBillIds(lines: seq<string>): (ids: seq<string>)
    ensures |ids| == |lines|
    ensures forall i :: 0 <= i < |ids| ==>
      ids[i] == Text.Strip(lines[i]) && Text.Strip(ids[i]) == ids[i]
  {
    if |lines| == 0 then []
    else
      Text.StripIdempotent(lines[0]);
      [Text.Strip(lines[0])] + ReadBillIds(lines[1..])
  }

  /** The backend the call for the item at each position of the map sees. */
  type World = nat -> Backend

  /** What `pool.map(retrieve_similar_bills, bill_ids)` yields: the list of pairs, or the interrupt it re-raises. */
  datatype Batch = Completed(results: seq<(string, seq<Summary>)>) | Aborted(signal: Interrupt)

  /** The summary list a bill id ends up with: empty unless its retrieval succeeded. */
  function ListFor(b: Backend, billId: string): seq<Summary> {
    match RetrieveSimilarBills(b, billId)
    case Retrieved(_, summaries) => summaries
    case _ => []
  }

  /**
   What the map makes of its items' calls, taken in order: every item's pair
   when none was interrupted, otherwise the first interrupt.
   */
  function Collect(calls: seq<Retrieval>): (r: Batch)
    ensures r.Completed? <==> forall i :: 0 <= i < |calls| ==> !calls[i].Interrupted?
    ensures r.Completed? ==> |r.results| == |calls|
    ensures r.Completed? ==> forall i :: 0 <= i < |calls| ==>
      !calls[i].Interrupted? && r.results[i] == Report(calls[i])
    ensures r.Aborted? ==> exists i :: 0 <= i < |calls| && calls[i] == Interrupted(r.signal) &&
                                       forall j :: 0 <= j < i ==> !calls[j].Interrupted?
    decreases |calls|
  {
    if |calls| == 0 then Completed([])
    else
      match calls[0]
      case Interrupted(s) => Aborted(s)
      case first =>
        match Collect(calls[1..])
        case Aborted(s) => Aborted(s)
        case Completed(rest) => Completed([Report(first)] + rest)
  }

  /**
   `pool.map` over the ids, in order. An interrupt in any item aborts the
   whole map; the model reports the first one in id order.
   */
  function PoolMap(world: World, ids: seq<string>): (r: Batch)
    ensures r.Completed? <==> forall i :: 0 <= i < |ids| ==> !RetrieveSimilarBills(world(i), ids[i]).Interrupted?
    ensures r.Completed? ==> |r.results| == |ids|
    ensures r.Completed? ==> forall i :: 0 <= i < |ids| ==>
      r.results[i].0 == ids[i] && r.results[i].1 == ListFor(world(i), ids[i])
    ensures r.Aborted? ==> exists i :: 0 <= i < |ids| && RetrieveSimilarBills(world(i), ids[i]) == Interrupted(r.signal) &&
                                       forall j :: 0 <= j < i ==> !RetrieveSimilarBills(world(j), ids[j]).Interrupted?
  {
    var calls := seq(|ids|, i requires 0 <= i < |ids| => RetrieveSimilarBills(world(i), ids[i]));
    assert forall i :: 0 <= i < |ids| ==> calls[i] == RetrieveSimilarBills(world(i), ids[i]);
    assert forall i :: 0 <= i < |ids| && !calls[i].Interrupted? ==>
      Report(calls[i]) == (ids[i], ListFor(world(i), ids[i]));
    Collect(calls)
  }

  /**
   `precompute_bill_similarity`: one pair per line of the id file, in file order;
   an interrupt in the retrieval for any line stops the run.
   */
  function PrecomputeBillSimilarity(world: World, lines: seq<string>): (r: Batch)
    ensures r.Completed? <==>
      forall i :: 0 <= i < |lines| ==> !RetrieveSimilarBills(world(i), Text.Strip(lines[i])).Interrupted?
    ensures r.Completed? ==> |r.results| == |lines|
    ensures r.Completed? ==> forall i :: 0 <= i < |lines| ==>
      r.results[i] == (Text.Strip(lines[i]), ListFor(world(i), Text.Strip(lines[i])))
    ensures r.Aborted? ==>
      exists i :: 0 <= i < |lines| && RetrieveSimilarBills(world(i), Text.Strip(lines[i])) == Interrupted(r.signal)
  {
    var ids := ReadBillIds(lines);
    var r := PoolMap(world, ids);
    assert r.Aborted? ==> exists i :: 0 <= i < |lines| && RetrieveSimilarBills(world(i), ids[i]) == Interrupted(r.signal);
    r
  }

  /** The ids that occur in a list of pairs. */
  function KeysOf(results: seq<(string, seq<Summary>)>): set<string> {
    set i | 0 <= i < |results| :: results[i].0
  }

  /** Position of the last pair whose id is `key`, or -1 when there is none. */
  function LastIndex(results: seq<(string, seq<Summary>)>, key: string): (i: int)
    ensures -1 <= i < |results|
    ensures i >= 0 ==> results[i].0 == key
    ensures forall j :: i < j < |results| ==> results[j].0 != key
  {
    if |results| == 0 then -1
    else if results[|results| - 1].0 == key then |results| - 1
    else LastIndex(results[..|results| - 1], key)
  }

  /**
   The loop `for doc_id, sim_docs in results: json_obj[doc_id] = sim_docs`:
   one key per id that occurs, holding the list of its last pair.
   */
  method BuildJsonObject(results: seq<(string, seq<Summary>)>) returns (obj: map<string, seq<Summary>>)
    ensures obj.Keys == KeysOf(results)
    ensures forall k :: k in obj ==> LastIndex(results, k) >= 0 && obj[k] == results[LastIndex(results, k)].1
  {
    obj := map[];
    for i := 0 to |results|
      invariant obj.Keys == KeysOf(results[..i])
      invariant forall k :: k in obj ==> LastIndex(results[..i], k) >= 0 && obj[k] == results[LastIndex(results[..i], k)].1
    {
      var (docId, simDocs) := results[i];
      assert results[..i + 1][..i] == results[..i];
      assert KeysOf(results[..i + 1]) == KeysOf(results[..i]) + {docId} by {
        forall k | k in KeysOf(results[..i + 1]) ensures k in KeysOf(results[..i]) + {docId} {
          var j :| 0 <= j < i + 1 && results[..i + 1][j].0 == k;
          if j < i {
            assert results[..i][j].0 == k;
          }
        }
        forall k | k in KeysOf(results[..i]) ensures k in KeysOf(results[..i + 1]) {
          var j :| 0 <= j < i && results[..i][j].0 == k;
          assert results[..i + 1][j].0 == k;
        }
        assert results[..i + 1][i].0 == docId;
      }
      obj := obj[docId := simDocs];
    }
    assert results[..|results|] == results;
  }

  /** What the `compute_bill_similarity_matrix` command writes: the JSON object, or the interrupt that stopped it. */
  datatype MatrixRun = Written(json: map<string, seq<Summary>>) | Stopped(signal: Interrupt)

  /** The last line whose stripped id is `k`, or -1 when there is none. */
  function LastLine(lines: seq<string>, k: string): (i: int)
    ensures -1 <= i < |lines|
    ensures i >= 0 ==> Text.Strip(lines[i]) == k
    ensures forall j :: i < j < |lines| ==> Text.Strip(lines[j]) != k
  {
    if |lines| == 0 then -1
    else if Text.Strip(lines[|lines| - 1]) == k then |lines| - 1
    else LastLine(lines[..|lines| - 1], k)
  }

  /** Every call made for the stripped id `k` produced the same list. */
  predicate AgreeOn(world: World, lines: seq<string>, k: string) {
    forall i, j :: 0 <= i < |lines| && 0 <= j < |lines| && Text.Strip(lines[i]) == k && Text.Strip(lines[j]) == k
      ==> ListFor(world(i), k) == ListFor(world(j), k)
  }

  /**
   The `compute_bill_similarity_matrix` command: every id read from the file is
   a key, holding the list the call for its last line produced; when every call
   for an id produced the same list, the order and repetition of ids make no
   difference.
   */
  method ComputeBillSimilarityMatrix(world: World, lines: seq<string>) returns (r: MatrixRun)
    ensures r.Written? <==> forall i :: 0 <= i < |lines| ==> !RetrieveSimilarBills(world(i), Text.Strip(lines[i])).Interrupted?
    ensures r.Stopped? ==>
      exists i :: 0 <= i < |lines| && RetrieveSimilarBills(world(i), Text.Strip(lines[i])) == Interrupted(r.signal)
    ensures r.Written? ==> r.json.Keys == set i | 0 <= i < |lines| :: Text.Strip(lines[i])
    ensures r.Written? ==> forall k :: k in r.json ==>
      LastLine(lines, k) >= 0 && r.json[k] == ListFor(world(LastLine(lines, k)), k)
    ensures r.Written? ==> forall k, i ::
              k in r.json && AgreeOn(world, lines, k) && 0 <= i < |lines| && Text.Strip(lines[i]) == k
              ==> r.json[k] == ListFor(world(i), k)
  {
    var ids := ReadBillIds(lines);
    var batch := PoolMap(world, ids);
    match batch {
      case Aborted(s) =>
        r := Stopped(s);
      case Completed(results) =>
        var obj := BuildJsonObject(results);
        CompletedKeys(lines, results);
        forall k | k in obj ensures LastLine(lines, k) == LastIndex(results, k) {
          SameLastLine(lines, results, k);
        }
        r := Written(obj);
    }
  }

  lemma CompletedKeys(lines: seq<string>, results: seq<(string, seq<Summary>)>)
    requires |results| == |lines|
    requires forall i :: 0 <= i < |lines| ==> results[i].0 == Text.Strip(lines[i])
    ensures KeysOf(results) == set i | 0 <= i < |lines| :: Text.Strip(lines[i])
  {
    forall k | k in KeysOf(results) ensures k in set i | 0 <= i < |lines| :: Text.Strip(lines[i]) {
      var j :| 0 <= j < |results| && results[j].0 == k;
      assert Text.Strip(lines[j]) == k;
    }
    forall k | k in set i | 0 <= i < |lines| :: Text.Strip(lines[i]) ensures k in KeysOf(results) {
      var j :| 0 <= j < |lines| && Text.Strip(lines[j]) == k;
      assert results[j].0 == k;
    }
  }

  /** The last pair for `k` comes from the last line for `k`, when pair `i` carries line `i`'s stripped id. */
  lemma SameLastLine(lines: seq<string>, results: seq<(string, seq<Summary>)>, k: string)
    requires |results| == |lines|
    requires forall i :: 0 <= i < |lines| ==> results[i].0 == Text.Strip(lines[i])
    ensures LastIndex(results, k) == LastLine(lines, k)
  {
    var i, j := LastIndex(results, k), LastLine(lines, k);
    assert j >= 0 ==> results[j].0 == k;
    assert i >= 0 ==> Text.Strip(lines[i]) == k;
  }

  /** An id listed once gets an entry, so distinct ids give exactly one entry each. */
  lemma OneEntryPerDistinctId(lines: seq<string>, json: map<string, seq<Summary>>)
    requires forall i, j :: 0 <= i < j < |lines| ==> Text.Strip(lines[i]) != Text.Strip(lines[j])
    requires json.Keys == set i | 0 <= i < |lines| :: Text.Strip(lines[i])
    ensures |json| == |lines|
  {
    var ids := ReadBillIds(lines);
    assert json.Keys == set i | 0 <= i < |ids| :: ids[i];
    DistinctCount(ids);
  }

  lemma {:induction false} DistinctCount(ids: seq<string>)
    requires forall i, j :: 0 <= i < j < |ids| ==> ids[i] != ids[j]
    ensures |set i | 0 <= i < |ids| :: ids[i]| == |ids|
  {
    if |ids| > 0 {
      var rest := ids[..|ids| - 1];
      DistinctCount(rest);
      var all := set i | 0 <= i < |ids| :: ids[i];
      var prefix := set i | 0 <= i < |rest| :: rest[i];
      assert all == prefix + {ids[|ids| - 1]} by {
        forall k | k in all ensures k in prefix + {ids[|ids| - 1]} {
          var j :| 0 <= j < |ids| && ids[j] == k;
          if j < |rest| {
            assert rest[j] == k;
          }
        }
      }
      assert ids[|ids| - 1] !in prefix;
    }
  }

  /** The module as written, at every position of the map. */
  function AsWrittenWorld(world: World, nameError: string): World {
    (i: nat) => AsWritten(world(i), nameError)
  }

  /** As written (every connection raises `NameError`), every id of a completed run maps to an empty list. */
  lemma AsWrittenBatchAllEmpty(world: World, nameError: string, lines: seq<string>)
    ensures PrecomputeBillSimilarity(AsWrittenWorld(world, nameError), lines).Completed?
    ensures forall i :: 0 <= i < |lines| ==>
      PrecomputeBillSimilarity(AsWrittenWorld(world, nameError), lines).results[i] == (Text.Strip(lines[i]), [])
  {
    var w := AsWrittenWorld(world, nameError);
    var ids := ReadBillIds(lines);
    forall i | 0 <= i < |ids| ensures !RetrieveSimilarBills(w(i), ids[i]).Interrupted? {
      AsWrittenAlwaysFails(world(i), nameError, ids[i]);
    }
    forall i | 0 <= i < |ids| ensures ListFor(w(i), ids[i]) == [] {
      AsWrittenAlwaysFails(world(i), nameError, ids[i]);
    }
  }
}
