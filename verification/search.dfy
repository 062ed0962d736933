/**
 The records the core exchanges with the Elasticsearch index. The index itself
 (`ElasticConnection`) is not part of this model: its answers reach the model as
 plain sequences of hits.
 */
module Search {

  /** The optional value the model uses for Python's `None`. */
  datatype Option<+T> = None | Some(value: T)

  /**
   One hit of `similar_doc_query`: the document id, the relevance score the
   index assigned, and the two stored fields the core reads, `state` and
   `bill_document_last`; the latter is `None` for a bill stored without text.
   */
  datatype Hit = Hit(id: string, score: real, state: string, text: Option<string>)

  /** The `{"id", "score", "state"}` record kept for each similar bill. */
  datatype Summary = Summary(id: string, score: real, state: string)

  /** The per-bill list comprehension of `retrieve_similar_bills`. */
  function Summaries(hits: seq<Hit>): (r: seq<Summary>)
    ensures |r| == |hits|
    ensures forall i :: 0 <= i < |r| ==>
      r[i].id == hits[i].id && r[i].score == hits[i].score && r[i].state == hits[i].state
  {
    if |hits| == 0 then []
    else [Summary(hits[0].id, hits[0].score, hits[0].state)] + Summaries(hits[1..])
  }
}
