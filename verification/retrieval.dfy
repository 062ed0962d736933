/**
 `retrieve_similar_bills` of `lid/lid.py`: for one bill id, fetch the bill,
 query the index with its cleaned text and keep `{id, score, state}` of every
 hit. Any exception other than `KeyboardInterrupt` and `SystemExit` is logged
 with a sanitised one-line traceback and turns into an empty list; those two
 propagate.

 The connection, the document store, `clean_text_for_query` and the index are
 collaborators whose code is not part of this model. Each call inside the `try`
 block is a function returning either a value or the exception it raised.
 */
module Retrieval {
  import Text
  import opened Search

  /** The two exceptions the handler re-raises. */
  datatype Interrupt = KeyboardInterrupt | SystemExit

  /** An exception raised inside the `try` block; any other error carries the text `traceback.format_exc()` gives for it. */
  datatype Failure = Signal(signal: Interrupt) | Error(traceback: string)

  /** The result of one call inside the `try` block. */
  datatype Step<T> = Returned(value: T) | Raised(failure: Failure)

  /** The two fields read from a stored bill; `text` is `None` when the bill has no text. */
  datatype BillDoc = BillDoc(text: Option<string>, state: string)

  /** The calls the `try` block makes, in order. */
  datatype Backend = Backend(
    // opening `database.ElasticConnection()` for the call handling this bill id
    connect: string -> Option<Failure>,
    // `get_bill_by_id` together with reading its `bill_document_last` and `state` fields
    getBill: string -> Step<BillDoc>,
    // `clean_text_for_query(bill_text, state)`
    cleanForQuery: (string, string) -> Step<string>,
    // `similar_doc_query(bill_text, num_results = n)` together with reading the `id`, `score`
    // and `state` of every hit (line 121): a hit lacking one of them raises `KeyError` in this step
    similar: (string, nat) -> Step<seq<Hit>>)

  /** The number of similar documents asked for per bill. */
  const SimilarLimit: nat := 10

  /** What one call of `retrieve_similar_bills` does: return a pair, or let an interrupt through. */
  datatype Retrieval =
    | Retrieved(id: string, summaries: seq<Summary>)
    | Failed(id: string, traceback: string)
    | Interrupted(signal: Interrupt)

  /** The bill read from the store, when connecting and fetching both returned. */
  function Fetched(b: Backend, billId: string): Option<BillDoc> {
    if b.connect(billId).None? && b.getBill(billId).Returned? then Some(b.getBill(billId).value) else None
  }

  /** The cleaned query text, when the bill has text and cleaning it returned. */
  function CleanedQuery(b: Backend, billId: string): Option<string> {
    match Fetched(b, billId)
    case Some(BillDoc(Some(text), state)) =>
      (match b.cleanForQuery(text, state)
       case Returned(q) => Some(q)
       case Raised(_) => None)
    case _ => None
  }

  /** The hits of the similarity query, when every call up to it returned. */
  function SearchHits(b: Backend, billId: string): Option<seq<Hit>> {
    match CleanedQuery(b, billId)
    case Some(q) =>
      (match b.similar(q, SimilarLimit)
       case Returned(hits) => Some(hits)
       case Raised(_) => None)
    case None => None
  }

  /**
   `f` is the exception the `try` block raises: the first call that does not
   return raises it, and every call before it returned.
   */
  predicate Raises(b: Backend, billId: string, f: Failure) {
    || b.connect(billId) == Some(f)
    || (b.connect(billId).None? && b.getBill(billId) == Raised(f))
    || (Fetched(b, billId).Some? && Fetched(b, billId).value.text.Some?
        && b.cleanForQuery(Fetched(b, billId).value.text.value, Fetched(b, billId).value.state) == Raised(f))
    || (CleanedQuery(b, billId).Some? && b.similar(CleanedQuery(b, billId).value, SimilarLimit) == Raised(f))
  }

  /** The `try` block runs one path, so it raises at most one exception. */
  lemma RaisesUnique(b: Backend, billId: string, f: Failure, g: Failure)
    requires Raises(b, billId, f) && Raises(b, billId, g)
    ensures f == g
  {
  }

  /** The body of the `try` block (lines 110-126): the summary list, or the exception raised. */
  function TryBlock(b: Backend, billId: string): (t: Step<seq<Summary>>)
    ensures forall f :: t == Raised(f) <==> Raises(b, billId, f)
  {
    match b.connect(billId)
    case Some(f) => Raised(f)
    case None =>
      match b.getBill(billId)
      case Raised(f) => Raised(f)
      case Returned(BillDoc(None, _)) => Returned([])
      case Returned(BillDoc(Some(text), state)) =>
        match b.cleanForQuery(text, state)
        case Raised(f) => Raised(f)
        case Returned(q) =>
          match b.similar(q, SimilarLimit)
          case Raised(f) => Raised(f)
          case Returned(hits) => Returned(Summaries(hits))
  }

  /** `retrieve_similar_bills`: the `try` block and its two handlers. */
  function RetrieveSimilarBills(b: Backend, billId: string): (r: Retrieval)
    ensures !r.Interrupted? ==> r.id == billId
    ensures forall s :: Raises(b, billId, Signal(s)) ==> r == Interrupted(s)
    ensures forall tb :: Raises(b, billId, Error(tb)) ==> r == Failed(billId, tb)
    ensures r.Retrieved? <==> forall f :: !Raises(b, billId, f)
    ensures Fetched(b, billId).Some? && Fetched(b, billId).value.text.None? ==> r == Retrieved(billId, [])
    ensures SearchHits(b, billId).Some? ==>
              && r.Retrieved?
              && |r.summaries| == |SearchHits(b, billId).value|
              && forall i :: 0 <= i < |r.summaries| ==>
                   var hit := SearchHits(b, billId).value[i];
                   r.summaries[i] == Summary(hit.id, hit.score, hit.state)
  {
    match TryBlock(b, billId)
    case Returned(summaries) => Retrieved(billId, summaries)
    case Raised(Signal(s)) =>
      assert Raises(b, billId, Signal(s));
      Interrupted(s)
    case Raised(Error(tb)) => Failed(billId, tb)
  }

  /** The pair a call returns when it returns: a failure yields the id with an empty list. */
  function Report(r: Retrieval): (pair: (string, seq<Summary>))
    requires !r.Interrupted?
    ensures pair.0 == r.id
    ensures r.Failed? ==> pair.1 == []
    ensures r.Retrieved? ==> pair.1 == r.summaries
  {
    match r
    case Retrieved(id, summaries) => (id, summaries)
    case Failed(id, _) => (id, [])
  }

  /**
   The pair a returning call reports, in terms of what its `try` block did: the
   input id with the projected hits of the similarity query, or with an empty
   list when the bill has no text or a step raised an error.
   */
  lemma ReportedPair(b: Backend, billId: string)
    ensures var r := RetrieveSimilarBills(b, billId);
      && (!r.Interrupted? ==> Report(r).0 == billId)
      && (forall tb :: Raises(b, billId, Error(tb)) ==> Report(r) == (billId, []))
      && (Fetched(b, billId).Some? && Fetched(b, billId).value.text.None? ==> Report(r) == (billId, []))
      && (SearchHits(b, billId).Some? ==> Report(r) == (billId, Summaries(SearchHits(b, billId).value)))
  {
    var r := RetrieveSimilarBills(b, billId);
    if SearchHits(b, billId).Some? {
      var hits := SearchHits(b, billId).value;
      assert r.summaries == Summaries(hits);
    }
  }

  /**
   The traceback as logged: runs of newlines become one tab, then runs of
   whitespace one space, and the result is wrapped in `<<` and `>>`.
   */
  function SanitiseTrace(traceback: string): (m: string)
    ensures |m| >= 4 && m[..2] == "<<" && m[|m| - 2..] == ">>"
    ensures m[2..|m| - 2] == Text.CollapseRuns(Text.Whitespace, ' ', traceback)
    ensures Text.Collapsed(Text.Whitespace, ' ', m[2..|m| - 2])
    ensures Text.Others(Text.Whitespace, m[2..|m| - 2]) == Text.Others(Text.Whitespace, traceback)
  {
    var body := Text.CollapseRuns(Text.Whitespace, ' ', Text.CollapseRuns(Text.Newlines, '\t', traceback));
    Text.NewlineStepSubsumed(traceback);
    Text.CollapseShape(Text.Whitespace, ' ', traceback);
    Text.CollapseKeepsOthers(Text.Whitespace, ' ', traceback);
    var m := "<<" + body + ">>";
    assert m[2..|m| - 2] == body;
    m
  }

  /** The sanitised traceback is a single line: it holds no newline, tab or other whitespace but single spaces. */
  lemma SanitisedIsOneLine(traceback: string)
    ensures
      var m := SanitiseTrace(traceback);
      forall i :: 2 <= i < |m| - 2 && Text.IsWhitespace(m[i]) ==>
        m[i] == ' ' && (i + 1 < |m| - 2 ==> !Text.IsWhitespace(m[i + 1]))
  {
    var m := SanitiseTrace(traceback);
    var body := m[2..|m| - 2];
    forall i | 2 <= i < |m| - 2 && Text.IsWhitespace(m[i])
      ensures m[i] == ' ' && (i + 1 < |m| - 2 ==> !Text.IsWhitespace(m[i + 1]))
    {
      assert m[i] == body[i - 2];
      if i + 1 < |m| - 2 {
        assert m[i + 1] == body[i - 1];
        assert !Text.AdjacentInClass(Text.Whitespace, body, i - 2);
      }
    }
  }

  /** The error line logged for a failed bill. */
  function FailureMessage(billId: string, traceback: string): string {
    "Failed to obtain similar docs for " + billId + ": " + SanitiseTrace(traceback)
  }

  /**
   The module as written: `database` is never bound (only `ElasticConnection`
   is imported), so opening the connection raises `NameError` on every call.
   */
  function AsWritten(b: Backend, nameError: string): Backend {
    b.(connect := (billId: string) => Some(Error(nameError)))
  }

  /** As written, every bill id fails and is reported with an empty list. */
  lemma AsWrittenAlwaysFails(b: Backend, nameError: string, billId: string)
    ensures RetrieveSimilarBills(AsWritten(b, nameError), billId) == Failed(billId, nameError)
    ensures Report(RetrieveSimilarBills(AsWritten(b, nameError), billId)) == (billId, [])
  {
  }
}
