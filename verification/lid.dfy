/**
 The `LID` class of `lid/lid.py`: a query document is cleaned, sent to the
 index, and every candidate the index returns is aligned against it until the
 first candidate whose relevance score is below the cut-off.

 The cleaner (`clean_document`), the tokenizer (`alignment_tokenizer`), the
 aligner (`LocalAligner`) and the index are collaborators whose code is not part
 of this model; they are function-valued fields, so every property below holds
 for every choice of them.
 */
module Lid {
  import Text
  import opened Search

  type Token = string

  /** What `clean_document` returns: one cleaned text, or the list of its section texts. */
  datatype Cleaned = Document(text: string) | SectionList(sections: seq<string>)

  /** The arguments `clean_document` receives besides the raw text, at each of its two call sites. */
  datatype CleanCall =
    | QueryCall(docType: string, splitToSection: bool, kwargs: map<string, string>)
    | CandidateCall(stateId: string)

  /**
   The module-level helpers `find_alignments` calls. The raw text handed to
   `clean_document` is `None` for a candidate stored without text.
   */
  datatype Cleaner = Cleaner(
    cleanDocument: (Option<string>, CleanCall) -> Cleaned,
    tokenize: Cleaned -> seq<Token>)

  /** The two entry points of the aligner object; `A` is whatever they return. */
  datatype Aligner<A> = Aligner(
    align: (seq<Token>, seq<Token>) -> A,
    alignBySection: (seq<seq<Token>>, seq<Token>) -> A)

  /**
   An `LID` object. `search` stands for `similar_doc_query` on the connection
   the constructor opens, asked for the `state` and `bill_document_last` fields.
   */
  datatype LID<A> = LID(
    aligner: Aligner<A>,
    search: (string, nat) -> seq<Hit>,
    resultsLimit: nat,
    scoreThreshold: real)

  /** The constructor, with its defaults. */
  function NewLID<A>(aligner: Aligner<A>, search: (string, nat) -> seq<Hit>,
                     queryResultsLimit: nat := 100, scoreThreshold: real := 0.5): (lid: LID<A>)
    ensures lid.resultsLimit == queryResultsLimit && lid.scoreThreshold == scoreThreshold
  {
    LID(aligner, search, queryResultsLimit, scoreThreshold)
  }

  /** The relevance cut-off written as a literal in the candidate loop. */
  const Cutoff: real := 0.5

  /** The keyword argument the candidate loop reads. */
  const StateIdKey: string := "state_id"

  /** The tokenized query: the whole document, or one token sequence per section. */
  datatype AlignDoc = WholeDocument(tokens: seq<Token>) | Sections(sections: seq<seq<Token>>)

  /** What `find_alignments` returns, with the `num_states` it prints, or the `KeyError` it raises. */
  datatype Outcome<A> = Found(alignments: seq<A>, numStates: nat) | MissingStateId

  /**
   The text sent to the index: a list of sections is joined with single spaces.
   It is the text the aligned items make up: splitting it at the spaces gives
   the words of each section in turn, so the sections themselves come back
   when none of them holds a space; the empty list is sent as the empty query.
   A single cleaned text is the concatenation of the characters section mode visits.
   */
  function ElasticQuery(cleaned: Cleaned): (q: string)
    ensures cleaned.Document? ==> Text.Concat(SectionTexts(cleaned)) == q
    ensures cleaned.SectionList? && |cleaned.sections| >= 1
            ==> Text.Split(q, ' ') == Text.SplitAll(SectionTexts(cleaned), ' ')
    ensures cleaned.SectionList? && |cleaned.sections| >= 1
            && (forall i :: 0 <= i < |cleaned.sections| ==> ' ' !in cleaned.sections[i])
            ==> Text.Split(q, ' ') == SectionTexts(cleaned)
    ensures cleaned.SectionList? && |cleaned.sections| == 0 ==> q == ""
  {
    match cleaned
    case Document(t) =>
      CharsConcat(t);
      t
    case SectionList(ss) =>
      assert |ss| >= 1 ==> Text.Split(Text.Join(ss, ' '), ' ') == Text.SplitAll(ss, ' ') by {
        if |ss| >= 1 {
          Text.SplitJoinAll(ss, ' ');
        }
      }
      assert (|ss| >= 1 && forall i :: 0 <= i < |ss| ==> ' ' !in ss[i])
             ==> Text.Split(Text.Join(ss, ' '), ' ') == ss by {
        if |ss| >= 1 && forall i :: 0 <= i < |ss| ==> ' ' !in ss[i] {
          Text.SplitJoin(ss, ' ');
        }
      }
      Text.Join(ss, ' ')
  }

  /** The characters of `t`, each as a one-character string, concatenate back to `t`. */
  lemma {:induction false} CharsConcat(t: string)
    ensures Text.Concat(SectionTexts(Document(t))) == t
    decreases |t|
  {
    if |t| > 0 {
      var items := SectionTexts(Document(t));
      assert items[1..] == SectionTexts(Document(t[1..]));
      CharsConcat(t[1..]);
      assert t == [t[0]] + t[1..];
    }
  }

  /**
   The items `for s in query_document` visits in section mode: the sections of
   a list, or the characters of a string, each as a one-character string.
   */
  function SectionTexts(cleaned: Cleaned): (items: seq<string>)
    ensures cleaned.SectionList? ==> items == cleaned.sections
    ensures cleaned.Document? ==>
              |items| == |cleaned.text| && forall i :: 0 <= i < |items| ==> items[i] == [cleaned.text[i]]
  {
    match cleaned
    case SectionList(ss) => ss
    case Document(t) => seq(|t|, i requires 0 <= i < |t| => [t[i]])
  }

  /** The tokenized query, per section when `split_sections` is set. */
  function QueryTokens(c: Cleaner, cleaned: Cleaned, splitSections: bool): (d: AlignDoc)
    ensures d.Sections? <==> splitSections
    ensures splitSections ==>
              && |d.sections| == |SectionTexts(cleaned)|
              && forall i :: 0 <= i < |d.sections| ==>
                   d.sections[i] == c.tokenize(Document(SectionTexts(cleaned)[i]))
    ensures !splitSections ==> d.tokens == c.tokenize(cleaned)
  {
    if splitSections then
      var items := SectionTexts(cleaned);
      Sections(seq(|items|, i requires 0 <= i < |items| => c.tokenize(Document(items[i]))))
    else
      WholeDocument(c.tokenize(cleaned))
  }

  /** One candidate's text, cleaned for its own state and tokenized. */
  function CandidateTokens(c: Cleaner, hit: Hit): seq<Token> {
    c.tokenize(c.cleanDocument(hit.text, CandidateCall(hit.state)))
  }

  /** The alignment of one kept candidate against the query. */
  function AlignCandidate<A>(aligner: Aligner<A>, c: Cleaner, doc: AlignDoc, hit: Hit): A {
    match doc
    case WholeDocument(tokens) => aligner.align(tokens, CandidateTokens(c, hit))
    case Sections(sections) => aligner.alignBySection(sections, CandidateTokens(c, hit))
  }

  /** Length of the longest prefix of `hits` whose scores are all at least `cutoff`. */
  function KeptCount(cutoff: real, hits: seq<Hit>): (k: nat)
    ensures k <= |hits|
    ensures forall i :: 0 <= i < k ==> hits[i].score >= cutoff
    ensures k < |hits| ==> hits[k].score < cutoff
  {
    if |hits| == 0 || hits[0].score < cutoff then 0 else 1 + KeptCount(cutoff, hits[1..])
  }

  /** Number of hits whose `state` field equals `stateId`. */
  function CountState(hits: seq<Hit>, stateId: string): (n: nat)
    ensures n <= |hits|
  {
    if |hits| == 0 then 0
    else (if hits[0].state == stateId then 1 else 0) + CountState(hits[1..], stateId)
  }

  /**
   The candidate loop: walk the hits in the order returned, stop at the first
   one scoring below `cutoff`, align each one before it, and count those whose
   state is `kwargs["state_id"]`; reading that key fails on the first kept hit
   when it is absent.
   */
  function AlignCandidates<A>(aligner: Aligner<A>, c: Cleaner, doc: AlignDoc,
                              kwargs: map<string, string>, cutoff: real, hits: seq<Hit>): (r: Outcome<A>)
    ensures r.MissingStateId? <==> StateIdKey !in kwargs && KeptCount(cutoff, hits) > 0
    ensures r.Found? ==> |r.alignments| == KeptCount(cutoff, hits)
    ensures r.Found? ==> forall i :: 0 <= i < |r.alignments| ==>
      r.alignments[i] == AlignCandidate(aligner, c, doc, hits[i])
    ensures r.Found? && StateIdKey in kwargs ==>
      r.numStates == CountState(hits[..KeptCount(cutoff, hits)], kwargs[StateIdKey])
    ensures r.Found? ==> r.numStates <= |r.alignments|
  {
    if |hits| == 0 || hits[0].score < cutoff then Found([], 0)
    else if StateIdKey !in kwargs then MissingStateId
    else
      match AlignCandidates(aligner, c, doc, kwargs, cutoff, hits[1..])
      case MissingStateId => MissingStateId
      case Found(rest, n) =>
        var k := KeptCount(cutoff, hits);
        assert hits[..k][1..] == hits[1..][..k - 1];
        Found([AlignCandidate(aligner, c, doc, hits[0])] + rest,
              (if hits[0].state == kwargs[StateIdKey] then 1 else 0) + n)
  }

  /** The hits the index returns for the cleaned query. */
  function QueryHits<A>(lid: LID<A>, c: Cleaner, queryDocument: string, documentType: string,
                        splitSections: bool, kwargs: map<string, string>): seq<Hit>
  {
    var cleaned := c.cleanDocument(Some(queryDocument), QueryCall(documentType, splitSections, kwargs));
    lid.search(ElasticQuery(cleaned), lid.resultsLimit)
  }

  /** The tokenized query `find_alignments` aligns every kept candidate against. */
  function QueryDoc(c: Cleaner, queryDocument: string, documentType: string,
                    splitSections: bool, kwargs: map<string, string>): AlignDoc
  {
    QueryTokens(c, c.cleanDocument(Some(queryDocument), QueryCall(documentType, splitSections, kwargs)), splitSections)
  }

  /** `find_alignments` with its cut-off as a parameter. */
  function FindAlignmentsWith<A>(cutoff: real, lid: LID<A>, c: Cleaner, queryDocument: string,
                                 documentType: string, splitSections: bool,
                                 kwargs: map<string, string>): Outcome<A>
  {
    AlignCandidates(lid.aligner, c, QueryDoc(c, queryDocument, documentType, splitSections, kwargs),
                    kwargs, cutoff,
                    QueryHits(lid, c, queryDocument, documentType, splitSections, kwargs))
  }

  /** `LID.find_alignments` as written: the cut-off is the literal 0.5. */
  function FindAlignments<A>(lid: LID<A>, c: Cleaner, queryDocument: string, documentType: string := "text",
                             splitSections: bool := false, kwargs: map<string, string> := map[]): (r: Outcome<A>)
    ensures
      var hits := QueryHits(lid, c, queryDocument, documentType, splitSections, kwargs);
      var doc := QueryDoc(c, queryDocument, documentType, splitSections, kwargs);
      && (r.MissingStateId? <==> StateIdKey !in kwargs && KeptCount(Cutoff, hits) > 0)
      && (r.Found? ==> |r.alignments| == KeptCount(Cutoff, hits))
      && (r.Found? ==> forall j :: 0 <= j < |hits| && hits[j].score < Cutoff ==> |r.alignments| <= j)
      && (r.Found? ==> forall i :: 0 <= i < |r.alignments| ==>
            r.alignments[i] == (if splitSections
                                then lid.aligner.alignBySection(doc.sections, CandidateTokens(c, hits[i]))
                                else lid.aligner.align(doc.tokens, CandidateTokens(c, hits[i]))))
      && (r.Found? && StateIdKey in kwargs ==>
            r.numStates == CountState(hits[..|r.alignments|], kwargs[StateIdKey]))
      && (r.Found? ==> r.numStates <= |r.alignments|)
  {
    FindAlignmentsWith(Cutoff, lid, c, queryDocument, documentType, splitSections, kwargs)
  }

  /** The configured `score_threshold` plays no part in what `find_alignments` returns. */
  lemma ThresholdNotConsulted<A>(lid: LID<A>, threshold: real, c: Cleaner, queryDocument: string,
                                 documentType: string, splitSections: bool, kwargs: map<string, string>)
    ensures FindAlignments(lid.(scoreThreshold := threshold), c, queryDocument, documentType, splitSections, kwargs)
         == FindAlignments(lid, c, queryDocument, documentType, splitSections, kwargs)
  {
  }

  /**
   `find_alignments` cutting at the `score_threshold` the object was built with,
   which the constructor stores for this purpose.
   */
  function FindAlignmentsConfigured<A>(lid: LID<A>, c: Cleaner, queryDocument: string,
                                       documentType: string := "text", splitSections: bool := false,
                                       kwargs: map<string, string> := map[]): (r: Outcome<A>)
    ensures
      var hits := QueryHits(lid, c, queryDocument, documentType, splitSections, kwargs);
      && (r.MissingStateId? <==> StateIdKey !in kwargs && KeptCount(lid.scoreThreshold, hits) > 0)
      && (r.Found? ==> |r.alignments| == KeptCount(lid.scoreThreshold, hits))
      && (r.Found? ==> forall i :: 0 <= i < |r.alignments| ==> hits[i].score >= lid.scoreThreshold)
  {
    FindAlignmentsWith(lid.scoreThreshold, lid, c, queryDocument, documentType, splitSections, kwargs)
  }

  /** An object built with the default threshold behaves the same either way. */
  lemma ConfiguredAgreesAtDefault<A>(lid: LID<A>, c: Cleaner, queryDocument: string, documentType: string,
                                     splitSections: bool, kwargs: map<string, string>)
    requires lid.scoreThreshold == 0.5
    ensures FindAlignmentsConfigured(lid, c, queryDocument, documentType, splitSections, kwargs)
         == FindAlignments(lid, c, queryDocument, documentType, splitSections, kwargs)
  {
  }

  /**
   An object built with the constructor's defaults asks the index for 100
   results, and cutting at its stored threshold is the literal cut-off.
   */
  lemma DefaultsAgree<A>(aligner: Aligner<A>, search: (string, nat) -> seq<Hit>, c: Cleaner,
                         queryDocument: string, documentType: string, splitSections: bool,
                         kwargs: map<string, string>)
    ensures NewLID(aligner, search).resultsLimit == 100
    ensures FindAlignmentsConfigured(NewLID(aligner, search), c, queryDocument, documentType, splitSections, kwargs)
         == FindAlignments(NewLID(aligner, search), c, queryDocument, documentType, splitSections, kwargs)
  {
    ConfiguredAgreesAtDefault(NewLID(aligner, search), c, queryDocument, documentType, splitSections, kwargs);
  }

  /**
   Called with its defaults (a plain text query, no sections, no keyword
   arguments), `find_alignments` raises `KeyError` exactly when the index
   returns a first hit scoring at least the cut-off.
   */
  lemma DefaultCallRaises<A>(lid: LID<A>, c: Cleaner, queryDocument: string)
    ensures FindAlignments(lid, c, queryDocument).MissingStateId?
        <==> var hits := QueryHits(lid, c, queryDocument, "text", false, map[]);
             |hits| > 0 && hits[0].score >= Cutoff
  {
  }

  /**
   The early exit: with scores 0.9, 0.7, 0.4 and 0.8 only the first two
   candidates are aligned, although the fourth scores above the cut-off.
   */
  lemma EarlyExitExample<A>(aligner: Aligner<A>, c: Cleaner, doc: AlignDoc, hits: seq<Hit>)
    requires |hits| == 4
    requires hits[0].score == 0.9 && hits[1].score == 0.7 && hits[2].score == 0.4 && hits[3].score == 0.8
    ensures AlignCandidates(aligner, c, doc, map[StateIdKey := "al"], Cutoff, hits)
         == Found([AlignCandidate(aligner, c, doc, hits[0]), AlignCandidate(aligner, c, doc, hits[1])],
                  (if hits[0].state == "al" then 1 else 0) + (if hits[1].state == "al" then 1 else 0))
  {
    var kwargs := map[StateIdKey := "al"];
    assert KeptCount(Cutoff, hits) == 2;
    assert hits[..2] == [hits[0], hits[1]];
    assert CountState([hits[0], hits[1]], "al")
        == (if hits[0].state == "al" then 1 else 0) + CountState([hits[1]], "al");
  }

  /**
   As written, an object built with `score_threshold=0.9` still aligns a
   candidate scoring 0.7; cutting at the configured threshold drops it.
   */
  lemma ThresholdIgnoredExample()
    ensures
      var hit := Hit("b1", 0.7, "al", Some("text"));
      var lid := NewLID(Aligner((q: seq<Token>, d: seq<Token>) => |d|, (q: seq<seq<Token>>, d: seq<Token>) => |d|),
                        (query: string, limit: nat) => [hit], 100, 0.9);
      var c := Cleaner((raw: Option<string>, call: CleanCall) => Document(""), (d: Cleaned) => []);
      var kwargs := map[StateIdKey := "al"];
      && FindAlignments(lid, c, "query", "text", false, kwargs) == Found([0], 1)
      && FindAlignmentsConfigured(lid, c, "query", "text", false, kwargs) == Found([], 0)
  {
    var hit := Hit("b1", 0.7, "al", Some("text"));
    assert [hit][1..] == [];
  }
}
