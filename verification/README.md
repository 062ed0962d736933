# LID similarity pipeline — Dafny model

This project models the sequential logic of `lid/lid.py`, the main module of the
legislative influence detector (LID). LID finds bills that share copied text
with a query document. The model covers four pieces of that module:

- **`LID.find_alignments`** (module `Lid`, `lid.dfy`). The query is cleaned
  and sent to the Elasticsearch index. The hits are walked in the order the index
  returns them. The walk stops at the first hit whose relevance score is below
  the literal cut-off 0.5. Each hit before that point is aligned against the
  tokenized query, either as a whole document or section by section. The walk
  also counts the kept hits whose `state` equals the `state_id` keyword argument.
- **`retrieve_similar_bills`** (module `Retrieval`, `retrieval.dfy`). A bill is
  fetched and its cleaned text is sent to the index. The result is one
  `{id, score, state}` summary per hit. Any exception except `KeyboardInterrupt`
  and `SystemExit` is logged with a sanitised one-line traceback, and the bill
  gets an empty list. Those two interrupts propagate.
- **Trace sanitisation** (module `Text`, `text.dfy`, used by
  `Retrieval.SanitiseTrace`). Runs of newlines become one tab. Then runs of
  whitespace become one space. The result is wrapped in `<<…>>`.
- **The batch runs** (module `Batch`, `batch.dfy`): `precompute_bill_similarity`
  and the `compute_bill_similarity_matrix` command of `main`. Ids are read one
  per line and stripped. `pool.map` is an in-order map. Each item opens its
  own connection, so each position of the map sees its own backend
  (`Batch.World`). The command folds the returned pairs into one JSON object,
  and a later duplicate id overwrites an earlier one.

The collaborators whose code is not part of this model are fields of function
type: `clean_document`, `alignment_tokenizer`, the aligner's `align` and
`align_by_section`, `clean_text_for_query`, and the index and document-store
calls of `ElasticConnection`. Every property below holds for every choice of
them. In `retrieve_similar_bills`, each such call returns a value or the
exception it raised (`Retrieval.Step`). Relevance scores are `real`. The only
thing done with them is comparison against the cut-off.

`search.dfy` holds `Option`, which stands for Python's `None`, and the index hit
and summary records. A hit's `bill_document_last` is optional.

The model follows the code as written; four of its behaviours are worth noting:

- The cut-off is the literal 0.5 (line 79). The configurable threshold the
  constructor stores (line 40) is never read.
- A kept candidate with missing or empty text is still cleaned and aligned.
- `kwargs['state_id']` is read for each kept candidate. If the key is absent,
  the first kept candidate raises `KeyError` (`Lid.Outcome.MissingStateId`).
  With no kept candidates, nothing is raised.
- In section mode, a cleaned query that is a string and not a list is iterated
  character by character, as Python 2 iterates a `str`.

## Model

| member | source | states |
|---|---|---|
| `Lid.KeptCount` | lid/lid.py:78-80 | The number of candidates the loop keeps is the length of the longest prefix of the hits scoring at least the cut-off. If a hit follows that prefix, it scores below the cut-off. |
| `Lid.AlignCandidates` | lid/lid.py:75-96 | The loop returns exactly that prefix's length of alignments. The i-th alignment is the i-th hit aligned against the query, so hit order is preserved. `num_states` counts the kept hits whose state equals `kwargs["state_id"]`, so it never exceeds the number of alignments. A missing `state_id` raises exactly when some hit is kept. |
| `Lid.FindAlignments` | lid/lid.py:44-96 | For the hits the index returns on the cleaned query, the alignments are `align_by_section(sections, candidate)` when `split_sections` is set and `align(tokens, candidate)` otherwise. Each candidate is cleaned with its own state and then tokenized. No hit at or after the first one scoring below 0.5 is aligned. `num_states` is the count of matching states among the kept hits. |
| `Lid.ThresholdNotConsulted` | lid/lid.py:37-40 | Changing the `score_threshold` an object was built with does not change what `find_alignments` returns. |
| `Lid.EarlyExitExample` | lid/lid.py:78-80 | With scores 0.9, 0.7, 0.4 and 0.8, exactly the first two candidates are aligned, although the fourth scores above the cut-off. |
| `Lid.ElasticQuery` | lid/lid.py:59-71 | The index is queried with the text that section mode aligns. For a non-empty list of sections, splitting the space-joined query on spaces gives the space-separated pieces of each section in turn. When no section holds a space, these are the sections themselves, in order. An empty list is sent as the empty query. For a cleaned string, the query is the concatenation of the one-character items that section mode visits. |
| `Lid.DefaultsAgree` | lid/lid.py:25-40 | An object built with the constructor's defaults asks the index for 100 results, and cutting at its stored threshold gives the same result as the literal cut-off. |
| `Lid.DefaultCallRaises` | lid/lid.py:44-81 | Called with its defaults (a plain text query, no sections, no keyword arguments), `find_alignments` raises `KeyError` exactly when the first hit the index returns scores at least 0.5. |
| `Lid.FindAlignmentsConfigured` | lid/lid.py:40 | Cutting at the stored `score_threshold` keeps the longest prefix scoring at least that threshold. Every aligned hit scores at least the threshold. |
| `Lid.ConfiguredAgreesAtDefault` | lid/lid.py:26 | With the default threshold 0.5, cutting at the configured threshold gives the same result as the literal cut-off. |
| `Lid.ThresholdIgnoredExample` | lid/lid.py:79 | An object built with `score_threshold=0.9` still aligns a hit scoring 0.7. Cutting at the configured threshold aligns nothing. |
| `Text.SplitJoin` | lid/lid.py:59-60 | A sectioned query is joined with single spaces. Splitting that text on spaces gives the sections back when no section contains a space. |
| `Text.SplitAppend` | lid/lid.py:59-60 | Splitting two texts joined by one separator gives the parts of the first followed by the parts of the second. |
| `Text.SplitJoinAll` | lid/lid.py:59-60 | Splitting a non-empty list of sections joined by the separator gives each section's own parts in turn, whatever the sections hold. |
| `Search.Summaries` | lid/lid.py:121 | There is one summary per hit, in hit order. Each copies the hit's id, score and state. |
| `Retrieval.TryBlock` | lid/lid.py:109-126 | The try block raises exactly the exception of the first call that does not return. Every call before that one returned. |
| `Retrieval.RetrieveSimilarBills` | lid/lid.py:108-136 | Any returned pair carries the input id. A bill with no text gives an empty list. A successful query gives one summary per hit, in order, with id, score and state copied. A non-interrupt exception gives a failure whose report is the id with an empty list. `KeyboardInterrupt` and `SystemExit` propagate unchanged. The call succeeds exactly when nothing raises. |
| `Retrieval.RaisesUnique` | lid/lid.py:109-126 | A single run of the try block raises at most one exception, so the handler's choice between re-raising and converting is determined. |
| `Retrieval.ReportedPair` | lid/lid.py:116-136 | The pair a returning call gives back is the input id with the `{id, score, state}` projection of the hits of the similarity query. The list is empty when the bill has no text or when some step raised an error. |
| `Retrieval.SanitiseTrace` | lid/lid.py:131-133 | The logged traceback starts with `<<` and ends with `>>`. Its body is the whitespace collapse of the traceback, so the newline-to-tab step has no effect on the result. The body keeps every non-whitespace character in order, holds no whitespace but single spaces, and never has two spaces in a row. |
| `Retrieval.SanitisedIsOneLine` | lid/lid.py:131-133 | Between the `<<` and `>>` markers, every whitespace character is a space and is not followed by another whitespace character. |
| `Text.CollapseShape` | lid/lid.py:131-132 | After `re.sub("C+", rep, s)`, every class character is `rep`, and no two class characters are adjacent. |
| `Text.CollapseRun` | lid/lid.py:132 | A non-empty run of whitespace is replaced by exactly one space. |
| `Text.CollapseAppend` | lid/lid.py:132 | The collapse works run by run. It distributes over concatenation at any point that is not inside a run, that is, where the left part does not end or the right part does not start with whitespace. |
| `Text.CollapseExample` | lid/lid.py:132 | `"a  b"` becomes `"a b"`. |
| `Text.CollapseKeepsOthers` | lid/lid.py:132 | Collapsing whitespace runs keeps every non-whitespace character, in order. |
| `Text.CollapseFixpoint` | lid/lid.py:132 | A string is unchanged by the collapse exactly when it already has the collapsed shape. |
| `Text.CollapseIdempotent` | lid/lid.py:132 | Applying the whitespace collapse a second time changes nothing. |
| `Text.NewlineStepSubsumed` | lid/lid.py:131-132 | Turning newline runs into a tab before collapsing whitespace gives the same string as collapsing whitespace alone. |
| `Text.Strip` | lid/lid.py:163 | `str.strip()` returns the contiguous part of the line between its leading and trailing whitespace. The result is empty exactly when the line is all whitespace. Otherwise it neither starts nor ends with whitespace. |
| `Text.StripIdempotent` | lid/lid.py:163 | Stripping an already stripped id changes nothing. |
| `Batch.ReadBillIds` | lid/lid.py:141 | There is one id per line of the id file, in file order. Each id is its line stripped and is already stripped. |
| `Batch.Collect` | lid/lid.py:165-166 | The map completes exactly when no item's call was interrupted, and then holds each call's reported pair in order. Otherwise it carries the interrupt of the first interrupted item. |
| `Batch.PoolMap` | lid/lid.py:165-166 | `pool.map` completes exactly when no item raises an interrupt. Then it returns one pair per id, in id order. Each pair carries its own id and the list that item's own call produced, and a failed item does not affect the others. An abort reports the interrupt of the first interrupted item in id order. |
| `Batch.PrecomputeBillSimilarity` | lid/lid.py:138-146 | The run completes exactly when no line's call raises an interrupt. Then the result has one pair per line of the id file, in order. Each pair is the stripped id and the list that line's call produced. An interrupt in any line's call stops the run and is the one reported. |
| `Batch.BuildJsonObject` | lid/lid.py:168-170 | The JSON object's keys are exactly the ids in the results. Each key holds the list of the last pair with that id. |
| `Batch.ComputeBillSimilarityMatrix` | lid/lid.py:163-170 | The JSON object is written exactly when no line's call raises an interrupt. Otherwise the run stops with the interrupt raised by one of the calls. When it is written, every id of the file is a key and nothing else is. Each key holds the list produced by the call for the last line with that id. When every call for an id produced the same list, the key holds that list whatever the order or repetition of ids. |
| `Batch.OneEntryPerDistinctId` | lid/lid.py:168-170 | When the stripped ids are pairwise distinct, the object has exactly one entry per line. |
| `Retrieval.AsWrittenAlwaysFails` | lid/lid.py:110 | With the connection step raising `NameError`, as the unbound name `database` makes it do, every bill fails and is reported as its id with an empty list. |
| `Batch.AsWrittenBatchAllEmpty` | lid/lid.py:110 | As written, a batch run always completes, and every line's id maps to an empty list. |

## Left out

- The aligner (`LocalAligner.align` and `align_by_section`) is not part of this model. Its results are an opaque type `A`.
- `clean_document`, `alignment_tokenizer` and `clean_text_for_query` are not part of this model. They are function parameters. The document type is passed through as an opaque string.
- `ElasticConnection` is not part of this model, including its host and port, `similar_doc_query` and `get_bill_by_id`. Its answers are inputs. In `retrieve_similar_bills`, each call is a function that may raise.
- Lid.FindAlignments: exceptions raised by the cleaner, tokenizer, index or aligner propagate unchanged to the caller. The model treats these collaborators as total there. So is a `KeyError` from a hit lacking `score`, `state` or `bill_document_last` (lines 79-85): `search` returns complete hits. The only raised case modelled is the `KeyError` on `state_id`.
- In `retrieve_similar_bills`, reading `id`, `score` and `state` of each hit (line 121) is part of the `similar` step, so a missing field is one of the errors that step may raise.
- The `print` statements (lines 82, 84, 95), `logging.info` at line 115 and the `logging.error` call at line 135 are output only. The error line's text is `Retrieval.FailureMessage`, but no log is written.
- `del` of local names (lines 123-125) has no observable effect and is omitted.
- Batch.PoolMap: `multiprocessing.Pool(processes = 7)` is modelled as a sequential in-order map. Worker processes, scheduling and how the pool surfaces an interrupt raised inside a worker are pool-internal. When several items are interrupted, the model reports the first in id order.
- The model does not cover reading `bill_ids.txt` (the path comes from the `POLICY_DIFFUSION` environment variable) or writing `bill_similarity_matrix.json`. Nor does it cover `json.dumps`, `argparse`, the command-name check or the logging configuration. The file's lines are an input, and the JSON object is the output.
- `precompute_bill_similarity` ignores its `ec` argument, and the model has no such parameter.
- Scores are `real`. Floating-point rounding is not modelled, since only the `<` comparison with the cut-off is used.

## Findings

| source | as written | input that shows it | evidently intended | confidence | as-written member | corrected member |
|---|---|---|---|---|---|---|
| lid/lid.py:110 | `database.ElasticConnection()` is called, but line 6 imports only `ElasticConnection`, so `database` is unbound. `clean_text_for_query` at line 119 is never imported either. | any bill id: the call raises `NameError`, the catch-all turns it into `(bill_id, [])`, and every bill of a batch gets an empty list | open the connection with the imported `ElasticConnection` and reach the index | high (not executed) | `Retrieval.AsWrittenAlwaysFails` | `Retrieval.RetrieveSimilarBills` |
| lid/lid.py:79 | the cut-off is the literal `0.5`, and the `score_threshold` stored at line 40 is never read | `score_threshold=0.9` and one hit scoring 0.7: the hit is aligned | stop at the first hit scoring below `self.score_threshold` | medium (not executed) | `Lid.ThresholdIgnoredExample` | `Lid.FindAlignmentsConfigured` |

For the first finding, the model keeps the connection step abstract: it may fail
or succeed. `Retrieval.AsWritten` pins it to the `NameError` the module as
written raises. For the second, `Lid.FindAlignments` is the code as written, and
`Lid.FindAlignmentsConfigured` is the corrected variant. Both share the candidate
loop `Lid.AlignCandidates`, so every property of the loop holds for both.
