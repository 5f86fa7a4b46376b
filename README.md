# Orchestrator of a knowledge-base question-answering pipeline (Dafny model)

This project models the decision and bookkeeping logic of the `Orchestrator`
class of SQG (`orchestrator.py`), which turns a question plus linked entities
and relations into candidate SPARQL `where` clauses with confidences:

- the **training-label rules** that build the question-type and
  double-relation classifier datasets from a question/answer corpus
  (`labels.dfy`, `datasets.dfy`);
- the **question type and query-shape flags** of a request
  (`query_shape.dfy`);
- the **confidence attachment** with its two fallbacks, done in place over the
  candidate list (`confidence.dfy`);
- the **dependency-parse cache**, keyed by the exact question text
  (`parse_cache.dfy`), and what one ranking call does with it (`ranking.dfy`);
- the `Orchestrator` class itself, with the cache as a `map` field, `Rank` and
  `GenerateQuery` (`orchestrator.dfy`).

Everything the orchestrator calls out to is a parameter: the classifier is a
pair of functions (`predict`, `predictProba`), the dependency parser a
function from question to an optional `(tokens, parents)` entry, subgraph
search followed by query building a function from the shape flags to the
candidate list, and the similarity scorer a flag saying whether its model
files load plus a batch test from the scratch files to an optional score list
(None meaning it raised). Floating-point values are Dafny `real`s.

In these places the model follows what the code does:

- `rank` returns `[]` for an empty candidate list instead of requiring one.
- The confidence `score - 1` is not confined to [0, 1].
- With no question classifier, the type does default to SELECT, but
  `generate_query` then reads the class probability from the missing
  classifier and raises. `GenerateQuery` returns `Failure(NoQuestionClassifier)`
  in that case, whatever type was supplied.
- The class probability is read with Python's list indexing: a negative type
  counts from the end of the row, and a type past either end raises
  (`Failure(ClassIndexOutOfRange)`).

The ghost field `persistedCache` stands for the cache file and the class
invariant `Valid()` says it always equals the in-memory cache: each new entry
is written out before ranking continues. The ghost counter `depParseCalls`
counts dependency-parser runs.

## Model

| member | source | states |
|---|---|---|
| Labels.Contains | orchestrator.py:59-61 | `pat in s` holds exactly when `pat` occurs at some offset of `s` |
| Labels.QuestionTypeLabel | orchestrator.py:59-64 | the label is 2 iff the query contains `COUNT(` (even with `ASK WHERE`), 1 iff it contains `ASK WHERE` but not `COUNT(`, 0 iff it contains neither |
| Labels.RelationUris | orchestrator.py:80 | the filtered list keeps every URI that passes the ontology-or-type test exactly as often as it occurs in the query, and no other URI |
| Labels.ElementsCardinality | orchestrator.py:81 | a list's set is never larger than the list, and equals it in size exactly when no value occurs twice |
| Labels.DoubleRelationLabel | orchestrator.py:81-84 | the label is 1 iff the filtered URI list holds some value twice (its length differs from the size of its set), and 0 iff it does not |
| Labels.FilteredRepeat | orchestrator.py:80-81 | the filtered list holds a value twice exactly when some ontology/type URI occurs at two positions of the query |
| Labels.DoubleRelationLabelMeaning | orchestrator.py:80-84 | the double-relation label is 1 iff some ontology/type URI occurs at two positions of the query's URI list, and 0 iff none does |
| Labels.DoubleRelationExamples | orchestrator.py:80-84 | for distinct relation URIs A and B, `[A, B, A]` is labelled 1 and `[A, B]` is labelled 0 |
| Datasets.PrepareQuestionClassifierDataset | orchestrator.py:55-66 | X and y have one entry per corpus entry, X[i] is the i-th question text and y[i] the question-type label of its query |
| Datasets.PrepareDoubleRelationClassifierDataset | orchestrator.py:76-86 | X and y have one entry per corpus entry, X[i] is the i-th question text and y[i] is the double-relation label of its URIs, 1 iff an ontology/type URI occurs twice in its query |
| QueryShape.ResolveQuestionType | orchestrator.py:173-176 | a supplied type is kept; otherwise the classifier's prediction; with no classifier the type is 0 |
| QueryShape.ShapeFlags | orchestrator.py:169-186 | count_query iff the type is 2, ask_query iff the type is 1 (never both), sort_query and double_relation always false |
| QueryShape.ClassProbability | orchestrator.py:182 | the type's probability is found iff the type indexes the row from the front or, negatively, from the back; out of range raises |
| Confidence.FailedRankScores | orchestrator.py:226 | after a failed ranking there is one score per candidate and every one is 1.1 |
| Confidence.AttachConfidence | orchestrator.py:227-231 | each array cell is its old candidate with only its confidence set, to `scores[i] - 1` or 0.3 past the end of the scores |
| Confidence.AttachedKeepsQueries | orchestrator.py:227-233 | attachment keeps the length, the order and every candidate's query, and sets every confidence |
| Confidence.AttachedConfidences | orchestrator.py:228-231 | candidate i gets `scores[i] - 1` when i is below the score count, 0.3 otherwise |
| Confidence.FailedRankIsUniform | orchestrator.py:223-231 | after a failed ranking every candidate gets the same confidence `1.1 - 1`, which differs from the 0.3 of a short score list |
| ParseCache.Acquire | orchestrator.py:141-159 | on a hit the cache is unchanged, nothing is parsed and the cached entry is used; on a miss the parser runs once and its entry is stored under the question, every other key and value unchanged; a failed parse stores nothing |
| ParseCache.WriteParseLines | orchestrator.py:145-149 | the scratch token and parent files hold the cached lines, each exactly once per candidate |
| ParseCache.AcquireTwice | orchestrator.py:141-156 | once a parse is stored, acquiring the same question again is a hit with the same entry, no parse and no cache change |
| ParseCache.ParsesOncePerQuestion | orchestrator.py:141-156 | over any sequence of questions the parser runs exactly once per distinct question that was not cached, when it succeeds |
| Ranking.Queries | orchestrator.py:129-131 | the scorer gets one query per candidate, the candidate's `where` clause, in order |
| Ranking.RankSpec | orchestrator.py:100-163 | no candidates: `[]` with no cache change or parse; scorer not loadable: failure with no cache change; otherwise the cache evolves as `Acquire`, a failed parse gives `ParseFailed`, and a parse (cached or fresh) gives exactly the scorer's outcome for the question's parse lines repeated once per candidate |
| Ranking.ScoresOrFallback | orchestrator.py:223-226 | the scores used are the ranker's, or 1.1 for every candidate when ranking raised |
| Ranking.RankTwiceParsesOnce | orchestrator.py:141-159 | ranking a question a second time leaves the cache unchanged, does not parse, and yields the same scores as the first time |
| Orchestration.Orchestrator.constructor | orchestrator.py:40-45 | the cache starts as the stored cache when its file exists, else empty, and equals what is persisted |
| Orchestration.Orchestrator.Rank | orchestrator.py:100-163 | the returned scores, the new cache and the parse count are those of `RankSpec` on the old cache; the persisted cache still equals the in-memory one |
| Orchestration.Orchestrator.GenerateQuery | orchestrator.py:168-233 | without a classifier or with a type outside the probability row it raises and changes nothing; no candidates: returns `[]`, the type and confidence 0 with nothing ranked; otherwise returns the candidates in original order with confidences attached from the ranker's scores or the 1.1 fallback, the type and its probability |

## Left out

- Classifier training during construction and `train_question_classifier` / `train_double_relation_classifier` (orchestrator.py:34-38, 88-98): they call scikit-learn's `train_test_split` and the classifiers' own `train`, which are external; the fixed-seed split is therefore not modelled.
- Loading the LC-QuAD corpus (orchestrator.py:47-54, 68-75): the parsed corpus is a parameter of the dataset methods.
- The URI's `is_ontology()` / `is_type()` test: a parameter `isRelation`; URIs compare by their text.
- Scorer construction and inference (orchestrator.py:106-127, 160-163): torch, the vocabulary, the Tree-LSTM and its trainer are the `Scorer` parameter; writing the scorer's dataset with `preprocess_lcquad.split`/`save_split` (orchestrator.py:129-139) is folded into its `loadable` flag.
- The token-only parse run on a cache hit (orchestrator.py:142): it produces no dependency parse and nothing the model observes.
- On a cache miss the scratch files are written by the parser itself; the model takes them to be the parser's first token and parent lines repeated once per candidate, since every row holds the same question and the parser is deterministic.
- Reading and writing the cache file (orchestrator.py:41-45, 158-159): the stored cache is a constructor parameter and each write is the ghost assignment of `persistedCache`.
- Subgraph search and query building (orchestrator.py:192-197): one `search` parameter from shape flags to candidates; entities, relations and the hop threshold are inside it, and their own exceptions are not modelled.
- The unwrapping of a nested probability (orchestrator.py:183-184): runtime shape checking of a foreign return value; `predict` is modelled as returning the class itself.
- The double-relation classifier and the logger: the classifier is used only for training and in code that is commented out, so `doubleRelation` is always false; the logger is never used by the modelled code.
- Orchestration.Orchestrator.GenerateQuery: returns the annotated candidates as a sequence value, not the caller's list object, so aliasing of the candidate records between search output and result is not captured; candidates carry only their `where` clause and `confidence`, other keys of the record being untouched.
- Floating-point rounding of `1.1 - 1` and `score - 1`: reals are exact.
- The demonstration block under `__main__` (orchestrator.py:236-287) and `feature_extraction_order/experiments.py`: experiment scripts around external classifiers and file I/O.
