/**
 * The orchestrator: it owns the dependency-parse cache, ranks candidate
 * queries with the external scorer, and turns a question into a list of
 * confidence-annotated candidate queries with the question type.
 */
module Orchestration {
  import opened Wrappers
  import opened Labels
  import opened QueryShape
  import opened Confidence
  import opened ParseCache
  import opened Ranking

  /** What `GenerateQuery` returns: the candidates in their original order, the question type and its probability. */
  datatype Answer = Answer(candidates: seq<Candidate>, questionType: int, typeConfidence: real)

  /**
   * Why `GenerateQuery` raised: there is no question classifier to ask for the
   * type probability, or the question type is not a column of its probability row.
   */
  datatype GenerateError = NoQuestionClassifier | ClassIndexOutOfRange

  class Orchestrator {
    const questionClassifier: Option<Classifier>
    /** The external dependency parser run on a cache miss. */
    const parser: Parser
    /** Question text to its stored parse; grows, never shrinks. */
    var depTreeCache: Cache
    /** The cache as last written to its file. */
    ghost var persistedCache: Cache
    /** How often the dependency parser has run. */
    ghost var depParseCalls: nat

    /** The cache file always holds the in-memory cache: every new entry is written out before ranking goes on. */
    ghost predicate Valid()
      reads this
    {
      persistedCache == depTreeCache
    }

    /** Starts with the stored cache when its file exists, else with an empty one. */
    constructor (questionClassifier: Option<Classifier>, parser: Parser, storedCache: Option<Cache>)
      ensures Valid()
      ensures this.questionClassifier == questionClassifier && this.parser == parser
      ensures depTreeCache == (if storedCache.Some? then storedCache.value else map[])
      ensures depParseCalls == 0
    {
      this.questionClassifier := questionClassifier;
      this.parser := parser;
      var cache: Cache := if storedCache.Some? then storedCache.value else map[];
      depTreeCache := cache;
      persistedCache := cache;
      depParseCalls := 0;
    }

    /**
     * Scores the candidates for `question`. No candidates: no scores and no
     * other effect. Otherwise the scorer must load; then the question's parse is
     * taken from the cache, or produced by one parser run and stored and
     * persisted; its lines are repeated once per candidate for the scorer.
     */
    method Rank(question: string, walks: seq<Candidate>, scorer: Scorer) returns (scores: Result<seq<real>, RankError>)
      requires Valid()
      modifies this
      ensures Valid()
      ensures var r := RankSpec(old(depTreeCache), question, walks, scorer, parser);
              scores == r.scores && depTreeCache == r.cache &&
              depParseCalls == old(depParseCalls) + (if r.parsed then 1 else 0)
      ensures walks == [] ==> unchanged(this)
    {
      if |walks| == 0 {
        return Success([]);
      }
      if !scorer.loadable {
        return Failure(ScorerUnavailable);
      }
      var tokenLines, parentLines;
      if question in depTreeCache {
        var cacheItem := depTreeCache[question];
        tokenLines, parentLines := WriteParseLines(cacheItem, |walks|);
      } else {
        var parsed := parser(question);
        depParseCalls := depParseCalls + 1;
        if parsed.None? {
          return Failure(ParseFailed);
        }
        var entry := parsed.value;
        // the parser writes one line per candidate; the first line of each file is kept
        tokenLines, parentLines := Repeat(entry.tokens, |walks|), Repeat(entry.parents, |walks|);
        depTreeCache := depTreeCache[question := entry];
        persistedCache := depTreeCache;
      }
      scores := Score(scorer, ScoringInput(question, Queries(walks), tokenLines, parentLines));
    }

    /**
     * Answers a question. The type is the supplied one, else the classifier's,
     * else SELECT; its probability comes from the classifier, which must exist.
     * `search` stands for subgraph search followed by query building under the
     * derived flags. No candidates: they are returned with type confidence 0 and
     * nothing is ranked. Otherwise a ranking that raises is replaced by a score
     * of 1.1 for every candidate, and every candidate gets its confidence in
     * place, in the original order.
     */
    method GenerateQuery(question: string, suppliedType: Option<int>, search: QueryFlags -> seq<Candidate>, scorer: Scorer)
      returns (outcome: Result<Answer, GenerateError>)
      requires Valid()
      modifies this
      ensures Valid()
      ensures questionClassifier.None? ==> outcome == Failure(NoQuestionClassifier) && unchanged(this)
      ensures questionClassifier.Some? ==>
                var questionType := ResolveQuestionType(suppliedType, questionClassifier, question);
                var typeConfidence := ClassProbability(questionClassifier.value.predictProba(question), questionType);
                var walks := search(ShapeFlags(questionType));
                var ranked := RankSpec(old(depTreeCache), question, walks, scorer, parser);
                if typeConfidence.None? then
                  outcome == Failure(ClassIndexOutOfRange) && unchanged(this)
                else if walks == [] then
                  outcome == Success(Answer([], questionType, 0.0)) && unchanged(this)
                else
                  outcome == Success(Answer(Attached(walks, ScoresOrFallback(ranked.scores, |walks|)),
                                            questionType, typeConfidence.value)) &&
                  depTreeCache == ranked.cache &&
                  depParseCalls == old(depParseCalls) + (if ranked.parsed then 1 else 0)
    {
      var questionType := ResolveQuestionType(suppliedType, questionClassifier, question);
      var flags := ShapeFlags(questionType);
      if questionClassifier.None? {
        return Failure(NoQuestionClassifier);
      }
      var typeConfidence := ClassProbability(questionClassifier.value.predictProba(question), questionType);
      if typeConfidence.None? {
        return Failure(ClassIndexOutOfRange);
      }
      var found := search(flags);
      if |found| == 0 {
        return Success(Answer(found, questionType, 0.0));
      }
      var ranked := Rank(question, found, scorer);
      var scores := ScoresOrFallback(ranked, |found|);
      var walks := new Candidate[|found|](i requires 0 <= i < |found| => found[i]);
      assert walks[..] == found;
      AttachConfidence(walks, scores);
      outcome := Success(Answer(walks[..], questionType, typeConfidence.value));
    }
  }
}
