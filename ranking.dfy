/**
 * What one ranking call does, as a function of the cache it starts from: the
 * empty short-circuit, the scorer that cannot be loaded, the parse-cache step,
 * and the scores the scorer returns for the scratch files.
 */
module Ranking {
  import opened Wrappers
  import opened Confidence
  import opened ParseCache

  /** What the scorer reads: the question, each candidate's triple patterns, and the scratch parse files. */
  datatype ScoringInput = ScoringInput(
    question: string,
    queries: seq<seq<string>>,
    tokenLines: seq<string>,
    parentLines: seq<string>)

  /**
   * The pre-trained similarity scorer: whether its vocabulary, embeddings and
   * checkpoint load, and its batch test, which yields scores or raises (None).
   */
  datatype Scorer = Scorer(loadable: bool, test: ScoringInput -> Option<seq<real>>)

  /** Why a ranking call raised. */
  datatype RankError = ScorerUnavailable | ParseFailed | ScoringFailed

  /** The outcome of one ranking call: the scores or the error, the cache afterwards, whether the parser ran. */
  datatype Ranked = Ranked(scores: Result<seq<real>, RankError>, cache: Cache, parsed: bool)

  /** The `where` clauses of the candidates, in order. */
  function Queries(candidates: seq<Candidate>): (queries: seq<seq<string>>)
    ensures |queries| == |candidates|
    ensures forall i :: 0 <= i < |candidates| ==> queries[i] == candidates[i].where
  {
    seq(|candidates|, i requires 0 <= i < |candidates| => candidates[i].where)
  }

  /** The scorer's input once the parse of `question` is known: its lines repeated once per candidate. */
  function ScoringInputFor(question: string, candidates: seq<Candidate>, entry: ParseEntry): ScoringInput {
    ScoringInput(question, Queries(candidates), Repeat(entry.tokens, |candidates|), Repeat(entry.parents, |candidates|))
  }

  /** Running the scorer's batch test, a raise becoming `ScoringFailed`. */
  function Score(scorer: Scorer, input: ScoringInput): Result<seq<real>, RankError> {
    match scorer.test(input)
    case Some(scores) => Success(scores)
    case None => Failure(ScoringFailed)
  }

  /** One ranking call of `candidates` for `question`, starting from `cache`. */
  function RankSpec(cache: Cache, question: string, candidates: seq<Candidate>, scorer: Scorer, parser: Parser): (r: Ranked)
    ensures candidates == [] ==> r == Ranked(Success([]), cache, false)
    ensures candidates != [] && !scorer.loadable ==> r == Ranked(Failure(ScorerUnavailable), cache, false)
    ensures candidates != [] && scorer.loadable ==>
              r.cache == Acquire(cache, question, parser).cache && r.parsed == Acquire(cache, question, parser).parsed
    ensures candidates != [] && scorer.loadable && Acquire(cache, question, parser).entry.None? ==>
              r.scores == Failure(ParseFailed)
    ensures candidates != [] && scorer.loadable && Acquire(cache, question, parser).entry.Some? ==>
              r.scores == Score(scorer, ScoringInputFor(question, candidates, Acquire(cache, question, parser).entry.value))
    ensures r.parsed ==> question !in cache
    ensures forall q :: q in cache ==> q in r.cache && r.cache[q] == cache[q]
    ensures r.scores.Success? && candidates != [] ==>
              question in r.cache && Some(r.scores.value) == scorer.test(ScoringInputFor(question, candidates, r.cache[question]))
  {
    if candidates == [] then Ranked(Success([]), cache, false)
    else if !scorer.loadable then Ranked(Failure(ScorerUnavailable), cache, false)
    else
      var a := Acquire(cache, question, parser);
      match a.entry
      case None => Ranked(Failure(ParseFailed), a.cache, a.parsed)
      case Some(entry) => Ranked(Score(scorer, ScoringInputFor(question, candidates, entry)), a.cache, a.parsed)
  }

  /** The scores confidence is attached from: the ranker's, or one `FailedRankScore` per candidate when it raised. */
  function ScoresOrFallback(scores: Result<seq<real>, RankError>, n: nat): (s: seq<real>)
    ensures scores.Success? ==> s == scores.value
    ensures scores.Failure? ==> s == FailedRankScores(n)
  {
    match scores
    case Success(values) => values
    case Failure(_) => FailedRankScores(n)
  }

  /**
   * Ranking the same question twice over the same candidates: the second call
   * finds the question cached, leaves the cache alone, does not parse, and
   * hands the scorer the same scratch files as the first call did.
   */
  lemma RankTwiceParsesOnce(cache: Cache, question: string, candidates: seq<Candidate>, scorer: Scorer, parser: Parser)
    requires candidates != [] && scorer.loadable
    ensures var first := RankSpec(cache, question, candidates, scorer, parser);
            var second := RankSpec(first.cache, question, candidates, scorer, parser);
            question in first.cache ==>
              second.cache == first.cache && !second.parsed && second.scores == first.scores
  {
  }
}
