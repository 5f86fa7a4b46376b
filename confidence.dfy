/**
 * Attaching a confidence to every candidate query from the ranker's raw
 * scores: `score - 1` where a score exists, a fixed fallback beyond the end
 * of a short score list, and a uniform fallback score when ranking failed.
 */
module Confidence {
  import opened Wrappers

  /**
   * A candidate query: its triple patterns (the `where` clause) and its
   * `confidence` entry, absent until confidence is attached.
   */
  datatype Candidate = Candidate(where: seq<string>, confidence: Option<real>)

  /** Subtracted from every raw score. */
  const ScoreOffset: real := 1.0
  /** The confidence of a candidate beyond the end of the score list. */
  const MissingScoreConfidence: real := 0.3
  /** The raw score every candidate gets when ranking failed. */
  const FailedRankScore: real := 1.1

  /** The confidence of the candidate at `idx` given the raw scores. */
  function ConfidenceAt(scores: seq<real>, idx: nat): real {
    if idx >= |scores| then MissingScoreConfidence else scores[idx] - ScoreOffset
  }

  /** The scores substituted when ranking raised: one `FailedRankScore` per candidate. */
  function FailedRankScores(n: nat): (scores: seq<real>)
    ensures |scores| == n
    ensures forall i :: 0 <= i < n ==> scores[i] == FailedRankScore
  {
    seq(n, _ => FailedRankScore)
  }

  /** The candidate list after confidence attachment: same order, only `confidence` set. */
  function Attached(candidates: seq<Candidate>, scores: seq<real>): (r: seq<Candidate>)
    ensures |r| == |candidates|
    ensures forall i :: 0 <= i < |r| ==> r[i] == candidates[i].(confidence := Some(ConfidenceAt(scores, i)))
  {
    seq(|candidates|, i requires 0 <= i < |candidates| => candidates[i].(confidence := Some(ConfidenceAt(scores, i))))
  }

  /**
   * Sets each candidate's confidence in place, walking the list by index:
   * `scores[idx] - 1` while a score exists, `MissingScoreConfidence` after.
   */
  method AttachConfidence(walks: array<Candidate>, scores: seq<real>)
    modifies walks
    ensures walks[..] == Attached(old(walks[..]), scores)
  {
    for idx := 0 to walks.Length
      invariant forall i :: 0 <= i < idx ==> walks[i] == old(walks[i]).(confidence := Some(ConfidenceAt(scores, i)))
      invariant forall i :: idx <= i < walks.Length ==> walks[i] == old(walks[i])
    {
      if idx >= |scores| {
        walks[idx] := walks[idx].(confidence := Some(MissingScoreConfidence));
      } else {
        walks[idx] := walks[idx].(confidence := Some(scores[idx] - ScoreOffset));
      }
    }
  }

  /** Attachment keeps every candidate's query and position, and sets every confidence. */
  lemma AttachedKeepsQueries(candidates: seq<Candidate>, scores: seq<real>)
    ensures |Attached(candidates, scores)| == |candidates|
    ensures forall i :: 0 <= i < |candidates| ==>
              Attached(candidates, scores)[i].where == candidates[i].where &&
              Attached(candidates, scores)[i].confidence.Some?
  {
  }

  /** Candidates with a score get `score - 1`; candidates past the end of a short list get 0.3. */
  lemma AttachedConfidences(candidates: seq<Candidate>, scores: seq<real>)
    ensures forall i :: 0 <= i < |candidates| && i < |scores| ==>
              Attached(candidates, scores)[i].confidence == Some(scores[i] - 1.0)
    ensures forall i :: |scores| <= i < |candidates| ==>
              Attached(candidates, scores)[i].confidence == Some(0.3)
  {
  }

  /**
   * After a failed ranking every candidate has the same confidence `1.1 - 1`,
   * which differs from the short-list fallback 0.3.
   */
  lemma FailedRankIsUniform(candidates: seq<Candidate>)
    ensures forall i :: 0 <= i < |candidates| ==>
              Attached(candidates, FailedRankScores(|candidates|))[i].confidence == Some(1.1 - 1.0)
    ensures 1.1 - 1.0 != MissingScoreConfidence
  {
  }
}
