/**
 * The selection loop of `evaluate_models`: each family's cross-validated model
 * is scored on the validation frame, and a running best (starting from score 0
 * and no model) is replaced only by a strictly greater score, with a log line
 * for each replacement. Fitting and scoring are the ML library's; here each
 * candidate arrives with its fitted model (an opaque token) and its score.
 */
module Selection {
  import opened Wrappers

  datatype Candidate<M> = Candidate(name: string, model: M, score: real)

  /** The best score after the first `k` iterations of the loop. */
  function RunningBest<M>(cands: seq<Candidate<M>>, k: nat): real
    requires k <= |cands|
  {
    if k == 0 then 0.0
    else
      var before := RunningBest(cands, k - 1);
      if cands[k - 1].score > before then cands[k - 1].score else before
  }

  /** The names logged by the first `k` iterations: those whose score beat the running best. */
  function Improvements<M>(cands: seq<Candidate<M>>, k: nat): seq<string>
    requires k <= |cands|
  {
    if k == 0 then []
    else Improvements(cands, k - 1) + (if cands[k - 1].score > RunningBest(cands, k - 1) then [cands[k - 1].name] else [])
  }

  /**
   * Candidate `i` wins among the first `k`: its score is positive, strictly
   * above every earlier score and at least every later one.
   */
  ghost predicate WinsAmong<M>(cands: seq<Candidate<M>>, k: int, i: int)
    requires 0 <= k <= |cands|
  {
    && 0 <= i < k
    && cands[i].score > 0.0
    && (forall j :: 0 <= j < i ==> cands[j].score < cands[i].score)
    && (forall j :: i < j < k ==> cands[j].score <= cands[i].score)
  }

  /** Lines 72-83: the model kept, its score, and the names logged on the way. */
  method SelectBest<M>(cands: seq<Candidate<M>>) returns (best: Option<M>, bestScore: real, logged: seq<string>)
    ensures best.None? <==> forall j :: 0 <= j < |cands| ==> cands[j].score <= 0.0
    ensures best.None? ==> bestScore == 0.0
    ensures best.Some? ==> exists i :: WinsAmong(cands, |cands|, i) && best.value == cands[i].model && bestScore == cands[i].score
    ensures bestScore == RunningBest(cands, |cands|)
    ensures logged == Improvements(cands, |cands|)
  {
    bestScore, best, logged := 0.0, None, [];
    ghost var winner := -1;
    for k := 0 to |cands|
      invariant bestScore == RunningBest(cands, k)
      invariant logged == Improvements(cands, k)
      invariant best.None? <==> forall j :: 0 <= j < k ==> cands[j].score <= 0.0
      invariant best.None? ==> bestScore == 0.0
      invariant best.Some? ==> WinsAmong(cands, k, winner) && best.value == cands[winner].model && bestScore == cands[winner].score
    {
      var c := cands[k];
      if c.score > bestScore {
        bestScore, best := c.score, Some(c.model);
        logged := logged + [c.name];
        winner := k;
      }
    }
  }

  /** The winner, when there is one, is unique: earlier ties lose to nothing, later ties never replace. */
  lemma WinnerIsUnique<M>(cands: seq<Candidate<M>>, i: int, j: int)
    requires WinsAmong(cands, |cands|, i) && WinsAmong(cands, |cands|, j)
    ensures i == j
  {
  }

  /** The tracked best score never decreases from one iteration to a later one. */
  lemma {:induction false} RunningBestMonotone<M>(cands: seq<Candidate<M>>, k1: nat, k2: nat)
    requires k1 <= k2 <= |cands|
    ensures RunningBest(cands, k1) <= RunningBest(cands, k2)
    decreases k2 - k1
  {
    if k1 < k2 {
      RunningBestMonotone(cands, k1, k2 - 1);
    }
  }

  /** The tracked best score is at least 0 and at least every score seen so far. */
  lemma {:induction false} RunningBestBounds<M>(cands: seq<Candidate<M>>, k: nat)
    requires k <= |cands|
    ensures RunningBest(cands, k) >= 0.0
    ensures forall j :: 0 <= j < k ==> cands[j].score <= RunningBest(cands, k)
  {
    if k > 0 {
      RunningBestBounds(cands, k - 1);
    }
  }

  /** When something was logged, the last name logged is the winner's. */
  lemma {:induction false} LastLoggedIsWinner<M>(cands: seq<Candidate<M>>, k: nat)
    requires k <= |cands| && Improvements(cands, k) != []
    ensures exists i :: WinsAmong(cands, k, i) && Improvements(cands, k)[|Improvements(cands, k)| - 1] == cands[i].name
  {
    RunningBestBounds(cands, k - 1);
    if cands[k - 1].score > RunningBest(cands, k - 1) {
      assert WinsAmong(cands, k, k - 1);
    } else {
      LastLoggedIsWinner(cands, k - 1);
      var i :| WinsAmong(cands, k - 1, i) && Improvements(cands, k - 1)[|Improvements(cands, k - 1)| - 1] == cands[i].name;
      WinnerScoreIsRunningBest(cands, k - 1, i);
      assert WinsAmong(cands, k, i);
    }
  }

  /** The winner among the first `k` holds the running best score. */
  lemma {:induction false} WinnerScoreIsRunningBest<M>(cands: seq<Candidate<M>>, k: nat, i: int)
    requires k <= |cands| && WinsAmong(cands, k, i)
    ensures RunningBest(cands, k) == cands[i].score
    decreases k
  {
    RunningBestBounds(cands, k);
    if k - 1 > i {
      assert WinsAmong(cands, k - 1, i);
      WinnerScoreIsRunningBest(cands, k - 1, i);
    } else {
      RunningBestBounds(cands, k - 1);
      if k - 1 > 0 {
        RunningBestAttained(cands, k - 1);
      }
    }
  }

  /** A positive running best is the score of some candidate seen so far. */
  lemma {:induction false} RunningBestAttained<M>(cands: seq<Candidate<M>>, k: nat)
    requires k <= |cands|
    ensures RunningBest(cands, k) == 0.0 || exists j :: 0 <= j < k && cands[j].score == RunningBest(cands, k)
  {
    if k > 0 {
      RunningBestAttained(cands, k - 1);
    }
  }
}
