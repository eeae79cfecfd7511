/** services/processor/fraud_scorer.py */
module FraudScorer {
  import opened Common
  import SlidingWindow
  import VelocityStore

  const LARGE_AMOUNT := 1_000_000
  const GEO_LIMIT := 200_000
  const NO_GEO_LIMIT := 50_000

  function BaseScore(tx: RawTx): nat {
    (if tx.amount > LARGE_AMOUNT then 50 else 0) + (if !tx.HasGeo() then 25 else 0)
  }

  function VelocityPenalty(total: nat): nat {
    if total > 200_000 then 60 else if total > 50_000 then 25 else 0
  }

  function FraudScore(tx: RawTx, total: nat): nat {
    BaseScore(tx) + VelocityPenalty(total)
  }

  function Decide(score: nat): Decision {
    if score >= 75 then DecisionRejected else if score >= 50 then DecisionFlagged else DecisionApproved
  }

  /** A location is given, and is not the empty text. */
  predicate Located(tx: RawTx) {
    tx.geo.Some? && |tx.geo.value| > 0
  }

  /** What may be spent in one window by a transaction with or without a location. */
  function Limit(tx: RawTx): nat {
    if tx.HasGeo() then GEO_LIMIT else NO_GEO_LIMIT
  }

  /** `InvalidScore` is the ValidationError of `fraud_score <= 100`; `StoreFailed` a RedisError. */
  datatype Evaluation = Evaluated(tx: ScoredTx) | InvalidScore | StoreFailed

  function Score(tx: RawTx, total: nat): Evaluation {
    var score := FraudScore(tx, total);
    if score <= 100 then Evaluated(ScoredTx(tx, score, Decide(score))) else InvalidScore
  }

  /**
   * The total always includes the transaction itself. Then approval is exactly "within the limit",
   * and the scored message is valid exactly up to 1,000,000 cents; above, the score is at least 110.
   */
  lemma ExactDecision(tx: RawTx, total: nat)
    requires tx.amount <= total
    ensures Decide(FraudScore(tx, total)) == DecisionApproved <==> total <= Limit(tx)
    ensures Limit(tx) == if Located(tx) then 200_000 else 50_000
    ensures FraudScore(tx, total) <= 100 <==> tx.amount <= 1_000_000
    ensures tx.amount > 1_000_000 ==> FraudScore(tx, total) >= 110
    ensures Score(tx, total) == InvalidScore <==> tx.amount > 1_000_000
    ensures (exists s :: Score(tx, total) == Evaluated(s) && s.decision == DecisionApproved)
            <==> total <= Limit(tx)
  {
    if total <= Limit(tx) {
      assert Score(tx, total) == Evaluated(ScoredTx(tx, FraudScore(tx, total), DecisionApproved));
    }
  }

  /** Between the two limits a transaction is flagged, or rejected when it has no location. */
  lemma ExactRefusal(tx: RawTx, total: nat)
    requires tx.amount <= total && tx.amount <= LARGE_AMOUNT
    ensures Decide(FraudScore(tx, total)) == DecisionFlagged <==>
            (if Located(tx) then total > 200_000 else 50_000 < total <= 200_000)
    ensures Decide(FraudScore(tx, total)) == DecisionRejected <==> !Located(tx) && total > 200_000
  {
  }

  /** The score and decision of a transaction of at most 1,000,000 cents, by the total of its window. */
  predicate ScoredAs(tx: RawTx, total: nat, m: ScoredTx) {
    && m.raw == tx
    && (total <= 50_000 && Located(tx) ==> m.score == 0 && m.decision == DecisionApproved)
    && (total <= 50_000 && !Located(tx) ==> m.score == 25 && m.decision == DecisionApproved)
    && (50_000 < total <= 200_000 && Located(tx) ==> m.score == 25 && m.decision == DecisionApproved)
    && (50_000 < total <= 200_000 && !Located(tx) ==> m.score == 50 && m.decision == DecisionFlagged)
    && (200_000 < total && Located(tx) ==> m.score == 60 && m.decision == DecisionFlagged)
    && (200_000 < total && !Located(tx) ==> m.score == 85 && m.decision == DecisionRejected)
  }

  /** What scoring computes, in numbers; above 1,000,000 cents it is 110 or 135 and no message. */
  lemma ExactScore(tx: RawTx, total: nat)
    requires tx.amount <= total
    ensures tx.amount <= 1_000_000 ==> Score(tx, total).Evaluated? && ScoredAs(tx, total, Score(tx, total).tx)
    ensures tx.amount > 1_000_000 ==>
              Score(tx, total).InvalidScore? && FraudScore(tx, total) == if Located(tx) then 110 else 135
  {
  }

  /** Scoring updates the window first; the decision follows from the window it then sees. */
  method EvaluateFraud(store: VelocityStore.Store, tx: RawTx, now: nat, fault: RedisFault)
    returns (result: Evaluation)
    requires store.Valid() && store.clock <= now
    modifies store
    ensures store.Valid() && old(store.clock) <= store.clock <= now
    ensures fault.NotApplied? ==> store.log == old(store.log)
    ensures !fault.NotApplied? ==>
              store.log == old(store.log)[tx.sender :=
                old(store.Log(tx.sender)) + [SlidingWindow.Added(tx.id, tx.amount, now)]]
    ensures !fault.Works? ==> result == StoreFailed
    ensures fault.Works? ==>
              var total := SlidingWindow.LogTotal(store.Log(tx.sender), now, store.span);
              && result == Score(tx, total)
              && if tx.amount > 1_000_000 then result.InvalidScore?
                 else result.Evaluated? && ScoredAs(tx, total, result.tx)
  {
    var velocity := store.CheckAndUpdateVelocity(tx.sender, tx.id, tx.amount, now, fault);
    if velocity.None? {
      return StoreFailed;
    }
    var fraudScore := FraudScore(tx, velocity.value);
    var decision := DecisionFlagged;
    if fraudScore >= 75 {
      decision := DecisionRejected;
    } else if fraudScore >= 50 {
      decision := DecisionFlagged;
    } else {
      decision := DecisionApproved;
    }
    SlidingWindow.AdmitFacts(old(store.Window(tx.sender)), tx.id, tx.amount, now, store.span);
    ExactScore(tx, velocity.value);
    result := if fraudScore <= 100 then Evaluated(ScoredTx(tx, fraudScore, decision)) else InvalidScore;
  }
}
