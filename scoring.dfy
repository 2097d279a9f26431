/** The engagement score of a department and the fixed-threshold status it
    is given. Scores are exact reals: `Math.round(x * 100) / 100` becomes
    `Round2`, which rounds to the nearest hundredth with halves going up. */
module Scoring {
  import opened Entities

  /** A score strictly above this marks a department with documents as overloaded. */
  const OverloadedThreshold: real := 8.0
  /** A score strictly below this marks a staffed department with documents as disengaged. */
  const DisengagedThreshold: real := 2.0
  /** A pending action point weighs half a document. */
  const ActionPointWeight: real := 0.5

  /** `x` is a whole number of hundredths. */
  predicate WholeHundredths(x: real)
  {
    (x * 100.0).Floor as real == x * 100.0
  }

  /** `Math.round(x * 100) / 100`: `Math.round` is `floor(y + 0.5)`. The
      result is the hundredth nearest to `x`, a tie going to the larger one. */
  function Round2(x: real): (r: real)
    ensures WholeHundredths(r)
    ensures r - 0.005 <= x < r + 0.005
    ensures 0.0 <= x ==> 0.0 <= r
  {
    ((x * 100.0 + 0.5).Floor as real) / 100.0
  }

  /** The window of `Round2` holds one whole hundredth only, so `Round2` is
      fixed by its contract. */
  lemma Round2Unique(x: real, r: real)
    requires WholeHundredths(r)
    requires r - 0.005 <= x < r + 0.005
    ensures r == Round2(x)
  {
    var k, m := (r * 100.0).Floor, (Round2(x) * 100.0).Floor;
    assert k as real - 0.5 <= x * 100.0 < k as real + 0.5;
    assert m as real - 0.5 <= x * 100.0 < m as real + 0.5;
    assert k == m;
  }

  /** Rounding never reverses an order. */
  lemma Round2Monotone(x: real, y: real)
    requires x <= y
    ensures Round2(x) <= Round2(y)
  {
    var k, m := (x * 100.0 + 0.5).Floor, (y * 100.0 + 0.5).Floor;
    assert k as real <= x * 100.0 + 0.5 <= y * 100.0 + 0.5 < m as real + 1.0;
    assert k <= m;
  }

  /** The score of a department from its three counts: documents per user
      plus half the pending action points per user, rounded to hundredths;
      a department without users scores 0. */
  function EngagementScore(totalDocuments: nat, pendingActionPoints: nat, totalUsers: nat): (score: real)
    ensures totalUsers == 0 ==> score == 0.0
    ensures 0.0 <= score && WholeHundredths(score)
    ensures totalUsers > 0 ==>
      var load := (totalDocuments as real + ActionPointWeight * pendingActionPoints as real) / totalUsers as real;
      score - 0.005 <= load < score + 0.005
  {
    var documentsPerUser := if totalUsers > 0 then totalDocuments as real / totalUsers as real else 0.0;
    var actionPointsPerUser := if totalUsers > 0 then pendingActionPoints as real / totalUsers as real else 0.0;
    PerUserLoad(totalDocuments as real, pendingActionPoints as real, totalUsers as real);
    Round2(documentsPerUser + actionPointsPerUser * ActionPointWeight)
  }

  /** Splitting the per-user load into its two rates. */
  lemma PerUserLoad(documents: real, pending: real, users: real)
    ensures users != 0.0 ==>
      documents / users + pending / users * ActionPointWeight == (documents + ActionPointWeight * pending) / users
  {
    if users != 0.0 {
      calc {
        documents / users + pending / users * ActionPointWeight;
        documents / users + (ActionPointWeight * pending) / users;
        (documents + ActionPointWeight * pending) / users;
      }
    }
  }

  /** More documents or more pending action points, with the same users,
      never lower the score. */
  lemma EngagementScoreMonotone(documents: nat, pending: nat, moreDocuments: nat, morePending: nat, users: nat)
    requires documents <= moreDocuments && pending <= morePending
    ensures EngagementScore(documents, pending, users) <= EngagementScore(moreDocuments, morePending, users)
  {
    if users > 0 {
      var u := users as real;
      assert documents as real / u <= moreDocuments as real / u;
      assert pending as real / u <= morePending as real / u;
      Round2Monotone(documents as real / u + pending as real / u * ActionPointWeight,
                     moreDocuments as real / u + morePending as real / u * ActionPointWeight);
    }
  }

  /** The status rule. The two tests are written in order, but since the
      thresholds are ordered they never both hold, so each status is fixed
      by its own test alone. */
  function Classify(score: real, totalDocuments: nat, totalUsers: nat): (status: Status)
    ensures status == Overloaded <==> score > OverloadedThreshold && totalDocuments > 0
    ensures status == Disengaged <==> score < DisengagedThreshold && totalDocuments > 0 && totalUsers > 0
  {
    if score > OverloadedThreshold && totalDocuments > 0 then Overloaded
    else if score < DisengagedThreshold && totalDocuments > 0 && totalUsers > 0 then Disengaged
    else Normal
  }

  /** Scores exactly on a threshold are normal, and neither a department
      without documents nor one without users is ever disengaged. */
  lemma ClassifyBoundaries(documents: nat, users: nat, score: real)
    ensures Classify(OverloadedThreshold, documents, users) == Normal
    ensures Classify(DisengagedThreshold, documents, users) == Normal
    ensures (documents == 0 || users == 0) ==> Classify(score, documents, users) != Disengaged
    ensures documents == 0 ==> Classify(score, documents, users) == Normal
  {
  }
}
