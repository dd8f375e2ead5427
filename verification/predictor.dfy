/**
 * The `Predictor` interface: a state with three operations. `predict` may
 * update the state, but only to cache work for `train`; the predictions it
 * makes afterwards must be the ones it would have made without it.
 */
module Predictors {
  import Branches

  datatype Predictor<!S> = Predictor(
    predict: (S, bv64) -> (S, bool),
    train: (S, Branches.Branch) -> S,
    track: (S, Branches.Branch) -> S)

  /** `predict(ip)` from state `s` leaves every later prediction as it was. */
  ghost predicate PredictKeepsPredictions<S>(p: Predictor<S>, s: S, ip: bv64)
  {
    forall ip2: bv64 :: p.predict(p.predict(s, ip).0, ip2).1 == p.predict(s, ip2).1
  }

  /** Two consecutive `predict(ip)` calls agree. */
  lemma RepeatedPredictAgrees<S>(p: Predictor<S>, s: S, ip: bv64)
    requires PredictKeepsPredictions(p, s, ip)
    ensures p.predict(p.predict(s, ip).0, ip).1 == p.predict(s, ip).1
  {
  }
}
