/** The per-difficulty configuration table (CONFIGS). */
module Consts {
  import opened Types

  /** The probability with which an ingredient starts out revealed: an index is revealed
      when its random draw in [0, 1) is strictly below this threshold. */
  function Threshold(m: Mode): (t: real)
    ensures 0.0 <= t < 1.0
    ensures m == Hard <==> t == 0.0
  {
    match m
    case Easy => 0.5
    case Medium => 0.25
    case Hard => 0.0
  }

  /** Harder levels never reveal more: the thresholds decrease from Easy to Hard. */
  lemma ThresholdsOrdered()
    ensures Threshold(Hard) < Threshold(Medium) < Threshold(Easy)
  {
  }
}
