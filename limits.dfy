// Engine-wide limits. The header that declares MATESCORE, MAXPLY, MAXSCORE
// and the correction-history sizes is not part of this model, so their
// values are assumptions; every proof that uses them relies only on the
// orderings recorded in `LimitsOrdered`.

module Limits {

  /** Score of a mate at the root (Search.cpp reports mates as 49000 - |score|). */
  const MATESCORE: int := 49000
  /** Deepest ply the search stack holds. */
  const MAXPLY: int := 256
  /** A score bound above every mate score. */
  const MAXSCORE: int := 50000

  /** Threshold above which a score is a mate score: MATESCORE - MAXPLY. */
  const MATE_FOUND: int := MATESCORE - MAXPLY

  // Tuneables.h:118-120
  const ASP_WINDOW_MAX: int := 300
  const MAX_HISTORY: int := 16384
  const MAX_CONTHIST: int := 16384

  // Correction history (assumed values).
  const CORRHIST_SIZE: int := 16384
  const CORRHIST_GRAIN: int := 256
  const CORRHIST_WEIGHT_SCALE: int := 256
  const CORRHIST_MAX: int := 256 * 32

  lemma LimitsOrdered()
    ensures 0 < MAXPLY < MATESCORE < MAXSCORE
    ensures 0 < MATE_FOUND
    ensures 16 < CORRHIST_WEIGHT_SCALE && 0 < CORRHIST_GRAIN && 0 < CORRHIST_SIZE
    ensures 0 < CORRHIST_MAX < 32768
  {
  }
}
