/**
 * A particle's improvement history: newest first, one flag per move telling
 * whether that move improved the particle's best solution. Only the two most
 * recent flags are kept, and they decide whether the particle is good
 * (improved last time) or excellent (improved the last two times).
 */
module ParticleHistory {

  /** HistoryLength */
  const HistoryLength: nat := 2

  /** The history a new particle starts with. */
  function Initial(): (h: seq<bool>)
    ensures |h| == HistoryLength && forall i :: 0 <= i < |h| ==> !h[i]
  {
    [false, false]
  }

  /** memorizePerformance: push the flag at the front and keep the newest HistoryLength flags. */
  function Memorize(h: seq<bool>, improved: bool): (r: seq<bool>)
    ensures 0 < |r| <= HistoryLength && r[0] == improved
    ensures |r| == if |h| + 1 < HistoryLength then |h| + 1 else HistoryLength
    ensures forall i :: 1 <= i < |r| ==> r[i] == h[i - 1]
  {
    var pushed := [improved] + h;
    if |pushed| > HistoryLength then pushed[..HistoryLength] else pushed
  }

  /** isGood */
  predicate IsGood(h: seq<bool>) {
    |h| > 0 && h[0]
  }

  /** isExcellent */
  predicate IsExcellent(h: seq<bool>) {
    |h| >= 2 && h[0] && h[1]
  }

  /** A full history [h0, h1] becomes [b, h0]: the oldest flag is forgotten. */
  lemma MemorizeShiftsHistory(h: seq<bool>, b: bool)
    requires |h| == HistoryLength
    ensures Memorize(h, b) == [b, h[0]]
  {
  }

  /** Memorizing keeps any non-empty history at exactly HistoryLength flags. */
  lemma MemorizeKeepsLength(h: seq<bool>, b: bool)
    requires |h| > 0
    ensures |Memorize(h, b)| == HistoryLength
  {
  }

  /** After memorizing b the particle is good exactly when b holds. */
  lemma MemorizeDecidesGood(h: seq<bool>, b: bool)
    ensures IsGood(Memorize(h, b)) <==> b
  {
  }

  /** After memorizing b the particle is excellent exactly when b holds and it was good before. */
  lemma MemorizeDecidesExcellent(h: seq<bool>, b: bool)
    ensures IsExcellent(Memorize(h, b)) <==> b && IsGood(h)
  {
  }

  /** Excellent implies good. */
  lemma ExcellentIsGood(h: seq<bool>)
    ensures IsExcellent(h) ==> IsGood(h)
  {
  }

  /** A new particle is neither good nor excellent. */
  lemma InitialIsNeutral()
    ensures !IsGood(Initial()) && !IsExcellent(Initial())
  {
  }
}
