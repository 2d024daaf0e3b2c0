/** The per-item visibility classification kept by the exposure tracker.
    The four states are declared in this order, and the tracker compares
    their ordinals, so the order is part of the meaning. */
module ExposureStates {

  datatype ExposureState =
    | None     // not visible
    | Entered  // visible, but less than half
    | Half     // at least half visible, not fully
    | Full     // (essentially) fully visible

  /** The declaration index of a state, as Java's `ordinal()` gives it. */
  function Ordinal(s: ExposureState): (k: nat)
    ensures k < 4
  {
    match s
    case None => 0
    case Entered => 1
    case Half => 2
    case Full => 3
  }

  /** The state declared at index `k`. */
  function FromOrdinal(k: nat): (s: ExposureState)
    requires k < 4
    ensures Ordinal(s) == k
  {
    if k == 0 then None
    else if k == 1 then Entered
    else if k == 2 then Half
    else Full
  }

  /** Strict order of the states by declaration index. */
  predicate Below(s: ExposureState, t: ExposureState) {
    Ordinal(s) < Ordinal(t)
  }

  /** There are exactly four states, and `Ordinal` numbers them 0..3
      without gaps or repeats, so comparing ordinals is a strict total
      order with `None` least and `Full` greatest. */
  lemma OrdinalIsBijection(s: ExposureState, t: ExposureState)
    ensures FromOrdinal(Ordinal(s)) == s
    ensures Ordinal(s) == Ordinal(t) <==> s == t
    ensures Below(s, t) || s == t || Below(t, s)
    ensures !Below(s, None) && !Below(Full, s)
    ensures Below(None, Entered) && Below(Entered, Half) && Below(Half, Full)
  {
  }
}
