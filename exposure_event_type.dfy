/** The four kinds of exposure event the tracker reports. An event is a
    change of state seen during one pass, not a state. */
module ExposureEvents {

  datatype ExposureEventType =
    | Enter        // the card appeared
    | OverHalf     // the card went beyond half exposure
    | FullVisible  // the card became fully exposed
    | Disappear    // the card vanished

  /** The declaration index of an event kind. */
  function KindIndex(k: ExposureEventType): (n: nat)
    ensures n < 4
  {
    match k
    case Enter => 0
    case OverHalf => 1
    case FullVisible => 2
    case Disappear => 3
  }

  /** There are exactly four kinds, told apart by their index. */
  lemma KindIndexIsBijection(k: ExposureEventType, j: ExposureEventType)
    ensures KindIndex(k) == KindIndex(j) <==> k == j
    ensures k == Enter || k == OverHalf || k == FullVisible || k == Disappear
  {
  }

  /** True for the three events that mark an upward threshold crossing. */
  predicate IsUpward(k: ExposureEventType) {
    !k.Disappear?
  }
}
