/** The exposure tracker: on every scroll pass it measures how much of each
    laid-out child is inside the list's viewport, classifies that into an
    `ExposureState`, compares it with the state remembered for the child's
    item id and reports the forward crossings as events. Ids that were
    tracked but are no longer laid out are reported as disappeared. */
module ExposureTracking {
  import opened ExposureStates
  import opened ExposureEvents

  // ---------------------------------------------------------------------
  // Geometry and the visible ratio
  // ---------------------------------------------------------------------

  /** One child slot of the list as a pass sees it. `NoPosition` is a child
      without an adapter position (being removed or animated): it counts as
      a child but is skipped. */
  datatype ChildView =
    | NoPosition
    | Laid(itemId: int, top: int, bottom: int, height: int)

  /** The exact fraction `visible / height` that the source computes as a
      float; `height` is always positive. */
  datatype Ratio = Ratio(visible: int, height: int)

  /** The ratio 0 that a disappearance of an unseen id is reported with. */
  const ZeroRatio := Ratio(0, 1)

  /** An exposure event as delivered to the listener. */
  datatype ExposureEvent = ExposureEvent(itemId: int, kind: ExposureEventType, ratio: Ratio)

  function Max(a: int, b: int): int { if a < b then b else a }
  function Min(a: int, b: int): int { if a < b then a else b }

  /** Pixels of the child `[top, bottom)` that lie inside the viewport
      `[0, viewportHeight)`. */
  function VisibleHeight(top: int, bottom: int, viewportHeight: int): (h: int)
    ensures h >= 0
    ensures h == 0 || h <= bottom - top
    ensures 0 <= viewportHeight ==> h <= viewportHeight
    ensures h > 0 <==> top < bottom && 0 < bottom && top < viewportHeight && 0 < viewportHeight
  {
    Max(0, Min(bottom, viewportHeight) - Max(top, 0))
  }

  /** The visible fraction of a laid-out child; 0 (as `0/1`) when its
      height is not positive. */
  function VisibleRatio(c: ChildView, viewportHeight: int): (r: Ratio)
    requires c.Laid?
    ensures r.height > 0 && r.visible >= 0
    ensures c.height <= 0 ==> r.visible == 0
    ensures c.height > 0 ==> r.height == c.height
    ensures 0 < c.height == c.bottom - c.top ==> r.visible <= r.height
  {
    if c.height <= 0 then ZeroRatio
    else Ratio(VisibleHeight(c.top, c.bottom, viewportHeight), c.height)
  }

  /** `a <= b` for two ratios with positive heights, by cross-multiplication. */
  predicate RatioLe(a: Ratio, b: Ratio) {
    a.visible * b.height <= b.visible * a.height
  }

  // ---------------------------------------------------------------------
  // Classification
  // ---------------------------------------------------------------------

  /** The state for a ratio: `<= 0` is `None`, `>= 0.99` is `Full`,
      `>= 0.5` is `Half`, anything else `Entered`. */
  function Classify(r: Ratio): ExposureState
    requires r.height > 0
  {
    if r.visible <= 0 then None
    else if 100 * r.visible >= 99 * r.height then Full
    else if 2 * r.visible >= r.height then Half
    else Entered
  }

  /** What each state means as a band of the visible ratio: the four bands
      partition the ratios, so every ratio has exactly one state. */
  lemma StateBands(r: Ratio)
    requires r.height > 0
    ensures Classify(r) == None <==> r.visible <= 0
    ensures Classify(r) == Entered <==> 0 < r.visible && 2 * r.visible < r.height
    ensures Classify(r) == Half <==> 2 * r.visible >= r.height && 100 * r.visible < 99 * r.height && r.visible > 0
    ensures Classify(r) == Full <==> 100 * r.visible >= 99 * r.height && r.visible > 0
  {
  }

  /** If `a * c <= b * c` with `c > 0` then `a <= b`. */
  lemma CancelPositive(a: int, b: int, c: int)
    requires c > 0 && a * c <= b * c
    ensures a <= b
  {
  }

  /** Classification is monotone: a larger ratio never gets a lower state. */
  lemma ClassifyMonotone(a: Ratio, b: Ratio)
    requires a.height > 0 && b.height > 0
    requires RatioLe(a, b)
    ensures Ordinal(Classify(a)) <= Ordinal(Classify(b))
  {
    var va, ha, vb, hb := a.visible, a.height, b.visible, b.height;
    if va > 0 {
      // b.visible > 0 too
      assert va * hb > 0;
      assert vb * ha > 0;
    }
    if 2 * va >= ha {
      // 2 * vb * ha >= 2 * va * hb >= ha * hb, hence 2 * vb >= hb
      assert 2 * va * hb >= ha * hb;
      assert (2 * vb) * ha >= hb * ha;
      CancelPositive(hb, 2 * vb, ha);
    }
    if 100 * va >= 99 * ha {
      assert 100 * va * hb >= 99 * ha * hb;
      assert (100 * vb) * ha >= (99 * hb) * ha;
      CancelPositive(99 * hb, 100 * vb, ha);
    }
  }

  // ---------------------------------------------------------------------
  // The transition table
  // ---------------------------------------------------------------------

  /** The events `handleStateTransition` fires for one child, in the order
      it fires them; every one carries the item id and the pass's ratio. */
  function TransitionEvents(id: int, prev: ExposureState, now: ExposureState, ratio: Ratio): seq<ExposureEvent>
  {
    (if prev == None && now != None then [ExposureEvent(id, Enter, ratio)] else [])
    + (if Ordinal(prev) < Ordinal(Half) && Ordinal(now) >= Ordinal(Half) && now != None
       then [ExposureEvent(id, OverHalf, ratio)] else [])
    + (if Ordinal(prev) < Ordinal(Full) && now == Full then [ExposureEvent(id, FullVisible, ratio)] else [])
    + (if prev != None && now == None then [ExposureEvent(id, Disappear, ratio)] else [])
  }

  /** The state an upward event announces reaching. */
  function Threshold(k: ExposureEventType): ExposureState
    requires IsUpward(k)
  {
    match k
    case Enter => Entered
    case OverHalf => Half
    case FullVisible => Full
  }

  /** Independent reading of the table: an upward event fires exactly when
      its threshold is crossed upwards (`prev < threshold <= now`), in
      threshold order, and `Disappear` exactly when a visible item drops
      to `None`. */
  function Crossings(prev: ExposureState, now: ExposureState): (ks: seq<ExposureEventType>)
  {
    Crossed(prev, now, Enter) + Crossed(prev, now, OverHalf) + Crossed(prev, now, FullVisible)
    + (if Below(None, prev) && now == None then [Disappear] else [])
  }

  /** `[k]` when the threshold of the upward event `k` lies in `(prev, now]`. */
  function Crossed(prev: ExposureState, now: ExposureState, k: ExposureEventType): seq<ExposureEventType>
    requires IsUpward(k)
  {
    if Below(prev, Threshold(k)) && !Below(now, Threshold(k)) then [k] else []
  }

  /** The kinds of a sequence of events. */
  function KindsOf(evs: seq<ExposureEvent>): seq<ExposureEventType> {
    if evs == [] then [] else [evs[0].kind] + KindsOf(evs[1..])
  }

  lemma KindsOfAppend(a: seq<ExposureEvent>, b: seq<ExposureEvent>)
    ensures KindsOf(a + b) == KindsOf(a) + KindsOf(b)
  {
    if a != [] {
      assert (a + b)[1..] == a[1..] + b;
      KindsOfAppend(a[1..], b);
    } else {
      assert a + b == b;
    }
  }

  /** The table's four conditions are the four threshold crossings. */
  lemma CrossingConditions(prev: ExposureState, now: ExposureState)
    ensures (prev == None && now != None) == (Below(prev, Threshold(Enter)) && !Below(now, Threshold(Enter)))
    ensures (Ordinal(prev) < Ordinal(Half) && Ordinal(now) >= Ordinal(Half) && now != None)
            == (Below(prev, Threshold(OverHalf)) && !Below(now, Threshold(OverHalf)))
    ensures (Ordinal(prev) < Ordinal(Full) && now == Full)
            == (Below(prev, Threshold(FullVisible)) && !Below(now, Threshold(FullVisible)))
    ensures (prev != None && now == None) == (Below(None, prev) && now == None)
  {
  }

  lemma PieceKinds(id: int, c: bool, k: ExposureEventType, ratio: Ratio)
    ensures KindsOf(if c then [ExposureEvent(id, k, ratio)] else []) == if c then [k] else []
  {
  }

  /** The transition table agrees with the threshold-crossing reading, and
      every event it fires is about the item and carries the pass's ratio. */
  lemma TransitionIsCrossing(id: int, prev: ExposureState, now: ExposureState, ratio: Ratio)
    ensures KindsOf(TransitionEvents(id, prev, now, ratio)) == Crossings(prev, now)
    ensures forall e :: e in TransitionEvents(id, prev, now, ratio) ==> e.itemId == id && e.ratio == ratio
  {
    var ca := prev == None && now != None;
    var cb := Ordinal(prev) < Ordinal(Half) && Ordinal(now) >= Ordinal(Half) && now != None;
    var cc := Ordinal(prev) < Ordinal(Full) && now == Full;
    var cd := prev != None && now == None;
    var a := if ca then [ExposureEvent(id, Enter, ratio)] else [];
    var b := if cb then [ExposureEvent(id, OverHalf, ratio)] else [];
    var c := if cc then [ExposureEvent(id, FullVisible, ratio)] else [];
    var d := if cd then [ExposureEvent(id, Disappear, ratio)] else [];
    assert TransitionEvents(id, prev, now, ratio) == a + b + c + d;
    KindsOfAppend(a, b);
    KindsOfAppend(a + b, c);
    KindsOfAppend(a + b + c, d);
    PieceKinds(id, ca, Enter, ratio);
    PieceKinds(id, cb, OverHalf, ratio);
    PieceKinds(id, cc, FullVisible, ratio);
    PieceKinds(id, cd, Disappear, ratio);
    CrossingConditions(prev, now);
    assert Crossed(prev, now, Enter) == KindsOf(a);
    assert Crossed(prev, now, OverHalf) == KindsOf(b);
    assert Crossed(prev, now, FullVisible) == KindsOf(c);
    assert KindsOf(TransitionEvents(id, prev, now, ratio)) == KindsOf(a) + KindsOf(b) + KindsOf(c) + KindsOf(d);
    forall e: ExposureEvent | e in a + b + c + d
      ensures e.itemId == id && e.ratio == ratio
    {
      assert e in a || e in b || e in c || e in d;
    }
  }

  /** Each event kind fires exactly under its condition: Enter iff the item
      was not visible and now is; OverHalf iff it was below Half and now is
      at least Half; FullVisible iff it was below Full and now is Full;
      Disappear iff it was visible and now is not. */
  lemma TransitionFiresIff(id: int, prev: ExposureState, now: ExposureState, ratio: Ratio)
    ensures Enter in KindsOf(TransitionEvents(id, prev, now, ratio)) <==> prev == None && now != None
    ensures OverHalf in KindsOf(TransitionEvents(id, prev, now, ratio)) <==> Below(prev, Half) && !Below(now, Half)
    ensures FullVisible in KindsOf(TransitionEvents(id, prev, now, ratio)) <==> Below(prev, Full) && now == Full
    ensures Disappear in KindsOf(TransitionEvents(id, prev, now, ratio)) <==> prev != None && now == None
  {
    TransitionIsCrossing(id, prev, now, ratio);
    InCrossings(prev, now, Enter);
    InCrossings(prev, now, OverHalf);
    InCrossings(prev, now, FullVisible);
    InCrossings(prev, now, Disappear);
  }

  /** An event kind is among the crossings exactly when its own threshold
      is crossed. */
  lemma InCrossings(prev: ExposureState, now: ExposureState, k: ExposureEventType)
    ensures k in Crossings(prev, now) <==>
      if IsUpward(k) then Below(prev, Threshold(k)) && !Below(now, Threshold(k))
      else Below(None, prev) && now == None
  {
  }

  /** Going from `None` straight to `Full` reports Enter, OverHalf and
      FullVisible in that order; an unchanged state reports nothing, and so
      does a drop between two visible states. */
  lemma TransitionScenarios(id: int, prev: ExposureState, now: ExposureState, ratio: Ratio)
    ensures KindsOf(TransitionEvents(id, None, Full, ratio)) == [Enter, OverHalf, FullVisible]
    ensures TransitionEvents(id, prev, prev, ratio) == []
    ensures prev != None && now != None && Ordinal(now) <= Ordinal(prev) ==>
              TransitionEvents(id, prev, now, ratio) == []
  {
    TransitionIsCrossing(id, None, Full, ratio);
  }

  // ---------------------------------------------------------------------
  // One pass
  // ---------------------------------------------------------------------

  /** The remembered state of an id; ids never seen count as `None`. */
  function Get(m: map<int, ExposureState>, id: int): ExposureState {
    if id in m then m[id] else None
  }

  /** One iteration of the child loop: the new map and the events fired. */
  function StepChild(m: map<int, ExposureState>, c: ChildView, viewportHeight: int): (map<int, ExposureState>, seq<ExposureEvent>)
  {
    match c
    case NoPosition => (m, [])
    case Laid(id, _, _, _) =>
      var r := VisibleRatio(c, viewportHeight);
      var now := Classify(r);
      (m[id := now], TransitionEvents(id, Get(m, id), now, r))
  }

  /** The child loop over `cs`, in order: the map after it and the events
      it fired. */
  function SeenPass(m: map<int, ExposureState>, cs: seq<ChildView>, viewportHeight: int): (map<int, ExposureState>, seq<ExposureEvent>)
    decreases |cs|
  {
    if cs == [] then (m, [])
    else
      var before := SeenPass(m, cs[..|cs| - 1], viewportHeight);
      var step := StepChild(before.0, cs[|cs| - 1], viewportHeight);
      (step.0, before.1 + step.1)
  }

  /** The ids laid out in `cs`. */
  function SeenIds(cs: seq<ChildView>): set<int> {
    set i | 0 <= i < |cs| && cs[i].Laid? :: cs[i].itemId
  }

  /** Tracked ids, not seen, whose state is still visible: these disappear. */
  function Vanishing(m: map<int, ExposureState>, seen: set<int>): set<int> {
    set id | id in m && id !in seen && m[id] != None
  }

  /** The map after the disappearance loop: unseen ids are reset to `None`. */
  function Settled(m: map<int, ExposureState>, seen: set<int>): map<int, ExposureState> {
    map id | id in m :: if id in seen then m[id] else None
  }

  function IdsOf(evs: seq<ExposureEvent>): seq<int> {
    if evs == [] then [] else [evs[0].itemId] + IdsOf(evs[1..])
  }

  lemma IdsOfAppend(a: seq<ExposureEvent>, b: seq<ExposureEvent>)
    ensures IdsOf(a + b) == IdsOf(a) + IdsOf(b)
  {
    if a != [] {
      assert (a + b)[1..] == a[1..] + b;
      IdsOfAppend(a[1..], b);
    } else {
      assert a + b == b;
    }
  }

  /** `tail` reports one `Disappear` with ratio 0 for each id of `ids` and
      nothing else, in some order. */
  predicate DisappearEach(tail: seq<ExposureEvent>, ids: set<int>) {
    (forall i :: 0 <= i < |tail| ==> tail[i].kind == Disappear && tail[i].ratio == ZeroRatio)
    && multiset(IdsOf(tail)) == multiset(ids)
  }

  /** What one call of `checkExposure` does: from map `m`, with children
      `cs` and viewport height `viewportHeight`, it may fire `events` and
      leave the map `m'`. Without children or with a zero-height viewport
      nothing happens; otherwise the child loop runs and then every
      vanishing id gets one `Disappear`, in an unspecified order. */
  predicate PassOutcome(m: map<int, ExposureState>, cs: seq<ChildView>, viewportHeight: int,
                        events: seq<ExposureEvent>, m': map<int, ExposureState>)
  {
    if |cs| == 0 || viewportHeight == 0 then events == [] && m' == m
    else
      var seen := SeenPass(m, cs, viewportHeight);
      SettleOutcome(seen.0, seen.1, SeenIds(cs), events, m')
  }

  /** The disappearance loop, after the child loop left `afterSeen` and
      fired `seenEvents`: the events fired by the whole pass start with
      `seenEvents`, the rest are the disappearances, and unseen ids are
      reset to `None`. */
  predicate SettleOutcome(afterSeen: map<int, ExposureState>, seenEvents: seq<ExposureEvent>, seen: set<int>,
                          events: seq<ExposureEvent>, m': map<int, ExposureState>)
  {
    m' == Settled(afterSeen, seen)
    && |seenEvents| <= |events| && events[..|seenEvents|] == seenEvents
    && DisappearEach(events[|seenEvents|..], Vanishing(afterSeen, seen))
  }

  // ---------------------------------------------------------------------
  // Facts about one pass
  // ---------------------------------------------------------------------

  lemma SeenIdsPrefix(cs: seq<ChildView>)
    requires cs != []
    ensures SeenIds(cs) == SeenIds(cs[..|cs| - 1]) + (if cs[|cs| - 1].Laid? then {cs[|cs| - 1].itemId} else {})
  {
    var last := |cs| - 1;
    var init := cs[..last];
    forall id | id in SeenIds(cs)
      ensures id in SeenIds(init) || (cs[last].Laid? && id == cs[last].itemId)
    {
      var i :| 0 <= i < |cs| && cs[i].Laid? && cs[i].itemId == id;
      if i < last { assert init[i] == cs[i]; }
    }
    if cs[last].Laid? {
      assert cs[last].itemId in SeenIds(cs);
    }
    forall id | id in SeenIds(init) ensures id in SeenIds(cs) {
      var i :| 0 <= i < |init| && init[i].Laid? && init[i].itemId == id;
      assert cs[i] == init[i];
    }
  }

  /** The child loop adds exactly the seen ids to the map's domain. */
  lemma {:induction false} SeenPassKeys(m: map<int, ExposureState>, cs: seq<ChildView>, viewportHeight: int)
    ensures SeenPass(m, cs, viewportHeight).0.Keys == m.Keys + SeenIds(cs)
    decreases |cs|
  {
    if cs != [] {
      SeenPassKeys(m, cs[..|cs| - 1], viewportHeight);
      SeenIdsPrefix(cs);
    }
  }

  /** The child loop leaves the state of unseen ids alone and fires
      nothing for them. */
  lemma {:induction false} SeenPassUnseen(m: map<int, ExposureState>, cs: seq<ChildView>, viewportHeight: int, id: int)
    ensures id !in SeenIds(cs) ==> Get(SeenPass(m, cs, viewportHeight).0, id) == Get(m, id)
    ensures id !in SeenIds(cs) ==> id !in IdsOf(SeenPass(m, cs, viewportHeight).1)
    decreases |cs|
  {
    if cs != [] {
      var init := cs[..|cs| - 1];
      var c := cs[|cs| - 1];
      SeenPassUnseen(m, init, viewportHeight, id);
      SeenIdsPrefix(cs);
      var before := SeenPass(m, init, viewportHeight);
      var step := StepChild(before.0, c, viewportHeight);
      IdsOfAppend(before.1, step.1);
      if c.Laid? {
        TransitionIsCrossing(c.itemId, Get(before.0, c.itemId), Classify(VisibleRatio(c, viewportHeight)), VisibleRatio(c, viewportHeight));
        if id !in SeenIds(cs) {
          EventsOfOthers(step.1, id);
        }
      }
    }
  }

  lemma {:induction false} EventsOfOthers(evs: seq<ExposureEvent>, id: int)
    requires forall e :: e in evs ==> e.itemId != id
    ensures id !in IdsOf(evs)
  {
    if evs != [] {
      assert evs[0] in evs;
      EventsOfOthers(evs[1..], id);
    }
  }

  /** After the child loop, a seen id holds the state computed for the last
      child that showed it. */
  lemma {:induction false} SeenPassLast(m: map<int, ExposureState>, cs: seq<ChildView>, viewportHeight: int, i: int)
    requires 0 <= i < |cs| && cs[i].Laid?
    requires forall j :: i < j < |cs| && cs[j].Laid? ==> cs[j].itemId != cs[i].itemId
    ensures cs[i].itemId in SeenPass(m, cs, viewportHeight).0
    ensures SeenPass(m, cs, viewportHeight).0[cs[i].itemId] == Classify(VisibleRatio(cs[i], viewportHeight))
    decreases |cs|
  {
    var init := cs[..|cs| - 1];
    var before := SeenPass(m, init, viewportHeight);
    if i < |cs| - 1 {
      assert init[i] == cs[i];
      forall j | i < j < |init| && init[j].Laid? ensures init[j].itemId != init[i].itemId {
        assert init[j] == cs[j];
      }
      SeenPassLast(m, init, viewportHeight, i);
    }
  }

  /** After a full pass (with children and a non-zero viewport), every
      seen id maps to the state computed for its last child, every tracked
      unseen id maps to `None`, and the domain only grew. */
  lemma PassFinalMap(m: map<int, ExposureState>, cs: seq<ChildView>, viewportHeight: int,
                     events: seq<ExposureEvent>, m': map<int, ExposureState>, i: int)
    requires PassOutcome(m, cs, viewportHeight, events, m')
    requires |cs| > 0 && viewportHeight != 0
    requires 0 <= i < |cs| && cs[i].Laid?
    requires forall j :: i < j < |cs| && cs[j].Laid? ==> cs[j].itemId != cs[i].itemId
    ensures m'.Keys == m.Keys + SeenIds(cs)
    ensures m'[cs[i].itemId] == Classify(VisibleRatio(cs[i], viewportHeight))
    ensures forall id :: id in m && id !in SeenIds(cs) ==> m'[id] == None
  {
    SeenPassKeys(m, cs, viewportHeight);
    SeenPassUnseen(m, cs, viewportHeight, cs[i].itemId);
    SeenPassLast(m, cs, viewportHeight, i);
    assert cs[i].itemId in SeenIds(cs);
  }

  /** Kinds of the events that concern one id. */
  function KindsFor(evs: seq<ExposureEvent>, id: int): seq<ExposureEventType> {
    if evs == [] then []
    else (if evs[0].itemId == id then [evs[0].kind] else []) + KindsFor(evs[1..], id)
  }

  lemma {:induction false} KindsForAppend(a: seq<ExposureEvent>, b: seq<ExposureEvent>, id: int)
    ensures KindsFor(a + b, id) == KindsFor(a, id) + KindsFor(b, id)
  {
    if a != [] {
      assert (a + b)[1..] == a[1..] + b;
      KindsForAppend(a[1..], b, id);
    } else {
      assert a + b == b;
    }
  }

  lemma {:induction false} KindsForOthers(evs: seq<ExposureEvent>, id: int)
    requires id !in IdsOf(evs)
    ensures KindsFor(evs, id) == []
  {
    if evs != [] {
      KindsForOthers(evs[1..], id);
    }
  }

  lemma {:induction false} KindsForOne(evs: seq<ExposureEvent>, id: int)
    requires forall e :: e in evs ==> e.itemId == id
    ensures KindsFor(evs, id) == KindsOf(evs)
  {
    if evs != [] {
      assert evs[0] in evs;
      KindsForOne(evs[1..], id);
    }
  }

  /** A tail of disappearances mentions an id as often as the id occurs in
      its id list, and only as `Disappear`. */
  lemma {:induction false} KindsForDisappearances(tail: seq<ExposureEvent>, id: int)
    requires forall i :: 0 <= i < |tail| ==> tail[i].kind == Disappear
    ensures |KindsFor(tail, id)| == multiset(IdsOf(tail))[id]
    ensures forall k :: k in KindsFor(tail, id) ==> k == Disappear
  {
    if tail != [] {
      KindsForDisappearances(tail[1..], id);
      assert multiset(IdsOf(tail)) == multiset{tail[0].itemId} + multiset(IdsOf(tail[1..]));
    }
  }

  /** For a tracked id that was not seen in a pass: if its state was
      visible it gets exactly one `Disappear` and is reset to `None`; if
      it was already `None` it gets no event. */
  lemma PassUnseenIds(m: map<int, ExposureState>, cs: seq<ChildView>, viewportHeight: int,
                      events: seq<ExposureEvent>, m': map<int, ExposureState>, id: int)
    requires PassOutcome(m, cs, viewportHeight, events, m')
    requires |cs| > 0 && viewportHeight != 0
    requires id !in SeenIds(cs)
    ensures KindsFor(events, id) == if Get(m, id) != None then [Disappear] else []
    ensures Get(m', id) == None
  {
    var seen := SeenPass(m, cs, viewportHeight);
    var tail := events[|seen.1|..];
    assert events == seen.1 + tail;
    SeenPassUnseen(m, cs, viewportHeight, id);
    KindsForAppend(seen.1, tail, id);
    KindsForOthers(seen.1, id);
    KindsForDisappearances(tail, id);
    var v := Vanishing(seen.0, SeenIds(cs));
    assert id in v <==> Get(m, id) != None;
    assert multiset(IdsOf(tail))[id] == if id in v then 1 else 0;
    if id in v {
      assert KindsFor(tail, id)[0] in KindsFor(tail, id);
    }
  }

  /** The events of a pass about an unseen id carry ratio 0. */
  lemma PassUnseenRatio(m: map<int, ExposureState>, cs: seq<ChildView>, viewportHeight: int,
                        events: seq<ExposureEvent>, m': map<int, ExposureState>, id: int, k: int)
    requires PassOutcome(m, cs, viewportHeight, events, m')
    requires id !in SeenIds(cs)
    requires 0 <= k < |events| && events[k].itemId == id
    ensures events[k].kind == Disappear && events[k].ratio == ZeroRatio
  {
    var seen := SeenPass(m, cs, viewportHeight);
    SeenPassUnseen(m, cs, viewportHeight, id);
    if k < |seen.1| {
      assert events[k] == seen.1[k];
      IdsAt(seen.1, k);
    } else {
      assert events[k] == events[|seen.1|..][k - |seen.1|];
    }
  }

  lemma {:induction false} IdsAt(evs: seq<ExposureEvent>, k: int)
    requires 0 <= k < |evs|
    ensures evs[k].itemId in IdsOf(evs)
  {
    if k > 0 { IdsAt(evs[1..], k - 1); }
  }

  // ---------------------------------------------------------------------
  // Episodes: the per-id history over many passes
  // ---------------------------------------------------------------------

  /** Where an id's event history stands: outside a visible episode, inside
      one, or broken (an event that should not have come). */
  datatype Episode = Outside | Inside | Broken

  /** One event of an id's history: Enter opens an episode, Disappear closes
      it, OverHalf and FullVisible may only come inside one. */
  function Track(e: Episode, k: ExposureEventType): Episode {
    match (e, k)
    case (Outside, Enter) => Inside
    case (Inside, Disappear) => Outside
    case (Inside, OverHalf) => Inside
    case (Inside, FullVisible) => Inside
    case _ => Broken
  }

  function Replay(e: Episode, h: seq<ExposureEventType>): Episode
    decreases |h|
  {
    if h == [] then e else Replay(Track(e, h[0]), h[1..])
  }

  /** The episode a remembered state stands for. */
  function EpisodeOf(s: ExposureState): Episode {
    if s == None then Outside else Inside
  }

  lemma {:induction false} ReplayAppend(e: Episode, a: seq<ExposureEventType>, b: seq<ExposureEventType>)
    ensures Replay(e, a + b) == Replay(Replay(e, a), b)
    decreases |a|
  {
    if a != [] {
      assert (a + b)[1..] == a[1..] + b;
      ReplayAppend(Track(e, a[0]), a[1..], b);
    } else {
      assert a + b == b;
    }
  }

  /** The events of one child's transition move its episode from the one
      of its previous state to the one of its new state. */
  lemma TransitionEpisode(id: int, prev: ExposureState, now: ExposureState, ratio: Ratio)
    ensures Replay(EpisodeOf(prev), KindsOf(TransitionEvents(id, prev, now, ratio))) == EpisodeOf(now)
  {
    TransitionIsCrossing(id, prev, now, ratio);
    var h := Crossings(prev, now);
    assert [Enter, OverHalf, FullVisible][1..] == [OverHalf, FullVisible];
    assert [OverHalf, FullVisible][1..] == [FullVisible];
    match prev
    case None => {
      match now
      case None => assert h == [];
      case Entered => assert h == [Enter];
      case Half => {
        assert h == [Enter, OverHalf];
        assert Replay(Inside, [OverHalf]) == Inside;
      }
      case Full => assert h == [Enter, OverHalf, FullVisible];
    }
    case Entered => {
      match now
      case None => assert h == [Disappear];
      case Entered => assert h == [];
      case Half => assert h == [OverHalf];
      case Full => assert h == [OverHalf, FullVisible];
    }
    case Half => {
      match now
      case None => assert h == [Disappear];
      case Entered => assert h == [];
      case Half => assert h == [];
      case Full => assert h == [FullVisible];
    }
    case Full => {
      match now
      case None => assert h == [Disappear];
      case Entered => assert h == [];
      case Half => assert h == [];
      case Full => assert h == [];
    }
  }

  /** Over the child loop, an id's events move its episode from the one of
      its state before to the one of its state after. */
  lemma {:induction false} SeenPassEpisode(m: map<int, ExposureState>, cs: seq<ChildView>, viewportHeight: int, id: int)
    ensures Replay(EpisodeOf(Get(m, id)), KindsFor(SeenPass(m, cs, viewportHeight).1, id))
            == EpisodeOf(Get(SeenPass(m, cs, viewportHeight).0, id))
    decreases |cs|
  {
    if cs != [] {
      var init := cs[..|cs| - 1];
      var c := cs[|cs| - 1];
      SeenPassEpisode(m, init, viewportHeight, id);
      var before := SeenPass(m, init, viewportHeight);
      var step := StepChild(before.0, c, viewportHeight);
      KindsForAppend(before.1, step.1, id);
      ReplayAppend(EpisodeOf(Get(m, id)), KindsFor(before.1, id), KindsFor(step.1, id));
      if c.Laid? {
        var r := VisibleRatio(c, viewportHeight);
        TransitionIsCrossing(c.itemId, Get(before.0, c.itemId), Classify(r), r);
        if c.itemId == id {
          KindsForOne(step.1, id);
          TransitionEpisode(id, Get(before.0, id), Classify(r), r);
        } else {
          EventsOfOthers(step.1, id);
          KindsForOthers(step.1, id);
        }
      }
    }
  }

  /** Across one pass, the events for an id move its episode from the one
      of its old state to the one of its new state: with the history of
      earlier passes this makes Enter and Disappear alternate per id,
      starting with Enter. */
  lemma PassEpisode(m: map<int, ExposureState>, cs: seq<ChildView>, viewportHeight: int,
                    events: seq<ExposureEvent>, m': map<int, ExposureState>, id: int)
    requires PassOutcome(m, cs, viewportHeight, events, m')
    ensures Replay(EpisodeOf(Get(m, id)), KindsFor(events, id)) == EpisodeOf(Get(m', id))
  {
    if |cs| > 0 && viewportHeight != 0 {
      var seen := SeenPass(m, cs, viewportHeight);
      var tail := events[|seen.1|..];
      assert events == seen.1 + tail;
      KindsForAppend(seen.1, tail, id);
      SeenPassEpisode(m, cs, viewportHeight, id);
      ReplayAppend(EpisodeOf(Get(m, id)), KindsFor(seen.1, id), KindsFor(tail, id));
      KindsForDisappearances(tail, id);
      var v := Vanishing(seen.0, SeenIds(cs));
      assert multiset(IdsOf(tail))[id] == if id in v then 1 else 0;
      if id in v {
        assert KindsFor(tail, id)[0] in KindsFor(tail, id);
        assert KindsFor(tail, id) == [Disappear];
      } else {
        assert KindsFor(tail, id) == [];
      }
    } else {
      assert KindsFor(events, id) == [];
    }
  }

  /** What the two loops of a pass leave behind amounts to `PassOutcome`. */
  lemma SettledAfterLoop(afterSeen: map<int, ExposureState>, seenEvents: seq<ExposureEvent>, seen: set<int>,
                         tail: seq<ExposureEvent>, m': map<int, ExposureState>)
    requires m' == Settled(afterSeen, seen)
    requires DisappearEach(tail, Vanishing(afterSeen, seen))
    ensures SettleOutcome(afterSeen, seenEvents, seen, seenEvents + tail, m')
  {
    var events := seenEvents + tail;
    assert events[..|seenEvents|] == seenEvents;
    assert events[|seenEvents|..] == tail;
  }

  lemma NonEmptyHasMember(s: set<int>)
    requires s != {}
    ensures exists x :: x in s
  {
    if forall x :: x !in s {
      assert false;
    }
  }

  lemma VanishingTracked(m: map<int, ExposureState>, seen: set<int>)
    ensures Vanishing(m, seen) * m.Keys == Vanishing(m, seen)
  {
  }

  /** Appending the disappearance of a new id. */
  lemma DisappearEachSnoc(tail: seq<ExposureEvent>, ids: set<int>, id: int)
    requires DisappearEach(tail, ids) && id !in ids
    ensures DisappearEach(tail + [ExposureEvent(id, Disappear, ZeroRatio)], ids + {id})
  {
    var ev := ExposureEvent(id, Disappear, ZeroRatio);
    IdsOfAppend(tail, [ev]);
    assert IdsOf([ev]) == [id];
    MultisetOfAdd(ids, id);
    assert multiset(IdsOf(tail + [ev])) == multiset(IdsOf(tail)) + multiset{id};
  }

  lemma MultisetOfAdd(ids: set<int>, id: int)
    requires id !in ids
    ensures multiset(ids + {id}) == multiset(ids) + multiset{id}
  {
  }

  /** The map part-way through the disappearance loop: the unseen ids
      among those visited so far are reset to `None`. */
  function ResetVisited(m: map<int, ExposureState>, seen: set<int>, visited: set<int>): map<int, ExposureState> {
    map id | id in m :: if id in visited && id !in seen then None else m[id]
  }

  lemma ResetVisitedStep(m: map<int, ExposureState>, seen: set<int>, visited: set<int>, id: int)
    requires id in m && id !in visited
    ensures ResetVisited(m, seen, visited + {id})
         == if id !in seen && ResetVisited(m, seen, visited)[id] != None
            then ResetVisited(m, seen, visited)[id := None]
            else ResetVisited(m, seen, visited)
  {
    var before := ResetVisited(m, seen, visited);
    var after := ResetVisited(m, seen, visited + {id});
    if id !in seen && before[id] != None {
      assert after == before[id := None];
    } else {
      assert after == before;
    }
  }

  /** The elements of `order`. */
  function Elems(order: seq<int>): set<int> {
    if order == [] then {} else Elems(order[..|order| - 1]) + {order[|order| - 1]}
  }

  /** No element of `order` occurs twice. */
  predicate Distinct(order: seq<int>) {
    order == [] || (Distinct(order[..|order| - 1]) && order[|order| - 1] !in Elems(order[..|order| - 1]))
  }

  /** `order` lists the elements of `s`, each once. */
  predicate Enumerates(order: seq<int>, s: set<int>) {
    Distinct(order) && Elems(order) == s
  }

  /** The disappearances fired when the tracked ids are visited in `order`. */
  function DisappearOf(m: map<int, ExposureState>, seen: set<int>, order: seq<int>): seq<ExposureEvent>
  {
    if order == [] then []
    else
      var id := order[|order| - 1];
      DisappearOf(m, seen, order[..|order| - 1])
      + (if id !in seen && Get(m, id) != None then [ExposureEvent(id, Disappear, ZeroRatio)] else [])
  }

  /** Whatever order the tracked ids are visited in, every vanishing id
      disappears exactly once. */
  lemma DisappearOfEach(m: map<int, ExposureState>, seen: set<int>, order: seq<int>)
    requires Enumerates(order, m.Keys)
    ensures DisappearEach(DisappearOf(m, seen, order), Vanishing(m, seen))
  {
    DisappearOfPrefix(m, seen, order);
    VanishingTracked(m, seen);
  }

  lemma {:induction false} DisappearOfPrefix(m: map<int, ExposureState>, seen: set<int>, order: seq<int>)
    requires Distinct(order)
    ensures DisappearEach(DisappearOf(m, seen, order), Vanishing(m, seen) * Elems(order))
  {
    if order != [] {
      var init := order[..|order| - 1];
      var id := order[|order| - 1];
      DisappearOfPrefix(m, seen, init);
      VanishingElemsSnoc(m, seen, order);
      var tail := DisappearOf(m, seen, init);
      if id !in seen && Get(m, id) != None {
        DisappearEachSnoc(tail, Vanishing(m, seen) * Elems(init), id);
      } else {
        assert DisappearOf(m, seen, order) == tail + [];
        assert tail + [] == tail;
      }
    } else {
      DisappearEachEmpty(Vanishing(m, seen) * Elems(order));
    }
  }

  lemma VanishingElemsSnoc(m: map<int, ExposureState>, seen: set<int>, order: seq<int>)
    requires order != []
    ensures var id := order[|order| - 1];
      Vanishing(m, seen) * Elems(order)
      == Vanishing(m, seen) * Elems(order[..|order| - 1]) + (if id !in seen && Get(m, id) != None then {id} else {})
  {
  }

  lemma DisappearEachEmpty(ids: set<int>)
    requires ids == {}
    ensures DisappearEach([], ids)
  {
    assert multiset(ids) == multiset{};
  }

  lemma ResetVisitedAll(m: map<int, ExposureState>, seen: set<int>)
    ensures ResetVisited(m, seen, m.Keys) == Settled(m, seen)
  {
  }

  /** A pass keeps the history invariant of the tracker: replaying each
      id's events from the start lands on the episode of its state. */
  lemma HistoryExtends(log: seq<ExposureEvent>, m: map<int, ExposureState>, cs: seq<ChildView>,
                       viewportHeight: int, events: seq<ExposureEvent>, m': map<int, ExposureState>)
    requires forall id :: Replay(Outside, KindsFor(log, id)) == EpisodeOf(Get(m, id))
    requires PassOutcome(m, cs, viewportHeight, events, m')
    ensures forall id :: Replay(Outside, KindsFor(log + events, id)) == EpisodeOf(Get(m', id))
  {
    forall id
      ensures Replay(Outside, KindsFor(log + events, id)) == EpisodeOf(Get(m', id))
    {
      KindsForAppend(log, events, id);
      ReplayAppend(Outside, KindsFor(log, id), KindsFor(events, id));
      PassEpisode(m, cs, viewportHeight, events, m', id);
    }
  }

  /** The Enter and Disappear events of a history, in order. */
  function Boundaries(h: seq<ExposureEventType>): seq<ExposureEventType> {
    if h == [] then []
    else (if h[0] == Enter || h[0] == Disappear then [h[0]] else []) + Boundaries(h[1..])
  }

  lemma {:induction false} BrokenStays(h: seq<ExposureEventType>)
    ensures Replay(Broken, h) == Broken
    decreases |h|
  {
    if h != [] {
      BrokenStays(h[1..]);
    }
  }

  /** A history that replays without breaking alternates Enter and
      Disappear, starting with Enter when it starts outside an episode,
      and ends inside an episode exactly when the last of them is Enter. */
  lemma {:induction false} ReplayAlternates(e: Episode, h: seq<ExposureEventType>)
    requires e != Broken && Replay(e, h) != Broken
    ensures forall i :: 0 <= i < |Boundaries(h)| ==>
      Boundaries(h)[i] == if (i % 2 == 0) == (e == Outside) then Enter else Disappear
    ensures Replay(e, h) == if (|Boundaries(h)| % 2 == 0) == (e == Outside) then Outside else Inside
    decreases |h|
  {
    if h != [] {
      var e' := Track(e, h[0]);
      if e' == Broken {
        BrokenStays(h[1..]);
        assert false;
      }
      ReplayAlternates(e', h[1..]);
      var rest := Boundaries(h[1..]);
      if h[0] == Enter || h[0] == Disappear {
        assert Boundaries(h) == [h[0]] + rest;
        assert e' == if e == Outside then Inside else Outside;
        forall i | 0 <= i < |Boundaries(h)|
          ensures Boundaries(h)[i] == if (i % 2 == 0) == (e == Outside) then Enter else Disappear
        {
          if i > 0 {
            assert Boundaries(h)[i] == rest[i - 1];
          }
        }
      } else {
        assert Boundaries(h) == [] + rest;
      }
    }
  }

  /** What the tracker's history invariant means: for every id, its Enter
      and Disappear events alternate, starting with Enter, and its state is
      visible exactly when the last of them is an Enter. Ids never seen
      count as `None`. */
  lemma HistoryAlternates(log: seq<ExposureEvent>, m: map<int, ExposureState>, id: int)
    requires forall x :: Replay(Outside, KindsFor(log, x)) == EpisodeOf(Get(m, x))
    ensures forall i :: 0 <= i < |Boundaries(KindsFor(log, id))| ==>
      Boundaries(KindsFor(log, id))[i] == if i % 2 == 0 then Enter else Disappear
    ensures Get(m, id) != None <==> |Boundaries(KindsFor(log, id))| % 2 == 1
  {
    assert Replay(Outside, KindsFor(log, id)) == EpisodeOf(Get(m, id));
    ReplayAlternates(Outside, KindsFor(log, id));
  }

  // ---------------------------------------------------------------------
  // The tracker
  // ---------------------------------------------------------------------

  class ExposureTracker {
    /** The state remembered per item id; keys are never removed. */
    var stateMap: map<int, ExposureState>
    /** Every event fired so far, in firing order. */
    ghost var log: seq<ExposureEvent>

    /** For every id, its history so far is a well-formed sequence of
        episodes (Enter, ..., Disappear, Enter, ...), and it is inside an
        episode exactly when its remembered state is not `None`. */
    ghost predicate Valid()
      reads this
    {
      forall id :: Replay(Outside, KindsFor(log, id)) == EpisodeOf(Get(stateMap, id))
    }

    constructor ()
      ensures Valid() && stateMap == map[] && log == []
    {
      stateMap := map[];
      log := [];
    }

    /** One pass over the laid-out children (`checkExposure`). Returns the
        events fired, in firing order. */
    method CheckExposure(children: seq<ChildView>, viewportHeight: int) returns (events: seq<ExposureEvent>)
      requires Valid()
      modifies this
      ensures Valid()
      ensures PassOutcome(old(stateMap), children, viewportHeight, events, stateMap)
      ensures old(stateMap).Keys <= stateMap.Keys
      ensures log == old(log) + events
    {
      events := [];
      if |children| == 0 || viewportHeight == 0 {
        return;
      }
      var seenThisPass;
      seenThisPass, events := VisitChildren(children, viewportHeight);
      ghost var afterSeen := stateMap;
      ghost var seenEvents := events;
      SeenPassKeys(old(stateMap), children, viewportHeight);
      var disappeared;
      ghost var order;
      disappeared, order := ResetUnseen(seenThisPass);
      DisappearOfEach(afterSeen, seenThisPass, order);
      events := events + disappeared;
      SettledAfterLoop(afterSeen, seenEvents, seenThisPass, disappeared, stateMap);
      ghost var oldLog := log;
      log := log + events;
      HistoryExtends(oldLog, old(stateMap), children, viewportHeight, events, stateMap);
    }

    /** The loop over the children: classifies each laid-out child, fires
        its transition events and records its new state. Returns the ids
        seen and the events fired. */
    method VisitChildren(children: seq<ChildView>, viewportHeight: int)
      returns (seenThisPass: set<int>, events: seq<ExposureEvent>)
      modifies this`stateMap
      ensures (stateMap, events) == SeenPass(old(stateMap), children, viewportHeight)
      ensures seenThisPass == SeenIds(children)
    {
      seenThisPass, events := {}, [];
      var i := 0;
      while i < |children|
        invariant 0 <= i <= |children|
        invariant (stateMap, events) == SeenPass(old(stateMap), children[..i], viewportHeight)
        invariant seenThisPass == SeenIds(children[..i])
      {
        var child := children[i];
        assert children[..i + 1][..i] == children[..i];
        assert children[..i + 1][i] == child;
        SeenIdsPrefix(children[..i + 1]);
        if child.Laid? {
          var itemId := child.itemId;
          seenThisPass := seenThisPass + {itemId};
          var visibleRatio := VisibleRatio(child, viewportHeight);
          var prevState := if itemId in stateMap then stateMap[itemId] else None;
          var nowState := Classify(visibleRatio);
          events := events + TransitionEvents(itemId, prevState, nowState, visibleRatio);
          stateMap := stateMap[itemId := nowState];
        } else {
          assert events + [] == events;
        }
        i := i + 1;
      }
      assert children[..i] == children;
    }

    /** The loop over all tracked ids: every id not in `seenThisPass` whose
        state is still visible gets one `Disappear` with ratio 0 and is
        reset to `None`. The ids are visited in an unspecified order. */
    method ResetUnseen(seenThisPass: set<int>) returns (disappeared: seq<ExposureEvent>, ghost order: seq<int>)
      modifies this`stateMap
      ensures stateMap == Settled(old(stateMap), seenThisPass)
      ensures Enumerates(order, old(stateMap).Keys)
      ensures disappeared == DisappearOf(old(stateMap), seenThisPass, order)
    {
      disappeared, order := [], [];
      ghost var m0 := stateMap;
      ghost var visited: set<int> := {};
      var allIds := stateMap.Keys;
      while allIds != {}
        invariant allIds + visited == m0.Keys && allIds !! visited
        invariant Enumerates(order, visited)
        invariant stateMap == ResetVisited(m0, seenThisPass, visited)
        invariant disappeared == DisappearOf(m0, seenThisPass, order)
        decreases allIds
      {
        NonEmptyHasMember(allIds);
        var id :| id in allIds;
        allIds := allIds - {id};
        ResetVisitedStep(m0, seenThisPass, visited, id);
        assert (order + [id])[..|order|] == order;
        assert (order + [id])[|order|] == id;
        if id !in seenThisPass && stateMap[id] != None {
          disappeared := disappeared + [ExposureEvent(id, Disappear, ZeroRatio)];
          stateMap := stateMap[id := None];
        }
        order := order + [id];
        visited := visited + {id};
      }
      ResetVisitedAll(m0, seenThisPass);
    }
  }
}
