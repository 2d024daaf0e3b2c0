# FeedApp core in Dafny

A verified model of the core of FeedApp, an Android feed whose cards report
exposure events and share a single video player:

- **Exposure tracking** (`ExposureTracking`, `exposure_tracker.dfy`).
  - On every scroll pass, `checkExposure` measures how much of each laid-out
    child is inside the list.
  - It classifies that ratio into an `ExposureState`, `None < Entered < Half < Full`
    (`ExposureStates`, `exposure_state.dfy`).
  - It compares the new state with the state remembered per item id and
    fires the forward crossings as `ExposureEventType`s
    (`ExposureEvents`, `exposure_event_type.dfy`).
  - Ids that were tracked, were not seen in the pass and are still visible
    get a `Disappear` with ratio 0 and are reset to `None`.
  - The tracker is a class whose map is updated in place by the two loops
    of a pass. A ghost log of every event fired lets the class invariant
    state that, per id, Enter and Disappear alternate.
- **Video manager** (`FeedVideo`, `feed_video_manager.dfy`).
  - One player is bound to at most one card view and item id.
  - `bindAndPlay`, `togglePlay`, `onViewRecycled`, `pause` and `release`
    update the binding and the player in place.
  - Each method is proved equal to a function on a value of the whole
    state. The lemmas about those functions state each call's effect, what
    it leaves alone, and the invariants of any sequence of calls.
- **Repository** (`FeedData`, `feed_repository.dfy`; the item record in
  `FeedModel`, `feed_item.dfy`).
  - `generateItems` builds a page of items with consecutive ids and decimal
    titles. `loadInitial`, `refresh` and `loadMore` are fixed pages of it.
  - The id `startId + i` is computed in 32-bit `int` arithmetic before it is
    widened to `long`, and the model does the same.

Inputs from the platform are parameters of the model:

- the child geometry `(itemId, top, bottom, height)` and the viewport height;
- the item's video URL (`Option<string>`, `None` for `null`);
- the identity of a player view.

The fraction `visibleHeight / childHeight`, a `float` in the source, is the
exact rational `Ratio(visible, height)`. Its thresholds `0.99` and `0.5` are
compared by cross-multiplication: `100 * v >= 99 * h` and `2 * v >= h`.

## Model

| member | source | states |
|---|---|---|
| ExposureStates.OrdinalIsBijection | app/src/main/java/com/jessica/feedapp/exposure/ExposureState.java:6-11 | exactly four states; ordinals 0..3 without gaps or repeats give a strict total order `None < Entered < Half < Full` |
| ExposureStates.FromOrdinal | app/src/main/java/com/jessica/feedapp/exposure/ExposureState.java:6-11 | the state declared at index `k` has ordinal `k` |
| ExposureStates.Ordinal | app/src/main/java/com/jessica/feedapp/exposure/ExposureState.java:6-11 | Java's `ordinal()`: the declaration index, below 4; see `OrdinalIsBijection`, `FromOrdinal` |
| ExposureEvents.KindIndexIsBijection | app/src/main/java/com/jessica/feedapp/exposure/ExposureEventType.java:7-12 | exactly four event kinds, distinct by declaration index |
| ExposureEvents.KindIndex | app/src/main/java/com/jessica/feedapp/exposure/ExposureEventType.java:7-12 | no contract beyond a bound below 4; the declaration index of an event kind, as Java's `ordinal()`; see `KindIndexIsBijection` |
| ExposureTracking.VisibleHeight | app/src/main/java/com/jessica/feedapp/exposure/ExposureTracker.java:94-96 | the visible height is never negative, at most the child's extent and the viewport height, and positive iff the child overlaps the viewport |
| ExposureTracking.VisibleRatio | app/src/main/java/com/jessica/feedapp/exposure/ExposureTracker.java:98-100 | the ratio is 0 when `childHeight <= 0`; it has denominator `childHeight` otherwise, and lies in [0,1] when `childHeight == bottom - top > 0` |
| ExposureTracking.Classify | app/src/main/java/com/jessica/feedapp/exposure/ExposureTracker.java:108-116 | no contract; see `StateBands`, `ClassifyMonotone` |
| ExposureTracking.StateBands | app/src/main/java/com/jessica/feedapp/exposure/ExposureTracker.java:108-116 | `None` iff ratio <= 0, `Entered` iff 0 < ratio < 1/2, `Half` iff 1/2 <= ratio < 99/100, `Full` iff ratio >= 99/100: every ratio gets exactly one state |
| ExposureTracking.ClassifyMonotone | app/src/main/java/com/jessica/feedapp/exposure/ExposureTracker.java:108-116 | a larger ratio never gets a lower state |
| ExposureTracking.TransitionIsCrossing | app/src/main/java/com/jessica/feedapp/exposure/ExposureTracker.java:148-168 | the event kinds fired equal an independent reading: one per threshold crossed upwards, in threshold order, then Disappear on a drop to `None`; every event carries the item id and the ratio |
| ExposureTracking.TransitionFiresIff | app/src/main/java/com/jessica/feedapp/exposure/ExposureTracker.java:148-168 | Enter iff prev = None and now != None; OverHalf iff prev < Half <= now; FullVisible iff prev < Full = now; Disappear iff prev != None and now = None |
| ExposureTracking.InCrossings | app/src/main/java/com/jessica/feedapp/exposure/ExposureTracker.java:148-168 | an event kind is among the crossings exactly when its own threshold is crossed |
| ExposureTracking.TransitionEvents | app/src/main/java/com/jessica/feedapp/exposure/ExposureTracker.java:142-169 | no contract; see `TransitionIsCrossing`, `TransitionFiresIff`, `TransitionScenarios`, `TransitionEpisode` |
| ExposureTracking.TransitionScenarios | app/src/main/java/com/jessica/feedapp/exposure/ExposureTracker.java:148-168 | None to Full fires Enter, OverHalf, FullVisible in that order; an unchanged state, or a drop between visible states, fires nothing |
| ExposureTracking.TransitionEpisode | app/src/main/java/com/jessica/feedapp/exposure/ExposureTracker.java:148-168 | one child's events take its episode (outside or inside a visible stretch) from that of the old state to that of the new state |
| ExposureTracking.Get | app/src/main/java/com/jessica/feedapp/exposure/ExposureTracker.java:103-105 | no contract; an id absent from the map counts as `None` (used by `HistoryAlternates`, `PassUnseenIds`) |
| ExposureTracking.StepChild | app/src/main/java/com/jessica/feedapp/exposure/ExposureTracker.java:81-123 | no contract; one child of the loop; see `SeenPassKeys`, `SeenPassUnseen`, `SeenPassLast` |
| ExposureTracking.SeenPass | app/src/main/java/com/jessica/feedapp/exposure/ExposureTracker.java:81-123 | no contract; the child loop as a function; see `SeenPassKeys`, `SeenPassUnseen`, `SeenPassLast`, `ExposureTracker.VisitChildren` |
| ExposureTracking.SeenPassKeys | app/src/main/java/com/jessica/feedapp/exposure/ExposureTracker.java:81-123 | the child loop adds exactly the seen ids to the map's domain |
| ExposureTracking.SeenIds | app/src/main/java/com/jessica/feedapp/exposure/ExposureTracker.java:79-87 | no contract; the ids the loop adds to `seenThisPass`, one per child with an adapter position; see `SeenIdsPrefix`, `SeenPassKeys`, `PassUnseenIds` |
| ExposureTracking.SeenIdsPrefix | app/src/main/java/com/jessica/feedapp/exposure/ExposureTracker.java:79-87 | one more child adds its id to the seen set exactly when it has an adapter position |
| ExposureTracking.SeenPassUnseen | app/src/main/java/com/jessica/feedapp/exposure/ExposureTracker.java:81-123 | the child loop leaves unseen ids' states alone and fires nothing for them |
| ExposureTracking.SeenPassLast | app/src/main/java/com/jessica/feedapp/exposure/ExposureTracker.java:103-122 | after the child loop, a seen id holds the state classified for the last child showing it |
| ExposureTracking.PassFinalMap | app/src/main/java/com/jessica/feedapp/exposure/ExposureTracker.java:81-136 | after a pass the domain is the old domain plus the seen ids, each seen id has its new state, and every tracked unseen id is `None` |
| ExposureTracking.PassUnseenIds | app/src/main/java/com/jessica/feedapp/exposure/ExposureTracker.java:127-136 | a tracked unseen id gets exactly one Disappear if its state was visible and none if it was `None`, and ends at `None` |
| ExposureTracking.PassUnseenRatio | app/src/main/java/com/jessica/feedapp/exposure/ExposureTracker.java:127-136 | every event of a pass about an unseen id is a Disappear with ratio 0 |
| ExposureTracking.Vanishing | app/src/main/java/com/jessica/feedapp/exposure/ExposureTracker.java:127-136 | no contract; the tracked, unseen, still-visible ids; see `DisappearOfEach`, `PassUnseenIds` |
| ExposureTracking.Settled | app/src/main/java/com/jessica/feedapp/exposure/ExposureTracker.java:127-136 | no contract; the map after the reset loop; see `PassFinalMap`, `ExposureTracker.ResetUnseen` |
| ExposureTracking.DisappearOf | app/src/main/java/com/jessica/feedapp/exposure/ExposureTracker.java:127-136 | no contract; the disappearances for one visiting order; see `DisappearOfEach`, `ExposureTracker.ResetUnseen` |
| ExposureTracking.DisappearOfEach | app/src/main/java/com/jessica/feedapp/exposure/ExposureTracker.java:127-136 | whatever order the tracked ids are visited in, the disappearances are one Disappear with ratio 0 per vanishing id and nothing else |
| ExposureTracking.PassOutcome | app/src/main/java/com/jessica/feedapp/exposure/ExposureTracker.java:70-136 | no contract; what one whole pass may fire and leave; see `PassFinalMap`, `PassUnseenIds`, `PassEpisode`, `ExposureTracker.CheckExposure` |
| ExposureTracking.PassEpisode | app/src/main/java/com/jessica/feedapp/exposure/ExposureTracker.java:70-136 | across one whole pass, an id's events take its episode from that of its old state to that of its new state |
| ExposureTracking.HistoryExtends | app/src/main/java/com/jessica/feedapp/exposure/ExposureTracker.java:70-136 | a pass preserves the invariant that each id's whole event history replays to the episode of its current state |
| ExposureTracking.ReplayAlternates | app/src/main/java/com/jessica/feedapp/exposure/ExposureTracker.java:148-168 | a history that replays without breaking alternates Enter and Disappear, and it ends inside a visible stretch exactly when the last of them is Enter |
| ExposureTracking.HistoryAlternates | app/src/main/java/com/jessica/feedapp/exposure/ExposureTracker.java:103-136 | under the tracker's invariant, each id's Enter/Disappear events alternate starting with Enter; its state is visible iff there is an odd number of them; never-seen ids count as `None` |
| ExposureTracking.ExposureTracker.constructor | app/src/main/java/com/jessica/feedapp/exposure/ExposureTracker.java:45 | the tracker starts with an empty state map and no history |
| ExposureTracking.ExposureTracker.CheckExposure | app/src/main/java/com/jessica/feedapp/exposure/ExposureTracker.java:70-137 | no children or a zero viewport fires nothing and changes nothing; otherwise the child loop's events come first, then one Disappear per vanishing id; the domain only grows; the history invariant is kept |
| ExposureTracking.ExposureTracker.VisitChildren | app/src/main/java/com/jessica/feedapp/exposure/ExposureTracker.java:81-123 | the loop leaves the map and events of the child-by-child specification and collects exactly the laid-out ids |
| ExposureTracking.ExposureTracker.ResetUnseen | app/src/main/java/com/jessica/feedapp/exposure/ExposureTracker.java:127-136 | the loop resets exactly the unseen ids to `None` and fires their disappearances in the order it visits every tracked id once |
| FeedData.Wrap32 | app/src/main/java/com/jessica/feedapp/data/FeedRepository.java:32 | Java `int` addition: the result is a 32-bit value congruent to the exact sum, equal to it when the sum fits |
| FeedData.NatDigitsValue | app/src/main/java/com/jessica/feedapp/data/FeedRepository.java:33-34 | the printed digits of a number read back as that number |
| FeedData.DecimalRoundTrip | app/src/main/java/com/jessica/feedapp/data/FeedRepository.java:33-34 | parsing the decimal text of an id, sign included, gives the id back |
| FeedData.DecimalInjective | app/src/main/java/com/jessica/feedapp/data/FeedRepository.java:33-34 | two ids print the same iff they are equal |
| FeedData.DecimalString | app/src/main/java/com/jessica/feedapp/data/FeedRepository.java:33-34 | no contract; Java's decimal text of a `long`; see `DecimalRoundTrip`, `DecimalInjective` |
| FeedData.ItemFor | app/src/main/java/com/jessica/feedapp/data/FeedRepository.java:33-35 | no contract; the item built for one id; see `ItemTextsIdentify`, `GeneratedItems` |
| FeedData.ItemTextsIdentify | app/src/main/java/com/jessica/feedapp/data/FeedRepository.java:33-35 | two generated items have the same title iff they have the same id, and likewise for the content |
| FeedData.GeneratedItems | app/src/main/java/com/jessica/feedapp/data/FeedRepository.java:29-38 | the page has `max(count, 0)` items; item `i` has id `startId + i` in `int` arithmetic, title `"标题 " + id` and content `"这里是 Feed 内容摘要，id = " + id` |
| FeedData.ConsecutiveIds | app/src/main/java/com/jessica/feedapp/data/FeedRepository.java:31-36 | without overflow item `i` has id `startId + i`, so ids are strictly increasing and distinct |
| FeedData.LoadMoreWrapsAtTop | app/src/main/java/com/jessica/feedapp/data/FeedRepository.java:25-32 | `loadMore(2147483647)` continues at id `-2147483648`: the sum is taken in `int` |
| FeedData.GenerateItems | app/src/main/java/com/jessica/feedapp/data/FeedRepository.java:29-38 | the loop builds exactly the page `GeneratedItems(startId, count)` |
| FeedData.LoadInitial | app/src/main/java/com/jessica/feedapp/data/FeedRepository.java:15-17 | 20 items with ids 0..19 |
| FeedData.Refresh | app/src/main/java/com/jessica/feedapp/data/FeedRepository.java:20-22 | 20 items with ids 1000..1019 |
| FeedData.LoadMore | app/src/main/java/com/jessica/feedapp/data/FeedRepository.java:25-27 | 10 items with ids `offset + i` in `int` arithmetic, so `offset..offset+9` when `offset + 9` does not overflow |
| FeedVideo.AfterBind | app/src/main/java/com/jessica/feedapp/player/FeedVideoManager.java:33-48 | no contract; `bindAndPlay` on the whole state; see `BindWithoutUrl`, `BindWithUrl`, `RebindLeavesPreviousViewAttached` |
| FeedVideo.AfterToggle | app/src/main/java/com/jessica/feedapp/player/FeedVideoManager.java:53-61 | no contract; `togglePlay` on the whole state; see `ToggleBound`, `ToggleOther`, `TapTwice` |
| FeedVideo.AfterRecycle | app/src/main/java/com/jessica/feedapp/player/FeedVideoManager.java:66-73 | no contract; `onViewRecycled` on the whole state; see `RecycleEffect`, `RecycleUndoesBind` |
| FeedVideo.AfterPause | app/src/main/java/com/jessica/feedapp/player/FeedVideoManager.java:78-80 | no contract; `pause` on the whole state; see `PauseEffect` |
| FeedVideo.AfterRelease | app/src/main/java/com/jessica/feedapp/player/FeedVideoManager.java:85-89 | no contract; `release` on the whole state; see `ReleaseEffect`, `ReleasedIsFinal` |
| FeedVideo.Consistent | app/src/main/java/com/jessica/feedapp/player/FeedVideoManager.java:22-23 | no contract; with no bound view the id is -1; see `ApplyConsistent`, `RunConsistent`, `FeedVideoManager.Valid` |
| FeedVideo.HasUrl | app/src/main/java/com/jessica/feedapp/player/FeedVideoManager.java:35 | no contract; the guard "URL neither null nor empty"; see `BindWithoutUrl`, `BindWithUrl` |
| FeedVideo.IsBoundTo | app/src/main/java/com/jessica/feedapp/player/FeedVideoManager.java:54 | no contract; the same-card test of `togglePlay`; see `ToggleBound`, `ToggleOther`, `ResumeIsNotRestart` |
| FeedVideo.BindWithoutUrl | app/src/main/java/com/jessica/feedapp/player/FeedVideoManager.java:34-38 | a null or empty URL only takes the player off the given view; binding, media, load count and playback state are unchanged |
| FeedVideo.BindWithUrl | app/src/main/java/com/jessica/feedapp/player/FeedVideoManager.java:40-47 | a URL binds `(view, item.id)`, attaches the player to that view only additionally, sets that URL and prepares it once more (the load count goes up by one, so playback restarts from the beginning) and sets `playWhenReady` |
| FeedVideo.RebindLeavesPreviousViewAttached | app/src/main/java/com/jessica/feedapp/player/FeedVideoManager.java:40-47 | binding a new view does not detach the previously bound one |
| FeedVideo.ToggleBound | app/src/main/java/com/jessica/feedapp/player/FeedVideoManager.java:54-56 | on the bound view and item, toggling negates `playWhenReady` and changes nothing else; toggling twice restores the state |
| FeedVideo.ToggleOther | app/src/main/java/com/jessica/feedapp/player/FeedVideoManager.java:57-60 | on any other view or item, toggling is exactly `bindAndPlay` |
| FeedVideo.ResumeIsNotRestart | app/src/main/java/com/jessica/feedapp/player/FeedVideoManager.java:53-60 | tapping the paused bound card resumes without loading again, while rebinding it loads once more; the two calls never give the same state |
| FeedVideo.TapTwice | app/src/main/java/com/jessica/feedapp/player/FeedVideoManager.java:53-61 | tapping an unbound card with a URL starts it; tapping it again pauses it and keeps it bound to the same media, with a single load in all |
| FeedVideo.RecycleEffect | app/src/main/java/com/jessica/feedapp/player/FeedVideoManager.java:67-72 | recycling the bound view stops playback, detaches it and clears the binding to `(null, -1)`; any other view changes nothing |
| FeedVideo.RecycleUndoesBind | app/src/main/java/com/jessica/feedapp/player/FeedVideoManager.java:40-72 | recycling a view right after binding it leaves nothing bound or playing and the view detached |
| FeedVideo.PauseEffect | app/src/main/java/com/jessica/feedapp/player/FeedVideoManager.java:78-80 | pause clears `playWhenReady`, keeps the binding, and is idempotent |
| FeedVideo.ReleaseEffect | app/src/main/java/com/jessica/feedapp/player/FeedVideoManager.java:85-89 | release clears the binding to `(null, -1)` and marks the player released, nothing else |
| FeedVideo.ApplyConsistent | app/src/main/java/com/jessica/feedapp/player/FeedVideoManager.java:22-23 | every call keeps "no bound view implies id -1" |
| FeedVideo.RunConsistent | app/src/main/java/com/jessica/feedapp/player/FeedVideoManager.java:22-89 | "no bound view implies id -1" holds after any sequence of calls |
| FeedVideo.ReleasedIsFinal | app/src/main/java/com/jessica/feedapp/player/FeedVideoManager.java:85-89 | once released, the player stays released whatever is called afterwards |
| FeedVideo.BoundIdsAreItemIds | app/src/main/java/com/jessica/feedapp/player/FeedVideoManager.java:40-87 | after any sequence of calls that never names an item with id -1, the id is -1 exactly when no view is bound |
| FeedVideo.FeedVideoManager.constructor | app/src/main/java/com/jessica/feedapp/player/FeedVideoManager.java:21-28 | a fresh manager is unbound (`null`, -1) with an idle, unreleased player that has loaded nothing |
| FeedVideo.FeedVideoManager.BindAndPlay | app/src/main/java/com/jessica/feedapp/player/FeedVideoManager.java:33-48 | the new state is `AfterBind` of the old one, and the invariant is kept |
| FeedVideo.FeedVideoManager.TogglePlay | app/src/main/java/com/jessica/feedapp/player/FeedVideoManager.java:53-61 | the new state is `AfterToggle` of the old one, and the invariant is kept |
| FeedVideo.FeedVideoManager.OnViewRecycled | app/src/main/java/com/jessica/feedapp/player/FeedVideoManager.java:66-73 | the new state is `AfterRecycle` of the old one, and the invariant is kept |
| FeedVideo.FeedVideoManager.Pause | app/src/main/java/com/jessica/feedapp/player/FeedVideoManager.java:78-80 | the new state is `AfterPause` of the old one, and the invariant is kept |
| FeedVideo.FeedVideoManager.Release | app/src/main/java/com/jessica/feedapp/player/FeedVideoManager.java:85-89 | the new state is `AfterRelease` of the old one, and the invariant is kept |

## Left out

- StateBands: ratios are exact rationals. The source compares a `float` against `0.99f` and `0.5f`, so at ratios within float rounding of a threshold the two may classify differently.
- VisibleHeight: the pixel arithmetic is on unbounded integers. The source's 32-bit `int` arithmetic would overflow only for coordinates far beyond any screen.
- ExposureTracking.ExposureTracker.CheckExposure: the order of the disappearances is not fixed. It comes from iterating a `HashSet`, so the model specifies them as a multiset: one per vanishing id.
- Android plumbing is replaced by inputs:
  - the scroll listener, `post`, `getChildAt`, `getChildAdapterPosition` and the item-id lookup (`ExposureDataProvider`) become a sequence of child records;
  - a child without an adapter position is a `NoPosition` record, skipped by the loop but counted by the `childCount == 0` test.
- Logging and the listener callback: `fireEvent` becomes appending to the returned event sequence.
- The split of `checkExposure` into `VisitChildren` and `ResetUnseen` is a proof structure; the source has the two loops inline.
- ExoPlayer, `MediaItem`, `Uri` parsing and `PlayerView` internals are an abstract `Player` record: the views holding it, the media URL, prepared, a count of loads, `playWhenReady` and released.
  - The playback position is not modelled. A restart from the beginning is visible only as one more load (`prepare` after `setMediaItem`); a resume keeps the count.
  - The repeat mode set in the constructor and the Android `Context` are not modelled.
  - Calls on a released player are not given any special behaviour, matching the source, which does not guard them.
- `bindAndPlay` reads the URL from `item.getImageUrl()`, which `FeedItem` does not declare. The URL is therefore a parameter (`None` for `null`).
- The previously bound view is not detached by `bindAndPlay`; `RebindLeavesPreviousViewAttached` records it.
- Item ids are unbounded integers standing for Java `long`. Every id the repository generates is a 32-bit value.
- `FeedCacheManager` (SharedPreferences and Gson), `FeedAdapter`, the card binders and `FeedActivity` are UI and serialisation code outside this model.
