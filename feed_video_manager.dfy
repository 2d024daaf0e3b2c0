/** The single-player video manager: one player, bound at any time to at
    most one card's view and item id. */
module FeedVideo {
  import opened Options
  import opened FeedModel

  /** A player view, compared by identity as Java compares references. */
  datatype PlayerView = PlayerView(handle: nat)

  /** The player as the manager drives it: the views that hold it, the
      media item set on it, whether it was prepared, how many times a media
      item was loaded into it (each `prepare` after `setMediaItem` starts
      that item from its beginning), its `playWhenReady` flag and whether
      it was released. */
  datatype Player = Player(attached: set<PlayerView>, media: Option<string>, prepared: bool,
                           loads: nat, playWhenReady: bool, released: bool)

  /** The manager's whole state: the binding and the player. */
  datatype ManagerState = ManagerState(currentPlayerView: Option<PlayerView>, currentItemId: int, player: Player)

  const NoItem: int := -1

  const Initial: ManagerState := ManagerState(None, NoItem, Player({}, None, false, 0, false, false))

  /** Without a bound view the item id is `-1`. */
  predicate Consistent(s: ManagerState) {
    s.currentPlayerView.None? ==> s.currentItemId == NoItem
  }

  /** The item's video URL is neither null nor empty. */
  predicate HasUrl(url: Option<string>) {
    url.Some? && url.value != ""
  }

  predicate IsBoundTo(s: ManagerState, v: PlayerView, item: FeedItem) {
    s.currentPlayerView == Some(v) && s.currentItemId == item.id
  }

  // ---------------------------------------------------------------------
  // The operations on values
  // ---------------------------------------------------------------------

  /** `bindAndPlay(v, item)`, where `url` is the item's video URL. */
  function AfterBind(s: ManagerState, v: PlayerView, item: FeedItem, url: Option<string>): ManagerState {
    if !HasUrl(url) then
      s.(player := s.player.(attached := s.player.attached - {v}))
    else
      ManagerState(Some(v), item.id,
        s.player.(attached := s.player.attached + {v}, media := url, prepared := true,
                   loads := s.player.loads + 1, playWhenReady := true))
  }

  /** `togglePlay(v, item)`. */
  function AfterToggle(s: ManagerState, v: PlayerView, item: FeedItem, url: Option<string>): ManagerState {
    if IsBoundTo(s, v, item) then s.(player := s.player.(playWhenReady := !s.player.playWhenReady))
    else AfterBind(s, v, item, url)
  }

  /** `onViewRecycled(v)`. */
  function AfterRecycle(s: ManagerState, v: PlayerView): ManagerState {
    if s.currentPlayerView == Some(v) then
      ManagerState(None, NoItem, s.player.(playWhenReady := false, attached := s.player.attached - {v}))
    else s
  }

  /** `pause()`. */
  function AfterPause(s: ManagerState): ManagerState {
    s.(player := s.player.(playWhenReady := false))
  }

  /** `release()`. */
  function AfterRelease(s: ManagerState): ManagerState {
    ManagerState(None, NoItem, s.player.(released := true))
  }

  datatype Op =
    | BindOp(view: PlayerView, item: FeedItem, url: Option<string>)
    | ToggleOp(view: PlayerView, item: FeedItem, url: Option<string>)
    | RecycleOp(view: PlayerView)
    | PauseOp
    | ReleaseOp

  function Apply(s: ManagerState, op: Op): ManagerState {
    match op
    case BindOp(v, item, url) => AfterBind(s, v, item, url)
    case ToggleOp(v, item, url) => AfterToggle(s, v, item, url)
    case RecycleOp(v) => AfterRecycle(s, v)
    case PauseOp => AfterPause(s)
    case ReleaseOp => AfterRelease(s)
  }

  /** The state after the calls `ops`, first to last. */
  function Run(s: ManagerState, ops: seq<Op>): ManagerState
    decreases |ops|
  {
    if ops == [] then s else Run(Apply(s, ops[0]), ops[1..])
  }

  // ---------------------------------------------------------------------
  // What each call does
  // ---------------------------------------------------------------------

  /** Without a URL, `bindAndPlay` only takes the player off the given
      view: the binding and the playback state stay as they were. */
  lemma BindWithoutUrl(s: ManagerState, v: PlayerView, item: FeedItem, url: Option<string>)
    requires !HasUrl(url)
    ensures var t := AfterBind(s, v, item, url);
      && t.currentPlayerView == s.currentPlayerView && t.currentItemId == s.currentItemId
      && v !in t.player.attached
      && (forall u :: u != v ==> (u in t.player.attached <==> u in s.player.attached))
      && t.player.media == s.player.media && t.player.prepared == s.player.prepared
      && t.player.loads == s.player.loads
      && t.player.playWhenReady == s.player.playWhenReady && t.player.released == s.player.released
  {
  }

  /** With a URL, `bindAndPlay` binds `(v, item.id)`, shows the player on
      `v`, loads that URL once more from its beginning, prepares and starts
      playing. */
  lemma BindWithUrl(s: ManagerState, v: PlayerView, item: FeedItem, url: Option<string>)
    requires HasUrl(url)
    ensures var t := AfterBind(s, v, item, url);
      && IsBoundTo(t, v, item)
      && v in t.player.attached
      && (forall u :: u != v ==> (u in t.player.attached <==> u in s.player.attached))
      && t.player.media == url && t.player.prepared && t.player.playWhenReady
      && t.player.loads == s.player.loads + 1
      && t.player.released == s.player.released
  {
  }

  /** Binding a new view does not take the player off the previously bound
      one: both views hold the player afterwards. */
  lemma RebindLeavesPreviousViewAttached(s: ManagerState, v: PlayerView, item: FeedItem, url: Option<string>)
    requires s.currentPlayerView.Some? && s.currentPlayerView.value in s.player.attached
    requires HasUrl(url) && s.currentPlayerView != Some(v)
    ensures var t := AfterBind(s, v, item, url);
      s.currentPlayerView.value in t.player.attached && v in t.player.attached
      && t.currentPlayerView == Some(v)
  {
  }

  /** On the bound card, `togglePlay` flips `playWhenReady` and nothing else;
      a second toggle restores the state. */
  lemma ToggleBound(s: ManagerState, v: PlayerView, item: FeedItem, url: Option<string>)
    requires IsBoundTo(s, v, item)
    ensures var t := AfterToggle(s, v, item, url);
      && t.player.playWhenReady == !s.player.playWhenReady
      && t == s.(player := t.player) && t.player == s.player.(playWhenReady := t.player.playWhenReady)
      && AfterToggle(t, v, item, url) == s
  {
  }

  /** On any other view or item, `togglePlay` is `bindAndPlay`. */
  lemma ToggleOther(s: ManagerState, v: PlayerView, item: FeedItem, url: Option<string>)
    requires !IsBoundTo(s, v, item)
    ensures AfterToggle(s, v, item, url) == AfterBind(s, v, item, url)
  {
  }

  /** Tapping the paused bound card resumes it where it stopped: no item is
      loaded again. Binding the same card again instead restarts the video
      with one more load, so the two calls never agree. */
  lemma ResumeIsNotRestart(s: ManagerState, v: PlayerView, item: FeedItem, url: Option<string>)
    requires IsBoundTo(s, v, item) && !s.player.playWhenReady && HasUrl(url)
    ensures var t := AfterToggle(s, v, item, url);
      t.player.playWhenReady && t.player.loads == s.player.loads && t.player.media == s.player.media
    ensures AfterBind(s, v, item, url).player.loads == s.player.loads + 1
    ensures AfterToggle(s, v, item, url) != AfterBind(s, v, item, url)
  {
    ToggleBound(s, v, item, url);
    BindWithUrl(s, v, item, url);
  }

  /** Tapping a card starts it; tapping it again pauses it and keeps it bound. */
  lemma {:induction false} TapTwice(s: ManagerState, v: PlayerView, item: FeedItem, url: Option<string>)
    requires HasUrl(url) && !IsBoundTo(s, v, item)
    ensures var t := AfterToggle(s, v, item, url);
      t.player.playWhenReady && IsBoundTo(t, v, item)
    ensures var u := AfterToggle(AfterToggle(s, v, item, url), v, item, url);
      !u.player.playWhenReady && IsBoundTo(u, v, item) && u.player.media == url
      && u.player.loads == s.player.loads + 1
  {
    ToggleOther(s, v, item, url);
    BindWithUrl(s, v, item, url);
    var t := AfterToggle(s, v, item, url);
    ToggleBound(t, v, item, url);
  }

  /** Recycling the bound view stops playback, takes the player off it and
      clears the binding; recycling any other view changes nothing. */
  lemma RecycleEffect(s: ManagerState, v: PlayerView)
    ensures var t := AfterRecycle(s, v);
      if s.currentPlayerView == Some(v) then
        && t.currentPlayerView == None && t.currentItemId == NoItem
        && !t.player.playWhenReady && v !in t.player.attached
        && (forall u :: u != v ==> (u in t.player.attached <==> u in s.player.attached))
        && t.player.media == s.player.media && t.player.loads == s.player.loads
        && t.player.released == s.player.released
      else t == s
  {
  }

  /** A card that scrolls off after it was bound leaves nothing bound or playing. */
  lemma {:induction false} RecycleUndoesBind(s: ManagerState, v: PlayerView, item: FeedItem, url: Option<string>)
    requires HasUrl(url)
    ensures var t := AfterRecycle(AfterBind(s, v, item, url), v);
      t.currentPlayerView == None && t.currentItemId == NoItem && !t.player.playWhenReady
      && (v in s.player.attached || t.player.attached == s.player.attached)
      && v !in t.player.attached
  {
    BindWithUrl(s, v, item, url);
    var b := AfterBind(s, v, item, url);
    RecycleEffect(b, v);
    var t := AfterRecycle(b, v);
    if v !in s.player.attached {
      assert t.player.attached == s.player.attached;
    }
  }

  /** `pause` stops playback and keeps the binding; pausing twice is pausing once. */
  lemma PauseEffect(s: ManagerState)
    ensures var t := AfterPause(s);
      !t.player.playWhenReady
      && t.currentPlayerView == s.currentPlayerView && t.currentItemId == s.currentItemId
      && t.player == s.player.(playWhenReady := false)
      && AfterPause(t) == t
  {
  }

  /** `release` clears the binding and releases the player; the views and
      the media are left as they were. */
  lemma ReleaseEffect(s: ManagerState)
    ensures var t := AfterRelease(s);
      t.currentPlayerView == None && t.currentItemId == NoItem && t.player.released
      && t.player == s.player.(released := true)
  {
  }

  // ---------------------------------------------------------------------
  // Invariants over any sequence of calls
  // ---------------------------------------------------------------------

  lemma ApplyConsistent(s: ManagerState, op: Op)
    requires Consistent(s)
    ensures Consistent(Apply(s, op))
  {
  }

  /** From construction on, a missing view always goes with id `-1`. */
  lemma {:induction false} RunConsistent(s: ManagerState, ops: seq<Op>)
    requires Consistent(s)
    ensures Consistent(Run(s, ops))
    decreases |ops|
  {
    if ops != [] {
      ApplyConsistent(s, ops[0]);
      RunConsistent(Apply(s, ops[0]), ops[1..]);
    }
  }

  /** A released player stays released, whatever is called afterwards. */
  lemma {:induction false} ReleasedIsFinal(s: ManagerState, ops: seq<Op>)
    requires s.player.released
    ensures Run(s, ops).player.released
    decreases |ops|
  {
    if ops != [] {
      var op := ops[0];
      assert Apply(s, op).player.released by {
        match op
        case ToggleOp(v, item, url) =>
          assert AfterToggle(s, v, item, url).player.released;
        case _ =>
      }
      ReleasedIsFinal(Apply(s, ops[0]), ops[1..]);
    }
  }

  /** The item id is `-1` exactly when no view is bound, after any calls
      that never name an item whose id is `-1`. */
  lemma {:induction false} BoundIdsAreItemIds(s: ManagerState, ops: seq<Op>)
    requires Consistent(s) && (s.currentPlayerView.Some? ==> s.currentItemId != NoItem)
    requires forall k :: 0 <= k < |ops| ==> OpItemId(ops[k]) != NoItem
    ensures var t := Run(s, ops);
      Consistent(t) && (t.currentPlayerView.Some? <==> t.currentItemId != NoItem)
    decreases |ops|
  {
    if ops != [] {
      var t := Apply(s, ops[0]);
      assert t.currentPlayerView.Some? ==> t.currentItemId != NoItem;
      BoundIdsAreItemIds(t, ops[1..]);
    }
  }

  /** The id of the item a call names; calls that name none give 0. */
  function OpItemId(op: Op): int {
    match op
    case BindOp(_, item, _) => item.id
    case ToggleOp(_, item, _) => item.id
    case _ => 0
  }

  // ---------------------------------------------------------------------
  // The manager object
  // ---------------------------------------------------------------------

  /** `FeedVideoManager`: the player and the current binding, updated in place. */
  class FeedVideoManager {
    var player: Player
    var currentPlayerView: Option<PlayerView>
    var currentItemId: int

    function State(): ManagerState
      reads this
    {
      ManagerState(currentPlayerView, currentItemId, player)
    }

    ghost predicate Valid()
      reads this
    {
      Consistent(State())
    }

    constructor ()
      ensures Valid() && State() == Initial
    {
      player := Player({}, None, false, 0, false, false);
      currentPlayerView := None;
      currentItemId := NoItem;
    }

    method BindAndPlay(playerView: PlayerView, item: FeedItem, videoUrl: Option<string>)
      requires Valid()
      modifies this
      ensures Valid() && State() == AfterBind(old(State()), playerView, item, videoUrl)
    {
      if videoUrl.None? || videoUrl.value == "" {
        player := player.(attached := player.attached - {playerView});
        return;
      }
      currentPlayerView := Some(playerView);
      currentItemId := item.id;
      player := player.(attached := player.attached + {playerView});
      player := player.(media := videoUrl);
      player := player.(prepared := true, loads := player.loads + 1);
      player := player.(playWhenReady := true);
    }

    method TogglePlay(playerView: PlayerView, item: FeedItem, videoUrl: Option<string>)
      requires Valid()
      modifies this
      ensures Valid() && State() == AfterToggle(old(State()), playerView, item, videoUrl)
    {
      if currentPlayerView == Some(playerView) && item.id == currentItemId {
        player := player.(playWhenReady := !player.playWhenReady);
      } else {
        BindAndPlay(playerView, item, videoUrl);
      }
    }

    method OnViewRecycled(playerView: PlayerView)
      requires Valid()
      modifies this
      ensures Valid() && State() == AfterRecycle(old(State()), playerView)
    {
      if currentPlayerView == Some(playerView) {
        player := player.(playWhenReady := false);
        player := player.(attached := player.attached - {playerView});
        currentPlayerView := None;
        currentItemId := NoItem;
      }
    }

    method Pause()
      requires Valid()
      modifies this
      ensures Valid() && State() == AfterPause(old(State()))
    {
      player := player.(playWhenReady := false);
    }

    method Release()
      requires Valid()
      modifies this
      ensures Valid() && State() == AfterRelease(old(State()))
    {
      currentPlayerView := None;
      currentItemId := NoItem;
      player := player.(released := true);
    }
  }
}
