/** The dual-slot crossfade scheduler of the background video. Two video
    elements (slots 1 and 2) alternate: one is shown while the other holds the
    next clip. Browser events become method calls: `HandleTransition` is the
    `ended` handler, `OnCanPlayThrough` the `canplaythrough` event,
    `OnPlaySettled` the settling of one `play()` promise, `HandlePlayerError`
    the `error` handler and `Tick` the firing of the oldest 1000 ms timer.
    Random numbers are the caller-supplied `draws` of module SourceSelection. */
module Crossfade {
  import opened VideoPool
  import opened SourceSelection

  /** The component numbers its players 1 and 2. */
  type PlayerId = p: int | p == 1 || p == 2 witness 1

  /** The slot that is not p. */
  function Other(p: PlayerId): (q: PlayerId)
    ensures q != p
  {
    if p == 1 then 2 else 1
  }

  /** The player shown after n transitions starting from p. */
  function Toggled(p: PlayerId, n: nat): PlayerId
  {
    if n == 0 then p else Other(Toggled(p, n - 1))
  }

  /** n transitions from p show p again exactly when n is even. */
  lemma {:induction false} ToggledParity(p: PlayerId, n: nat)
    ensures Toggled(p, n) == if n % 2 == 0 then p else Other(p)
  {
    if n > 0 {
      ToggledParity(p, n - 1);
    }
  }

  /** A one-shot `canplaythrough` listener waiting on a slot. */
  datatype Listener =
    | InitialPlay         // attemptInitialPlay, registered on slot 1 at mount
    | PlayAndTransition   // registered by a transition that found its slot not ready

  /** A `play()` promise that has not settled yet. */
  datatype PlayRequest =
    | InitialRequest                    // slot 1's first play, from attemptInitialPlay
    | TransitionRequest(next: PlayerId) // a transition promoting slot `next`

  /** How a `play()` promise settles. */
  datatype Outcome = Played | AbortError | OtherError

  /** The play request a listener issues when the slot it waits on fires. */
  function RequestFor(slot: PlayerId, l: Listener): PlayRequest
  {
    match l
    case InitialPlay => InitialRequest
    case PlayAndTransition => TransitionRequest(slot)
  }

  /** The requests issued, in registration order, when `canplaythrough`
      fires on slot with listeners ls waiting. */
  function Dispatch(slot: PlayerId, ls: seq<Listener>): (rs: seq<PlayRequest>)
    ensures |rs| == |ls|
    ensures forall i :: 0 <= i < |ls| ==> rs[i] == RequestFor(slot, ls[i])
  {
    seq(|ls|, i requires 0 <= i < |ls| => RequestFor(slot, ls[i]))
  }

  /** Listeners registered one after another issue their requests in that
      order: those registered first are served first. */
  lemma DispatchAppend(slot: PlayerId, a: seq<Listener>, b: seq<Listener>)
    ensures Dispatch(slot, a + b) == Dispatch(slot, a) + Dispatch(slot, b)
  {
  }

  /** A `canplaythrough` issues one transition request for the slot per
      waiting `PlayAndTransition` listener and one initial request per
      waiting `InitialPlay` listener. */
  lemma {:induction false} DispatchCounts(slot: PlayerId, ls: seq<Listener>)
    ensures multiset(Dispatch(slot, ls))[TransitionRequest(slot)] == multiset(ls)[PlayAndTransition]
    ensures multiset(Dispatch(slot, ls))[InitialRequest] == multiset(ls)[InitialPlay]
  {
    if ls != [] {
      var init, last := ls[..|ls| - 1], ls[|ls| - 1];
      var r := RequestFor(slot, last);
      assert ls == init + [last];
      DispatchCounts(slot, init);
      DispatchAppend(slot, init, [last]);
      assert Dispatch(slot, [last]) == [r];
      var before, after := multiset(Dispatch(slot, init)), multiset(Dispatch(slot, ls));
      assert after == before + multiset{r};
      assert multiset(ls) == multiset(init) + multiset{last};
      assert (r == TransitionRequest(slot)) == (last == PlayAndTransition);
      assert (r == InitialRequest) == (last == InitialPlay);
    }
  }

  /** Every request a `canplaythrough` issues is an initial play or a
      transition promoting that slot. */
  lemma DispatchOnlySlot(slot: PlayerId, ls: seq<Listener>)
    ensures forall r :: r in Dispatch(slot, ls) ==> r == InitialRequest || r == TransitionRequest(slot)
  {
  }

  /** The sequence xs without its element at position k. */
  function RemoveAt<T>(xs: seq<T>, k: nat): (ys: seq<T>)
    requires k < |xs|
    ensures |ys| == |xs| - 1
    ensures forall i :: 0 <= i < k ==> ys[i] == xs[i]
    ensures forall i :: k <= i < |ys| ==> ys[i] == xs[i + 1]
  {
    xs[..k] + xs[k + 1..]
  }

  class VideoBackground {
    /** The clip pool, VIDEO_SOURCES. */
    const pool: seq<string>
    /** The slot shown; the component's `activePlayer` state, mirrored by
        `activePlayerRef`. */
    var activePlayer: PlayerId
    /** `videoSources.player1` and `videoSources.player2`. */
    var source1: string
    var source2: string
    /** Whether each element's readyState has reached HAVE_ENOUGH_DATA. */
    var ready1: bool
    var ready2: bool
    /** One-shot `canplaythrough` listeners attached to each element. */
    var listeners1: seq<Listener>
    var listeners2: seq<Listener>
    /** `play()` promises not yet settled, oldest first. */
    var pendingPlays: seq<PlayRequest>
    /** Slots whose replacement is waiting on a 1000 ms timer, oldest first. */
    var pendingSwaps: seq<PlayerId>

    /** Both players hold pool clips, and never the same one. */
    ghost predicate Valid()
      reads this
    {
      source1 in pool && source2 in pool && source1 != source2
    }

    function Source(p: PlayerId): string
      reads this
    {
      if p == 1 then source1 else source2
    }

    function Ready(p: PlayerId): bool
      reads this
    {
      if p == 1 then ready1 else ready2
    }

    function Listeners(p: PlayerId): seq<Listener>
      reads this
    {
      if p == 1 then listeners1 else listeners2
    }

    /** Mounting: the initial distinct pair of sources, slot 1 shown, both
        elements loading, and attemptInitialPlay waiting on slot 1. */
    constructor (firstIndex: nat, draws: seq<nat>)
      requires firstIndex < |VideoSources| && Drawable(VideoSources, draws)
      requires exists k :: 0 <= k < |draws| && draws[k] != firstIndex
      ensures Valid()
      ensures pool == VideoSources
      ensures activePlayer == 1
      ensures source1 == VideoSources[firstIndex]
      ensures exists k :: 0 <= k < |draws| && draws[k] != firstIndex && source2 == VideoSources[draws[k]]
                       && forall j :: 0 <= j < k ==> draws[j] == firstIndex
      ensures !ready1 && !ready2
      ensures listeners1 == [InitialPlay] && listeners2 == []
      ensures pendingPlays == [] && pendingSwaps == []
    {
      VideoSourcesDistinct();
      var player1, player2, used := PickInitialSources(VideoSources, firstIndex, draws);
      pool := VideoSources;
      activePlayer := 1;
      source1, source2 := player1, player2;
      ready1, ready2 := false, false;
      listeners1, listeners2 := [InitialPlay], [];
      pendingPlays, pendingSwaps := [], [];
    }

    /** scheduleNextVideo: replace the target slot's source by the first
        drawn pool clip that differs from both current sources; the other
        slot is untouched. The new source makes the element load again. */
    method ScheduleNextVideo(target: PlayerId, draws: seq<nat>)
      requires Valid()
      requires Drawable(pool, draws) && EventuallyFresh(pool, draws, source1, source2)
      modifies this
      ensures Valid()
      ensures Source(target) == pool[draws[FirstFresh(pool, draws, old(source1), old(source2))]]
      ensures Source(target) != old(source1) && Source(target) != old(source2)
      ensures Source(Other(target)) == old(Source(Other(target)))
      ensures !Ready(target) && Ready(Other(target)) == old(Ready(Other(target)))
      ensures activePlayer == old(activePlayer)
      ensures listeners1 == old(listeners1) && listeners2 == old(listeners2)
      ensures pendingPlays == old(pendingPlays) && pendingSwaps == old(pendingSwaps)
    {
      var newSrc, used := PickReplacement(pool, source1, source2, draws);
      if target == 1 {
        source1, ready1 := newSrc, false;
      } else {
        source2, ready2 := newSrc, false;
      }
    }

    /** handleTransition (also the `ended` handler): promote the slot that
        is not shown. If it is ready, play it now; otherwise wait for its
        `canplaythrough` and reload it. Nothing shown changes yet. */
    method HandleTransition()
      requires Valid()
      modifies this
      ensures Valid()
      ensures activePlayer == old(activePlayer)
      ensures source1 == old(source1) && source2 == old(source2)
      ensures ready1 == old(ready1) && ready2 == old(ready2)
      ensures pendingSwaps == old(pendingSwaps)
      ensures Listeners(activePlayer) == old(Listeners(activePlayer))
      ensures old(Ready(Other(activePlayer))) ==>
                pendingPlays == old(pendingPlays) + [TransitionRequest(Other(activePlayer))]
                && Listeners(Other(activePlayer)) == old(Listeners(Other(activePlayer)))
      ensures !old(Ready(Other(activePlayer))) ==>
                pendingPlays == old(pendingPlays)
                && Listeners(Other(activePlayer)) == old(Listeners(Other(activePlayer))) + [PlayAndTransition]
    {
      var currentPlayer := activePlayer;
      var nextPlayer := Other(currentPlayer);
      if Ready(nextPlayer) {
        pendingPlays := pendingPlays + [TransitionRequest(nextPlayer)];
      } else if nextPlayer == 1 {
        listeners1 := listeners1 + [PlayAndTransition];
      } else {
        listeners2 := listeners2 + [PlayAndTransition];
      }
    }

    /** `canplaythrough` on slot p: the slot is ready, and each waiting
        one-shot listener fires once, in order, issuing its play request. */
    method OnCanPlayThrough(p: PlayerId)
      requires Valid()
      modifies this
      ensures Valid()
      ensures Ready(p) && Ready(Other(p)) == old(Ready(Other(p)))
      ensures Listeners(p) == [] && Listeners(Other(p)) == old(Listeners(Other(p)))
      ensures pendingPlays == old(pendingPlays) + Dispatch(p, old(Listeners(p)))
      ensures activePlayer == old(activePlayer)
      ensures source1 == old(source1) && source2 == old(source2)
      ensures pendingSwaps == old(pendingSwaps)
    {
      pendingPlays := pendingPlays + Dispatch(p, Listeners(p));
      if p == 1 {
        ready1, listeners1 := true, [];
      } else {
        ready2, listeners2 := true, [];
      }
    }

    /** The k-th pending `play()` promise settles with outcome. A successful
        transition shows its slot and queues, behind a 1000 ms timer, the
        replacement of the slot that was shown before. A transition failing
        other than by abort replaces the slot that failed. A failed initial
        play starts a transition. An AbortError changes nothing. */
    method OnPlaySettled(k: nat, outcome: Outcome, draws: seq<nat>)
      requires Valid()
      requires k < |pendingPlays|
      requires pendingPlays[k].TransitionRequest? && outcome == OtherError ==>
                 Drawable(pool, draws) && EventuallyFresh(pool, draws, source1, source2)
      modifies this
      ensures Valid()
      ensures old(pendingPlays[k]).TransitionRequest? ==> (
                var next := old(pendingPlays[k]).next;
                pendingPlays == RemoveAt(old(pendingPlays), k)
                && listeners1 == old(listeners1) && listeners2 == old(listeners2)
                && match outcome
                   case Played =>
                     activePlayer == next
                     && pendingSwaps == old(pendingSwaps) + [Other(next)]
                     && source1 == old(source1) && source2 == old(source2)
                     && ready1 == old(ready1) && ready2 == old(ready2)
                   case AbortError =>
                     activePlayer == old(activePlayer)
                     && pendingSwaps == old(pendingSwaps)
                     && source1 == old(source1) && source2 == old(source2)
                     && ready1 == old(ready1) && ready2 == old(ready2)
                   case OtherError =>
                     activePlayer == old(activePlayer)
                     && pendingSwaps == old(pendingSwaps)
                     && Source(next) != old(source1) && Source(next) != old(source2)
                     && Source(next) == pool[draws[FirstFresh(pool, draws, old(source1), old(source2))]]
                     && Source(Other(next)) == old(Source(Other(next)))
                     && !Ready(next) && Ready(Other(next)) == old(Ready(Other(next))))
      ensures old(pendingPlays[k]) == InitialRequest ==> (
                activePlayer == old(activePlayer)
                && source1 == old(source1) && source2 == old(source2)
                && ready1 == old(ready1) && ready2 == old(ready2)
                && pendingSwaps == old(pendingSwaps)
                && Listeners(activePlayer) == old(Listeners(activePlayer))
                && if outcome != OtherError then
                     pendingPlays == RemoveAt(old(pendingPlays), k)
                     && Listeners(Other(activePlayer)) == old(Listeners(Other(activePlayer)))
                   else if old(Ready(Other(activePlayer))) then
                     pendingPlays == RemoveAt(old(pendingPlays), k) + [TransitionRequest(Other(activePlayer))]
                     && Listeners(Other(activePlayer)) == old(Listeners(Other(activePlayer)))
                   else
                     pendingPlays == RemoveAt(old(pendingPlays), k)
                     && Listeners(Other(activePlayer)) == old(Listeners(Other(activePlayer))) + [PlayAndTransition])
    {
      var request := pendingPlays[k];
      pendingPlays := RemoveAt(pendingPlays, k);
      match request
      case TransitionRequest(next) =>
        if outcome == Played {
          activePlayer := next;
          pendingSwaps := pendingSwaps + [Other(next)];
        } else if outcome == OtherError {
          ScheduleNextVideo(next, draws);
        }
      case InitialRequest =>
        if outcome == OtherError {
          HandleTransition();
        }
    }

    /** handlePlayerError: the errored slot gets a new source at once; if it
        was the slot shown, a transition to the other slot starts. */
    method HandlePlayerError(playerWithError: PlayerId, draws: seq<nat>)
      requires Valid()
      requires Drawable(pool, draws) && EventuallyFresh(pool, draws, source1, source2)
      modifies this
      ensures Valid()
      ensures activePlayer == old(activePlayer)
      ensures Source(playerWithError) != old(source1) && Source(playerWithError) != old(source2)
      ensures Source(playerWithError) == pool[draws[FirstFresh(pool, draws, old(source1), old(source2))]]
      ensures Source(Other(playerWithError)) == old(Source(Other(playerWithError)))
      ensures !Ready(playerWithError) && Ready(Other(playerWithError)) == old(Ready(Other(playerWithError)))
      ensures pendingSwaps == old(pendingSwaps)
      ensures Listeners(playerWithError) == old(Listeners(playerWithError))
      ensures old(activePlayer) != playerWithError ==>
                pendingPlays == old(pendingPlays)
                && Listeners(Other(playerWithError)) == old(Listeners(Other(playerWithError)))
      ensures old(activePlayer) == playerWithError && old(Ready(Other(playerWithError))) ==>
                pendingPlays == old(pendingPlays) + [TransitionRequest(Other(playerWithError))]
                && Listeners(Other(playerWithError)) == old(Listeners(Other(playerWithError)))
      ensures old(activePlayer) == playerWithError && !old(Ready(Other(playerWithError))) ==>
                pendingPlays == old(pendingPlays)
                && Listeners(Other(playerWithError)) == old(Listeners(Other(playerWithError))) + [PlayAndTransition]
    {
      ScheduleNextVideo(playerWithError, draws);
      if activePlayer == playerWithError {
        HandleTransition();
      }
    }

    /** The oldest 1000 ms timer fires: its slot gets a new source. */
    method Tick(draws: seq<nat>)
      requires Valid()
      requires |pendingSwaps| > 0
      requires Drawable(pool, draws) && EventuallyFresh(pool, draws, source1, source2)
      modifies this
      ensures Valid()
      ensures pendingSwaps == old(pendingSwaps[1..])
      ensures var target := old(pendingSwaps[0]);
                Source(target) != old(source1) && Source(target) != old(source2)
                && Source(target) == pool[draws[FirstFresh(pool, draws, old(source1), old(source2))]]
                && Source(Other(target)) == old(Source(Other(target)))
                && !Ready(target) && Ready(Other(target)) == old(Ready(Other(target)))
      ensures activePlayer == old(activePlayer)
      ensures listeners1 == old(listeners1) && listeners2 == old(listeners2)
      ensures pendingPlays == old(pendingPlays)
    {
      var target := pendingSwaps[0];
      pendingSwaps := pendingSwaps[1..];
      ScheduleNextVideo(target, draws);
    }
  }

  /** Mounting, slot 1 becoming ready and its initial play succeeding. */
  method MountAndPlay(firstIndex: nat, draws: seq<nat>) returns (v: VideoBackground)
    requires firstIndex < |VideoSources| && Drawable(VideoSources, draws)
    requires exists k :: 0 <= k < |draws| && draws[k] != firstIndex
    ensures fresh(v) && v.Valid() && v.pool == VideoSources && v.activePlayer == 1 && v.ready1 && !v.ready2
    ensures v.pendingPlays == [] && v.pendingSwaps == [] && v.listeners1 == [] && v.listeners2 == []
  {
    v := new VideoBackground(firstIndex, draws);
    v.OnCanPlayThrough(1);
    v.OnPlaySettled(0, Played, []);
  }

  /** One quiet cycle: the hidden slot becomes ready, the shown clip ends,
      the play succeeds and the delayed replacement runs. */
  method EndedCycle(v: VideoBackground)
    requires v.Valid() && Distinct(v.pool) && |v.pool| >= 3
    requires v.pendingPlays == [] && v.pendingSwaps == [] && v.listeners1 == [] && v.listeners2 == []
    modifies v
    ensures v.Valid()
    ensures v.pendingPlays == [] && v.pendingSwaps == [] && v.listeners1 == [] && v.listeners2 == []
    ensures v.activePlayer == Other(old(v.activePlayer))
  {
    v.OnCanPlayThrough(Other(v.activePlayer));
    v.HandleTransition();
    v.OnPlaySettled(0, Played, []);
    ThreeDrawsSuffice(v.pool, v.source1, v.source2);
    v.Tick([0, 1, 2]);
  }

  /** n quiet cycles in a row: the shown player alternates with each. */
  method EndedCyclesFrom(v: VideoBackground, n: nat)
    requires v.Valid() && Distinct(v.pool) && |v.pool| >= 3
    requires v.pendingPlays == [] && v.pendingSwaps == [] && v.listeners1 == [] && v.listeners2 == []
    modifies v
    ensures v.Valid()
    ensures v.activePlayer == Toggled(old(v.activePlayer), n)
  {
    var i := 0;
    while i < n
      invariant 0 <= i <= n && v.Valid()
      invariant v.activePlayer == Toggled(old(v.activePlayer), i)
      invariant v.pendingPlays == [] && v.pendingSwaps == [] && v.listeners1 == [] && v.listeners2 == []
    {
      EndedCycle(v);
      i := i + 1;
    }
  }

  /** Mount, play player 1, then let n clips end in turn, the hidden player
      being ready each time, every play succeeding and every delayed
      replacement running. The shown player alternates with each transition
      and the two players always hold different clips. */
  method EndedCycles(firstIndex: nat, draws: seq<nat>, n: nat) returns (shown: PlayerId, player1: string, player2: string)
    requires firstIndex < |VideoSources| && Drawable(VideoSources, draws)
    requires exists k :: 0 <= k < |draws| && draws[k] != firstIndex
    ensures shown == if n % 2 == 0 then 1 else 2
    ensures player1 != player2 && player1 in VideoSources && player2 in VideoSources
  {
    var v := MountAndPlay(firstIndex, draws);
    VideoSourcesDistinct();
    EndedCyclesFrom(v, n);
    ToggledParity(1, n);
    shown, player1, player2 := v.activePlayer, v.source1, v.source2;
  }

  /** Nothing coalesces transitions: an error on the newly shown slot before
      the delayed replacement of the slot hidden a moment ago runs promotes
      that slot again, and the delayed replacement then changes the source of
      the slot being shown. */
  method ShownSlotReplacedScenario(firstIndex: nat, draws: seq<nat>) returns (shown: PlayerId, replaced: PlayerId, before: string, after: string)
    requires firstIndex < |VideoSources| && Drawable(VideoSources, draws)
    requires exists k :: 0 <= k < |draws| && draws[k] != firstIndex
    ensures shown == replaced == 1
    ensures before != after
  {
    var v := MountAndPlay(firstIndex, draws);
    VideoSourcesDistinct();
    v.OnCanPlayThrough(2);
    v.HandleTransition();             // clip 1 ends; slot 2 is ready
    v.OnPlaySettled(0, Played, []);   // slot 2 shown; slot 1 queued for replacement
    ThreeDrawsSuffice(v.pool, v.source1, v.source2);
    v.HandlePlayerError(2, [0, 1, 2]); // slot 2 errors; slot 1 is still ready
    v.OnPlaySettled(0, Played, []);   // slot 1 shown again; slot 2 queued as well
    replaced := v.pendingSwaps[0];
    before := v.source1;
    ThreeDrawsSuffice(v.pool, v.source1, v.source2);
    v.Tick([0, 1, 2]);                // the first timer replaces slot 1
    shown, after := v.activePlayer, v.source1;
  }

  /** A transition whose play fails with an error other than `AbortError`
      stalls the component: the failed player gets a new clip, but no
      listener waits on it, no replacement timer is pending and no promise is
      unsettled, so even once the new clip can play through nothing plays it
      and the shown player stays the one whose clip has ended. */
  method TransitionFailureStallsScenario(firstIndex: nat, draws: seq<nat>)
    returns (shown: PlayerId, ready: bool, plays: seq<PlayRequest>, swaps: seq<PlayerId>,
             waiting1: seq<Listener>, waiting2: seq<Listener>)
    requires firstIndex < |VideoSources| && Drawable(VideoSources, draws)
    requires exists k :: 0 <= k < |draws| && draws[k] != firstIndex
    ensures shown == 1 && ready
    ensures plays == [] && swaps == []
    ensures waiting1 == [] && waiting2 == []
  {
    var v := MountAndPlay(firstIndex, draws);
    VideoSourcesDistinct();
    v.OnCanPlayThrough(2);
    v.HandleTransition();                    // clip 1 ends; slot 2 is ready and plays
    ThreeDrawsSuffice(v.pool, v.source1, v.source2);
    v.OnPlaySettled(0, OtherError, [0, 1, 2]); // its play fails; slot 2 gets a new clip
    v.OnCanPlayThrough(2);                   // the new clip can play through
    shown, ready := v.activePlayer, v.ready2;
    plays, swaps := v.pendingPlays, v.pendingSwaps;
    waiting1, waiting2 := v.listeners1, v.listeners2;
  }
}
