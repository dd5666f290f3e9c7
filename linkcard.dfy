/** The link card's click handler: on a mobile client, for a link with a
    native-app URL, navigate to the app URL and arm a 2500 ms fallback timer
    together with a `visibilitychange` listener; the page turning hidden
    cancels both, and a timer that fires while the page is still visible opens
    the web URL in a new tab. Every other click leaves the anchor's default
    action, which opens the web URL in a new tab.

    The class `Page` holds what the handler touches outside its closure: the
    document's visibility, the listeners and timers it has registered, keyed
    by click number, and the navigations and new tabs it has caused. */
module LinkCard {
  import opened MobileDetection

  datatype Option<T> = None | Some(value: T)

  /** An outbound link; `mobileUrl` is the optional native-app URL. */
  datatype Link = Link(title: string, url: string, mobileUrl: Option<string>)

  /** `link.mobileUrl` is truthy: present and not the empty string. */
  predicate HasMobileUrl(link: Link)
  {
    link.mobileUrl.Some? && link.mobileUrl.value != ""
  }

  /** Whether a click engages the deep-link machinery rather than the
      anchor's default action. */
  predicate EngagesDeepLink(userAgent: string, link: Link)
  {
    IsMobile(userAgent) && HasMobileUrl(link)
  }

  /** An observable navigation. */
  datatype Effect =
    | DefaultOpen(url: string)              // the anchor opens link.url in a new tab
    | Navigate(url: string)                 // window.location.href = link.mobileUrl
    | FallbackOpen(url: string, click: nat) // the fallback timer of click `click` opens a new tab

  /** How many fallback tabs click c has opened in effects. */
  function FallbackCount(effects: seq<Effect>, c: nat): nat
  {
    if effects == [] then 0
    else
      var last := effects[|effects| - 1];
      FallbackCount(effects[..|effects| - 1], c) + (if last.FallbackOpen? && last.click == c then 1 else 0)
  }

  /** No fallback tab of click c appears in effects exactly when the count is 0. */
  lemma {:induction false} FallbackCountZero(effects: seq<Effect>, c: nat)
    ensures FallbackCount(effects, c) == 0 <==>
              forall k :: 0 <= k < |effects| ==> !(effects[k].FallbackOpen? && effects[k].click == c)
  {
    if effects != [] {
      var init := effects[..|effects| - 1];
      FallbackCountZero(init, c);
      assert forall k :: 0 <= k < |init| ==> init[k] == effects[k];
    }
  }

  /** The effect log with one more effect: a fallback tab adds one to its
      own click's count and nothing to any other; any other effect adds
      nothing. */
  lemma FallbackCountAppend(effects: seq<Effect>, e: Effect, c: nat)
    ensures FallbackCount(effects + [e], c)
              == FallbackCount(effects, c) + (if e.FallbackOpen? && e.click == c then 1 else 0)
  {
    assert (effects + [e])[..|effects|] == effects;
  }

  /** The bookkeeping of the clicks so far: armed and cancelled clicks exist
      and have opened no fallback tab, a cancelled click is no longer armed,
      no click has opened two fallback tabs, and each fallback tab opens its
      own click's web URL. */
  ghost predicate Consistent(clicks: seq<Link>, armed: set<nat>, cancelled: set<nat>, effects: seq<Effect>)
  {
    && (forall c :: c in armed ==> c < |clicks| && FallbackCount(effects, c) == 0)
    && (forall c :: c in cancelled ==> c < |clicks| && c !in armed && FallbackCount(effects, c) == 0)
    && (forall c :: FallbackCount(effects, c) <= 1)
    && (forall k :: 0 <= k < |effects| && effects[k].FallbackOpen? ==>
          effects[k].click < |clicks| && effects[k].url == clicks[effects[k].click].url)
  }

  /** A click keeps the bookkeeping consistent, whether it arms a new timer
      or not, since it opens no fallback tab. */
  lemma ClickKeepsConsistent(clicks: seq<Link>, armed: set<nat>, cancelled: set<nat>, effects: seq<Effect>,
                             link: Link, engaged: bool, e: Effect)
    requires Consistent(clicks, armed, cancelled, effects)
    requires !e.FallbackOpen?
    ensures Consistent(clicks + [link], if engaged then armed + {|clicks|} else armed, cancelled, effects + [e])
  {
    var effects', clicks' := effects + [e], clicks + [link];
    forall d: nat
      ensures FallbackCount(effects', d) == FallbackCount(effects, d)
    {
      FallbackCountAppend(effects, e, d);
    }
    FallbackCountZero(effects, |clicks|);
    forall k | 0 <= k < |effects'| && effects'[k].FallbackOpen?
      ensures effects'[k].click < |clicks'| && effects'[k].url == clicks'[effects'[k].click].url
    {
      assert effects'[k] == effects[k];
      assert clicks'[effects[k].click] == clicks[effects[k].click];
    }
  }

  /** The page turning hidden cancels every armed click and opens nothing. */
  lemma CancelKeepsConsistent(clicks: seq<Link>, armed: set<nat>, cancelled: set<nat>, effects: seq<Effect>)
    requires Consistent(clicks, armed, cancelled, effects)
    ensures Consistent(clicks, {}, cancelled + armed, effects)
  {
  }

  /** An armed click's timer firing disarms it and opens at most one tab, its
      own web URL; after it no click has opened two fallback tabs. */
  lemma FireKeepsConsistent(clicks: seq<Link>, armed: set<nat>, cancelled: set<nat>, effects: seq<Effect>,
                            c: nat, visible: bool)
    requires Consistent(clicks, armed, cancelled, effects)
    requires c in armed
    ensures Consistent(clicks, armed - {c}, cancelled,
                       if visible then effects + [FallbackOpen(clicks[c].url, c)] else effects)
    ensures visible ==> FallbackCount(effects + [FallbackOpen(clicks[c].url, c)], c) == 1
  {
    if visible {
      var e := FallbackOpen(clicks[c].url, c);
      var effects' := effects + [e];
      forall d: nat
        ensures FallbackCount(effects', d) == FallbackCount(effects, d) + (if d == c then 1 else 0)
      {
        FallbackCountAppend(effects, e, d);
      }
      forall k | 0 <= k < |effects'| && effects'[k].FallbackOpen?
        ensures effects'[k].click < |clicks| && effects'[k].url == clicks[effects'[k].click].url
      {
        if k < |effects| { assert effects'[k] == effects[k]; }
      }
    }
  }

  class Page {
    /** document.hidden */
    var hidden: bool
    /** The link of every click so far; click c is clicks[c]. */
    var clicks: seq<Link>
    /** Clicks whose `visibilitychange` listener is registered. */
    var listening: set<nat>
    /** Clicks whose fallback timer is set and not yet fired or cleared. */
    var armed: set<nat>
    /** Navigations and new tabs, in order. */
    var effects: seq<Effect>
    /** Clicks whose fallback was cancelled by the page turning hidden. */
    ghost var cancelled: set<nat>

    /** A click's listener is registered exactly while its timer is pending,
        and the bookkeeping is consistent. */
    ghost predicate Valid()
      reads this
    {
      listening == armed && Consistent(clicks, armed, cancelled, effects)
    }

    constructor (hidden: bool)
      ensures Valid()
      ensures this.hidden == hidden
      ensures clicks == [] && listening == {} && armed == {} && effects == [] && cancelled == {}
    {
      this.hidden := hidden;
      clicks, listening, armed, effects := [], {}, {}, [];
      cancelled := {};
    }

    /** handleClick for a card showing link. A deep-link click registers the
        listener, sets the timer and navigates to the app URL; any other click
        is left to the anchor, which opens the web URL in a new tab. */
    method Click(link: Link, userAgent: string)
      requires Valid()
      modifies this
      ensures Valid()
      ensures clicks == old(clicks) + [link]
      ensures hidden == old(hidden) && cancelled == old(cancelled)
      ensures EngagesDeepLink(userAgent, link) ==>
                armed == old(armed) + {old(|clicks|)} && listening == old(listening) + {old(|clicks|)}
                && effects == old(effects) + [Navigate(link.mobileUrl.value)]
      ensures !EngagesDeepLink(userAgent, link) ==>
                armed == old(armed) && listening == old(listening)
                && effects == old(effects) + [DefaultOpen(link.url)]
    {
      var c := |clicks|;
      var engaged := IsMobile(userAgent) && HasMobileUrl(link);
      var e := if engaged then Navigate(link.mobileUrl.value) else DefaultOpen(link.url);
      ClickKeepsConsistent(clicks, armed, cancelled, effects, link, engaged, e);
      if engaged {
        listening := listening + {c};
        armed := armed + {c};
      }
      clicks := clicks + [link];
      effects := effects + [e];
    }

    /** The page's visibility changes. Turning hidden runs every registered
        listener: each clears its own timer and removes itself. */
    method VisibilityChange(nowHidden: bool)
      requires Valid()
      modifies this
      ensures Valid()
      ensures hidden == nowHidden
      ensures clicks == old(clicks) && effects == old(effects)
      ensures nowHidden ==> armed == {} && listening == {} && cancelled == old(cancelled) + old(armed)
      ensures !nowHidden ==> armed == old(armed) && listening == old(listening) && cancelled == old(cancelled)
    {
      hidden := nowHidden;
      if hidden {
        CancelKeepsConsistent(clicks, armed, cancelled, effects);
        cancelled := cancelled + armed;
        armed := armed - listening;
        listening := {};
      }
    }

    /** The fallback timer of click c fires. It removes the click's listener
        and, if the page is still visible, opens the link's web URL in a new
        tab. A timer that was cleared or has already fired does nothing. */
    method FallbackTimerFires(c: nat)
      requires Valid()
      modifies this
      ensures Valid()
      ensures hidden == old(hidden) && clicks == old(clicks) && cancelled == old(cancelled)
      ensures armed == old(armed) - {c} && listening == old(listening) - {c}
      ensures old(c in armed) && !hidden ==> effects == old(effects) + [FallbackOpen(clicks[c].url, c)]
      ensures !(old(c in armed) && !hidden) ==> effects == old(effects)
    {
      if c in armed {
        FireKeepsConsistent(clicks, armed, cancelled, effects, c, !hidden);
        armed := armed - {c};
        listening := listening - {c};
        if !hidden {
          effects := effects + [FallbackOpen(clicks[c].url, c)];
        }
      }
    }
  }

  /** A deep-link click whose app opens: the page turns hidden before the
      deadline, so the web URL is never opened, not even when the timer's
      time comes. */
  method AppOpensScenario(link: Link, userAgent: string) returns (effects: seq<Effect>, pending: set<nat>)
    requires EngagesDeepLink(userAgent, link)
    ensures effects == [Navigate(link.mobileUrl.value)]
    ensures pending == {}
  {
    var page := new Page(false);
    page.Click(link, userAgent);
    page.VisibilityChange(true);
    page.FallbackTimerFires(0);
    effects, pending := page.effects, page.armed;
  }

  /** A deep-link click whose app does not open: the page stays visible, the
      timer fires and the web URL opens in a new tab, once, however often the
      timer's event is delivered. */
  method AppMissingScenario(link: Link, userAgent: string) returns (effects: seq<Effect>, pending: set<nat>)
    requires EngagesDeepLink(userAgent, link)
    ensures effects == [Navigate(link.mobileUrl.value), FallbackOpen(link.url, 0)]
    ensures pending == {}
  {
    var page := new Page(false);
    page.Click(link, userAgent);
    page.FallbackTimerFires(0);
    page.FallbackTimerFires(0);
    effects, pending := page.effects, page.armed;
  }

  /** A click on a desktop client, or on a link without an app URL: the
      anchor opens the web URL at once and no timer or listener is set. */
  method DefaultClickScenario(link: Link, userAgent: string) returns (effects: seq<Effect>, pending: set<nat>)
    requires !EngagesDeepLink(userAgent, link)
    ensures effects == [DefaultOpen(link.url)]
    ensures pending == {}
  {
    var page := new Page(false);
    page.Click(link, userAgent);
    effects, pending := page.effects, page.armed + page.listening;
  }
}
