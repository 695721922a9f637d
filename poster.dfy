/** The page's two modes. In the poster mode the pointer drives the parallax
    transform and a click on the poster starts playback. In the playing mode
    the image is hidden, the video is shown and the main container is
    active. The click handlers move between the modes by registering and
    removing event listeners and by adding and removing CSS classes.

    Listener registrations are a set: adding a (target, type, callback)
    entry that is already there does nothing, and removing one that is not
    there does nothing, as in the DOM's EventTarget interface (section 2.7
    of the WHATWG DOM Standard). Class lists are sets too, as DOMTokenList
    is. Playback of the media elements is not modelled. */
module Poster {

  /** The elements that listeners are registered on: the document body,
      `#bioshock` and `#screen` (called `tv` in the script). */
  datatype Target = Body | Bioshock | Screen

  /** The three handlers the script registers: the throttled pointer-move
      handler `base`, `playFunc` and `stopFunc`. */
  datatype Callback = BaseHandler | PlayHandler | StopHandler

  datatype Registration = Registration(target: Target, eventType: string, callback: Callback)

  /** The elements whose class lists the handlers change: `#img`, `#video`
      and the main container `#h`. */
  datatype Element = Img | Video | H

  /** `element` carries the CSS class `token`. */
  datatype Membership = Membership(element: Element, token: string)

  /** Which of the two guarded elements the page has (`querySelector` may
      have returned null for `#img` or `#video`). */
  datatype Present = Present(img: bool, video: bool)

  /** The listener registrations and class memberships of the page. */
  datatype PageState = PageState(listeners: set<Registration>, classes: set<Membership>)

  const HIDDEN := "is-element-hidden"
  const ACTIVE := "is-main-active"

  const BODY_POINTER_MOVE := Registration(Body, "pointermove", BaseHandler)
  const BIOSHOCK_CLICK := Registration(Bioshock, "click", PlayHandler)
  const SCREEN_CLICK := Registration(Screen, "click", StopHandler)
  /** Everything `addEventListeners` registers. */
  const WIRING := {BODY_POINTER_MOVE, BIOSHOCK_CLICK, SCREEN_CLICK}

  const IMG_HIDDEN := Membership(Img, HIDDEN)
  const VIDEO_HIDDEN := Membership(Video, HIDDEN)
  const MAIN_ACTIVE := Membership(H, ACTIVE)

  /** The effect of `playFunc` on the page. */
  function AfterPlay(s: PageState, p: Present): (r: PageState)
    ensures BODY_POINTER_MOVE !in r.listeners && BIOSHOCK_CLICK !in r.listeners
    ensures forall l :: l != BODY_POINTER_MOVE && l != BIOSHOCK_CLICK ==>
              (l in r.listeners <==> l in s.listeners)
    ensures IMG_HIDDEN in r.classes <==> p.img || IMG_HIDDEN in s.classes
    ensures VIDEO_HIDDEN in r.classes <==> !p.video && VIDEO_HIDDEN in s.classes
    ensures MAIN_ACTIVE in r.classes
    ensures forall m :: m != IMG_HIDDEN && m != VIDEO_HIDDEN && m != MAIN_ACTIVE ==>
              (m in r.classes <==> m in s.classes)
  {
    var listeners := s.listeners - {BODY_POINTER_MOVE} - {BIOSHOCK_CLICK};
    var shown := if p.img then s.classes + {IMG_HIDDEN} else s.classes;
    var played := if p.video then shown - {VIDEO_HIDDEN} else shown;
    PageState(listeners, played + {MAIN_ACTIVE})
  }

  /** The effect of `stopFunc` on the page. */
  function AfterStop(s: PageState, p: Present): (r: PageState)
    ensures BODY_POINTER_MOVE in r.listeners && BIOSHOCK_CLICK in r.listeners
    ensures forall l :: l != BODY_POINTER_MOVE && l != BIOSHOCK_CLICK ==>
              (l in r.listeners <==> l in s.listeners)
    ensures IMG_HIDDEN in r.classes <==> !p.img && IMG_HIDDEN in s.classes
    ensures VIDEO_HIDDEN in r.classes <==> p.video || VIDEO_HIDDEN in s.classes
    ensures MAIN_ACTIVE !in r.classes
    ensures forall m :: m != IMG_HIDDEN && m != VIDEO_HIDDEN && m != MAIN_ACTIVE ==>
              (m in r.classes <==> m in s.classes)
  {
    var listeners := s.listeners + {BODY_POINTER_MOVE} + {BIOSHOCK_CLICK};
    var shown := if p.img then s.classes - {IMG_HIDDEN} else s.classes;
    var stopped := if p.video then shown + {VIDEO_HIDDEN} else shown;
    PageState(listeners, stopped - {MAIN_ACTIVE})
  }

  /** The effect of `addEventListeners` on the page. */
  function AfterAddEventListeners(s: PageState): (r: PageState)
    ensures WIRING <= r.listeners
    ensures forall l :: l !in WIRING ==> (l in r.listeners <==> l in s.listeners)
    ensures r.classes == s.classes
  {
    PageState(s.listeners + {BODY_POINTER_MOVE} + {BIOSHOCK_CLICK} + {SCREEN_CLICK}, s.classes)
  }

  /** The effect of `cleanup` on the page. */
  function AfterCleanup(s: PageState): (r: PageState)
    ensures forall l :: l in WIRING ==> l !in r.listeners
    ensures forall l :: l !in WIRING ==> (l in r.listeners <==> l in s.listeners)
    ensures r.classes == s.classes
  {
    PageState(s.listeners - {BODY_POINTER_MOVE} - {BIOSHOCK_CLICK} - {SCREEN_CLICK}, s.classes)
  }

  /** The poster mode: the pointer and the poster are live, the image is
      visible, the video hidden and the main container inactive (for the
      elements the page has). */
  predicate InPosterMode(s: PageState, p: Present)
  {
    BODY_POINTER_MOVE in s.listeners && BIOSHOCK_CLICK in s.listeners
    && (p.img ==> IMG_HIDDEN !in s.classes)
    && (p.video ==> VIDEO_HIDDEN in s.classes)
    && MAIN_ACTIVE !in s.classes
  }

  /** The playing mode: the pointer and the poster are no longer listened to,
      the image is hidden, the video shown and the main container active. */
  predicate InPlayingMode(s: PageState, p: Present)
  {
    BODY_POINTER_MOVE !in s.listeners && BIOSHOCK_CLICK !in s.listeners
    && (p.img ==> IMG_HIDDEN in s.classes)
    && (p.video ==> VIDEO_HIDDEN !in s.classes)
    && MAIN_ACTIVE in s.classes
  }

  /** No page is in both modes at once. */
  lemma ModesExclusive(s: PageState, p: Present)
    ensures !(InPosterMode(s, p) && InPlayingMode(s, p))
  {
  }

  /** Playing from the poster mode reaches the playing mode, and stopping
      then restores exactly the listeners and classes the page had. */
  lemma PlayThenStop(s: PageState, p: Present)
    requires InPosterMode(s, p)
    ensures InPlayingMode(AfterPlay(s, p), p)
    ensures AfterStop(AfterPlay(s, p), p) == s
  {
    var r := AfterStop(AfterPlay(s, p), p);
    assert r.listeners == s.listeners;
    assert r.classes == s.classes;
  }

  /** Stopping from the playing mode reaches the poster mode, and playing
      then restores exactly the listeners and classes the page had. */
  lemma StopThenPlay(s: PageState, p: Present)
    requires InPlayingMode(s, p)
    ensures InPosterMode(AfterStop(s, p), p)
    ensures AfterPlay(AfterStop(s, p), p) == s
  {
    var r := AfterPlay(AfterStop(s, p), p);
    assert r.listeners == s.listeners;
    assert r.classes == s.classes;
  }

  /** Registration and class lists are sets: running a handler a second time
      in a row changes nothing. */
  lemma HandlersIdempotent(s: PageState, p: Present)
    ensures AfterStop(AfterStop(s, p), p) == AfterStop(s, p)
    ensures AfterPlay(AfterPlay(s, p), p) == AfterPlay(s, p)
  {
    assert AfterStop(AfterStop(s, p), p).listeners == AfterStop(s, p).listeners;
    assert AfterStop(AfterStop(s, p), p).classes == AfterStop(s, p).classes;
    assert AfterPlay(AfterPlay(s, p), p).listeners == AfterPlay(s, p).listeners;
    assert AfterPlay(AfterPlay(s, p), p).classes == AfterPlay(s, p).classes;
  }

  /** A click on the screen in the poster mode leaves the page as it is. */
  lemma StopInPosterModeChangesNothing(s: PageState, p: Present)
    requires InPosterMode(s, p)
    ensures AfterStop(s, p) == s
  {
    assert AfterStop(s, p).listeners == s.listeners;
    assert AfterStop(s, p).classes == s.classes;
  }

  /** Wiring a page whose classes show the poster puts it in the poster mode,
      and `cleanup` then removes what the wiring added. */
  lemma WiringThenCleanup(s: PageState, p: Present)
    requires (p.img ==> IMG_HIDDEN !in s.classes) && (p.video ==> VIDEO_HIDDEN in s.classes)
    requires MAIN_ACTIVE !in s.classes
    ensures InPosterMode(AfterAddEventListeners(s), p)
    ensures AfterCleanup(AfterAddEventListeners(s)) == AfterCleanup(s)
    ensures s.listeners !! WIRING ==> AfterCleanup(AfterAddEventListeners(s)) == s
  {
    assert AfterCleanup(AfterAddEventListeners(s)).listeners == AfterCleanup(s).listeners;
    if s.listeners !! WIRING {
      assert AfterCleanup(s).listeners == s.listeners;
    }
  }

  /** A user action that runs one of the two click handlers. */
  datatype Action = Play | Stop

  /** The page after a sequence of handler runs, in order. */
  function AfterActions(s: PageState, p: Present, acts: seq<Action>): PageState
    decreases |acts|
  {
    if |acts| == 0 then s
    else
      var s' := AfterActions(s, p, acts[..|acts| - 1]);
      match acts[|acts| - 1]
      case Play => AfterPlay(s', p)
      case Stop => AfterStop(s', p)
  }

  /** Whatever the order of plays and stops, a wired page is always in one of
      its two modes, still listens for clicks on the screen, and changes no
      class other than the three the handlers manage. */
  lemma {:induction false} TogglingKeepsModes(s: PageState, p: Present, acts: seq<Action>)
    requires InPosterMode(s, p) && SCREEN_CLICK in s.listeners
    ensures InPosterMode(AfterActions(s, p, acts), p) || InPlayingMode(AfterActions(s, p, acts), p)
    ensures SCREEN_CLICK in AfterActions(s, p, acts).listeners
    ensures forall m :: m != IMG_HIDDEN && m != VIDEO_HIDDEN && m != MAIN_ACTIVE ==>
              (m in AfterActions(s, p, acts).classes <==> m in s.classes)
    decreases |acts|
  {
    if |acts| > 0 {
      TogglingKeepsModes(s, p, acts[..|acts| - 1]);
    }
  }

  /** The page as the script sees it: the listeners registered on its
      elements and the class lists of `#img`, `#video` and `#h`. `hasImg`
      and `hasVideo` say whether those two elements were found. */
  class Page {
    const hasImg: bool
    const hasVideo: bool
    var listeners: set<Registration>
    var classes: set<Membership>

    function State(): PageState
      reads this
    {
      PageState(listeners, classes)
    }

    function Presence(): Present
    {
      Present(hasImg, hasVideo)
    }

    /** Whether an element can be touched: `#img` and `#video` are guarded,
        `#h` is used unguarded. */
    predicate Has(e: Element)
    {
      match e
      case Img => hasImg
      case Video => hasVideo
      case H => true
    }

    /** A page as loaded, with the class memberships of its markup and no
        listener registered by the script yet. */
    constructor (img: bool, video: bool, markup: set<Membership>)
      ensures hasImg == img && hasVideo == video
      ensures listeners == {} && classes == markup
    {
      hasImg, hasVideo := img, video;
      listeners, classes := {}, markup;
    }

    method AddEventListener(r: Registration)
      modifies this
      ensures listeners == old(listeners) + {r}
      ensures classes == old(classes)
    {
      listeners := listeners + {r};
    }

    method RemoveEventListener(r: Registration)
      modifies this
      ensures listeners == old(listeners) - {r}
      ensures classes == old(classes)
    {
      listeners := listeners - {r};
    }

    /** `element.classList.add(token)`; `element` must not be null. */
    method ClassListAdd(m: Membership)
      requires Has(m.element)
      modifies this
      ensures classes == old(classes) + {m}
      ensures listeners == old(listeners)
    {
      classes := classes + {m};
    }

    /** `element.classList.remove(token)`; `element` must not be null. */
    method ClassListRemove(m: Membership)
      requires Has(m.element)
      modifies this
      ensures classes == old(classes) - {m}
      ensures listeners == old(listeners)
    {
      classes := classes - {m};
    }

    /** `playFunc` */
    method Play()
      modifies this
      ensures State() == AfterPlay(old(State()), Presence())
    {
      RemoveEventListener(BODY_POINTER_MOVE);
      RemoveEventListener(BIOSHOCK_CLICK);
      if hasImg {
        ClassListAdd(IMG_HIDDEN);
      }
      if hasVideo {
        ClassListRemove(VIDEO_HIDDEN);
      }
      ClassListAdd(MAIN_ACTIVE);
    }

    /** `stopFunc` */
    method Stop()
      modifies this
      ensures State() == AfterStop(old(State()), Presence())
    {
      AddEventListener(BODY_POINTER_MOVE);
      AddEventListener(BIOSHOCK_CLICK);
      if hasImg {
        ClassListRemove(IMG_HIDDEN);
      }
      if hasVideo {
        ClassListAdd(VIDEO_HIDDEN);
      }
      ClassListRemove(MAIN_ACTIVE);
    }

    /** `addEventListeners` */
    method AddEventListeners()
      modifies this
      ensures State() == AfterAddEventListeners(old(State()))
    {
      AddEventListener(BODY_POINTER_MOVE);
      AddEventListener(BIOSHOCK_CLICK);
      AddEventListener(SCREEN_CLICK);
    }

    /** `cleanup` */
    method Cleanup()
      modifies this
      ensures State() == AfterCleanup(old(State()))
    {
      RemoveEventListener(BODY_POINTER_MOVE);
      RemoveEventListener(BIOSHOCK_CLICK);
      RemoveEventListener(SCREEN_CLICK);
    }
  }
}
