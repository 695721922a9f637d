# bioshock poster page: a verified model of `main.js`

`main.js` drives a single page that switches between a *poster* mode and a
*playing* mode. In the poster mode a throttled pointer-move handler tilts the
main container `#h` with a 3D transform that follows the cursor, and a click
on the poster `#bioshock` starts playback. In the playing mode the image is
hidden, the video is shown and `#h` is marked active, and a click on the
screen `#screen` (`tv`) goes back to the poster.

The model has three modules, one per piece of logic in the script:

- `Throttle` (throttle.dfy): the rate limiter `throttle(func, limit)`. The
  closure's captured flag `inThrottle` is the field of the class
  `Throttle.Limiter`; `Call(e)` is the returned closure and `Expire()` is the
  `setTimeout` callback. A ghost log records the events handed to `func`, and
  a ghost trace of every input ties the object to the pure trace semantics,
  about which the burst, ordering and once-per-window lemmas are proved.
  That semantics is three functions: `Throttle.Initial` is the state right
  after `let inThrottle;` (main.js:13), idle with nothing handled;
  `Throttle.Step` is one input, either a call running the closure body
  (main.js:15-18) or the timer callback (main.js:18); and `Throttle.Run`
  applies a trace of inputs in arrival order.
- `Poster` (poster.dfy): `playFunc`, `stopFunc`, `addEventListeners` and
  `cleanup` as transitions over two sets, the registered listeners
  (target, event type, callback) and the CSS class memberships
  (element, token). Sets give the "add an event listener" algorithm of the
  WHATWG DOM Standard (section 2.7, interface EventTarget), where a duplicate
  registration is a no-op, and the set semantics of `DOMTokenList`. Whether
  `#img` and `#video` exist is a pair of flags, so the null guards of the
  script are modelled. The class `Poster.Page` performs each transition step
  by step, and its methods are proved equal to the pure transition functions.
- `Parallax` (parallax.dfy): the angle formulas of `calculateTransform`
  over exact reals, with `unit = 1.7`.

## Model

| member | source | states |
|---|---|---|
| `Throttle.Limiter.constructor` | main.js:12-13 | a new limiter is idle (the flag starts undefined, i.e. falsy), has handled nothing and agrees with the trace semantics |
| `Throttle.Limiter.Call` | main.js:14-19 | the handler runs exactly when the limiter was idle, with the call's own event appended to the handled log; afterwards the limiter is always in cooldown; a dropped call leaves the log unchanged and is not queued |
| `Throttle.Limiter.Expire` | main.js:18 | the timer callback clears the flag so the next call is accepted, and handles nothing |
| `Throttle.RunAppend` | main.js:14-19 | running two input traces one after the other is running their concatenation |
| `Throttle.HandledOnlyGrows` | main.js:15-18 | the handled log is only ever extended: no event, once handled, is lost or rewritten |
| `Throttle.Burst` | main.js:15-19 | within one window (no expiry) an idle limiter hands exactly the first call of a burst to the handler and drops the rest; a limiter in cooldown drops the whole burst and stays in cooldown |
| `Throttle.FirstCallPasses` | main.js:13-17 | the first call a fresh limiter receives always reaches the handler, whatever follows |
| `Throttle.WindowAfterExpiry` | main.js:15-18 | after the timer fires the limiter is idle, and the window that follows passes its first call and nothing else |
| `Throttle.HandledInArrivalOrder` | main.js:14-19 | handled events are a subsequence of the calls' events, in arrival order: nothing reordered, replayed or invented |
| `Throttle.OneHandlerPerWindow` | main.js:15-18 | every handled call uses up a window: handled calls plus the still-open window never exceed the starting window plus the timer expiries |
| `Throttle.AtMostOncePerWindow` | main.js:13-18 | from a fresh limiter, the handler runs at most once more than the timer has fired |
| `Throttle.OneHandlerPerClosedWindow` | main.js:15-18 | when the timer fires only during cooldown, as the script guarantees, the bound of `OneHandlerPerWindow` holds with equality: every window opened is used by exactly one handled call |
| `Throttle.ExactlyOncePerWindow` | main.js:13-18 | from a fresh limiter whose timer fires only during cooldown, the handler has run exactly once per expiry, plus once more if the limiter is in cooldown now |
| `Throttle.TwoWindows` | main.js:14-19 | two calls in one window, the timer firing, then a third call: the first and the third are handled |
| `Poster.AfterPlay` | main.js:43-82 | `playFunc` removes the pointer-move and poster-click listeners and no other, hides `#img` if present, shows `#video` if present, activates `#h`, and changes no other class |
| `Poster.AfterStop` | main.js:85-104 | `stopFunc` registers the pointer-move and poster-click listeners and changes no other, shows `#img` if present, hides `#video` if present, deactivates `#h`, and changes no other class |
| `Poster.AfterAddEventListeners` | main.js:119-123 | `addEventListeners` registers all three listeners, touches no other registration and no class |
| `Poster.AfterCleanup` | main.js:129-133 | `cleanup` removes all three listeners, touches no other registration and no class |
| `Poster.ModesExclusive` | main.js:43-104 | no page is in the poster mode and the playing mode at once |
| `Poster.PlayThenStop` | main.js:43-104 | from the poster mode, `playFunc` reaches the playing mode and `stopFunc` then restores exactly the listener set and the class set |
| `Poster.StopThenPlay` | main.js:43-104 | from the playing mode, `stopFunc` reaches the poster mode and `playFunc` then restores exactly the listener set and the class set |
| `Poster.HandlersIdempotent` | main.js:87-97 | running `stopFunc` (or `playFunc`) twice in a row is the same as running it once: registrations and class lists are sets |
| `Poster.StopInPosterModeChangesNothing` | main.js:85-104 | a click on the screen while the poster is shown leaves listeners and classes as they are |
| `Poster.WiringThenCleanup` | main.js:119-133 | wiring a page whose classes show the poster puts it in the poster mode; `cleanup` after wiring is `cleanup` alone, and restores the page when none of the three listeners was registered before |
| `Poster.TogglingKeepsModes` | main.js:43-123 | after any sequence of plays and stops, a wired page is in one of its two modes, still listens for clicks on the screen, and no class other than the three managed ones has changed |
| `Poster.Page.constructor` | main.js:7-8 | a loaded page records whether `#img` and `#video` were found, has its markup's classes and no listener from the script |
| `Poster.Page.AddEventListener` | main.js:87-88 | registering adds the registration to the set (a duplicate is a no-op) and leaves the classes alone |
| `Poster.Page.RemoveEventListener` | main.js:45-46 | removing takes the registration out of the set (an absent one is a no-op) and leaves the classes alone |
| `Poster.Page.ClassListAdd` | main.js:49 | `classList.add` on an element that exists adds the membership and leaves listeners alone |
| `Poster.Page.ClassListRemove` | main.js:51 | `classList.remove` on an element that exists removes the membership and leaves listeners alone |
| `Poster.Page.Play` | main.js:43-82 | the page after `playFunc` is `AfterPlay` of the page before, with absent elements skipped |
| `Poster.Page.Stop` | main.js:85-104 | the page after `stopFunc` is `AfterStop` of the page before, with absent elements skipped |
| `Poster.Page.AddEventListeners` | main.js:119-123 | the page after `addEventListeners` is `AfterAddEventListeners` of the page before |
| `Poster.Page.Cleanup` | main.js:129-133 | the page after `cleanup` is `AfterCleanup` of the page before |
| `Parallax.CalculateTransform` | main.js:5-29 | the perspective (400 × unit vmin) and translateZ (−14 × unit vmin) terms are constants, and the pointer offset can be read back from the two rotations |
| `Parallax.RestingPose` | main.js:24-29 | at the viewport centre the pose is rotateX 66°, rotateZ 35° |
| `Parallax.RightEdgeTopEdge` | main.js:26-27 | at x = 0.5, y = −0.5 the pose is rotateX 64°, rotateZ 29° |
| `Parallax.RotationsFollowPointer` | main.js:26-27 | rotateX increases strictly with y and rotateZ decreases strictly with x, each depending on its own coordinate only |
| `Parallax.CalculateTransformInjective` | main.js:26-27 | distinct pointer offsets give distinct transforms |

## Left out

- Media playback (main.js:54-66, 73-81, 94, 100-103, 107-116): `load`, `play`, `pause`, `currentTime`, the promise `.catch` and `console.error` logging, the `error` and `canplaythrough` listeners and the `preload` attribute. These are calls into the browser's media stack with asynchronous error reporting. The audio element `#a` is guarded only around such calls, so the model has no presence flag for it.
- Real time: the `limit` of `throttle` (16 ms for `base`) and the `setTimeout` delay are not modelled; the timer firing is the explicit input `Expired` / the method `Expire`. A zero-length window is therefore not distinguished from a positive one.
- `Throttle.Limiter.Expire`: is total, also when the limiter is idle; in the script the timer only exists while the flag is set, so that case never arises there.
- `requestAnimationFrame` deferral and the style write `h.style.transform = …` (main.js:37-39).
- The coordinate normalisation `e.pageX / window.innerWidth - 0.5` (main.js:33-34) and its unguarded division, and the formatting of numbers into the CSS transform string (main.js:24-29): only the exact-real values of the four transform terms are modelled, not IEEE doubles or text.
- DOM lookup with `querySelector` (main.js:2-9) and the `DOMContentLoaded` hookup (main.js:126). `document.body`, `#h`, `#bioshock` and `#screen` are used without null checks in the script and are assumed present; only `#img` and `#video` have presence flags.
- Dispatch of events to the registered listeners is not modelled: sequences of `playFunc`/`stopFunc` runs are explicit inputs (`Poster.AfterActions`), not consequences of clicks.
- `Throttle.Limiter.Call`: assumes the wrapped handler returns normally. In the script `func(e)` runs before `inThrottle = true` (main.js:16-17), so a handler that throws leaves the limiter idle, starts no timer and propagates the exception, and a re-entrant call made from inside the handler would also pass; the model always ends a passing call in cooldown. The script's only handler (main.js:32-40) only computes two numbers and schedules a frame.
- The code guarantees less than "exactly one handler execution per burst": it guarantees at most one, and exactly one only when the limiter is idle at the start of the burst; a burst that starts while an earlier window is still in cooldown yields none. The model follows the code (`Throttle.Burst`).
