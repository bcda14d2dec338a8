# Feature carousel navigator

A model of the navigation state machine of a single-page "feature carousel".
The controller lets a user step through a fixed, ordered set of N >= 1 panels.
Input comes from the previous/next buttons, one dot per panel, the mouse wheel
and vertical touch swipes. Every input ends up in one navigation operation.
That operation works in two phases:

- the exit phase runs at once and animates the settled panel out;
- the enter phase runs when a timer fires. It animates the target panel in,
  recolours the page background from the panel's colour token, moves the
  active dot and settles on the target.

Files:

- `navigation.dfy`, module `Navigation`. The controller's state is a value,
  `State`. It holds the settled and target indices, the two single-slot timers
  (the enter phase and the wheel action), the touch coordinates, one animation
  name per panel, one "active" flag per dot and the background's colour token.
  The module has the pure decisions of the controller (index normalisation,
  wheel step count, swipe classification, dot direction) and one step function
  per handler and timer callback. Every step keeps the invariant `Inv`.
- `properties.dfy`, module `NavigationProperties`. The lemmas: normalisation,
  cancel-first, the no-op guard, the exit and enter phases, last-writer-wins
  preemption, the dot invariant over any sequence of events, and the wheel and
  swipe behaviour.
- `carousel.dfy`, module `Carousel`. Class `Navigator` keeps the controller's
  module-level variables and DOM state as fields and updates them in place.
  Each method is proved to equal the matching step of `Navigation`, applied to
  the old state (`Snapshot()`). So every lemma above also holds of the object.

The model keeps these quirks of the code:

- An out-of-range index is not wrapped modulo N. A negative request selects the
  last panel and a request past the end selects the first. This agrees with the
  cyclic wrap for every request from -1 to N (`NormalizeSingleStepIsModular`),
  but not in general (`NormalizeIsNotModular`).
- A vertical swipe with a positive delta (the finger moves down) goes to the
  previous panel with direction left. A negative delta goes to the next panel
  with direction right.
- At page load the background comes from the fixed token `color-1`, not from
  panel 0's data-color attribute.
- The pending enter phase is cancelled before the no-op check. A request for
  the settled panel while a transition is in flight therefore abandons that
  transition. The settled panel keeps the exit animation that the abandoned
  transition gave it.
- A touch start does not reset the end point of the gesture. A tap with no
  move is therefore classified against the end point of the previous gesture,
  and it can navigate (`TapReusesStaleEndPoint`). The end point starts at
  (0, 0), so even the first tap after load can navigate
  (`FirstTapAfterLoadNavigates`).

## Model

| member | source | states |
|---|---|---|
| Navigation.Normalize | script.js:32-37 | the normalised index lies in [0, n) and an index already in range is unchanged |
| NavigationProperties.NormalizeClampsToOppositeEnd | script.js:33-37 | a negative request gives n-1 and a request >= n gives 0 |
| NavigationProperties.NormalizeSingleStepIsModular | script.js:33-37 | for requests from -1 to n, normalisation equals index mod n (the one-step wrap) |
| NavigationProperties.NormalizeIsNotModular | script.js:33-37 | for n >= 2 a request for n+1 gives 0, which differs from (n+1) mod n |
| Navigation.WheelSteps | script.js:93 | the step count is the ceiling of abs(deltaY)/200: steps*200 covers the travel and steps-1 do not |
| Navigation.WheelRequest | script.js:92-96 | direction right iff deltaY > 0; the request moves exactly WheelSteps panels from the settled one, forward iff deltaY > 0 |
| Navigation.SwipeRequest | script.js:119-134 | a request exists iff abs(dY) > abs(dX) and abs(dY) > 50; it moves exactly one panel; it goes right iff it moves forward iff the finger moved up |
| Navigation.DotDirection | script.js:73 | a dot click uses direction right iff the dot index is greater than the settled index |
| Navigation.Initial | script.js:9-15 | the load state keeps the invariant: panel 0 settled, nothing armed, background token color-1, all touch coordinates 0, no panel animated |
| Navigation.Navigate | script.js:25-50 | keeps the invariant; the target is the normalised request; anything armed afterwards is this call's transition, never an earlier one; only target, pending transition and animations change, and the animations change exactly when a transition is armed, by the exit animation of the settled panel |
| Navigation.FireTransition | script.js:52-67 | keeps the invariant; with a transition armed it settles on the target and disarms; with none armed it changes nothing; the wheel slot and touch coordinates are unchanged |
| Navigation.ClickDot | script.js:71-76 | keeps the invariant and targets the clicked dot; only target, pending transition and animations change, the settled panel getting the exit animation for the dot's direction when a transition is armed |
| Navigation.ClickLeft | script.js:79 | keeps the invariant and targets the previous panel, the last one from panel 0; only target, pending transition and animations change, the settled panel getting the left exit animation when a transition is armed |
| Navigation.ClickRight | script.js:80 | keeps the invariant and targets the next panel, the first one from the last; only target, pending transition and animations change, the settled panel getting the right exit animation when a transition is armed |
| Navigation.Wheel | script.js:86-102 | keeps the invariant; the armed wheel action is exactly WheelRequest of the settled panel and the delta, right iff deltaY > 0; nothing else changes |
| Navigation.FireWheel | script.js:99-101 | keeps the invariant and empties the wheel slot; an armed action targets its captured index, normalised, with its captured direction; besides the slot only target, pending transition and animations change, the settled panel getting the exit animation when a transition is armed; with nothing armed it changes nothing |
| Navigation.TouchStart | script.js:105-108 | keeps the invariant, records the start coordinates and changes nothing else |
| Navigation.TouchMove | script.js:110-113 | keeps the invariant, records the end coordinates and changes nothing else |
| Navigation.TouchEnd | script.js:115-134 | keeps the invariant; when SwipeRequest of the recorded coordinates gives nothing the state is unchanged; otherwise it targets the request's index, normalised, arms only a transition in the request's direction, and changes nothing but target, pending transition and animations, the settled panel getting the exit animation when a transition is armed |
| Navigation.Step | script.js:71-117 | every handler and timer callback keeps the invariant |
| Navigation.Run | script.js:9-15 | any sequence of events keeps the invariant |
| NavigationProperties.ExactlyOneActiveDot | script.js:62-63 | under the invariant exactly one dot is active, and it is the settled panel's |
| NavigationProperties.DotInvariantAlways | script.js:138 | from page load, after any sequence of events, exactly one dot is active and it is the settled panel's |
| NavigationProperties.CancelFirst | script.js:27-30 | the outcome of a navigation does not depend on which transition was in flight |
| NavigationProperties.NoOpGuard | script.js:40-42 | a request that normalises to the settled panel sets target = current, disarms, and changes no panel, dot or background |
| NavigationProperties.ExitPhase | script.js:44-52 | otherwise the settled panel gets keyOutFromAbove for right and keyOutFromBelow for left; the transition to the normalised target is armed; the settled panel, dots and background do not change yet |
| NavigationProperties.EnterPhase | script.js:52-67 | on firing, the captured panel gets keyInFromBelow for right and keyInFromAbove for left; the background takes its token; the old dot goes off and the new one on; current = target; nothing is armed |
| NavigationProperties.NavigateThenFireSettles | script.js:25-67 | a navigation followed by its timer settles on the normalised request |
| NavigationProperties.PreemptionLastWriterWins | script.js:27-30 | of two navigations before a timer fires, only the second one's enter animation, colour and target are observed; the first's target panel is never animated |
| NavigationProperties.AbandonedTransitionKeepsExitAnimation | script.js:40-42 | a request for the settled panel during a transition disarms it for good, and the settled panel keeps the abandoned exit animation |
| NavigationProperties.ClickDotDirection | script.js:72-74 | a dot click arms a transition to that dot, right iff it lies after the settled panel; clicking the settled dot changes nothing shown; firing settles on the dot |
| NavigationProperties.ButtonsStepCyclically | script.js:79-80 | previous/next settle on (current - 1) mod N and (current + 1) mod N, with directions left and right |
| NavigationProperties.WheelReplacesPending | script.js:88-99 | a second wheel event replaces the armed wheel action |
| NavigationProperties.WheelThenFire | script.js:86-101 | for every delta, a wheel event and its timer target the settled panel plus or minus WheelSteps, normalised, right iff deltaY > 0, and the enter phase settles there |
| NavigationProperties.WheelZeroAbandonsTransition | script.js:92-100 | deltaY = 0 requests the settled panel with direction left, so firing it abandons any transition in flight |
| NavigationProperties.WheelMultiStep | script.js:93-100 | 450 pixels are 3 steps: from panel 0 of at least 4 panels, the armed transition goes to panel 3, right |
| NavigationProperties.WheelOvershootLandsOnFirst | script.js:33-37 | from panel 3 of 5, 450 pixels request 6, and the carousel settles on 0, which differs from 6 mod 5 |
| NavigationProperties.NonSwipeIgnored | script.js:124 | a horizontal-dominant or short gesture changes nothing |
| NavigationProperties.SwipeDirection | script.js:119-132 | for every vertical-dominant gesture beyond the threshold, moving up targets the next panel with direction right and moving down the previous one with direction left; the enter phase settles there |
| NavigationProperties.TapReusesStaleEndPoint | script.js:105-124 | a tap without a move is classified against the previous gesture's end point and, with two or more panels, can navigate away from the settled panel |
| NavigationProperties.FirstTapAfterLoadNavigates | script.js:12-15 | the end point starts at (0, 0), so a first tap made without a move, far enough below it, arms a transition to panel 1, right |
| Carousel.Navigator.constructor | script.js:136-138 | the new controller is in the load state `Initial` |
| Carousel.Navigator.Navigate | script.js:25-50 | the new state is `Navigation.Navigate` of the old state; the invariant is kept |
| Carousel.Navigator.FireTransition | script.js:52-67 | the new state is `Navigation.FireTransition` of the old state; the invariant is kept |
| Carousel.Navigator.ClickDot | script.js:71-76 | the new state is `Navigation.ClickDot` of the old state |
| Carousel.Navigator.ClickLeft | script.js:79 | the new state is `Navigation.ClickLeft` of the old state |
| Carousel.Navigator.ClickRight | script.js:80 | the new state is `Navigation.ClickRight` of the old state |
| Carousel.Navigator.Wheel | script.js:86-102 | the new state is `Navigation.Wheel` of the old state |
| Carousel.Navigator.FireWheel | script.js:99-101 | the new state is `Navigation.FireWheel` of the old state |
| Carousel.Navigator.TouchStart | script.js:105-108 | the new state is `Navigation.TouchStart` of the old state |
| Carousel.Navigator.TouchMove | script.js:110-113 | the new state is `Navigation.TouchMove` of the old state |
| Carousel.Navigator.TouchEnd | script.js:115-134 | the new state is `Navigation.TouchEnd` of the old state |

## Left out

- DOM selection and event-listener wiring. Handlers are methods with plain
  arguments; a touch event is its first touch point only.
- Colour lookup through CSS variables (`getCSSVariable`). It is a call into the
  browser, so the background is recorded as the colour token it was resolved
  from.
- Real time. The 175 ms enter delay and the 1 ms wheel delay are explicit
  pending slots, fired by `FireTransition` and `FireWheel`. Once a JavaScript
  timer has fired, its stale handle makes the later `clearTimeout` a no-op; the
  model empties the slot instead. `AnimateItemOnDelay` and `lastScrollPosition`
  are never used and are not modelled.
- The animation duration and easing strings. Only the four animation names are
  kept.
- Navigation.WheelSteps: wheel deltas are integers here, not floating point;
  `ceil(|d|/200)` is computed as `(|d| + 199) / 200`, which agrees on integers.
- Navigation.SwipeRequest: touch coordinates are integers here, not floating point.
- An empty carousel (N = 0), where the source would index a missing element,
  is excluded by `|colors| >= 1`. The number of dots is taken to equal the
  number of panels, and no dot is active in the markup before load.
- Direction strings other than "left" and "right" are not modelled. The
  handlers never pass any other.
