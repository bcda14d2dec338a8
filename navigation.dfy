/** The carousel's navigation state machine, as values.

    `State` gathers the module-level variables of the controller together with
    the DOM effects it produces (one animation name per panel, one "active"
    flag per dot, the page background).  Each event handler of the controller
    is a step function from the old state to the new one; the class in module
    Carousel performs the same steps in place and is proved to agree with them.

    The panels are given by `colors`: panel i carries the colour token
    `colors[i]` (its data-color attribute), so N = |colors|.  Timers are
    explicit single-slot pending fields, fired by their own step functions;
    no clock is modelled. */
module Navigation {

  datatype Option<T> = None | Some(value: T)

  /** The direction argument of the navigation operation ("left" or "right"). */
  datatype Direction = Left | Right

  /** The animation name last written to a panel's style (Unset: none yet). */
  datatype Animation = Unset | KeyOutFromAbove | KeyOutFromBelow | KeyInFromBelow | KeyInFromAbove

  /** A call of the navigation operation that a handler asks for. */
  datatype Request = Request(index: int, dir: Direction)

  /** What the deferred enter phase captured when it was armed: the panel it
      brings in and the direction of the navigation. */
  datatype Transition = Transition(panel: int, dir: Direction)

  /** Minimum vertical travel, in pixels, for a touch gesture to count as a swipe. */
  const SwipeThreshold: int := 50
  /** Wheel travel, in pixels, that one carousel step stands for. */
  const PixelsPerStep: int := 200
  /** The colour token the page background is set from at load. */
  const InitialColorToken: string := "color-1"

  datatype State = State(
    current: int,                 // the settled panel
    target: int,                  // the panel the last navigation drives toward
    pending: Option<Transition>,  // the armed enter phase, if any
    wheel: Option<Request>,       // the armed wheel action, if any
    touchStartX: int,
    touchStartY: int,
    touchEndX: int,
    touchEndY: int,
    animations: seq<Animation>,   // per panel
    dots: seq<bool>,              // per dot: carries the "active" class
    background: string)           // colour token the background was resolved from

  /** The controller's invariant: indices in range, a transition is in flight
      exactly when the target differs from the settled panel, and the only
      active dot is the one of the settled panel. */
  ghost predicate Inv(s: State, colors: seq<string>) {
    && |colors| >= 1
    && |s.animations| == |colors|
    && |s.dots| == |colors|
    && 0 <= s.current < |colors|
    && 0 <= s.target < |colors|
    && (s.pending.None? <==> s.target == s.current)
    && (s.pending.Some? ==> s.pending.value.panel == s.target)
    && (forall i :: 0 <= i < |s.dots| ==> s.dots[i] == (i == s.current))
  }

  function Abs(x: int): int {
    if x < 0 then -x else x
  }

  /** Brings a requested index into range the way the controller does: a
      negative request selects the last panel, a request past the end the
      first one.  This is not reduction modulo n (see NavigationProperties). */
  function Normalize(index: int, n: int): (r: int)
    requires n >= 1
    ensures 0 <= r < n
    ensures 0 <= index < n ==> r == index
  {
    if index < 0 then n - 1
    else if index >= n then 0
    else index
  }

  function ExitAnimation(dir: Direction): Animation {
    if dir == Right then KeyOutFromAbove else KeyOutFromBelow
  }

  function EnterAnimation(dir: Direction): Animation {
    if dir == Right then KeyInFromBelow else KeyInFromAbove
  }

  /** Number of panels one wheel event moves: the ceiling of |deltaY| / 200. */
  function WheelSteps(deltaY: int): (steps: nat)
    ensures steps * PixelsPerStep >= Abs(deltaY)
    ensures steps > 0 ==> (steps - 1) * PixelsPerStep < Abs(deltaY)
  {
    (Abs(deltaY) + PixelsPerStep - 1) / PixelsPerStep
  }

  /** The navigation a wheel event asks for, computed from the settled panel
      at the time of the event: forward for a positive delta, backward
      otherwise, by WheelSteps panels. */
  function WheelRequest(current: int, deltaY: int): (r: Request)
    ensures r.dir == Right <==> deltaY > 0
    ensures deltaY > 0 ==> r.index >= current
    ensures deltaY <= 0 ==> r.index <= current
    ensures Abs(r.index - current) == WheelSteps(deltaY)
  {
    var steps := WheelSteps(deltaY);
    if deltaY > 0 then Request(current + steps, Right) else Request(current - steps, Left)
  }

  /** The navigation a finished touch gesture asks for, if any: only a
      vertical-dominant gesture longer than the threshold navigates, one
      panel at a time; moving the finger up goes forward. */
  function SwipeRequest(startX: int, startY: int, endX: int, endY: int, current: int): (r: Option<Request>)
    ensures r.Some? <==> Abs(endY - startY) > Abs(endX - startX) && Abs(endY - startY) > SwipeThreshold
    ensures r.Some? ==> Abs(r.value.index - current) == 1
    ensures r.Some? ==> (r.value.dir == Right <==> r.value.index > current)
    ensures r.Some? ==> (r.value.dir == Right <==> endY < startY)
  {
    var deltaX := endX - startX;
    var deltaY := endY - startY;
    if Abs(deltaY) > Abs(deltaX) && Abs(deltaY) > SwipeThreshold then
      if deltaY > 0 then Some(Request(current - 1, Left)) else Some(Request(current + 1, Right))
    else
      None
  }

  /** The direction a dot click uses: right exactly when the dot lies after
      the settled panel. */
  function DotDirection(index: int, current: int): (dir: Direction)
    ensures dir == Right <==> index > current
  {
    if index > current then Right else Left
  }

  /** The state at page load: panel 0 settled, only dot 0 active, no timer armed. */
  function Initial(colors: seq<string>): (s: State)
    requires |colors| >= 1
    ensures Inv(s, colors)
    ensures s.current == 0 && s.pending.None? && s.wheel.None?
    ensures s.background == InitialColorToken
    ensures s.touchStartX == 0 && s.touchStartY == 0 && s.touchEndX == 0 && s.touchEndY == 0
    ensures forall i :: 0 <= i < |s.animations| ==> s.animations[i] == Unset
  {
    State(0, 0, None, None, 0, 0, 0, 0,
          seq(|colors|, _ => Unset),
          seq(|colors|, i => i == 0),
          InitialColorToken)
  }

  /** The navigation operation: cancel the armed enter phase, normalise the
      index, record it as the target, and unless it is the settled panel,
      start the exit phase and arm the enter phase. */
  function Navigate(s: State, colors: seq<string>, newIndex: int, dir: Direction): (t: State)
    requires Inv(s, colors)
    ensures Inv(t, colors)
    ensures t.target == Normalize(newIndex, |colors|)
    ensures t.pending.Some? ==> t.pending.value == Transition(t.target, dir)
    ensures t.current == s.current && t.dots == s.dots && t.background == s.background
    ensures t.wheel == s.wheel
    ensures t.touchStartX == s.touchStartX && t.touchStartY == s.touchStartY
    ensures t.touchEndX == s.touchEndX && t.touchEndY == s.touchEndY
    ensures t.(target := s.target, pending := s.pending, animations := s.animations) == s
    ensures t.animations == if t.pending.Some? then s.animations[s.current := ExitAnimation(dir)] else s.animations
  {
    var cancelled := s.(pending := None);
    var index := Normalize(newIndex, |colors|);
    var retargeted := cancelled.(target := index);
    if retargeted.target == retargeted.current then
      retargeted
    else
      retargeted.(animations := s.animations[s.current := ExitAnimation(dir)],
                  pending := Some(Transition(index, dir)))
  }

  /** The deferred enter phase, when its timer fires: animate the captured
      panel in, take its colour, move the active dot and settle on the target.
      With nothing armed there is nothing to fire. */
  function FireTransition(s: State, colors: seq<string>): (t: State)
    requires Inv(s, colors)
    ensures Inv(t, colors)
    ensures s.pending.None? ==> t == s
    ensures s.pending.Some? ==> t.current == s.target && t.pending.None?
    ensures t.wheel == s.wheel
    ensures t.touchStartX == s.touchStartX && t.touchStartY == s.touchStartY
    ensures t.touchEndX == s.touchEndX && t.touchEndY == s.touchEndY
  {
    match s.pending
    case None => s
    case Some(tr) =>
      s.(animations := s.animations[tr.panel := EnterAnimation(tr.dir)],
         background := colors[tr.panel],
         dots := s.dots[s.current := false][s.target := true],
         current := s.target,
         pending := None)
  }

  /** A click on dot `index`. */
  function ClickDot(s: State, colors: seq<string>, index: int): (t: State)
    requires Inv(s, colors)
    requires 0 <= index < |colors|
    ensures Inv(t, colors)
    ensures t.target == index
    ensures t.(target := s.target, pending := s.pending, animations := s.animations) == s
    ensures t.animations ==
      if t.pending.Some? then s.animations[s.current := ExitAnimation(DotDirection(index, s.current))] else s.animations
  {
    Navigate(s, colors, index, DotDirection(index, s.current))
  }

  /** A click on the "previous" button. */
  function ClickLeft(s: State, colors: seq<string>): (t: State)
    requires Inv(s, colors)
    ensures Inv(t, colors)
    ensures t.target == if s.current == 0 then |colors| - 1 else s.current - 1
    ensures t.(target := s.target, pending := s.pending, animations := s.animations) == s
    ensures t.animations == if t.pending.Some? then s.animations[s.current := ExitAnimation(Left)] else s.animations
  {
    Navigate(s, colors, s.current - 1, Left)
  }

  /** A click on the "next" button. */
  function ClickRight(s: State, colors: seq<string>): (t: State)
    requires Inv(s, colors)
    ensures Inv(t, colors)
    ensures t.target == if s.current == |colors| - 1 then 0 else s.current + 1
    ensures t.(target := s.target, pending := s.pending, animations := s.animations) == s
    ensures t.animations == if t.pending.Some? then s.animations[s.current := ExitAnimation(Right)] else s.animations
  {
    Navigate(s, colors, s.current + 1, Right)
  }

  /** A wheel event: replace the armed wheel action by the one for this delta. */
  function Wheel(s: State, colors: seq<string>, deltaY: int): (t: State)
    requires Inv(s, colors)
    ensures Inv(t, colors)
    ensures t.wheel == Some(WheelRequest(s.current, deltaY))
    ensures t.wheel.value.dir == (if deltaY > 0 then Right else Left)
    ensures t.(wheel := s.wheel) == s
  {
    s.(wheel := Some(WheelRequest(s.current, deltaY)))
  }

  /** The wheel timer fires: perform the navigation it captured. */
  function FireWheel(s: State, colors: seq<string>): (t: State)
    requires Inv(s, colors)
    ensures Inv(t, colors)
    ensures t.wheel.None?
    ensures s.wheel.None? ==> t == s
    ensures s.wheel.Some? ==>
      && t.target == Normalize(s.wheel.value.index, |colors|)
      && (t.pending.Some? ==> t.pending.value.dir == s.wheel.value.dir)
      && t.current == s.current && t.dots == s.dots && t.background == s.background
      && t.(target := s.target, pending := s.pending, animations := s.animations, wheel := s.wheel) == s
      && t.animations ==
           if t.pending.Some? then s.animations[s.current := ExitAnimation(s.wheel.value.dir)] else s.animations
  {
    match s.wheel
    case None => s
    case Some(r) => Navigate(s.(wheel := None), colors, r.index, r.dir)
  }

  function TouchStart(s: State, colors: seq<string>, x: int, y: int): (t: State)
    requires Inv(s, colors)
    ensures Inv(t, colors)
    ensures t.touchStartX == x && t.touchStartY == y
    ensures t.(touchStartX := s.touchStartX, touchStartY := s.touchStartY) == s
  {
    s.(touchStartX := x, touchStartY := y)
  }

  function TouchMove(s: State, colors: seq<string>, x: int, y: int): (t: State)
    requires Inv(s, colors)
    ensures Inv(t, colors)
    ensures t.touchEndX == x && t.touchEndY == y
    ensures t.(touchEndX := s.touchEndX, touchEndY := s.touchEndY) == s
  {
    s.(touchEndX := x, touchEndY := y)
  }

  /** The end of a touch gesture: classify it from the recorded coordinates
      and navigate if it is a swipe. */
  function TouchEnd(s: State, colors: seq<string>): (t: State)
    requires Inv(s, colors)
    ensures Inv(t, colors)
    ensures var r := SwipeRequest(s.touchStartX, s.touchStartY, s.touchEndX, s.touchEndY, s.current);
      && (r.None? ==> t == s)
      && (r.Some? ==> t.target == Normalize(r.value.index, |colors|)
                      && (t.pending.Some? ==> t.pending.value == Transition(t.target, r.value.dir))
                      && t.current == s.current && t.dots == s.dots
                      && t.(target := s.target, pending := s.pending, animations := s.animations) == s
                      && t.animations ==
                           if t.pending.Some? then s.animations[s.current := ExitAnimation(r.value.dir)] else s.animations)
  {
    match SwipeRequest(s.touchStartX, s.touchStartY, s.touchEndX, s.touchEndY, s.current)
    case None => s
    case Some(r) => Navigate(s, colors, r.index, r.dir)
  }

  /** Every input the controller reacts to, including the two timers firing. */
  datatype Event =
    | NavigateTo(index: int, dir: Direction)
    | TransitionTimer
    | DotClick(dot: int)
    | PreviousClick
    | NextClick
    | WheelScroll(deltaY: int)
    | WheelTimer
    | TouchBegin(x: int, y: int)
    | TouchDrag(x: int, y: int)
    | TouchFinish

  /** One event.  A dot click names an existing dot; a click on a position
      with no dot has no handler and changes nothing. */
  function Step(s: State, colors: seq<string>, e: Event): (t: State)
    requires Inv(s, colors)
    ensures Inv(t, colors)
  {
    match e
    case NavigateTo(index, dir) => Navigate(s, colors, index, dir)
    case TransitionTimer => FireTransition(s, colors)
    case DotClick(dot) => if 0 <= dot < |colors| then ClickDot(s, colors, dot) else s
    case PreviousClick => ClickLeft(s, colors)
    case NextClick => ClickRight(s, colors)
    case WheelScroll(deltaY) => Wheel(s, colors, deltaY)
    case WheelTimer => FireWheel(s, colors)
    case TouchBegin(x, y) => TouchStart(s, colors, x, y)
    case TouchDrag(x, y) => TouchMove(s, colors, x, y)
    case TouchFinish => TouchEnd(s, colors)
  }

  /** The state after a sequence of events. */
  function Run(s: State, colors: seq<string>, events: seq<Event>): (t: State)
    requires Inv(s, colors)
    ensures Inv(t, colors)
    decreases |events|
  {
    if events == [] then s
    else Run(Step(s, colors, events[0]), colors, events[1..])
  }
}
