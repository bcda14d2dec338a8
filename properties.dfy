/** What the navigation state machine guarantees, stated over the step
    functions of module Navigation. */
module NavigationProperties {
  import opened Navigation

  // ---------------------------------------------------------------------
  // Index normalisation

  /** Out-of-range requests land on the opposite end of the carousel. */
  lemma NormalizeClampsToOppositeEnd(index: int, n: int)
    requires n >= 1
    ensures index < 0 ==> Normalize(index, n) == n - 1
    ensures index >= n ==> Normalize(index, n) == 0
  {
  }

  /** For the requests a single step produces from a settled panel (one
      before the first up to one past the last) normalisation is the
      cyclic wrap of index modulo n. */
  lemma NormalizeSingleStepIsModular(index: int, n: int)
    requires n >= 1
    requires -1 <= index <= n
    ensures Normalize(index, n) == index % n
  {
  }

  /** Beyond one step it is not: with n >= 2 a request for n + 1 lands on
      panel 0, while the cyclic wrap would give panel 1. */
  lemma NormalizeIsNotModular(n: int)
    requires n >= 2
    ensures Normalize(n + 1, n) == 0
    ensures Normalize(n + 1, n) != (n + 1) % n
  {
  }

  // ---------------------------------------------------------------------
  // The dot invariant

  /** Number of active dots. */
  function CountActive(dots: seq<bool>): (k: nat)
    ensures k <= |dots|
  {
    if dots == [] then 0 else (if dots[0] then 1 else 0) + CountActive(dots[1..])
  }

  lemma {:induction false} NoneActive(dots: seq<bool>)
    requires forall i :: 0 <= i < |dots| ==> !dots[i]
    ensures CountActive(dots) == 0
  {
    if dots != [] {
      NoneActive(dots[1..]);
    }
  }

  lemma {:induction false} OnlyActiveAt(dots: seq<bool>, c: int)
    requires 0 <= c < |dots|
    requires forall i :: 0 <= i < |dots| ==> dots[i] == (i == c)
    ensures CountActive(dots) == 1
  {
    if c == 0 {
      NoneActive(dots[1..]);
    } else {
      OnlyActiveAt(dots[1..], c - 1);
    }
  }

  /** In every state satisfying the invariant exactly one dot is active,
      and it is the dot of the settled panel. */
  lemma ExactlyOneActiveDot(s: State, colors: seq<string>)
    requires Inv(s, colors)
    ensures CountActive(s.dots) == 1
    ensures s.dots[s.current]
  {
    OnlyActiveAt(s.dots, s.current);
  }

  /** The dot invariant holds from page load through any sequence of events,
      including preempted and no-op navigations. */
  lemma DotInvariantAlways(colors: seq<string>, events: seq<Event>)
    requires |colors| >= 1
    ensures var t := Run(Initial(colors), colors, events);
      CountActive(t.dots) == 1 && t.dots[t.current]
  {
    ExactlyOneActiveDot(Run(Initial(colors), colors, events), colors);
  }

  // ---------------------------------------------------------------------
  // The navigation operation

  /** Cancel first: the outcome of a navigation does not depend on which
      transition, if any, was in flight when it was called. */
  lemma CancelFirst(s1: State, s2: State, colors: seq<string>, newIndex: int, dir: Direction)
    requires Inv(s1, colors) && Inv(s2, colors)
    requires s2 == s1.(pending := s2.pending, target := s2.target)
    ensures Navigate(s1, colors, newIndex, dir) == Navigate(s2, colors, newIndex, dir)
  {
  }

  /** A request for the settled panel leaves nothing armed and changes no
      panel, dot or background. */
  lemma NoOpGuard(s: State, colors: seq<string>, newIndex: int, dir: Direction)
    requires Inv(s, colors)
    requires Normalize(newIndex, |colors|) == s.current
    ensures Navigate(s, colors, newIndex, dir) == s.(target := s.current, pending := None)
  {
  }

  /** Any other request starts the exit animation of the settled panel,
      arms the enter phase, and does not move the settled panel yet. */
  lemma ExitPhase(s: State, colors: seq<string>, newIndex: int, dir: Direction)
    requires Inv(s, colors)
    requires Normalize(newIndex, |colors|) != s.current
    ensures var t := Navigate(s, colors, newIndex, dir);
      && t.animations == s.animations[s.current := ExitAnimation(dir)]
      && t.animations[s.current] == (if dir == Right then KeyOutFromAbove else KeyOutFromBelow)
      && t.pending == Some(Transition(Normalize(newIndex, |colors|), dir))
      && t.current == s.current && t.dots == s.dots && t.background == s.background
  {
  }

  /** When the armed enter phase fires, the captured panel animates in, the
      background takes its colour token, the old dot goes off and the new one
      on, and the carousel settles on it. */
  lemma EnterPhase(s: State, colors: seq<string>)
    requires Inv(s, colors)
    requires s.pending.Some?
    ensures var tr := s.pending.value;
      var t := FireTransition(s, colors);
      && t.animations == s.animations[tr.panel := EnterAnimation(tr.dir)]
      && t.animations[tr.panel] == (if tr.dir == Right then KeyInFromBelow else KeyInFromAbove)
      && t.background == colors[tr.panel]
      && !t.dots[s.current] && t.dots[tr.panel]
      && t.current == tr.panel && t.target == tr.panel
      && t.pending.None?
  {
  }

  /** A navigation followed by its timer settles the carousel on the
      normalised request, whatever was in flight before. */
  lemma NavigateThenFireSettles(s: State, colors: seq<string>, newIndex: int, dir: Direction)
    requires Inv(s, colors)
    ensures var t := FireTransition(Navigate(s, colors, newIndex, dir), colors);
      t.current == Normalize(newIndex, |colors|) && t.pending.None? && t.dots[t.current]
  {
  }

  /** Last writer wins: when a second navigation arrives before the first
      one's enter phase, only the second one's effects are observed when the
      timer fires.  The panel the first one aimed at is never animated. */
  lemma PreemptionLastWriterWins(s: State, colors: seq<string>,
                                 a: int, dirA: Direction, b: int, dirB: Direction)
    requires Inv(s, colors)
    requires Normalize(b, |colors|) != s.current
    ensures var t := FireTransition(Navigate(Navigate(s, colors, a, dirA), colors, b, dirB), colors);
      var target := Normalize(b, |colors|);
      && t.current == target
      && t.background == colors[target]
      && t.animations[s.current] == ExitAnimation(dirB)
      && t.animations[target] == EnterAnimation(dirB)
      && (forall k :: 0 <= k < |colors| && k != s.current && k != target ==>
            t.animations[k] == s.animations[k])
  {
  }

  /** A request for the settled panel while a transition is in flight
      abandons it: nothing is armed any more, the carousel stays where it
      was, and the settled panel keeps the exit animation the abandoned
      transition gave it. */
  lemma AbandonedTransitionKeepsExitAnimation(s: State, colors: seq<string>,
                                              a: int, dirA: Direction, dirB: Direction)
    requires Inv(s, colors)
    requires Normalize(a, |colors|) != s.current
    ensures var t := Navigate(Navigate(s, colors, a, dirA), colors, s.current, dirB);
      && t.pending.None?
      && t.current == s.current && t.target == s.current
      && t.dots == s.dots
      && t.animations[s.current] == ExitAnimation(dirA)
      && FireTransition(t, colors) == t
  {
  }

  // ---------------------------------------------------------------------
  // Dot and button handlers

  /** A dot click aims at that dot, going right exactly when the dot lies
      after the settled panel; the click on the settled dot changes nothing
      shown. */
  lemma ClickDotDirection(s: State, colors: seq<string>, index: int)
    requires Inv(s, colors)
    requires 0 <= index < |colors|
    ensures var t := ClickDot(s, colors, index);
      && (index != s.current ==>
            t.pending == Some(Transition(index, if index > s.current then Right else Left)))
      && (index == s.current ==>
            t.pending.None? && t.animations == s.animations && t.dots == s.dots)
      && FireTransition(t, colors).current == index
  {
  }

  /** The buttons step the settled panel cyclically by one. */
  lemma ButtonsStepCyclically(s: State, colors: seq<string>)
    requires Inv(s, colors)
    ensures FireTransition(ClickLeft(s, colors), colors).current == (s.current - 1) % |colors|
    ensures FireTransition(ClickRight(s, colors), colors).current == (s.current + 1) % |colors|
    ensures ClickLeft(s, colors).pending.Some? ==> ClickLeft(s, colors).pending.value.dir == Left
    ensures ClickRight(s, colors).pending.Some? ==> ClickRight(s, colors).pending.value.dir == Right
  {
    NormalizeSingleStepIsModular(s.current - 1, |colors|);
    NormalizeSingleStepIsModular(s.current + 1, |colors|);
    NavigateThenFireSettles(s, colors, s.current - 1, Left);
    NavigateThenFireSettles(s, colors, s.current + 1, Right);
  }

  // ---------------------------------------------------------------------
  // Wheel and swipe

  /** A new wheel event replaces the armed one. */
  lemma WheelReplacesPending(s: State, colors: seq<string>, first: int, second: int)
    requires Inv(s, colors)
    ensures Wheel(Wheel(s, colors, first), colors, second) == Wheel(s, colors, second)
  {
  }

  /** A wheel event followed by its timer navigates WheelSteps panels from
      the panel settled at the time of the event, forward exactly when the
      delta is positive, and the enter phase then settles there. */
  lemma WheelThenFire(s: State, colors: seq<string>, deltaY: int)
    requires Inv(s, colors)
    ensures var t := FireWheel(Wheel(s, colors, deltaY), colors);
      var request := if deltaY > 0 then s.current + WheelSteps(deltaY) else s.current - WheelSteps(deltaY);
      && t.wheel.None?
      && t.target == Normalize(request, |colors|)
      && (t.pending.Some? ==> t.pending.value.dir == (if deltaY > 0 then Right else Left))
      && FireTransition(t, colors).current == Normalize(request, |colors|)
  {
  }

  /** A wheel event with no vertical travel asks for the settled panel, so
      when it fires it abandons any transition in flight. */
  lemma WheelZeroAbandonsTransition(s: State, colors: seq<string>)
    requires Inv(s, colors)
    ensures WheelRequest(s.current, 0) == Request(s.current, Left)
    ensures var t := FireWheel(Wheel(s, colors, 0), colors);
      t.pending.None? && t.current == s.current && t.dots == s.dots
  {
  }

  /** Large wheel travel moves several panels at once: 450 pixels are three
      steps, so from panel 0 of at least four the target is panel 3. */
  lemma WheelMultiStep(s: State, colors: seq<string>)
    requires Inv(s, colors)
    requires s.current == 0 && |colors| >= 4
    ensures WheelSteps(450) == 3
    ensures FireWheel(Wheel(s, colors, 450), colors).pending == Some(Transition(3, Right))
  {
  }

  /** Past the last panel a multi-step wheel lands on panel 0, not where the
      cyclic wrap would: from panel 3 of 5, 450 pixels ask for 6 and reach 0. */
  lemma WheelOvershootLandsOnFirst(s: State, colors: seq<string>)
    requires Inv(s, colors)
    requires s.current == 3 && |colors| == 5
    ensures WheelRequest(3, 450) == Request(6, Right)
    ensures FireTransition(FireWheel(Wheel(s, colors, 450), colors), colors).current == 0
    ensures FireTransition(FireWheel(Wheel(s, colors, 450), colors), colors).current != 6 % 5
  {
  }

  /** A gesture that is not a swipe changes nothing. */
  lemma NonSwipeIgnored(s: State, colors: seq<string>)
    requires Inv(s, colors)
    requires Abs(s.touchEndY - s.touchStartY) <= Abs(s.touchEndX - s.touchStartX)
             || Abs(s.touchEndY - s.touchStartY) <= SwipeThreshold
    ensures TouchEnd(s, colors) == s
  {
  }

  /** Moving the finger up by more than the threshold goes to the next panel;
      moving it down goes to the previous one. */
  lemma SwipeDirection(s: State, colors: seq<string>, x0: int, y0: int, x1: int, y1: int)
    requires Inv(s, colors)
    requires Abs(y1 - y0) > Abs(x1 - x0) && Abs(y1 - y0) > SwipeThreshold
    ensures var t := TouchEnd(TouchMove(TouchStart(s, colors, x0, y0), colors, x1, y1), colors);
      && (y1 < y0 ==> t.target == Normalize(s.current + 1, |colors|)
                      && (t.pending.Some? ==> t.pending.value.dir == Right))
      && (y1 > y0 ==> t.target == Normalize(s.current - 1, |colors|)
                      && (t.pending.Some? ==> t.pending.value.dir == Left))
      && FireTransition(t, colors).current == t.target
  {
  }

  /** A touch start does not reset the end point, so a tap with no move
      after it is classified against the end point of the previous gesture:
      when that point lies far enough above or below the tap, the tap
      navigates, and with two or more panels it leaves the settled panel. */
  lemma TapReusesStaleEndPoint(s: State, colors: seq<string>, x: int, y: int)
    requires Inv(s, colors)
    requires Abs(s.touchEndY - y) > Abs(s.touchEndX - x) && Abs(s.touchEndY - y) > SwipeThreshold
    ensures var t := TouchEnd(TouchStart(s, colors, x, y), colors);
      && t.target == Normalize(if s.touchEndY < y then s.current + 1 else s.current - 1, |colors|)
      && (|colors| >= 2 ==> t.target != s.current && t.pending.Some?)
  {
  }

  /** The end point starts at (0, 0) at page load, so the very first tap,
      made without a move, is classified against that point: a tap far enough
      below the top-left corner goes forward. */
  lemma FirstTapAfterLoadNavigates(colors: seq<string>, x: int, y: int)
    requires |colors| >= 2
    requires y > Abs(x) && y > SwipeThreshold
    ensures TouchEnd(TouchStart(Initial(colors), colors, x, y), colors).pending == Some(Transition(1, Right))
  {
  }
}
