/** The carousel controller as the page runs it: one object whose fields are
    the controller's module-level variables and the DOM state it writes, and
    whose methods are the event handlers and the two timer callbacks.  Each
    method is proved to perform exactly the corresponding step of module
    Navigation, so every property proved there holds of the object. */
module Carousel {
  import opened Navigation

  class Navigator {
    /** The data-color token of each panel; there is one panel and one dot per entry. */
    const colors: seq<string>

    var currentIndex: int
    var targetIndex: int
    /** The armed enter phase (the animation timeout), if any. */
    var animationTimeout: Option<Transition>
    /** The armed wheel action (the scroll timeout), if any. */
    var scrollTimeout: Option<Request>
    var touchStartX: int
    var touchStartY: int
    var touchEndX: int
    var touchEndY: int
    /** The animation name written to each panel. */
    var animations: seq<Animation>
    /** Whether each dot carries the "active" class. */
    var dots: seq<bool>
    /** The colour token the page background was last resolved from. */
    var background: string

    ghost function Snapshot(): State
      reads this
    {
      State(currentIndex, targetIndex, animationTimeout, scrollTimeout,
            touchStartX, touchStartY, touchEndX, touchEndY,
            animations, dots, background)
    }

    ghost predicate Valid()
      reads this
    {
      Inv(Snapshot(), colors)
    }

    /** Page load: panel 0 settled, background from the token "color-1",
        dot 0 marked active. */
    constructor(colors: seq<string>)
      requires |colors| >= 1
      ensures Valid()
      ensures this.colors == colors
      ensures Snapshot() == Initial(colors)
    {
      this.colors := colors;
      currentIndex := 0;
      targetIndex := 0;
      animationTimeout := None;
      scrollTimeout := None;
      touchStartX, touchStartY, touchEndX, touchEndY := 0, 0, 0, 0;
      animations := seq(|colors|, _ => Unset);
      background := InitialColorToken;
      dots := seq(|colors|, _ => false);
      new;
      dots := dots[currentIndex := true];
    }

    method Navigate(newIndex: int, dir: Direction)
      requires Valid()
      modifies this
      ensures Valid()
      ensures Snapshot() == Navigation.Navigate(old(Snapshot()), colors, newIndex, dir)
    {
      if animationTimeout.Some? {
        animationTimeout := None;
      }
      targetIndex := Normalize(newIndex, |colors|);
      if targetIndex == currentIndex {
        return;
      }
      animations := animations[currentIndex := ExitAnimation(dir)];
      animationTimeout := Some(Transition(targetIndex, dir));
    }

    /** The animation timeout fires. */
    method FireTransition()
      requires Valid()
      modifies this
      ensures Valid()
      ensures Snapshot() == Navigation.FireTransition(old(Snapshot()), colors)
    {
      if animationTimeout.Some? {
        var transition := animationTimeout.value;
        animations := animations[transition.panel := EnterAnimation(transition.dir)];
        background := colors[transition.panel];
        dots := dots[currentIndex := false];
        dots := dots[targetIndex := true];
        currentIndex := targetIndex;
        animationTimeout := None;
      }
    }

    method ClickDot(index: int)
      requires Valid()
      requires 0 <= index < |colors|
      modifies this
      ensures Valid()
      ensures Snapshot() == Navigation.ClickDot(old(Snapshot()), colors, index)
    {
      Navigate(index, DotDirection(index, currentIndex));
    }

    method ClickLeft()
      requires Valid()
      modifies this
      ensures Valid()
      ensures Snapshot() == Navigation.ClickLeft(old(Snapshot()), colors)
    {
      Navigate(currentIndex - 1, Left);
    }

    method ClickRight()
      requires Valid()
      modifies this
      ensures Valid()
      ensures Snapshot() == Navigation.ClickRight(old(Snapshot()), colors)
    {
      Navigate(currentIndex + 1, Right);
    }

    /** A wheel event arms the wheel action, replacing any armed one. */
    method Wheel(deltaY: int)
      requires Valid()
      modifies this
      ensures Valid()
      ensures Snapshot() == Navigation.Wheel(old(Snapshot()), colors, deltaY)
    {
      scrollTimeout := Some(WheelRequest(currentIndex, deltaY));
    }

    /** The scroll timeout fires. */
    method FireWheel()
      requires Valid()
      modifies this
      ensures Valid()
      ensures Snapshot() == Navigation.FireWheel(old(Snapshot()), colors)
    {
      if scrollTimeout.Some? {
        var request := scrollTimeout.value;
        scrollTimeout := None;
        Navigate(request.index, request.dir);
      }
    }

    method TouchStart(x: int, y: int)
      requires Valid()
      modifies this
      ensures Valid()
      ensures Snapshot() == Navigation.TouchStart(old(Snapshot()), colors, x, y)
    {
      touchStartX := x;
      touchStartY := y;
    }

    method TouchMove(x: int, y: int)
      requires Valid()
      modifies this
      ensures Valid()
      ensures Snapshot() == Navigation.TouchMove(old(Snapshot()), colors, x, y)
    {
      touchEndX := x;
      touchEndY := y;
    }

    /** The touch ends: handle the swipe gesture. */
    method TouchEnd()
      requires Valid()
      modifies this
      ensures Valid()
      ensures Snapshot() == Navigation.TouchEnd(old(Snapshot()), colors)
    {
      var request := SwipeRequest(touchStartX, touchStartY, touchEndX, touchEndY, currentIndex);
      if request.Some? {
        Navigate(request.value.index, request.value.dir);
      }
    }
  }
}
