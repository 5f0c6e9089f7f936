/**
 * The Collapsible: a container whose height animates between a collapsed
 * height and the natural height of its content. Expanding first measures
 * the content (one animation frame later, then through the host's
 * `measure` callback) and then animates to the measured height; layout
 * changes of an expanded, idle container snap the height to the new
 * content height.
 *
 * Host events become methods: `AnimationFrame` for the frame callback,
 * `MeasureResult` for the measure callback, `AnimationEnded` for the end of
 * a timing animation, `LayoutChange` for `onLayout`, `Update` for
 * `componentDidUpdate` with the new props, `Unmount` for
 * `componentWillUnmount`. `height` is the value the animated height was
 * last set to or is animating toward.
 *
 * The host runs at most one animation on the animated height. Starting a
 * new one, or setting the value, ends the one that runs; its end callback
 * runs at once, reporting "not finished", and the component's callback
 * does not look at that flag.
 */
module Collapsible {

  class Collapsible {
    // props
    var collapsed: bool
    var collapsedHeight: real
    var enablePointerEvents: bool

    // state
    var measuring: bool
    var measured: bool
    var contentHeight: real
    var animating: bool
    var height: real
    var unmounted: bool
    var hasContentHandle: bool   // `contentHandle` is set

    // host work in flight, and what the component has told its parent
    var pendingFrames: nat       // frame callbacks requested by a measurement
    var pendingMeasures: nat     // `measure` callbacks requested
    var runningAnimations: nat   // timing animations of `height` whose end callback has not run (0 or 1)
    var animationEnds: nat       // calls made to `onAnimationEnd`

    /**
     * While mounted, a measurement in progress and an animation in progress
     * are each still owed a callback; the height runs one animation at most.
     */
    ghost predicate Valid()
      reads this
    {
      && (measuring && !unmounted ==> pendingFrames + pendingMeasures > 0)
      && (animating && !unmounted ==> runningAnimations > 0)
      && runningAnimations <= 1
    }

    /**
     * A call ended the animation that ran (if one did, `runningAnimations`
     * was `running`): its end callback cleared `animating` and told the
     * parent, unless unmounted. `ends` is the earlier `animationEnds`.
     */
    predicate EndedRunning(running: nat, ends: nat)
      reads this
    {
      animationEnds == ends + (if running > 0 && !unmounted then 1 else 0)
    }

    /**
     * `_transitionToHeight(h)` happened, with `running` animations and `ends`
     * calls to `onAnimationEnd` before it: exactly one animation now runs
     * toward `h`. `animating` is set first, so it stays set unless an
     * earlier animation was ended by the new one while mounted.
     */
    predicate StartedAnimation(h: real, running: nat, ends: nat)
      reads this
    {
      && height == h && runningAnimations == 1
      && (animating <==> running == 0 || unmounted)
      && EndedRunning(running, ends)
    }

    /** `hasKnownHeight`: the outer view is clipped to `height`. */
    predicate HasKnownHeight()
      reads this
    {
      !measuring && (measured || collapsed)
    }

    /** The outer view gets `pointerEvents="none"`. */
    predicate PointerEventsOff()
      reads this
    {
      !enablePointerEvents && collapsed
    }

    constructor (collapsed: bool, collapsedHeight: real, enablePointerEvents: bool)
      ensures Valid()
      ensures this.collapsed == collapsed && this.collapsedHeight == collapsedHeight
      ensures this.enablePointerEvents == enablePointerEvents
      ensures !measuring && !measured && contentHeight == 0.0 && !animating && height == collapsedHeight
      ensures !unmounted && !hasContentHandle
      ensures pendingFrames == 0 && pendingMeasures == 0 && runningAnimations == 0 && animationEnds == 0
      ensures HasKnownHeight() <==> collapsed
      ensures PointerEventsOff() <==> collapsed && !enablePointerEvents
    {
      this.collapsed, this.collapsedHeight, this.enablePointerEvents := collapsed, collapsedHeight, enablePointerEvents;
      measuring, measured, contentHeight, animating, height := false, false, 0.0, false, collapsedHeight;
      unmounted, hasContentHandle := false, false;
      pendingFrames, pendingMeasures, runningAnimations, animationEnds := 0, 0, 0, 0;
    }

    /** `_handleRef`: the host attaches or detaches the content view. */
    method SetContentHandle(present: bool)
      modifies this`hasContentHandle
      ensures hasContentHandle == present
    {
      hasContentHandle := present;
    }

    /** `componentWillUnmount` */
    method Unmount()
      requires Valid()
      modifies this`unmounted
      ensures Valid() && unmounted
    {
      unmounted := true;
    }

    /**
     * `_transitionToHeight(h)`: sets `animating`, then starts a timing
     * animation of `height` toward `h`, which ends the one that runs. (The
     * `_animation.stop()` guard never fires: `_animation` holds what
     * `start` returns, which is nothing.)
     */
    method TransitionToHeight(h: real)
      requires Valid()
      modifies this`animating, this`height, this`runningAnimations, this`animationEnds
      ensures Valid()
      ensures StartedAnimation(h, old(runningAnimations), old(animationEnds))
    {
      animating := true;
      if runningAnimations > 0 {
        AnimationEnded();
      }
      height := h;
      runningAnimations := runningAnimations + 1;
    }

    /** `height.setValue(v)`: the height jumps to `v`, ending the animation that runs. */
    method SetHeightValue(v: real)
      requires Valid()
      modifies this`animating, this`height, this`runningAnimations, this`animationEnds
      ensures Valid()
      ensures height == v && runningAnimations == 0
      ensures EndedRunning(old(runningAnimations), old(animationEnds))
      ensures !unmounted ==> !animating
      ensures unmounted ==> animating == old(animating)
    {
      if runningAnimations > 0 {
        AnimationEnded();
      }
      height := v;
    }

    /** The end callback of a timing animation: ignored once unmounted; otherwise the animation is over and the parent is told. */
    method AnimationEnded()
      requires Valid() && runningAnimations > 0
      modifies this`animating, this`runningAnimations, this`animationEnds
      ensures Valid()
      ensures runningAnimations == old(runningAnimations) - 1
      ensures unmounted ==> animating == old(animating) && animationEnds == old(animationEnds)
      ensures !unmounted ==> !animating && animationEnds == old(animationEnds) + 1
    {
      runningAnimations := runningAnimations - 1;
      if unmounted {
        return;
      }
      animating := false;
      animationEnds := animationEnds + 1;
    }

    /** `_measureContent`: hides the content for measuring and asks for a frame. */
    method MeasureContent()
      requires Valid()
      modifies this`measuring, this`pendingFrames
      ensures Valid()
      ensures measuring && pendingFrames == old(pendingFrames) + 1
      ensures !HasKnownHeight()
    {
      measuring := true;
      pendingFrames := pendingFrames + 1;
    }

    /**
     * The frame callback of a measurement. Without a content view the
     * measurement ends at once and the height goes back to the collapsed
     * height; otherwise the host is asked to measure. Once unmounted, the
     * host drops the state updates and the callbacks that follow them.
     */
    method AnimationFrame()
      requires Valid() && pendingFrames > 0
      modifies this`measuring, this`pendingFrames, this`pendingMeasures,
               this`animating, this`height, this`runningAnimations, this`animationEnds
      ensures Valid()
      ensures pendingFrames == old(pendingFrames) - 1
      ensures hasContentHandle ==>
                pendingMeasures == old(pendingMeasures) + 1 && measuring == old(measuring) &&
                animating == old(animating) && height == old(height) && runningAnimations == old(runningAnimations) &&
                animationEnds == old(animationEnds)
      ensures !hasContentHandle && !unmounted ==>
                !measuring && pendingMeasures == old(pendingMeasures) &&
                StartedAnimation(collapsedHeight, old(runningAnimations), old(animationEnds))
      ensures !hasContentHandle && unmounted ==>
                measuring == old(measuring) && animating == old(animating) && height == old(height) &&
                runningAnimations == old(runningAnimations) && pendingMeasures == old(pendingMeasures) &&
                animationEnds == old(animationEnds)
    {
      pendingFrames := pendingFrames - 1;
      if !hasContentHandle {
        if !unmounted {
          measuring := false;
          TransitionToHeight(collapsedHeight);
        }
      } else {
        pendingMeasures := pendingMeasures + 1;
      }
    }

    /** The `measure` callback: the content is `h` high; the height animates to it. */
    method MeasureResult(h: real)
      requires Valid() && pendingMeasures > 0
      modifies this`measuring, this`measured, this`contentHeight, this`pendingMeasures,
               this`animating, this`height, this`runningAnimations, this`animationEnds
      ensures Valid()
      ensures pendingMeasures == old(pendingMeasures) - 1
      ensures !unmounted ==>
                !measuring && measured && contentHeight == h && HasKnownHeight() &&
                StartedAnimation(h, old(runningAnimations), old(animationEnds))
      ensures unmounted ==>
                measuring == old(measuring) && measured == old(measured) && contentHeight == old(contentHeight) &&
                animating == old(animating) && height == old(height) && runningAnimations == old(runningAnimations) &&
                animationEnds == old(animationEnds)
    {
      pendingMeasures := pendingMeasures - 1;
      if !unmounted {
        measuring, measured, contentHeight := false, true, h;
        TransitionToHeight(h);
      }
    }

    /**
     * `_toggleCollapsed(c)`: collapsing animates to the collapsed height;
     * expanding measures the content when there is a content view, animates
     * to the last measured height when there is none but a measurement is
     * known, and otherwise does nothing.
     */
    method ToggleCollapsed(c: bool)
      requires Valid() && !unmounted
      modifies this`measuring, this`pendingFrames, this`animating, this`height, this`runningAnimations,
               this`animationEnds
      ensures Valid()
      ensures c ==> StartedAnimation(collapsedHeight, old(runningAnimations), old(animationEnds)) &&
                    measuring == old(measuring) && pendingFrames == old(pendingFrames)
      ensures !c && hasContentHandle ==>
                measuring && pendingFrames == old(pendingFrames) + 1 &&
                animating == old(animating) && height == old(height) && runningAnimations == old(runningAnimations) &&
                animationEnds == old(animationEnds)
      ensures !c && !hasContentHandle && measured ==>
                StartedAnimation(contentHeight, old(runningAnimations), old(animationEnds)) &&
                measuring == old(measuring) && pendingFrames == old(pendingFrames)
      ensures !c && !hasContentHandle && !measured ==>
                measuring == old(measuring) && pendingFrames == old(pendingFrames) &&
                animating == old(animating) && height == old(height) && runningAnimations == old(runningAnimations) &&
                animationEnds == old(animationEnds)
    {
      if c {
        TransitionToHeight(collapsedHeight);
      } else if !hasContentHandle {
        if measured {
          TransitionToHeight(contentHeight);
        }
        return;
      } else {
        MeasureContent();
      }
    }

    /**
     * `componentDidUpdate` with the new props. A change of `collapsed`
     * forgets the measurement, then toggles; so expanding without a content
     * view never animates. An unchanged `collapsed` that is true, with a
     * new collapsed height, sets the height to it, which ends a running
     * animation.
     */
    method Update(newCollapsed: bool, newCollapsedHeight: real, newEnablePointerEvents: bool)
      requires Valid() && !unmounted
      modifies this`collapsed, this`collapsedHeight, this`enablePointerEvents, this`measured,
               this`measuring, this`pendingFrames, this`animating, this`height, this`runningAnimations,
               this`animationEnds
      ensures Valid()
      ensures collapsed == newCollapsed && collapsedHeight == newCollapsedHeight
      ensures enablePointerEvents == newEnablePointerEvents
      ensures measured == (old(collapsed) == newCollapsed && old(measured))
      ensures old(collapsed) != newCollapsed && newCollapsed ==>
                StartedAnimation(newCollapsedHeight, old(runningAnimations), old(animationEnds)) &&
                measuring == old(measuring) && pendingFrames == old(pendingFrames)
      ensures old(collapsed) != newCollapsed && !newCollapsed && hasContentHandle ==>
                measuring && pendingFrames == old(pendingFrames) + 1 && !HasKnownHeight() &&
                animating == old(animating) && height == old(height) && runningAnimations == old(runningAnimations) &&
                animationEnds == old(animationEnds)
      ensures old(collapsed) != newCollapsed && !newCollapsed && !hasContentHandle ==>
                measuring == old(measuring) && pendingFrames == old(pendingFrames) &&
                animating == old(animating) && height == old(height) && runningAnimations == old(runningAnimations) &&
                animationEnds == old(animationEnds)
      ensures old(collapsed) == newCollapsed ==> measuring == old(measuring) && pendingFrames == old(pendingFrames)
      ensures old(collapsed) == newCollapsed && newCollapsed && old(collapsedHeight) != newCollapsedHeight ==>
                height == newCollapsedHeight && runningAnimations == 0 && !animating &&
                EndedRunning(old(runningAnimations), old(animationEnds))
      ensures old(collapsed) == newCollapsed && !(newCollapsed && old(collapsedHeight) != newCollapsedHeight) ==>
                animating == old(animating) && runningAnimations == old(runningAnimations) &&
                height == old(height) && animationEnds == old(animationEnds)
    {
      var prevCollapsed, prevCollapsedHeight := collapsed, collapsedHeight;
      collapsed, collapsedHeight, enablePointerEvents := newCollapsed, newCollapsedHeight, newEnablePointerEvents;
      if prevCollapsed != collapsed {
        measured := false;
        ToggleCollapsed(collapsed);
      } else if collapsed && prevCollapsedHeight != collapsedHeight {
        SetHeightValue(collapsedHeight);
      }
    }

    /**
     * `_handleLayoutChange`: ignored while animating, collapsed or
     * measuring, or when the content height is unchanged; otherwise both
     * the height and the content height become the new height (which ends
     * an animation still running after `animating` was cleared).
     */
    method LayoutChange(h: real)
      requires Valid() && !unmounted
      modifies this`height, this`contentHeight, this`animating, this`runningAnimations, this`animationEnds
      ensures Valid()
      ensures animating == old(animating)
      ensures old(animating) || collapsed || measuring || old(contentHeight) == h ==>
                height == old(height) && contentHeight == old(contentHeight) &&
                runningAnimations == old(runningAnimations) && animationEnds == old(animationEnds)
      ensures !(old(animating) || collapsed || measuring || old(contentHeight) == h) ==>
                height == h && contentHeight == h && runningAnimations == 0 &&
                EndedRunning(old(runningAnimations), old(animationEnds))
    {
      if animating || collapsed || measuring || contentHeight == h {
        return;
      }
      SetHeightValue(h);
      contentHeight := h;
    }
  }

  /**
   * Expanding a measured collapsible with a content view: the update starts
   * a measurement (content hidden, height unknown), the frame asks the
   * host, the result animates to the content height, and the end of the
   * animation reports to the parent once.
   */
  method ExpandSequence(h: real, collapsedHeight: real) returns (c: Collapsible)
    ensures !c.collapsed && !c.measuring && c.measured && !c.animating
    ensures c.contentHeight == h && c.height == h && c.HasKnownHeight()
    ensures c.animationEnds == 1
  {
    c := new Collapsible(true, collapsedHeight, false);
    c.SetContentHandle(true);
    c.Update(false, collapsedHeight, false);
    assert !c.HasKnownHeight();
    c.AnimationFrame();
    c.MeasureResult(h);
    c.AnimationEnded();
  }

  /**
   * Collapsing again while the expansion still animates: the new animation
   * ends the old one, whose callback clears `animating` and tells the
   * parent at once, so the collapse runs with `animating` off; its own end
   * tells the parent a second time.
   */
  method InterruptedExpand(h: real, collapsedHeight: real) returns (c: Collapsible, endsWhileCollapsing: nat)
    ensures endsWhileCollapsing == 1
    ensures c.collapsed && !c.animating && c.runningAnimations == 0 && c.height == collapsedHeight
    ensures c.animationEnds == 2
  {
    c := new Collapsible(true, collapsedHeight, false);
    c.SetContentHandle(true);
    c.Update(false, collapsedHeight, false);
    c.AnimationFrame();
    c.MeasureResult(h);
    c.Update(true, collapsedHeight, false);
    assert !c.animating && c.runningAnimations == 1;
    endsWhileCollapsing := c.animationEnds;
    c.AnimationEnded();
  }
}
