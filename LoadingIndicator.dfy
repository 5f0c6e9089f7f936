/**
 * The base of the loading indicators: a looping progress animation that
 * can be stopped part-way and resumed from where it stopped. The field
 * `animationState` follows the cycle
 *
 *    0 -> 1   startAnimation, resumeAnimation
 *    1 -> -1  stopAnimation
 *   -1 -> 0   saveAnimation
 *
 * Host events become methods: `ProgressObserved` for the progress listener
 * that `stopAnimation` registers, `ResumeCompleted` for the end of a resume
 * animation that ran to completion. Starting an animation on `progress`, or
 * stopping it, ends whatever animation ran on it before; the end callback
 * of an animation ended that way reports "not finished", which the
 * component ignores.
 */
module LoadingIndicator {

  /** The opacity the indicator fades toward: shown while animating. */
  function HideTarget(animating: bool): int
  {
    if animating then 1 else 0
  }

  /** What `render` puts in a child slot: nothing, or the custom renderer's output for the given data. */
  datatype Slot = Blank | Rendered(index: nat, count: nat)

  /**
   * `render`: `Array.from(new Array(count), this.renderComponent, this)`.
   * Slot i holds what `renderComponent` gives for index i: the renderer
   * called with `{index: i, count}` when one is given, and nothing
   * otherwise. The `count = 4` default inside `renderComponent` never
   * applies, because the component's own default `count` is 1.
   */
  function ChildSlots(count: nat, hasRenderer: bool): (slots: seq<Slot>)
    ensures |slots| == count
    ensures forall i :: 0 <= i < count ==> (slots[i].Rendered? <==> hasRenderer)
    ensures forall i :: 0 <= i < count && slots[i].Rendered? ==> slots[i].index == i && slots[i].count == |slots|
  {
    seq(count, i requires 0 <= i < count => if hasRenderer then Rendered(i, count) else Blank)
  }

  class Indicator {
    // props
    var animating: bool

    // fields and state
    var animationState: int
    var savedValue: real
    var progress: real          // the last value `progress` was set to
    var hideTarget: int         // the value the hide animation runs toward

    // host
    var loopRunning: bool       // the looping progress animation runs
    var resumeRunning: bool     // a resume animation runs
    var listeners: nat          // progress listeners registered by stopAnimation, not yet fired

    /**
     * `animationState` is one of -1, 0, 1; it is 0 exactly when no progress
     * animation runs, and -1 only while a listener is waiting to save the
     * progress; a running resume has consumed the saved value.
     */
    ghost predicate Valid()
      reads this
    {
      && animationState in {-1, 0, 1}
      && !(loopRunning && resumeRunning)
      && (animationState == 0 <==> !loopRunning && !resumeRunning)
      && (animationState == -1 ==> listeners > 0)
      && (resumeRunning ==> savedValue == 0.0)
    }

    /** The hide animation always aims at the value the `animating` prop calls for. */
    ghost predicate HideInSync()
      reads this
    {
      hideTarget == HideTarget(animating)
    }

    constructor (animating: bool)
      ensures Valid() && HideInSync()
      ensures this.animating == animating
      ensures animationState == 0 && savedValue == 0.0 && progress == 0.0
      ensures !loopRunning && !resumeRunning && listeners == 0
    {
      this.animating := animating;
      animationState, savedValue, progress := 0, 0.0, 0.0;
      hideTarget := HideTarget(animating);
      loopRunning, resumeRunning, listeners := false, false, 0;
    }

    /** `componentDidMount`: starts the animation when `animating`. */
    method Mount()
      requires Valid()
      modifies this`animationState, this`loopRunning, this`resumeRunning
      ensures Valid()
      ensures animating && old(animationState) == 0 ==> animationState == 1 && loopRunning
      ensures !animating || old(animationState) != 0 ==>
                animationState == old(animationState) && loopRunning == old(loopRunning) &&
                resumeRunning == old(resumeRunning)
    {
      if animating {
        StartAnimation();
      }
    }

    /** `startAnimation`: from state 0 only, starts the endless loop and moves to 1. */
    method StartAnimation()
      requires Valid()
      modifies this`animationState, this`loopRunning, this`resumeRunning
      ensures Valid()
      ensures old(animationState) == 0 ==> animationState == 1 && loopRunning && !resumeRunning
      ensures old(animationState) != 0 ==>
                animationState == old(animationState) && loopRunning == old(loopRunning) &&
                resumeRunning == old(resumeRunning)
    {
      if animationState != 0 {
        return;
      }
      loopRunning, resumeRunning := true, false;
      animationState := 1;
    }

    /** `stopAnimation`: from state 1 only, registers a listener to save the progress and moves to -1. */
    method StopAnimation()
      requires Valid()
      modifies this`animationState, this`listeners
      ensures Valid()
      ensures old(animationState) == 1 ==> animationState == -1 && listeners == old(listeners) + 1
      ensures old(animationState) != 1 ==> animationState == old(animationState) && listeners == old(listeners)
    {
      if animationState != 1 {
        return;
      }
      listeners := listeners + 1;
      animationState := -1;
    }

    /**
     * `saveAnimation(value)`, called once the progress animation has been
     * stopped: keeps the progress and moves to 0; when `animating`, resumes
     * at once.
     */
    method SaveAnimation(value: real)
      requires !loopRunning && !resumeRunning
      modifies this`savedValue, this`animationState, this`resumeRunning, this`loopRunning
      ensures Valid()
      ensures animating ==> animationState == 1 && savedValue == 0.0 && resumeRunning && !loopRunning
      ensures !animating ==> animationState == 0 && savedValue == value && !resumeRunning && !loopRunning
    {
      savedValue := value;
      animationState := 0;
      if animating {
        ResumeAnimation();
      }
    }

    /** `resumeAnimation`: from state 0 only, runs the rest of the cycle, consumes the saved value and moves to 1. */
    method ResumeAnimation()
      requires Valid()
      modifies this`savedValue, this`animationState, this`resumeRunning, this`loopRunning
      ensures Valid()
      ensures old(animationState) == 0 ==> animationState == 1 && savedValue == 0.0 && resumeRunning && !loopRunning
      ensures old(animationState) != 0 ==>
                animationState == old(animationState) && savedValue == old(savedValue) &&
                resumeRunning == old(resumeRunning) && loopRunning == old(loopRunning)
    {
      if animationState != 0 {
        return;
      }
      resumeRunning, loopRunning := true, false;
      savedValue := 0.0;
      animationState := 1;
    }

    /** The listener `stopAnimation` registered sees the progress at `value`: it stops the animation and saves. */
    method ProgressObserved(value: real)
      requires Valid() && listeners > 0
      modifies this`listeners, this`savedValue, this`animationState, this`resumeRunning, this`loopRunning
      ensures Valid()
      ensures listeners == old(listeners) - 1
      ensures animating ==> animationState == 1 && savedValue == 0.0 && resumeRunning && !loopRunning
      ensures !animating ==> animationState == 0 && savedValue == value && !resumeRunning && !loopRunning
    {
      listeners := listeners - 1;
      loopRunning, resumeRunning := false, false;
      SaveAnimation(value);
    }

    /** A resume animation finished: the progress restarts from 0 and the loop starts again, in state 1. */
    method ResumeCompleted()
      requires Valid() && resumeRunning
      modifies this`progress, this`animationState, this`resumeRunning, this`loopRunning
      ensures Valid()
      ensures progress == 0.0 && animationState == 1 && loopRunning && !resumeRunning
    {
      resumeRunning := false;
      progress := 0.0;
      animationState := 0;
      StartAnimation();
    }

    /**
     * `componentDidUpdate` with the new `animating` prop: a rising edge
     * resumes, a falling edge stops, and a change retargets the hide
     * animation.
     */
    method Update(newAnimating: bool)
      requires Valid() && HideInSync()
      modifies this`animating, this`hideTarget, this`savedValue, this`animationState,
               this`resumeRunning, this`loopRunning, this`listeners
      ensures Valid() && HideInSync()
      ensures animating == newAnimating
      ensures newAnimating && !old(animating) ==>
                listeners == old(listeners) &&
                (old(animationState) == 0 ==> animationState == 1 && resumeRunning && savedValue == 0.0) &&
                (old(animationState) != 0 ==>
                   animationState == old(animationState) && savedValue == old(savedValue) &&
                   loopRunning == old(loopRunning) && resumeRunning == old(resumeRunning))
      ensures !newAnimating && old(animating) ==>
                savedValue == old(savedValue) && resumeRunning == old(resumeRunning) &&
                (old(animationState) == 1 ==> animationState == -1 && listeners == old(listeners) + 1) &&
                (old(animationState) != 1 ==> animationState == old(animationState) && listeners == old(listeners))
      ensures newAnimating == old(animating) ==>
                animationState == old(animationState) && savedValue == old(savedValue) &&
                listeners == old(listeners) && hideTarget == old(hideTarget) &&
                resumeRunning == old(resumeRunning) && loopRunning == old(loopRunning)
    {
      var prevAnimating := animating;
      animating := newAnimating;
      if animating && !prevAnimating {
        ResumeAnimation();
      }
      if !animating && prevAnimating {
        StopAnimation();
      }
      if animating != prevAnimating {
        hideTarget := HideTarget(animating);
      }
    }
  }

  /**
   * A full stop-and-resume cycle: stopping part-way saves the progress
   * once the listener fires; turning `animating` back on resumes from it,
   * and the finished resume returns to the endless loop.
   */
  method StopResumeCycle(at: real) returns (ind: Indicator)
    ensures ind.Valid() && ind.animationState == 1 && ind.loopRunning && ind.savedValue == 0.0
    ensures ind.listeners == 0 && ind.progress == 0.0
  {
    ind := new Indicator(true);
    ind.Mount();
    ind.Update(false);
    assert ind.animationState == -1;
    ind.ProgressObserved(at);
    assert ind.animationState == 0 && ind.savedValue == at;
    ind.Update(true);
    ind.ResumeCompleted();
  }
}
