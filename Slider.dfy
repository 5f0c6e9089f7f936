/**
 * The image carousel. Its FlatList shows `state.data`; with `loop` on,
 * reaching the last item of a copy appends another copy of `props.data`,
 * so the list never runs out. The page shown to the user (and to the page
 * dots) is the raw list index reduced modulo the number of images.
 * Auto-play ticks an interval timer that advances the index by one.
 */
module Slider {
  import opened Wrappers

  /** `copies` copies of `s`, one after another. */
  function Repeat<T>(s: seq<T>, copies: nat): (r: seq<T>)
    ensures |r| == copies * |s|
  {
    if copies == 0 then [] else Repeat(s, copies - 1) + s
  }

  lemma MulMonotone(a: int, b: int, n: nat)
    requires a <= b
    ensures a * n <= b * n
  {
  }

  /** Within the q-th block of `n`, the remainder is the offset inside the block. */
  lemma ModInBlock(i: nat, n: nat, q: nat)
    requires n > 0 && q * n <= i < q * n + n
    ensures i % n == i - q * n && i / n == q
  {
    var d, m := i / n, i % n;
    assert i == d * n + m && 0 <= m < n;
    if d < q {
      MulMonotone(d, q - 1, n);
    } else if d > q {
      MulMonotone(q + 1, d, n);
    }
    assert d == q;
  }

  /** The item at raw index `i` of a repeated list is the original's item `i mod n`. */
  lemma {:induction false} RepeatAt<T>(s: seq<T>, copies: nat, i: nat)
    requires i < |Repeat(s, copies)|
    ensures |s| > 0 && Repeat(s, copies)[i] == s[i % |s|]
  {
    var prev := Repeat(s, copies - 1);
    if i < |prev| {
      RepeatAt(s, copies - 1, i);
    } else {
      ModInBlock(i, |s|, copies - 1);
    }
  }

  /** The page shown for raw index `index`: `index % props.data.length`. */
  function DisplayIndex(index: nat, n: nat): (r: nat)
    requires n > 0
    ensures r < n
    ensures index < n ==> r == index
  {
    index % n
  }

  /** What `getItemLayout` reports for item `index`. */
  datatype ItemLayout = ItemLayout(length: int, offset: int, index: nat)

  function GetItemLayout(width: int, separatorWidth: int, index: nat): ItemLayout
  {
    var totalItemWidth := width + separatorWidth;
    ItemLayout(totalItemWidth, totalItemWidth * index, index)
  }

  /**
   * Items lie end to end: every item reports its own index and the same
   * length, item 0 starts at 0, and each next item starts where the
   * previous one ends.
   */
  lemma ItemsAbut(width: int, separatorWidth: int, index: nat)
    ensures GetItemLayout(width, separatorWidth, index).index == index
    ensures GetItemLayout(width, separatorWidth, index).length == GetItemLayout(width, separatorWidth, 0).length
    ensures GetItemLayout(width, separatorWidth, 0).offset == 0
    ensures GetItemLayout(width, separatorWidth, index + 1).offset ==
            GetItemLayout(width, separatorWidth, index).offset + GetItemLayout(width, separatorWidth, index).length
  {
  }

  class Slider<T> {
    // props
    var propsData: seq<T>
    var loop: bool
    var autoScroll: bool
    var hasIndexCallback: bool   // a `currentIndexCallback` was given

    // state
    var index: nat
    var data: seq<T>
    ghost var copies: nat        // how many copies of `propsData` make up `data`

    // the `sliderTimer` field and the intervals the host keeps firing
    var sliderTimer: Option<nat>
    var intervals: set<nat>
    var nextHandle: nat

    ghost predicate Valid()
      reads this
    {
      && copies >= 1
      && data == Repeat(propsData, copies)
      && (sliderTimer.Some? ==> sliderTimer.value in intervals)
      && (forall h :: h in intervals ==> h < nextHandle)
    }

    constructor (data: seq<T>, loop: bool, autoScroll: bool, hasIndexCallback: bool)
      ensures Valid()
      ensures this.propsData == data && this.loop == loop && this.autoScroll == autoScroll
      ensures this.hasIndexCallback == hasIndexCallback
      ensures index == 0 && this.data == data && copies == 1
      ensures sliderTimer == None && intervals == {}
    {
      propsData, this.loop, this.autoScroll, this.hasIndexCallback := data, loop, autoScroll, hasIndexCallback;
      index, this.data := 0, data;
      copies := 1;
      sliderTimer, intervals, nextHandle := None, {}, 0;
      assert Repeat(data, 1) == [] + data;
    }

    /**
     * `onViewableItemsChanged`: the host reports the indices of the items in
     * view. Returns the index passed to `currentIndexCallback`, if it is called.
     */
    method OnViewableItemsChanged(viewable: seq<nat>) returns (reported: Option<nat>)
      requires Valid()
      modifies this
      ensures Valid()
      ensures viewable == [] ==> index == old(index) && data == old(data) && reported == None
      ensures viewable != [] ==> index == viewable[0]
      ensures viewable != [] ==> reported == if hasIndexCallback then Some(viewable[0]) else None
      ensures data == if viewable != [] && loop && |propsData| > 0 && viewable[0] % |propsData| == |propsData| - 1
                      then old(data) + propsData else old(data)
      // with `loop` on, the item in view always has a successor
      ensures loop && |propsData| > 0 && viewable != [] && viewable[0] < old(|data|) ==> index + 1 < |data|
      ensures propsData == old(propsData) && loop == old(loop) && autoScroll == old(autoScroll)
      ensures hasIndexCallback == old(hasIndexCallback)
      ensures sliderTimer == old(sliderTimer) && intervals == old(intervals) && nextHandle == old(nextHandle)
    {
      reported := None;
      if |viewable| > 0 {
        var currentIndex := viewable[0];
        var n := |propsData|;
        // with no images, `currentIndex % 0` is NaN and never equals -1
        if n > 0 && currentIndex % n == n - 1 && loop {
          if currentIndex + 1 == |data| {
            ModInBlock(currentIndex, n, copies - 1);
          }
          index, data := currentIndex, data + propsData;
          copies := copies + 1;
        } else {
          if loop && n > 0 && currentIndex + 1 == |data| {
            ModInBlock(currentIndex, n, copies - 1);
          }
          index := currentIndex;
        }
        if hasIndexCallback {
          reported := Some(currentIndex);
        }
      }
    }

    /** `changeSliderListIndex`, run by the auto-play interval; returns the index scrolled to. */
    method ChangeSliderListIndex() returns (scrolledTo: nat)
      requires Valid()
      modifies this`index
      ensures Valid()
      ensures index == old(index) + 1 && scrolledTo == index
    {
      index := index + 1;
      scrolledTo := index;
    }

    /** `startAutoPlay`: starts a new interval and keeps its handle in `sliderTimer`. */
    method StartAutoPlay()
      requires Valid()
      modifies this`sliderTimer, this`intervals, this`nextHandle
      ensures Valid()
      ensures sliderTimer.Some? && sliderTimer.value !in old(intervals)
      ensures intervals == old(intervals) + {sliderTimer.value}
    {
      sliderTimer := Some(nextHandle);
      intervals := intervals + {nextHandle};
      nextHandle := nextHandle + 1;
    }

    /** `stopAutoPlay`: clears the interval `sliderTimer` holds, if any; a second call does nothing. */
    method StopAutoPlay()
      requires Valid()
      modifies this`sliderTimer, this`intervals
      ensures Valid()
      ensures sliderTimer == None
      ensures intervals == if old(sliderTimer).Some? then old(intervals) - {old(sliderTimer).value} else old(intervals)
    {
      if sliderTimer.Some? {
        intervals := intervals - {sliderTimer.value};
        sliderTimer := None;
      }
    }

    /** The navigation `focus` listener, registered only with `autoScroll`. */
    method Focus()
      requires Valid()
      modifies this`sliderTimer, this`intervals, this`nextHandle
      ensures Valid()
      ensures autoScroll ==> sliderTimer.Some? && sliderTimer.value !in old(intervals)
      ensures autoScroll ==> intervals == old(intervals) + {sliderTimer.value}
      ensures !autoScroll ==> sliderTimer == old(sliderTimer) && intervals == old(intervals)
    {
      if autoScroll {
        StartAutoPlay();
      }
    }

    /** The navigation `blur` listener, and `componentWillUnmount`: both stop auto-play when `autoScroll` is on. */
    method Blur()
      requires Valid()
      modifies this`sliderTimer, this`intervals
      ensures Valid()
      ensures autoScroll ==> sliderTimer == None
      ensures autoScroll && old(sliderTimer).Some? ==> intervals == old(intervals) - {old(sliderTimer).value}
      ensures !autoScroll || old(sliderTimer).None? ==> intervals == old(intervals)
    {
      if autoScroll {
        StopAutoPlay();
      }
    }

    /** `componentDidUpdate`: a new `data` array (by reference) resets `state.data` to it. */
    method UpdateData(newData: seq<T>, sameReference: bool)
      requires Valid()
      requires sameReference ==> newData == propsData
      modifies this`propsData, this`data, this`copies
      ensures Valid()
      ensures propsData == newData
      ensures !sameReference ==> data == newData && copies == 1
      ensures sameReference ==> data == old(data) && copies == old(copies)
    {
      if !sameReference {
        propsData, data := newData, newData;
        copies := 1;
        assert Repeat(newData, 1) == [] + newData;
      }
    }

    /** The page `index` stands for, as `ChildItem` and the dots receive it. */
    function ShownPage(): (p: nat)
      reads this
      requires Valid() && |propsData| > 0
      ensures p < |propsData|
      ensures index < |data| ==> data[index] == propsData[p]
    {
      if index < |data| then RepeatAt(propsData, copies, index); DisplayIndex(index, |propsData|)
      else DisplayIndex(index, |propsData|)
    }
  }

  /**
   * Two `focus` events without a `blur` between them leave the first
   * interval running, with no handle left to clear it.
   */
  method RefocusLeavesInterval<T>(images: seq<T>) returns (running: nat)
    ensures running == 1
  {
    var s := new Slider(images, false, true, false);
    s.Focus();
    ghost var first := s.sliderTimer.value;
    s.Focus();
    s.Blur();
    assert s.intervals == {first};
    running := |s.intervals|;
  }
}
