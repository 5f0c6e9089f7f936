/**
 * The slider's page dots: `renderIndicator` builds one dot per page, the
 * dot of the current page drawn in the active style.
 */
module SliderIndicator {
  import opened Digits

  /** The style a dot ends with, after the base dot style and `indicatorStyle`. */
  datatype DotStyle =
    | ActiveColoured(colour: string, width: int)  // active, with the active colour and width
    | ActivePlain                                 // active, but no active colour was given
    | Inactive(colour: string)                    // the inactive colour, the base width

  datatype Dot = Dot(key: string, style: DotStyle)

  predicate IsActive(d: Dot) {
    d.style.ActiveColoured? || d.style.ActivePlain?
  }

  /** The width a dot is drawn with, given the base width of the dot style. */
  function Width(d: Dot, baseWidth: int): int {
    if d.style.ActiveColoured? then d.style.width else baseWidth
  }

  /** The dot pushed for index `i`. */
  function DotAt(i: nat, currentIndex: int, activeColour: string, inactiveColour: string, activeWidth: int): Dot
  {
    Dot(NatToString(i),
        if i == currentIndex then
          (if activeColour != "" then ActiveColoured(activeColour, activeWidth) else ActivePlain)
        else Inactive(inactiveColour))
  }

  /** The dots `renderIndicator` builds, as a value. */
  function Dots(count: int, currentIndex: int, activeColour: string, inactiveColour: string, activeWidth: int): (r: seq<Dot>)
    ensures |r| == if count > 0 then count else 0
  {
    seq(if count > 0 then count else 0,
        i requires 0 <= i => DotAt(i, currentIndex, activeColour, inactiveColour, activeWidth))
  }

  /** `renderIndicator`: the `for` loop pushing one dot per index below `count`. */
  method RenderIndicator(count: int, currentIndex: int, activeColour: string, inactiveColour: string, activeWidth: int)
    returns (indicators: seq<Dot>)
    ensures indicators == Dots(count, currentIndex, activeColour, inactiveColour, activeWidth)
  {
    indicators := [];
    var i := 0;
    while i < count
      invariant 0 <= i <= (if count > 0 then count else 0)
      invariant |indicators| == i
      invariant forall j :: 0 <= j < i ==> indicators[j] == DotAt(j, currentIndex, activeColour, inactiveColour, activeWidth)
    {
      indicators := indicators + [DotAt(i, currentIndex, activeColour, inactiveColour, activeWidth)];
      i := i + 1;
    }
  }

  /** Dot `i` is keyed by the decimal form of `i`, so no two dots share a key. */
  lemma DotKeysDistinct(d: seq<Dot>, count: int, currentIndex: int, activeColour: string, inactiveColour: string,
                        activeWidth: int)
    requires d == Dots(count, currentIndex, activeColour, inactiveColour, activeWidth)
    ensures forall i :: 0 <= i < |d| ==> d[i].key == NatToString(i)
    ensures forall i, j :: 0 <= i < j < |d| ==> d[i].key != d[j].key
  {
    forall i, j | 0 <= i < j < |d|
      ensures d[i].key != d[j].key
    {
      if NatToString(i) == NatToString(j) {
        NatToStringInjective(i, j);
      }
    }
  }

  /**
   * Dot `i` is active exactly when `i` is the current index; so at most one
   * dot is active, and exactly one when `0 <= currentIndex < count`.
   */
  lemma ActiveDot(d: seq<Dot>, count: int, currentIndex: int, activeColour: string, inactiveColour: string,
                  activeWidth: int)
    requires d == Dots(count, currentIndex, activeColour, inactiveColour, activeWidth)
    ensures forall i :: 0 <= i < |d| ==> (IsActive(d[i]) <==> i == currentIndex)
    ensures forall i, j :: 0 <= i < |d| && 0 <= j < |d| && IsActive(d[i]) && IsActive(d[j]) ==> i == j
    ensures (exists i :: 0 <= i < |d| && IsActive(d[i])) <==> 0 <= currentIndex < count
  {
    if 0 <= currentIndex < count {
      assert IsActive(d[currentIndex]);
    }
  }

  /**
   * The active dot takes the active colour and width when an active colour
   * is given, and the base style otherwise; every other dot takes the
   * inactive colour and the base width.
   */
  lemma DotStyles(d: seq<Dot>, count: int, currentIndex: int, activeColour: string, inactiveColour: string,
                  activeWidth: int, baseWidth: int, i: nat)
    requires d == Dots(count, currentIndex, activeColour, inactiveColour, activeWidth)
    requires i < |d|
    ensures i == currentIndex && activeColour != "" ==>
              d[i].style == ActiveColoured(activeColour, activeWidth) && Width(d[i], baseWidth) == activeWidth
    ensures i == currentIndex && activeColour == "" ==>
              d[i].style == ActivePlain && Width(d[i], baseWidth) == baseWidth
    ensures i != currentIndex ==>
              d[i].style == Inactive(inactiveColour) && Width(d[i], baseWidth) == baseWidth
  {
  }
}
