/**
 * The Accordion: a list of sections, each a header and a collapsible body.
 * The parent owns `activeSections`, the indices of the open sections;
 * pressing a header asks the parent, through `onChange`, to adopt a new
 * list computed here.
 */
module Accordion {
  import opened Wrappers

  datatype AccordionProps = AccordionProps(
    activeSections: seq<int>,
    expandMultiple: bool,   // several sections may be open at once
    disabled: bool,
    hasOnChange: bool)      // an `onChange` callback was given

  /** `activeSections.filter((a) => a !== section)` */
  function RemoveAll(s: seq<int>, x: int): (r: seq<int>)
    ensures x !in r
    ensures forall y :: y != x ==> (y in r <==> y in s)
    ensures |r| <= |s|
  {
    if s == [] then [] else (if s[0] == x then [] else [s[0]]) + RemoveAll(s[1..], x)
  }

  /** The list computed for a press on `section`. */
  function UpdatedSections(active: seq<int>, section: int, expandMultiple: bool): (r: seq<int>)
    ensures section in r <==> section !in active
    ensures forall x :: x in r && x != section ==> x in active
  {
    if section in active then RemoveAll(active, section)
    else if expandMultiple then active + [section]
    else [section]
  }

  /**
   * `_toggleSection(section)`: the list passed to `onChange`, or None when
   * `onChange` is not called (the accordion is disabled, or has no callback).
   */
  function ToggleSection(props: AccordionProps, section: int): (r: Option<seq<int>>)
    ensures r.None? <==> props.disabled || !props.hasOnChange
  {
    if props.disabled then None
    else
      var updated := UpdatedSections(props.activeSections, section, props.expandMultiple);
      if props.hasOnChange then Some(updated) else None
  }

  /** `collapsed={!activeSections.includes(key)}` */
  predicate Collapsed(activeSections: seq<int>, key: int) {
    key !in activeSections
  }

  /** No index occurs twice. */
  predicate NoDuplicates(s: seq<int>) {
    forall i, j :: 0 <= i < j < |s| ==> s[i] != s[j]
  }

  /** Filtering distributes over concatenation: kept entries stay in their order. */
  lemma {:induction false} RemoveAllAppend(a: seq<int>, b: seq<int>, x: int)
    ensures RemoveAll(a + b, x) == RemoveAll(a, x) + RemoveAll(b, x)
  {
    if a == [] {
      assert a + b == b;
    } else {
      assert (a + b)[0] == a[0];
      assert (a + b)[1..] == a[1..] + b;
      RemoveAllAppend(a[1..], b, x);
    }
  }

  /** Removing an index that is not there changes nothing. */
  lemma {:induction false} RemoveAllAbsent(s: seq<int>, x: int)
    requires x !in s
    ensures RemoveAll(s, x) == s
  {
    if s != [] {
      RemoveAllAbsent(s[1..], x);
    }
  }

  /** Filtering keeps a list free of duplicates. */
  lemma {:induction false} RemoveAllNoDuplicates(s: seq<int>, x: int)
    requires NoDuplicates(s)
    ensures NoDuplicates(RemoveAll(s, x))
  {
    if s != [] {
      RemoveAllNoDuplicates(s[1..], x);
      assert s[0] !in s[1..];
    }
  }

  /** The pressed section is open afterwards exactly when it was closed before. */
  lemma ToggleFlipsPressed(props: AccordionProps, section: int)
    requires !props.disabled && props.hasOnChange
    ensures ToggleSection(props, section).Some?
    ensures section in ToggleSection(props, section).value <==> section !in props.activeSections
  {
  }

  /**
   * Every other section keeps its state, except that opening a section
   * when only one may be open closes all the others.
   */
  lemma ToggleKeepsOthers(active: seq<int>, section: int, expandMultiple: bool, key: int)
    requires key != section
    ensures Collapsed(UpdatedSections(active, section, expandMultiple), key) <==>
            Collapsed(active, key) || (section !in active && !expandMultiple)
  {
  }

  /** A list without duplicates stays without duplicates. */
  lemma ToggleNoDuplicates(active: seq<int>, section: int, expandMultiple: bool)
    requires NoDuplicates(active)
    ensures NoDuplicates(UpdatedSections(active, section, expandMultiple))
  {
    if section in active {
      RemoveAllNoDuplicates(active, section);
    }
  }

  /** With several sections allowed open, opening a closed section and closing it again restores the list. */
  lemma OpenThenCloseRestores(active: seq<int>, section: int)
    requires section !in active
    ensures UpdatedSections(UpdatedSections(active, section, true), section, true) == active
  {
    RemoveAllAppend(active, [section], section);
    RemoveAllAbsent(active, section);
  }
}
