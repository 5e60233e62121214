/**
  The slice of the browser document that the planner script touches: elements with
  an ordered child list, the attach/detach component that inserts one element into a
  host, and the layout numbers a tooltip is placed from.
 */
module Dom {

  /** A document element. `id` is its id attribute, `extraInfo` its data-extra-info
      text, and `isTooltip` tells whether the script created it as a tooltip card. */
  class Element {
    const id: string
    const isTooltip: bool
    const extraInfo: string
    var children: seq<Element>

    constructor (id: string, isTooltip: bool, extraInfo: string)
      ensures this.id == id && this.isTooltip == isTooltip && this.extraInfo == extraInfo
      ensures children == []
    {
      this.id := id;
      this.isTooltip := isTooltip;
      this.extraInfo := extraInfo;
      children := [];
    }
  }

  /** The child list `s` once `e` has been taken out of it (a DOM child occurs at most once,
      so this removes that one occurrence). */
  function Removed(s: seq<Element>, e: Element): (r: seq<Element>)
    ensures forall x :: x in r ==> x in s && x != e
    ensures forall x :: x in s && x != e ==> x in r
    ensures |r| <= |s|
  {
    if s == [] then []
    else if s[0] == e then Removed(s[1..], e)
    else [s[0]] + Removed(s[1..], e)
  }

  /** The child list `s` once `e` has been inserted at its start (`atStart`) or at its end;
      an element that was already a child moves rather than being duplicated. */
  function Attached(s: seq<Element>, e: Element, atStart: bool): (r: seq<Element>)
    ensures |r| > 0
    ensures atStart ==> r[0] == e
    ensures !atStart ==> r[|r| - 1] == e
    ensures multiset(r)[e] == 1
    ensures forall x :: x in s ==> x in r
    ensures forall x :: x in r && x != e ==> x in s
  {
    var rest := Removed(s, e);
    assert e !in rest;
    assert multiset(rest)[e] == 0;
    if atStart then [e] + rest else rest + [e]
  }

  lemma {:induction false} RemovedAbsent(s: seq<Element>, e: Element)
    requires e !in s
    ensures Removed(s, e) == s
  {
    if s != [] {
      RemovedAbsent(s[1..], e);
    }
  }

  lemma {:induction false} RemovedConcat(a: seq<Element>, b: seq<Element>, e: Element)
    ensures Removed(a + b, e) == Removed(a, e) + Removed(b, e)
  {
    if a == [] {
      assert a + b == b;
    } else {
      assert (a + b)[1..] == a[1..] + b;
      RemovedConcat(a[1..], b, e);
    }
  }

  /** Removing an element twice is the same as removing it once. */
  lemma RemovedIdempotent(s: seq<Element>, e: Element)
    ensures Removed(Removed(s, e), e) == Removed(s, e)
  {
  }

  /** Detaching undoes attaching: the other children are back in their old order. */
  lemma DetachUndoesAttach(s: seq<Element>, e: Element, atStart: bool)
    ensures Removed(Attached(s, e, atStart), e) == Removed(s, e)
    ensures e !in s ==> Removed(Attached(s, e, atStart), e) == s
  {
    RemovedIdempotent(s, e);
    if atStart {
      RemovedConcat([e], Removed(s, e), e);
    } else {
      RemovedConcat(Removed(s, e), [e], e);
    }
    if e !in s {
      RemovedAbsent(s, e);
    }
  }

  /** The number of tooltip cards among the children `s`. */
  function TooltipCount(s: seq<Element>): nat
  {
    if s == [] then 0 else (if s[0].isTooltip then 1 else 0) + TooltipCount(s[1..])
  }

  lemma {:induction false} TooltipCountConcat(a: seq<Element>, b: seq<Element>)
    ensures TooltipCount(a + b) == TooltipCount(a) + TooltipCount(b)
  {
    if a == [] {
      assert a + b == b;
    } else {
      assert (a + b)[1..] == a[1..] + b;
      TooltipCountConcat(a[1..], b);
    }
  }

  /** Taking a card out of a child list lowers the card count by the number of times it occurred. */
  lemma {:induction false} TooltipCountRemoved(s: seq<Element>, e: Element)
    ensures TooltipCount(Removed(s, e)) == TooltipCount(s) - (if e.isTooltip then multiset(s)[e] else 0)
  {
    if s != [] {
      TooltipCountRemoved(s[1..], e);
      assert s == [s[0]] + s[1..];
      assert multiset(s) == multiset{s[0]} + multiset(s[1..]);
      if s[0] != e {
        TooltipCountConcat([s[0]], Removed(s[1..], e));
      }
    }
  }

  /** The component half of a tooltip: it owns one element and puts it into a host element,
      at the start of the host's children when `insertBefore` holds and at the end otherwise. */
  class Component {
    const host: Element
    const insertBefore: bool
    const element: Element

    constructor (host: Element, insertBefore: bool, element: Element)
      ensures this.host == host && this.insertBefore == insertBefore && this.element == element
    {
      this.host := host;
      this.insertBefore := insertBefore;
      this.element := element;
    }

    method Attach()
      modifies host`children
      ensures host.children == Attached(old(host.children), element, insertBefore)
    {
      if insertBefore {
        host.children := [element] + Removed(host.children, element);
      } else {
        host.children := Removed(host.children, element) + [element];
      }
    }

    method Detach()
      modifies host`children
      ensures host.children == Removed(old(host.children), element)
    {
      host.children := Removed(host.children, element);
    }
  }

  /** What the browser reports about a tooltip's host when the tooltip is created: its
      offsets within the offset parent, its inner height, and how far its parent is scrolled. */
  datatype Layout = Layout(offsetLeft: int, offsetTop: int, clientHeight: int, parentScrollTop: int)

  /** Where a tooltip is drawn: 20 px right of the host's left edge and 10 px above the
      host's bottom edge as seen through its scrolled parent. */
  function TooltipPosition(host: Layout): (pos: (int, int))
  {
    (host.offsetLeft + 20, host.offsetTop + host.clientHeight - host.parentScrollTop - 10)
  }

  /** Scrolling the parent by `d` moves the tooltip up by `d` and leaves its left edge alone. */
  lemma PositionFollowsScroll(host: Layout, d: int)
    ensures var moved := TooltipPosition(host.(parentScrollTop := host.parentScrollTop + d));
      moved.0 == TooltipPosition(host).0 && moved.1 == TooltipPosition(host).1 - d
  {
  }

  /** The tooltip keeps a fixed offset from the host's corner: moving the host by
      (dx, dy) moves the tooltip by the same amount, and a taller host pushes it down. */
  lemma PositionRelativeToHost(host: Layout, dx: int, dy: int, dh: int)
    ensures var moved := TooltipPosition(host.(offsetLeft := host.offsetLeft + dx,
                                               offsetTop := host.offsetTop + dy,
                                               clientHeight := host.clientHeight + dh));
      moved == (TooltipPosition(host).0 + dx, TooltipPosition(host).1 + dy + dh)
    ensures TooltipPosition(host).0 - host.offsetLeft == 20
    ensures host.offsetTop + host.clientHeight - host.parentScrollTop - TooltipPosition(host).1 == 10
  {
  }
}
