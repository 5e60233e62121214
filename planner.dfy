/**
  The project planner: two lists of project items ("active" and "finished") wired to
  each other so that an item's switch button moves it to the other list, and a
  per-item "more info" button that shows at most one tooltip at a time.
 */
module Planner {
  import opened Wrappers
  import opened Dom

  /** The text of an item's switch button while the item sits in a list of type `listType`. */
  function SwitchLabel(listType: string): (caption: string)
    ensures caption == "Finish" <==> listType == "active"
    ensures caption == "Activate" <==> listType != "active"
  {
    if listType == "active" then "Finish" else "Activate"
  }

  /** The two lists carry different labels, so moving an item between them flips its button. */
  lemma LabelFlips()
    ensures SwitchLabel("active") == "Finish" && SwitchLabel("finished") == "Activate"
    ensures SwitchLabel("active") != SwitchLabel("finished")
  {
  }

  // ---------------------------------------------------------------------------
  // Looking up and filtering items by id

  /** `projects.find(p => p.id === id)`, given as the index of the first match;
      `None` stands for the `undefined` that `find` yields when nothing matches. */
  function FindIndex(ps: seq<ProjectItem>, id: string): (r: Option<nat>)
    ensures r.None? ==> forall p :: p in ps ==> p.id != id
    ensures r.Some? ==> r.value < |ps| && ps[r.value].id == id
    ensures r.Some? ==> forall j :: 0 <= j < r.value ==> ps[j].id != id
  {
    if ps == [] then None
    else if ps[0].id == id then Some(0)
    else match FindIndex(ps[1..], id)
      case None => None
      case Some(k) => Some(k + 1)
  }

  /** The item `find` yields when one matches. */
  function Found(ps: seq<ProjectItem>, id: string): (p: ProjectItem)
    requires FindIndex(ps, id).Some?
    ensures p in ps && p.id == id
  {
    ps[FindIndex(ps, id).value]
  }

  /** `projects.filter(p => p.id !== id)`. */
  function Without(ps: seq<ProjectItem>, id: string): (r: seq<ProjectItem>)
    ensures forall p :: p in r ==> p in ps && p.id != id
    ensures forall p :: p in ps && p.id != id ==> p in r
    ensures |r| <= |ps|
  {
    if ps == [] then []
    else if ps[0].id == id then Without(ps[1..], id)
    else [ps[0]] + Without(ps[1..], id)
  }

  /** Filtering keeps the survivors in their relative order: it distributes over concatenation. */
  lemma {:induction false} WithoutConcat(a: seq<ProjectItem>, b: seq<ProjectItem>, id: string)
    ensures Without(a + b, id) == Without(a, id) + Without(b, id)
  {
    if a == [] {
      assert a + b == b;
    } else {
      assert (a + b)[1..] == a[1..] + b;
      WithoutConcat(a[1..], b, id);
    }
  }

  /** Filtering out an id that no item carries changes nothing. */
  lemma {:induction false} WithoutNoMatch(ps: seq<ProjectItem>, id: string)
    requires forall p :: p in ps ==> p.id != id
    ensures Without(ps, id) == ps
  {
    if ps != [] {
      WithoutNoMatch(ps[1..], id);
    }
  }

  /** Every item occurs once. */
  ghost predicate NoDuplicates(ps: seq<ProjectItem>)
  {
    forall p :: p in ps ==> multiset(ps)[p] == 1
  }

  /** Every item occurs once and no two items share an id, as the document's unique element
      ids guarantee for the items built from it. */
  ghost predicate UniqueIds(ps: seq<ProjectItem>)
  {
    NoDuplicates(ps) &&
    forall p, q :: p in ps && q in ps && p.id == q.id ==> p == q
  }

  /** Element ids pairwise distinct, as HTML requires of a document. */
  ghost predicate DistinctIds(es: seq<Element>)
  {
    forall i, j :: 0 <= i < j < |es| ==> es[i].id != es[j].id
  }

  /** A sequence without duplicates has a different item at every index. */
  lemma NoDuplicatesAt(ps: seq<ProjectItem>, i: nat, j: nat)
    requires NoDuplicates(ps) && i < j < |ps|
    ensures ps[i] != ps[j]
  {
    var x := ps[j];
    assert ps == ps[..j] + ps[j..];
    assert multiset(ps) == multiset(ps[..j]) + multiset(ps[j..]);
    assert x in multiset(ps[j..]);
    assert multiset(ps)[x] == 1;
  }

  /** The converse: a different item at every index means no duplicates. */
  lemma {:induction false} NoDuplicatesFromIndices(ps: seq<ProjectItem>)
    requires forall i, j :: 0 <= i < j < |ps| ==> ps[i] != ps[j]
    ensures NoDuplicates(ps)
  {
    if ps != [] {
      var rest := ps[1..];
      assert forall i, j :: 0 <= i < j < |rest| ==> rest[i] == ps[i + 1] && rest[j] == ps[j + 1];
      NoDuplicatesFromIndices(rest);
      assert ps == [ps[0]] + rest;
      assert ps[0] !in rest;
      forall p | p in ps
        ensures multiset(ps)[p] == 1
      {
        assert multiset(ps) == multiset{ps[0]} + multiset(rest);
      }
    }
  }

  /** Unique ids survive any rearrangement of the same items. */
  lemma UniqueIdsPermutation(a: seq<ProjectItem>, b: seq<ProjectItem>)
    requires UniqueIds(a) && multiset(a) == multiset(b)
    ensures UniqueIds(b)
  {
  }

  /** Items built one per entry of a document with distinct ids have unique ids. */
  lemma UniqueIdsFromEntries(ps: seq<ProjectItem>, es: seq<Element>)
    requires |ps| == |es| && DistinctIds(es)
    requires forall i :: 0 <= i < |ps| ==> ps[i].id == es[i].id
    ensures UniqueIds(ps)
  {
    NoDuplicatesFromIndices(ps);
  }

  /** With unique ids, `find` on an item's own id returns that item. */
  lemma FindOwnId(ps: seq<ProjectItem>, k: nat)
    requires UniqueIds(ps) && k < |ps|
    ensures FindIndex(ps, ps[k].id) == Some(k)
  {
    var r := FindIndex(ps, ps[k].id);
    if r.Some? && r.value != k {
      if r.value < k {
        NoDuplicatesAt(ps, r.value, k);
      }
    }
  }

  /** With unique ids, filtering out an item's id deletes exactly that item and keeps the
      order of the others. */
  lemma WithoutUnique(ps: seq<ProjectItem>, k: nat)
    requires UniqueIds(ps) && k < |ps|
    ensures Without(ps, ps[k].id) == ps[..k] + ps[k + 1..]
  {
    var id := ps[k].id;
    assert ps == ps[..k] + ([ps[k]] + ps[k + 1..]);
    forall p | p in ps[..k] ensures p.id != id {
      var i :| 0 <= i < k && ps[i] == p;
      NoDuplicatesAt(ps, i, k);
    }
    forall p | p in ps[k + 1..] ensures p.id != id {
      var i :| k < i < |ps| && ps[i] == p;
      NoDuplicatesAt(ps, k, i);
    }
    WithoutConcat(ps[..k], [ps[k]] + ps[k + 1..], id);
    WithoutConcat([ps[k]], ps[k + 1..], id);
    WithoutNoMatch(ps[..k], id);
    WithoutNoMatch(ps[k + 1..], id);
  }

  // ---------------------------------------------------------------------------
  // The transfer that one switch performs, on the two lists' contents

  /** Source and destination contents after `switchProject(id)` on the source list whose
      switch handler is the destination's `addProject`: the first item with that id is
      appended to the destination, then every item with that id leaves the source. */
  function Transfer(src: seq<ProjectItem>, dst: seq<ProjectItem>, id: string): (r: (seq<ProjectItem>, seq<ProjectItem>))
    requires FindIndex(src, id).Some?
    ensures forall p :: p in r.0 ==> p in src && p.id != id
    ensures forall p :: p in src && p.id != id ==> p in r.0
    ensures |r.1| == |dst| + 1 && r.1[..|dst|] == dst
    ensures r.1[|dst|] in src && r.1[|dst|].id == id
  {
    (Without(src, id), dst + [Found(src, id)])
  }

  /** Splitting a sequence around index `k`. */
  lemma SplitAt(ps: seq<ProjectItem>, k: nat)
    requires k < |ps|
    ensures ps == ps[..k] + [ps[k]] + ps[k + 1..]
    ensures multiset(ps) == multiset(ps[..k] + ps[k + 1..]) + multiset{ps[k]}
  {
  }

  /** Both halves of a sequence with unique ids have unique ids. */
  lemma UniqueIdsSplit(a: seq<ProjectItem>, b: seq<ProjectItem>)
    requires UniqueIds(a + b)
    ensures UniqueIds(a) && UniqueIds(b)
  {
    assert multiset(a + b) == multiset(a) + multiset(b);
    forall p | p in a ensures multiset(a)[p] == 1 {
      assert p in a + b && p in multiset(a);
    }
    forall p | p in b ensures multiset(b)[p] == 1 {
      assert p in a + b && p in multiset(b);
    }
  }

  /** A switch between two lists moves exactly one item: it leaves the source (the others
      keeping their order), lands once at the end of the destination, nothing is lost or
      duplicated, the lengths change by -1 and +1, and ids stay unique. */
  lemma TransferMovesOne(src: seq<ProjectItem>, dst: seq<ProjectItem>, k: nat)
    requires UniqueIds(src + dst) && k < |src|
    ensures FindIndex(src, src[k].id) == Some(k)
    ensures var t := Transfer(src, dst, src[k].id);
      t == (src[..k] + src[k + 1..], dst + [src[k]]) &&
      src[k] !in t.0 && |t.0| == |src| - 1 && |t.1| == |dst| + 1 &&
      multiset(t.0 + t.1) == multiset(src + dst) &&
      UniqueIds(t.0 + t.1)
  {
    var item := src[k];
    var rest := src[..k] + src[k + 1..];
    UniqueIdsSplit(src, dst);
    FindOwnId(src, k);
    WithoutUnique(src, k);
    assert Transfer(src, dst, item.id) == (rest, dst + [item]);
    SplitAt(src, k);
    assert item !in rest by {
      assert item in src;
      assert multiset(rest)[item] == 0;
    }
    assert multiset(rest + (dst + [item])) == multiset(src + dst);
    UniqueIdsPermutation(src + dst, rest + (dst + [item]));
  }

  /** A switch out of the second of two lists, seen in the order of the first: ids stay
      unique and no item is lost or duplicated. */
  lemma TransferFromSecond(first: seq<ProjectItem>, second: seq<ProjectItem>, k: nat)
    requires UniqueIds(first + second) && k < |second|
    ensures FindIndex(second, second[k].id) == Some(k)
    ensures var t := Transfer(second, first, second[k].id);
      UniqueIds(t.1 + t.0) && multiset(t.1 + t.0) == multiset(first + second)
  {
    assert multiset(second + first) == multiset(first + second);
    UniqueIdsPermutation(first + second, second + first);
    TransferMovesOne(second, first, k);
    var t := Transfer(second, first, second[k].id);
    assert multiset(t.1 + t.0) == multiset(t.0 + t.1);
    UniqueIdsPermutation(t.0 + t.1, t.1 + t.0);
  }

  /** Moving the item at index `k` to the end keeps the same items, and gives back the
      same sequence exactly when the item was already last. */
  lemma MoveToEnd(ps: seq<ProjectItem>, k: nat)
    requires NoDuplicates(ps) && k < |ps|
    ensures multiset(ps[..k] + ps[k + 1..] + [ps[k]]) == multiset(ps)
    ensures ps[..k] + ps[k + 1..] + [ps[k]] == ps <==> k == |ps| - 1
  {
    SplitAt(ps, k);
    var moved := ps[..k] + ps[k + 1..] + [ps[k]];
    if k < |ps| - 1 {
      assert moved[k] == ps[k + 1];
      NoDuplicatesAt(ps, k, k + 1);
    } else {
      assert ps[k + 1..] == [];
    }
  }

  /** Switching an item out of a list and straight back restores the membership of both
      lists, but the item ends up at the end of its list: the original order comes back
      exactly when it was already last. */
  lemma RoundTrip(active: seq<ProjectItem>, finished: seq<ProjectItem>, k: nat)
    requires UniqueIds(active + finished) && k < |active|
    ensures var id := active[k].id;
      var there := Transfer(active, finished, id);
      FindIndex(there.1, id).Some? &&
      var back := Transfer(there.1, there.0, id);
      back.0 == finished &&
      back.1 == active[..k] + active[k + 1..] + [active[k]] &&
      multiset(back.1) == multiset(active) &&
      (back.1 == active <==> k == |active| - 1)
  {
    var item := active[k];
    var rest := active[..k] + active[k + 1..];
    var fin := finished + [item];
    TransferMovesOne(active, finished, k);
    assert Transfer(active, finished, item.id) == (rest, fin);
    assert multiset(fin + rest) == multiset(rest + fin);
    UniqueIdsPermutation(rest + fin, fin + rest);
    assert fin[|finished|] == item;
    TransferMovesOne(fin, rest, |finished|);
    assert fin[..|finished|] + fin[|finished| + 1..] == finished;
    UniqueIdsSplit(active, finished);
    MoveToEnd(active, k);
  }

  /** Why a list must never be its own switch handler: the item is appended to the list
      it came from and the filter that follows then removes both copies, so the item
      disappears from every list. */
  lemma SelfWiredSwitchDropsItem(ps: seq<ProjectItem>, id: string)
    requires FindIndex(ps, id).Some?
    ensures Without(ps + [ps[FindIndex(ps, id).value]], id) == Without(ps, id)
    ensures ps[FindIndex(ps, id).value] !in Without(ps + [ps[FindIndex(ps, id).value]], id)
  {
    var item := ps[FindIndex(ps, id).value];
    WithoutConcat(ps, [item], id);
    assert Without([item], id) == [];
  }

  // ---------------------------------------------------------------------------
  // Objects

  /** A tooltip card shown under a project item; clicking it detaches it and tells its
      owner that no tooltip is live any more. The card is attached through a Component
      held by the tooltip (composition in place of inheritance). */
  class Tooltip {
    const component: Component
    /** The item whose flag the close notifier clears. */
    const owner: ProjectItem
    const text: string
    const x: int
    const y: int

    constructor (owner: ProjectItem, text: string, host: Element, layout: Layout)
      ensures this.owner == owner && this.text == text
      ensures component.host == host && !component.insertBefore
      ensures fresh(component) && fresh(component.element)
      ensures component.element.isTooltip && component.element !in host.children
      ensures (x, y) == TooltipPosition(layout)
    {
      this.owner := owner;
      this.text := text;
      var card := new Element("", true, "");
      component := new Component(host, false, card);
      x := TooltipPosition(layout).0;
      y := TooltipPosition(layout).1;
    }

    /** A click on the card: detach it, then run the close notifier. */
    method CloseTooltip()
      requires owner.TooltipValid() && owner.liveTooltip == this
      modifies component.host`children, owner`hasActiveTooltip, owner`liveTooltip
      ensures component.host.children == Removed(old(component.host.children), component.element)
      ensures !owner.hasActiveTooltip && owner.liveTooltip == null
      ensures owner.TooltipValid() && TooltipCount(owner.element.children) == 0
    {
      component.Detach();
      TooltipCountRemoved(old(component.host.children), component.element);
      owner.hasActiveTooltip := false;
      owner.liveTooltip := null;
    }
  }

  /** One project entry: its id and element, the switch handler it calls (the
      `switchProject` of the list that holds it), the label of its switch button and
      whether one of its tooltips is showing. */
  class ProjectItem {
    const id: string
    const element: Element
    var handler: ProjectList
    var switchLabel: string
    var hasActiveTooltip: bool
    /** The tooltip whose card is showing, the one a click on the card closes. */
    var liveTooltip: Tooltip?

    /** The flag is set exactly while one tooltip card of this item is attached to its
        element, and that card is the live tooltip's; otherwise no card is attached. */
    ghost predicate TooltipValid()
      reads this`hasActiveTooltip, this`liveTooltip, element`children
    {
      element.id == id &&
      (hasActiveTooltip <==> liveTooltip != null) &&
      TooltipCount(element.children) == (if hasActiveTooltip then 1 else 0) &&
      (liveTooltip != null ==>
        liveTooltip.owner == this && liveTooltip.component.host == element &&
        liveTooltip.component.element.isTooltip &&
        liveTooltip.component.element in element.children)
    }

    constructor (element: Element, handler: ProjectList, listType: string)
      requires TooltipCount(element.children) == 0
      ensures id == element.id && this.element == element && this.handler == handler
      ensures switchLabel == SwitchLabel(listType)
      ensures !hasActiveTooltip && TooltipValid()
    {
      id := element.id;
      this.element := element;
      this.handler := handler;
      switchLabel := "";
      hasActiveTooltip := false;
      liveTooltip := null;
      new;
      ConnectSwitchButton(listType);
    }

    /** The "more info" click: nothing while a tooltip is showing, otherwise create one
        from the element's extra info, attach it at the end of the element and set the flag. */
    method ShowMoreInfoHandler(layout: Layout)
      requires TooltipValid()
      modifies this`hasActiveTooltip, this`liveTooltip, element`children
      ensures TooltipValid() && hasActiveTooltip && TooltipCount(element.children) == 1
      ensures old(hasActiveTooltip) ==>
        element.children == old(element.children) && liveTooltip == old(liveTooltip)
      ensures !old(hasActiveTooltip) ==>
        fresh(liveTooltip) && liveTooltip.owner == this && liveTooltip.text == element.extraInfo &&
        (liveTooltip.x, liveTooltip.y) == TooltipPosition(layout) &&
        element.children == old(element.children) + [liveTooltip.component.element]
    {
      if hasActiveTooltip {
        return;
      }
      var tooltip := new Tooltip(this, element.extraInfo, element, layout);
      tooltip.component.Attach();
      RemovedAbsent(old(element.children), tooltip.component.element);
      TooltipCountConcat(old(element.children), [tooltip.component.element]);
      hasActiveTooltip := true;
      liveTooltip := tooltip;
    }

    /** A click on the showing card: the live tooltip closes itself. */
    method ClickTooltip()
      requires TooltipValid() && hasActiveTooltip
      modifies element`children, this`hasActiveTooltip, this`liveTooltip
      ensures element.children == Removed(old(element.children), old(liveTooltip).component.element)
      ensures !hasActiveTooltip && liveTooltip == null
      ensures TooltipValid() && TooltipCount(element.children) == 0
    {
      liveTooltip.CloseTooltip();
    }

    /** Label the switch button for a list of type `listType`. */
    method ConnectSwitchButton(listType: string)
      modifies this`switchLabel
      ensures switchLabel == SwitchLabel(listType)
    {
      switchLabel := SwitchLabel(listType);
    }

    /** Rebind the item to the list it has just joined. */
    method Update(handler: ProjectList, listType: string)
      modifies this`handler, this`switchLabel
      ensures this.handler == handler && switchLabel == SwitchLabel(listType)
    {
      this.handler := handler;
      ConnectSwitchButton(listType);
    }
  }

  /** A list of projects of one type, in display order, and the handler that receives
      items switched away from it (`null` until it is set). */
  class ProjectList {
    const listType: string
    var projects: seq<ProjectItem>
    var switchHandler: ProjectList?

    /** One item per entry the document holds for this list, each bound to this list. */
    constructor (listType: string, entries: seq<Element>)
      requires forall e :: e in entries ==> TooltipCount(e.children) == 0
      ensures this.listType == listType && switchHandler == null
      ensures |projects| == |entries|
      ensures forall i :: 0 <= i < |entries| ==> projects[i].element == entries[i] && projects[i].id == entries[i].id
      ensures forall p :: p in projects ==>
        fresh(p) && p.handler == this && p.switchLabel == SwitchLabel(listType) &&
        !p.hasActiveTooltip && p.TooltipValid()
    {
      this.listType := listType;
      projects := [];
      switchHandler := null;
      new;
      for i := 0 to |entries|
        invariant |projects| == i && switchHandler == null
        invariant forall j :: 0 <= j < i ==> projects[j].element == entries[j] && projects[j].id == entries[j].id
        invariant forall p :: p in projects ==>
          fresh(p) && p.handler == this && p.switchLabel == SwitchLabel(listType) &&
          !p.hasActiveTooltip && p.TooltipValid()
      {
        var item := new ProjectItem(entries[i], this, listType);
        projects := projects + [item];
      }
    }

    /** Every item of the list is bound to it and labelled for it. */
    ghost predicate Bound()
      reads this, projects
    {
      forall p :: p in projects ==> p.handler == this && p.switchLabel == SwitchLabel(listType)
    }

    method SetSwitchHandlerFunction(handler: ProjectList)
      modifies this`switchHandler
      ensures switchHandler == handler
    {
      switchHandler := handler;
    }

    /** Append the item and rebind it to this list. */
    method AddProject(project: ProjectItem)
      modifies this`projects, project`handler, project`switchLabel
      ensures projects == old(projects) + [project]
      ensures project.handler == this && project.switchLabel == SwitchLabel(listType)
      ensures old(Bound()) ==> Bound()
    {
      projects := projects + [project];
      project.Update(this, listType);
    }

    /** Hand the first item with this id to the switch handler, then drop every item with
        this id from this list. */
    method SwitchProject(id: string)
      requires switchHandler != null && switchHandler != this
      requires FindIndex(projects, id).Some?
      modifies this`projects, switchHandler`projects
      modifies Found(projects, id)`handler, Found(projects, id)`switchLabel
      ensures (projects, switchHandler.projects) == Transfer(old(projects), old(switchHandler.projects), id)
      ensures var moved := old(Found(projects, id));
        moved.handler == switchHandler && moved.switchLabel == SwitchLabel(switchHandler.listType)
      ensures old(Bound()) ==> Bound()
      ensures old(switchHandler.Bound()) ==> switchHandler.Bound()
    {
      var item := Found(projects, id);
      switchHandler.AddProject(item);
      projects := Without(projects, id);
    }
  }

  /** The page: the active and the finished list, each handing switched items to the other. */
  class App {
    const active: ProjectList
    const finished: ProjectList

    ghost function Items(): seq<ProjectItem>
      reads this, active, finished
    {
      active.projects + finished.projects
    }

    /** The wiring, unique ids, and each item bound to and labelled for the list that holds it.
        Each item keeps its own tooltip bookkeeping (ProjectItem.TooltipValid), which no
        switch touches. */
    ghost predicate Valid()
      reads this, active, finished, active.projects, finished.projects
    {
      active != finished &&
      active.listType == "active" && finished.listType == "finished" &&
      active.switchHandler == finished && finished.switchHandler == active &&
      UniqueIds(active.projects + finished.projects) &&
      active.Bound() && finished.Bound()
    }

    /** Build both lists from the document's entries and wire each to the other. */
    constructor Init(activeEntries: seq<Element>, finishedEntries: seq<Element>)
      requires DistinctIds(activeEntries + finishedEntries)
      requires forall e :: e in activeEntries + finishedEntries ==> TooltipCount(e.children) == 0
      ensures Valid()
      ensures fresh(active) && fresh(finished) && forall p :: p in Items() ==> fresh(p)
      ensures forall p :: p in Items() ==> p.element.id == p.id && !p.hasActiveTooltip && p.TooltipValid()
      ensures |active.projects| == |activeEntries| && |finished.projects| == |finishedEntries|
      ensures forall i :: 0 <= i < |activeEntries| ==> active.projects[i].element == activeEntries[i]
      ensures forall i :: 0 <= i < |finishedEntries| ==> finished.projects[i].element == finishedEntries[i]
    {
      var a := new ProjectList("active", activeEntries);
      var f := new ProjectList("finished", finishedEntries);
      a.SetSwitchHandlerFunction(f);
      f.SetSwitchHandlerFunction(a);
      active := a;
      finished := f;
      new;
      assert UniqueIds(a.projects + f.projects) by {
        var items, entries := a.projects + f.projects, activeEntries + finishedEntries;
        assert forall i :: 0 <= i < |items| ==> items[i].id == entries[i].id;
        UniqueIdsFromEntries(items, entries);
      }
      forall p | p in Items()
        ensures fresh(p) && p.element.id == p.id && !p.hasActiveTooltip && p.TooltipValid()
      {
        assert p in a.projects || p in f.projects;
      }
    }

    /** A click on an item's switch button: its handler moves it to the other list. */
    method ClickSwitch(item: ProjectItem)
      requires Valid() && item in Items()
      modifies active`projects, finished`projects, item`handler, item`switchLabel
      ensures Valid()
      ensures old(item in active.projects) ==>
        (active.projects, finished.projects) == Transfer(old(active.projects), old(finished.projects), item.id) &&
        item.switchLabel == "Activate"
      ensures old(item in finished.projects) ==>
        (finished.projects, active.projects) == Transfer(old(finished.projects), old(active.projects), item.id) &&
        item.switchLabel == "Finish"
      ensures multiset(Items()) == old(multiset(Items()))
    {
      if item in active.projects {
        ghost var k :| 0 <= k < |active.projects| && active.projects[k] == item;
        TransferMovesOne(active.projects, finished.projects, k);
        item.handler.SwitchProject(item.id);
      } else {
        ghost var k :| 0 <= k < |finished.projects| && finished.projects[k] == item;
        TransferFromSecond(active.projects, finished.projects, k);
        item.handler.SwitchProject(item.id);
      }
    }
  }
}
