# Project planner — a verified model

The project planner is a browser script (`assets/scripts/app.js`) that keeps project
entries in two lists, "active" and "finished". Each entry has two buttons:

- "More info" shows a tooltip card under the entry. While one is showing, the button does
  nothing, and clicking the card closes it.
- The switch button ("Finish" in the active list, "Activate" in the finished list) moves the
  entry to the other list.

At start-up the two lists are wired to each other: each list's switch handler is the other
list's `addProject`.

This Dafny project models that bookkeeping. The document is cut down to elements with an
ordered child list. Button clicks are direct method calls.

- `wrappers.dfy`, module `Wrappers`: `Option`. It gives the `undefined` of `find` a value.
- `dom.dfy`, module `Dom`: elements and the `Component` attach/detach operations.
  - `Removed` and `Attached` are pure functions on child lists.
  - `TooltipCount` counts tooltip cards among a list of children.
  - `TooltipPosition` gives the tooltip's placement arithmetic.
- `planner.dfy`, module `Planner`:
  - the classes `Tooltip`, `ProjectItem`, `ProjectList` and `App`;
  - the id-based list functions `FindIndex` (`find`), `Without` (`filter`) and `Transfer`
    (what one switch does to the contents of the two lists);
  - the lemmas about those functions.

What is proved:

- Per item:
  - `ProjectItem.TooltipValid` is the flag invariant. The `hasActiveTooltip` flag is set
    exactly when one tooltip card is attached to the item's element. Otherwise no card is
    attached.
  - "More info" keeps this invariant, and so does a click on the card
    (`ProjectItem.ClickTooltip`, which closes the live tooltip).
- Per switch:
  - `ProjectList.SwitchProject` is tied to `Transfer`.
  - `TransferMovesOne` proves that the switched item leaves the source, while the other items
    keep their order.
  - The item lands once at the end of the destination. Nothing is lost or duplicated, and ids
    stay unique.
  - `RoundTrip` proves that switching an item there and back restores membership. The item
    ends up last in its list, so the original order returns only when it was already last.
- `App.Valid` covers the wiring, unique ids, and each item being bound to and labelled for
  the list that holds it. `App.ClickSwitch` preserves it, so every switch click satisfies
  `SwitchProject`'s preconditions.

## Model

| member | source | states |
|---|---|---|
| `Dom.Component.constructor` | assets/scripts/app.js:16-23 | the component keeps the host it was given and whether it inserts at the start of the host's children or at their end |
| `Dom.Removed` | assets/scripts/app.js:24-28 | detaching leaves every other child in place and the detached element nowhere among the children |
| `Dom.Attached` | assets/scripts/app.js:30-35 | with `insertBefore` the element becomes the first child, otherwise the last; it occurs exactly once; no other child is lost or added |
| `Dom.Component.Attach` | assets/scripts/app.js:30-35 | the host's children become `Attached(old children, element, insertBefore)` |
| `Dom.Component.Detach` | assets/scripts/app.js:24-28 | the host's children become `Removed(old children, element)` |
| `Dom.DetachUndoesAttach` | assets/scripts/app.js:24-35 | detaching after attaching gives back the other children in their old order, and exactly the old list if the element was not a child before |
| `Dom.TooltipCountRemoved` | assets/scripts/app.js:46-49 | taking a card out of a child list lowers the number of tooltip cards by the number of times it occurred |
| `Dom.TooltipPosition` | assets/scripts/app.js:56-62 | the tooltip's coordinates computed from the host's offsets, height and its parent's scroll; what they mean is stated by the two lemmas below |
| `Dom.PositionRelativeToHost` | assets/scripts/app.js:56-62 | the tooltip's left edge is 20 px right of the host's left edge, its top 10 px above the host's bottom edge as scrolled; moving or growing the host moves the tooltip by the same amount |
| `Dom.PositionFollowsScroll` | assets/scripts/app.js:59-62 | scrolling the host's parent by d moves the tooltip up by d and leaves its left edge unchanged |
| `Planner.Tooltip.constructor` | assets/scripts/app.js:38-70 | a fresh, not yet attached tooltip card is made for the given host and set up for insertion at the end (`insertBefore` false; `Component.Attach` appends it), with the owner and text given and its position `TooltipPosition` of the host's layout |
| `Planner.Tooltip.CloseTooltip` | assets/scripts/app.js:46-49 | the card leaves its host, the owner's flag is cleared, no card of the owner remains, and the owner's invariant still holds |
| `Planner.ProjectItem.ClickTooltip` | assets/scripts/app.js:46-49 | a click on the showing card (its listener, app.js:68) closes the live tooltip: the card leaves the item's element, the flag is cleared, no card remains and the item's invariant holds, so "more info" works again |
| `Planner.ProjectItem.constructor` | assets/scripts/app.js:74-81 | a new item starts with the flag false, no tooltip attached, the given handler and the label for its list type |
| `Planner.ProjectItem.ShowMoreInfoHandler` | assets/scripts/app.js:83-100 | while the flag is set nothing changes; otherwise exactly one fresh card, carrying the element's extra info and the computed position, is appended and the flag is set; afterwards exactly one card is attached |
| `Planner.SwitchLabel` | assets/scripts/app.js:114 | the label is "Finish" exactly when the list type is "active", and "Activate" exactly when it is not |
| `Planner.LabelFlips` | assets/scripts/app.js:114 | the two lists' labels differ, so a move between them flips the button text |
| `Planner.ProjectItem.ConnectSwitchButton` | assets/scripts/app.js:110-119 | the switch button's label becomes `SwitchLabel(type)` |
| `Planner.ProjectItem.Update` | assets/scripts/app.js:121-124 | the item's handler becomes the new one and its label the one for the new list type; tooltip state is untouched |
| `Planner.ProjectList.constructor` | assets/scripts/app.js:130-140 | one fresh item per document entry, in document order, each bound to this list's `switchProject` and labelled for its type; no switch handler yet |
| `Planner.ProjectList.SetSwitchHandlerFunction` | assets/scripts/app.js:142-144 | the list's switch handler becomes the given list's `addProject` |
| `Planner.ProjectList.AddProject` | assets/scripts/app.js:146-150 | the item is appended last, earlier items unchanged and in order, and the item is rebound to this list with this list's label, so every item of the list stays bound to and labelled for it |
| `Planner.FindIndex` | assets/scripts/app.js:156 | `find` yields the first item with the id, or `undefined` exactly when no item has it |
| `Planner.Found` | assets/scripts/app.js:156 | the item `find` yields when one matches: it belongs to the list and carries the id |
| `Planner.Without` | assets/scripts/app.js:157 | `filter` keeps exactly the items whose id differs |
| `Planner.WithoutConcat` | assets/scripts/app.js:157 | the filter keeps survivors in their relative order (it distributes over concatenation) |
| `Planner.WithoutUnique` | assets/scripts/app.js:157 | with unique ids, filtering out an item's id deletes exactly that item and keeps the rest in order |
| `Planner.FindOwnId` | assets/scripts/app.js:156 | with unique ids, `find` on an item's own id returns that item's index |
| `Planner.ProjectList.SwitchProject` | assets/scripts/app.js:152-158 | the first item with the id is handed to the other list's `addProject` (read before removal), then every item with the id leaves this list: the new contents are `Transfer` of the old, and the moved item is bound and labelled for the destination; in each list every item stays bound to and labelled for that list |
| `Planner.Transfer` | assets/scripts/app.js:146-158 | what one switch does to the two lists' contents: the source keeps only items it held whose id differs, all of them; the destination keeps its old items in order and gains one item of the source carrying the id at its end |
| `Planner.TransferMovesOne` | assets/scripts/app.js:146-158 | a switch removes the item from the source keeping the others' order, appends it once at the end of the destination, lengths change by -1 and +1, the combined multiset is preserved and ids stay unique |
| `Planner.TransferFromSecond` | assets/scripts/app.js:146-158 | a switch out of the finished list, seen as active followed by finished: `find` locates the item, ids stay unique, and no item is lost or duplicated |
| `Planner.MoveToEnd` | assets/scripts/app.js:147-157 | moving an item to the end keeps the same items, and gives the same order exactly when it was already last |
| `Planner.RoundTrip` | assets/scripts/app.js:146-158 | switching an item out of "active" and back leaves "finished" as it was and "active" with the same items, the item now last; the original order returns exactly when it was last already |
| `Planner.SelfWiredSwitchDropsItem` | assets/scripts/app.js:156-157 | if a list were its own switch handler the item would be appended and then filtered out together with the original, vanishing from every list |
| `Planner.UniqueIdsPermutation` | assets/scripts/app.js:157 | unique ids survive any rearrangement of the same items, so switches keep them unique |
| `Planner.App.Init` | assets/scripts/app.js:161-171 | both lists are built from the document's entries and wired to each other's `addProject`; every item is bound to its list, labelled for it, and has no tooltip; the lists and items are new objects, so clicks can follow start-up |
| `Planner.App.ClickSwitch` | assets/scripts/app.js:115-118 | a switch click on any shown item moves it to the other list (as `Transfer` describes), relabels it, preserves the combined multiset of items and keeps the wiring invariant |

## Left out

- Document queries (`getElementById`, `querySelector`, `querySelectorAll`): an item holds its
  element directly, and each list is built from the sequence of entries that the query would
  find.
- `Component`'s fallback to `document.body` when no host id is given: the host is a
  constructor argument, and the tooltip, the only component, always names its host.
- Listener plumbing: `DOMHelper.clearEventListeners` (clone and replace), `addEventListener`
  and `bind`. A click is a direct method call. The switch button calls the item's current
  handler, which is what re-binding after the clone achieves.
- `DOMHelper.moveElement`: the relocation of the entry's node and `scrollIntoView` are left
  out. The `projects` sequences carry list membership.
- CSS class names, the `style` strings (`x + "px"`) and `console.log`. The tooltip's
  coordinates are kept as integers. Layout values come from the caller, as integers;
  fractional browser measurements are not modelled.
- `Planner.ProjectList.SwitchProject` requires that some item has the id. On a missing id the
  script hands `undefined` to `addProject`, which pushes it and then throws at `project.id`.
  `App.ClickSwitch` shows that every switch-button click meets this precondition.
- `Planner.ProjectList.SwitchProject` requires a switch handler to be set. Without one the
  script throws a TypeError at app.js:156. `App.Init` sets both handlers before any click can
  happen.
- `Planner.ProjectList.SwitchProject` also requires that the handler is not the list itself.
  With self-wiring, the item would be deleted (see `SelfWiredSwitchDropsItem`), and the
  start-up wiring never does this.
- `Planner.Tooltip.CloseTooltip` requires that the tooltip is the owner's live one. A click can
  only reach a card that is attached, and the item invariant makes that card the live tooltip;
  `ProjectItem.ClickTooltip` is that click.
- `Dom.Component.Detach` removes the element from its host. The browser removes it from
  whatever parent it has, but a tooltip card only ever has its host as parent.
- Tooltip inheritance (`Tooltip extends Component`) is modelled by composition: a `Tooltip`
  holds a `Component`. The close notifier closure is the reference to the owning item.
- Some properties rest on the document having unique element ids and no tooltip cards at
  load. These are requirements of `App.Init`, not behaviour of the script.
