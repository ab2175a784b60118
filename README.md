# TuiElement, modelled in Dafny

`TuiElement` is the base class of the tuijs-element web components. A concrete component extends
it and supplies `render()`. The base class decides when the first render happens: it waits until
the host has delivered as many attribute-change notifications as there were attributes at
construction, and then renders on `connectedCallback`. After that, every attribute whose value
changes clears the component's content and renders again. The base class also keeps a registry of
the event listeners a component registers, so that it can remove them all on disconnect. Finally,
it offers helpers that edit the component's children: moving tagged children elsewhere, deleting
children by tag, moving the direct text into a child, and deleting a given list of nodes.

The repository keeps four revisions of the class. Each is modelled in its own module, as a Dafny
`class` whose fields are the ones the source updates and whose methods are the host callbacks and
helpers:

| module | file | revision |
|---|---|---|
| `TuiLib` | `tui_lib.dfy` | `src/lib/class.js`: discounts `class` notifications, releases listeners before every re-render |
| `TuiLegacy` | `tui_legacy.dfy` | `src/index.js`: no registry, two variants of moving tagged children, `moveTextToChild` |
| `TuiDemo` | `tui_demo.dfy` | `demo/public/index.js` (lines 47-251): registry released on disconnect only |
| `TuiExperimental` | `tui_experimental.dfy` | `test/src/index.js`: exact (`===`) threshold, default-attribute lookup, `deleteChildrenNodeList` |

The revisions share these modules:

- `Lifecycle`: the render gate.
- `Registry`: the tracked-listener registry.
- `Children`: the child-editing loops, with the filters that specify them.
- `Dom`: nodes, `toLowerCase` and `trim`.
- `Seqs`: order-preserving filtering and its laws.
- `Wrappers`: `Option` and the `Outcome` of a callback.

Each host callback (`connectedCallback`, `disconnectedCallback`, `attributeChangedCallback`) and each
listener operation states its new state through a pure step function of the old state, via
`Snapshot()`, and the lemmas about the revision are proved on those step functions. The child
helpers, `render` and `checkDefaultAttributes` state the fields they change directly.

Some of the source's behaviour depends on the host, so the model takes it as parameters:

- The host's attribute values are `Option<string>`, where `None` stands for `null`.
- Whether `render()` throws is a parameter `renderFault`. Whether `addEventListener` or `removeEventListener` throws is a parameter `fault`.
- For the release loop, `faults` maps each listener whose removal throws to the host's message.
- Every `catch` that rethrows `new Error(er.message)` becomes `Fail(message)`, carrying the same message.
- The abstract `render()` hook is a counter of calls, `renders`.

Some of the code's behaviour differs from what its comments or names suggest. The model follows the code:

- **First render while connected.** A reader might expect the notification that reaches the threshold to render a component that is already connected. The code only sets `renderRequested` (src/lib/class.js:83-86), and the render waits for the next `connectedCallback` (`TuiLib.NothingBeforeFirstRender`, `TuiLegacy.CountBeforeRender`).
- **Reconnecting.** `connectedCallback` tests `renderRequested` and `attributeLength`, never `rendered` (src/lib/class.js:17). So every ready connect calls `render()` again (`Lifecycle.ReconnectRendersAgain`).
- **Non-rerender attributes.** The comment at src/lib/class.js:59-62 says re-rendering ignores "non-rerender attributes". No revision exempts any name: `test/src/index.js` declares the list (lines 24-29) but never reads it (`TuiExperimental.ExemptNamesRerender`).
- **When tracked listeners are removed.** The comment at src/lib/class.js:146-147 says they are removed when `connectedCallback` is triggered. In fact `src/lib/class.js` removes them on `disconnectedCallback` (line 35) and before a light-DOM re-render (line 72). Line 67, on the shadow-root branch, was meant to remove them too, but it throws instead (see Findings). The demo revision removes them on disconnect only, and keeps them across a re-render (`TuiDemo.RerenderKeepsListeners`). The other two revisions have no registry.
- **Text nodes in `deleteChildrenExceptTagged`.** It walks `this.children`, which holds elements only, so text nodes are never deleted (`Children.KeepTaggedMembers`).

## Model

| member | source | states |
|---|---|---|
| `Lifecycle.Connect` | src/lib/class.js:15-20 | `render` is called exactly once iff `renderRequested` or `attributeLength == 0`. `rendered` becomes true only when that render returns. Otherwise nothing changes. A throwing render is rethrown with its message. |
| `Lifecycle.Arrive` | src/lib/class.js:83-87 | A counted notification raises `attributeCount` by one. It sets `renderRequested` once the comparison holds. A request is never withdrawn, and no other field changes. |
| `Lifecycle.ArrivalsFromInitial` | test/src/index.js:112-116 | After `k` notifications from construction with `n` attributes, the count is `k`. With `>=`, the render is requested iff `k >= 1 && k >= n`. With `===`, it is requested iff `n >= 1 && k >= n`, so it is never requested when there are no attributes. |
| `Lifecycle.FirstRenderAtThreshold` | src/index.js:15-18 | Under either comparison, the first connect after `k` notifications renders iff `k` has reached the attribute count. |
| `Lifecycle.ReconnectRendersAgain` | demo/public/index.js:61-66 | A ready element renders on each of two successive connects. |
| `Registry.Add` | src/lib/class.js:152-160 | On success the host holds the listener and exactly one record is appended, with the earlier records unchanged. If `addEventListener` throws, nothing changes and the message is rethrown. Every tracked record stays registered with the host. |
| `Registry.Remove` | src/lib/class.js:168-179 | On success the listener is unregistered and exactly the records equal in all three fields are dropped. If the host throws, nothing changes and the message is prefixed with "Failed to remove event listener: ". |
| `Registry.Untracked` | src/lib/class.js:171-174 | The filter in `removeTrackedEvent`, never longer than the list. Membership is in `Registry.UntrackedMembers`, order in `Registry.UntrackedOrder`, and that it leaves an untracked triple's list alone is `Registry.UntrackedAbsent`. |
| `Registry.UntrackedMembers` | src/lib/class.js:171-174 | The filter keeps exactly the records that differ from the removed triple. |
| `Registry.UntrackedOrder` | src/lib/class.js:171-174 | The kept records stay in their original order: the filter distributes over concatenation. |
| `Registry.AddThenRemove` | src/lib/class.js:152-179 | Removing a listener just added, when it was not tracked before, restores the tracked list. |
| `Registry.RemoveIdempotent` | src/lib/class.js:168-179 | A second removal of the same triple changes nothing. |
| `Registry.FirstFault` | src/lib/class.js:183-185 | Gives the position of the first record whose removal throws: every record before it removes cleanly. |
| `Registry.ReleaseAllClean` | src/lib/class.js:181-191 | When no removal throws, every tracked triple is unregistered, nothing else is, and the list ends empty. |
| `Registry.ReleaseAllIdempotent` | src/lib/class.js:181-191 | After a release that went through, a second release is a no-op. |
| `Registry.ReleaseAllPartial` | src/lib/class.js:183-189 | A throw at record `k` rethrows that message and leaves the list as it was. The `k` records before it are already unregistered. |
| `Registry.ReleaseAll` | src/lib/class.js:181-191 | `removeAllTrackedEvents` goes through iff no tracked removal throws. Then the list ends empty; after a throw it is left as it was. Only tracked listeners are ever unregistered. |
| `Registry.ReleaseEach` | src/lib/class.js:181-191 | The `forEach` loop followed by the reset computes exactly that release, in success and in failure. |
| `Children.Matched` | src/lib/class.js:108 | The static list `querySelectorAll(tag)` gives over the children: the matching elements in document order, never more nodes than there are children (order in `Children.MatchedOrder` and `Children.CollectIntoFragment`; together with what stays, the original children in `Children.MovePartition`). |
| `Children.MatchedOrder` | src/lib/class.js:108-112 | The matches keep document order across any split of the children: the matches of `a + b` are those of `a` followed by those of `b`. |
| `Children.Unmatched` | src/lib/class.js:110-112 | What stays once the matches are moved out, never longer than the children. |
| `Children.KeepTagged` | src/lib/class.js:132-139 | What `deleteChildrenExceptTagged` leaves, never longer than the children (membership in `Children.KeepTaggedMembers`). |
| `Children.DeleteExceptTagged` | src/lib/class.js:132-144 | The in-place walk over the element children leaves every text node and every element whose lowercased tag name equals the lowercased tag, in order. |
| `Children.KeepTaggedMembers` | src/index.js:104-111 | A node survives iff it is a text node or a case-insensitively matching element. |
| `Children.KeepTaggedOrder` | src/index.js:104-111 | Survivors keep their original relative order across any split of the list. |
| `Children.KeepTaggedIdempotent` | src/index.js:104-111 | Deleting again with the same tag changes nothing. |
| `Children.CollectIntoFragment` | src/lib/class.js:106-118 | Moving the matches into a fragment leaves exactly the non-matching nodes, in order. The fragment holds the matches in document order. |
| `Children.AppendEachTo` | src/index.js:74-79 | Appending each match as it is reached gives the same two lists as the fragment variant. |
| `Children.MovePartition` | src/index.js:61-68 | Moving loses and duplicates nothing: the moved nodes and the remaining nodes together are the original children. |
| `Children.MoveListItemsExample` | src/lib/class.js:96-101 | For `<li>A</li><span/><li>B</li>` and `li`, both list items move, in order, and the span stays. |
| `Children.RemoveEach` | test/src/index.js:134-138 | Removing each listed node leaves exactly the children not in the list, in order. |
| `Children.Walk` | src/index.js:84-89 | The live `for…of` walk while removing text nodes: every node is accounted for, either kept in the list or taken as text. |
| `Children.Joined` | src/index.js:82-86 | The `directText` accumulator: each text's trim followed by one space, so it is at least as long as the number of texts and ends in a space when there is one (the loop's step is `Children.JoinedSnoc`). |
| `Children.AllText` | src/index.js:81-92 | The intended result of `moveTextToChild`: exactly the elements stay, and every text node's contents is taken, in document order. The loop that computes it is `Children.CollectAllText`. |
| `Children.CollectText` | src/index.js:81-92 | The loop as written is an index walk over the live child list. It gives the walk `Walk`: the node after each removed text node is skipped. |
| `Children.WalkKeepsElements` | src/index.js:84-89 | That walk removes only text nodes. Every element stays, in order. |
| `Children.AdjacentTextLeavesText` | src/index.js:84-89 | For every child list, wherever two text nodes are side by side the walk as written leaves a text node behind. |
| `Children.WalkIntendedIff` | src/index.js:84-89 | The walk as written equals the intended `Children.AllText` iff no two text nodes are side by side. |
| `Children.AdjacentTextSkipped` | src/index.js:84-89 | With two adjacent text nodes, the second is skipped: it stays in place and its text is not collected. |
| `Children.WalkSeparatedText` | src/index.js:84-89 | When no two text nodes are adjacent, the walk takes every text node. |
| `Children.CollectAllText` | src/index.js:84-90 | The intended behaviour of the loop at src/index.js:84-89 (the same loop, with the same skip, is at demo/public/index.js:165-170): it leaves exactly the elements, in order. The text is the trim of each text's trim plus one space, in document order. |
| `Dom.Cleared` | src/lib/class.js:66-71 | `replaceChildren()` on the shadow root when there is one, else on the element: exactly one of the two child lists is emptied, and a shadow-root element keeps its light-DOM children. |
| `Dom.Trim` | src/index.js:90 | `trim` never lengthens its input (that it is the slice with no white space at either end is `Dom.TrimSlice`). |
| `Dom.InnerText` | src/index.js:91 | Assigning `innerText` replaces the content: with nothing for the empty string, otherwise with one text node holding the text. |
| `Dom.SameTag` | src/lib/class.js:136 | `tagName.toLowerCase() === tag.toLowerCase()` (also src/index.js:107). Equal lowered strings have equal length, and the character-wise lowering is `Dom.LowerAt`. |
| `Dom.LowerAt` | src/index.js:107 | `toLowerCase` maps each character independently, for ASCII letters. |
| `Dom.TrimSlice` | src/index.js:86 | `trim` returns a contiguous slice of its input with no white space at either end. |
| `Dom.TrimStartStripsSpace` | src/index.js:86 | Only white space is stripped from the front. |
| `Dom.TrimEndStripsSpace` | src/index.js:90 | Only white space is stripped from the back. |
| `TuiLib.TuiElement.constructor` | src/lib/class.js:2-9 | Count 0, nothing requested or rendered, `attributeLength` captured, and no tracked listeners. |
| `TuiLib.TuiElement.Render` | src/lib/class.js:18 | The abstract hook is called once and may throw. |
| `TuiLib.TuiElement.ConnectedCallback` | src/lib/class.js:15-27 | The new state is `Lifecycle.Connect` applied to the gate. Everything else is unchanged. |
| `TuiLib.TuiElement.DisconnectedCallback` | src/lib/class.js:33-41 | Exactly `removeAllTrackedEvents`. |
| `TuiLib.TuiElement.AttributeChangedCallback` | src/lib/class.js:51-93 | The new state and outcome are `TuiLib.AttributeChanged`. |
| `TuiLib.Discounted` | src/lib/class.js:54-56 | A `class` notification lowers the count by one before anything else. Any other name leaves the gate as it is, and no other field ever changes. |
| `TuiLib.Rerender` | src/lib/class.js:71-74 | Release, then render. `render` is called once iff the release went through. The callback goes through iff both did. The content, the properties and every other gate field stay. |
| `TuiLib.AttributeChanged` | src/lib/class.js:51-93 | The callback with the shadow-root branch corrected. Only a changed value on a rendered element can throw. A notification renders at most once, and never changes `rendered`. |
| `TuiLib.AttributeChangedAsWritten` | src/lib/class.js:51-93 | The callback as written, including line 67. Only a changed value on a rendered element can throw. A notification renders at most once, and never changes `rendered`. |
| `TuiLib.TuiElement.ClearAndRerender` | src/lib/class.js:65-74 | The rendered branch: the clear of `Dom.Cleared`, then `TuiLib.Rerender`. |
| `TuiLib.TuiElement.CountNotification` | src/lib/class.js:83-87 | The counting branch is `Lifecycle.Arrive` with `>=`. |
| `TuiLib.TuiElement.ReleaseAndRender` | src/lib/class.js:72-73 | Release, then render only if the release returned. |
| `TuiLib.UnchangedValue` | src/lib/class.js:54-57 | An unchanged value changes nothing except the `class` discount, and renders nothing. |
| `TuiLib.ChangedValueMirrored` | src/lib/class.js:57-58 | A changed value sets exactly the property `name`. `attributeLength` and `rendered` never change, and a render request is never withdrawn. |
| `TuiLib.NothingBeforeFirstRender` | src/lib/class.js:63-87 | Before the first render nothing is cleared, released or rendered. |
| `TuiLib.CountBeforeRender` | src/lib/class.js:54-87 | Before the first render a changed `class` nets zero and any other name counts one. The render is requested once the count is at least `attributeLength`. |
| `TuiLib.LightRerender` | src/lib/class.js:71-74 | Without a shadow root, a changed value empties the children, unregisters and untracks every listener, and renders exactly once. |
| `TuiLib.RerenderReleaseFault` | src/lib/class.js:71-74 | A release that throws rethrows its message before `render` is called, and the list is kept. |
| `TuiLib.ShadowRerenderThrows` | src/lib/class.js:65-69 | As written, the shadow-root branch clears the shadow root and then throws a TypeError, with nothing released and nothing rendered. |
| `TuiLib.ShadowRerender` | src/lib/class.js:65-69 | The corrected branch clears the shadow root only, releases every listener and renders once. |
| `TuiLib.TuiElement.MoveTaggedChildren` | src/lib/class.js:106-118 | The children become the non-matching nodes. `newParent` gains the matches, in order, after its own children. |
| `TuiLib.TuiElement.DeleteChildrenExceptTagged` | src/lib/class.js:132-144 | The children become `KeepTagged`. |
| `TuiLib.TuiElement.AddTrackedEvent` | src/lib/class.js:152-160 | The listeners become `Registry.Add`. Nothing else changes. |
| `TuiLib.TuiElement.RemoveTrackedEvent` | src/lib/class.js:168-179 | The listeners become `Registry.Remove`. Nothing else changes. |
| `TuiLib.TuiElement.RemoveAllTrackedEvents` | src/lib/class.js:181-191 | The listeners and outcome become `Registry.ReleaseAll`. Nothing else changes. |
| `TuiLegacy.TuiElement.constructor` | src/index.js:2-9 | Count 0, nothing requested or rendered, `attributeLength` captured, and no registry. |
| `TuiLegacy.TuiElement.Render` | src/index.js:16 | The abstract hook is called once, and its throw propagates. |
| `TuiLegacy.TuiElement.ConnectedCallback` | src/index.js:10-19 | The gate becomes `Lifecycle.Connect`. Everything else is unchanged. |
| `TuiLegacy.TuiElement.AttributeChangedCallback` | src/index.js:20-51 | The new state and outcome are `TuiLegacy.AttributeChanged`. |
| `TuiLegacy.AttributeChanged` | src/index.js:20-51 | Only a changed value on a rendered element can throw (the throw from `render`). A notification renders at most once, and never changes `rendered`. |
| `TuiLegacy.TuiElement.CountNotification` | src/index.js:45-49 | The counting branch is `Lifecycle.Arrive` with `>=`. |
| `TuiLegacy.UnchangedValue` | src/index.js:21 | Equal old and new values change nothing at all. |
| `TuiLegacy.CountBeforeRender` | src/index.js:45-49 | Before the first render a changed value is mirrored and counted. The render is requested iff it already was or the new count is at least `attributeLength`. |
| `TuiLegacy.RerenderAfterRender` | src/index.js:27-36 | Once rendered, a changed value empties the shadow root's children if there is a shadow root, else the element's own, and renders exactly once. |
| `TuiLegacy.TuiElement.MoveTaggedChildren` | src/index.js:61-68 | The matches leave the children and are appended to `newParent`, in order. |
| `TuiLegacy.TuiElement.MoveTaggedChildrenOld` | src/index.js:74-79 | Ends in the same state as `MoveTaggedChildren`. |
| `TuiLegacy.TuiElement.MoveTextToChild` | src/index.js:81-92 | Only the text nodes leave. The child's content is replaced by the joined, trimmed text (the corrected walk). |
| `TuiLegacy.TuiElement.DeleteChildrenExceptTagged` | src/index.js:104-111 | The children become `KeepTagged`. |
| `TuiDemo.TuiElement.constructor` | demo/public/index.js:48-55 | Count 0, nothing requested or rendered, `attributeLength` captured, and no tracked listeners. |
| `TuiDemo.TuiElement.Render` | demo/public/index.js:64 | The abstract hook is called once and may throw. |
| `TuiDemo.TuiElement.ConnectedCallback` | demo/public/index.js:61-71 | The gate becomes `Lifecycle.Connect`. Everything else is unchanged. |
| `TuiDemo.TuiElement.DisconnectedCallback` | demo/public/index.js:77-83 | Exactly `removedAllTrackedEvents`. |
| `TuiDemo.TuiElement.AttributeChangedCallback` | demo/public/index.js:93-129 | The new state and outcome are `TuiDemo.AttributeChanged`. |
| `TuiDemo.AttributeChanged` | demo/public/index.js:93-129 | Only a changed value on a rendered element can throw. A notification renders at most once, and never changes `rendered`. |
| `TuiDemo.TuiElement.CountNotification` | demo/public/index.js:119-123 | The counting branch is `Lifecycle.Arrive` with `>=`. |
| `TuiDemo.UnchangedValue` | demo/public/index.js:95 | Equal old and new values change nothing at all. |
| `TuiDemo.CountBeforeRender` | demo/public/index.js:119-123 | Before the first render a changed value is mirrored and counted. The render is requested iff it already was or the new count is at least `attributeLength`. |
| `TuiDemo.RerenderKeepsListeners` | demo/public/index.js:101-111 | Once rendered, a changed value clears the content and renders once. The tracked listeners and the host's registrations stay. |
| `TuiDemo.TuiElement.MoveTaggedChildren` | demo/public/index.js:142-154 | The matches leave the children and are appended to `newParent`, in order. |
| `TuiDemo.TuiElement.MoveTextToChild` | demo/public/index.js:161-177 | Only the text nodes leave. The child's content is replaced by the joined, trimmed text (the corrected walk). |
| `TuiDemo.TuiElement.DeleteChildrenExceptTagged` | demo/public/index.js:191-203 | The children become `KeepTagged`. |
| `TuiDemo.TuiElement.AddTrackedEvent` | demo/public/index.js:211-219 | The listeners become `Registry.Add`. |
| `TuiDemo.TuiElement.RemoveTrackedEvent` | demo/public/index.js:227-238 | The listeners become `Registry.Remove`, including the prefixed rethrow. |
| `TuiDemo.TuiElement.RemovedAllTrackedEvents` | demo/public/index.js:240-250 | The listeners and outcome become `Registry.ReleaseAll`. |
| `TuiExperimental.TuiElement.constructor` | test/src/index.js:3-8 | Count 0, nothing requested or rendered, and `attributeLength` captured. The two name lists are fixed class constants. |
| `TuiExperimental.TuiElement.Render` | test/src/index.js:77 | The abstract hook is called once, and its throw propagates. |
| `TuiExperimental.TuiElement.ConnectedCallback` | test/src/index.js:71-80 | The gate becomes `Lifecycle.Connect`. |
| `TuiExperimental.TuiElement.AttributeChangedCallback` | test/src/index.js:81-119 | The new state and outcome are `TuiExperimental.AttributeChanged`. |
| `TuiExperimental.AttributeChanged` | test/src/index.js:81-119 | Only a changed value on a rendered element can throw. A notification renders at most once, and never changes `rendered`. |
| `TuiExperimental.TuiElement.CountNotification` | test/src/index.js:112-116 | The counting branch is `Lifecycle.Arrive` with `===`. |
| `TuiExperimental.UnchangedValue` | test/src/index.js:82 | Equal old and new values change nothing at all. |
| `TuiExperimental.CountBeforeRender` | test/src/index.js:112-116 | The render is requested only by the notification whose new count equals `attributeLength` exactly. |
| `TuiExperimental.NoRequestWithoutAttributes` | test/src/index.js:112-116 | With no attributes, the counting path never requests a render. |
| `TuiExperimental.ExemptNamesRerender` | test/src/index.js:88-105 | Once rendered, a change to a name on the exemption list still clears and renders once, because the exemption is commented out. |
| `TuiExperimental.TuiElement.CheckDefaultAttributes` | test/src/index.js:139-146 | Returns true iff the value is one of `id`, `name`, `title`, `href`, `value` and `checked`, the defaults of test/src/index.js:16-23. |
| `TuiExperimental.TuiElement.MoveTaggedChildren` | test/src/index.js:120-125 | Each match is appended to `newParent` in document order and leaves the children. |
| `TuiExperimental.TuiElement.DeleteChildrenExceptTagged` | test/src/index.js:126-133 | The children become `KeepTagged`. |
| `TuiExperimental.TuiElement.DeleteChildrenNodeList` | test/src/index.js:134-138 | Every listed node leaves the children, and nothing else does. |

## Left out

- `TuiLib.TuiElement.AttributeChangedCallback`: it follows the corrected shadow-root branch, `TuiLib.AttributeChanged`. The behaviour as written is `TuiLib.AttributeChangedAsWritten` (see Findings).
- `TuiLegacy.TuiElement.MoveTextToChild`: it follows the corrected walk, which visits every text node. The live walk as written is `Children.CollectText` (see Findings).
- `TuiDemo.TuiElement.MoveTextToChild`: the same as `TuiLegacy.TuiElement.MoveTextToChild`.
- Node kinds: only text and element children are modelled. `childNodes` can also hold comments and other nodes. `replaceChildren()` removes them and `deleteChildrenExceptTagged` never visits them, and the model holds neither. Such a node also changes which node the live walk of `moveTextToChild` passes over. With `[Text "a", Comment, Text "b"]` the comment is the node skipped, so both texts are taken and the text is `"a b"`. The model's `Children.AdjacentTextLeavesText` speaks only of text nodes directly side by side.
- Descendants: the child list is flat. `querySelectorAll` also finds nested descendants, but the model only searches direct children.
- `TuiExperimental.TuiElement.DeleteChildrenNodeList`: `node.remove()` removes each listed node from whatever parent it has. The model records only the effect on the component's direct children. A listed node nested deeper (a descendant match from `querySelectorAll`) or held elsewhere is also removed from its own parent, and that is not modelled. The model also takes `nodeList` as a fixed snapshot. A live `NodeList` re-reads its length at every step of `forEach`, so `deleteChildrenNodeList(this.childNodes)` removes only every other child, where `Children.RemoveEach` removes them all.
- `TuiLib.AttributeChangedAsWritten`: the message of the TypeError from line 67 is engine text. The model fixes it to V8's wording, "this.shadowRoot.removeAllTrackedEvents is not a function". Other engines word it differently, so only the fact that it fails, and what it leaves unchanged, carries over.
- `newParent` and `childElement`: they are containers outside the component's child list. Appending into one of the component's own children, and the host errors that appending can raise, are not modelled.
- Selectors: a tag is treated as a bare type selector. Invalid selectors, and their `SyntaxError`, are not modelled.
- `toLowerCase`: only ASCII letters are lowered. The full Unicode case mapping is not modelled.
- `innerText`: assigning it turns line breaks into `<br>` elements. The model gives one text node, whose id the caller supplies.
- `render()`: its effects are not modelled. The model only counts calls, so the content after a re-render is the cleared content. Nor is a call to `addTrackedEvent` from inside `render`. The demo's own `ColorBox.render` makes one (demo/public/index.js:273), so in that revision each render really adds one more tracked record and one more host registration. The model's `render` leaves the listeners alone, so every "the listeners stay" contract (`TuiDemo.RerenderKeepsListeners`, the `ConnectedCallback` rows) covers only the base class's own bookkeeping.
- `this[name] = newValue`: in the source this can overwrite the class's own bookkeeping fields, for example an attribute named `rendered`. The model keeps the mirrored properties in a separate map.
- Host delivery: which attributes the host observes, and in what order it delivers notifications, come from the host. The model accepts any sequence of callback calls.
- Errors: a rethrown error keeps only its message. The error type and stack are not modelled.
- DOM errors: errors raised by the DOM inside the child helpers (moving, removing) are not modelled.
- `console.log`: it is output only.
- `disconnectedCallback`: `src/index.js` and `test/src/index.js` have none, and no listener registry.
- Closed shadow roots: `this.shadowRoot` is `null` for a closed shadow root. The model's `shadowRoot` is the open one, if any.
- Counters: they are unbounded integers, so JavaScript's 2^53 limit on exact numbers is not modelled.
- `test/src/index.js`: its constructor logs every attribute, and its commented-out code is not part of the behaviour.
- Other code: `src/lib/util.js` (image preloading and an intersection-observer wrapper, both asynchronous I/O) is not part of this model. Neither are `parseTemplate` and `elmCleaner` (DOMParser wrappers), the `ColorBox` demo and `customElements.define`, or the rollup configuration.

## Findings

| source | as written | input that shows it | evidently intended | confidence | as-written member | corrected member |
|---|---|---|---|---|---|---|
| src/lib/class.js:67 | `this.shadowRoot.removeAllTrackedEvents()`, a method a ShadowRoot does not have | a rendered element with a shadow root, and any attribute change with `oldValue !== newValue` | `this.removeAllTrackedEvents()`, then `render()`, as on the light-DOM branch | high; not executed | `TuiLib.ShadowRerenderThrows` (on `TuiLib.AttributeChangedAsWritten`) | `TuiLib.ShadowRerender` (on `TuiLib.AttributeChanged`) |
| src/index.js:84-89 | `for (const node of this.childNodes)` removes the current text node from the live list, so the next node slides into its index and is never visited | children `[Text "a", Text "b"]`: `"b"` stays, and the target's text is `"a"` | every direct text node moved, and the target's text is `"a b"` | high; not executed | `Children.AdjacentTextSkipped` and `Children.AdjacentTextLeavesText` (on `Children.CollectText`) | `Children.CollectAllText` |
