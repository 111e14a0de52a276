# Modal stack and lifecycle, modelled in Dafny

This project models the core of a small browser modal-dialog widget: the
`Modal` constructor function in `main.js`. Every instance keeps a backdrop
subtree that it builds lazily. One shared array, `Modal.elements`, gets an
entry for each `open` and loses its last entry for each `close`, whichever
instance that entry belongs to. The array decides which dialog reacts to Escape and
when the page's scroll lock is released.

The model is imperative, like the source:

- `Modals.Page` holds the state the instances share. That is the shared
  array, the body's "no-scroll" class, the keydown handlers registered on
  the document, and a record of the `onOpen`/`onClose` callbacks invoked.
- `Modals.Modal` is one dialog. Its fields are the source's instance fields,
  with DOM nodes reduced to what the widget reads back. That is whether
  `_backdrop` and `_modalFooter` exist, whether "show" is applied, which
  handlers the backdrop carries, the container's classes and the footer's
  children. `ontransitionend` is a single slot, `pending`, that every
  `open`, and every `close` that finds a backdrop, overwrites.
- The zero-delay timer and the `transitionend` event become the methods
  `Tick` and `TransitionEnd(propertyName)`, which the environment calls. A
  click on the close button, a click on the backdrop and a keydown on the
  document are also methods. The keydown reaches an instance only while its
  escape handler is registered.
- An operation that reads a property of a null or unset `_backdrop` returns
  `TypeError`. Examples are `close` on an instance with no subtree, and the
  timer firing after a destroy. Any state change made before that point
  remains, like the pop at the start of `close`.

The pure parts are functions in `Options` (defaults, close-method decoding,
the `typeof === "string"` filter). `Dom` holds the two `forEach` loops of
`build`, written as methods proved against specification functions. The
container's class list is a DOMTokenList, so adding a token that is already
present does nothing. In the footer's child list, appending a node that is
already a child moves it to the end. `OpenStack` states push, pop and top of
the shared array, plus lemmas about any sequence of opens and closes.
`Scenarios` holds call sequences whose results follow from the `Modal`
contracts alone.

Behaviour of the code worth noting, all kept by the model:

- `close` pops the shared array without looking at it. A pop on an empty
  array leaves it empty.
- The escape handler is unregistered on close only when escape closing is
  enabled.
- `addEventListener` ignores a second registration of the same handler, so
  an instance opened twice has one escape handler, and one close removes it.
- The lock is set on every `open`, whether or not other instances are open.
- `setFooterContent` on a built footer assigns `innerHTML`. That removes the
  buttons from the footer until the next `addFooterButton` or rebuild (see
  `Scenarios.FooterContentWhileOpen`).

## Model

| member | source | states |
|---|---|---|
| `Options.Resolve` | main.js:22-41 | Left-out options take their defaults: destroy on close, no footer, all three close methods, no extra classes. Given `destroyOnClose`, `footer` and `cssClass` values are kept as given. Each close method is enabled exactly when its name is an entry of `closeMethods`. |
| `Options.StringEntriesAppend` | main.js:52-56 | Filtering `cssClass` to its strings distributes over concatenation, so relative order is kept. |
| `Options.StringEntriesMembers` | main.js:52-56 | A string is kept if and only if it is a string entry of the array. Numbers and other values never contribute. |
| `Options.StringEntriesOfStrings` | main.js:52-56 | An array of strings only is kept whole, entry for entry. |
| `Dom.BuildContainerClasses` | main.js:49-56 | The loop over `cssClass` leaves the container's class list equal to the specification `ContainerClasses`. |
| `Dom.ContainerClassesMembers` | main.js:49-56 | The container has a class if and only if it is "modal-container" or a string entry of `cssClass`. |
| `Dom.ContainerClassesShape` | main.js:49-56 | "modal-container" comes first and no class appears twice. |
| `Dom.ContainerClassesInOrder` | main.js:52-56 | With distinct string entries, none of them "modal-container", the classes are "modal-container" followed by the string entries in their original order. |
| `Dom.AppendButtons` | main.js:80-82 | The loop that appends each footer button equals the specification `AppendAll`, one DOM append per button. |
| `Dom.AppendAllDistinct` | main.js:103-105 | Appending distinct buttons one by one keeps every other child in place and leaves the buttons last, in list order. |
| `Dom.FooterRerender` | main.js:101-106 | Re-appending the whole button list to a footer holding its markup and some of those buttons gives the markup followed by every button, in list order. |
| `OpenStack.Pop` | main.js:163 | The last entry is removed and the rest is kept. An empty array stays empty. |
| `OpenStack.Top` | main.js:155 | The last entry, or nothing when the array is empty. |
| `OpenStack.ReplayLengthBound` | main.js:161-163 | After any calls, the array holds at least its initial length plus opens minus closes. |
| `OpenStack.ReplayLength` | main.js:118-163 | While no close meets an empty array, the length is exactly the initial length plus opens minus closes. |
| `OpenStack.ReplayAbove` | main.js:118-163 | Last in, first out: calls that never reach below the current entries leave the entries beneath them untouched. |
| `OpenStack.BalancedRestores` | main.js:118-163 | Matched opens and closes that never close too many restore the array exactly. |
| `Modals.RenderFooter` | main.js:70-83 | The footer `build` creates holds the stored content as markup (none when it is empty), followed by every button in list order. |
| `Modals.FooterAfterAdd` | main.js:98-106 | After a push, re-appending the whole button list to a footer holding its markup, with or without the earlier buttons, shows the markup followed by every button in list order. |
| `Modals.Page.constructor` | main.js:20 | The shared array starts empty, the body has no "no-scroll" class, no escape handler is registered and no callback has run. |
| `Modals.NewModal` | main.js:22-41 | A missing template yields an inert result with no instance. Otherwise it yields a fresh, unbuilt instance with the resolved configuration, no buttons and no footer content. |
| `Modals.Modal.constructor` | main.js:22-92 | A new instance has no backdrop, no pending timers, an empty button list and unset footer content. |
| `Modals.Modal.Build` | main.js:43-90 | Builds a backdrop without "show" and without handlers. The container gets `ContainerClasses(cssClass)`, the close button when button closing is on, and the footer when the option is set. The footer holds the stored content (when truthy) followed by all buttons in order. |
| `Modals.Modal.Open` | main.js:118-151 | Appends this instance to the shared array even when it is already there. It builds only when there is no backdrop and otherwise reuses the backdrop unchanged. It sets the lock, schedules one "show" timer, installs the backdrop click and escape handlers as configured, and makes the open continuation pending. |
| `Modals.Modal.Close` | main.js:161-172 | Pops the last entry of the shared array, whoever it is. With no backdrop it then fails, with nothing else changed. Otherwise it removes "show", unregisters the escape handler only when escape closing is on, and makes `AfterClose(destroy)` pending. A missing argument takes `destroyOnClose`. |
| `Modals.Modal.Destroy` | main.js:190-192 | Exactly `close(true)`. |
| `Modals.Modal.HandleEscapeKey` | main.js:142-159 | Closes with the default argument exactly when this instance's escape handler is registered, the key is "Escape" and this instance is the last entry. Otherwise nothing changes. |
| `Modals.Modal.ClickCloseButton` | main.js:58-64 | Closes with the default argument exactly when a built subtree has a close button. Otherwise nothing changes. |
| `Modals.Modal.ClickBackdrop` | main.js:134-140 | Closes with the default argument exactly when the backdrop click handler is installed and the target is the backdrop itself. Otherwise nothing changes. |
| `Modals.Modal.Tick` | main.js:130-132 | Runs one scheduled timer. It shows the backdrop that exists at that moment, or fails when there is none. With no timer scheduled nothing changes. |
| `Modals.Modal.TransitionEnd` | main.js:172-200 | Only "transform" on an existing backdrop runs the pending continuation, which stays installed. Open calls `onOpen` if one was given. Close removes backdrop and footer when destroying, calls `onClose` if given, and clears the lock if and only if the shared array is empty then. |
| `Modals.Modal.SetFooterContent` | main.js:109-116 | Stores the content. The footer's children become that markup exactly when a footer exists and are untouched otherwise. |
| `Modals.Modal.AddFooterButton` | main.js:94-107 | Appends the button to the list in call order. A built footer then shows its markup followed by every button in list order. |
| `Scenarios.ResolvedConfigs` | main.js:22-41 | The option objects the scenarios pass resolve to the configurations the scenarios construct with. |
| `Scenarios.NestedScrollLock` | main.js:182-186 | Open A, open B, finish closing B: the lock stays. Finish closing A: the lock is released. |
| `Scenarios.EscapeClosesTopOnly` | main.js:154-159 | With A then B open, Escape at A changes nothing and Escape at B closes B. |
| `Scenarios.EscapeDisabled` | main.js:142-159 | With `closeMethods` lacking "escape", opening registers no escape handler, so Escape leaves the dialog on the shared array. |
| `Scenarios.CloseRemovesLastEntry` | main.js:161-170 | With A then B open, `A.close()` removes B's entry. Escape at B then does nothing, and only B's handler stays registered. |
| `Scenarios.OpenTwice` | main.js:118-144 | Opening twice lists the instance twice but registers one escape handler, and one close removes it. |
| `Scenarios.LastContinuationWins` | main.js:194-200 | Closing before the open transition ends means only `onClose` runs. A non-"transform" transition runs nothing. |
| `Scenarios.ReopenBeforeDestroyCompletes` | main.js:118-148 | Reopening after `destroy` but before its transition keeps the subtree, and only `onOpen` runs. |
| `Scenarios.FooterContentWhileOpen` | main.js:109-116 | On an open footer with a button, `setFooterContent` leaves the markup alone as the footer's children. |
| `Scenarios.FooterReusedAfterClose` | main.js:122-124 | After `close(false)`, the next open reuses the footer as it was left. |
| `Scenarios.FooterRebuiltAfterDestroy` | main.js:172-178 | After destroy, the next open rebuilds the footer as the stored markup followed by the buttons. |
| `Scenarios.ShowAfterClose` | main.js:130-132 | With `destroyOnClose: false`, a `close()` before the "show" timer runs still ends with the backdrop shown while off the shared array. |
| `Scenarios.ShowBeforeDestroyEnds` | main.js:130-177 | In the usual order, where the timer runs before the destroy's transition ends, the timer shows the backdrop that still exists, and the transition's end then removes it. |
| `Scenarios.ShowAfterDestroy` | main.js:130-177 | If the destroy's transition ends before the timer runs, the timer fails on the null backdrop. That order needs an earlier transition still running when `destroy` is called. |
| `Scenarios.CloseNeverOpened` | main.js:161-165 | Closing a never-opened instance pops another instance's entry and then fails. |
| `Scenarios.DemoContainerClasses` | main.js:241 | `["class1", "class2", "classN", 123]` gives the container "modal-container", "class1", "class2", "classN". |

## Left out

- Scrollbar-width measurement and the body's `padding-right` (main.js:128, 185, 202-218): this is browser layout measurement. Only the "no-scroll" class is modelled.
- The element `open` returns (main.js:150): callers query into the DOM with it, and the DOM is not modelled.
- Template cloning and the content and close-button markup (main.js:45-69): DOM construction is reduced to the facts listed above.
- The document's dispatch of one keydown event to several registered escape handlers, and their order: each handler is invoked on its own through `HandleEscapeKey`. The set of registered handlers is tracked.
- The event loop: timers and transition events run only when the caller invokes `Tick` or `TransitionEnd`. `Tick` is per instance, with no ordering between instances.
- The exceptions `classList.add` throws for an empty class name or one containing whitespace, which would abort `build` partway: class names are treated as ordinary tokens.
- JavaScript truthiness of non-boolean `destroyOnClose`, `footer` and `close` arguments, and a `closeMethods` that is not an array: these are modelled as booleans and an array.
- The bodies of `onOpen`, `onClose` and the footer button callbacks, including callbacks that call back into the widget: only whether each is invoked is recorded.
- Clicks on footer buttons: they only run the caller's callback.
- `transitionend` events reaching a backdrop that has already been removed: `TransitionEnd` ignores every event once there is no backdrop. A second "transform" event on the removed element would rerun the close continuation, which skips the removal through its `&& this._backdrop` guard (main.js:174), calls `onClose` again and tests the lock again.
- `Modals.Modal.Build`: the configuration holds a copy of `cssClass` taken at construction. The source keeps the caller's own array (main.js:28) and re-reads it at every `build` (main.js:52-56). So a caller that changes that array between a destroy and the next `open` gets different container classes there, and that aliasing is not modelled.
- `Modals.NewModal`: the `console.error` message for a missing template (main.js:35) is console output. Only the inert result is modelled.
- The demo dialogs and form wiring (main.js:221-296): page glue, not library logic.
