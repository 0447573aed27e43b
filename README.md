# Dropdown interaction state machine

A model of the interaction core of a React dropdown widget. The widget has two parts:

- The **Root** controller owns:
  - the open flag `active`;
  - a snapshot `v` saying which of the items panel's four corners are on screen;
  - two first-wins registration slots, `trigger` and `items`;
  - the `click` and `keyup` listeners it adds to the document while open.
- Each **Child** is either the trigger or the items panel. A Child does four things:
  - it registers with the Root when it is constructed;
  - it renders nothing while it is a closed items panel;
  - it forwards accepted activations to the Root;
  - as an items panel, it starts a visibility tracker on an update that changes its `active` prop while an element is mounted, and it stops the tracker on every later update and on unmount. So an open panel re-rendered with `active` unchanged has no running tracker, and a panel constructed already open gets none while it stays open.

Modules:

- `Dom` (dom.dfy) holds the shared values:
  - elements are opaque ids;
  - an event is either a mouse event or a keyboard event with a key;
  - the corner snapshot and element props, as a map from prop names to abstract values;
  - the class-list join.
- `Controller` (controller.dfy) gives the Root's state as a value with one function per transition. Its lemmas cover single transitions and any run of inputs.
- `RootView` (root_view.dfy) covers the Root's `render` and `applyProps`: the `-right` modifier, and rewriting each direct child so that it carries `active`.
- `ChildView` (child_view.dfy) covers the Child's `render`, its activation filter and its test for starting a tracker.
- `Dropdown` (dropdown.dfy) has the classes `Root`, `Child` and `Tracker`. The fields are updated in place. `Root`'s methods are proved to follow `Controller`'s transitions. `Child`'s invariant says two things: every tracker but the latest has been stopped, and a running tracker belongs to an open items panel. `OpenAndDismissScenario` is a client run that uses only the contracts: it opens the dropdown through the trigger, mounts the panel, and closes it with a click outside.

Details of the code that are easy to get wrong:

- The initial `active` is hard-coded to `false`. There is no `defaultActive` option.
- Document listeners are added without a capture flag.
- `onEvents` tests containment only against the items element, never against the trigger. So a click on the trigger while the dropdown is open closes it through the document listener (`Controller.TriggerClickWhileOpenDismisses`).
- The Root has no unmount hook, so listeners registered while open stay on the document after unmount.
- A Child ignores every activation while its `active` prop is true.
- No `tagName` prop is interpreted. The trigger is always an `a` and the items panel a `div`; a `tagName` prop is passed through as an attribute.
- Without a `classPrefix`, the Root's modifier is `"undefined-right"`. The Child falls back to `"child"`.

## Model

| member | source | states |
|---|---|---|
| `Dom.ClassNames` | src/Child.tsx:67-69 | the caller's own class comes first and is kept; the modifier class is present iff its condition holds (or the caller's own className already is that class); nothing else appears |
| `Controller.Subscribed` | src/Root.tsx:134-138 | subscribing leaves exactly `click` and `keyup` registered and counts one subscription; unsubscribing leaves none and counts one unsubscription; open flag and snapshot untouched |
| `Controller.Toggled` | src/Root.tsx:101-110 | `toggle(x)` sets `active` to `x`, resets the snapshot to fully visible in both directions, and leaves the listeners registered iff `x` |
| `Controller.TriggerEvent` | src/Root.tsx:53-55 | `onTriggerEvent` sets `active` to the negation of its previous value |
| `Controller.VisibilityUpdated` | src/Root.tsx:61-71 | a report equal field-for-field to the snapshot, or with all four corners visible, changes nothing; any other report replaces only the snapshot |
| `Controller.DocumentEvent` | src/Root.tsx:117-127 | a document event never opens the dropdown; it closes it exactly when open, the event is a click or the Escape key, and a mounted items element does not contain the target, and then the state is that of `toggle(false)` (listeners removed, snapshot reset); otherwise nothing changes |
| `Controller.InitConsistent` | src/Root.tsx:8-24 | the initial controller is closed, fully visible, holds no listeners, and satisfies the listener invariant |
| `Controller.StepConsistent` | src/Root.tsx:101-138 | every input (trigger activation, tracker report, document event) preserves: listeners registered iff open, subscriptions = unsubscriptions + (1 if open) |
| `Controller.RunConsistent` | src/Root.tsx:101-138 | the listener invariant holds after any sequence of inputs, so subscribe and unsubscribe calls pair up whenever the dropdown is closed |
| `Controller.OnlyTriggerOpens` | src/Root.tsx:117-127 | a run of inputs with no trigger activation never opens a closed dropdown |
| `Controller.TriggerTwice` | src/Root.tsx:53-55 | two trigger activations restore `active` and the listener set and leave the snapshot fully visible |
| `Controller.ReportIdempotent` | src/Root.tsx:61-71 | delivering the same tracker report twice has the effect of delivering it once |
| `Controller.FlipSurvivesFullyVisibleReport` | src/Root.tsx:61-84 | a report that every corner is visible does not clear a `-right` flip already in effect |
| `Controller.ToggleClearsFlip` | src/Root.tsx:101-110 | after any toggle the `-right` flip is off |
| `Controller.RightFlipExamples` | src/Root.tsx:82-84 | open with both right corners hidden flips; open with the top-right corner visible does not |
| `Controller.TriggerClickWhileOpenDismisses` | src/Root.tsx:123-126 | a click on the trigger while open closes the dropdown through the document listener, because only the items element is checked |
| `Controller.EscapeScenario` | src/Root.tsx:119-126 | Escape outside the items panel closes an open dropdown; a key other than Escape changes nothing |
| `RootView.Mapper` | src/Root.tsx:149-160 | a Child element is always cloned with `active` overridden; any other element is rejected in a development build and cloned in production; a non-element is never cloned |
| `RootView.MapAll` | src/Root.tsx:162-163 | mapping a list succeeds iff every child is accepted, keeps its length and order, gives each clone the controller's `active`, and otherwise fails with the error of a rejected child |
| `RootView.ApplyProps` | src/Root.tsx:147-165 | each direct child in the result is the clone, with `active` overridden to the controller's, of the input child at the same position, in the same shape; it succeeds iff every direct child is accepted (in a development build: is a Child element; in production: is any element), and a list of at most one is passed to the mapper whole and rejected |
| `RootView.Render` | src/Root.tsx:76-96 | the wrapper is a `div` whose props are the caller's minus `classPrefix` plus `className`, every other prop unchanged; its classes are the caller's className, kept, plus `<prefix>-right`, present iff open with neither right corner visible (or the caller's className already is that class), and nothing else; its children are exactly the result of `applyProps`, and it fails exactly when `applyProps` does |
| `ChildView.ActiveClassName` | src/Child.tsx:68 | the active modifier is `classPrefix + "-active"`, or `"child-active"` when the prefix is absent or empty |
| `ChildView.RenderAsWritten` | src/Child.tsx:58-82 | as written: an inactive items panel renders nothing; the caller's props are spread after the computed className, so tag, handlers, stripping and pass-through are those of `ChildView.Render` and only `className` differs (`ChildView.AsWrittenDiffersOnlyInClassName`) |
| `ChildView.Render` | src/Child.tsx:58-82 | an inactive items panel renders nothing and everything else renders; the trigger is an `a` with `onClick` and `onKeyUp` wired to the child, the items panel a `div`; `isTrigger`, `classPrefix`, `active` are stripped, every other prop passes through unchanged (a caller's handlers too, on the items panel), and nothing is added but the className and the trigger's two handlers; the classes are the caller's className, kept, plus the active modifier, present iff active (or named by the caller), and nothing else |
| `ChildView.AsWrittenDiffersOnlyInClassName` | src/Child.tsx:58-82 | for every props value the rendering as written equals the corrected one except for `className`, which as written is the caller's own className whenever one is given |
| `ChildView.AsWrittenAgreesWithoutClassName` | src/Child.tsx:65-71 | without a caller className the rendering as written equals the corrected one |
| `ChildView.AsWrittenDropsActiveClass` | src/Child.tsx:65-71 | as written, an open child given a className renders that className unchanged, while the corrected rendering carries the active modifier |
| `ChildView.ActiveClassExample` | src/Child.tsx:65-71 | the open items panel with className "menu" renders className "menu" as written, and "menu child-active" corrected |
| `ChildView.TrackerOnlyWhenOpening` | src/Child.tsx:42 | when an element is bound only while something renders, a tracker is started only for an open items panel, and never when `active` is unchanged |
| `Dropdown.Root.constructor` | src/Root.tsx:20-24 | a new controller is closed, fully visible, listens to nothing and has both slots empty |
| `Dropdown.Root.Register` | src/Root.tsx:41-48 | only the slot chosen by `isTrigger` is written, and only if empty; the other slot and the state are unchanged |
| `Dropdown.Root.Subscribe` | src/Root.tsx:134-138 | the loop over `click` and `keyup` leaves the state as `Controller.Subscribed` says |
| `Dropdown.Root.Toggle` | src/Root.tsx:101-110 | the new state is `Controller.Toggled` of the old; the listener invariant holds when the toggle changes direction |
| `Dropdown.Root.OnTriggerEvent` | src/Root.tsx:53-55 | `active` becomes its negation and the listener invariant is kept |
| `Dropdown.Root.OnVisibilityUpdate` | src/Root.tsx:61-71 | the object is untouched when the report equals the snapshot or is fully visible; otherwise only `v` changes |
| `Dropdown.Root.OnEvents` | src/Root.tsx:117-127 | the new state is `Controller.DocumentEvent` of the old, using the items child's bound element; the slots are unchanged |
| `Dropdown.Child.constructor` | src/Child.tsx:28-31 | construction registers the child with its controller once, with the first-wins effect on the slot its role selects |
| `Dropdown.Child.BindElement` | src/Child.tsx:66 | the ref callback stores the mounted element (or clears it) and keeps the child's invariant |
| `Dropdown.Child.ComponentDidUpdate` | src/Child.tsx:36-46 | any existing tracker is stopped; a fresh tracker on the bound element, reporting to the controller and recalculated once, is created iff the child is not a trigger, an element is bound and `active` differs from the previous props; an update that keeps `active` leaves no tracker running |
| `Dropdown.Child.ComponentWillUnmount` | src/Child.tsx:51-53 | the tracker, if any, is stopped, so every tracker the child ever created is stopped |
| `Dropdown.Child.Commit` | src/Child.tsx:36-46 | an update replaces the props, rebinds the element, then runs `componentDidUpdate` with the previous props |
| `Dropdown.Child.OnEvent` | src/Child.tsx:87-96 | the controller toggles exactly once when the child is not active and the event is a click or the Enter key; otherwise the controller is unchanged |

## Findings

| source | as written | input that shows it | evidently intended | confidence | as-written member | corrected member |
|---|---|---|---|---|---|---|
| src/Child.tsx:65-71 | the passed-through props are spread after the computed `className`, so a caller's `className` prop replaces it | an open items child with props `{active: true, className: "menu"}` renders className `"menu"` without `"child-active"` | the caller's classes joined with the active modifier, which is what `classNames(props.className, …)` computes (Root places its className after the spread) | high; not executed | `ChildView.RenderAsWritten` | `ChildView.Render` |

## Left out

- Rendering is abstract. This covers the framework's reconciliation, `cloneElement`/`createElement`, element keys and the asynchrony and batching of `setState`. A state update is a synchronous field write, and a render is a value.
- The framework's update order is modelled only by `Dropdown.Child.Commit`: new props, then the ref, then `componentDidUpdate`. How a Root re-render reaches its children is not modelled.
- DOM event dispatch is not modelled: bubbling order, and whether a listener added during dispatch fires for that same event. Element containment is a function parameter.
- The in-view tracker's measurement is opaque. `Dropdown.Tracker.Recalculate` only counts the request and does not call the controller's `onVisibilityUpdate`. Tracker reports reach the controller as separate inputs.
- The `omit`, `shallowEqual` and `classNames` helpers are modelled as map subtraction, four-field equality and a class-token list. Class names are not joined into one string.
- The build-time environment switch is the `production` parameter of `RootView`.
- Nested arrays of children are not flattened the way the framework's child utilities flatten them. When `cloneElement` is given a non-element, the model returns the `NotAnElement` error; the framework's exact behaviour in that case is not modelled.
- Only the prop types the components declare are modelled (`ChildView.WellTyped`). Values of other types in `isTrigger`, `active`, `classPrefix` or `className` are not interpreted beyond truthiness.
- The error kinds of `RootView` are abstract. In a development build a `null` or `undefined` direct child fails when its `type` is read, before the invalid-child diagnostic is built; the model reports `InvalidChild` for it and does not distinguish that failure.
- src/context.ts is not part of this model. The context is the Child's `root` reference.
