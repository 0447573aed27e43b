/** The dropdown controller's state machine, as values: the open flag, the
    visibility snapshot, the document listeners the controller holds and how
    often it subscribed and unsubscribed them. The `Root` class in module
    Dropdown is proved to follow these transitions; the lemmas here say what
    the transitions promise, alone and over any run of inputs. */
module Controller {
  import opened Dom

  datatype RootState = RootState(
    active: bool,
    v: Visibility,
    listening: set<EventType>,   // document listeners currently registered
    subscriptions: nat,          // calls that added the listeners
    unsubscriptions: nat)        // calls that removed them

  /** A fresh controller: closed, fully visible, nothing registered. */
  const Init := RootState(false, FullyVisible, {}, 0, 0)

  /** The listeners that `subscribe(on)` installs, in loop order. */
  const DocumentEvents: seq<EventType> := [Click, KeyUp]

  /** The listeners registered when the controller is open or closed. */
  function ListenersFor(active: bool): set<EventType>
  {
    if active then {Click, KeyUp} else {}
  }

  /** EventType has exactly two values, so any listener set lies within them. */
  lemma ListenersBounded(l: set<EventType>)
    ensures l <= {Click, KeyUp}
  {
    forall t | t in l ensures t in {Click, KeyUp} {
      match t
      case Click =>
      case KeyUp =>
    }
  }

  /** Adding or removing the document listeners. */
  function Subscribed(s: RootState, on: bool): (r: RootState)
    ensures r.listening == ListenersFor(on)
    ensures r.active == s.active && r.v == s.v
    ensures on ==> r.subscriptions == s.subscriptions + 1 && r.unsubscriptions == s.unsubscriptions
    ensures !on ==> r.unsubscriptions == s.unsubscriptions + 1 && r.subscriptions == s.subscriptions
  {
    ListenersBounded(s.listening);
    s.(listening := if on then s.listening + {Click, KeyUp} else s.listening - {Click, KeyUp},
       subscriptions := if on then s.subscriptions + 1 else s.subscriptions,
       unsubscriptions := if on then s.unsubscriptions else s.unsubscriptions + 1)
  }

  /** `toggle(x)`: (un)subscribe, then open or close with a fully visible snapshot. */
  function Toggled(s: RootState, x: bool): (r: RootState)
    ensures r.active == x && r.v == FullyVisible
    ensures r.listening == ListenersFor(x)
  {
    Subscribed(s, x).(active := x, v := FullyVisible)
  }

  /** `onTriggerEvent`: toggle to the negation of the open flag. */
  function TriggerEvent(s: RootState): (r: RootState)
    ensures r.active == !s.active
  {
    Toggled(s, !s.active)
  }

  /** `onVisibilityUpdate(nv)`: ignored when nothing changed or every corner is
      visible; otherwise only the snapshot is replaced. */
  function VisibilityUpdated(s: RootState, nv: Visibility): (r: RootState)
    ensures ShallowEqual(nv, s.v) || AllCornersVisible(nv) ==> r == s
    ensures !ShallowEqual(nv, s.v) && !AllCornersVisible(nv) ==> r == s.(v := nv)
  {
    if ShallowEqual(nv, s.v) || AllCornersVisible(nv) then s else s.(v := nv)
  }

  /** Whether a document event closes the dropdown: only while open, only for
      a click or the Escape key, and only when the items element is mounted and
      does not contain the event's target. The trigger is not consulted. */
  predicate Dismisses(active: bool, e: Event, itemsEl: Option<Element>, contains: (Element, Element) -> bool)
  {
    active
    && (e.MouseEvent? || e.key == "Escape")
    && itemsEl.Some? && !contains(itemsEl.value, e.target)
  }

  /** `onEvents(e)`: close when the event dismisses the dropdown. */
  function DocumentEvent(s: RootState, e: Event, itemsEl: Option<Element>, contains: (Element, Element) -> bool): (r: RootState)
    ensures r.active ==> s.active
    ensures r.active != s.active <==> Dismisses(s.active, e, itemsEl, contains)
    ensures Dismisses(s.active, e, itemsEl, contains) ==> r == Toggled(s, false)
    ensures !Dismisses(s.active, e, itemsEl, contains) ==> r == s
  {
    if Dismisses(s.active, e, itemsEl, contains) then Toggled(s, false) else s
  }

  /** The `-right` modifier: open, and both right-hand corners are off screen. */
  predicate RightFlip(s: RootState)
  {
    s.active && !s.v.topRight && !s.v.bottomRight
  }

  /** The listener invariant: listeners are registered exactly while open, and
      every subscription but the current one has been paired with an
      unsubscription. */
  predicate Consistent(s: RootState)
  {
    s.listening == ListenersFor(s.active)
    && s.subscriptions == s.unsubscriptions + (if s.active then 1 else 0)
  }

  /** One input the controller reacts to. */
  datatype Input =
    | TriggerActivation
    | TrackerReport(nv: Visibility)
    | DocumentInput(e: Event, itemsEl: Option<Element>, contains: (Element, Element) -> bool)

  function Step(s: RootState, i: Input): RootState
  {
    match i
    case TriggerActivation => TriggerEvent(s)
    case TrackerReport(nv) => VisibilityUpdated(s, nv)
    case DocumentInput(e, itemsEl, contains) => DocumentEvent(s, e, itemsEl, contains)
  }

  function Run(s: RootState, ins: seq<Input>): RootState
    decreases |ins|
  {
    if ins == [] then s else Run(Step(s, ins[0]), ins[1..])
  }

  lemma InitConsistent()
    ensures Consistent(Init) && !Init.active && Init.v == FullyVisible && Init.listening == {}
  {
  }

  /** Every controller input either leaves the open flag alone or flips it,
      so every toggle it performs goes the other way from the last one. */
  lemma StepConsistent(s: RootState, i: Input)
    requires Consistent(s)
    ensures Consistent(Step(s, i))
  {
  }

  /** Listener pairing over any run: registered iff open, and subscriptions
      exceed unsubscriptions by one exactly while open. */
  lemma {:induction false} RunConsistent(s: RootState, ins: seq<Input>)
    requires Consistent(s)
    ensures Consistent(Run(s, ins))
    decreases |ins|
  {
    if ins != [] {
      StepConsistent(s, ins[0]);
      RunConsistent(Step(s, ins[0]), ins[1..]);
    }
  }

  /** Only trigger activations open the dropdown: a run without one never
      turns a closed controller into an open one. */
  lemma {:induction false} OnlyTriggerOpens(s: RootState, ins: seq<Input>)
    requires !s.active
    requires forall k :: 0 <= k < |ins| ==> !ins[k].TriggerActivation?
    ensures !Run(s, ins).active
    decreases |ins|
  {
    if ins != [] {
      assert !Step(s, ins[0]).active;
      OnlyTriggerOpens(Step(s, ins[0]), ins[1..]);
    }
  }

  /** Two trigger activations restore the open flag and leave the snapshot
      fully visible; a consistent controller also gets its listeners back. */
  lemma TriggerTwice(s: RootState)
    requires Consistent(s)
    ensures TriggerEvent(TriggerEvent(s)).active == s.active
    ensures TriggerEvent(TriggerEvent(s)).v == FullyVisible
    ensures TriggerEvent(TriggerEvent(s)).listening == s.listening
  {
  }

  /** A tracker report is idempotent. */
  lemma ReportIdempotent(s: RootState, nv: Visibility)
    ensures VisibilityUpdated(VisibilityUpdated(s, nv), nv) == VisibilityUpdated(s, nv)
  {
  }

  /** The no-op rule keeps a flip: once the panel is flipped right, a report
      that every corner is visible does not undo it; only a toggle resets it. */
  lemma FlipSurvivesFullyVisibleReport(s: RootState, nv: Visibility)
    requires RightFlip(s) && AllCornersVisible(nv)
    ensures RightFlip(VisibilityUpdated(s, nv))
  {
  }

  /** A toggle in either direction clears the flip. */
  lemma ToggleClearsFlip(s: RootState, x: bool)
    ensures !RightFlip(Toggled(s, x))
  {
  }

  /** The flip examples: both right corners hidden flips, a visible top-right does not. */
  lemma RightFlipExamples(s: RootState)
    requires s.active
    ensures RightFlip(s.(v := Visibility(true, false, true, false)))
    ensures !RightFlip(s.(v := Visibility(true, true, true, false)))
  {
  }

  /** Clicking the trigger while open closes the dropdown through the document
      listener, because only the items element is checked for containment. */
  lemma TriggerClickWhileOpenDismisses(s: RootState, triggerEl: Element, itemsEl: Element, contains: (Element, Element) -> bool)
    requires s.active && !contains(itemsEl, triggerEl)
    ensures !DocumentEvent(s, MouseEvent(triggerEl), Some(itemsEl), contains).active
  {
  }

  /** Escape outside the panel closes it; any other key changes nothing. */
  lemma EscapeScenario(s: RootState, target: Element, itemsEl: Element, contains: (Element, Element) -> bool)
    requires s.active && !contains(itemsEl, target)
    ensures !DocumentEvent(s, KeyboardEvent("Escape", target), Some(itemsEl), contains).active
    ensures DocumentEvent(s, KeyboardEvent("A", target), Some(itemsEl), contains) == s
  {
  }
}
