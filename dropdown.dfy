/** The dropdown's components as objects: the controller `Root`, which owns
    the open flag, the visibility snapshot, the two registration slots and the
    document listeners; the `Child` slots, which register with it and report
    activations; and the visibility `Tracker` handle an items panel owns.
    Root's methods are proved to follow the transitions of module Controller. */
module Dropdown {
  import opened Dom
  import Controller
  import ChildView

  /** An in-view tracker watching one element for one controller: an opaque
      handle that can be stopped and asked to recalculate. */
  class Tracker {
    const element: Element
    const owner: Root          // the controller whose onVisibilityUpdate it calls
    var stopped: bool
    var recalculations: nat

    constructor(element: Element, owner: Root)
      ensures this.element == element && this.owner == owner
      ensures !stopped && recalculations == 0
    {
      this.element := element;
      this.owner := owner;
      stopped := false;
      recalculations := 0;
    }

    method Stop()
      modifies this
      ensures stopped && recalculations == old(recalculations)
    {
      stopped := true;
    }

    method Recalculate()
      modifies this
      ensures stopped == old(stopped) && recalculations == old(recalculations) + 1
    {
      recalculations := recalculations + 1;
    }
  }

  class Root {
    var active: bool
    var v: Visibility
    var trigger: Child?
    var items: Child?
    /** This controller's listeners registered on the document. */
    var listening: set<EventType>
    ghost var subscriptions: nat
    ghost var unsubscriptions: nat

    ghost function State(): Controller.RootState
      reads this
    {
      Controller.RootState(active, v, listening, subscriptions, unsubscriptions)
    }

    ghost predicate Valid()
      reads this
    {
      Controller.Consistent(State())
    }

    /** The element of the registered items panel, if it is mounted. */
    ghost function ItemsElement(): Option<Element>
      reads this, items
    {
      if items == null then None else items.el
    }

    /** A new controller: closed, fully visible, no child registered. */
    constructor()
      ensures State() == Controller.Init && Valid()
      ensures trigger == null && items == null
    {
      active := false;
      v := FullyVisible;
      trigger := null;
      items := null;
      listening := {};
      subscriptions := 0;
      unsubscriptions := 0;
    }

    /** Stores the child in the slot its role selects, unless that slot is taken. */
    method Register(child: Child)
      modifies this
      ensures ChildView.IsTrigger(child.props) ==>
                trigger == (if old(trigger) == null then child else old(trigger)) && items == old(items)
      ensures !ChildView.IsTrigger(child.props) ==>
                items == (if old(items) == null then child else old(items)) && trigger == old(trigger)
      ensures State() == old(State())
    {
      if ChildView.IsTrigger(child.props) {
        if trigger == null {
          trigger := child;
        }
      } else {
        if items == null {
          items := child;
        }
      }
    }

    /** Adds the document listeners (`on`) or removes them, one event at a time. */
    method Subscribe(on: bool)
      modifies this
      ensures State() == Controller.Subscribed(old(State()), on)
      ensures trigger == old(trigger) && items == old(items)
    {
      var events := Controller.DocumentEvents;
      for i := 0 to |events|
        invariant listening == if on then old(listening) + (set j | 0 <= j < i :: events[j])
                                     else old(listening) - (set j | 0 <= j < i :: events[j])
        invariant active == old(active) && v == old(v)
        invariant trigger == old(trigger) && items == old(items)
        invariant subscriptions == old(subscriptions) && unsubscriptions == old(unsubscriptions)
      {
        if on {
          listening := listening + {events[i]};
        } else {
          listening := listening - {events[i]};
        }
      }
      assert (set j | 0 <= j < |events| :: events[j]) == {Click, KeyUp} by {
        assert events[0] == Click && events[1] == KeyUp;
      }
      if on {
        subscriptions := subscriptions + 1;
      } else {
        unsubscriptions := unsubscriptions + 1;
      }
    }

    /** Opens or closes, resetting the snapshot to fully visible. */
    method Toggle(x: bool)
      modifies this
      ensures State() == Controller.Toggled(old(State()), x)
      ensures old(Valid()) && x != old(active) ==> Valid()
      ensures trigger == old(trigger) && items == old(items)
    {
      Subscribe(x);
      active := x;
      v := FullyVisible;
    }

    /** Called by the trigger: toggles to the negation of the open flag. */
    method OnTriggerEvent()
      requires Valid()
      modifies this
      ensures State() == Controller.TriggerEvent(old(State())) && Valid()
      ensures active == !old(active)
      ensures trigger == old(trigger) && items == old(items)
    {
      Toggle(!active);
    }

    /** Called by the items panel's tracker with a new corner snapshot. */
    method OnVisibilityUpdate(nv: Visibility)
      requires Valid()
      modifies this
      ensures State() == Controller.VisibilityUpdated(old(State()), nv) && Valid()
      ensures ShallowEqual(nv, old(v)) || AllCornersVisible(nv) ==> unchanged(this)
      ensures active == old(active) && trigger == old(trigger) && items == old(items)
    {
      if ShallowEqual(nv, v) || AllCornersVisible(nv) {
        return;
      }
      v := nv;
    }

    /** The document listener: closes on a click or Escape outside the items panel. */
    method OnEvents(e: Event, contains: (Element, Element) -> bool)
      requires Valid()
      modifies this
      ensures State() == Controller.DocumentEvent(old(State()), e, old(ItemsElement()), contains) && Valid()
      ensures trigger == old(trigger) && items == old(items)
    {
      if !active || (e.KeyboardEvent? && e.key != "Escape") {
        return;
      }
      var itemsEl := if items == null then None else items.el;
      if itemsEl.Some? && !contains(itemsEl.value, e.target) {
        Toggle(false);
      }
    }
  }

  class Child {
    var props: Props
    const root: Root
    /** The element the framework mounted for this child, if any. */
    var el: Option<Element>
    var tracker: Tracker?
    /** Every tracker this child has created, oldest first. */
    ghost var trackers: seq<Tracker>

    /** The child's invariant apart from what it says about a running tracker. */
    ghost predicate Wired()
      reads this, trackers
    {
      ChildView.WellTyped(props)
      // the framework binds an element only while something is rendered
      && (el.Some? ==> ChildView.RendersElement(props))
      && (tracker == null <==> trackers == [])
      && (tracker != null ==> tracker == trackers[|trackers| - 1])
      // every tracker but the latest has been stopped: none leaks
      && (forall i :: 0 <= i < |trackers| - 1 ==> trackers[i].stopped)
      && (forall i :: 0 <= i < |trackers| ==> trackers[i].owner == root)
    }

    ghost predicate Valid()
      reads this, trackers
    {
      Wired()
      // a running tracker belongs to an open items panel
      && (tracker != null && !tracker.stopped ==> !ChildView.IsTrigger(props) && ChildView.Active(props))
    }

    /** Construction registers the child with its controller, once. */
    constructor(p: Props, context: Root)
      requires ChildView.WellTyped(p)
      modifies context
      ensures Valid() && props == p && root == context && el == None && tracker == null
      ensures ChildView.IsTrigger(p) ==>
                context.trigger == (if old(context.trigger) == null then this else old(context.trigger))
                && context.items == old(context.items)
      ensures !ChildView.IsTrigger(p) ==>
                context.items == (if old(context.items) == null then this else old(context.items))
                && context.trigger == old(context.trigger)
      ensures context.State() == old(context.State())
    {
      props := p;
      root := context;
      el := None;
      tracker := null;
      trackers := [];
      new;
      context.Register(this);
    }

    /** The ref callback: the framework binds the mounted element or clears it. */
    method BindElement(r: Option<Element>)
      requires Valid()
      requires r.Some? ==> ChildView.RendersElement(props)
      modifies this`el
      ensures Valid() && el == r
    {
      el := r;
    }

    /** Stops the previous tracker; starts a new one only for an items panel
      whose element is mounted and whose `active` prop changed. */
    method ComponentDidUpdate(prevProps: Props)
      requires Wired()
      modifies this`tracker, this`trackers, tracker
      ensures Valid()
      ensures old(tracker) != null ==> old(tracker).stopped
      ensures ChildView.StartsTracker(prevProps, props, el) ==>
                tracker != null && fresh(tracker) && !tracker.stopped && tracker.recalculations == 1
                && tracker.element == el.value && tracker.owner == root
                && trackers == old(trackers) + [tracker]
      ensures !ChildView.StartsTracker(prevProps, props, el) ==> tracker == old(tracker) && trackers == old(trackers)
      // an update that keeps the open flag leaves no tracker running
      ensures Lookup(props, "active") == Lookup(prevProps, "active") ==> tracker == null || tracker.stopped
    {
      if tracker != null {
        tracker.Stop();
      }
      if !ChildView.IsTrigger(props) && el.Some? && Lookup(props, "active") != Lookup(prevProps, "active") {
        var t := new Tracker(el.value, root);
        tracker := t;
        trackers := trackers + [t];
        t.Recalculate();
      }
    }

    /** Stops the tracker if there is one. */
    method ComponentWillUnmount()
      requires Valid()
      modifies tracker
      ensures Valid()
      ensures tracker != null ==> tracker.stopped
      ensures forall i :: 0 <= i < |trackers| ==> trackers[i].stopped
    {
      if tracker != null {
        tracker.Stop();
      }
    }

    /** The framework's update: new props arrive, the ref is rebound to the
      element mounted for them (or cleared), then componentDidUpdate runs. */
    method Commit(newProps: Props, mounted: Option<Element>)
      requires Valid() && ChildView.WellTyped(newProps)
      requires mounted.Some? <==> ChildView.RendersElement(newProps)
      modifies this`props, this`el, this`tracker, this`trackers, tracker
      ensures Valid() && props == newProps && el == mounted
      ensures old(tracker) != null ==> old(tracker).stopped
      ensures ChildView.StartsTracker(old(props), newProps, mounted) ==>
                tracker != null && fresh(tracker) && !tracker.stopped && tracker.element == mounted.value
      ensures !ChildView.StartsTracker(old(props), newProps, mounted) ==> tracker == old(tracker)
    {
      var prev := props;
      props := newProps;
      el := mounted;
      ComponentDidUpdate(prev);
    }

    /** The trigger's click and key-release handler: reports an accepted
      activation to the controller exactly once. */
    method OnEvent(e: Event)
      requires root.Valid()
      modifies root
      ensures root.Valid()
      ensures root.State() == if ChildView.AcceptsActivation(props, e)
                              then Controller.TriggerEvent(old(root.State()))
                              else old(root.State())
      ensures root.trigger == old(root.trigger) && root.items == old(root.items)
    {
      if ChildView.Active(props) || (e.KeyboardEvent? && e.key != "Enter") {
        return;
      }
      root.OnTriggerEvent();
    }
  }

  /** A client run: open through the trigger, mount the panel, then click
      outside it. Only the contracts above are used. */
  method OpenAndDismissScenario()
  {
    var root := new Root();
    var trigger := new Child(map["isTrigger" := Flag(true), "active" := Flag(false)], root);
    var panel := new Child(map["active" := Flag(false)], root);
    assert root.trigger == trigger && root.items == panel;
    trigger.OnEvent(MouseEvent(Element(1)));
    assert root.active && root.listening == {Click, KeyUp};
    panel.Commit(map["active" := Flag(true)], Some(Element(2)));
    assert panel.tracker != null && !panel.tracker.stopped;
    root.OnEvents(KeyboardEvent("a", Element(3)), (a: Element, b: Element) => a == b);
    assert root.active;
    root.OnEvents(MouseEvent(Element(3)), (a: Element, b: Element) => a == b);
    assert !root.active && root.listening == {};
    assert root.subscriptions == root.unsubscriptions;
  }
}
