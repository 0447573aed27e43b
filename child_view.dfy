/** The pure decisions of a dropdown child: which role its props select, what
    it renders, which activation events it forwards to the controller, and
    when an update starts a new visibility tracker. */
module ChildView {
  import opened Dom

  /** The child is the trigger (otherwise it is the items panel). */
  predicate IsTrigger(p: Props) { Has(p, "isTrigger") }

  /** The open flag the controller injected into the child's props. */
  predicate Active(p: Props) { Has(p, "active") }

  /** The prop types the child declares: `isTrigger` and `active` are
      booleans, `classPrefix` and `className` are strings. */
  predicate WellTyped(p: Props)
  {
    ("isTrigger" in p ==> p["isTrigger"].Flag?)
    && ("active" in p ==> p["active"].Flag?)
    && ("classPrefix" in p ==> p["classPrefix"].Text?)
    && ("className" in p ==> p["className"].Text?)
  }

  /** The child renders an element (and not nothing): it is the trigger or open. */
  predicate RendersElement(p: Props) { IsTrigger(p) || Active(p) }

  /** The props the child consumes and does not pass to its element. */
  const Stripped: set<string> := {"isTrigger", "classPrefix", "active"}

  /** `(classPrefix || 'child') + '-active'`: an empty prefix falls back too. */
  function ActiveClassName(p: Props): (name: string)
    ensures Has(p, "classPrefix") && p["classPrefix"].Text? ==> name == p["classPrefix"].s + "-active"
    ensures !Has(p, "classPrefix") ==> name == "child-active"
  {
    (if Has(p, "classPrefix") && p["classPrefix"].Text? then p["classPrefix"].s else "child") + "-active"
  }

  /** The className the child computes: the caller's classes plus the
      active modifier while open. */
  function ComputedClass(p: Props): Attr
  {
    Classes(ClassNames(Lookup(p, "className"), ActiveClassName(p), Active(p)))
  }

  /** The trigger wires its activation handler to clicks and key releases. */
  function WireTrigger(p: Props, attrs: Props): Props
  {
    if IsTrigger(p) then attrs["onClick" := OnEventHandler]["onKeyUp" := OnEventHandler] else attrs
  }

  /** `render()` as written: the computed className is placed before the
      passed-through props, so a caller's own `className` replaces it. */
  function RenderAsWritten(p: Props): (r: Rendered)
    ensures r.Nothing? <==> !IsTrigger(p) && !Active(p)
  {
    if !IsTrigger(p) && !Active(p) then Nothing
    else Created(if IsTrigger(p) then "a" else "div",
                 WireTrigger(p, map["className" := ComputedClass(p)] + (p - Stripped)))
  }

  /** `render()` with the computed className placed after the passed-through
      props, so it keeps the caller's classes and adds the active modifier. */
  function Render(p: Props): (r: Rendered)
    // An inactive items panel renders nothing; everything else renders.
    ensures r.Nothing? <==> !IsTrigger(p) && !Active(p)
    ensures r.Created? <==> RendersElement(p)
    ensures r.Created? ==> r.tag == (if IsTrigger(p) then "a" else "div")
    // The child's own props are not passed to the element.
    ensures r.Created? ==> "isTrigger" !in r.attrs && "classPrefix" !in r.attrs && "active" !in r.attrs
    // The active modifier is present while open (and otherwise only if the caller named it).
    ensures r.Created? ==> "className" in r.attrs && r.attrs["className"].Classes?
    ensures r.Created? ==> (ActiveClassName(p) in r.attrs["className"].tokens
                            <==> Active(p) || BaseClasses(Lookup(p, "className")) == [ActiveClassName(p)])
    // The caller's own className is kept.
    ensures r.Created? ==> forall c :: c in BaseClasses(Lookup(p, "className")) ==> c in r.attrs["className"].tokens
    // ... and no class other than the caller's and the modifier appears.
    ensures r.Created? ==> forall t :: t in r.attrs["className"].tokens ==> t == ActiveClassName(p) || t in BaseClasses(Lookup(p, "className"))
    // The trigger always renders, with both handlers wired to the child.
    ensures IsTrigger(p) ==> r.Created? && "onClick" in r.attrs && "onKeyUp" in r.attrs
                             && r.attrs["onClick"] == OnEventHandler && r.attrs["onKeyUp"] == OnEventHandler
    // Every other prop reaches the element unchanged.
    ensures r.Created? ==> forall k :: k in p && k !in Stripped && k != "className"
                                       && (IsTrigger(p) ==> k != "onClick" && k != "onKeyUp")
                                       ==> k in r.attrs && r.attrs[k] == p[k]
    // Nothing is added but the className and, on the trigger, its two handlers.
    ensures r.Created? ==> forall k :: k in r.attrs && k != "className"
                                       && !(IsTrigger(p) && (k == "onClick" || k == "onKeyUp"))
                                       ==> k in p && r.attrs[k] == p[k]
  {
    if !IsTrigger(p) && !Active(p) then Nothing
    else Created(if IsTrigger(p) then "a" else "div",
                 WireTrigger(p, (p - Stripped)["className" := ComputedClass(p)]))
  }

  /** Without a caller-supplied className the two renderings agree. */
  lemma AsWrittenAgreesWithoutClassName(p: Props)
    requires "className" !in p
    ensures RenderAsWritten(p) == Render(p)
  {
  }

  /** For every props value the two renderings agree on everything but the
      className: as written it is the caller's own className when one is given. */
  lemma AsWrittenDiffersOnlyInClassName(p: Props)
    ensures RenderAsWritten(p).Nothing? <==> Render(p).Nothing?
    ensures Render(p).Created? ==>
              RenderAsWritten(p) == Created(Render(p).tag,
                Render(p).attrs["className" := if "className" in p then p["className"] else ComputedClass(p)])
  {
  }

  /** As written, an open child given its own className loses the active
      modifier: the element carries the caller's className unchanged. */
  lemma AsWrittenDropsActiveClass(p: Props)
    requires Active(p) && "className" in p && p["className"].Text?
    ensures RenderAsWritten(p).Created?
    ensures RenderAsWritten(p).attrs["className"] == p["className"]
    ensures ActiveClassName(p) in Render(p).attrs["className"].tokens
  {
  }

  /** A concrete instance: an open items panel with className "menu". */
  lemma ActiveClassExample()
    ensures var p := map["active" := Flag(true), "className" := Text("menu")];
            RenderAsWritten(p) == Created("div", map["className" := Text("menu")])
            && Render(p) == Created("div", map["className" := Classes(["menu", "child-active"])])
  {
    var p := map["active" := Flag(true), "className" := Text("menu")];
    assert p - Stripped == map["className" := Text("menu")];
    assert ActiveClassName(p) == "child-active";
    assert ComputedClass(p) == Classes(["menu", "child-active"]);
    assert (p - Stripped)["className" := ComputedClass(p)] == map["className" := Classes(["menu", "child-active"])];
  }

  /** `onEvent`'s filter: ignored while open; a key release counts only for Enter. */
  predicate AcceptsActivation(p: Props, e: Event)
  {
    !Active(p) && (e.MouseEvent? || e.key == "Enter")
  }

  /** `componentDidUpdate`'s test for starting a tracker: an items panel with a
      mounted element whose `active` prop differs from the previous one. */
  predicate StartsTracker(prev: Props, p: Props, el: Option<Element>)
  {
    !IsTrigger(p) && el.Some? && Lookup(p, "active") != Lookup(prev, "active")
  }

  /** A mounted items panel is open, so a tracker is only ever started for an
      open panel, and an update that keeps the flag starts none. */
  lemma TrackerOnlyWhenOpening(prev: Props, p: Props, el: Option<Element>)
    requires el.Some? ==> RendersElement(p)
    ensures StartsTracker(prev, p, el) ==> Active(p) && !IsTrigger(p)
    ensures Lookup(p, "active") == Lookup(prev, "active") ==> !StartsTracker(prev, p, el)
  {
  }
}
