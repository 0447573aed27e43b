/** The pure part of the dropdown controller's render: the `-right` modifier
    on its wrapper and the rewriting of its direct children so that each
    carries the controller's open flag. */
module RootView {
  import opened Dom
  import Controller

  /** A direct child of the controller, as the framework hands it over. */
  datatype Node =
    | ChildElement(props: Props)              // an element of the dropdown's Child type
    | OtherElement(kind: string, props: Props) // an element of any other type
    | NonElement                               // text, null, a nested list, ...

  /** The controller's `children` prop: one node, or a list of them. */
  datatype Children = Single(node: Node) | Multiple(nodes: seq<Node>)

  datatype Error =
    | InvalidChild   // the development build's diagnostic for a non-Child child
    | NotAnElement   // the framework cannot clone something that is not an element

  datatype Result<T> = Ok(value: T) | Err(error: Error)

  /** The framework's child count, without flattening nested lists. */
  function Count(c: Children): nat
  {
    match c
    case Single(_) => 1
    case Multiple(ns) => |ns|
  }

  /** The node a clone with `active` produces from an element. */
  function WithActive(n: Node, active: bool): Node
    requires !n.NonElement?
  {
    match n
    case ChildElement(p) => ChildElement(p["active" := Flag(active)])
    case OtherElement(k, p) => OtherElement(k, p["active" := Flag(active)])
  }

  /** What the mapper accepts: a Child element always; any other element
      only in a production build, where the type check is skipped. */
  predicate Accepted(n: Node, production: bool)
  {
    n.ChildElement? || (production && n.OtherElement?)
  }

  /** `applyProps`'s mapper for one child: the type check of a development
      build, then a clone that overrides `active`. */
  function Mapper(n: Node, active: bool, production: bool): (r: Result<Node>)
    ensures r.Ok? <==> Accepted(n, production)
    ensures r.Ok? ==> r.value == WithActive(n, active)
    ensures r.Err? && !production ==> r.error == InvalidChild
  {
    if !n.ChildElement? && !production then Err(InvalidChild)
    else if n.NonElement? then Err(NotAnElement)
    else Ok(WithActive(n, active))
  }

  /** The open flag a rewritten node carries. */
  function ActiveOf(n: Node): Option<Attr>
  {
    match n
    case ChildElement(p) => Lookup(p, "active")
    case OtherElement(_, p) => Lookup(p, "active")
    case NonElement => None
  }

  /** Mapping over a list of children: stops at the first child that throws. */
  function MapAll(ns: seq<Node>, active: bool, production: bool): (r: Result<seq<Node>>)
    ensures r.Ok? <==> forall i :: 0 <= i < |ns| ==> Accepted(ns[i], production)
    ensures r.Ok? ==> |r.value| == |ns|
    ensures r.Ok? ==> forall i :: 0 <= i < |ns| ==> !ns[i].NonElement? && r.value[i] == WithActive(ns[i], active)
    ensures r.Err? ==> exists i :: 0 <= i < |ns| && !Accepted(ns[i], production)
                                   && Mapper(ns[i], active, production).error == r.error
  {
    if ns == [] then Ok([])
    else match Mapper(ns[0], active, production)
      case Err(e) => Err(e)
      case Ok(n) =>
        match MapAll(ns[1..], active, production)
        case Err(e) => Err(e)
        case Ok(rest) => Ok([n] + rest)
  }

  /** `applyProps(children)`: more than one child is mapped one by one; a
      single child, or a list of at most one, is handed to the mapper whole,
      so a list of one is rejected like any non-element. */
  function ApplyProps(c: Children, active: bool, production: bool): (r: Result<Children>)
    ensures r.Ok? ==> (r.value.Single? <==> Count(c) <= 1)
    ensures r.Ok? && r.value.Single? ==> ActiveOf(r.value.node) == Some(Flag(active))
    ensures r.Ok? && r.value.Multiple? ==>
              |r.value.nodes| == Count(c) && forall i :: 0 <= i < |r.value.nodes| ==> ActiveOf(r.value.nodes[i]) == Some(Flag(active))
    ensures r.Ok? <==> if Count(c) > 1 then forall i :: 0 <= i < |c.nodes| ==> Accepted(c.nodes[i], production)
                       else c.Single? && Accepted(c.node, production)
    ensures r.Ok? && r.value.Single? ==> c.Single? && !c.node.NonElement? && r.value.node == WithActive(c.node, active)
    ensures r.Ok? && r.value.Multiple? ==>
              c.Multiple? && forall i :: 0 <= i < |c.nodes| ==> !c.nodes[i].NonElement? && r.value.nodes[i] == WithActive(c.nodes[i], active)
    ensures !production ==> (r.Ok? <==> if Count(c) > 1 then forall i :: 0 <= i < |c.nodes| ==> c.nodes[i].ChildElement?
                                          else c.Single? && c.node.ChildElement?)
  {
    if Count(c) > 1 then
      match MapAll(c.nodes, active, production)
      case Err(e) => Err(e)
      case Ok(ns) => Ok(Multiple(ns))
    else
      match c
      case Single(n) =>
        (match Mapper(n, active, production)
         case Err(e) => Err(e)
         case Ok(m) => Ok(Single(m)))
      case Multiple(_) => Err(Mapper(NonElement, active, production).error)
  }

  /** `classPrefix + '-right'`: with no prefix the script yields "undefined-right". */
  function RightClassName(p: Props): string
  {
    (if "classPrefix" in p && p["classPrefix"].Text? then p["classPrefix"].s else "undefined") + "-right"
  }

  /** The controller's rendered wrapper: a div with the caller's props minus
      `classPrefix`, its className extended by the `-right` modifier, and the
      rewritten children. */
  datatype Wrapper = Wrapper(tag: string, attrs: Props, children: Children)

  function Render(p: Props, s: Controller.RootState, c: Children, production: bool): (r: Result<Wrapper>)
    ensures r.Ok? <==> ApplyProps(c, s.active, production).Ok?
    ensures r.Ok? ==> r.value.tag == "div" && "classPrefix" !in r.value.attrs
    ensures r.Ok? ==> "className" in r.value.attrs && r.value.attrs["className"].Classes?
    ensures r.Ok? ==> (RightClassName(p) in r.value.attrs["className"].tokens
                       <==> Controller.RightFlip(s) || BaseClasses(Lookup(p, "className")) == [RightClassName(p)])
    ensures r.Ok? ==> forall c :: c in BaseClasses(Lookup(p, "className")) ==> c in r.value.attrs["className"].tokens
    ensures r.Ok? ==> forall t :: t in r.value.attrs["className"].tokens ==> t == RightClassName(p) || t in BaseClasses(Lookup(p, "className"))
    ensures r.Ok? ==> r.value.attrs.Keys == (p.Keys - {"classPrefix"}) + {"className"}
    ensures r.Ok? ==> forall k :: k in p && k != "classPrefix" && k != "className" ==> k in r.value.attrs && r.value.attrs[k] == p[k]
    ensures r.Ok? ==> r.value.children == ApplyProps(c, s.active, production).value
  {
    match ApplyProps(c, s.active, production)
    case Err(e) => Err(e)
    case Ok(children) =>
      var className := Classes(ClassNames(Lookup(p, "className"), RightClassName(p), Controller.RightFlip(s)));
      Ok(Wrapper("div", (p - {"classPrefix"})["className" := className], children))
  }
}
