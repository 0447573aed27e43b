/** Values shared by the dropdown's controller and its children: DOM elements
    and events as abstract values, the four-corner visibility snapshot that the
    in-view tracker reports, and element props as a map from prop names to
    abstract attribute values. */
module Dom {

  datatype Option<T> = None | Some(value: T)

  /** An element of the page, identified only by an opaque id. */
  datatype Element = Element(id: nat)

  /** The two document events the controller listens for. */
  datatype EventType = Click | KeyUp

  /** A native event, already discriminated into mouse and keyboard origin. */
  datatype Event =
    | MouseEvent(target: Element)
    | KeyboardEvent(key: string, target: Element)

  /** Which corners of the items panel lie inside the viewport. */
  datatype Visibility = Visibility(topLeft: bool, topRight: bool, bottomLeft: bool, bottomRight: bool)

  /** The snapshot the controller starts with and resets to on every toggle. */
  const FullyVisible := Visibility(true, true, true, true)

  /** Field-for-field comparison of two snapshots. */
  predicate ShallowEqual(a: Visibility, b: Visibility)
  {
    a.topLeft == b.topLeft && a.topRight == b.topRight &&
    a.bottomLeft == b.bottomLeft && a.bottomRight == b.bottomRight
  }

  /** No corner of the snapshot is reported as anything but visible. */
  predicate AllCornersVisible(v: Visibility)
  {
    v.topLeft && v.topRight && v.bottomLeft && v.bottomRight
  }

  /** An abstract prop value. `Classes` is the result of joining class names;
      `OnEventHandler` is the child's own activation handler. */
  datatype Attr =
    | Text(s: string)
    | Flag(b: bool)
    | Callback(id: nat)
    | Classes(tokens: seq<string>)
    | OnEventHandler

  /** Element props (and attributes passed through to a rendered element). */
  type Props = map<string, Attr>

  /** What a component's render produces: nothing, or a host element. */
  datatype Rendered = Nothing | Created(tag: string, attrs: Props)

  /** The script's truthiness of a prop value. */
  predicate Truthy(a: Attr)
  {
    match a
    case Text(s) => s != ""
    case Flag(b) => b
    case _ => true
  }

  function Lookup(p: Props, key: string): Option<Attr>
  {
    if key in p then Some(p[key]) else None
  }

  /** `p[key]` is present and truthy. */
  predicate Has(p: Props, key: string)
  {
    key in p && Truthy(p[key])
  }

  /** The caller's own `className`, as a class list: empty when absent or empty. */
  function BaseClasses(base: Option<Attr>): seq<string>
  {
    if base.Some? && base.value.Text? && base.value.s != "" then [base.value.s] else []
  }

  /** The class list built from a caller's `className` prop and one modifier
      class that is present when `on` holds: empty strings are dropped. */
  function ClassNames(base: Option<Attr>, modifier: string, on: bool): (r: seq<string>)
    ensures |BaseClasses(base)| <= |r| && r[..|BaseClasses(base)|] == BaseClasses(base)
    ensures modifier in r <==> on || BaseClasses(base) == [modifier]
    ensures forall c :: c in r ==> c == modifier || c in BaseClasses(base)
  {
    BaseClasses(base) + (if on then [modifier] else [])
  }
}
