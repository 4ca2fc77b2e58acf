/** The part of a parsed PMML document the loaders navigate: an element with a name,
    its attributes and its child elements in document order. It stands for the dom4j
    `Element` API the source calls. */
module Pmml {
  import opened Common

  datatype Element = Element(name: string, attributes: map<string, string>, children: seq<Element>)

  /** `attribute(key).getValue()`, with a missing attribute read as None. */
  function Attr(e: Element, key: string): (r: Option<string>)
    ensures r.Some? <==> key in e.attributes
  {
    if key in e.attributes then Some(e.attributes[key]) else None
  }

  /** The elements of `elements` named `name`, in their original order. */
  function Named(elements: seq<Element>, name: string): (r: seq<Element>)
    ensures |r| <= |elements|
    ensures forall c :: c in r ==> c in elements && c.name == name
  {
    if |elements| == 0 then []
    else if elements[0].name == name then [elements[0]] + Named(elements[1..], name)
    else Named(elements[1..], name)
  }

  /** `elements(name)`: the children named `name`, in document order. */
  function ChildrenNamed(e: Element, name: string): (r: seq<Element>)
    ensures forall c :: c in r ==> c in e.children && c.name == name
  {
    Named(e.children, name)
  }

  /** `element(name)`: the first child named `name`, or None (a null reference). */
  function FirstChild(e: Element, name: string): (r: Option<Element>)
    ensures r.Some? ==> r.value in e.children
  {
    var named := ChildrenNamed(e, name);
    if |named| == 0 then None else assert named[0] in named; Some(named[0])
  }
}
