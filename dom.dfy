/**
 * The parsed page element that FromHtml reads (an AngleSharp IElement): its attributes, the
 * div elements nested in it in document order, and its inner HTML as the parser serialises it.
 * Only divs are kept as children because GetElementsByTagName("div") is the only traversal
 * the modelled code performs; a div nested inside another kind of element is a child here.
 */
module Dom {
  import opened Wrappers

  datatype Element = Element(attributes: map<string, string>, divs: seq<Element>, innerHtml: string)

  /** IElement.GetAttribute: null when the attribute is absent. */
  function GetAttribute(e: Element, name: string): NString {
    if name in e.attributes then Some(e.attributes[name]) else None
  }

  /** GetElementsByTagName("div"): every div below `e` (not `e` itself), in document order. */
  function Descendants(e: Element): seq<Element>
    decreases e, 1
  {
    DescendantsOf(e.divs)
  }

  /** The divs `cs`, each followed by the divs below it. */
  function DescendantsOf(cs: seq<Element>): seq<Element>
    decreases cs, 0
  {
    if cs == [] then [] else [cs[0]] + Descendants(cs[0]) + DescendantsOf(cs[1..])
  }

  /** `.Where(a => a.HasAttribute(name)).FirstOrDefault()`: the first element carrying `name`. */
  function FirstWithAttribute(es: seq<Element>, name: string): (r: Option<Element>)
    ensures r.Some? ==> name in r.value.attributes
  {
    if es == [] then None
    else if name in es[0].attributes then Some(es[0])
    else FirstWithAttribute(es[1..], name)
  }

  /** FirstWithAttribute finds nothing exactly when no element carries `name`. */
  lemma {:induction false} FirstWithAttributeMissing(es: seq<Element>, name: string)
    ensures FirstWithAttribute(es, name).None? <==> forall i :: 0 <= i < |es| ==> name !in es[i].attributes
    decreases |es|
  {
    if es != [] {
      if name in es[0].attributes {
        assert name in es[0].attributes;
      } else {
        var rest := es[1..];
        FirstWithAttributeMissing(rest, name);
        assert forall i :: 0 <= i < |rest| ==> rest[i] == es[i + 1];
      }
    }
  }

  /** What FirstWithAttribute finds is an element carrying `name` that no earlier element carries. */
  lemma {:induction false} FirstWithAttributeFindsFirst(es: seq<Element>, name: string) returns (i: nat)
    requires FirstWithAttribute(es, name).Some?
    ensures i < |es| && es[i] == FirstWithAttribute(es, name).value
    ensures forall k :: 0 <= k < i ==> name !in es[k].attributes
    decreases |es|
  {
    if name in es[0].attributes {
      i := 0;
    } else {
      var rest := es[1..];
      var j := FirstWithAttributeFindsFirst(rest, name);
      assert forall k :: 0 <= k < |rest| ==> rest[k] == es[k + 1];
      i := j + 1;
    }
  }

  /** Every div directly nested in a list of divs is among their descendants. */
  lemma {:induction false} NestedDivsAreDescendants(cs: seq<Element>, i: nat)
    requires i < |cs|
    ensures cs[i] in DescendantsOf(cs)
    decreases |cs|
  {
    if i > 0 {
      NestedDivsAreDescendants(cs[1..], i - 1);
    }
  }

  /** When a div nested in `e` carries `name`, the search of FromHtml finds a div carrying it. */
  lemma FoundWhenNested(e: Element, i: nat, name: string)
    requires i < |e.divs| && name in e.divs[i].attributes
    ensures FirstWithAttribute(Descendants(e), name).Some?
    ensures name in FirstWithAttribute(Descendants(e), name).value.attributes
  {
    NestedDivsAreDescendants(e.divs, i);
    FirstWithAttributeMissing(Descendants(e), name);
    var k :| 0 <= k < |Descendants(e)| && Descendants(e)[k] == e.divs[i];
  }
}
