/** XML documents as element trees: what SimpleXML builds from a reply and
 *  what the client builds as a command. Serialisation and parsing are not
 *  part of this model; `//TAG` queries are a tree search. */
module Xml {
  import opened Wrappers
  import opened PhpArrays

  /** An element: its tag, its attributes in document order, its own text
   *  (`(string)$element`) and its child elements in document order. */
  datatype Element = Element(tag: string, attrs: Arr<string>, text: string, children: seq<Element>)

  /** `addChild($tag, $text)`: an element with text and nothing else. */
  function Leaf(tag: string, text: string): Element
  {
    Element(tag, [], text, [])
  }

  /** `x` is `e` or lies somewhere below it. */
  ghost predicate Within(x: Element, e: Element)
    decreases e
  {
    x == e || exists i :: 0 <= i < |e.children| && Within(x, e.children[i])
  }

  /** `$doc->xpath('//TAG')` from the root `e`: the elements named `tag`, in
   *  document (pre-)order, the root included. */
  function FindAll(e: Element, tag: string): seq<Element>
    decreases e, 1
  {
    (if e.tag == tag then [e] else []) + FindAllIn(e.children, tag)
  }

  function FindAllIn(es: seq<Element>, tag: string): seq<Element>
    decreases es, 0
  {
    if es == [] then [] else FindAll(es[0], tag) + FindAllIn(es[1..], tag)
  }

  /** The search finds nothing else: every element it returns is named `tag`
   *  and lies in the tree. */
  lemma {:induction false} FindAllSound(e: Element, tag: string, x: Element)
    requires x in FindAll(e, tag)
    ensures x.tag == tag && Within(x, e)
    decreases e, 1
  {
    if x != e || e.tag != tag {
      assert x in FindAllIn(e.children, tag);
      var i := FindAllInSound(e.children, tag, x);
    }
  }

  lemma {:induction false} FindAllInSound(es: seq<Element>, tag: string, x: Element) returns (i: nat)
    requires x in FindAllIn(es, tag)
    ensures i < |es| && x.tag == tag && Within(x, es[i])
    decreases es, 0
  {
    if x in FindAll(es[0], tag) {
      FindAllSound(es[0], tag, x);
      i := 0;
    } else {
      var j := FindAllInSound(es[1..], tag, x);
      i := j + 1;
    }
  }

  /** The search misses nothing: every element named `tag` anywhere in the
   *  tree is found. */
  lemma {:induction false} FindAllComplete(e: Element, tag: string, x: Element)
    requires Within(x, e) && x.tag == tag
    ensures x in FindAll(e, tag)
    decreases e, 1
  {
    if x != e {
      var i :| 0 <= i < |e.children| && Within(x, e.children[i]);
      FindAllInComplete(e.children, tag, x, i);
    }
  }

  lemma {:induction false} FindAllInComplete(es: seq<Element>, tag: string, x: Element, i: nat)
    requires i < |es| && Within(x, es[i]) && x.tag == tag
    ensures x in FindAllIn(es, tag)
    decreases es, 0
  {
    if i == 0 {
      FindAllComplete(es[0], tag, x);
    } else {
      assert es[1..][i - 1] == es[i];
      FindAllInComplete(es[1..], tag, x, i - 1);
    }
  }

  /** `$e->TAG`: the first child element named `tag`, if there is one. */
  function Child(e: Element, tag: string): (c: Option<Element>)
    ensures c.Some? ==> exists i :: 0 <= i < |e.children| && e.children[i] == c.value && c.value.tag == tag &&
                          forall j :: 0 <= j < i ==> e.children[j].tag != tag
    ensures c.None? ==> forall x :: x in e.children ==> x.tag != tag
  {
    FirstNamed(e.children, tag)
  }

  function FirstNamed(es: seq<Element>, tag: string): (c: Option<Element>)
    ensures c.Some? ==> exists i :: 0 <= i < |es| && es[i] == c.value && c.value.tag == tag &&
                          forall j :: 0 <= j < i ==> es[j].tag != tag
    ensures c.None? ==> forall x :: x in es ==> x.tag != tag
  {
    if es == [] then None
    else if es[0].tag == tag then Some(es[0])
    else
      var c := FirstNamed(es[1..], tag);
      assert c.Some? ==> exists i :: 1 <= i < |es| && es[i] == c.value && c.value.tag == tag &&
                           forall j :: 0 <= j < i ==> es[j].tag != tag by {
        if c.Some? {
          var k :| 0 <= k < |es[1..]| && es[1..][k] == c.value && c.value.tag == tag &&
                   forall j :: 0 <= j < k ==> es[1..][j].tag != tag;
          assert forall j :: 1 <= j < k + 1 ==> es[j] == es[1..][j - 1];
        }
      }
      c
  }

  /** PHP's `empty()` on a SimpleXML element: it has no child nodes, or its
   *  only content is the text "" or "0". */
  predicate IsBlank(e: Element)
  {
    e.children == [] && (e.text == "" || e.text == "0")
  }

  /** `strtoupper` on one character: ASCII letters only. */
  function UpperChar(c: char): char
  {
    if 'a' <= c <= 'z' then (c as int - 32) as char else c
  }

  /** `strtoupper`: the tag name made from a parameter key. */
  function ToUpper(s: string): string
  {
    if s == [] then [] else [UpperChar(s[0])] + ToUpper(s[1..])
  }

  /** `strtoupper` keeps the length, upper-cases each ASCII letter and leaves
   *  every other character alone, so no lower-case letter remains. */
  lemma {:induction false} ToUpperSpec(s: string)
    ensures |ToUpper(s)| == |s|
    ensures forall i :: 0 <= i < |s| ==> ToUpper(s)[i] == UpperChar(s[i])
    ensures forall i :: 0 <= i < |s| ==> !('a' <= ToUpper(s)[i] <= 'z')
  {
    if s != [] {
      ToUpperSpec(s[1..]);
      assert forall i :: 1 <= i < |s| ==> ToUpper(s)[i] == ToUpper(s[1..])[i - 1];
    }
  }
}
