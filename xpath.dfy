/**
 * `getElementXPath` of the click tracker (src/hooks/useEventTracking.ts): the path it
 * records for a clicked element, over an abstract document tree. A node is addressed by
 * its route, the child positions leading to it from the root; the function climbs from the
 * node to its parent by dropping the last position. The path uses the `id()` function of
 * XPath 1.0 (W3C), section 4.1, and abbreviated child steps with a positional predicate,
 * section 2.4 and 2.5 of the same standard. Also the 50-character text excerpt the tracker
 * records.
 */
module ElementPath {
  import opened Collections
  import opened Text

  /** A document node, an element, or any other node (text, comment, doctype: nodeType other than 1). */
  datatype Node = Document(children: seq<Node>) | Element(tagName: string, id: string, children: seq<Node>) | Leaf

  function ChildrenOf(n: Node): seq<Node>
  {
    match n
    case Document(cs) => cs
    case Element(_, _, cs) => cs
    case Leaf => []
  }

  function Init(route: seq<nat>): seq<nat>
    requires route != []
  {
    route[..|route| - 1]
  }

  function Last(route: seq<nat>): nat
    requires route != []
  {
    route[|route| - 1]
  }

  /** The route leads to a node: every position is within its parent's children. */
  predicate ValidRoute(root: Node, route: seq<nat>)
    decreases |route|, 0
  {
    route == [] || (ValidRoute(root, Init(route)) && Last(route) < |ChildrenOf(At(root, Init(route)))|)
  }

  /** The node a route leads to. */
  function At(root: Node, route: seq<nat>): Node
    requires ValidRoute(root, route)
    decreases |route|, 1
  {
    if route == [] then root else ChildrenOf(At(root, Init(route)))[Last(route)]
  }

  /** A node with a child is not a leaf, so a parent is always a document or an element. */
  lemma ParentNotLeaf(root: Node, route: seq<nat>)
    requires ValidRoute(root, route) && route != []
    ensures !At(root, Init(route)).Leaf?
  {
  }

  /** An element with this tag name (`nodeType === 1` and the same `tagName`). */
  function Tagged(tag: string): Node -> bool
  {
    (n: Node) => n.Element? && n.tagName == tag
  }

  function IsElementNode(n: Node): bool { n.Element? }

  /** The counter `ix` at the element's position: earlier siblings that are elements with its tag. */
  function SameTagBefore(siblings: seq<Node>, k: nat, tag: string): nat
    requires k <= |siblings|
  {
    Count(siblings[..k], Tagged(tag))
  }

  /**
   * `element === document.body`: the route leads from the document to its document
   * element, an HTML element, and on to that element's first BODY child.
   */
  predicate IsBody(root: Node, route: seq<nat>)
  {
    root.Document? && |route| == 2 &&
    var h := IndexWhere(root.children, IsElementNode);
    h >= 0 && route[0] == h && root.children[h].tagName == "HTML" &&
    route[1] == IndexWhere(root.children[h].children, Tagged("BODY"))
  }

  /** The `id` property: an element's id, or undefined on a document. */
  function IdProperty(n: Node): Option<string>
    requires !n.Leaf?
  {
    if n.Element? then Some(n.id) else None
  }

  /** A call of the `id()` function on a string literal: `id("value")`. */
  function IdStep(value: string): string
  {
    "id(\"" + value + "\")"
  }

  /** One child step with its positional predicate: `/tag[position]`, the tag lower-cased. */
  function Step(tagName: string, position: nat): (r: string)
    ensures |r| > 0 && r[0] == '/'
  {
    "/" + ToLower(tagName) + "[" + NatToString(position) + "]"
  }

  /** The position an element's step carries: one more than its earlier siblings with the same tag. */
  function PositionOf(root: Node, route: seq<nat>): nat
    requires ValidRoute(root, route) && route != [] && At(root, route).Element?
  {
    SameTagBefore(ChildrenOf(At(root, Init(route))), Last(route), At(root, route).tagName) + 1
  }

  /** The path of the node at `route`, the document contributing `documentStep`. */
  function PathOf(root: Node, route: seq<nat>, documentStep: string): string
    requires ValidRoute(root, route) && !At(root, route).Leaf?
    decreases |route|
  {
    var n := At(root, route);
    if n.Document? then documentStep
    else if n.id != "" then IdStep(n.id)
    else if IsBody(root, route) then "/html/body"
    else if route == [] then ""
    else
      ParentNotLeaf(root, route);
      PathOf(root, Init(route), documentStep) + Step(n.tagName, PositionOf(root, route))
  }

  /**
   * The path as the code computes it: a document's `id` is undefined, which differs from
   * the empty string, so the document renders as `id("undefined")`.
   */
  function XPathAsWritten(root: Node, route: seq<nat>): string
    requires ValidRoute(root, route) && !At(root, route).Leaf?
  {
    PathOf(root, route, IdStep("undefined"))
  }

  /** The path with the document contributing nothing, so that a climb to it gives an absolute path. */
  function XPath(root: Node, route: seq<nat>): string
    requires ValidRoute(root, route) && !At(root, route).Leaf?
  {
    PathOf(root, route, "")
  }

  /**
   * `getElementXPath`: the id shortcut (a document's `id` being undefined, not empty), the
   * body shortcut, and otherwise the sibling scan of `ScanSiblings`.
   */
  method ElementXPath(root: Node, route: seq<nat>) returns (path: string)
    requires ValidRoute(root, route) && !At(root, route).Leaf?
    ensures path == XPathAsWritten(root, route)
    decreases |route|, 1
  {
    var n := At(root, route);
    var id := IdProperty(n);
    if id != Some("") {
      return IdStep(if id.Some? then id.value else "undefined");
    }
    if IsBody(root, route) {
      return "/html/body";
    }
    path := ScanSiblings(root, route);
  }

  /**
   * The loop of `getElementXPath` over the parent's children: it counts the earlier
   * elements with the same tag until it reaches the element itself, and then appends the
   * element's step to its parent's path; without a parent there is nothing to scan and the
   * result is empty.
   */
  method ScanSiblings(root: Node, route: seq<nat>) returns (path: string)
    requires ValidRoute(root, route) && At(root, route).Element?
    requires At(root, route).id == "" && !IsBody(root, route)
    ensures path == XPathAsWritten(root, route)
    decreases |route|, 0
  {
    var tag := At(root, route).tagName;
    var ix := 0;
    var siblings: seq<Node> := [];
    if route != [] {
      ParentNotLeaf(root, route);
      siblings := ChildrenOf(At(root, Init(route)));
    }
    var i := 0;
    while i < |siblings|
      invariant 0 <= i <= |siblings|
      invariant route != [] ==> i <= Last(route)
      invariant ix == Count(siblings[..i], Tagged(tag))
    {
      if route != [] && i == Last(route) {
        var parentPath := ElementXPath(root, Init(route));
        path := parentPath + "/" + ToLower(tag) + "[" + NatToString(ix + 1) + "]";
        StepAppended(root, route, ix, parentPath);
        return;
      }
      if siblings[i].Element? && siblings[i].tagName == tag {
        ix := ix + 1;
      }
      CountPrefix(siblings, i, Tagged(tag));
      i := i + 1;
    }
    return "";
  }

  /** The path of an element without an id, other than the body and below some parent, is its parent's path and one step. */
  lemma PathOfStep(root: Node, route: seq<nat>, documentStep: string)
    requires ValidRoute(root, route) && route != [] && At(root, route).Element?
    requires At(root, route).id == "" && !IsBody(root, route)
    ensures !At(root, Init(route)).Leaf?
    ensures PathOf(root, route, documentStep) ==
            PathOf(root, Init(route), documentStep) + Step(At(root, route).tagName, PositionOf(root, route))
  {
  }

  /** The string `getElementXPath` builds from its parent's path and the counter is the element's path. */
  lemma StepAppended(root: Node, route: seq<nat>, ix: nat, parentPath: string)
    requires ValidRoute(root, route) && route != [] && At(root, route).Element?
    requires At(root, route).id == "" && !IsBody(root, route)
    requires !At(root, Init(route)).Leaf?
    requires ix == SameTagBefore(ChildrenOf(At(root, Init(route))), Last(route), At(root, route).tagName)
    requires parentPath == XPathAsWritten(root, Init(route))
    ensures parentPath + "/" + ToLower(At(root, route).tagName) + "[" + NatToString(ix + 1) + "]" ==
            XPathAsWritten(root, route)
  {
    PathOfStep(root, route, IdStep("undefined"));
  }

  /** The position shown for an element is at least 1 and at most its own position plus 1. */
  lemma PositionBounds(siblings: seq<Node>, k: nat, tag: string)
    requires k <= |siblings|
    ensures 1 <= SameTagBefore(siblings, k, tag) + 1 <= k + 1
  {
  }

  /** Nodes that are not elements do not shift the position of those after them. */
  lemma LeavesNotCounted(siblings: seq<Node>, j: nat, k: nat, tag: string)
    requires j <= k <= |siblings|
    ensures SameTagBefore(siblings[..j] + [Leaf] + siblings[j..], k + 1, tag) == SameTagBefore(siblings, k, tag)
  {
    var front, middle := siblings[..j], siblings[j..k];
    var t := front + [Leaf] + siblings[j..];
    assert t[..k + 1] == (front + [Leaf]) + middle;
    assert siblings[..k] == front + middle;
    CountSnoc(front, Leaf, Tagged(tag));
    CountConcat(front + [Leaf], middle, Tagged(tag));
    CountConcat(front, middle, Tagged(tag));
  }

  /**
   * The positional step `tag[m]` of XPath 1.0, section 2.4: the m-th child element (from 1)
   * with that tag name, or nothing.
   */
  function Select(siblings: seq<Node>, tag: string, m: nat): (r: Option<nat>)
    ensures r.Some? ==> r.value < |siblings| && Tagged(tag)(siblings[r.value])
  {
    if siblings == [] || m == 0 then None
    else
      var rest := if Tagged(tag)(siblings[0]) && m == 1 then None
                  else Select(siblings[1..], tag, if Tagged(tag)(siblings[0]) then m - 1 else m);
      if Tagged(tag)(siblings[0]) && m == 1 then Some(0)
      else if rest.Some? then Some(rest.value + 1) else None
  }

  /** The step the path ends with selects the element itself among its siblings. */
  lemma {:induction false} SelectFindsElement(siblings: seq<Node>, k: nat)
    requires k < |siblings| && siblings[k].Element?
    ensures Select(siblings, siblings[k].tagName, SameTagBefore(siblings, k, siblings[k].tagName) + 1) == Some(k)
  {
    var tag := siblings[k].tagName;
    if k > 0 {
      assert siblings[..k][1..] == siblings[1..][..k - 1];
      assert siblings[1..][k - 1] == siblings[k];
      SelectFindsElement(siblings[1..], k - 1);
    }
  }

  /** An element with a non-empty id is recorded as `id("...")`, whatever surrounds it. */
  lemma IdShortcut(root: Node, route: seq<nat>, documentStep: string)
    requires ValidRoute(root, route) && At(root, route).Element? && At(root, route).id != ""
    ensures PathOf(root, route, documentStep) == IdStep(At(root, route).id)
  {
  }

  /** An element with no parent that is neither identified nor the body is recorded as the empty string. */
  lemma DetachedRootIsEmpty(root: Node)
    requires root.Element?
    requires root.id == ""
    ensures XPathAsWritten(root, []) == "" && XPath(root, []) == ""
  {
  }

  /** No element on the route, the node itself included, carries an id. */
  predicate NoIdsOnRoute(root: Node, route: seq<nat>)
    requires ValidRoute(root, route)
    decreases |route|
  {
    (At(root, route).Element? ==> At(root, route).id == "") &&
    (route != [] ==> NoIdsOnRoute(root, Init(route)))
  }

  /**
   * Without ids on the route, the corrected path of an element below the root is an absolute
   * location path (it starts with `/`), and that of any node is empty or absolute.
   */
  lemma {:induction false} XPathIsAbsolute(root: Node, route: seq<nat>)
    requires ValidRoute(root, route) && !At(root, route).Leaf? && NoIdsOnRoute(root, route)
    ensures XPath(root, route) == "" || XPath(root, route)[0] == '/'
    ensures route != [] && At(root, route).Element? ==> XPath(root, route) != ""
    decreases |route|
  {
    var n := At(root, route);
    if n.Element? && !IsBody(root, route) && route != [] {
      ParentNotLeaf(root, route);
      XPathIsAbsolute(root, Init(route));
      var p := XPath(root, Init(route));
      var rest := Step(n.tagName, PositionOf(root, route));
      assert XPath(root, route) == p + rest;
      assert (p + rest)[0] == (if p == "" then rest[0] else p[0]);
    }
  }

  /** A page whose document holds a doctype node and then `<html><head></head><body></body></html>`. */
  const SamplePage: Node :=
    Document([Leaf, Element("HTML", "", [Element("HEAD", "", []), Element("BODY", "", [])])])

  /**
   * Example: on that page the `<html>` element is recorded as `id("undefined")/html[1]`, a path that
   * selects nothing unless some element has the id "undefined"; the corrected path is `/html[1]`.
   */
  lemma HtmlElementPath()
    ensures ValidRoute(SamplePage, [1]) && At(SamplePage, [1]).Element?
    ensures XPathAsWritten(SamplePage, [1]) == IdStep("undefined") + "/html[1]"
    ensures XPath(SamplePage, [1]) == "/html[1]"
  {
    SampleHtml(IdStep("undefined"));
    SampleHtml("");
  }

  /** Example: on the sample page, the `<html>` element's path is the document's step followed by `/html[1]`. */
  lemma SampleHtml(documentStep: string)
    ensures ValidRoute(SamplePage, [1]) && At(SamplePage, [1]) == SamplePage.children[1]
    ensures PathOf(SamplePage, [1], documentStep) == documentStep + "/html[1]"
  {
    var route: seq<nat> := [1];
    assert Init(route) == [] && Last(route) == 1;
    SampleHtmlPosition();
    HtmlStep();
    PathOfStep(SamplePage, route, documentStep);
  }

  /** Example: no earlier sibling of the sample `<html>` is an HTML element; the doctype is not counted. */
  lemma SampleHtmlPosition()
    ensures ValidRoute(SamplePage, [1]) && At(SamplePage, [1]).Element?
    ensures PositionOf(SamplePage, [1]) == 1
  {
    var route: seq<nat> := [1];
    assert Init(route) == [] && Last(route) == 1;
    assert SamplePage.children[..1] == [Leaf];
    assert Count([Leaf], Tagged("HTML")) == 0 by {
      assert [Leaf][1..] == [];
    }
  }

  /** Example: the step of the first HTML element. */
  lemma HtmlStep()
    ensures Step("HTML", 1) == "/html[1]"
  {
    assert NatToString(1) == "1";
    assert ToLower("HTML") == "html";
  }

  /** Example: the body of the sample page is recorded by its shortcut, under either definition. */
  lemma BodyPath()
    ensures ValidRoute(SamplePage, [1, 1])
    ensures XPathAsWritten(SamplePage, [1, 1]) == "/html/body" && XPath(SamplePage, [1, 1]) == "/html/body"
  {
    var route: seq<nat> := [1, 1];
    assert Init(route) == [1] && Last(route) == 1;
    assert Init([1]) == [];
    var html := SamplePage.children[1];
    assert IndexWhere(SamplePage.children, IsElementNode) == 1;
    assert IndexWhere(html.children, Tagged("BODY")) == 1;
  }

  /** `textContent?.substring(0, 50)`: the recorded text is the first 50 characters at most. */
  function RecordedText(textContent: string): (r: string)
    ensures |r| <= 50 && StartsWith(textContent, r)
    ensures |textContent| <= 50 ==> r == textContent
    ensures |textContent| > 50 ==> |r| == 50
  {
    Prefix(textContent, 50)
  }
}
