/** The node callbacks of crawl/actions.go. A query hands its callback the
    matched DOM nodes; `Texts` collects the text of each node and
    `AttributeValueAll` the value of one attribute of each node, appending
    to a slice the caller owns. The browser side, which runs the query, is
    not part of this model: a query result is a given list of nodes. */
module CrawlActions {
  import opened Wrappers

  datatype NodeType = ElementNode | TextNode | OtherNode

  /** A DOM node: its type, its value (the text of a text node), its
      attributes as a flat list of name, value, name, value, ... and its
      children. */
  datatype Node = Node(nodeType: NodeType, nodeValue: string, attributes: seq<string>, children: seq<Node>)

  datatype ActionError =
    | NoNodes(selector: string)
    | ExpectedAtLeastOneElement

  /** The slice behind a `*[]string` output pointer. */
  class StringSlice {
    var items: seq<string>

    constructor (items0: seq<string>)
      ensures items == items0
    {
      items := items0;
    }
  }

  /** The boolean behind an `*ok` output pointer. */
  class Flag {
    var value: bool

    constructor (value0: bool)
      ensures value == value0
    {
      value := value0;
    }
  }

  /** The values of the text nodes among `children`, in order. */
  function ChildText(children: seq<Node>): string
  {
    if |children| == 0 then ""
    else
      var n := |children| - 1;
      ChildText(children[..n]) + (if children[n].nodeType == TextNode then children[n].nodeValue else "")
  }

  /** The text of a node: that of its direct children only. */
  function NodeText(node: Node): string
  {
    ChildText(node.children)
  }

  /** Text splits over the children: the text of two runs of children is
      the text of the first followed by that of the second. */
  lemma {:induction false} ChildTextAppend(a: seq<Node>, b: seq<Node>)
    ensures ChildText(a + b) == ChildText(a) + ChildText(b)
  {
    if |b| > 0 {
      var n := |b| - 1;
      assert (a + b)[..|a| + n] == a + b[..n];
      ChildTextAppend(a, b[..n]);
    } else {
      assert a + b == a;
    }
  }

  /** Children that are not text nodes add no text. */
  lemma {:induction false} ChildTextWithoutTextNodes(children: seq<Node>)
    requires forall i | 0 <= i < |children| :: children[i].nodeType != TextNode
    ensures ChildText(children) == ""
  {
    if |children| > 0 {
      ChildTextWithoutTextNodes(children[..|children| - 1]);
    }
  }

  /** The texts the `Texts` callback appends: one per node whose text is
      not empty. */
  function NonEmptyTexts(nodes: seq<Node>): (r: seq<string>)
    ensures |r| <= |nodes|
    ensures forall i | 0 <= i < |r| :: r[i] != ""
  {
    if |nodes| == 0 then []
    else
      var n := |nodes| - 1;
      var t := NodeText(nodes[n]);
      NonEmptyTexts(nodes[..n]) + (if t != "" then [t] else [])
  }

  /** Every node contributes exactly when no node has an empty text. */
  lemma {:induction false} NonEmptyTextsComplete(nodes: seq<Node>)
    ensures |NonEmptyTexts(nodes)| == |nodes| <==> forall i | 0 <= i < |nodes| :: NodeText(nodes[i]) != ""
  {
    if |nodes| > 0 {
      var n := |nodes| - 1;
      NonEmptyTextsComplete(nodes[..n]);
      assert forall i | 0 <= i < n :: nodes[..n][i] == nodes[i];
    }
  }

  /** When every node has a text, those texts are what is appended, node
      by node. */
  lemma {:induction false} NonEmptyTextsOfTextNodes(nodes: seq<Node>)
    requires forall i | 0 <= i < |nodes| :: NodeText(nodes[i]) != ""
    ensures |NonEmptyTexts(nodes)| == |nodes|
    ensures forall i | 0 <= i < |nodes| :: NonEmptyTexts(nodes)[i] == NodeText(nodes[i])
  {
    if |nodes| > 0 {
      var n := |nodes| - 1;
      NonEmptyTextsOfTextNodes(nodes[..n]);
      assert forall i | 0 <= i < n :: nodes[..n][i] == nodes[i];
    }
  }

  /** The attribute lookup from index `i` on: the value after the first
      name at an even index that equals `name`. */
  function FindAttribute(attrs: seq<string>, name: string, i: nat): (r: Option<string>)
    requires |attrs| % 2 == 0 && i % 2 == 0 && i <= |attrs|
    ensures r.Some? <==> exists j | i <= j < |attrs| && j % 2 == 0 :: attrs[j] == name
    ensures r.Some? ==> exists j | i <= j < |attrs| && j % 2 == 0 :: attrs[j] == name && r.value == attrs[j + 1]
    decreases |attrs| - i
  {
    if i == |attrs| then None
    else if attrs[i] == name then Some(attrs[i + 1])
    else FindAttribute(attrs, name, i + 2)
  }

  /** With repeated names, the lookup takes the value after the first
      matching name. */
  lemma {:induction false} FindAttributeFirst(attrs: seq<string>, name: string, i: nat, j: nat)
    requires |attrs| % 2 == 0 && i % 2 == 0 && i <= j < |attrs| && j % 2 == 0 && attrs[j] == name
    requires forall k | i <= k < j && k % 2 == 0 :: attrs[k] != name
    ensures FindAttribute(attrs, name, i) == Some(attrs[j + 1])
    decreases |attrs| - i
  {
    if i < j {
      FindAttributeFirst(attrs, name, i + 2, j);
    }
  }

  /** Whether a node carries the attribute, and its value if so. */
  function AttributeOf(node: Node, name: string): Option<string>
    requires |node.attributes| % 2 == 0
  {
    FindAttribute(node.attributes, name, 0)
  }

  /** The attribute list of every node is made of name-value pairs. */
  predicate Paired(nodes: seq<Node>)
  {
    forall i | 0 <= i < |nodes| :: |nodes[i].attributes| % 2 == 0
  }

  /** The values the `AttributeValueAll` callback appends: one per node
      carrying the attribute. */
  function AttributeValues(nodes: seq<Node>, name: string): (r: seq<string>)
    requires Paired(nodes)
    ensures |r| <= |nodes|
  {
    if |nodes| == 0 then []
    else
      var n := |nodes| - 1;
      var v := AttributeOf(nodes[n], name);
      AttributeValues(nodes[..n], name) + (if v.Some? then [v.value] else [])
  }

  /** Whether every node carries the attribute: the final `*ok`. */
  predicate AllHave(nodes: seq<Node>, name: string)
    requires Paired(nodes)
  {
    forall i | 0 <= i < |nodes| :: AttributeOf(nodes[i], name).Some?
  }

  /** One value per node exactly when every node carries the attribute. */
  lemma {:induction false} AttributeValuesComplete(nodes: seq<Node>, name: string)
    requires Paired(nodes)
    ensures |AttributeValues(nodes, name)| == |nodes| <==> AllHave(nodes, name)
  {
    if |nodes| > 0 {
      var n := |nodes| - 1;
      AttributeValuesComplete(nodes[..n], name);
      assert forall i | 0 <= i < n :: nodes[..n][i] == nodes[i];
    }
  }

  /** How the appended values and the final `*ok` grow by one node. */
  lemma PrefixStep(nodes: seq<Node>, name: string, k: nat)
    requires Paired(nodes) && k < |nodes|
    ensures Paired(nodes[..k]) && Paired(nodes[..k + 1])
    ensures var v := AttributeOf(nodes[k], name);
            AttributeValues(nodes[..k + 1], name) == AttributeValues(nodes[..k], name) + (if v.Some? then [v.value] else [])
    ensures AllHave(nodes[..k + 1], name) <==> AllHave(nodes[..k], name) && AttributeOf(nodes[k], name).Some?
  {
    assert nodes[..k + 1][..k] == nodes[..k];
    assert forall i | 0 <= i < k :: nodes[..k + 1][i] == nodes[..k][i];
  }

  /** `getAttributeValueFromNode`: scan the names at even indices. */
  method GetAttributeValueFromNode(node: Node, name: string) returns (value: string, found: bool)
    requires |node.attributes| % 2 == 0
    ensures found <==> AttributeOf(node, name).Some?
    ensures found ==> value == AttributeOf(node, name).value
    ensures !found ==> value == ""
  {
    var attrs := node.attributes;
    var i := 0;
    while i < |attrs|
      invariant i % 2 == 0 && i <= |attrs|
      invariant FindAttribute(attrs, name, 0) == FindAttribute(attrs, name, i)
      decreases |attrs| - i
    {
      if attrs[i] == name {
        return attrs[i + 1], true;
      }
      i := i + 2;
    }
    return "", false;
  }

  /** The callback of `Texts`: no node is an error; otherwise the text of
      each node, when not empty, is appended to the caller's slice. */
  method Texts(selector: string, nodes: seq<Node>, texts: StringSlice) returns (err: Option<ActionError>)
    modifies texts
    ensures |nodes| == 0 ==> err == Some(NoNodes(selector)) && texts.items == old(texts.items)
    ensures |nodes| > 0 ==> err == None && texts.items == old(texts.items) + NonEmptyTexts(nodes)
  {
    if |nodes| < 1 {
      return Some(NoNodes(selector));
    }
    for k := 0 to |nodes|
      invariant texts.items == old(texts.items) + NonEmptyTexts(nodes[..k])
    {
      var node := nodes[k];
      var t := "";
      for j := 0 to |node.children|
        invariant t == ChildText(node.children[..j])
      {
        assert node.children[..j + 1][..j] == node.children[..j];
        var c := node.children[j];
        if c.nodeType == TextNode {
          t := t + c.nodeValue;
        }
      }
      assert node.children[..|node.children|] == node.children;
      assert nodes[..k + 1][..k] == nodes[..k];
      if t != "" {
        texts.items := texts.items + [t];
      }
    }
    assert nodes[..|nodes|] == nodes;
    return None;
  }

  /** The callback of `AttributeValueAll`: no node is an error; otherwise
      the attribute value of each node carrying it is appended to the
      caller's slice, and `ok`, when given, ends true exactly when every
      node carried it. */
  method AttributeValueAll(nodes: seq<Node>, name: string, values: StringSlice, ok: Flag?) returns (err: Option<ActionError>)
    requires Paired(nodes)
    modifies values, ok
    ensures |nodes| == 0 ==> err == Some(ExpectedAtLeastOneElement) && values.items == old(values.items)
    ensures |nodes| == 0 && ok != null ==> ok.value == old(ok.value)
    ensures |nodes| > 0 ==> err == None && values.items == old(values.items) + AttributeValues(nodes, name)
    ensures |nodes| > 0 && ok != null ==> ok.value == AllHave(nodes, name)
  {
    if |nodes| < 1 {
      return Some(ExpectedAtLeastOneElement);
    }
    if ok != null {
      ok.value := true;
    }
    for k := 0 to |nodes|
      invariant values.items == old(values.items) + AttributeValues(nodes[..k], name)
      invariant ok != null ==> ok.value == AllHave(nodes[..k], name)
    {
      PrefixStep(nodes, name, k);
      var value, found := GetAttributeValueFromNode(nodes[k], name);
      if !found {
        if ok != null {
          ok.value := false;
        }
        continue;
      }
      values.items := values.items + [value];
    }
    assert nodes[..|nodes|] == nodes;
    return None;
  }
}
