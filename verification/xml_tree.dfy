/**
 * The element tree the XML writers build (`ElementNode`) and the two
 * operations of `BaseXmlWriter` that build it: `addElement`, which creates a
 * node and appends it to its parent's children, and `addAttribute`, which
 * adds an attribute to one node. Nodes are objects updated in place; here
 * they live in a `Document` and a reference to a node is its index there.
 */
module XmlTree {
  import opened Base

  /** An `XmlNameProvider`: a local name and a namespace. */
  datatype XmlName = XmlName(localName: string, ns: string)

  /**
   * An element's attributes. `ElementNode` is not part of this model; its
   * attributes are taken to be kept by name in the order first added.
   */
  type Attributes = OrderedMap<string, string>

  /** One `ElementNode` object: its parent, its name, its attributes and its children. */
  datatype Node = Node(parent: Option<nat>, localName: string, ns: string, attributes: Attributes, children: seq<nat>)

  /** The element tree a node stands for, as it would be marshalled. */
  datatype Element = Element(localName: string, ns: string, attributes: Attributes, children: seq<Element>)

  /** A childless element without attributes. */
  function Leaf(localName: string, ns: string): Element {
    Element(localName, ns, EmptyMap(), [])
  }

  /** The children of a node lie strictly between `lo` and `hi`. */
  predicate ChildrenWithin(cs: seq<nat>, lo: nat, hi: nat) {
    forall k :: 0 <= k < |cs| ==> lo < cs[k] < hi
  }

  /** Every node's children were created after it, so the nodes form trees. */
  ghost predicate WellFormed(nodes: seq<Node>) {
    forall i :: 0 <= i < |nodes| ==> nodes[i].attributes.Valid() && ChildrenWithin(nodes[i].children, i, |nodes|)
  }

  ghost predicate ValidTree(t: Element) {
    t.attributes.Valid() && forall k :: 0 <= k < |t.children| ==> ValidTree(t.children[k])
  }

  /** The tree rooted at node `i`. */
  function Tree(nodes: seq<Node>, i: nat): Element
    requires WellFormed(nodes) && i < |nodes|
    decreases |nodes| - i
  {
    var n := nodes[i];
    assert ChildrenWithin(n.children, i, |nodes|);
    Element(n.localName, n.ns, n.attributes,
            seq(|n.children|, k requires 0 <= k < |n.children| => Tree(nodes, n.children[k])))
  }

  /** The nodes after a new node `localName` in `ns` is created under `parent`, if any. */
  function NewNode(nodes: seq<Node>, parent: Option<nat>, localName: string, ns: string): seq<Node>
    requires parent.Some? ==> parent.value < |nodes|
  {
    var attached :=
      if parent.Some? then nodes[parent.value := nodes[parent.value].(children := nodes[parent.value].children + [|nodes|])]
      else nodes;
    attached + [Node(parent, localName, ns, EmptyMap(), [])]
  }

  /** The nodes after node `e` gets the attribute `name`. */
  function WithAttribute(nodes: seq<Node>, e: nat, name: string, value: string): seq<Node>
    requires e < |nodes| && nodes[e].attributes.Valid()
  {
    nodes[e := nodes[e].(attributes := nodes[e].attributes.Put(name, value))]
  }

  // ---------------------------------------------------------------------------
  // What the tree operations promise

  /** The tree of a node depends only on the nodes from it on. */
  lemma {:induction false} SuffixFrame(a: seq<Node>, b: seq<Node>, lo: nat, i: nat)
    requires WellFormed(a) && WellFormed(b) && |a| <= |b|
    requires forall j :: lo <= j < |a| ==> a[j] == b[j]
    requires lo <= i < |a|
    ensures Tree(a, i) == Tree(b, i)
    decreases |a| - i
  {
    var n := a[i];
    assert ChildrenWithin(n.children, i, |a|);
    forall k | 0 <= k < |n.children|
      ensures Tree(a, n.children[k]) == Tree(b, n.children[k])
    {
      SuffixFrame(a, b, lo, n.children[k]);
    }
    assert Tree(a, i).children == Tree(b, i).children;
  }

  /** A node whose children stand for `trees` stands for the element with those children. */
  lemma TreeOf(nodes: seq<Node>, i: nat, trees: seq<Element>)
    requires WellFormed(nodes) && i < |nodes| && |nodes[i].children| == |trees|
    requires forall k :: 0 <= k < |trees| ==> Tree(nodes, nodes[i].children[k]) == trees[k]
    ensures Tree(nodes, i) == Element(nodes[i].localName, nodes[i].ns, nodes[i].attributes, trees)
  {
    assert Tree(nodes, i).children == trees;
  }

  /** The trees of nodes at or after `lo` survive changes made elsewhere. */
  lemma KeepTrees(a: seq<Node>, b: seq<Node>, lo: nat, idxs: seq<nat>)
    requires WellFormed(a) && WellFormed(b) && |a| <= |b|
    requires forall j :: lo <= j < |a| ==> a[j] == b[j]
    requires forall k :: 0 <= k < |idxs| ==> lo <= idxs[k] < |a|
    ensures forall k :: 0 <= k < |idxs| ==> Tree(b, idxs[k]) == Tree(a, idxs[k])
  {
    forall k | 0 <= k < |idxs|
      ensures Tree(b, idxs[k]) == Tree(a, idxs[k])
    {
      SuffixFrame(a, b, lo, idxs[k]);
    }
  }

  /** Node `p`'s children are `cs`, and they stand for the trees `ts`. */
  ghost predicate ChildTrees(nodes: seq<Node>, p: nat, cs: seq<nat>, ts: seq<Element>) {
    && WellFormed(nodes) && p < |nodes| && nodes[p].children == cs && |cs| == |ts|
    && forall k :: 0 <= k < |cs| ==> p < cs[k] < |nodes| && Tree(nodes, cs[k]) == ts[k]
  }

  /** Children appended to `p`, with changes only after `p`, keep the trees of the earlier children. */
  lemma AppendChildTrees(before: seq<Node>, after: seq<Node>, p: nat, cs: seq<nat>, ts: seq<Element>,
                         more: seq<nat>, moreTs: seq<Element>)
    requires ChildTrees(before, p, cs, ts)
    requires WellFormed(after) && |before| <= |after|
    requires forall i :: p < i < |before| ==> after[i] == before[i]
    requires after[p].children == cs + more && |more| == |moreTs|
    requires forall k :: 0 <= k < |more| ==> p < more[k] < |after| && Tree(after, more[k]) == moreTs[k]
    ensures ChildTrees(after, p, cs + more, ts + moreTs)
  {
    KeepTrees(before, after, p + 1, cs);
  }

  /**
   * `addElement(null, ...)`: the new node is a childless element without
   * attributes and without a parent, and the tree of every node already
   * there is unchanged.
   */
  lemma NewDetachedNode(nodes: seq<Node>, localName: string, ns: string)
    requires WellFormed(nodes)
    ensures var r := NewNode(nodes, None, localName, ns);
      && WellFormed(r) && |r| == |nodes| + 1 && r[|nodes|].parent == None
      && Tree(r, |nodes|) == Leaf(localName, ns)
      && forall i :: 0 <= i < |nodes| ==> Tree(r, i) == Tree(nodes, i)
  {
    var r := NewNode(nodes, None, localName, ns);
    forall i | 0 <= i < |nodes|
      ensures Tree(r, i) == Tree(nodes, i)
    {
      SuffixFrame(nodes, r, 0, i);
    }
  }

  /**
   * `addElement(parent, ...)`: the new node is the parent's last child; the
   * parent's earlier children, and every node other than the parent, are
   * unchanged.
   */
  lemma NewChildIsLast(nodes: seq<Node>, p: nat, localName: string, ns: string)
    requires WellFormed(nodes) && p < |nodes|
    ensures var r := NewNode(nodes, Some(p), localName, ns);
      && WellFormed(r) && |r| == |nodes| + 1 && r[|nodes|].parent == Some(p)
      && Tree(r, p) == Tree(nodes, p).(children := Tree(nodes, p).children + [Leaf(localName, ns)])
      && (forall i :: 0 <= i < |nodes| && i != p ==> r[i] == nodes[i])
      && (forall i :: p < i < |nodes| ==> Tree(r, i) == Tree(nodes, i))
  {
    var r := NewNode(nodes, Some(p), localName, ns);
    assert ChildrenWithin(nodes[p].children, p, |nodes|);
    assert WellFormed(r) by {
      forall i | 0 <= i < |r|
        ensures r[i].attributes.Valid() && ChildrenWithin(r[i].children, i, |r|)
      {
        if i < |nodes| {
          assert ChildrenWithin(nodes[i].children, i, |nodes|);
        }
      }
    }
    forall i | p < i < |nodes|
      ensures Tree(r, i) == Tree(nodes, i)
    {
      SuffixFrame(nodes, r, p + 1, i);
    }
    var old_cs, new_cs := Tree(nodes, p).children, Tree(r, p).children;
    assert |new_cs| == |old_cs| + 1;
    forall k | 0 <= k < |new_cs|
      ensures new_cs[k] == (old_cs + [Leaf(localName, ns)])[k]
    {
      if k < |old_cs| {
        assert new_cs[k] == Tree(r, nodes[p].children[k]);
      } else {
        assert new_cs[k] == Tree(r, |nodes|);
      }
    }
  }

  /**
   * `addAttribute`: the value is stored under the name on that element only;
   * every other node is unchanged.
   */
  lemma AttributeOnItsElement(nodes: seq<Node>, e: nat, name: string, value: string)
    requires WellFormed(nodes) && e < |nodes|
    ensures var r := WithAttribute(nodes, e, name, value);
      && WellFormed(r) && |r| == |nodes|
      && r[e].attributes.entries == nodes[e].attributes.entries[name := value]
      && Tree(r, e) == Tree(nodes, e).(attributes := nodes[e].attributes.Put(name, value))
      && (forall i :: 0 <= i < |nodes| && i != e ==> r[i] == nodes[i])
      && (forall i :: e < i < |nodes| ==> Tree(r, i) == Tree(nodes, i))
  {
    var r := WithAttribute(nodes, e, name, value);
    assert WellFormed(r) by {
      forall i | 0 <= i < |r|
        ensures r[i].attributes.Valid() && ChildrenWithin(r[i].children, i, |r|)
      {
        assert ChildrenWithin(nodes[i].children, i, |nodes|);
      }
    }
    forall i | e < i < |nodes|
      ensures Tree(r, i) == Tree(nodes, i)
    {
      SuffixFrame(nodes, r, e + 1, i);
    }
    assert Tree(r, e).children == Tree(nodes, e).children;
  }

  // ---------------------------------------------------------------------------
  // The nodes and `BaseXmlWriter`

  /** The `ElementNode` objects created so far. */
  class Document {
    var nodes: seq<Node>

    ghost predicate Valid()
      reads this
    {
      WellFormed(nodes)
    }

    constructor ()
      ensures Valid() && nodes == []
    {
      nodes := [];
    }
  }

  /** `addElement(parent, localName, ns)`; `parent` is `None` for `null`. */
  method AddElementNs(doc: Document, parent: Option<nat>, localName: string, ns: string) returns (e: nat)
    requires doc.Valid() && (parent.Some? ==> parent.value < |doc.nodes|)
    modifies doc
    ensures doc.Valid() && e == old(|doc.nodes|)
    ensures doc.nodes == NewNode(old(doc.nodes), parent, localName, ns)
  {
    if parent.Some? {
      NewChildIsLast(doc.nodes, parent.value, localName, ns);
    } else {
      NewDetachedNode(doc.nodes, localName, ns);
    }
    e := |doc.nodes|;
    var node := Node(parent, localName, ns, EmptyMap(), []);
    if parent.Some? {
      var p := parent.value;
      doc.nodes := doc.nodes[p := doc.nodes[p].(children := doc.nodes[p].children + [e])];
    }
    doc.nodes := doc.nodes + [node];
  }

  /** `addElement(parent, provider)`: the provider's local name and namespace. */
  method AddElement(doc: Document, parent: Option<nat>, name: XmlName) returns (e: nat)
    requires doc.Valid() && (parent.Some? ==> parent.value < |doc.nodes|)
    modifies doc
    ensures doc.Valid() && e == old(|doc.nodes|)
    ensures doc.nodes == NewNode(old(doc.nodes), parent, name.localName, name.ns)
  {
    e := AddElementNs(doc, parent, name.localName, name.ns);
  }

  /** `addAttribute(e, name, value)`. */
  method AddAttributeNamed(doc: Document, e: nat, name: string, value: string)
    requires doc.Valid() && e < |doc.nodes|
    modifies doc
    ensures doc.Valid()
    ensures doc.nodes == WithAttribute(old(doc.nodes), e, name, value)
  {
    AttributeOnItsElement(doc.nodes, e, name, value);
    doc.nodes := doc.nodes[e := doc.nodes[e].(attributes := doc.nodes[e].attributes.Put(name, value))];
  }

  /** `addAttribute(e, provider, value)`: the provider's local name. */
  method AddAttribute(doc: Document, e: nat, name: XmlName, value: string)
    requires doc.Valid() && e < |doc.nodes|
    modifies doc
    ensures doc.Valid()
    ensures doc.nodes == WithAttribute(old(doc.nodes), e, name.localName, value)
  {
    AddAttributeNamed(doc, e, name.localName, value);
  }

  // ---------------------------------------------------------------------------
  // Subtrees written by code outside this model

  /** Node `e`, childless and without attributes, gets the attributes `attrs` in their order. */
  method AddAttributes(doc: Document, e: nat, attrs: Attributes)
    requires doc.Valid() && e < |doc.nodes| && attrs.Valid()
    requires doc.nodes[e].attributes == EmptyMap()
    modifies doc
    ensures doc.Valid() && |doc.nodes| == old(|doc.nodes|)
    ensures doc.nodes == old(doc.nodes)[e := old(doc.nodes[e]).(attributes := attrs)]
  {
    ghost var before := doc.nodes;
    for j := 0 to |attrs.keys|
      invariant doc.Valid() && |doc.nodes| == |before|
      invariant doc.nodes == before[e := before[e].(attributes := doc.nodes[e].attributes)]
      invariant doc.nodes[e].attributes.keys == attrs.keys[..j]
      invariant forall k :: k in doc.nodes[e].attributes.entries <==> k in attrs.keys[..j]
      invariant forall k :: k in doc.nodes[e].attributes.entries ==> doc.nodes[e].attributes.entries[k] == attrs.entries[k]
    {
      var key := attrs.keys[j];
      assert key !in attrs.keys[..j];
      assert attrs.keys[..j + 1] == attrs.keys[..j] + [key];
      AddAttributeNamed(doc, e, key, attrs.entries[key]);
    }
    assert attrs.keys[..|attrs.keys|] == attrs.keys;
    assert doc.nodes[e].attributes.entries == attrs.entries;
  }

  /**
   * Appends a copy of the tree `t` under node `parent`: the new root is the
   * parent's last child, its tree is `t`, and no node created earlier
   * changes except the parent's child list.
   */
  method AddTree(doc: Document, parent: nat, t: Element) returns (e: nat)
    requires doc.Valid() && parent < |doc.nodes| && ValidTree(t)
    modifies doc
    ensures doc.Valid() && e == old(|doc.nodes|) && e < |doc.nodes|
    ensures Tree(doc.nodes, e) == t
    ensures doc.nodes[parent] == old(doc.nodes[parent]).(children := old(doc.nodes[parent].children) + [e])
    ensures forall i :: 0 <= i < old(|doc.nodes|) && i != parent ==> doc.nodes[i] == old(doc.nodes[i])
    decreases t
  {
    ghost var before := doc.nodes;
    e := AddElementNs(doc, Some(parent), t.localName, t.ns);
    AddAttributes(doc, e, t.attributes);
    ghost var idxs: seq<nat> := [];
    for k := 0 to |t.children|
      invariant doc.Valid() && e < |doc.nodes|
      invariant doc.nodes[e] == Node(Some(parent), t.localName, t.ns, t.attributes, idxs)
      invariant |idxs| == k && ChildrenWithin(idxs, e, |doc.nodes|)
      invariant forall j :: 0 <= j < k ==> Tree(doc.nodes, idxs[j]) == t.children[j]
      invariant doc.nodes[parent] == before[parent].(children := before[parent].children + [e])
      invariant forall i :: 0 <= i < |before| && i != parent ==> doc.nodes[i] == before[i]
    {
      ghost var mid := doc.nodes;
      var c := AddTree(doc, e, t.children[k]);
      forall j | 0 <= j < k
        ensures Tree(doc.nodes, idxs[j]) == t.children[j]
      {
        SuffixFrame(mid, doc.nodes, e + 1, idxs[j]);
      }
      idxs := idxs + [c];
    }
    assert Tree(doc.nodes, e).children == t.children;
  }

  /** Appends copies of the trees `ts` under node `parent`, in order. */
  method AddTrees(doc: Document, parent: nat, ts: seq<Element>) returns (ghost idxs: seq<nat>)
    requires doc.Valid() && parent < |doc.nodes|
    requires forall k :: 0 <= k < |ts| ==> ValidTree(ts[k])
    modifies doc
    ensures doc.Valid() && |doc.nodes| >= old(|doc.nodes|) && |idxs| == |ts|
    ensures forall k :: 0 <= k < |idxs| ==> old(|doc.nodes|) <= idxs[k] < |doc.nodes|
    ensures forall k :: 0 <= k < |ts| ==> Tree(doc.nodes, idxs[k]) == ts[k]
    ensures doc.nodes[parent] == old(doc.nodes[parent]).(children := old(doc.nodes[parent].children) + idxs)
    ensures forall i :: 0 <= i < old(|doc.nodes|) && i != parent ==> doc.nodes[i] == old(doc.nodes[i])
  {
    ghost var start := doc.nodes;
    idxs := [];
    for k := 0 to |ts|
      invariant doc.Valid() && |doc.nodes| >= |start| && |idxs| == k
      invariant forall j :: 0 <= j < k ==> |start| <= idxs[j] < |doc.nodes|
      invariant forall j :: 0 <= j < k ==> Tree(doc.nodes, idxs[j]) == ts[j]
      invariant doc.nodes[parent] == start[parent].(children := start[parent].children + idxs)
      invariant forall i :: 0 <= i < |start| && i != parent ==> doc.nodes[i] == start[i]
    {
      ghost var before := doc.nodes;
      var e := AddTree(doc, parent, ts[k]);
      KeepTrees(before, doc.nodes, parent + 1, idxs);
      idxs := idxs + [e];
    }
  }
}
