/**
 * The element tree `ConfigXmlWriter` builds for a configuration: a `config`
 * root in the namespace it is given, with the configuration's name and
 * model as attributes, a `props` element listing its properties, the body
 * written for the feature group, and a `packages` element for its package
 * dependencies.
 */
module ConfigXml {
  import opened Base
  import opened XmlTree
  import PackageDepsSpec

  /**
   * The names of `ConfigXml`. That class is not part of this model; the
   * texts and the namespace are assumed.
   */
  const Namespace10 := "urn:wildfly:pm-config:1.0"
  const ConfigName := "config"
  const PropsName := "props"
  const PropName := "prop"
  /** `Element.PACKAGES` is used as a name provider, so it brings its own namespace. */
  const PackagesName := XmlName("packages", Namespace10)
  const NameAttr := XmlName("name", "")
  const ModelAttr := XmlName("model", "")
  const ValueAttr := XmlName("value", "")

  /**
   * A `ConfigSpec`, as far as it is written here: its name and model, which
   * may be `null`, its properties in map order, and its package dependencies.
   */
  datatype ConfigSpec = ConfigSpec(name: Option<string>, model: Option<string>,
                                   props: OrderedMap<string, string>, deps: PackageDepsSpec.DepsSpec) {
    predicate HasProperties() {
      |props.keys| != 0
    }

    predicate HasPackageDeps() {
      deps.HasPackageDeps()
    }
  }

  /**
   * What the writers that are not part of this model add: the elements
   * `FeatureGroupXmlWriter.writeFeatureGroupSpecBody` appends to the `config`
   * element, and those `PackageXmlWriter.writePackageDeps` appends to the
   * `packages` element.
   */
  datatype Bodies = Bodies(group: seq<Element>, deps: seq<Element>)

  ghost predicate ValidBodies(bodies: Bodies) {
    && (forall k :: 0 <= k < |bodies.group| ==> ValidTree(bodies.group[k]))
    && (forall k :: 0 <= k < |bodies.deps| ==> ValidTree(bodies.deps[k]))
  }

  // ---------------------------------------------------------------------------
  // The tree that is written

  /** The name when there is one, then the model when there is one. */
  function ConfigAttributes(config: ConfigSpec): (r: Attributes)
    ensures r.Valid()
  {
    var named := if config.name.Some? then EmptyMap().Put(NameAttr.localName, config.name.value) else EmptyMap();
    if config.model.Some? then named.Put(ModelAttr.localName, config.model.value) else named
  }

  /** A `prop` element: the `name` attribute, then the `value` attribute. */
  function PropElement(name: string, value: string, ns: string): Element {
    Element(PropName, ns, OrderedMap([NameAttr.localName, ValueAttr.localName],
                                     map[NameAttr.localName := name, ValueAttr.localName := value]), [])
  }

  /** One `prop` element per property, in map order. */
  function PropElements(props: OrderedMap<string, string>, ns: string): (r: seq<Element>)
    requires props.Valid()
    ensures |r| == |props.keys|
    ensures forall k :: 0 <= k < |r| ==> r[k] == PropElement(props.keys[k], props.entries[props.keys[k]], ns)
  {
    seq(|props.keys|, k requires 0 <= k < |props.keys| => PropElement(props.keys[k], props.entries[props.keys[k]], ns))
  }

  function PackagesElement(deps: seq<Element>): Element {
    Element(PackagesName.localName, PackagesName.ns, EmptyMap(), deps)
  }

  function ConfigElement(config: ConfigSpec, ns: string, bodies: Bodies): Element
    requires config.props.Valid()
  {
    Element(ConfigName, ns, ConfigAttributes(config),
            (if config.HasProperties() then [Element(PropsName, ns, EmptyMap(), PropElements(config.props, ns))] else [])
            + bodies.group
            + (if config.HasPackageDeps() then [PackagesElement(bodies.deps)] else []))
  }

  // ---------------------------------------------------------------------------
  // Reading the properties back

  predicate IsProp(c: Element) {
    c.localName == PropName && NameAttr.localName in c.attributes.entries && ValueAttr.localName in c.attributes.entries
  }

  /** The name and value pairs listed by `prop` elements, or `None` when one is not such an element. */
  function ReadProps(cs: seq<Element>): Option<seq<(string, string)>> {
    if forall k :: 0 <= k < |cs| ==> IsProp(cs[k])
    then Some(seq(|cs|, k requires 0 <= k < |cs| && IsProp(cs[k]) =>
                           (cs[k].attributes.entries[NameAttr.localName], cs[k].attributes.entries[ValueAttr.localName])))
    else None
  }

  /** The properties as name and value pairs, in map order. */
  function Pairs(props: OrderedMap<string, string>): seq<(string, string)>
    requires props.Valid()
  {
    seq(|props.keys|, k requires 0 <= k < |props.keys| => (props.keys[k], props.entries[props.keys[k]]))
  }

  // ---------------------------------------------------------------------------
  // What the written tree promises

  /**
   * The root is `config` in the given namespace; it has a `name` attribute
   * exactly when the configuration has a name, and a `model` attribute
   * exactly when it has a model, and no other attribute.
   */
  lemma ConfigRoot(config: ConfigSpec, ns: string, bodies: Bodies)
    requires config.props.Valid()
    ensures var t := ConfigElement(config, ns, bodies);
      var attrs := t.attributes.entries;
      && t.localName == ConfigName && t.ns == ns
      && (NameAttr.localName in attrs <==> config.name.Some?)
      && (config.name.Some? ==> attrs[NameAttr.localName] == config.name.value)
      && (ModelAttr.localName in attrs <==> config.model.Some?)
      && (config.model.Some? ==> attrs[ModelAttr.localName] == config.model.value)
      && attrs.Keys <= {NameAttr.localName, ModelAttr.localName}
  {
  }

  /**
   * The children are a `props` element exactly when there are properties,
   * first and in the given namespace, then the feature-group body, then a
   * `packages` element exactly when there are package dependencies, in the
   * namespace of its name provider whatever namespace is given, holding what
   * the package writer adds.
   */
  lemma ConfigChildren(config: ConfigSpec, ns: string, bodies: Bodies)
    requires config.props.Valid()
    ensures var cs := ConfigElement(config, ns, bodies).children;
      var p := if config.HasProperties() then 1 else 0;
      && |cs| == p + |bodies.group| + (if config.HasPackageDeps() then 1 else 0)
      && (config.HasProperties() ==> cs[0].localName == PropsName && cs[0].ns == ns)
      && cs[p..p + |bodies.group|] == bodies.group
      && (config.HasPackageDeps() ==>
            && cs[|cs| - 1].localName == PackagesName.localName
            && cs[|cs| - 1].ns == Namespace10
            && cs[|cs| - 1].children == bodies.deps)
  {
    var propsPart := if config.HasProperties() then [Element(PropsName, ns, EmptyMap(), PropElements(config.props, ns))] else [];
    var depsPart := if config.HasPackageDeps() then [PackagesElement(bodies.deps)] else [];
    var cs := ConfigElement(config, ns, bodies).children;
    assert cs == propsPart + bodies.group + depsPart;
    assert cs[|propsPart|..|propsPart| + |bodies.group|] == bodies.group;
  }

  /** Each property is one `prop` element in the given namespace, and reading them back gives the properties in order. */
  lemma PropsReadBack(props: OrderedMap<string, string>, ns: string)
    requires props.Valid()
    ensures var cs := PropElements(props, ns);
      && (forall k :: 0 <= k < |cs| ==> cs[k].localName == PropName && cs[k].ns == ns && cs[k].children == [])
      && ReadProps(cs) == Some(Pairs(props))
  {
    var cs := PropElements(props, ns);
    assert forall k :: 0 <= k < |cs| ==> IsProp(cs[k]);
    var r := ReadProps(cs).value;
    assert forall k :: 0 <= k < |r| ==> r[k] == Pairs(props)[k];
    assert r == Pairs(props);
  }

  // ---------------------------------------------------------------------------
  // The writer

  /** `toElement(config)`: the configuration namespace of version 1.0. */
  method ToElement(config: ConfigSpec, bodies: Bodies) returns (tree: Element)
    requires config.props.Valid() && ValidBodies(bodies)
    ensures tree == ConfigElement(config, Namespace10, bodies)
  {
    tree := ToElementNs(config, Namespace10, bodies);
  }

  /** `toElement(config, ns)`: the tree of the detached `config` node it returns. */
  method ToElementNs(config: ConfigSpec, ns: string, bodies: Bodies) returns (tree: Element)
    requires config.props.Valid() && ValidBodies(bodies)
    ensures tree == ConfigElement(config, ns, bodies)
  {
    var doc := new Document();
    var configE;
    ghost var children, trees;
    configE, children, trees := OpenConfig(doc, config, ns);
    ghost var before := doc.nodes;
    ghost var group := AddTrees(doc, configE, bodies.group);
    AppendChildTrees(before, doc.nodes, configE, children, trees, group, bodies.group);
    children, trees := children + group, trees + bodies.group;
    if config.HasPackageDeps() {
      before := doc.nodes;
      var packagesE := AddPackagesElement(doc, configE, bodies.deps);
      AppendChildTrees(before, doc.nodes, configE, children, trees, [packagesE], [PackagesElement(bodies.deps)]);
      children, trees := children + [packagesE], trees + [PackagesElement(bodies.deps)];
    }
    TreeOf(doc.nodes, configE, trees);
    tree := Tree(doc.nodes, configE);
  }

  /** The `config` root of `toElement` in an empty document, with its attributes and its `props` child. */
  method OpenConfig(doc: Document, config: ConfigSpec, ns: string) returns (configE: nat, ghost cs: seq<nat>, ghost ts: seq<Element>)
    requires doc.Valid() && doc.nodes == [] && config.props.Valid()
    modifies doc
    ensures doc.Valid() && configE < |doc.nodes|
    ensures doc.nodes[configE].localName == ConfigName && doc.nodes[configE].ns == ns
    ensures doc.nodes[configE].attributes == ConfigAttributes(config)
    ensures ChildTrees(doc.nodes, configE, cs, ts)
    ensures ts == if config.HasProperties() then [Element(PropsName, ns, EmptyMap(), PropElements(config.props, ns))] else []
  {
    configE := AddElementNs(doc, None, ConfigName, ns);
    WriteConfigAttributes(doc, configE, config);
    cs, ts := [], [];
    if config.HasProperties() {
      ghost var before := doc.nodes;
      var propsE := AddPropsElement(doc, configE, config.props, ns);
      ghost var propsTree := Element(PropsName, ns, EmptyMap(), PropElements(config.props, ns));
      AppendChildTrees(before, doc.nodes, configE, cs, ts, [propsE], [propsTree]);
      cs, ts := [propsE], [propsTree];
    }
  }

  /** The `props` element of `toElement`, attached to `configE` and filled. */
  method AddPropsElement(doc: Document, configE: nat, props: OrderedMap<string, string>, ns: string) returns (propsE: nat)
    requires doc.Valid() && configE < |doc.nodes| && props.Valid()
    modifies doc
    ensures doc.Valid() && propsE == old(|doc.nodes|) < |doc.nodes|
    ensures doc.nodes[configE] == old(doc.nodes[configE]).(children := old(doc.nodes[configE].children) + [propsE])
    ensures forall i :: 0 <= i < old(|doc.nodes|) && i != configE ==> doc.nodes[i] == old(doc.nodes[i])
    ensures Tree(doc.nodes, propsE) == Element(PropsName, ns, EmptyMap(), PropElements(props, ns))
  {
    propsE := AddElementNs(doc, Some(configE), PropsName, ns);
    WriteProps(doc, propsE, props, ns);
  }

  /** The `packages` element of `toElement`, attached to `configE` and filled by the package writer. */
  method AddPackagesElement(doc: Document, configE: nat, deps: seq<Element>) returns (packagesE: nat)
    requires doc.Valid() && configE < |doc.nodes|
    requires forall k :: 0 <= k < |deps| ==> ValidTree(deps[k])
    modifies doc
    ensures doc.Valid() && packagesE == old(|doc.nodes|) < |doc.nodes|
    ensures doc.nodes[configE] == old(doc.nodes[configE]).(children := old(doc.nodes[configE].children) + [packagesE])
    ensures forall i :: 0 <= i < old(|doc.nodes|) && i != configE ==> doc.nodes[i] == old(doc.nodes[i])
    ensures Tree(doc.nodes, packagesE) == PackagesElement(deps)
  {
    packagesE := AddElement(doc, Some(configE), PackagesName);
    assert doc.nodes[packagesE].children == [];
    ghost var idxs := AddTrees(doc, packagesE, deps);
    TreeOf(doc.nodes, packagesE, deps);
  }

  /** The attributes `toElement` puts on the `config` node, which has none yet. */
  method WriteConfigAttributes(doc: Document, configE: nat, config: ConfigSpec)
    requires doc.Valid() && configE < |doc.nodes| && doc.nodes[configE].attributes == EmptyMap()
    modifies doc
    ensures doc.Valid()
    ensures doc.nodes == old(doc.nodes)[configE := old(doc.nodes[configE]).(attributes := ConfigAttributes(config))]
  {
    if config.name.Some? {
      AddAttribute(doc, configE, NameAttr, config.name.value);
    }
    if config.model.Some? {
      AddAttribute(doc, configE, ModelAttr, config.model.value);
    }
  }

  /** The loop of `toElement` over the properties, under the freshly attached node `propsE`. */
  method WriteProps(doc: Document, propsE: nat, props: OrderedMap<string, string>, ns: string)
    requires doc.Valid() && propsE == |doc.nodes| - 1 && props.Valid()
    requires doc.nodes[propsE].localName == PropsName && doc.nodes[propsE].ns == ns
    requires doc.nodes[propsE].attributes == EmptyMap() && doc.nodes[propsE].children == []
    modifies doc
    ensures doc.Valid() && |doc.nodes| > propsE
    ensures forall i :: 0 <= i < propsE ==> doc.nodes[i] == old(doc.nodes[i])
    ensures doc.nodes[propsE].parent == old(doc.nodes[propsE].parent)
    ensures Tree(doc.nodes, propsE) == Element(PropsName, ns, EmptyMap(), PropElements(props, ns))
  {
    ghost var start := doc.nodes;
    ghost var propEs: seq<nat> := [];
    ghost var elems := PropElements(props, ns);
    for j := 0 to |props.keys|
      invariant doc.Valid() && propsE < |doc.nodes|
      invariant doc.nodes[propsE] == start[propsE].(children := propEs)
      invariant forall i :: 0 <= i < propsE ==> doc.nodes[i] == start[i]
      invariant |propEs| == j && ChildrenWithin(propEs, propsE, |doc.nodes|)
      invariant forall k :: 0 <= k < j ==> Tree(doc.nodes, propEs[k]) == elems[k]
    {
      ghost var before := doc.nodes;
      var key := props.keys[j];
      var propE := AddProp(doc, propsE, key, props.entries[key], ns);
      assert Tree(doc.nodes, propE) == elems[j];
      KeepTrees(before, doc.nodes, propsE + 1, propEs);
      propEs := propEs + [propE];
    }
    TreeOf(doc.nodes, propsE, elems);
  }

  /** One turn of the loop over the properties: a `prop` element with the name and the value. */
  method AddProp(doc: Document, propsE: nat, name: string, value: string, ns: string) returns (propE: nat)
    requires doc.Valid() && propsE < |doc.nodes|
    modifies doc
    ensures doc.Valid() && propE == old(|doc.nodes|) && |doc.nodes| == propE + 1
    ensures doc.nodes[propsE] == old(doc.nodes[propsE]).(children := old(doc.nodes[propsE].children) + [propE])
    ensures forall i :: 0 <= i < old(|doc.nodes|) && i != propsE ==> doc.nodes[i] == old(doc.nodes[i])
    ensures Tree(doc.nodes, propE) == PropElement(name, value, ns)
  {
    propE := AddElementNs(doc, Some(propsE), PropName, ns);
    AddAttribute(doc, propE, NameAttr, name);
    AddAttribute(doc, propE, ValueAttr, value);
    PutProp(name, value, ns);
  }

  /** The attributes of a `prop` element are those `addAttribute` builds from none. */
  lemma PutProp(name: string, value: string, ns: string)
    ensures PropElement(name, value, ns).attributes == EmptyMap().Put(NameAttr.localName, name).Put(ValueAttr.localName, value)
  {
  }
}
