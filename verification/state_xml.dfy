/**
 * The element tree `ProvisionedStateXmlWriter` builds for a provisioned
 * state: an `installation` root with one `feature-pack` element per
 * feature-pack, carrying its coordinates, and a `packages` element listing
 * the installed packages when there are any. Configurations of the state are
 * not written.
 */
module StateXml {
  import opened Base
  import opened Coords
  import opened XmlTree

  /**
   * The names of `ProvisionedStateXmlParser10`. That parser is not part of
   * this model; the texts and the namespace are assumed.
   */
  const Namespace := "urn:wildfly:pm-provisioned-state:1.0"
  const InstallationName := XmlName("installation", Namespace)
  const FeaturePackName := XmlName("feature-pack", Namespace)
  const PackagesName := XmlName("packages", Namespace)
  const PackageName := XmlName("package", Namespace)
  const GroupIdAttr := XmlName("groupId", "")
  const ArtifactIdAttr := XmlName("artifactId", "")
  const VersionAttr := XmlName("version", "")
  const NameAttr := XmlName("name", "")

  /** A `ProvisionedFeaturePack`: its coordinates and its package names in iteration order. */
  datatype ProvisionedFp = ProvisionedFp(gav: Gav, packageNames: seq<string>) {
    predicate HasPackages() {
      |packageNames| != 0
    }
  }

  /** A `ProvisionedState`: its feature-packs in order and its configurations of some type `C`. */
  datatype ProvisionedState<C> = ProvisionedState(featurePacks: seq<ProvisionedFp>, configs: seq<C>) {
    predicate HasFeaturePacks() {
      |featurePacks| != 0
    }
  }

  // ---------------------------------------------------------------------------
  // The tree that is written

  /** The coordinates as attributes: group and artifact always, the version when there is one. */
  function FpAttributes(gav: Gav): (r: Attributes)
    ensures r.Valid()
  {
    var g, a, v := GroupIdAttr.localName, ArtifactIdAttr.localName, VersionAttr.localName;
    if gav.version.Some?
    then OrderedMap([g, a, v], map[g := gav.groupId, a := gav.artifactId, v := gav.version.value])
    else OrderedMap([g, a], map[g := gav.groupId, a := gav.artifactId])
  }

  function PackageElement(name: string): Element {
    Element(PackageName.localName, PackageName.ns, OrderedMap([NameAttr.localName], map[NameAttr.localName := name]), [])
  }

  function PackagesElement(names: seq<string>): Element {
    Element(PackagesName.localName, PackagesName.ns, EmptyMap(),
            seq(|names|, k requires 0 <= k < |names| => PackageElement(names[k])))
  }

  function FpElement(fp: ProvisionedFp): Element {
    Element(FeaturePackName.localName, FeaturePackName.ns, FpAttributes(fp.gav),
            if fp.HasPackages() then [PackagesElement(fp.packageNames)] else [])
  }

  /** One `feature-pack` element per feature-pack, in order. */
  function FpElements(fps: seq<ProvisionedFp>): (r: seq<Element>)
    ensures |r| == |fps| && forall k :: 0 <= k < |fps| ==> r[k] == FpElement(fps[k])
  {
    seq(|fps|, k requires 0 <= k < |fps| => FpElement(fps[k]))
  }

  function StateElement<C>(state: ProvisionedState<C>): Element {
    Element(InstallationName.localName, InstallationName.ns, EmptyMap(), FpElements(state.featurePacks))
  }

  // ---------------------------------------------------------------------------
  // Reading the tree back

  /** A `package` element naming a package. */
  predicate IsPackage(c: Element) {
    c.localName == PackageName.localName && NameAttr.localName in c.attributes.entries
  }

  /** The package names listed by `package` elements, or `None` when one is not such an element. */
  function ReadNames(cs: seq<Element>): Option<seq<string>> {
    if forall k :: 0 <= k < |cs| ==> IsPackage(cs[k])
    then Some(seq(|cs|, k requires 0 <= k < |cs| && IsPackage(cs[k]) => cs[k].attributes.entries[NameAttr.localName]))
    else None
  }

  /** The feature-pack a `feature-pack` element describes. */
  function ReadFp(e: Element): Option<ProvisionedFp> {
    var attrs := e.attributes.entries;
    if e.localName != FeaturePackName.localName || GroupIdAttr.localName !in attrs || ArtifactIdAttr.localName !in attrs then None
    else
      var version := if VersionAttr.localName in attrs then Some(attrs[VersionAttr.localName]) else None;
      var names :=
        if |e.children| == 0 then Some([])
        else if |e.children| == 1 && e.children[0].localName == PackagesName.localName then ReadNames(e.children[0].children)
        else None;
      if names.None? then None
      else Some(ProvisionedFp(Gav(attrs[GroupIdAttr.localName], attrs[ArtifactIdAttr.localName], version), names.value))
  }

  /** The feature-packs an `installation` element describes. */
  function ReadFps(cs: seq<Element>): Option<seq<ProvisionedFp>> {
    if forall k :: 0 <= k < |cs| ==> ReadFp(cs[k]).Some?
    then Some(seq(|cs|, k requires 0 <= k < |cs| && ReadFp(cs[k]).Some? => ReadFp(cs[k]).value))
    else None
  }

  // ---------------------------------------------------------------------------
  // What the written tree promises

  /**
   * The root is `installation` with no attributes and one `feature-pack`
   * child per feature-pack, in order; with no feature-packs it has no
   * children. Configurations make no difference.
   */
  lemma StateShape<C>(state: ProvisionedState<C>, otherConfigs: seq<C>)
    ensures var t := StateElement(state);
      && t.localName == InstallationName.localName && t.ns == InstallationName.ns
      && t.attributes == EmptyMap()
      && |t.children| == |state.featurePacks|
      && (!state.HasFeaturePacks() ==> t.children == [])
      && (forall k :: 0 <= k < |t.children| ==> t.children[k].localName == FeaturePackName.localName)
      && t == StateElement(state.(configs := otherConfigs))
  {
  }

  /**
   * A `feature-pack` element carries the group and the artifact, the version
   * exactly when there is one, and a `packages` child exactly when there are
   * packages, with one `package` element naming each package, in order.
   */
  lemma FpShape(fp: ProvisionedFp)
    ensures var t := FpElement(fp);
      var attrs := t.attributes.entries;
      && attrs[GroupIdAttr.localName] == fp.gav.groupId
      && attrs[ArtifactIdAttr.localName] == fp.gav.artifactId
      && (VersionAttr.localName in attrs <==> fp.gav.version.Some?)
      && (fp.gav.version.Some? ==> attrs[VersionAttr.localName] == fp.gav.version.value)
      && attrs.Keys == {GroupIdAttr.localName, ArtifactIdAttr.localName} + (if fp.gav.version.Some? then {VersionAttr.localName} else {})
      && (|t.children| == 1 <==> fp.HasPackages())
      && (fp.HasPackages() ==>
            var p := t.children[0];
            && p.localName == PackagesName.localName && p.ns == PackagesName.ns
            && |p.children| == |fp.packageNames|
            && forall k :: 0 <= k < |p.children| ==>
                 p.children[k].localName == PackageName.localName
                 && p.children[k].attributes.entries == map[NameAttr.localName := fp.packageNames[k]])
  {
  }

  lemma ReadNamesInverse(names: seq<string>)
    ensures ReadNames(PackagesElement(names).children) == Some(names)
  {
    var cs := PackagesElement(names).children;
    assert forall k :: 0 <= k < |cs| ==> cs[k] == PackageElement(names[k]) && IsPackage(cs[k]);
    var r := ReadNames(cs).value;
    assert forall k :: 0 <= k < |r| ==> r[k] == names[k];
    assert r == names;
  }

  lemma ReadFpInverse(fp: ProvisionedFp)
    ensures ReadFp(FpElement(fp)) == Some(fp)
  {
    FpShape(fp);
    if fp.HasPackages() {
      ReadNamesInverse(fp.packageNames);
    }
  }

  lemma ReadFpsInverse(fps: seq<ProvisionedFp>)
    ensures ReadFps(FpElements(fps)) == Some(fps)
  {
    var cs := FpElements(fps);
    forall k | 0 <= k < |fps|
      ensures ReadFp(cs[k]) == Some(fps[k])
    {
      ReadFpInverse(fps[k]);
    }
    var r := ReadFps(cs).value;
    assert forall k :: 0 <= k < |r| ==> r[k] == fps[k];
    assert r == fps;
  }

  /** Reading the written tree back gives the same feature-packs, coordinates and package names, in the same order. */
  lemma WrittenStateReadsBack<C>(state: ProvisionedState<C>)
    ensures ReadFps(StateElement(state).children) == Some(state.featurePacks)
  {
    ReadFpsInverse(state.featurePacks);
  }

  // ---------------------------------------------------------------------------
  // The writer

  /** `write`: the tree that would be marshalled to the output file. */
  method Write<C>(state: ProvisionedState<C>) returns (tree: Element)
    ensures tree == StateElement(state)
  {
    var doc := new Document();
    var pkg := AddElement(doc, None, InstallationName);
    ghost var fpElements: seq<nat> := [];
    if state.HasFeaturePacks() {
      fpElements := WriteFeaturePacks(doc, pkg, state.featurePacks);
    }
    RootTree(doc.nodes, fpElements, state);
    tree := Tree(doc.nodes, pkg);
  }

  /** The loop of `write`: one `feature-pack` child of the root per feature-pack, in order. */
  method WriteFeaturePacks(doc: Document, pkg: nat, fps: seq<ProvisionedFp>) returns (ghost fpElements: seq<nat>)
    requires doc.Valid() && pkg == 0 && |doc.nodes| == 1
    requires doc.nodes[0] == Node(None, InstallationName.localName, InstallationName.ns, EmptyMap(), [])
    modifies doc
    ensures doc.Valid() && |doc.nodes| >= 1 && |fpElements| == |fps|
    ensures doc.nodes[0] == Node(None, InstallationName.localName, InstallationName.ns, EmptyMap(), fpElements)
    ensures forall k :: 0 <= k < |fps| ==> Tree(doc.nodes, fpElements[k]) == FpElement(fps[k])
  {
    fpElements := [];
    for i := 0 to |fps|
      invariant doc.Valid() && |doc.nodes| >= 1
      invariant doc.nodes[0] == Node(None, InstallationName.localName, InstallationName.ns, EmptyMap(), fpElements)
      invariant |fpElements| == i
      invariant forall k :: 0 <= k < i ==> Tree(doc.nodes, fpElements[k]) == FpElement(fps[k])
    {
      ghost var before := doc.nodes;
      assert ChildrenWithin(fpElements, 0, |before|);
      var fpElement := AddFeaturePack(doc, pkg, fps[i]);
      KeepTrees(before, doc.nodes, 1, fpElements);
      fpElements := fpElements + [fpElement];
    }
  }

  /** The root node, whose children are the written feature-pack nodes, stands for the state's tree. */
  lemma RootTree<C>(nodes: seq<Node>, fpElements: seq<nat>, state: ProvisionedState<C>)
    requires WellFormed(nodes) && |nodes| >= 1 && |fpElements| == |state.featurePacks|
    requires nodes[0] == Node(None, InstallationName.localName, InstallationName.ns, EmptyMap(), fpElements)
    requires forall k :: 0 <= k < |fpElements| ==> Tree(nodes, fpElements[k]) == FpElement(state.featurePacks[k])
    ensures Tree(nodes, 0) == StateElement(state)
  {
    TreeOf(nodes, 0, FpElements(state.featurePacks));
  }

  /** One turn of the loop of `write`: a `feature-pack` element is attached to the root and filled. */
  method AddFeaturePack(doc: Document, pkg: nat, featurePack: ProvisionedFp) returns (fpElement: nat)
    requires doc.Valid() && pkg < |doc.nodes|
    modifies doc
    ensures doc.Valid() && fpElement == old(|doc.nodes|) < |doc.nodes|
    ensures doc.nodes[pkg] == old(doc.nodes[pkg]).(children := old(doc.nodes[pkg].children) + [fpElement])
    ensures forall i :: 0 <= i < old(|doc.nodes|) && i != pkg ==> doc.nodes[i] == old(doc.nodes[i])
    ensures Tree(doc.nodes, fpElement) == FpElement(featurePack)
  {
    fpElement := AddElement(doc, Some(pkg), FeaturePackName);
    WriteFeaturePack(doc, fpElement, featurePack);
  }

  /** `writeFeaturePack`: fills the freshly attached, still empty node `fp`. */
  method WriteFeaturePack(doc: Document, fp: nat, featurePack: ProvisionedFp)
    requires doc.Valid() && fp == |doc.nodes| - 1
    requires doc.nodes[fp].localName == FeaturePackName.localName && doc.nodes[fp].ns == FeaturePackName.ns
    requires doc.nodes[fp].attributes == EmptyMap() && doc.nodes[fp].children == []
    modifies doc
    ensures doc.Valid() && |doc.nodes| > fp
    ensures forall i :: 0 <= i < fp ==> doc.nodes[i] == old(doc.nodes[i])
    ensures doc.nodes[fp].parent == old(doc.nodes[fp].parent)
    ensures Tree(doc.nodes, fp) == FpElement(featurePack)
  {
    WriteCoords(doc, fp, featurePack.gav);
    if featurePack.HasPackages() {
      var packages := AddElement(doc, Some(fp), PackagesName);
      WritePackages(doc, packages, featurePack.packageNames);
      TreeOf(doc.nodes, fp, [PackagesElement(featurePack.packageNames)]);
    } else {
      TreeOf(doc.nodes, fp, []);
    }
  }

  /** The attributes `writeFeaturePack` puts on the node `fp`, which has none yet. */
  method WriteCoords(doc: Document, fp: nat, gav: Gav)
    requires doc.Valid() && fp < |doc.nodes| && doc.nodes[fp].attributes == EmptyMap()
    modifies doc
    ensures doc.Valid()
    ensures doc.nodes == old(doc.nodes)[fp := old(doc.nodes[fp]).(attributes := FpAttributes(gav))]
  {
    AddAttribute(doc, fp, GroupIdAttr, gav.groupId);
    AddAttribute(doc, fp, ArtifactIdAttr, gav.artifactId);
    if gav.version.Some? {
      AddAttribute(doc, fp, VersionAttr, gav.version.value);
    }
    PutCoords(gav);
  }

  /** The attributes of a `package` element are those `addAttribute` builds from none. */
  lemma PutName(name: string)
    ensures PackageElement(name).attributes == EmptyMap().Put(NameAttr.localName, name)
  {
  }

  /** The coordinate attributes are those `addAttribute` builds from none, in the order written. */
  lemma PutCoords(gav: Gav)
    ensures var ga := EmptyMap().Put(GroupIdAttr.localName, gav.groupId).Put(ArtifactIdAttr.localName, gav.artifactId);
      FpAttributes(gav) == if gav.version.Some? then ga.Put(VersionAttr.localName, gav.version.value) else ga
  {
  }

  /** The loop of `writeFeaturePack` over the package names, under the freshly attached node `packages`. */
  method WritePackages(doc: Document, packages: nat, names: seq<string>)
    requires doc.Valid() && packages == |doc.nodes| - 1
    requires doc.nodes[packages].localName == PackagesName.localName && doc.nodes[packages].ns == PackagesName.ns
    requires doc.nodes[packages].attributes == EmptyMap() && doc.nodes[packages].children == []
    modifies doc
    ensures doc.Valid() && |doc.nodes| > packages
    ensures forall i :: 0 <= i < packages ==> doc.nodes[i] == old(doc.nodes[i])
    ensures doc.nodes[packages].parent == old(doc.nodes[packages].parent)
    ensures Tree(doc.nodes, packages) == PackagesElement(names)
  {
    ghost var start := doc.nodes;
    ghost var excludes: seq<nat> := [];
    for j := 0 to |names|
      invariant doc.Valid() && packages < |doc.nodes|
      invariant doc.nodes[packages] == start[packages].(children := excludes)
      invariant forall i :: 0 <= i < packages ==> doc.nodes[i] == start[i]
      invariant |excludes| == j && ChildrenWithin(excludes, packages, |doc.nodes|)
      invariant forall k :: 0 <= k < j ==> Tree(doc.nodes, excludes[k]) == PackageElement(names[k])
    {
      ghost var before := doc.nodes;
      var exclude := AddPackage(doc, packages, names[j]);
      KeepTrees(before, doc.nodes, packages + 1, excludes);
      excludes := excludes + [exclude];
    }
    TreeOf(doc.nodes, packages, PackagesElement(names).children);
  }

  /** One turn of the loop over the package names: a `package` element naming `name`. */
  method AddPackage(doc: Document, packages: nat, name: string) returns (exclude: nat)
    requires doc.Valid() && packages < |doc.nodes|
    modifies doc
    ensures doc.Valid() && exclude == old(|doc.nodes|) && |doc.nodes| == exclude + 1
    ensures doc.nodes[packages] == old(doc.nodes[packages]).(children := old(doc.nodes[packages].children) + [exclude])
    ensures forall i :: 0 <= i < old(|doc.nodes|) && i != packages ==> doc.nodes[i] == old(doc.nodes[i])
    ensures Tree(doc.nodes, exclude) == PackageElement(name)
  {
    exclude := AddElement(doc, Some(packages), PackageName);
    AddAttribute(doc, exclude, NameAttr, name);
    PutName(name);
  }
}
