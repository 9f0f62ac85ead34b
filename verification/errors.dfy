/**
 * The message texts of the provisioning errors that name packages,
 * feature-packs and dependencies (feature-pack-api `Errors`). Each message
 * is a fixed frame around the names it reports; the lemmas at the end show
 * that a message determines the name it was built from.
 */
module Errors {
  import opened Base
  import opened Coords

  /** `parseXml()`: the XML parser's failure, which names nothing. */
  const ParseXml := "Failed to parse XML"

  /** `msg` opens with `prefix` and closes with `suffix`, which do not overlap. */
  predicate Framed(msg: string, prefix: string, suffix: string) {
    && |prefix| + |suffix| <= |msg|
    && msg[..|prefix|] == prefix
    && msg[|msg| - |suffix|..] == suffix
  }

  /** `AbstractCollection.toString`: the elements between brackets, separated by ", ". */
  function CollectionText(items: seq<string>): (r: string)
    ensures items == [] ==> r == "[]"
    ensures |r| >= 2 && r[0] == '[' && r[|r| - 1] == ']'
  {
    "[" + Joined(items) + "]"
  }

  function Joined(items: seq<string>): string
    decreases |items|
  {
    if items == [] then ""
    else if |items| == 1 then items[0]
    else items[0] + ", " + Joined(items[1..])
  }

  lemma FramedPair(prefix: string, suffix: string)
    ensures Framed(prefix + suffix, prefix, suffix)
  {
    var m := prefix + suffix;
    assert m[..|prefix|] == prefix;
    assert m[|m| - |suffix|..] == suffix;
  }

  function PackageContentCopyFailed(packageName: string): (r: string)
    ensures Framed(r, "Failed to copy package " + packageName, " content")
  {
    var prefix := "Failed to copy package " + packageName;
    var suffix := " content";
    FramedPair(prefix, suffix);
    prefix + suffix
  }

  function PackageNotFound(fp: Gav, packageName: string): (r: string)
    ensures Framed(r, "Failed to resolve package " + packageName, " in " + fp.Text())
  {
    var prefix := "Failed to resolve package " + packageName;
    var suffix := " in " + fp.Text();
    FramedPair(prefix, suffix);
    prefix + suffix
  }

  function MissingParameter(s: string): (r: string)
    ensures Framed(r, "Missing ", s)
  {
    FramedPair("Missing ", s);
    "Missing " + s
  }

  function UnknownPackage(gav: Gav, pkgName: string): (r: string)
    ensures Framed(r, "Package " + pkgName, " is not found in " + gav.Text())
  {
    var prefix := "Package " + pkgName;
    var suffix := " is not found in " + gav.Text();
    FramedPair(prefix, suffix);
    prefix + suffix
  }

  function UnknownFeaturePack(gav: Gav): (r: string)
    ensures Framed(r, "Feature-pack " + gav.Text(), " is not found")
  {
    var prefix := "Feature-pack " + gav.Text();
    var suffix := " is not found";
    FramedPair(prefix, suffix);
    prefix + suffix
  }

  /**
   * The same feature-pack requested in two versions: the message names the
   * GA of the first coordinates, then the first version, then the second
   * (a `null` version reads "null").
   */
  function FeaturePackVersionConflict(gav: Gav, gav2: Gav): (r: string)
    ensures Framed(r, "Feature-pack " + gav.ToGa().Text() + " was specified with version " + NullText(gav.version),
                   " and " + NullText(gav2.version))
  {
    var prefix := "Feature-pack " + gav.ToGa().Text() + " was specified with version " + NullText(gav.version);
    var suffix := " and " + NullText(gav2.version);
    FramedPair(prefix, suffix);
    prefix + suffix
  }

  function UnsatisfiedPackageDependencies(fpGav: Gav, packageName: string, unsatisfiedDeps: seq<string>): (r: string)
    ensures Framed(r, "Feature-pack " + fpGav.Text() + " package " + packageName,
                   " has unsatisfied dependencies on packages " + CollectionText(unsatisfiedDeps))
  {
    var prefix := "Feature-pack " + fpGav.Text() + " package " + packageName;
    var suffix := " has unsatisfied dependencies on packages " + CollectionText(unsatisfiedDeps);
    FramedPair(prefix, suffix);
    prefix + suffix
  }

  function UnsatisfiedPackageDependency(fpGav: Gav, srcPackage: string, targetPackage: string): (r: string)
    ensures Framed(r, "Feature-pack " + fpGav.Text() + " package " + srcPackage,
                   " has unsatisfied dependency on package " + targetPackage)
  {
    var prefix := "Feature-pack " + fpGav.Text() + " package " + srcPackage;
    var suffix := " has unsatisfied dependency on package " + targetPackage;
    FramedPair(prefix, suffix);
    prefix + suffix
  }

  function UnsatisfiedExternalPackageDependency(srcGav: Gav, srcPackage: string,
                                                targetGav: Gav, targetPackage: string): (r: string)
    ensures Framed(r, "Feature-pack " + srcGav.Text() + " package " + srcPackage,
                   " has unsatisfied dependency on feature-pack " + targetGav.Text() + " package " + targetPackage)
  {
    var prefix := "Feature-pack " + srcGav.Text() + " package " + srcPackage;
    var suffix := " has unsatisfied dependency on feature-pack " + targetGav.Text() + " package " + targetPackage;
    FramedPair(prefix, suffix);
    prefix + suffix
  }

  function PackageExcludeInclude(packageName: string): (r: string)
    ensures Framed(r, "Package " + packageName, " is explicitly excluded and included")
  {
    var prefix := "Package " + packageName;
    var suffix := " is explicitly excluded and included";
    FramedPair(prefix, suffix);
    prefix + suffix
  }

  function DuplicateDependencyName(name: string): (r: string)
    ensures Framed(r, "Dependency with name " + name, " already exists")
  {
    var prefix := "Dependency with name " + name;
    var suffix := " already exists";
    FramedPair(prefix, suffix);
    prefix + suffix
  }

  function UnknownDependencyName(gav: Gav, depName: string): (r: string)
    ensures Framed(r, "Dependency " + depName, " not found in " + gav.Text() + " feature-pack description")
  {
    var prefix := "Dependency " + depName;
    var suffix := " not found in " + gav.Text() + " feature-pack description";
    FramedPair(prefix, suffix);
    prefix + suffix
  }

  function FeaturePackAlreadyInstalled(gav: Gav): (r: string)
    ensures Framed(r, "Feature-pack " + gav.Text(), " is already installed")
  {
    var prefix := "Feature-pack " + gav.Text();
    var suffix := " is already installed";
    FramedPair(prefix, suffix);
    prefix + suffix
  }

  function UnknownFeaturePackDependencyName(fpGav: Gav, pkgName: string, depName: string): (r: string)
    ensures Framed(r, fpGav.Text() + " package " + pkgName, " references unknown feature-pack dependency " + depName)
  {
    var prefix := fpGav.Text() + " package " + pkgName;
    var suffix := " references unknown feature-pack dependency " + depName;
    FramedPair(prefix, suffix);
    prefix + suffix
  }

  function PackageAlreadyExists(gav: Gav, name: string): (r: string)
    ensures Framed(r, "Package " + name, " already exists in feature-pack " + gav.Text())
  {
    var prefix := "Package " + name;
    var suffix := " already exists in feature-pack " + gav.Text();
    FramedPair(prefix, suffix);
    prefix + suffix
  }

  function PackageParameterResolverNotProvided(gav: Gav, pkgName: string): (r: string)
    ensures Framed(r, "Package parameter resolver not provided for package " + pkgName, " in feature-pack " + gav.Text())
  {
    var prefix := "Package parameter resolver not provided for package " + pkgName;
    var suffix := " in feature-pack " + gav.Text();
    FramedPair(prefix, suffix);
    prefix + suffix
  }

  function UnknownParameterInDependency(gav: Gav, srcPkg: string, trgPkg: string, param: string): (r: string)
    ensures Framed(r, "Package " + srcPkg + " from feature-pack " + gav.Text(),
                   " overwrites a non-existing parameter " + param + " in its dependency on package " + trgPkg)
  {
    var prefix := "Package " + srcPkg + " from feature-pack " + gav.Text();
    var suffix := " overwrites a non-existing parameter " + param + " in its dependency on package " + trgPkg;
    FramedPair(prefix, suffix);
    prefix + suffix
  }

  // ---------------------------------------------------------------------------
  // A message names exactly one package

  /** Two texts with the same fixed frame around them are equal only if what they frame is. */
  lemma FrameDetermines(prefix: string, a: string, b: string, suffix: string)
    requires prefix + a + suffix == prefix + b + suffix
    ensures a == b
  {
    var m := prefix + a + suffix;
    assert |a| == |b|;
    assert a == m[|prefix|..|prefix| + |a|];
    assert b == m[|prefix|..|prefix| + |b|];
  }

  lemma PackageExcludeIncludeNamesPackage(a: string, b: string)
    ensures PackageExcludeInclude(a) == PackageExcludeInclude(b) <==> a == b
  {
    if PackageExcludeInclude(a) == PackageExcludeInclude(b) {
      FrameDetermines("Package ", a, b, " is explicitly excluded and included");
    }
  }

  lemma MissingParameterNamesParameter(a: string, b: string)
    ensures MissingParameter(a) == MissingParameter(b) <==> a == b
  {
    if MissingParameter(a) == MissingParameter(b) {
      FrameDetermines("Missing ", a, b, "");
    }
  }

  lemma DuplicateDependencyNameNamesDependency(a: string, b: string)
    ensures DuplicateDependencyName(a) == DuplicateDependencyName(b) <==> a == b
  {
    if DuplicateDependencyName(a) == DuplicateDependencyName(b) {
      FrameDetermines("Dependency with name ", a, b, " already exists");
    }
  }

  /** For a fixed feature-pack, the two package messages determine the package. */
  lemma PackageMessagesNamePackage(gav: Gav, a: string, b: string)
    ensures UnknownPackage(gav, a) == UnknownPackage(gav, b) <==> a == b
    ensures PackageNotFound(gav, a) == PackageNotFound(gav, b) <==> a == b
  {
    if UnknownPackage(gav, a) == UnknownPackage(gav, b) {
      FrameDetermines("Package ", a, b, " is not found in " + gav.Text());
    }
    if PackageNotFound(gav, a) == PackageNotFound(gav, b) {
      FrameDetermines("Failed to resolve package ", a, b, " in " + gav.Text());
    }
  }

  /**
   * A version conflict between the same two versions, reported in the
   * opposite order, gives the same text only when the versions read the same.
   */
  lemma VersionConflictOrder(g1: Gav, g2: Gav)
    requires g1.ToGa() == g2.ToGa()
    requires |NullText(g1.version)| == |NullText(g2.version)|
    ensures (FeaturePackVersionConflict(g1, g2) == FeaturePackVersionConflict(g2, g1))
              <==> (NullText(g1.version) == NullText(g2.version))
  {
    var p := "Feature-pack " + g1.ToGa().Text() + " was specified with version ";
    var v1 := NullText(g1.version);
    var v2 := NullText(g2.version);
    if FeaturePackVersionConflict(g1, g2) == FeaturePackVersionConflict(g2, g1) {
      var m := (p + v1) + (" and " + v2);
      assert m == FeaturePackVersionConflict(g1, g2);
      assert m == (p + v2) + (" and " + v1);
      assert v1 == m[|p|..|p| + |v1|];
      assert v2 == ((p + v2) + (" and " + v1))[|p|..|p| + |v2|];
    }
  }

  /**
   * Without versions of equal length the order can be lost: the versions `x`
   * and `x and x` of one GA give the same text in either order.
   */
  lemma VersionConflictAmbiguous(ga: Ga)
    ensures var g1, g2 := Gav(ga.groupId, ga.artifactId, Some("x")), Gav(ga.groupId, ga.artifactId, Some("x and x"));
      && g1.version != g2.version
      && FeaturePackVersionConflict(g1, g2) == FeaturePackVersionConflict(g2, g1)
  {
    var g1, g2 := Gav(ga.groupId, ga.artifactId, Some("x")), Gav(ga.groupId, ga.artifactId, Some("x and x"));
    var p := "Feature-pack " + g1.ToGa().Text() + " was specified with version ";
    assert g1.ToGa() == g2.ToGa();
    assert FeaturePackVersionConflict(g1, g2) == p + ("x" + " and " + "x and x");
    assert FeaturePackVersionConflict(g2, g1) == p + ("x and x" + " and " + "x");
  }
}
