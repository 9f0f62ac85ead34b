/**
 * Maven-style coordinates of a feature-pack: group and artifact (`Ga`),
 * and group, artifact and an optional version (`Gav`). Two coordinates name
 * the same artifact when their group and artifact agree, whatever the versions.
 * `ArtifactCoords` is not part of this model; its text form is taken to be
 * the colon-separated coordinates, with the version left out when it is `null`.
 */
module Coords {
  import opened Base

  datatype Ga = Ga(groupId: string, artifactId: string) {
    function Text(): string {
      groupId + ":" + artifactId
    }
  }

  datatype Gav = Gav(groupId: string, artifactId: string, version: Option<string>) {
    /** `toGa()`: the coordinates without the version. */
    function ToGa(): (r: Ga)
      ensures r.groupId == groupId && r.artifactId == artifactId
    {
      Ga(groupId, artifactId)
    }

    function Text(): string {
      ToGa().Text() + (if version.Some? then ":" + version.value else "")
    }
  }
}
