/** The names by which the catalog knows manifests (server/internal/catalog/catalog.go). */
module ManifestNames {
  predicate IsManifest(name: string) {
    |name| >= 9 && name[|name| - 9..] == ".manifest"
  }

  function Stem(name: string): string
    requires IsManifest(name)
  {
    name[..|name| - 9]
  }
}
