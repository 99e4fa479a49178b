/**
 * The dependency detector: a package declared under `dependencies` in the
 * manifest, other than the two reserved framework packages, is unreferenced
 * when its name occurs in no Dart file's content.
 */
module Dependencies {
  import opened Wrappers
  import opened Sequences
  import opened References

  /**
   * The manifest as the YAML loader leaves it: no file at all; a document the
   * loader rejects, or an empty one whose `dependencies` cannot be read; or a
   * document whose `dependencies` entry is absent (None) or a mapping with the
   * given keys, in `Object.keys` order and without duplicates.
   */
  datatype Manifest = Missing | Unparsable | Loaded(dependencies: Option<seq<string>>)

  /** Why a scan could not produce a dependency verdict. */
  datatype ScanError = ManifestParseError

  /** The framework packages that are always in use. */
  predicate IsReserved(dep: string)
  {
    dep == "flutter" || dep == "flutter_test"
  }

  /** The candidate dependencies: the declared keys without the reserved ones, or none without a mapping. */
  function DeclaredDependencies(dependencies: Option<seq<string>>): seq<string>
  {
    match dependencies
    case None => []
    case Some(keys) => Filter(keys, dep => !IsReserved(dep))
  }

  /** What the detector promises for a manifest and a corpus. */
  function DependencyVerdict(manifest: Manifest, corpus: seq<SourceFile>): Result<seq<string>, ScanError>
  {
    match manifest
    case Missing => Ok([])
    case Unparsable => Err(ManifestParseError)
    case Loaded(dependencies) => Ok(Filter(DeclaredDependencies(dependencies), dep => !MentionedIn(dep, corpus)))
  }

  /**
   * The detector: give up on a missing or unloadable manifest, otherwise
   * collect the referenced candidates and keep the others.
   */
  method FindUnreferencedDependencies(manifest: Manifest, dartFiles: seq<SourceFile>)
    returns (result: Result<seq<string>, ScanError>)
    ensures result == DependencyVerdict(manifest, dartFiles)
    ensures manifest == Missing ==> result == Ok([])
    ensures manifest == Loaded(None) ==> result == Ok([])
    ensures result.Ok? ==> !("flutter" in result.value) && !("flutter_test" in result.value)
  {
    if manifest.Missing? {
      return Ok([]);
    }
    if manifest.Unparsable? {
      return Err(ManifestParseError);
    }
    var dependencies := DeclaredDependencies(manifest.dependencies);
    var referencedDependencies := CollectReferencedKeys(dependencies, dartFiles);
    forall dep | dep in dependencies
      ensures (dep !in referencedDependencies) == !MentionedIn(dep, dartFiles)
    {
      var j :| 0 <= j < |dependencies| && dependencies[j] == dep;
      ReferencedKeysMember(dependencies, dartFiles, j);
    }
    FilterCongruent(dependencies, dep => dep !in referencedDependencies, dep => !MentionedIn(dep, dartFiles));
    result := Ok(Filter(dependencies, dep => dep !in referencedDependencies));
  }

  /**
   * With a loaded mapping, a package is reported exactly when it is declared,
   * is not reserved, and no Dart file mentions it.
   */
  lemma DependencyReportedIff(keys: seq<string>, corpus: seq<SourceFile>, dep: string)
    ensures DependencyVerdict(Loaded(Some(keys)), corpus).Ok?
    ensures dep in DependencyVerdict(Loaded(Some(keys)), corpus).value
        <==> dep in keys && !IsReserved(dep) && !MentionedIn(dep, corpus)
  {
  }

  /** The reported packages keep the order in which the manifest declares them. */
  lemma DependencyOrder(keys: seq<string>, corpus: seq<SourceFile>)
    ensures SubsequenceOf(DependencyVerdict(Loaded(Some(keys)), corpus).value, keys)
  {
    var declared := DeclaredDependencies(Some(keys));
    SubsequenceTransitive(DependencyVerdict(Loaded(Some(keys)), corpus).value, declared, keys);
  }
}
