/**
 * The scan command's core: run the three detectors over the same corpus and
 * hand their results to the formatter. The detectors are joined as by
 * `Promise.all`: if the dependency detector fails on an unloadable manifest,
 * the whole scan fails and nothing is written.
 */
module Scan {
  import opened Wrappers
  import opened References
  import opened Assets
  import opened DartFiles
  import opened Dependencies
  import opened Formatter

  /** The lines the command writes for a project, or the error that stops it. */
  function ScanOutput(assetFiles: seq<string>, dartFiles: seq<SourceFile>, manifest: Manifest): Result<seq<string>, ScanError>
  {
    match DependencyVerdict(manifest, dartFiles)
    case Ok(dependencies) => Ok(Report(UnreferencedAssets(assetFiles, dartFiles), dependencies, UnreferencedDartFiles(dartFiles)))
    case Err(e) => Err(e)
  }

  /** The command: the three detectors, then the formatter on their results. */
  method FindUnusedResources(assetFiles: seq<string>, dartFiles: seq<SourceFile>, manifest: Manifest)
    returns (output: Result<seq<string>, ScanError>)
    ensures output == ScanOutput(assetFiles, dartFiles, manifest)
    ensures output.Err? <==> manifest == Unparsable
    ensures manifest == Missing
        ==> output == Ok(Report(UnreferencedAssets(assetFiles, dartFiles), [], UnreferencedDartFiles(dartFiles)))
  {
    var unreferencedAssets := FindUnreferencedAssets(assetFiles, dartFiles);
    var unreferencedDependencies := FindUnreferencedDependencies(manifest, dartFiles);
    var unreferencedDartFiles := FindUnreferencedDartFiles(dartFiles);
    match unreferencedDependencies
    case Err(e) =>
      output := Err(e);
    case Ok(dependencies) =>
      var lines := DisplayResults(unreferencedAssets, dependencies, unreferencedDartFiles);
      output := Ok(lines);
  }
}
