/**
 * The asset detector: an asset file is unreferenced when its base name occurs
 * in no Dart file's content. The reference set is keyed by base name, so all
 * asset files that share a base name share one verdict.
 */
module Assets {
  import opened Text
  import opened References

  /** `assetFiles.map(basename)`. */
  function BaseNames(paths: seq<string>): seq<string>
  {
    seq(|paths|, i requires 0 <= i < |paths| => BaseName(paths[i]))
  }

  /** The entry reported for one asset file, or none when its name is mentioned. */
  function AssetVerdict(assetPath: string, corpus: seq<SourceFile>): seq<Resource>
  {
    if MentionedIn(BaseName(assetPath), corpus) then [] else [Resource(BaseName(assetPath), assetPath)]
  }

  /** The unreferenced asset files, one entry per asset path, in enumeration order. */
  function UnreferencedAssets(assetFiles: seq<string>, corpus: seq<SourceFile>): seq<Resource>
  {
    if assetFiles == [] then []
    else AssetVerdict(assetFiles[0], corpus) + UnreferencedAssets(assetFiles[1..], corpus)
  }

  /** The reports the second loop emits for the asset files from index `j` on, given the set of referenced names. */
  function NotReferenced(assetFiles: seq<string>, referenced: set<string>, j: nat): seq<Resource>
    requires j <= |assetFiles|
    decreases |assetFiles| - j
  {
    if j == |assetFiles| then []
    else
      var name := BaseName(assetFiles[j]);
      (if name !in referenced then [Resource(name, assetFiles[j])] else [])
      + NotReferenced(assetFiles, referenced, j + 1)
  }

  /**
   * Reporting against the reference set built from candidate keys that
   * include every asset's base name is the asset verdict.
   */
  lemma {:induction false} NotReferencedIsUnreferenced(assetFiles: seq<string>, keys: seq<string>, corpus: seq<SourceFile>, j: nat)
    requires j <= |assetFiles|
    requires forall p :: p in assetFiles ==> BaseName(p) in keys
    ensures NotReferenced(assetFiles, ReferencedKeys(keys, corpus), j) == UnreferencedAssets(assetFiles[j..], corpus)
    decreases |assetFiles| - j
  {
    if j < |assetFiles| {
      assert assetFiles[j] in assetFiles;
      assert assetFiles[j..][1..] == assetFiles[j + 1..];
      NotReferencedIsUnreferenced(assetFiles, keys, corpus, j + 1);
    }
  }

  /** The reporting loop: every asset file whose base name is not in `referencedAssets`, in order. */
  method ReportNotReferenced(assetFiles: seq<string>, referencedAssets: set<string>) returns (unreferenced: seq<Resource>)
    ensures unreferenced == NotReferenced(assetFiles, referencedAssets, 0)
  {
    unreferenced := [];
    for j := 0 to |assetFiles|
      invariant unreferenced + NotReferenced(assetFiles, referencedAssets, j) == NotReferenced(assetFiles, referencedAssets, 0)
    {
      var asset := assetFiles[j];
      var assetName := BaseName(asset);
      ghost var rest := NotReferenced(assetFiles, referencedAssets, j + 1);
      if assetName !in referencedAssets {
        assert unreferenced + NotReferenced(assetFiles, referencedAssets, j) == (unreferenced + [Resource(assetName, asset)]) + rest;
        unreferenced := unreferenced + [Resource(assetName, asset)];
      } else {
        assert NotReferenced(assetFiles, referencedAssets, j) == rest;
      }
    }
  }

  /** The detector: collect the referenced names, then keep the asset files whose name is not among them. */
  method FindUnreferencedAssets(assetFiles: seq<string>, dartFiles: seq<SourceFile>) returns (unreferenced: seq<Resource>)
    ensures unreferenced == UnreferencedAssets(assetFiles, dartFiles)
  {
    var assetNames := BaseNames(assetFiles);
    var referencedAssets := CollectReferencedKeys(assetNames, dartFiles);
    unreferenced := ReportNotReferenced(assetFiles, referencedAssets);
    forall p | p in assetFiles ensures BaseName(p) in assetNames {
      var i :| 0 <= i < |assetFiles| && assetFiles[i] == p;
      assert assetNames[i] == BaseName(p);
    }
    NotReferencedIsUnreferenced(assetFiles, assetNames, dartFiles, 0);
    assert assetFiles[0..] == assetFiles;
  }


  /** Every reported entry is an asset file, named by its base name, whose name no Dart file mentions. */
  lemma {:induction false} UnreferencedAssetsSound(assetFiles: seq<string>, corpus: seq<SourceFile>, r: Resource)
    requires r in UnreferencedAssets(assetFiles, corpus)
    ensures r.path in assetFiles && r.name == BaseName(r.path) && !MentionedIn(r.name, corpus)
  {
    if r !in AssetVerdict(assetFiles[0], corpus) {
      UnreferencedAssetsSound(assetFiles[1..], corpus, r);
    }
  }

  /** An asset file is reported exactly when it is enumerated and its base name is mentioned nowhere. */
  lemma {:induction false} AssetReportedIff(assetFiles: seq<string>, corpus: seq<SourceFile>, path: string)
    ensures Resource(BaseName(path), path) in UnreferencedAssets(assetFiles, corpus)
        <==> path in assetFiles && !MentionedIn(BaseName(path), corpus)
  {
    if assetFiles != [] {
      AssetReportedIff(assetFiles[1..], corpus, path);
      assert path in assetFiles <==> path == assetFiles[0] || path in assetFiles[1..];
    }
  }

  /** Each asset file is reported once per enumeration of it, or not at all when its name is mentioned. */
  lemma {:induction false} AssetReportedOncePerFile(assetFiles: seq<string>, corpus: seq<SourceFile>, path: string)
    ensures multiset(UnreferencedAssets(assetFiles, corpus))[Resource(BaseName(path), path)]
         == if MentionedIn(BaseName(path), corpus) then 0 else multiset(assetFiles)[path]
  {
    if assetFiles != [] {
      AssetReportedOncePerFile(assetFiles[1..], corpus, path);
      assert assetFiles == [assetFiles[0]] + assetFiles[1..];
    }
  }

  /** The number of reported entries is the number of unreferenced asset files. */
  lemma {:induction false} UnreferencedAssetsBound(assetFiles: seq<string>, corpus: seq<SourceFile>)
    ensures |UnreferencedAssets(assetFiles, corpus)| <= |assetFiles|
    ensures (forall p :: p in assetFiles ==> !MentionedIn(BaseName(p), corpus))
        ==> |UnreferencedAssets(assetFiles, corpus)| == |assetFiles|
    ensures (forall p :: p in assetFiles ==> MentionedIn(BaseName(p), corpus))
        ==> UnreferencedAssets(assetFiles, corpus) == []
  {
    if assetFiles != [] {
      UnreferencedAssetsBound(assetFiles[1..], corpus);
      assert forall p :: p in assetFiles[1..] ==> p in assetFiles;
    }
  }

  /** Two asset files with the same base name are both reported or both omitted. */
  lemma SameBaseNameSameVerdict(assetFiles: seq<string>, corpus: seq<SourceFile>, p: string, q: string)
    requires p in assetFiles && q in assetFiles
    requires BaseName(p) == BaseName(q)
    ensures Resource(BaseName(p), p) in UnreferencedAssets(assetFiles, corpus)
        <==> Resource(BaseName(q), q) in UnreferencedAssets(assetFiles, corpus)
  {
    AssetReportedIff(assetFiles, corpus, p);
    AssetReportedIff(assetFiles, corpus, q);
  }
}
