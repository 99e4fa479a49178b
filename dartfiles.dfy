/**
 * The dead-file detector: a Dart file is unreferenced when its base name
 * occurs in the content of no file with a different path. The reference set
 * is keyed by base name, and the entry point `main.dart` is never reported.
 */
module DartFiles {
  import opened Text
  import opened References

  /** The application's entry point, exempt from the verdict. */
  const EntryPoint: string := "main.dart"

  /**
   * Some candidate file named `name` has a file at a different path whose
   * content includes `name`: the condition under which the detector marks
   * `name` as referenced.
   */
  predicate ReferencedByOtherFile(name: string, corpus: seq<SourceFile>)
  {
    exists c, g :: c in corpus && g in corpus && BaseName(c.path) == name
      && g.path != c.path && Includes(g.content, name)
  }

  /** The entry reported for one candidate file, or none. */
  function DartFileVerdict(file: SourceFile, corpus: seq<SourceFile>): seq<Resource>
  {
    var name := BaseName(file.path);
    if !ReferencedByOtherFile(name, corpus) && name != EntryPoint then [Resource(name, file.path)] else []
  }

  /** The verdicts for the candidates `candidates`, each judged against the whole corpus. */
  function DeadFiles(candidates: seq<SourceFile>, corpus: seq<SourceFile>): seq<Resource>
  {
    if candidates == [] then []
    else DartFileVerdict(candidates[0], corpus) + DeadFiles(candidates[1..], corpus)
  }

  /** The unreferenced Dart files, in enumeration order. */
  function UnreferencedDartFiles(corpus: seq<SourceFile>): seq<Resource>
  {
    DeadFiles(corpus, corpus)
  }

  /** The names marked once the candidates `candidates` have been scanned against `corpus`. */
  ghost function MarkedNames(candidates: seq<SourceFile>, corpus: seq<SourceFile>): set<string>
  {
    set c, g | c in candidates && g in corpus && g.path != c.path && Includes(g.content, BaseName(c.path))
      :: BaseName(c.path)
  }

  /** One more candidate scanned adds exactly its own marks. */
  lemma MarkedNamesExtend(candidates: seq<SourceFile>, corpus: seq<SourceFile>, i: nat)
    requires i < |candidates|
    ensures MarkedNames(candidates[..i + 1], corpus)
         == MarkedNames(candidates[..i], corpus) + MarkedNames([candidates[i]], corpus)
  {
    assert candidates[..i + 1] == candidates[..i] + [candidates[i]];
  }

  /** One more file compared against candidate `f` marks `f`'s name exactly when that file, at another path, includes it. */
  lemma MarkedNamesExtendCorpus(f: SourceFile, corpus: seq<SourceFile>, j: nat)
    requires j < |corpus|
    ensures MarkedNames([f], corpus[..j + 1])
         == MarkedNames([f], corpus[..j])
          + (if corpus[j].path != f.path && Includes(corpus[j].content, BaseName(f.path))
             then {BaseName(f.path)} else {})
  {
    assert corpus[..j + 1] == corpus[..j] + [corpus[j]];
  }

  /** After the whole scan, a name is marked exactly when another file references it. */
  lemma MarkedNamesMeaning(corpus: seq<SourceFile>, name: string)
    ensures name in MarkedNames(corpus, corpus) <==> ReferencedByOtherFile(name, corpus)
  {
  }

  /** The reports the second loop emits for the candidates from index `j` on, given the set of marked names. */
  function Unmarked(candidates: seq<SourceFile>, marked: set<string>, j: nat): seq<Resource>
    requires j <= |candidates|
    decreases |candidates| - j
  {
    if j == |candidates| then []
    else
      var name := BaseName(candidates[j].path);
      (if name !in marked && name != EntryPoint then [Resource(name, candidates[j].path)] else [])
      + Unmarked(candidates, marked, j + 1)
  }

  /** Reporting against the fully marked set is the dead-file verdict. */
  lemma {:induction false} UnmarkedIsDeadFiles(candidates: seq<SourceFile>, corpus: seq<SourceFile>, j: nat)
    requires j <= |candidates|
    ensures Unmarked(candidates, MarkedNames(corpus, corpus), j) == DeadFiles(candidates[j..], corpus)
    decreases |candidates| - j
  {
    if j < |candidates| {
      MarkedNamesMeaning(corpus, BaseName(candidates[j].path));
      assert candidates[j..][1..] == candidates[j + 1..];
      UnmarkedIsDeadFiles(candidates, corpus, j + 1);
    }
  }

  /** One pass of the inner loop: mark `dartFile`'s base name when a file at another path includes it. */
  method MarkIfReferenced(referenced: set<string>, dartFile: SourceFile, dartFiles: seq<SourceFile>)
    returns (marked: set<string>)
    ensures marked == referenced + MarkedNames([dartFile], dartFiles)
  {
    marked := referenced;
    var dartFileName := BaseName(dartFile.path);
    for j := 0 to |dartFiles|
      invariant marked == referenced + MarkedNames([dartFile], dartFiles[..j])
    {
      var file := dartFiles[j];
      MarkedNamesExtendCorpus(dartFile, dartFiles, j);
      if file.path != dartFile.path && Includes(file.content, dartFileName) {
        marked := marked + {dartFileName};
      }
    }
    assert dartFiles[..|dartFiles|] == dartFiles;
  }

  /** The marking scan: for every file, mark its base name when a file at another path includes it. */
  method CollectReferencedDartFiles(dartFiles: seq<SourceFile>) returns (referencedDartFiles: set<string>)
    ensures referencedDartFiles == MarkedNames(dartFiles, dartFiles)
  {
    referencedDartFiles := {};
    for i := 0 to |dartFiles|
      invariant referencedDartFiles == MarkedNames(dartFiles[..i], dartFiles)
    {
      referencedDartFiles := MarkIfReferenced(referencedDartFiles, dartFiles[i], dartFiles);
      MarkedNamesExtend(dartFiles, dartFiles, i);
    }
    assert dartFiles[..|dartFiles|] == dartFiles;
  }

  /** The reporting scan: every file whose base name is unmarked, other than the entry point, in order. */
  method ReportUnmarked(dartFiles: seq<SourceFile>, referencedDartFiles: set<string>) returns (unreferenced: seq<Resource>)
    ensures unreferenced == Unmarked(dartFiles, referencedDartFiles, 0)
  {
    unreferenced := [];
    for j := 0 to |dartFiles|
      invariant unreferenced + Unmarked(dartFiles, referencedDartFiles, j) == Unmarked(dartFiles, referencedDartFiles, 0)
    {
      var file := dartFiles[j];
      var fileName := BaseName(file.path);
      ghost var rest := Unmarked(dartFiles, referencedDartFiles, j + 1);
      if fileName !in referencedDartFiles && fileName != EntryPoint {
        assert unreferenced + Unmarked(dartFiles, referencedDartFiles, j) == (unreferenced + [Resource(fileName, file.path)]) + rest;
        unreferenced := unreferenced + [Resource(fileName, file.path)];
      } else {
        assert Unmarked(dartFiles, referencedDartFiles, j) == rest;
      }
    }
  }

  /** The detector: mark the referenced names, then report the unmarked files other than the entry point. */
  method FindUnreferencedDartFiles(dartFiles: seq<SourceFile>) returns (unreferenced: seq<Resource>)
    ensures unreferenced == UnreferencedDartFiles(dartFiles)
  {
    var referencedDartFiles := CollectReferencedDartFiles(dartFiles);
    unreferenced := ReportUnmarked(dartFiles, referencedDartFiles);
    UnmarkedIsDeadFiles(dartFiles, dartFiles, 0);
    assert dartFiles[0..] == dartFiles;
  }

  /** Every reported entry is a candidate, named by its base name, other than the entry point and referenced by no other file. */
  lemma {:induction false} DeadFilesSound(candidates: seq<SourceFile>, corpus: seq<SourceFile>, r: Resource)
    requires r in DeadFiles(candidates, corpus)
    ensures exists c :: c in candidates && c.path == r.path
    ensures r.name == BaseName(r.path) && r.name != EntryPoint && !ReferencedByOtherFile(r.name, corpus)
  {
    if r in DartFileVerdict(candidates[0], corpus) {
      assert candidates[0] in candidates;
    } else {
      DeadFilesSound(candidates[1..], corpus, r);
      var c :| c in candidates[1..] && c.path == r.path;
      assert c in candidates;
    }
  }

  /** A candidate file is reported exactly when it is not the entry point and no file at another path references its name. */
  lemma {:induction false} DeadFilesComplete(candidates: seq<SourceFile>, corpus: seq<SourceFile>, k: nat)
    requires k < |candidates|
    ensures var name := BaseName(candidates[k].path);
      Resource(name, candidates[k].path) in DeadFiles(candidates, corpus)
      <==> name != EntryPoint && !ReferencedByOtherFile(name, corpus)
  {
    var f := candidates[k];
    var name := BaseName(f.path);
    if Resource(name, f.path) in DeadFiles(candidates, corpus) {
      DeadFilesSound(candidates, corpus, Resource(name, f.path));
    }
    if k == 0 {
    } else {
      DeadFilesComplete(candidates[1..], corpus, k - 1);
    }
  }

  /** The dead-file verdict for one enumerated file, as the detector states it. */
  lemma DartFileReportedIff(corpus: seq<SourceFile>, k: nat)
    requires k < |corpus|
    ensures var name := BaseName(corpus[k].path);
      Resource(name, corpus[k].path) in UnreferencedDartFiles(corpus)
      <==> name != EntryPoint && !ReferencedByOtherFile(name, corpus)
  {
    DeadFilesComplete(corpus, corpus, k);
  }

  /** `main.dart` is never reported, whatever references it has. */
  lemma EntryPointNeverReported(corpus: seq<SourceFile>)
    ensures forall r :: r in UnreferencedDartFiles(corpus) ==> r.name != "main.dart"
  {
    forall r | r in UnreferencedDartFiles(corpus) ensures r.name != "main.dart" {
      DeadFilesSound(corpus, corpus, r);
    }
  }

  /** A mention that the edit keeps: when file k's base name is unique to its path, the mentioning file is another one. */
  lemma ReferenceSurvivesEdit(corpus: seq<SourceFile>, k: nat, newContent: string)
    requires k < |corpus|
    requires forall g :: g in corpus && BaseName(g.path) == BaseName(corpus[k].path) ==> g.path == corpus[k].path
    requires ReferencedByOtherFile(BaseName(corpus[k].path), corpus)
    ensures ReferencedByOtherFile(BaseName(corpus[k].path), corpus[k := SourceFile(corpus[k].path, newContent)])
  {
    var name := BaseName(corpus[k].path);
    var edited := corpus[k := SourceFile(corpus[k].path, newContent)];
    var c, g :| c in corpus && g in corpus && BaseName(c.path) == name && g.path != c.path && Includes(g.content, name);
    var m :| 0 <= m < |corpus| && corpus[m] == g;
    assert c.path == corpus[k].path;
    assert m != k && edited[m] == g;
    assert edited[k] in edited && g in edited;
  }

  /** A reference after rewriting file k was already there: file k's new text is never the witness. */
  lemma ReferenceExistedBeforeEdit(corpus: seq<SourceFile>, k: nat, newContent: string)
    requires k < |corpus|
    requires forall g :: g in corpus && BaseName(g.path) == BaseName(corpus[k].path) ==> g.path == corpus[k].path
    requires ReferencedByOtherFile(BaseName(corpus[k].path), corpus[k := SourceFile(corpus[k].path, newContent)])
    ensures ReferencedByOtherFile(BaseName(corpus[k].path), corpus)
  {
    var name := BaseName(corpus[k].path);
    var edited := corpus[k := SourceFile(corpus[k].path, newContent)];
    var c, g :| c in edited && g in edited && BaseName(c.path) == name && g.path != c.path && Includes(g.content, name);
    var i :| 0 <= i < |edited| && edited[i] == c;
    var m :| 0 <= m < |edited| && edited[m] == g;
    assert corpus[i].path == c.path && corpus[i] in corpus;
    assert m != k && corpus[m] == g;
  }

  /**
   * A file's own content never counts for its own name: when no other path
   * has the same base name, replacing the file's content leaves its verdict
   * unchanged.
   */
  lemma OwnContentIgnored(corpus: seq<SourceFile>, k: nat, newContent: string)
    requires k < |corpus|
    requires forall g :: g in corpus && BaseName(g.path) == BaseName(corpus[k].path) ==> g.path == corpus[k].path
    ensures var name := BaseName(corpus[k].path);
      var edited := corpus[k := SourceFile(corpus[k].path, newContent)];
      Resource(name, corpus[k].path) in UnreferencedDartFiles(corpus)
      <==> Resource(name, corpus[k].path) in UnreferencedDartFiles(edited)
  {
    var name := BaseName(corpus[k].path);
    var edited := corpus[k := SourceFile(corpus[k].path, newContent)];
    if ReferencedByOtherFile(name, corpus) {
      ReferenceSurvivesEdit(corpus, k, newContent);
    }
    if ReferencedByOtherFile(name, edited) {
      ReferenceExistedBeforeEdit(corpus, k, newContent);
    }
    assert edited[k].path == corpus[k].path;
    DartFileReportedIff(corpus, k);
    DartFileReportedIff(edited, k);
  }

  /**
   * The reference set is keyed by base name: if one of two files that share a
   * base name mentions that name, neither file is reported, even when the
   * mention is in the file's own content.
   */
  lemma SharedNameMentionHidesBoth(corpus: seq<SourceFile>, i: nat, j: nat)
    requires i < |corpus| && j < |corpus|
    requires corpus[i].path != corpus[j].path
    requires BaseName(corpus[i].path) == BaseName(corpus[j].path)
    requires Includes(corpus[i].content, BaseName(corpus[i].path))
    ensures Resource(BaseName(corpus[i].path), corpus[i].path) !in UnreferencedDartFiles(corpus)
    ensures Resource(BaseName(corpus[j].path), corpus[j].path) !in UnreferencedDartFiles(corpus)
  {
    assert corpus[i] in corpus && corpus[j] in corpus;
    assert ReferencedByOtherFile(BaseName(corpus[i].path), corpus);
    DartFileReportedIff(corpus, i);
    DartFileReportedIff(corpus, j);
  }

  /** Two Dart files with the same base name are both reported or both omitted. */
  lemma SameBaseNameSameVerdict(corpus: seq<SourceFile>, i: nat, j: nat)
    requires i < |corpus| && j < |corpus|
    requires BaseName(corpus[i].path) == BaseName(corpus[j].path)
    ensures Resource(BaseName(corpus[i].path), corpus[i].path) in UnreferencedDartFiles(corpus)
        <==> Resource(BaseName(corpus[j].path), corpus[j].path) in UnreferencedDartFiles(corpus)
  {
    DartFileReportedIff(corpus, i);
    DartFileReportedIff(corpus, j);
  }
}
