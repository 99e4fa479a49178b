/**
 * The reference index shared by the detectors: the corpus of Dart source
 * files, the `Resource` pair reported for an unused file, and the scan that
 * collects which candidate keys occur literally in some file's content.
 */
module References {
  import opened Text

  /** One enumerated `.dart` file together with the text read from it. */
  datatype SourceFile = SourceFile(path: string, content: string)

  /** The value reported for an unreferenced file: its base name and its path. */
  datatype Resource = Resource(name: string, path: string)

  /** Some file of the corpus contains `key` as a literal substring. */
  predicate MentionedIn(key: string, corpus: seq<SourceFile>)
  {
    exists f :: f in corpus && Includes(f.content, key)
  }

  /** The candidate keys that some file of the corpus mentions. */
  ghost function ReferencedKeys(keys: seq<string>, corpus: seq<SourceFile>): set<string>
  {
    set k | k in keys && MentionedIn(k, corpus)
  }

  /** A candidate key is in the reference set exactly when some file mentions it. */
  lemma ReferencedKeysMember(keys: seq<string>, corpus: seq<SourceFile>, j: nat)
    requires j < |keys|
    ensures keys[j] in ReferencedKeys(keys, corpus) <==> MentionedIn(keys[j], corpus)
  {
  }

  /** One more file scanned adds exactly the keys that file mentions. */
  lemma ReferencedKeysExtend(keys: seq<string>, corpus: seq<SourceFile>, i: nat)
    requires i < |corpus|
    ensures ReferencedKeys(keys, corpus[..i + 1])
         == ReferencedKeys(keys, corpus[..i]) + ReferencedKeys(keys, [corpus[i]])
  {
    assert corpus[..i + 1] == corpus[..i] + [corpus[i]];
  }

  /** One more key tested against a file adds it exactly when the file contains it. */
  lemma ReferencedKeysExtendKeys(keys: seq<string>, j: nat, f: SourceFile)
    requires j < |keys|
    ensures ReferencedKeys(keys[..j + 1], [f])
         == ReferencedKeys(keys[..j], [f]) + (if Includes(f.content, keys[j]) then {keys[j]} else {})
  {
    assert keys[..j + 1] == keys[..j] + [keys[j]];
  }

  /**
   * The reference set only grows as more of the corpus is scanned, and it
   * never holds anything but candidate keys.
   */
  lemma ReferencedKeysGrow(keys: seq<string>, corpus: seq<SourceFile>, i: nat, j: nat)
    requires i <= j <= |corpus|
    ensures ReferencedKeys(keys, corpus[..i]) <= ReferencedKeys(keys, corpus[..j])
    ensures forall k :: k in ReferencedKeys(keys, corpus[..j]) ==> k in keys
  {
    forall k | k in ReferencedKeys(keys, corpus[..i])
      ensures k in ReferencedKeys(keys, corpus[..j])
    {
      var f :| f in corpus[..i] && Includes(f.content, k);
      assert f in corpus[..j];
    }
  }

  /**
   * The nested scan of the asset and dependency detectors: for every file,
   * for every key, add the key when the file's text includes it.
   */
  method CollectReferencedKeys(keys: seq<string>, corpus: seq<SourceFile>) returns (referenced: set<string>)
    ensures referenced == ReferencedKeys(keys, corpus)
  {
    referenced := {};
    for i := 0 to |corpus|
      invariant referenced == ReferencedKeys(keys, corpus[..i])
    {
      var content := corpus[i].content;
      for j := 0 to |keys|
        invariant referenced == ReferencedKeys(keys, corpus[..i]) + ReferencedKeys(keys[..j], [corpus[i]])
      {
        ReferencedKeysExtendKeys(keys, j, corpus[i]);
        if Includes(content, keys[j]) {
          referenced := referenced + {keys[j]};
        }
      }
      assert keys[..|keys|] == keys;
      ReferencedKeysExtend(keys, corpus, i);
    }
    assert corpus[..|corpus|] == corpus;
  }
}
