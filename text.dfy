/**
 * The two string operations the scanner relies on: JavaScript's
 * `String.prototype.includes` (a literal substring test, no word boundaries)
 * and `path.basename` (the segment after the last '/').
 */
module Text {

  /** `s.includes(pat)`: `pat` occurs as a contiguous block of `s`. */
  predicate Includes(s: string, pat: string)
    decreases |s|
  {
    if |s| < |pat| then false
    else s[..|pat|] == pat || (|s| > |pat| && Includes(s[1..], pat))
  }

  /** The occurrence-at-an-offset reading of `Includes`. */
  ghost predicate OccursAt(s: string, pat: string, i: int)
  {
    0 <= i && i + |pat| <= |s| && s[i..i + |pat|] == pat
  }

  /** `Includes` holds exactly when `pat` occurs at some offset of `s`. */
  lemma {:induction false} IncludesIff(s: string, pat: string)
    ensures Includes(s, pat) <==> exists i :: OccursAt(s, pat, i)
    decreases |s|
  {
    if |s| < |pat| {
    } else if s[..|pat|] == pat {
      assert OccursAt(s, pat, 0);
    } else if |s| > |pat| {
      IncludesIff(s[1..], pat);
      if Includes(s[1..], pat) {
        var i :| OccursAt(s[1..], pat, i);
        assert s[1..][i..i + |pat|] == s[i + 1..i + 1 + |pat|];
        assert OccursAt(s, pat, i + 1);
      }
      if exists i :: OccursAt(s, pat, i) {
        var i :| OccursAt(s, pat, i);
        assert i != 0;
        assert s[1..][i - 1..i - 1 + |pat|] == s[i..i + |pat|];
        assert OccursAt(s[1..], pat, i - 1);
      }
    } else {
      assert s[0..|pat|] == s[..|pat|];
    }
  }

  /** A literal embedded in a larger text is found, whatever surrounds it. */
  lemma IncludesEmbedded(before: string, pat: string, after: string)
    ensures Includes(before + pat + after, pat)
  {
    var s := before + pat + after;
    assert s[|before|..|before| + |pat|] == pat;
    assert OccursAt(s, pat, |before|);
    IncludesIff(s, pat);
  }

  /**
   * `path.basename(path)`: the final segment of a '/'-separated path, i.e.
   * the longest suffix without a '/'.
   */
  function BaseName(path: string): string
  {
    if path == [] then []
    else if path[|path| - 1] == '/' then []
    else BaseName(path[..|path| - 1]) + [path[|path| - 1]]
  }

  /**
   * The base name is a suffix of the path, holds no separator, and is either
   * the whole path or preceded by a separator.
   */
  lemma {:induction false} BaseNameIsLastSegment(path: string)
    ensures '/' !in BaseName(path)
    ensures |BaseName(path)| <= |path| && path[|path| - |BaseName(path)|..] == BaseName(path)
    ensures |BaseName(path)| < |path| ==> path[|path| - |BaseName(path)| - 1] == '/'
    decreases |path|
  {
    if path != [] && path[|path| - 1] != '/' {
      var init := path[..|path| - 1];
      var last := path[|path| - 1];
      assert path == init + [last];
      BaseNameIsLastSegment(init);
      var n := BaseName(init);
      assert BaseName(path) == n + [last];
      assert path[|path| - |n| - 1..] == init[|init| - |n|..] + [last];
      if |n| < |init| {
        assert path[|path| - |n| - 2] == init[|init| - |n| - 1];
      }
    }
  }

  /** The base name of `dir/name` is `name` when `name` has no separator. */
  lemma {:induction false} BaseNameOfJoin(dir: string, name: string)
    requires '/' !in name
    ensures BaseName(dir + "/" + name) == name
    decreases |name|
  {
    var p := dir + "/" + name;
    if name == [] {
      assert p[|p| - 1] == '/';
    } else {
      var init := name[..|name| - 1];
      assert p[..|p| - 1] == dir + "/" + init;
      assert '/' !in init by {
        forall k | 0 <= k < |init| ensures init[k] != '/' {
          assert init[k] == name[k];
        }
      }
      BaseNameOfJoin(dir, init);
      assert name == init + [name[|name| - 1]];
    }
  }

  /** Taking the base name twice changes nothing. */
  lemma BaseNameIdempotent(path: string)
    ensures BaseName(BaseName(path)) == BaseName(path)
  {
    BaseNameIsLastSegment(path);
    BaseNameOfPlain(BaseName(path));
  }

  /** A string without a separator is its own base name. */
  lemma {:induction false} BaseNameOfPlain(name: string)
    requires '/' !in name
    ensures BaseName(name) == name
    decreases |name|
  {
    if name != [] {
      var init := name[..|name| - 1];
      assert '/' !in init by {
        forall k | 0 <= k < |init| ensures init[k] != '/' {
          assert init[k] == name[k];
        }
      }
      BaseNameOfPlain(init);
      assert name == init + [name[|name| - 1]];
    }
  }
}
