/**
 * The result formatter: the lines written to the output channel, one
 * category after another, each with a count header between separator lines
 * and a numbered body, and a closing line when nothing was found.
 */
module Formatter {
  import opened References

  const Separator: string := "---------------------------------"
  /** The "\n" line written before the second and third categories. */
  const Break: string := "\n"
  /** The closing line, "\n" followed by the summary text. */
  const NothingFound: string := Break + "No unreferenced assets, files or dependencies !"

  function DigitChar(d: nat): char
    requires d < 10
  {
    "0123456789"[d]
  }

  predicate IsDigit(c: char)
  {
    '0' <= c <= '9'
  }

  /** The decimal rendering of a count, as a template literal gives it. */
  function Decimal(n: nat): string
    decreases n
  {
    if n < 10 then [DigitChar(n)] else Decimal(n / 10) + [DigitChar(n % 10)]
  }

  /** Reading a string of decimal digits back as a number. */
  function ParseDecimal(s: string): nat
  {
    if s == [] then 0
    else ParseDecimal(s[..|s| - 1]) * 10 + (if IsDigit(s[|s| - 1]) then (s[|s| - 1] - '0') as nat else 0)
  }

  /** A rendered count is a non-empty string of digits without a leading zero. */
  lemma {:induction false} DecimalShape(n: nat)
    ensures |Decimal(n)| >= 1
    ensures forall k :: 0 <= k < |Decimal(n)| ==> IsDigit(Decimal(n)[k])
    ensures Decimal(n)[0] == '0' <==> n == 0
    decreases n
  {
    if n >= 10 {
      DecimalShape(n / 10);
    }
  }

  /** Rendering a count and reading it back gives the count. */
  lemma {:induction false} DecimalRoundTrip(n: nat)
    ensures ParseDecimal(Decimal(n)) == n
    decreases n
  {
    if n >= 10 {
      DecimalRoundTrip(n / 10);
      assert Decimal(n)[..|Decimal(n)| - 1] == Decimal(n / 10);
    }
  }

  /** Different counts render differently. */
  lemma DecimalInjective(m: nat, n: nat)
    requires Decimal(m) == Decimal(n)
    ensures m == n
  {
    DecimalRoundTrip(m);
    DecimalRoundTrip(n);
  }

  /** The `${count} unreferenced <category>` line. */
  function Header(count: nat, category: string): string
  {
    Decimal(count) + " unreferenced " + category
  }

  /** The header written for an empty category is the general header with count 0. */
  lemma HeaderOfZero(category: string)
    ensures Header(0, category) == "0 unreferenced " + category
  {
    assert DigitChar(0) == '0';
  }

  /** The body of a category: one "i. item" line per item, counting from 1. */
  function Numbered(items: seq<string>): seq<string>
  {
    seq(|items|, i requires 0 <= i < |items| => Decimal(i + 1) + ". " + items[i])
  }

  /** The paths of the reported files, which is what the body lists for assets and Dart files. */
  function Paths(resources: seq<Resource>): seq<string>
  {
    seq(|resources|, i requires 0 <= i < |resources| => resources[i].path)
  }

  /**
   * One category: a "\n" line unless it is the first category, the header
   * between two separators, then the numbered body.
   */
  function Section(leadingBreak: bool, category: string, items: seq<string>): seq<string>
  {
    (if leadingBreak then [Break] else []) + [Separator, Header(|items|, category), Separator] + Numbered(items)
  }

  /** Everything the formatter writes, in order. */
  function Report(assets: seq<Resource>, dependencies: seq<string>, dartFiles: seq<Resource>): seq<string>
  {
    Section(false, "assets", Paths(assets))
      + Section(true, "dependencies", dependencies)
      + Section(true, "dart files", Paths(dartFiles))
      + (if assets == [] && dependencies == [] && dartFiles == [] then [NothingFound] else [])
  }

  /** A line that starts with a rendered count (a header or a numbered line) is not the closing line. */
  lemma CountedLineIsNotNothingFound(n: nat, rest: string)
    ensures Decimal(n) + rest != NothingFound
  {
    DecimalShape(n);
    assert (Decimal(n) + rest)[0] == Decimal(n)[0];
  }

  /** No numbered line equals the closing line. */
  lemma NumberedAvoidsNothingFound(items: seq<string>)
    ensures NothingFound !in Numbered(items)
  {
    forall i | 0 <= i < |items| ensures Numbered(items)[i] != NothingFound {
      assert Numbered(items)[i] == Decimal(i + 1) + (". " + items[i]);
      CountedLineIsNotNothingFound(i + 1, ". " + items[i]);
    }
  }

  /** No line of a category equals the closing line. */
  lemma SectionAvoidsNothingFound(leadingBreak: bool, category: string, items: seq<string>)
    ensures NothingFound !in Section(leadingBreak, category, items)
  {
    var opening: seq<string> := if leadingBreak then [Break] else [];
    var header := [Separator, Header(|items|, category), Separator];
    assert Section(leadingBreak, category, items) == opening + header + Numbered(items);
    assert |Break| != |NothingFound|;
    assert Separator[0] == '-' && NothingFound[0] == '\n';
    assert Header(|items|, category) == Decimal(|items|) + (" unreferenced " + category);
    CountedLineIsNotNothingFound(|items|, " unreferenced " + category);
    NumberedAvoidsNothingFound(items);
  }

  /** The closing line is written exactly when all three lists are empty. */
  lemma NothingFoundIffAllEmpty(assets: seq<Resource>, dependencies: seq<string>, dartFiles: seq<Resource>)
    ensures NothingFound in Report(assets, dependencies, dartFiles)
        <==> assets == [] && dependencies == [] && dartFiles == []
  {
    SectionAvoidsNothingFound(false, "assets", Paths(assets));
    SectionAvoidsNothingFound(true, "dependencies", dependencies);
    SectionAvoidsNothingFound(true, "dart files", Paths(dartFiles));
  }

  /** Where each line of a category lands: the header between two separators, then item i as "i+1. item". */
  lemma SectionLayout(leadingBreak: bool, category: string, items: seq<string>)
    ensures var s := Section(leadingBreak, category, items);
      var o := if leadingBreak then 1 else 0;
      && |s| == o + 3 + |items|
      && (leadingBreak ==> s[0] == Break)
      && s[o] == Separator && s[o + 1] == Header(|items|, category) && s[o + 2] == Separator
      && forall i :: 0 <= i < |items| ==> s[o + 3 + i] == Decimal(i + 1) + ". " + items[i]
  {
  }

  /** Numbering one more item appends its "i+1. item" line. */
  lemma NumberedExtend(items: seq<string>, i: nat)
    requires i < |items|
    ensures Numbered(items[..i + 1]) == Numbered(items[..i]) + [Decimal(i + 1) + ". " + items[i]]
  {
  }

  /** Appends the numbered body of one category to `lines`, item by item. */
  method AppendNumbered(lines: seq<string>, items: seq<string>) returns (result: seq<string>)
    ensures result == lines + Numbered(items)
  {
    result := lines;
    for index := 0 to |items|
      invariant result == lines + Numbered(items[..index])
    {
      NumberedExtend(items, index);
      result := result + [Decimal(index + 1) + ". " + items[index]];
    }
    assert items[..|items|] == items;
  }

  /** One `if (items.length !== 0) { ... } else { ... }` block of the formatter. */
  method AppendCategory(lines: seq<string>, leadingBreak: bool, category: string, items: seq<string>)
    returns (result: seq<string>)
    ensures result == lines + Section(leadingBreak, category, items)
  {
    result := lines;
    if leadingBreak {
      result := result + [Break];
    }
    ghost var opening := result;
    if |items| != 0 {
      result := result + [Separator];
      result := result + [Decimal(|items|) + " unreferenced " + category];
      result := result + [Separator];
      assert result == opening + [Separator, Header(|items|, category), Separator];
      result := AppendNumbered(result, items);
    } else {
      result := result + [Separator];
      result := result + ["0 unreferenced " + category];
      result := result + [Separator];
      HeaderOfZero(category);
      assert result == opening + [Separator, Header(|items|, category), Separator] + Numbered(items);
    }
  }

  /** The formatter, written line by line as the output channel receives them. */
  method DisplayResults(unreferencedAssets: seq<Resource>, unreferencedDependencies: seq<string>,
                        unreferencedDartFiles: seq<Resource>) returns (lines: seq<string>)
    ensures lines == Report(unreferencedAssets, unreferencedDependencies, unreferencedDartFiles)
  {
    ghost var assets := Section(false, "assets", Paths(unreferencedAssets));
    ghost var dependencies := Section(true, "dependencies", unreferencedDependencies);
    ghost var dartFiles := Section(true, "dart files", Paths(unreferencedDartFiles));
    lines := AppendCategory([], false, "assets", Paths(unreferencedAssets));
    assert lines == assets;
    lines := AppendCategory(lines, true, "dependencies", unreferencedDependencies);
    assert lines == assets + dependencies;
    lines := AppendCategory(lines, true, "dart files", Paths(unreferencedDartFiles));
    assert lines == assets + dependencies + dartFiles;
    if |unreferencedDartFiles| == 0 && |unreferencedAssets| == 0 && |unreferencedDependencies| == 0 {
      lines := lines + [NothingFound];
    }
  }
}
