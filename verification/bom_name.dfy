/**
 * The report's file name: `get_output_file_name` (ECUBOMDelta.py:140-144).
 *
 * Each BOM is tagged by the last `_`-separated field of its file name without
 * extension, and the report goes to `Result/BOM_Differences_<tag1>_vs_<tag2>.xlsx`.
 */
module BomReportName {
  import opened Optional

  /** OUTPUT_DIR (ECUBOMDelta.py:47). */
  const OutputDir: string := "Result"
  const Prefix: string := "BOM_Differences_"
  const Separator: string := "_vs_"
  const Extension: string := ".xlsx"

  /** `s.split(c)[-1]`: what follows the last `c`, or all of `s` when there is none. */
  function AfterLast(s: string, c: char): (t: string)
    ensures |t| <= |s| && t == s[|s| - |t|..]
    ensures c !in t
    ensures |t| < |s| ==> s[|s| - |t| - 1] == c
  {
    if |s| == 0 then []
    else if s[|s| - 1] == c then []
    else
      var t := AfterLast(s[..|s| - 1], c);
      assert s[..|s| - 1][|s| - 1 - |t|..] + [s[|s| - 1]] == s[|s| - |t| - 1..];
      t + [s[|s| - 1]]
  }

  /** `s.split(c)[0]`: what precedes the first `c`, or all of `s` when there is none. */
  function BeforeFirst(s: string, c: char): (t: string)
    ensures |t| <= |s| && t == s[..|t|]
    ensures c !in t
    ensures |t| < |s| ==> s[|t|] == c
  {
    if |s| == 0 then []
    else if s[0] == c then []
    else
      var t := BeforeFirst(s[1..], c);
      [s[0]] + t
  }

  /** `os.path.basename` with `/` as the separator. */
  function BaseName(path: string): string {
    AfterLast(path, '/')
  }

  /** Characters of a part of `s` are characters of `s`. */
  lemma SliceChars(s: string, i: nat, j: nat)
    requires i <= j <= |s|
    ensures forall x :: x in s[i..j] ==> x in s
  {
    forall x | x in s[i..j] ensures x in s {
      var k :| 0 <= k < j - i && s[i..j][k] == x;
      assert s[i + k] == x;
    }
  }

  /** Line 142/143: the tag of one BOM file. */
  function BomTag(path: string): (tag: string)
    ensures '/' !in tag && '.' !in tag && '_' !in tag
  {
    var base := BaseName(path);
    var stem := BeforeFirst(base, '.');
    SliceChars(base, 0, |stem|);
    var tag := AfterLast(stem, '_');
    SliceChars(stem, |stem| - |tag|, |stem|);
    tag
  }

  /** `BOM_Differences_{a}_vs_{b}.xlsx` inside OUTPUT_DIR: an Excel file name
      under `Result/` that starts with the report prefix. */
  function ReportName(a: string, b: string): (name: string)
    ensures |name| == |OutputDir| + 1 + |Prefix| + |a| + |Separator| + |b| + |Extension|
    ensures name[..|OutputDir| + 1 + |Prefix|] == OutputDir + "/" + Prefix
    ensures name[|name| - |Extension|..] == Extension
  {
    OutputDir + "/" + Prefix + a + Separator + b + Extension
  }

  /** Line 144: `os.path.join(OUTPUT_DIR, f'BOM_Differences_{a}_vs_{b}.xlsx')`.
      The name determines both tags: parsing it gives them back. */
  function OutputFileName(file1: string, file2: string): (name: string)
    ensures ParseOutputName(name) == Some((BomTag(file1), BomTag(file2)))
  {
    ReportNameRoundTrip(BomTag(file1), BomTag(file2));
    ReportName(BomTag(file1), BomTag(file2))
  }

  /** Reads the two tags back out of a report name. */
  function ParseOutputName(name: string): (tags: Option<(string, string)>)
    ensures tags.Some? ==> '_' !in tags.value.0
  {
    var head := OutputDir + "/" + Prefix;
    if |name| < |head| + |Extension| || name[..|head|] != head || name[|name| - |Extension|..] != Extension then None
    else
      var middle := name[|head|..|name| - |Extension|];
      var a := BeforeFirst(middle, '_');
      var rest := middle[|a|..];
      if |rest| < |Separator| || rest[..|Separator|] != Separator then None
      else Some((a, rest[|Separator|..]))
  }

  /** A tag without `_` is read back from the name it is put in. */
  lemma ReportNameRoundTrip(a: string, b: string)
    requires '_' !in a
    ensures ParseOutputName(ReportName(a, b)) == Some((a, b))
  {
    var head := OutputDir + "/" + Prefix;
    var name := ReportName(a, b);
    var middle := a + (Separator + b);
    assert name == head + middle + Extension;
    assert name[..|head|] == head;
    assert name[|name| - |Extension|..] == Extension;
    assert name[|head|..|name| - |Extension|] == middle;
    BeforeFirstAt(a, Separator + b, '_');
    assert BeforeFirst(middle, '_') == a;
    assert middle[|a|..] == Separator + b;
    assert (Separator + b)[..|Separator|] == Separator;
    assert (Separator + b)[|Separator|..] == b;
  }

  /** Splitting `a + rest` at the first `c`, where `a` has none and `rest` starts with one. */
  lemma {:induction false} BeforeFirstAt(a: string, rest: string, c: char)
    requires c !in a && |rest| > 0 && rest[0] == c
    ensures BeforeFirst(a + rest, c) == a
  {
    if |a| > 0 {
      assert (a + rest)[0] == a[0];
      assert (a + rest)[1..] == a[1..] + rest;
      BeforeFirstAt(a[1..], rest, c);
    } else {
      assert a + rest == rest;
    }
  }

  /** A report name lies directly inside OUTPUT_DIR when neither tag holds a `/`. */
  lemma ReportNameInOutputDir(a: string, b: string)
    requires '/' !in a && '/' !in b
    ensures var name := ReportName(a, b);
      name[..|OutputDir| + 1] == OutputDir + "/" && '/' !in name[|OutputDir| + 1..]
  {
    var tail := Prefix + a + Separator + b + Extension;
    var name := ReportName(a, b);
    assert name == (OutputDir + "/") + tail;
    assert '/' !in Prefix && '/' !in Separator && '/' !in Extension;
  }

  /** Different tag pairs never share a report name, and the report always lies
      directly inside OUTPUT_DIR whatever the two file paths are. */
  lemma OutputNameShape(file1: string, file2: string, other1: string, other2: string)
    ensures OutputFileName(file1, file2) == OutputFileName(other1, other2) ==>
      BomTag(file1) == BomTag(other1) && BomTag(file2) == BomTag(other2)
    ensures var name := OutputFileName(file1, file2);
      name[..|OutputDir| + 1] == OutputDir + "/" && '/' !in name[|OutputDir| + 1..]
  {
    assert ParseOutputName(OutputFileName(file1, file2)) == Some((BomTag(file1), BomTag(file2)));
    assert ParseOutputName(OutputFileName(other1, other2)) == Some((BomTag(other1), BomTag(other2)));
    ReportNameInOutputDir(BomTag(file1), BomTag(file2));
  }
}
