/** BuildSegmentPath: the file of segment `i` of a recording is the base
    path's stem, an underscore, the segment number i + 1 written with at
    least three digits, and the base path's extension, in the base path's
    directory. */
module SegmentNaming {
  import opened Common
  import opened Paths

  /** The stem used for segment names: the base stem, or "segment" when
      the base has none. */
  function SegmentStem(name: string): (s: string)
    ensures s != []
    ensures Stem(name) != [] ==> s == Stem(name)
  {
    if Stem(name) == [] then "segment" else Stem(name)
  }

  /** The segment number, padded with zeros to three digits. */
  function SegmentNumber(segmentIndex: nat): (s: string)
    ensures |s| >= 3 && AllDigits(s)
  {
    ZeroPadded(segmentIndex + 1, 3)
  }

  function SegmentName(name: string, segmentIndex: nat): string
  {
    var filename := SegmentStem(name) + "_" + SegmentNumber(segmentIndex);
    if Extension(name) != [] then filename + Extension(name) else filename
  }

  function BuildSegmentPath(basePath: Path, segmentIndex: nat): (p: Path)
    ensures p.dir == basePath.dir
  {
    Path(basePath.dir, SegmentName(basePath.name, segmentIndex))
  }

  /** The number in a segment name reads back as the segment index plus
      one, and is never cut to three digits. */
  lemma SegmentNumberValue(segmentIndex: nat)
    ensures DigitsValue(SegmentNumber(segmentIndex)) == segmentIndex + 1
    ensures |SegmentNumber(segmentIndex)| == Max(3, |Decimal(segmentIndex + 1)|)
  {
    ZeroPaddedValue(segmentIndex + 1, 3);
  }

  /** Digits and an underscore hold no period. */
  lemma NumberHasNoDot(segmentIndex: nat)
    ensures NoDot("_" + SegmentNumber(segmentIndex))
  {
    var t := "_" + SegmentNumber(segmentIndex);
    assert forall j :: 1 <= j < |t| ==> t[j] == SegmentNumber(segmentIndex)[j - 1];
  }

  /** A segment keeps the base's extension, and its stem is the segment
      stem, an underscore and the number (a base named ".." aside, whose
      extension std::filesystem leaves empty). */
  lemma SegmentKeepsExtension(name: string, segmentIndex: nat)
    requires name != ".."
    ensures Extension(SegmentName(name, segmentIndex)) == Extension(name)
    ensures Stem(SegmentName(name, segmentIndex)) == SegmentStem(name) + "_" + SegmentNumber(segmentIndex)
  {
    var e := Extension(name);
    var a := SegmentStem(name) + "_" + SegmentNumber(segmentIndex);
    if e == [] {
      UnnumberedStemHasNoExtension(name, segmentIndex);
    } else {
      ExtensionShape(name);
      assert |a| >= 4;
      AppendedExtension(a, e);
    }
  }

  /** Without an extension, the segment name has none either. */
  lemma UnnumberedStemHasNoExtension(name: string, segmentIndex: nat)
    requires name != ".." && Extension(name) == []
    ensures var a := SegmentStem(name) + "_" + SegmentNumber(segmentIndex);
      Extension(a) == [] && Stem(a) == a
  {
    var tail := "_" + SegmentNumber(segmentIndex);
    var a := SegmentStem(name) + "_" + SegmentNumber(segmentIndex);
    assert a == SegmentStem(name) + tail;
    NumberHasNoDot(segmentIndex);
    ExtensionShape(name);
    if Stem(name) == [] {
      assert NoDot("segment");
      AppendedNoDot("segment", tail);
    } else {
      assert name == Stem(name) + [];
      assert SegmentStem(name) == name;
      AppendedNoDot(name, tail);
    }
    assert Extension(a) == [];
    assert Stem(a) == a[..|a|];
  }

  /** Distinct segment indices give distinct paths. */
  lemma SegmentPathInjective(basePath: Path, i: nat, j: nat)
    requires BuildSegmentPath(basePath, i) == BuildSegmentPath(basePath, j)
    ensures i == j
  {
    var s := SegmentStem(basePath.name) + "_";
    var ni, nj := SegmentNumber(i), SegmentNumber(j);
    var e := if Extension(basePath.name) != [] then Extension(basePath.name) else "";
    assert SegmentName(basePath.name, i) == s + ni + e;
    assert SegmentName(basePath.name, j) == s + nj + e;
    assert |ni| == |nj|;
    assert ni == (s + ni + e)[|s|..|s| + |ni|];
    assert nj == (s + nj + e)[|s|..|s| + |nj|];
    ZeroPaddedInjective(i + 1, j + 1, 3);
  }
}
