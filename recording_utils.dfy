/** RecordingUtils: forcing an output extension, finding an output path
    that does not clash with earlier recordings, and converting the
    segments of a recording to MP3 in order. The file system is the set of
    paths that exist. */
module RecordingUtils {
  import opened Common
  import opened Paths
  import opened SegmentNaming

  // ---------------------------------------------------------------------
  // EnsureExtension
  // ---------------------------------------------------------------------

  /** The extension is kept when it already matches, ignoring the case of
      ASCII letters; otherwise it is replaced. */
  function EnsureExtension(path: Path, desiredExtension: string): (r: Path)
    ensures r.dir == path.dir
    ensures Lower(Extension(path.name)) == Lower(desiredExtension) ==> r == path
    ensures r != path ==> r.name == ReplaceExtension(path.name, desiredExtension)
  {
    if Lower(Extension(path.name)) != Lower(desiredExtension)
    then path.(name := ReplaceExtension(path.name, desiredExtension))
    else path
  }

  /** An extension as the callers pass it: a period and at least one more
      character, none of them a period. */
  predicate ProperExtension(e: string)
  {
    |e| >= 2 && e[0] == '.' && NoDot(e[1..])
  }

  /** For a path with a file name, the result has the desired extension (up
      to case), the same stem and the same directory. */
  lemma EnsureExtensionResult(path: Path, desiredExtension: string)
    requires path.name != [] && ProperExtension(desiredExtension)
    ensures var r := EnsureExtension(path, desiredExtension);
      && r.dir == path.dir
      && Lower(Extension(r.name)) == Lower(desiredExtension)
      && Stem(r.name) == Stem(path.name)
  {
    if Lower(Extension(path.name)) != Lower(desiredExtension) {
      ExtensionShape(path.name);
      var s := Stem(path.name);
      assert s != [] by {
        if Extension(path.name) == [] {
          assert s == path.name;
        }
      }
      assert ReplaceExtension(path.name, desiredExtension) == s + desiredExtension;
      AppendedExtension(s, desiredExtension);
    }
  }

  /** Forcing an extension twice is forcing it once. */
  lemma EnsureExtensionIdempotent(path: Path, desiredExtension: string)
    requires path.name != [] && ProperExtension(desiredExtension)
    ensures EnsureExtension(EnsureExtension(path, desiredExtension), desiredExtension)
              == EnsureExtension(path, desiredExtension)
  {
    EnsureExtensionResult(path, desiredExtension);
  }

  // ---------------------------------------------------------------------
  // EnsureUniquePath
  // ---------------------------------------------------------------------

  const MAX_UNIQUE_SUFFIX: nat := 9999

  /** A path is taken when it exists or when the first segment of a
      recording at it exists. */
  predicate Collides(existing: set<Path>, candidate: Path)
  {
    candidate in existing || BuildSegmentPath(candidate, 0) in existing
  }

  /** The i-th alternative: `stem_NNN` plus the extension, in the same
      directory; the stem is not replaced when empty. */
  function Candidate(path: Path, i: nat): Path
  {
    var filename := Stem(path.name) + "_" + ZeroPadded(i, 3);
    Path(path.dir, if Extension(path.name) != [] then filename + Extension(path.name) else filename)
  }

  /** Every alternative from 1 up to, but not including, `i` is taken. */
  predicate TakenBelow(existing: set<Path>, path: Path, i: nat)
  {
    forall j :: 1 <= j < i ==> Collides(existing, Candidate(path, j))
  }

  /** Alternative `i` is free and every earlier one is taken. */
  predicate FirstFree(existing: set<Path>, path: Path, i: nat)
  {
    !Collides(existing, Candidate(path, i)) && TakenBelow(existing, path, i)
  }

  lemma TakenStep(existing: set<Path>, path: Path, i: nat)
    requires TakenBelow(existing, path, i) && Collides(existing, Candidate(path, i))
    ensures TakenBelow(existing, path, i + 1)
  {
    forall j | 1 <= j < i + 1
      ensures Collides(existing, Candidate(path, j))
    {
      if j == i {
        assert Collides(existing, Candidate(path, i));
      }
    }
  }

  /** An empty path, or one that is not taken, is returned as it is;
      otherwise the first free alternative among 1 to 9999, or the path
      itself when all of them are taken. */
  method EnsureUniquePath(path: Path, existing: set<Path>) returns (r: Path)
    ensures path.IsEmpty() || !Collides(existing, path) ==> r == path
    ensures !path.IsEmpty() && Collides(existing, path) ==>
              || (exists i :: 1 <= i <= MAX_UNIQUE_SUFFIX && r == Candidate(path, i) && FirstFree(existing, path, i))
              || (r == path && forall i :: 1 <= i <= MAX_UNIQUE_SUFFIX ==> Collides(existing, Candidate(path, i)))
    ensures r.dir == path.dir
    ensures !path.IsEmpty() ==>
              !Collides(existing, r) || forall i :: 1 <= i <= MAX_UNIQUE_SUFFIX ==> Collides(existing, Candidate(path, i))
  {
    if path.IsEmpty() {
      return path;
    }
    if !Collides(existing, path) {
      return path;
    }
    var i := 1;
    while i <= MAX_UNIQUE_SUFFIX && Collides(existing, Candidate(path, i))
      invariant 1 <= i <= MAX_UNIQUE_SUFFIX + 1
      invariant TakenBelow(existing, path, i)
    {
      TakenStep(existing, path, i);
      i := i + 1;
    }
    if i <= MAX_UNIQUE_SUFFIX {
      assert FirstFree(existing, path, i);
      r := Candidate(path, i);
    } else {
      r := path;
    }
  }

  /** The alternatives keep the directory and the extension (a file name
      ".." aside), and distinct numbers give distinct paths. */
  lemma CandidateShape(path: Path, i: nat, j: nat)
    requires path.name != ".."
    ensures Candidate(path, i).dir == path.dir
    ensures Extension(Candidate(path, i).name) == Extension(path.name)
    ensures Candidate(path, i) == Candidate(path, j) ==> i == j
  {
    var e := Extension(path.name);
    var a := Stem(path.name) + "_" + ZeroPadded(i, 3);
    ExtensionShape(path.name);
    if e == [] {
      var tail := "_" + ZeroPadded(i, 3);
      assert NoDot(tail) by {
        assert forall k :: 1 <= k < |tail| ==> tail[k] == ZeroPadded(i, 3)[k - 1];
      }
      assert a == path.name + tail;
      AppendedNoDot(path.name, tail);
    } else {
      AppendedExtension(a, e);
    }
    if Candidate(path, i) == Candidate(path, j) {
      var s := Stem(path.name) + "_";
      var ni, nj := ZeroPadded(i, 3), ZeroPadded(j, 3);
      assert Candidate(path, i).name == s + ni + e;
      assert Candidate(path, j).name == s + nj + e;
      assert |ni| == |nj|;
      assert ni == (s + ni + e)[|s|..|s| + |ni|];
      assert nj == (s + nj + e)[|s|..|s| + |nj|];
      ZeroPaddedInjective(i, j, 3);
    }
  }

  // ---------------------------------------------------------------------
  // ConvertRecordedSegmentsToMp3
  // ---------------------------------------------------------------------

  datatype SegmentError = MissingSegment(index: nat) | ConversionFailed(index: nat)

  /** The first n conversions, WAV segment to MP3 segment, in order. */
  function SegmentPairs(wavBasePath: Path, mp3BasePath: Path, n: nat): (pairs: seq<(Path, Path)>)
    ensures |pairs| == n
    ensures forall i :: 0 <= i < n ==>
              pairs[i] == (BuildSegmentPath(wavBasePath, i), BuildSegmentPath(mp3BasePath, i))
  {
    if n == 0 then []
    else
      var init := SegmentPairs(wavBasePath, mp3BasePath, n - 1);
      var pairs := init + [(BuildSegmentPath(wavBasePath, n - 1), BuildSegmentPath(mp3BasePath, n - 1))];
      assert forall i :: 0 <= i < n - 1 ==> pairs[i] == init[i];
      pairs
  }

  /** Segments 0 to segmentCount - 1 are converted in order; the first one
      whose WAV file is missing, or whose conversion fails, ends the run.
      `converts` is the outcome of Mp3Converter::ConvertWavToMp3 for a
      pair of paths; `converted` the conversions started. */
  method ConvertRecordedSegmentsToMp3(wavBasePath: Path, mp3BasePath: Path, segmentCount: nat,
                                      existing: set<Path>, converts: (Path, Path) -> bool)
    returns (r: Outcome<SegmentError>, converted: seq<(Path, Path)>)
    ensures converted == SegmentPairs(wavBasePath, mp3BasePath, |converted|)
    ensures |converted| <= segmentCount
    ensures forall i :: 0 <= i < |converted| ==> BuildSegmentPath(wavBasePath, i) in existing
    ensures r.Pass? <==>
              |converted| == segmentCount && forall i :: 0 <= i < segmentCount ==> converts(converted[i].0, converted[i].1)
    ensures r.Fail? && r.error.MissingSegment? ==>
              && r.error.index == |converted| < segmentCount
              && BuildSegmentPath(wavBasePath, r.error.index) !in existing
              && forall i :: 0 <= i < |converted| ==> converts(converted[i].0, converted[i].1)
    ensures r.Fail? && r.error.ConversionFailed? ==>
              && r.error.index + 1 == |converted|
              && !converts(converted[r.error.index].0, converted[r.error.index].1)
              && forall i :: 0 <= i < r.error.index ==> converts(converted[i].0, converted[i].1)
  {
    converted := [];
    if segmentCount == 0 {
      return Pass, converted;
    }
    for i := 0 to segmentCount
      invariant converted == SegmentPairs(wavBasePath, mp3BasePath, i)
      invariant forall k :: 0 <= k < i ==> BuildSegmentPath(wavBasePath, k) in existing
      invariant forall k :: 0 <= k < i ==> converts(converted[k].0, converted[k].1)
    {
      var wavSegment := BuildSegmentPath(wavBasePath, i);
      var mp3Segment := BuildSegmentPath(mp3BasePath, i);
      if wavSegment !in existing {
        return Fail(MissingSegment(i)), converted;
      }
      converted := converted + [(wavSegment, mp3Segment)];
      if !converts(wavSegment, mp3Segment) {
        return Fail(ConversionFailed(i)), converted;
      }
    }
    r := Pass;
  }

  /** No two segments are converted into the same MP3 file. */
  lemma SegmentTargetsDistinct(wavBasePath: Path, mp3BasePath: Path, n: nat, i: nat, j: nat)
    requires i < j < n
    ensures SegmentPairs(wavBasePath, mp3BasePath, n)[i].1 != SegmentPairs(wavBasePath, mp3BasePath, n)[j].1
  {
    if BuildSegmentPath(mp3BasePath, i) == BuildSegmentPath(mp3BasePath, j) {
      SegmentPathInjective(mp3BasePath, i, j);
    }
  }
}
