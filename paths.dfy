/** The parts of std::filesystem::path the recorder relies on: a path is
    its parent directory and its file name, and the file name splits into
    a stem and an extension by the rules of [fs.path.decompose]. */
module Paths {
  import opened Common

  /** A path: `dir` is parent_path(), `name` is filename(). `dir / name`
      rebuilds it. */
  datatype Path = Path(dir: string, name: string)
  {
    /** path::empty(): no directory and no file name. */
    predicate IsEmpty()
    {
      dir == [] && name == []
    }
  }

  predicate NoDot(s: string)
  {
    forall j :: 0 <= j < |s| ==> s[j] != '.'
  }

  /** The index of the rightmost period, if there is one. */
  function LastDot(s: string): (k: Option<nat>)
    ensures k.None? <==> NoDot(s)
    ensures k.Some? ==> k.value < |s| && s[k.value] == '.' && NoDot(s[k.value + 1..])
  {
    if |s| == 0 then None
    else if s[|s| - 1] == '.' then Some(|s| - 1)
    else
      var init := s[..|s| - 1];
      var k := LastDot(init);
      assert forall j :: 0 <= j < |init| ==> init[j] == s[j];
      k
  }

  /** extension(): from the rightmost period on, except that "." and ".."
      have none and a period that starts the name does not count. */
  function Extension(name: string): (e: string)
  {
    if name == ".." then ""
    else match LastDot(name) {
      case None => ""
      case Some(k) => if k == 0 then "" else name[k..]
    }
  }

  /** stem(): the file name without its extension. */
  function Stem(name: string): (s: string)
  {
    name[..|name| - |Extension(name)|]
  }

  /** replace_extension(r): the extension is removed, a period is added
      unless `r` is empty or already starts with one, and `r` follows. */
  function ReplaceExtension(name: string, replacement: string): (n: string)
  {
    Stem(name)
      + (if replacement == [] || replacement[0] == '.' then "" else ".")
      + replacement
  }

  /** An extension is empty or a period followed by no other period, and
      the name is its stem followed by it. */
  lemma ExtensionShape(name: string)
    ensures var e := Extension(name);
      && name == Stem(name) + e
      && (e == [] || (e[0] == '.' && NoDot(e[1..])))
      && (e != [] ==> Stem(name) != [])
  {
    var e := Extension(name);
    if e != [] {
      var k := LastDot(name).value;
      assert e[1..] == name[k + 1..];
    }
  }

  /** Replacing the extension of a name that has a stem by an extension,
      written with or without its period, keeps the stem and gives exactly
      that extension, with its period. */
  lemma ReplaceExtensionShape(name: string, replacement: string)
    requires Stem(name) != [] && replacement != [] && replacement != "."
    requires NoDot(if replacement[0] == '.' then replacement[1..] else replacement)
    ensures var n := ReplaceExtension(name, replacement);
      && Stem(n) == Stem(name)
      && Extension(n) == (if replacement[0] == '.' then replacement else "." + replacement)
  {
    var stem := Stem(name);
    if replacement[0] == '.' {
      assert ReplaceExtension(name, replacement) == stem + replacement;
      AppendedExtension(stem, replacement);
    } else {
      var e := "." + replacement;
      assert e[1..] == replacement;
      assert ReplaceExtension(name, replacement) == stem + e;
      AppendedExtension(stem, e);
    }
  }

  /** The rightmost period of `a + b` is that of `b` when `b` has one, and
      that of `a` otherwise. */
  lemma {:induction false} LastDotAppend(a: string, b: string)
    ensures NoDot(b) ==> LastDot(a + b) == LastDot(a)
    ensures !NoDot(b) ==> LastDot(a + b) == Some(|a| + LastDot(b).value)
    decreases |b|
  {
    if |b| == 0 {
      assert a + b == a;
    } else {
      var ab := a + b;
      var b' := b[..|b| - 1];
      assert ab[..|ab| - 1] == a + b';
      assert ab[|ab| - 1] == b[|b| - 1];
      if b[|b| - 1] == '.' {
        assert LastDot(ab) == Some(|ab| - 1);
        assert LastDot(b) == Some(|b| - 1);
      } else {
        LastDotAppend(a, b');
        LastDotDropLast(ab);
        LastDotDropLast(b);
      }
    }
  }

  /** Dropping a last character that is not a period keeps the rightmost
      period, and whether there is one. */
  lemma LastDotDropLast(s: string)
    requires |s| > 0 && s[|s| - 1] != '.'
    ensures LastDot(s) == LastDot(s[..|s| - 1])
    ensures NoDot(s) <==> NoDot(s[..|s| - 1])
  {
    assert forall j :: 0 <= j < |s| - 1 ==> s[..|s| - 1][j] == s[j];
  }

  /** Appending a proper extension to a non-empty name gives a name with
      exactly that extension and with the old name as its stem. */
  lemma AppendedExtension(a: string, e: string)
    requires a != [] && a + e != ".." && |e| >= 1 && e[0] == '.' && NoDot(e[1..])
    ensures Extension(a + e) == e && Stem(a + e) == a
  {
    LastDotAppend(a, e);
    LastDotAppend(".", e[1..]);
    assert "." + e[1..] == e;
    assert (a + e)[|a|..] == e;
  }

  /** Appending text without a period leaves the extension of a name
      (other than "..") empty when it was empty. */
  lemma AppendedNoDot(a: string, b: string)
    requires a != ".." && Extension(a) == [] && NoDot(b)
    ensures Extension(a + b) == []
  {
    LastDotAppend(a, b);
    if LastDot(a).Some? && LastDot(a).value != 0 {
      assert false;
    }
  }
}
