/**
 * The POSIX path helpers the conversion task relies on: `os.path.isabs`,
 * `os.path.join`, `os.path.basename`, `os.path.splitext`, and the substring
 * test `sub in s`.  Paths are strings and `/` is the only separator.
 */
module PosixPath {
  import opened Wrappers

  /** `os.path.isabs`: the path starts with a slash. */
  predicate IsAbs(p: string)
  {
    |p| > 0 && p[0] == '/'
  }

  /**
   * `os.path.join(a, b)`: an absolute `b` replaces `a`; otherwise `b` is
   * appended, with a slash in between unless `a` is empty or already ends
   * with one.
   */
  function Join(a: string, b: string): (r: string)
    ensures IsAbs(b) ==> r == b
    ensures !IsAbs(b) ==> |a| + |b| <= |r| && a <= r && r[|r| - |b|..] == b
    ensures !IsAbs(b) && a != [] && a[|a| - 1] != '/' ==> r == a + "/" + b
    ensures !IsAbs(b) && (a == [] || a[|a| - 1] == '/') ==> r == a + b
  {
    if IsAbs(b) then b
    else if a == [] || a[|a| - 1] == '/' then
      assert (a + b)[|a|..] == b;
      a + b
    else
      assert (a + "/" + b)[|a| + 1..] == b;
      a + "/" + b
  }

  /** `os.path.join(a, b, c)`, which joins from left to right. */
  function Join3(a: string, b: string, c: string): (r: string)
    ensures IsAbs(c) ==> r == c
    ensures !IsAbs(c) && IsAbs(b) ==> b <= r && |c| <= |r| && r[|r| - |c|..] == c
    ensures !IsAbs(c) && !IsAbs(b) ==> a <= r && |c| <= |r| && r[|r| - |c|..] == c
  {
    Join(Join(a, b), c)
  }

  /** `sub` occurs in `s` starting at position `i`. */
  predicate OccursAt(s: string, sub: string, i: int)
  {
    0 <= i && i + |sub| <= |s| && s[i..i + |sub|] == sub
  }

  /** Occurrences in `s[1..]` are the occurrences in `s` after position 0, shifted by one. */
  lemma OccursAtShift(s: string, sub: string)
    requires |s| > 0
    ensures forall i :: 1 <= i ==> (OccursAt(s, sub, i) <==> OccursAt(s[1..], sub, i - 1))
  {
    forall i | 1 <= i
      ensures OccursAt(s, sub, i) <==> OccursAt(s[1..], sub, i - 1)
    {
      if i + |sub| <= |s| {
        var here, there := s[i..i + |sub|], s[1..][i - 1..i - 1 + |sub|];
        assert forall k :: 0 <= k < |sub| ==> here[k] == there[k];
        assert here == there;
      }
    }
  }

  /** `sub in s` on strings: `sub` occurs somewhere in `s`. */
  function Contains(s: string, sub: string): (r: bool)
    ensures r <==> exists i :: OccursAt(s, sub, i)
    decreases |s|
  {
    if |s| < |sub| then false
    else if s[..|sub|] == sub then
      assert OccursAt(s, sub, 0);
      true
    else
      OccursAtShift(s, sub);
      var r := Contains(s[1..], sub);
      assert r ==> exists i :: OccursAt(s, sub, i) by {
        if r {
          var i :| OccursAt(s[1..], sub, i);
          assert OccursAt(s, sub, i + 1);
        }
      }
      r
  }

  /**
   * `os.path.basename`: what follows the last slash.  It is the longest
   * suffix of `p` without a slash.
   */
  function Basename(p: string): (b: string)
    ensures '/' !in b
    ensures |b| <= |p| && b == p[|p| - |b|..]
    ensures |b| < |p| ==> p[|p| - |b| - 1] == '/'
  {
    if p == [] || p[|p| - 1] == '/' then []
    else Basename(p[..|p| - 1]) + [p[|p| - 1]]
  }

  /** A name without slashes is its own base name. */
  lemma {:induction false} BasenameOfName(name: string)
    requires '/' !in name
    ensures Basename(name) == name
  {
    if name != [] {
      BasenameOfName(name[..|name| - 1]);
    }
  }

  /** The base name is what follows the last slash. */
  lemma {:induction false} BasenameAfterSlash(dir: string, name: string)
    requires '/' !in name
    ensures Basename(dir + "/" + name) == name
  {
    var p := dir + "/" + name;
    if name != [] {
      var init := name[..|name| - 1];
      assert p[..|p| - 1] == dir + "/" + init;
      BasenameAfterSlash(dir, init);
      assert name == init + [name[|name| - 1]];
    }
  }

  /** Python's `s.rfind(c)`: the position of the last `c`, if any. */
  function LastIndexOf(s: string, c: char): (r: Option<nat>)
    ensures r.None? <==> c !in s
    ensures r.Some? ==> r.value < |s| && s[r.value] == c && c !in s[r.value + 1..]
  {
    if s == [] then None
    else if s[|s| - 1] == c then Some(|s| - 1)
    else
      var r := LastIndexOf(s[..|s| - 1], c);
      assert s == s[..|s| - 1] + [s[|s| - 1]];
      if r.Some? then assert s[r.value + 1..] == s[..|s| - 1][r.value + 1..] + [s[|s| - 1]]; r else r
  }

  /**
   * A file name has an extension when some dot in it follows a character
   * other than a dot; leading dots (as in `.bashrc`) do not start one.
   */
  ghost predicate HasExtension(name: string)
  {
    exists j, d :: 0 <= j < d < |name| && name[j] != '.' && name[d] == '.'
  }

  /** With `d` the last dot of a name, the name has an extension exactly when a non-dot precedes `d`. */
  lemma LastDotDecidesExtension(name: string, d: nat)
    requires LastIndexOf(name, '.') == Some(d)
    ensures HasExtension(name) <==> exists j :: 0 <= j < d && name[j] != '.'
  {
    if HasExtension(name) {
      var j, d' :| 0 <= j < d' < |name| && name[j] != '.' && name[d'] == '.';
      assert 0 <= j < d && name[j] != '.';
    }
  }

  /** A name without dots has no extension. */
  lemma NoDotNoExtension(name: string)
    requires '.' !in name
    ensures !HasExtension(name)
  {
  }

  /** `splitext` of a file name that holds no slash. */
  function SplitName(name: string): (parts: (string, string))
    ensures parts.0 + parts.1 == name
    ensures parts.1 == [] || (parts.1[0] == '.' && '.' !in parts.1[1..])
    ensures parts.1 == [] <==> !HasExtension(name)
  {
    match LastIndexOf(name, '.')
    case None =>
      NoDotNoExtension(name);
      (name, [])
    case Some(d) =>
      LastDotDecidesExtension(name, d);
      if exists j :: 0 <= j < d && name[j] != '.' then
        assert name[..d] + name[d..] == name;
        (name[..d], name[d..])
      else
        (name, [])
  }

  /** Re-attaching the directory part to a split file name gives back the path. */
  lemma SuffixSplit(p: string, dir: string, name: string, root: string, ext: string)
    requires |name| <= |p| && name == p[|p| - |name|..] && dir == p[..|p| - |name|]
    requires root + ext == name && '/' !in name
    ensures (dir + root) + ext == p
    ensures '/' !in ext
  {
    assert p == dir + name;
    assert ext == name[|root|..];
  }

  /**
   * `os.path.splitext`: splits off the last extension of the file name part.
   * The two parts put back together give the path; the extension is empty or
   * a dot followed by neither dot nor slash; it is empty exactly when the
   * file name has no extension.
   */
  function SplitExt(p: string): (parts: (string, string))
    ensures parts.0 + parts.1 == p
    ensures parts.1 == [] || (parts.1[0] == '.' && '.' !in parts.1[1..] && '/' !in parts.1)
    ensures parts.1 == [] <==> !HasExtension(Basename(p))
    ensures |parts.1| <= |Basename(p)|
  {
    var name := Basename(p);
    var dir := p[..|p| - |name|];
    var split := SplitName(name);
    SuffixSplit(p, dir, name, split.0, split.1);
    (dir + split.0, split.1)
  }

  /** Appending `.pdf` to the root of a slash-free name gives a slash-free name ending in `.pdf`. */
  lemma ReplaceExtension(root: string, ext: string, name: string)
    requires root + ext == name && '/' !in name
    ensures '/' !in root + ".pdf"
    ensures (root + ".pdf")[..|root|] == root && (root + ".pdf")[|root|..] == ".pdf"
  {
    assert root == name[..|root|];
  }

  /**
   * The PDF file name derived from an input path: the base name with its
   * last extension replaced by `.pdf`.
   */
  function PdfFilename(p: string): (r: string)
    ensures |r| >= 4 && r[|r| - 4..] == ".pdf"
    ensures '/' !in r
    ensures r[..|r| - 4] + SplitExt(Basename(p)).1 == Basename(p)
  {
    var root := SplitExt(Basename(p)).0;
    ReplaceExtension(root, SplitExt(Basename(p)).1, Basename(p));
    root + ".pdf"
  }

  /** A name without extension keeps its whole base name, leading dots included. */
  lemma PdfFilenameWithoutExtension(p: string)
    requires !HasExtension(Basename(p))
    ensures PdfFilename(p) == Basename(p) + ".pdf"
  {
    BasenameOfName(Basename(p));
  }

  /** `splitext` of a path whose last component is `name` only looks at `name`. */
  lemma SplitExtOfName(name: string)
    requires '/' !in name
    ensures SplitExt(name).0 == SplitName(name).0
    ensures SplitExt(name).1 == SplitName(name).1
  {
    BasenameOfName(name);
    assert name[..|name| - |Basename(name)|] == [];
  }

  /** The PDF name of `dir/name` depends on `name` alone. */
  lemma PdfFilenameInDirectory(dir: string, name: string)
    requires '/' !in name
    ensures PdfFilename(dir + "/" + name) == SplitName(name).0 + ".pdf"
  {
    BasenameAfterSlash(dir, name);
    SplitExtOfName(name);
  }

  /** Only the last of two extensions is split off. */
  lemma SplitNameDoubleExtension()
    ensures SplitName("caja.v2.cdr").0 == "caja.v2"
    ensures SplitName("caja.v2.cdr").0 + ".pdf" == "caja.v2.pdf"
  {
    var name := "caja.v2.cdr";
    assert name[8..] == "cdr";
    assert LastIndexOf(name, '.') == Some(7);
    assert name[0] != '.';
  }

  /** A leading dot does not start an extension. */
  lemma SplitNameHiddenFile()
    ensures SplitName(".hidden").0 == ".hidden"
    ensures SplitName(".hidden").0 + ".pdf" == ".hidden.pdf"
  {
    assert ".hidden"[1..] == "hidden";
    assert LastIndexOf(".hidden", '.') == Some(0);
  }

  /** `dir/caja.v2.cdr` becomes `caja.v2.pdf`, whatever `dir` is. */
  lemma PdfFilenameDoubleExtension(dir: string)
    ensures PdfFilename(dir + "/caja.v2.cdr") == "caja.v2.pdf"
  {
    assert dir + "/caja.v2.cdr" == dir + "/" + "caja.v2.cdr";
    PdfFilenameInDirectory(dir, "caja.v2.cdr");
    SplitNameDoubleExtension();
  }

  /** `dir/.hidden` becomes `.hidden.pdf`, whatever `dir` is. */
  lemma PdfFilenameHiddenFile(dir: string)
    ensures PdfFilename(dir + "/.hidden") == ".hidden.pdf"
  {
    assert dir + "/.hidden" == dir + "/" + ".hidden";
    PdfFilenameInDirectory(dir, ".hidden");
    SplitNameHiddenFile();
  }
}
