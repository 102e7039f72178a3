/**
 * The few pieces of Python's path and string library that the uploader relies on:
 * `os.path.basename`, `os.path.join` (POSIX flavour), and the case-insensitive
 * `.pdf` suffix test `path.lower().endswith(".pdf")`.
 */
module Paths {

  /** Directory that successfully uploaded scans are moved into. */
  const UPLOADED_DIR: string := "/uploaded"

  /** Extension of the files the handler accepts, in lower case. */
  const PDF_SUFFIX: string := ".pdf"

  /**
   * `os.path.basename`: everything after the last '/', or the whole path when it
   * has none. The contract says the result is the longest suffix without a '/'.
   */
  function Basename(path: string): (base: string)
    ensures |base| <= |path| && path[|path| - |base|..] == base
    ensures '/' !in base
    ensures |base| < |path| ==> path[|path| - |base| - 1] == '/'
  {
    if path == [] then []
    else if path[|path| - 1] == '/' then []
    else
      var init := path[..|path| - 1];
      var rest := Basename(init);
      assert init[|init| - |rest|..] == rest;
      assert path[|path| - |rest| - 1..] == init[|init| - |rest|..] + [path[|path| - 1]];
      rest + [path[|path| - 1]]
  }

  /** A slash-free suffix that is the whole path or follows a '/' is the basename. */
  lemma BasenameUnique(path: string, s: string)
    requires |s| <= |path| && path[|path| - |s|..] == s
    requires '/' !in s
    requires |s| < |path| ==> path[|path| - |s| - 1] == '/'
    ensures Basename(path) == s
  {
    var b := Basename(path);
    assert |b| == |s|;
  }

  /**
   * `os.path.join(dir, name)` for two components: an absolute `name` replaces
   * `dir`; otherwise a '/' is put between them unless `dir` is empty or already
   * ends with one.
   */
  function Join(dir: string, name: string): (path: string)
    ensures |name| <= |path| && path[|path| - |name|..] == name
    ensures (name == [] || name[0] != '/') ==> |dir| <= |path| && path[..|dir|] == dir
    ensures (name == [] || name[0] != '/') && dir != [] && dir[|dir| - 1] != '/' ==>
              |path| == |dir| + 1 + |name| && path[|dir|] == '/'
    ensures |name| > 0 && name[0] == '/' ==> path == name
    ensures (name == [] || name[0] != '/') && (dir == [] || dir[|dir| - 1] == '/') ==> path == dir + name
  {
    if |name| > 0 && name[0] == '/' then name
    else if dir == [] || dir[|dir| - 1] == '/' then dir + name
    else dir + "/" + name
  }

  /** Joining a slash-free name onto any directory and taking the basename gives the name back. */
  lemma BasenameOfJoin(dir: string, name: string)
    requires '/' !in name
    ensures Basename(Join(dir, name)) == name
  {
    var path := Join(dir, name);
    if |name| < |path| {
      if dir == [] || dir[|dir| - 1] == '/' {
        assert path == dir + name;
        assert path[|path| - |name| - 1] == dir[|dir| - 1];
      } else {
        assert path == dir + "/" + name;
        assert path[|path| - |name| - 1] == '/';
      }
    }
    BasenameUnique(path, name);
  }

  /** ASCII lower-casing of one character, as `str.lower` does for 'A'..'Z'. */
  function LowerChar(c: char): (l: char)
    ensures 'A' <= c <= 'Z' ==> 'a' <= l <= 'z' && l as int - 'a' as int == c as int - 'A' as int
    ensures !('A' <= c <= 'Z') ==> l == c
    ensures !('A' <= l <= 'Z')
  {
    if 'A' <= c <= 'Z' then (c as int - 'A' as int + 'a' as int) as char else c
  }

  /** `str.lower` restricted to ASCII letters. */
  function Lower(s: string): (low: string)
    ensures |low| == |s|
    ensures forall i :: 0 <= i < |s| ==> low[i] == LowerChar(s[i])
    ensures forall i :: 0 <= i < |low| ==> !('A' <= low[i] <= 'Z')
  {
    seq(|s|, i requires 0 <= i < |s| => LowerChar(s[i]))
  }

  /** `str.endswith`: `s` is some string followed by `suffix`. */
  predicate EndsWith(s: string, suffix: string)
    ensures EndsWith(s, suffix) <==> exists prefix :: s == prefix + suffix
  {
    if |suffix| <= |s| then
      var prefix := s[..|s| - |suffix|];
      assert s == prefix + s[|s| - |suffix|..];
      s[|s| - |suffix|..] == suffix
    else
      false
  }

  /** The handler's filter: `path.lower().endswith(".pdf")`. */
  predicate IsPdfPath(path: string)
  {
    EndsWith(Lower(path), PDF_SUFFIX)
  }

  /**
   * The filter accepts exactly the paths whose last four characters are '.'
   * followed by p, d, f, each in either case.
   */
  lemma PdfFilterIsCaseInsensitive(path: string)
    ensures IsPdfPath(path) <==>
      && |path| >= 4
      && path[|path| - 4] == '.'
      && (path[|path| - 3] == 'p' || path[|path| - 3] == 'P')
      && (path[|path| - 2] == 'd' || path[|path| - 2] == 'D')
      && (path[|path| - 1] == 'f' || path[|path| - 1] == 'F')
  {
    var low := Lower(path);
    if |path| >= 4 {
      var n := |path|;
      var tail := low[n - 4..];
      assert tail == [LowerChar(path[n - 4]), LowerChar(path[n - 3]), LowerChar(path[n - 2]), LowerChar(path[n - 1])];
    }
  }

  /** Lower-casing twice is lower-casing once. */
  lemma LowerIdempotent(s: string)
    ensures Lower(Lower(s)) == Lower(s)
  {
    var low := Lower(s);
    assert forall i :: 0 <= i < |low| ==> LowerChar(low[i]) == low[i];
  }

  /** The filter already lower-cases: lower-casing the path first changes no verdict. */
  lemma PdfFilterIgnoresCase(path: string)
    ensures IsPdfPath(Lower(path)) <==> IsPdfPath(path)
  {
    LowerIdempotent(path);
  }

  /** An upper-case extension passes, a text file and a trailing extension do not. */
  lemma PdfFilterExamples()
    ensures IsPdfPath("/scan/Scan_0001.PDF")
    ensures IsPdfPath("/scan/report.Pdf")
    ensures !IsPdfPath("/scan/notes.txt")
    ensures !IsPdfPath("/scan/scan.pdf.part")
    ensures !IsPdfPath("pdf")
  {
    PdfFilterIsCaseInsensitive("/scan/Scan_0001.PDF");
    PdfFilterIsCaseInsensitive("/scan/report.Pdf");
    PdfFilterIsCaseInsensitive("/scan/notes.txt");
    PdfFilterIsCaseInsensitive("/scan/scan.pdf.part");
  }
}
