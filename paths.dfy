/** The three `path` operations the extension uses, on POSIX-style strings.
    They keep the shape of Node's results for the inputs the extension
    produces (absolute directories and plain file names) and do not
    normalise `.`/`..` segments or repeated separators. */
module Paths {

  /** The index of the last occurrence of `c` in `s`, if any. */
  function LastIndexOf(s: string, c: char): (k: int)
    ensures -1 <= k < |s|
    ensures k >= 0 ==> s[k] == c
    ensures forall j :: k < j < |s| ==> s[j] != c
  {
    if |s| == 0 then -1
    else if s[|s| - 1] == c then |s| - 1
    else LastIndexOf(s[..|s| - 1], c)
  }

  /** `path.dirname`: everything before the last `/`; `.` when there is no
      `/`, and `/` when the only one is the first character. */
  function Dirname(p: string): string
  {
    var k := LastIndexOf(p, '/');
    if k == -1 then "." else if k == 0 then "/" else p[..k]
  }

  /** `path.join(dir, file)`. */
  function Join(dir: string, file: string): string
  {
    if dir == "" then (if file == "" then "." else file)
    else if file == "" then dir
    else dir + "/" + file
  }

  /** `path.relative(from, to)` when `to` lies below `from`; any other
      target is returned unchanged. */
  function Relative(from: string, to: string): string
  {
    var prefix := from + "/";
    if from != "" && prefix <= to then to[|prefix|..] else to
  }

  /** The directory of a file joined under `dir` is `dir` again. */
  lemma DirnameJoin(dir: string, file: string)
    requires dir != "" && dir != "/" && file != "" && '/' !in file
    ensures Dirname(Join(dir, file)) == dir
  {
    var p := Join(dir, file);
    assert p == dir + "/" + file;
    assert p[|dir|] == '/' && p[|dir| + 1..] == file;
    assert p[..|dir|] == dir;
  }

  /** A file joined under a directory is found again below it. */
  lemma RelativeJoin(dir: string, file: string)
    requires dir != "" && file != ""
    ensures Relative(dir, Join(dir, file)) == file
  {
    assert Join(dir, file) == (dir + "/") + file;
  }
}
