/**
 * Go's `path/filepath` on a Unix host (separator '/', no volume names):
 * Clean, Join, Dir and Base follow the standard library's algorithms.
 */
module FilePaths {
  import opened Text

  const Separator: char := '/'

  /** Position of the last separator, or -1 when there is none. */
  function LastSeparator(p: string): (i: int)
    ensures -1 <= i < |p|
    ensures i >= 0 ==> p[i] == Separator
    ensures forall k :: i < k < |p| ==> p[k] != Separator
  {
    if p == [] then -1
    else if p[|p| - 1] == Separator then |p| - 1
    else LastSeparator(p[..|p| - 1])
  }

  /**
   * The element stack of Clean: empty and "." elements vanish, ".." removes
   * the previous real element, is dropped at the root of a rooted path and
   * is kept when nothing precedes it in a relative path.
   */
  function CleanElements(parts: seq<string>, rooted: bool, stack: seq<string>): seq<string>
  {
    if parts == [] then stack
    else
      var e := parts[0];
      if e == "" || e == "." then CleanElements(parts[1..], rooted, stack)
      else if e == ".." then
        if |stack| > 0 && stack[|stack| - 1] != ".." then CleanElements(parts[1..], rooted, stack[..|stack| - 1])
        else if rooted then CleanElements(parts[1..], rooted, stack)
        else CleanElements(parts[1..], rooted, stack + [".."])
      else CleanElements(parts[1..], rooted, stack + [e])
  }

  /** filepath.Clean */
  function Clean(p: string): (r: string)
    ensures r != ""
    ensures |p| > 0 && p[0] == Separator ==> r[0] == Separator
  {
    if p == "" then "."
    else
      var rooted := p[0] == Separator;
      var body := JoinWith(CleanElements(Split(p, Separator), rooted, []), Separator);
      if rooted then [Separator] + body
      else if body == "" then "."
      else body
  }

  /** filepath.Join of two elements: empty elements are ignored, the result is cleaned. */
  function Join(a: string, b: string): (r: string)
    ensures r == "" <==> a == "" && b == ""
  {
    if a != "" then Clean(a + [Separator] + b)
    else if b != "" then Clean(b)
    else ""
  }

  /** filepath.Dir: everything before the last separator, cleaned. */
  function Dir(p: string): (r: string)
    ensures r != ""
  {
    Clean(p[..LastSeparator(p) + 1])
  }

  /** filepath.Base: the last element, ignoring trailing separators. */
  function Base(p: string): (r: string)
    ensures r != ""
  {
    if p == "" then "."
    else
      var q := TrimRight(p, c => c == Separator);
      if q == "" then [Separator]
      else q[LastSeparator(q) + 1..]
  }

  /** The depth proxy of sortByDepth: the number of separators. */
  function Depth(p: string): nat {
    Count(p, Separator)
  }
}
