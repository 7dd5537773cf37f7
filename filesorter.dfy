/**
 * The reordering that `AlphabeticalFileSorter.sort` applies to a directory's
 * children before they are printed. That class is not part of this model, so the
 * order it uses is a parameter `precedes` on entry names; the model inserts each
 * entry before the first one it precedes. What the printer relies on, and what is
 * proved here, is only that the result is a permutation of the input.
 */
module FileSorter {
  import opened FileTree

  /** `x` placed before the first entry of `s` whose name it precedes. */
  function Insert(x: Node, s: seq<Node>, precedes: (string, string) -> bool): (r: seq<Node>)
    ensures multiset(r) == multiset{x} + multiset(s)
    ensures |r| == |s| + 1
  {
    if s == [] || precedes(x.name, s[0].name) then [x] + s
    else
      assert s == [s[0]] + s[1..];
      [s[0]] + Insert(x, s[1..], precedes)
  }

  /** The children array after sorting: the same entries, possibly reordered. */
  function Sort(files: seq<Node>, precedes: (string, string) -> bool): (r: seq<Node>)
    ensures multiset(r) == multiset(files)
    ensures |r| == |files|
  {
    if files == [] then []
    else
      assert files == [files[0]] + files[1..];
      Insert(files[0], Sort(files[1..], precedes), precedes)
  }
}
