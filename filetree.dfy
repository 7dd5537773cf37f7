/**
 * The filesystem as the tree printer sees it: a finite tree of entries.
 * `File.getName`, `File.isDirectory` and `File.listFiles` become the fields and
 * the `Children` function of this datatype; nothing here touches a real disk.
 */
module FileTree {

  /** What `listFiles()` gives for an entry: `null` (a plain file, or a directory
      that cannot be read) or an array of child entries. */
  datatype Listing = NoListing | Listed(children: seq<Node>)

  /** An entry: a plain file, or a directory with whatever its listing yields. */
  datatype Node = File(name: string) | Dir(name: string, listing: Listing)

  /** `listFiles()`: null for a plain file, otherwise the directory's listing. */
  function ListFiles(n: Node): (l: Listing)
  {
    if n.Dir? then n.listing else NoListing
  }

  /** The entries of `n`'s listing, in the order the filesystem gives them;
      empty when the listing is null. */
  function Children(n: Node): (cs: seq<Node>)
  {
    if n.Dir? && n.listing.Listed? then n.listing.children else []
  }

  /** A directory with a listing has exactly the listed entries as children. */
  lemma ListedChildren(n: Node)
    requires n.Dir? && n.listing.Listed?
    ensures Children(n) == n.listing.children
  {
  }

  /** Number of entries in the tree rooted at `n`, the root included. */
  function Size(n: Node): (k: nat)
    ensures k >= 1
    decreases n, 1, 0
  {
    1 + SizeAll(n, Children(n))
  }

  /** Sum of the sizes of the trees in `s`, all of them children of `owner`. */
  function SizeAll(owner: Node, s: seq<Node>): (k: nat)
    requires forall c :: c in s ==> c in Children(owner)
    ensures k >= |s|
    decreases owner, 0, |s|
  {
    if s == [] then 0
    else
      assert s[0] in Children(owner);
      Size(s[0]) + SizeAll(owner, s[1..])
  }
}
