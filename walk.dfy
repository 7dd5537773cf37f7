/**
 * The order in which `printTreeHelper` reaches the entries of a tree: a pre-order
 * walk that, at every directory, sorts the listing and then descends into each
 * child one level deeper. `Visits` is that order; `Nodes` is an order-free
 * reference description of the same tree (every entry paired with its depth),
 * and the lemmas here relate the two.
 */
module TreeWalk {
  import opened FileTree
  import opened FileSorter

  /** One call of the helper: the entry it prints and the level it prints it at. */
  datatype Visit = Visit(node: Node, level: nat)

  /** The children of `n` in the order they are recursed into. */
  function SortedChildren(n: Node, precedes: (string, string) -> bool): (s: seq<Node>)
    ensures multiset(s) == multiset(Children(n))
    ensures forall c :: c in s ==> c in Children(n)
  {
    var s := Sort(Children(n), precedes);
    assert forall c :: c in s ==> c in multiset(Children(n));
    s
  }

  /** The visits made when the helper is called on `n` at level `lvl`: `n` first,
      then every visit below it, each deeper than `lvl`. */
  function Visits(n: Node, lvl: nat, precedes: (string, string) -> bool): (r: seq<Visit>)
    ensures |r| >= 1 && r[0] == Visit(n, lvl)
    decreases n, 1, 0
  {
    [Visit(n, lvl)] + VisitsAll(n, SortedChildren(n, precedes), lvl + 1, precedes)
  }

  /** The visits made by the loop over `s`, children of `owner`, at level `lvl`. */
  function VisitsAll(owner: Node, s: seq<Node>, lvl: nat, precedes: (string, string) -> bool): (r: seq<Visit>)
    requires forall c :: c in s ==> c in Children(owner)
    ensures |r| >= |s|
    decreases owner, 0, |s|
  {
    if s == [] then []
    else
      assert s[0] in Children(owner);
      Visits(s[0], lvl, precedes) + VisitsAll(owner, s[1..], lvl, precedes)
  }

  /** The visits made by the helper on `n` once the loop has recursed into the
      first `k` sorted children: `n` itself, then their subtrees in order. */
  function VisitsUpTo(n: Node, lvl: nat, precedes: (string, string) -> bool, k: nat): (r: seq<Visit>)
    requires k <= |SortedChildren(n, precedes)|
    ensures k == 0 ==> r == [Visit(n, lvl)]
    ensures k == |SortedChildren(n, precedes)| ==> r == Visits(n, lvl, precedes)
  {
    var s := SortedChildren(n, precedes);
    assert s[..|s|] == s;
    [Visit(n, lvl)] + VisitsAll(n, s[..k], lvl + 1, precedes)
  }

  /** Recursing into one more child appends exactly that child's subtree. */
  lemma VisitsUpToStep(n: Node, lvl: nat, precedes: (string, string) -> bool, k: nat)
    requires k < |SortedChildren(n, precedes)|
    ensures VisitsUpTo(n, lvl, precedes, k + 1)
         == VisitsUpTo(n, lvl, precedes, k) + Visits(SortedChildren(n, precedes)[k], lvl + 1, precedes)
  {
    var s := SortedChildren(n, precedes);
    var head, mid := [Visit(n, lvl)], VisitsAll(n, s[..k], lvl + 1, precedes);
    var sub := Visits(s[k], lvl + 1, precedes);
    assert s[..k + 1] == s[..k] + [s[k]];
    assert s[k] in s;
    VisitsAllAppend(n, s[..k], [s[k]], lvl + 1, precedes);
    assert VisitsAll(n, [s[k]], lvl + 1, precedes) == sub;
    ConcatAssoc(head, mid, sub);
  }

  /** Only the entry itself is visited at its own level; everything after it in
      the walk is deeper. */
  lemma {:induction false} VisitLevels(n: Node, lvl: nat, precedes: (string, string) -> bool)
    ensures forall i :: 0 < i < |Visits(n, lvl, precedes)| ==> Visits(n, lvl, precedes)[i].level > lvl
    decreases n, 1, 0
  {
    VisitsAllLevels(n, SortedChildren(n, precedes), lvl + 1, precedes);
  }

  lemma {:induction false} VisitsAllLevels(owner: Node, s: seq<Node>, lvl: nat, precedes: (string, string) -> bool)
    requires forall c :: c in s ==> c in Children(owner)
    ensures forall i :: 0 <= i < |VisitsAll(owner, s, lvl, precedes)| ==> VisitsAll(owner, s, lvl, precedes)[i].level >= lvl
    decreases owner, 0, |s|
  {
    if s != [] {
      assert s[0] in Children(owner);
      VisitLevels(s[0], lvl, precedes);
      VisitsAllLevels(owner, s[1..], lvl, precedes);
    }
  }

  /** Every entry of the tree at `n`, paired with its depth when `n` is at `lvl`,
      taken over the listings as the filesystem gives them (no sorting). */
  function Nodes(n: Node, lvl: nat): (m: multiset<Visit>)
    ensures |m| == Size(n)
    ensures Visit(n, lvl) in m
    decreases n, 1, 0
  {
    multiset{Visit(n, lvl)} + NodesAll(n, Children(n), lvl + 1)
  }

  /** `Nodes` summed over `s`, children of `owner`. */
  function NodesAll(owner: Node, s: seq<Node>, lvl: nat): (m: multiset<Visit>)
    requires forall c :: c in s ==> c in Children(owner)
    ensures |m| == SizeAll(owner, s)
    decreases owner, 0, |s|
  {
    if s == [] then multiset{}
    else
      assert s[0] in Children(owner);
      Nodes(s[0], lvl) + NodesAll(owner, s[1..], lvl)
  }

  lemma {:induction false} VisitsAllAppend(owner: Node, a: seq<Node>, b: seq<Node>, lvl: nat, precedes: (string, string) -> bool)
    requires forall c :: c in a + b ==> c in Children(owner)
    ensures VisitsAll(owner, a + b, lvl, precedes) == VisitsAll(owner, a, lvl, precedes) + VisitsAll(owner, b, lvl, precedes)
    decreases |a|
  {
    if a == [] {
      assert a + b == b;
    } else {
      assert (a + b)[1..] == a[1..] + b;
      VisitsAllAppend(owner, a[1..], b, lvl, precedes);
    }
  }

  lemma {:induction false} NodesAllAppend(owner: Node, a: seq<Node>, b: seq<Node>, lvl: nat)
    requires forall c :: c in a + b ==> c in Children(owner)
    ensures NodesAll(owner, a + b, lvl) == NodesAll(owner, a, lvl) + NodesAll(owner, b, lvl)
    decreases |a|
  {
    if a == [] {
      assert a + b == b;
    } else {
      assert (a + b)[1..] == a[1..] + b;
      NodesAllAppend(owner, a[1..], b, lvl);
    }
  }

  /** The reference description does not depend on the order of the children. */
  lemma {:induction false} NodesAllPermutation(owner: Node, s: seq<Node>, t: seq<Node>, lvl: nat)
    requires forall c :: c in s ==> c in Children(owner)
    requires multiset(s) == multiset(t)
    ensures forall c :: c in t ==> c in Children(owner)
    ensures NodesAll(owner, s, lvl) == NodesAll(owner, t, lvl)
    decreases |s|
  {
    assert forall c :: c in t ==> c in multiset(s);
    if s != [] {
      var x := s[0];
      assert x in multiset(t);
      var j :| 0 <= j < |t| && t[j] == x;
      var pre, post := t[..j], t[j + 1..];
      RemoveOne(s, t, j);
      NodesAllPermutation(owner, s[1..], pre + post, lvl);
      NodesAllSplit(owner, t, j, lvl);
    }
  }

  lemma RemoveOne<T>(s: seq<T>, t: seq<T>, j: nat)
    requires multiset(s) == multiset(t)
    requires s != [] && j < |t| && t[j] == s[0]
    ensures multiset(s[1..]) == multiset(t[..j] + t[j + 1..])
  {
    assert s == [s[0]] + s[1..];
    assert t == t[..j] + [t[j]] + t[j + 1..];
    assert multiset(s[1..]) == multiset(s) - multiset{s[0]};
  }

  /** Taking one child out of the sum. */
  lemma NodesAllSplit(owner: Node, t: seq<Node>, j: nat, lvl: nat)
    requires forall c :: c in t ==> c in Children(owner)
    requires j < |t|
    ensures NodesAll(owner, t, lvl) == Nodes(t[j], lvl) + NodesAll(owner, t[..j] + t[j + 1..], lvl)
  {
    var pre, x, post := t[..j], t[j], t[j + 1..];
    assert t == pre + ([x] + post);
    NodesAllAppend(owner, pre, [x] + post, lvl);
    NodesAllAppend(owner, [x], post, lvl);
    NodesAllAppend(owner, pre, post, lvl);
    assert NodesAll(owner, [x], lvl) == Nodes(x, lvl);
  }

  /** The walk prints every entry of the tree, at its depth, exactly as often as
      it occurs in the tree: the multiset of visits is the reference description. */
  lemma {:induction false} VisitsCoverTree(n: Node, lvl: nat, precedes: (string, string) -> bool)
    ensures multiset(Visits(n, lvl, precedes)) == Nodes(n, lvl)
    decreases n, 1, 0
  {
    var s := SortedChildren(n, precedes);
    VisitsAllCoverTree(n, s, lvl + 1, precedes);
    NodesAllPermutation(n, Children(n), s, lvl + 1);
  }

  lemma {:induction false} VisitsAllCoverTree(owner: Node, s: seq<Node>, lvl: nat, precedes: (string, string) -> bool)
    requires forall c :: c in s ==> c in Children(owner)
    ensures multiset(VisitsAll(owner, s, lvl, precedes)) == NodesAll(owner, s, lvl)
    decreases owner, 0, |s|
  {
    if s != [] {
      assert s[0] in Children(owner);
      VisitsCoverTree(s[0], lvl, precedes);
      VisitsAllCoverTree(owner, s[1..], lvl, precedes);
    }
  }

  /** One visit, hence one output line, per entry of the tree. */
  lemma LineCount(n: Node, lvl: nat, precedes: (string, string) -> bool)
    ensures |Visits(n, lvl, precedes)| == Size(n)
  {
    VisitsCoverTree(n, lvl, precedes);
  }

  /** A visit occurs in the walk exactly when the entry occurs in the tree at that
      depth, whatever the entry's name (a hidden entry included). */
  lemma EveryEntryVisited(n: Node, lvl: nat, precedes: (string, string) -> bool, v: Visit)
    ensures v in Visits(n, lvl, precedes) <==> v in Nodes(n, lvl)
  {
    VisitsCoverTree(n, lvl, precedes);
    assert v in Visits(n, lvl, precedes) <==> v in multiset(Visits(n, lvl, precedes));
  }

  /** Every entry of a listing is visited, one level below its directory. */
  lemma EveryListedChildVisited(n: Node, lvl: nat, precedes: (string, string) -> bool, c: Node)
    requires c in Children(n)
    ensures Visit(c, lvl + 1) in Visits(n, lvl, precedes)
  {
    var cs := Children(n);
    var k :| 0 <= k < |cs| && cs[k] == c;
    NodesAllSplit(n, cs, k, lvl + 1);
    assert Visit(c, lvl + 1) in Nodes(n, lvl);
    EveryEntryVisited(n, lvl, precedes, Visit(c, lvl + 1));
  }

  /** The subtree of the `k`-th sorted child is one consecutive block of the walk,
      all at least one level deeper, placed after the parent and after the blocks
      of the children sorted before it. */
  lemma ChildBlock(n: Node, lvl: nat, precedes: (string, string) -> bool, k: nat)
    requires k < |SortedChildren(n, precedes)|
    ensures var s := SortedChildren(n, precedes);
            var start := 1 + |VisitsAll(n, s[..k], lvl + 1, precedes)|;
            var block := Visits(s[k], lvl + 1, precedes);
            start + |block| <= |Visits(n, lvl, precedes)| &&
            Visits(n, lvl, precedes)[start..start + |block|] == block
  {
    var s := SortedChildren(n, precedes);
    var pre, c, post := s[..k], s[k], s[k + 1..];
    assert s == pre + ([c] + post);
    VisitsAllAppend(n, pre, [c] + post, lvl + 1, precedes);
    VisitsAllAppend(n, [c], post, lvl + 1, precedes);
    var block := Visits(c, lvl + 1, precedes);
    assert VisitsAll(n, [c], lvl + 1, precedes) == block;
    var head, mid := [Visit(n, lvl)], VisitsAll(n, pre, lvl + 1, precedes);
    var back := VisitsAll(n, post, lvl + 1, precedes);
    assert Visits(n, lvl, precedes) == head + (mid + (block + back));
    ConcatAssoc(head, mid, block + back);
    ConcatAssoc(head + mid, block, back);
    SliceOfConcat(head + mid, block, back);
  }

  lemma ConcatAssoc<T>(a: seq<T>, b: seq<T>, c: seq<T>)
    ensures a + b + c == a + (b + c)
  {
  }

  lemma SliceOfConcat<T>(a: seq<T>, b: seq<T>, c: seq<T>)
    ensures (a + b + c)[|a|..|a| + |b|] == b
  {
  }

  /** An entry contributes only its own visit exactly when its listing is null or
      empty. */
  lemma LoneVisit(n: Node, lvl: nat, precedes: (string, string) -> bool)
    ensures |Visits(n, lvl, precedes)| == 1 <==> Children(n) == []
  {
    var s := SortedChildren(n, precedes);
    if Children(n) == [] {
      assert s == [];
    } else {
      assert |s| == |Children(n)|;
    }
  }
}
