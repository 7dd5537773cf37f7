/**
 * What the printer writes for each visit: the text of the line and the colour
 * the sink holds when the line is written.
 */
module TreeLines {
  import opened FileTree
  import opened Palette
  import opened TreeWalk

  /** One record of the sink: the current colour and the text of a `println`. */
  datatype Line = Line(color: ConsoleColor, text: string)

  /** The indentation string built by appending one space at a time. */
  function Spaces(k: nat): (r: string)
    ensures |r| == k
  {
    if k == 0 then "" else Spaces(k - 1) + " "
  }

  /** Every character of the indentation is a space. */
  lemma {:induction false} SpacesAreBlank(k: nat)
    ensures forall j :: 0 <= j < k ==> Spaces(k)[j] == ' '
    decreases k
  {
    if k > 0 {
      SpacesAreBlank(k - 1);
    }
  }

  /** The text printed for entry `n` at level `lvl`. */
  function LineText(n: Node, lvl: nat): (t: string)
  {
    Spaces(lvl * 3) + n.name + (if n.Dir? then "/" else "")
  }

  /** The line of an entry is three spaces per level, then the name, then a slash
      exactly when the entry is a directory. */
  lemma LineFormat(n: Node, lvl: nat)
    ensures var t := LineText(n, lvl);
            |t| == lvl * 3 + |n.name| + (if n.Dir? then 1 else 0) &&
            (forall j :: 0 <= j < lvl * 3 ==> t[j] == ' ') &&
            t[lvl * 3..lvl * 3 + |n.name|] == n.name &&
            (n.Dir? ==> t[|t| - 1] == '/')
  {
    var t := LineText(n, lvl);
    SpacesAreBlank(lvl * 3);
    assert t[lvl * 3..lvl * 3 + |n.name|] == (Spaces(lvl * 3) + n.name)[lvl * 3..];
  }

  /** The colour the sink holds when the line of `v` is written: the palette entry
      for its level when colour is on, otherwise the sink's colour `ambient`,
      which nothing changes. */
  function LineColor(v: Visit, useColor: bool, ambient: ConsoleColor): (c: ConsoleColor)
  {
    if useColor then ColorFor(v.level) else ambient
  }

  /** The records written for the visits `vs`, in order. */
  function Paint(vs: seq<Visit>, useColor: bool, ambient: ConsoleColor): (r: seq<Line>)
    ensures |r| == |vs|
  {
    if vs == [] then []
    else [Line(LineColor(vs[0], useColor, ambient), LineText(vs[0].node, vs[0].level))]
         + Paint(vs[1..], useColor, ambient)
  }

  /** One record per visit; the `i`-th is the line of the `i`-th visit in the
      colour `LineColor` gives it. */
  lemma {:induction false} PaintAt(vs: seq<Visit>, useColor: bool, ambient: ConsoleColor, i: nat)
    requires i < |vs|
    ensures Paint(vs, useColor, ambient)[i] == Line(LineColor(vs[i], useColor, ambient), LineText(vs[i].node, vs[i].level))
    decreases i
  {
    if i > 0 {
      PaintAt(vs[1..], useColor, ambient, i - 1);
    }
  }

  /** The sink's colour after the visits `vs` were written starting from `ambient`. */
  function FinalColor(vs: seq<Visit>, useColor: bool, ambient: ConsoleColor): (c: ConsoleColor)
  {
    if useColor && vs != [] then ColorFor(vs[|vs| - 1].level) else ambient
  }

  lemma {:induction false} PaintAppend(a: seq<Visit>, b: seq<Visit>, useColor: bool, ambient: ConsoleColor)
    ensures Paint(a + b, useColor, ambient) == Paint(a, useColor, ambient) + Paint(b, useColor, ambient)
    decreases |a|
  {
    if a == [] {
      assert a + b == b;
    } else {
      assert (a + b)[1..] == a[1..] + b;
      PaintAppend(a[1..], b, useColor, ambient);
    }
  }

  /** With colour on, what the sink held before does not show in the records. */
  lemma {:induction false} PaintIgnoresAmbient(vs: seq<Visit>, ambient: ConsoleColor, other: ConsoleColor)
    ensures Paint(vs, true, ambient) == Paint(vs, true, other)
    decreases |vs|
  {
    if vs != [] {
      PaintIgnoresAmbient(vs[1..], ambient, other);
    }
  }

  lemma FinalColorAppend(a: seq<Visit>, b: seq<Visit>, useColor: bool, ambient: ConsoleColor)
    ensures FinalColor(a + b, useColor, ambient) == FinalColor(b, useColor, FinalColor(a, useColor, ambient))
  {
    if b != [] { assert (a + b)[|a + b| - 1] == b[|b| - 1]; }
    else { assert a + b == a; }
  }

  /** The records written for `a` and then for `b`, from the colour the sink holds
      after `a`, are the records of `a + b`; the final colour is the one after `b`. */
  lemma PaintThen(a: seq<Visit>, b: seq<Visit>, useColor: bool, ambient: ConsoleColor, earlier: seq<Line>)
    ensures earlier + Paint(a, useColor, ambient) + Paint(b, useColor, FinalColor(a, useColor, ambient))
         == earlier + Paint(a + b, useColor, ambient)
    ensures FinalColor(a + b, useColor, ambient) == FinalColor(b, useColor, FinalColor(a, useColor, ambient))
  {
    var mid := FinalColor(a, useColor, ambient);
    PaintAppend(a, b, useColor, ambient);
    if useColor {
      PaintIgnoresAmbient(b, mid, ambient);
    } else {
      assert mid == ambient;
    }
    FinalColorAppend(a, b, useColor, ambient);
    ConcatAssoc(earlier, Paint(a, useColor, ambient), Paint(b, useColor, mid));
  }

  /** What one turn of the helper's loop adds: after the records of the entry and
      its first `k` subtrees, the records of subtree `k`, written from the colour
      the sink then holds, give the records of the entry and its first `k + 1`
      subtrees, and the sink ends in the colour of the last of them. */
  lemma LoopStep(n: Node, lvl: nat, precedes: (string, string) -> bool, k: nat,
                 useColor: bool, ambient: ConsoleColor, earlier: seq<Line>)
    requires k < |SortedChildren(n, precedes)|
    ensures var done := VisitsUpTo(n, lvl, precedes, k);
            var sub := Visits(SortedChildren(n, precedes)[k], lvl + 1, precedes);
            var mid := FinalColor(done, useColor, ambient);
            earlier + Paint(done, useColor, ambient) + Paint(sub, useColor, mid)
              == earlier + Paint(VisitsUpTo(n, lvl, precedes, k + 1), useColor, ambient) &&
            FinalColor(VisitsUpTo(n, lvl, precedes, k + 1), useColor, ambient) == FinalColor(sub, useColor, mid)
  {
    VisitsUpToStep(n, lvl, precedes, k);
    PaintThen(VisitsUpTo(n, lvl, precedes, k), Visits(SortedChildren(n, precedes)[k], lvl + 1, precedes),
              useColor, ambient, earlier);
  }

  /** The records for a whole tree printed from level `lvl`: one per entry, the
      first for the root; every record's text is the indented name of the entry
      visited at that position, and its colour is the palette entry for that
      entry's depth when colour is on, or the untouched sink colour when it is off. */
  lemma TreeRecords(root: Node, lvl: nat, useColor: bool, ambient: ConsoleColor, precedes: (string, string) -> bool)
    ensures var vs := Visits(root, lvl, precedes);
            var r := Paint(vs, useColor, ambient);
            |r| == Size(root) &&
            r[0].text == LineText(root, lvl) &&
            (forall i :: 0 <= i < |r| ==> r[i].text == LineText(vs[i].node, vs[i].level)) &&
            (useColor ==> forall i :: 0 <= i < |r| ==> r[i].color == DefaultColorSequence[vs[i].level % 3]) &&
            (!useColor ==> forall i :: 0 <= i < |r| ==> r[i].color == ambient)
  {
    var vs := Visits(root, lvl, precedes);
    var r := Paint(vs, useColor, ambient);
    LineCount(root, lvl, precedes);
    forall i | 0 <= i < |r|
      ensures r[i].text == LineText(vs[i].node, vs[i].level)
      ensures useColor ==> r[i].color == DefaultColorSequence[vs[i].level % 3]
      ensures !useColor ==> r[i].color == ambient
    {
      PaintAt(vs, useColor, ambient, i);
      ColorForIsModulo(vs[i].level);
    }
    assert vs[0] == Visit(root, lvl);
  }

  /** An entry in the tree whose name starts with a dot gets its line like any other. */
  lemma HiddenChildPrinted(n: Node, lvl: nat, useColor: bool, ambient: ConsoleColor,
                           precedes: (string, string) -> bool, c: Node)
    requires c in Children(n)
    requires |c.name| > 0 && c.name[0] == '.'
    ensures exists i :: 0 <= i < |Paint(Visits(n, lvl, precedes), useColor, ambient)| &&
              Paint(Visits(n, lvl, precedes), useColor, ambient)[i].text == LineText(c, lvl + 1)
  {
    var vs := Visits(n, lvl, precedes);
    EveryListedChildVisited(n, lvl, precedes, c);
    var i :| 0 <= i < |vs| && vs[i] == Visit(c, lvl + 1);
    PaintAt(vs, useColor, ambient, i);
  }
}
