/**
 * The tree printer as the program runs it: a printer object holding its options,
 * a colour sequence and an output sink, whose recursive helper sets the sink's
 * colour, builds the indented line, prints it, and recurses into the sorted
 * children one level deeper.
 */
module Printer {
  import opened FileTree
  import opened FileSorter
  import opened Palette
  import opened TreeWalk
  import opened TreeLines

  /** The output sink: a current colour and the records printed so far. */
  class ColorPrinter {
    var currentColor: ConsoleColor
    var lines: seq<Line>

    constructor (initial: ConsoleColor)
      ensures currentColor == initial && lines == []
    {
      currentColor := initial;
      lines := [];
    }

    method SetCurrentColor(color: ConsoleColor)
      modifies this
      ensures currentColor == color && lines == old(lines)
    {
      currentColor := color;
    }

    method Println(text: string)
      modifies this
      ensures lines == old(lines) + [Line(currentColor, text)]
      ensures currentColor == old(currentColor)
    {
      lines := lines + [Line(currentColor, text)];
    }
  }

  /** The settings the printer reads: the root entry and the two flags. */
  datatype Options = Options(root: Node, showHidden: bool, useColor: bool)

  class TruffulaPrinter {
    const options: Options
    const colorSequence: seq<ConsoleColor>
    const out: ColorPrinter
    /** The name order of the children sorter. */
    const precedes: (string, string) -> bool

    constructor (options: Options, out: ColorPrinter, colorSequence: seq<ConsoleColor>,
                 precedes: (string, string) -> bool)
      ensures this.options == options && this.out == out
      ensures this.colorSequence == colorSequence && this.precedes == precedes
    {
      this.options := options;
      this.colorSequence := colorSequence;
      this.out := out;
      this.precedes := precedes;
    }

    /** Prints the whole tree from the root at level 0. The records added depend
        on the root, the colour flag, the sorter and the sink's colour only; the
        hidden flag and the colour sequence of the printer play no part. */
    method PrintTree()
      modifies out
      ensures out.lines == old(out.lines) + Paint(Visits(options.root, 0, precedes), options.useColor, old(out.currentColor))
      ensures out.currentColor == FinalColor(Visits(options.root, 0, precedes), options.useColor, old(out.currentColor))
      ensures !options.useColor ==> out.currentColor == old(out.currentColor)
    {
      var level := 0;
      var root := options.root;
      PrintTreeHelper(root, level);
    }

    /** The first half of the helper: sets the colour for the level when colour
        is on, builds the indented name and prints it. */
    method PrintEntry(root: Node, lvl: nat)
      modifies out
      ensures out.lines == old(out.lines) + Paint([Visit(root, lvl)], options.useColor, old(out.currentColor))
      ensures out.currentColor == FinalColor([Visit(root, lvl)], options.useColor, old(out.currentColor))
    {
      var spaces := lvl * 3;
      var rootName := "";
      if options.useColor {
        if lvl % 3 == 0 {
          out.SetCurrentColor(DefaultColorSequence[0]);
        }
        if lvl % 3 == 2 {
          out.SetCurrentColor(DefaultColorSequence[2]);
        }
        if lvl % 3 == 1 {
          out.SetCurrentColor(DefaultColorSequence[1]);
        }
      }
      ColorForIsModulo(lvl);
      assert out.currentColor == LineColor(Visit(root, lvl), options.useColor, old(out.currentColor));
      var i := 0;
      while i < spaces
        invariant 0 <= i <= spaces
        invariant rootName == Spaces(i)
      {
        rootName := rootName + " ";
        i := i + 1;
      }
      rootName := rootName + root.name;
      if root.Dir? {
        rootName := rootName + "/";
      }
      assert rootName == LineText(root, lvl);
      out.Println(rootName);
    }

    /** Prints the entry at `lvl`, then, unless its listing is null, every entry
        of its sorted listing one level deeper, each with its whole subtree. */
    method PrintTreeHelper(root: Node, lvl: nat)
      modifies out
      ensures out.lines == old(out.lines) + Paint(Visits(root, lvl, precedes), options.useColor, old(out.currentColor))
      ensures out.currentColor == FinalColor(Visits(root, lvl, precedes), options.useColor, old(out.currentColor))
      decreases root, 2
    {
      ghost var ambient := out.currentColor;
      PrintEntry(root, lvl);
      var listing := ListFiles(root);
      if listing.NoListing? {
        assert VisitsUpTo(root, lvl, precedes, 0) == Visits(root, lvl, precedes);
        return;
      }
      var childFiles := Sort(listing.children, precedes);
      PrintChildren(root, lvl, childFiles, old(out.lines), ambient);
    }

    /** The loop of the helper: recurses into each sorted child of `root` in turn. */
    method PrintChildren(root: Node, lvl: nat, childFiles: seq<Node>, ghost earlier: seq<Line>, ghost ambient: ConsoleColor)
      requires root.Dir? && root.listing.Listed?
      requires childFiles == SortedChildren(root, precedes)
      requires out.lines == earlier + Paint(VisitsUpTo(root, lvl, precedes, 0), options.useColor, ambient)
      requires out.currentColor == FinalColor(VisitsUpTo(root, lvl, precedes, 0), options.useColor, ambient)
      modifies out
      ensures out.lines == earlier + Paint(Visits(root, lvl, precedes), options.useColor, ambient)
      ensures out.currentColor == FinalColor(Visits(root, lvl, precedes), options.useColor, ambient)
      decreases root, 1
    {
      var k: nat := 0;
      while k < |childFiles|
        invariant k <= |childFiles|
        invariant out.lines == earlier + Paint(VisitsUpTo(root, lvl, precedes, k), options.useColor, ambient)
        invariant out.currentColor == FinalColor(VisitsUpTo(root, lvl, precedes, k), options.useColor, ambient)
      {
        PrintChild(root, lvl, childFiles, k, earlier, ambient);
        k := k + 1;
      }
    }

    /** One turn of the loop: recurses into the `k`-th sorted child one level
        deeper, which extends the printed walk by that child's subtree. */
    method PrintChild(root: Node, lvl: nat, childFiles: seq<Node>, k: nat, ghost earlier: seq<Line>, ghost ambient: ConsoleColor)
      requires root.Dir? && root.listing.Listed?
      requires childFiles == SortedChildren(root, precedes) && k < |childFiles|
      requires out.lines == earlier + Paint(VisitsUpTo(root, lvl, precedes, k), options.useColor, ambient)
      requires out.currentColor == FinalColor(VisitsUpTo(root, lvl, precedes, k), options.useColor, ambient)
      modifies out
      ensures out.lines == earlier + Paint(VisitsUpTo(root, lvl, precedes, k + 1), options.useColor, ambient)
      ensures out.currentColor == FinalColor(VisitsUpTo(root, lvl, precedes, k + 1), options.useColor, ambient)
      decreases root, 0
    {
      LoopStep(root, lvl, precedes, k, options.useColor, ambient, earlier);
      ListedChildren(root);
      assert childFiles[k] in root.listing.children;
      PrintTreeHelper(childFiles[k], lvl + 1);
    }
  }

  /** Two printers that differ only in the hidden flag and in the colour sequence
      they were given print the same records over the same kind of sink. */
  method OutputIgnoresHiddenAndPalette(root: Node, useColor: bool, ambient: ConsoleColor,
                                       precedes: (string, string) -> bool,
                                       seqA: seq<ConsoleColor>, seqB: seq<ConsoleColor>)
    returns (linesA: seq<Line>, linesB: seq<Line>)
    ensures linesA == linesB
    ensures |linesA| == Size(root)
  {
    var sinkA := new ColorPrinter(ambient);
    var sinkB := new ColorPrinter(ambient);
    var a := new TruffulaPrinter(Options(root, false, useColor), sinkA, seqA, precedes);
    var b := new TruffulaPrinter(Options(root, true, useColor), sinkB, seqB, precedes);
    a.PrintTree();
    b.PrintTree();
    linesA, linesB := sinkA.lines, sinkB.lines;
    LineCount(root, 0, precedes);
  }
}
