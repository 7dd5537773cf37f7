# Truffula tree printer, modelled in Dafny

This project models the directory-tree renderer `TruffulaPrinter`. `printTree`
starts at the configured root at level 0. Its recursive helper `printTreeHelper`
does the following for each entry:
- if colour is on, it sets the output sink's current colour to
  `DEFAULT_COLOR_SEQUENCE[lvl % 3]` (white, purple, yellow);
- it builds the line: `lvl * 3` spaces, one at a time, then the entry's name,
  then a `/` when the entry is a directory;
- it prints the line;
- it lists the entry's children and stops if that listing is null;
- otherwise it sorts the children and recurses into each one at `lvl + 1`.

Modules:

- `FileTree` (`filetree.dfy`): the filesystem as a finite tree.
  - `Node` is `File(name)` or `Dir(name, listing)`.
  - A listing is `NoListing` (what `listFiles()` returns as `null`: a plain file
    or an unreadable directory) or `Listed(children)`.
  - `Size` counts the entries.
- `FileSorter` (`filesorter.dfy`): the reordering done by
  `AlphabeticalFileSorter.sort`, with the name order as a parameter.
- `Palette` (`palette.dfy`): the colours and `DEFAULT_COLOR_SEQUENCE`.
  - `ColorFor` defines the colour cycle as the default sequence, begun again
    every three levels.
- `TreeWalk` (`walk.dfy`): the walk as a function.
  - `Visits` is the order of the helper's calls, as (entry, level) pairs.
  - `Nodes` is an order-free reference description of the tree: every entry with
    its depth.
  - Lemmas about coverage, line count, depths and subtree blocks.
- `TreeLines` (`lines.dfy`): the record the sink gets for each visit. `LineText`
  is the line's text; `Paint` and `FinalColor` give the records and the sink's
  final colour.
- `Printer` (`printer.dfy`): the printer as the program runs it.
  - Class `ColorPrinter` is the sink: a current colour and the records printed so
    far.
  - Class `TruffulaPrinter` holds the options, the colour sequence and the sink.
  - Its methods run imperatively:
    - the colour if-chain;
    - the loop that appends spaces;
    - `println`;
    - the loop that recurses over the sorted children.
  - Each method is proved to append exactly `Paint(Visits(...))` to the sink.

The code is followed where it differs from its own doc comments:
- `showHidden` is never read, so hidden entries are printed like any other.
- The `colorSequence` given to the constructor is never consulted. Only the
  default sequence is used.
- The inline comments at lines 141 and 145 name the wrong colours. The code
  selects index `lvl % 3`: white, purple, yellow for levels 0, 1, 2.
- With colour off, nothing sets the sink's colour. The doc comment says the
  output is then white. The model keeps whatever colour the sink already holds.

## Model

| member | source | states |
|---|---|---|
| Printer.TruffulaPrinter.PrintTree | src/TruffulaPrinter.java:111-130 | Printing from the root at level 0 appends exactly the records of the pre-order walk of the whole tree. The sink ends in the colour of the last line. With colour off, the sink's colour is unchanged. |
| Printer.TruffulaPrinter.PrintTreeHelper | src/TruffulaPrinter.java:132-167 | One call appends the records of the entry and its whole subtree, in walk order, starting from the sink's colour. A null listing stops after the entry's own line. |
| Printer.TruffulaPrinter.PrintEntry | src/TruffulaPrinter.java:133-158 | The colour if-chain and the space-appending loop write exactly one record: the entry's line, in the colour for its level when colour is on, otherwise in the sink's colour. |
| Printer.TruffulaPrinter.PrintChildren | src/TruffulaPrinter.java:163-166 | After the loop has recursed into the first `k` sorted children, the sink holds the entry's record and those children's subtrees in order. At the end it holds the whole walk. |
| Printer.TruffulaPrinter.constructor | src/TruffulaPrinter.java:73-77 | The printer keeps the options, the colour sequence and the sink it is given, so every print call writes to that one sink. |
| Printer.TruffulaPrinter.PrintChild | src/TruffulaPrinter.java:164-165 | One turn of the loop recurses into the `k`-th sorted child at `lvl + 1` and extends the sink's records by exactly that child's subtree, leaving the sink in the colour of its last line. |
| Printer.OutputIgnoresHiddenAndPalette | src/TruffulaPrinter.java:73-77 | Two printers that differ only in `showHidden` and in the constructor's colour sequence print identical records. There is one record per entry of the tree. |
| FileSorter.Sort | src/TruffulaPrinter.java:162 | Sorting the child array keeps the same entries with the same multiplicities. Only the order may change. |
| FileSorter.Insert | src/TruffulaPrinter.java:162 | Placing one entry into a sorted prefix adds exactly that entry. |
| Palette.ColorForIsModulo | src/TruffulaPrinter.java:136-149 | The colour of level `lvl` is `DEFAULT_COLOR_SEQUENCE[lvl % 3]`, as the if-chain selects it. |
| Palette.ColorForPhase | src/TruffulaPrinter.java:30-31 | Levels 0, 1 and 2 modulo three are white, purple and yellow. |
| Palette.ColorCycle | src/TruffulaPrinter.java:136-149 | The colour of level `lvl + 3` is the colour of level `lvl`. |
| Palette.SameColorIffSamePhase | src/TruffulaPrinter.java:136-149 | Two levels get the same colour exactly when they agree modulo three. |
| TreeLines.LineFormat | src/TruffulaPrinter.java:151-157 | A line is `lvl * 3` spaces, then the name, then one more character exactly when the entry is a directory, and that character is `/`. |
| TreeLines.SpacesAreBlank | src/TruffulaPrinter.java:151-153 | The indentation loop produces only spaces. |
| TreeLines.TreeRecords | src/TruffulaPrinter.java:132-166 | The records of a tree: one per entry, the root's first. Each text is the line of the entry visited at that position. With colour on, each colour is `DEFAULT_COLOR_SEQUENCE[level % 3]`. With colour off, each colour is the sink's unchanged colour. |
| TreeLines.HiddenChildPrinted | src/TruffulaPrinter.java:159-165 | A child whose name starts with `.` still gets its line, one level below its directory. |
| TreeLines.PaintAt | src/TruffulaPrinter.java:136-158 | The `i`-th record is the `i`-th visit's line in that visit's colour. |
| TreeLines.PaintIgnoresAmbient | src/TruffulaPrinter.java:136-149 | With colour on, the records do not depend on the colour the sink held before. |
| TreeLines.PaintThen | src/TruffulaPrinter.java:164-166 | Printing one run of visits and then a second run, from the colour the first left behind, gives the records of the two runs joined. |
| TreeLines.LoopStep | src/TruffulaPrinter.java:164-166 | One turn of the children loop extends the printed walk by exactly the next sorted child's subtree. |
| TreeWalk.SortedChildren | src/TruffulaPrinter.java:159-162 | The children recursed into are a permutation of the listing. |
| TreeWalk.Visits | src/TruffulaPrinter.java:132-166 | The walk from an entry starts with that entry, at the level it was called with. |
| TreeWalk.VisitsUpToStep | src/TruffulaPrinter.java:164-165 | Recursing into one more child appends exactly that child's subtree. |
| TreeWalk.VisitLevels | src/TruffulaPrinter.java:163-165 | Every visit after an entry's own is strictly deeper than that entry. |
| TreeWalk.VisitsCoverTree | src/TruffulaPrinter.java:158-165 | The multiset of visits equals the reference description. Every entry is printed exactly once, at its depth. |
| TreeWalk.NodesAllPermutation | src/TruffulaPrinter.java:162 | Reordering the children does not change which entries, at which depths, lie below them. |
| TreeWalk.LineCount | src/TruffulaPrinter.java:158-165 | The number of lines equals the number of entries in the tree. |
| TreeWalk.EveryEntryVisited | src/TruffulaPrinter.java:158-165 | An (entry, depth) pair is visited exactly when it occurs in the tree. |
| TreeWalk.EveryListedChildVisited | src/TruffulaPrinter.java:163-165 | Every listed child is visited exactly one level below its directory. |
| TreeWalk.ChildBlock | src/TruffulaPrinter.java:162-165 | The `k`-th sorted child's subtree is one consecutive block of the walk. The block comes after the parent's line and after the subtrees of the children sorted before it. |
| TreeWalk.LoneVisit | src/TruffulaPrinter.java:159-161 | An entry contributes only its own line exactly when its listing is null or empty. |

## Left out

- The real filesystem is not modelled. `File.listFiles`, `isDirectory`, `getName` and `options.getRoot()` become the finite `Node` tree. Symbolic-link cycles on a real disk cannot be expressed.
- `ColorPrinter`, `PrintStream`, `System.out` and ANSI escape codes are an output sink outside this code. The model keeps only a current colour and the list of records printed. `ConsoleColor` is reduced to the three colours used plus `Other`.
- `AlphabeticalFileSorter` is not part of this model. Its order is a parameter on names, and the model sorts by insertion under it. Only the fact that the result is a permutation is proved. The case-insensitive order described in the doc comment is not proved, because no code backs it here.
- FileSorter.Sort: the sorter works in place on the `File[]` array. The model returns a reordered sequence instead, so array aliasing is not captured.
- The convenience constructors at lines 39-63 only fill in defaults. The model's constructor takes the sink itself rather than a `PrintStream`.
- `TruffulaOptions` and its tests (`TruffulaOptionsTest.java`) are not part of this model. Their source is not available.
- `lvl` and `lvl * 3` are unbounded integers. In Java, `lvl * 3` overflows an `int` once `lvl` exceeds 715,827,882 (`Integer.MAX_VALUE / 3`), and `lvl` itself overflows beyond 2^31 - 1. The model's `nat` has no bound.
- Printer.TruffulaPrinter.PrintEntry, Printer.TruffulaPrinter.PrintChildren and Printer.TruffulaPrinter.PrintChild are pieces of `printTreeHelper`. `PrintEntry` is its line-printing half, `PrintChildren` its children loop, and `PrintChild` one turn of that loop. `PrintTreeHelper` calls them in the source's order. The steps they perform are the source's own, in its order.
- The hidden-file filtering promised by the doc comment is not implemented by the code, so it is not modelled as behaviour.
