/**
 * The depth-to-colour cycle of the tree printer: `DEFAULT_COLOR_SEQUENCE` and the
 * choice the printer makes from it for a given nesting level.
 */
module Palette {

  /** The console colours the printer names. `ConsoleColor` itself is not part of
      this model; every colour other than the three in the default sequence is an
      `Other` colour, distinguished by its code. */
  datatype ConsoleColor = White | Purple | Yellow | Other(code: string)

  /** `DEFAULT_COLOR_SEQUENCE`, in declared order. */
  const DefaultColorSequence: seq<ConsoleColor> := [White, Purple, Yellow]

  /** The colour for level `lvl` when colour is on: the default sequence, read
      from its start and begun again every three levels. */
  function ColorFor(lvl: nat): (c: ConsoleColor)
  {
    if lvl < 3 then DefaultColorSequence[lvl] else ColorFor(lvl - 3)
  }

  /** The colour for a level is the default sequence's entry at the level modulo
      three, which is how the printer selects it. */
  lemma {:induction false} ColorForIsModulo(lvl: nat)
    ensures ColorFor(lvl) == DefaultColorSequence[lvl % 3]
    decreases lvl
  {
    if lvl >= 3 {
      ColorForIsModulo(lvl - 3);
    }
  }

  /** Levels 0, 1 and 2 modulo three are white, purple and yellow, in the order
      the default sequence declares them. */
  lemma ColorForPhase(lvl: nat)
    ensures lvl % 3 == 0 ==> ColorFor(lvl) == White
    ensures lvl % 3 == 1 ==> ColorFor(lvl) == Purple
    ensures lvl % 3 == 2 ==> ColorFor(lvl) == Yellow
  {
    ColorForIsModulo(lvl);
  }

  /** The colour repeats every three levels. */
  lemma ColorCycle(lvl: nat)
    ensures ColorFor(lvl + 3) == ColorFor(lvl)
  {
  }

  /** Two levels get the same colour exactly when they agree modulo three. */
  lemma SameColorIffSamePhase(a: nat, b: nat)
    ensures ColorFor(a) == ColorFor(b) <==> a % 3 == b % 3
  {
    ColorForIsModulo(a);
    ColorForIsModulo(b);
  }
}
