/*
 * A sentence of the player's knowledge: "exactly `count` of `cells` are
 * mines".  `isMine` records that the sentence was stored for a cell that
 * was itself marked as a mine.
 */
module Sentences {
  import opened Board

  datatype Sentence = Sentence(cells: set<Cell>, count: int, isMine: bool)
  {
    /** Sentence equality compares the cells and the count and ignores the flag. */
    predicate Equals(other: Sentence)
      ensures Equals(other) <==> this.(isMine := other.isMine) == other
    {
      cells == other.cells && count == other.count
    }
  }

  /** Equality of sentences is an equivalence relation that cannot see the flag. */
  lemma EqualsIsEquivalence(a: Sentence, b: Sentence, c: Sentence, flag: bool)
    ensures a.Equals(a)
    ensures a.Equals(b) ==> b.Equals(a)
    ensures a.Equals(b) && b.Equals(c) ==> a.Equals(c)
    ensures a.Equals(a.(isMine := flag))
  {
  }
}
