/*
 * The Minesweeper player: the moves it has made, the cells it knows to be
 * mines or safe, and one stored sentence per cell it has been told about.
 */
module Ai {
  import opened Board
  import opened Sentences
  import opened Knowledge

  datatype Option<T> = None | Some(value: T)

  class MinesweeperAI {
    const height: int
    const width: int
    /** Cells clicked on, or marked as mines. */
    var movesMade: set<Cell>
    var mines: set<Cell>
    var safes: set<Cell>
    /** The sentence stored for each cell add_knowledge was called on. */
    var knowledge: map<Cell, Sentence>

    /** Every known mine has been recorded as a move. */
    ghost predicate Valid()
      reads this
    {
      mines <= movesMade
    }

    constructor (height: int := 8, width: int := 8)
      ensures this.height == height && this.width == width
      ensures movesMade == {} && mines == {} && safes == {} && knowledge == map[]
      ensures Valid()
    {
      this.height := height;
      this.width := width;
      movesMade := {};
      mines := {};
      safes := {};
      knowledge := map[];
    }

    /**
     * Records `cell` as a mine and re-enters add_knowledge for it with a zero
     * clue; that call marks no further mine, so the recursion stops there.
     */
    method MarkMine(cell: Cell, ghost truth: set<Cell>)
      modifies this
      decreases 1
      ensures mines == old(mines) + {cell}
      ensures Learned(height, width, old(movesMade), old(mines) + {cell}, old(safes), old(knowledge),
                      cell, 0, true, movesMade, safes, knowledge, {})
      ensures movesMade == old(movesMade) + {cell}
      ensures old(safes) <= safes
      ensures knowledge.Keys == old(knowledge).Keys + {cell} && knowledge[cell].isMine
      ensures Refines(old(knowledge), knowledge, {cell})
      ensures Cleared(knowledge, Block(height, width, cell), cell)
      ensures knowledge[cell].cells !! movesMade && knowledge[cell].cells !! mines
      ensures old(Valid()) ==> Valid()
      ensures old(Sound(truth, movesMade, mines, safes, knowledge) && Indexed(mines, knowledge, {})) &&
              cell in truth ==>
              Sound(truth, movesMade, mines, safes, knowledge) && Indexed(mines, knowledge, {})
    {
      mines := mines + {cell};
      AddKnowledge(cell, 0, true, truth);
      LearnKeys(height, width, old(movesMade), old(mines) + {cell}, old(safes), old(knowledge),
                cell, 0, true, movesMade, safes, knowledge, {});
      LearnCleared(height, width, old(movesMade), old(mines) + {cell}, old(safes), old(knowledge),
                   cell, 0, true, movesMade, safes, knowledge, {});
    }

    method MarkSafe(cell: Cell)
      modifies this
      ensures safes == old(safes) + {cell}
      ensures movesMade == old(movesMade) && mines == old(mines) && knowledge == old(knowledge)
    {
      safes := safes + {cell};
    }

    /**
     * Lines 194-230, for one cell `neighbor` of the block: a mine-flagged
     * sentence stored there lowers the clue, and a sentence there that
     * mentions `cell` drops it and may resolve.
     */
    method VisitNeighbor(cell: Cell, count: int, isMine: bool, neighbor: Cell)
      returns (adjusted: int, discovered: set<Cell>)
      modifies this
      ensures adjusted == if FlagAt(old(knowledge), neighbor) != {} then Decrement(count) else count
      ensures knowledge == ShrinkAt(old(knowledge), neighbor, cell, isMine)
      ensures safes == old(safes) + FreedAt(old(knowledge), neighbor, cell, isMine)
      ensures discovered == FoundAt(old(knowledge), neighbor, cell, isMine)
      ensures movesMade == old(movesMade) && mines == old(mines)
    {
      adjusted, discovered := count, {};
      if neighbor in knowledge {
        var sentence := knowledge[neighbor];
        if sentence.isMine {
          adjusted := Decrement(adjusted);
        }
        if cell in sentence.cells {
          // The stored sentence is updated in place: its entry is overwritten.
          sentence := sentence.(cells := sentence.cells - {cell});
          if isMine {
            sentence := sentence.(count := sentence.count - 1);
            if sentence.count == 0 {
              safes := safes + sentence.cells;  // mark_safe on each cell of the sentence (lines 216-218)
            }
          } else if |sentence.cells| == sentence.count && |sentence.cells| > 0 {
            discovered := sentence.cells;
          }
          knowledge := knowledge[neighbor := sentence];
        }
      }
    }

    /**
     * One cell `neighbor` of the scan, taking the scan's summary of the cells
     * `visited` before it to the summary of `visited + {neighbor}`: the clue
     * adjusted so far, the knowledge, the cells marked safe and those found
     * to be mines, all measured against the knowledge `before` the scan.
     */
    method VisitStep(cell: Cell, count: int, isMine: bool, neighbor: Cell,
                     ghost before: map<Cell, Sentence>, ghost safes0: set<Cell>, ghost visited: set<Cell>,
                     adjusted0: int, discovered0: set<Cell>)
      returns (adjusted: int, discovered: set<Cell>)
      modifies this
      requires neighbor !in visited
      requires adjusted0 == Adjust(count, |Flagged(before, visited)|)
      requires knowledge == Shrunk(before, visited, cell, isMine)
      requires safes == safes0 + Freed(before, visited, cell, isMine)
      requires discovered0 == Found(before, visited, cell, isMine)
      ensures adjusted == Adjust(count, |Flagged(before, visited + {neighbor})|)
      ensures knowledge == Shrunk(before, visited + {neighbor}, cell, isMine)
      ensures safes == safes0 + Freed(before, visited + {neighbor}, cell, isMine)
      ensures discovered == Found(before, visited + {neighbor}, cell, isMine)
      ensures movesMade == old(movesMade) && mines == old(mines)
    {
      ghost var current, safes1 := knowledge, safes;
      var mentioned;
      adjusted, mentioned := VisitNeighbor(cell, adjusted0, isMine, neighbor);
      discovered := discovered0 + mentioned;
      AdjustedStep(before, visited, neighbor, cell, isMine, count, current, adjusted0, adjusted);
      ShrunkStep(before, visited, neighbor, cell, isMine, current, knowledge);
      FreedStep(before, visited, neighbor, cell, isMine, safes0, current, safes1, safes);
      FoundStep(before, visited, neighbor, cell, isMine, current, discovered0, discovered);
    }

    /** Lines 190-232 for row `i` of the block: the inner loop of the scan. */
    method VisitRow(cell: Cell, count: int, isMine: bool, i: int,
                    ghost before: map<Cell, Sentence>, ghost safes0: set<Cell>,
                    adjusted0: int, neighbors0: set<Cell>, discovered0: set<Cell>)
      returns (adjusted: int, neighbors: set<Cell>, discovered: set<Cell>)
      modifies this
      requires Max(0, cell.0 - 1) <= i < Min(width, cell.0 + 2)
      requires neighbors0 == Prefix(Block(height, width, cell), i, Max(0, cell.1 - 1))
      requires adjusted0 == Adjust(count, |Flagged(before, neighbors0)|)
      requires knowledge == Shrunk(before, neighbors0, cell, isMine)
      requires safes == safes0 + Freed(before, neighbors0, cell, isMine)
      requires discovered0 == Found(before, neighbors0, cell, isMine)
      ensures neighbors == Prefix(Block(height, width, cell), i + 1, Max(0, cell.1 - 1))
      ensures adjusted == Adjust(count, |Flagged(before, neighbors)|)
      ensures knowledge == Shrunk(before, neighbors, cell, isMine)
      ensures safes == safes0 + Freed(before, neighbors, cell, isMine)
      ensures discovered == Found(before, neighbors, cell, isMine)
      ensures movesMade == old(movesMade) && mines == old(mines)
    {
      ghost var block := Block(height, width, cell);
      adjusted, neighbors, discovered := adjusted0, neighbors0, discovered0;
      var j := Max(0, cell.1 - 1);
      while j < Min(height, cell.1 + 2)
        invariant Max(0, cell.1 - 1) <= j
        invariant neighbors == Prefix(block, i, j)
        invariant adjusted == Adjust(count, |Flagged(before, neighbors)|)
        invariant knowledge == Shrunk(before, neighbors, cell, isMine)
        invariant safes == safes0 + Freed(before, neighbors, cell, isMine)
        invariant discovered == Found(before, neighbors, cell, isMine)
        invariant movesMade == old(movesMade) && mines == old(mines)
      {
        PrefixStep(height, width, cell, i, j);
        adjusted, discovered := VisitStep(cell, count, isMine, (i, j), before, safes0, neighbors,
                                          adjusted, discovered);
        neighbors := neighbors + {(i, j)};
        j := j + 1;
      }
      PrefixRow(height, width, cell, i, j);
    }

    /**
     * Lines 186-232: the row-major scan of the block around `cell`.  Each
     * stored sentence of the block that mentions `cell` drops it, the clue is
     * lowered once per mine-flagged sentence, and resolved sentences mark
     * cells safe or report them as mines.
     */
    method VisitBlock(cell: Cell, count: int, isMine: bool)
      returns (adjusted: int, neighbors: set<Cell>, discovered: set<Cell>)
      modifies this
      ensures neighbors == Block(height, width, cell)
      ensures adjusted == Adjust(count, |Flagged(old(knowledge), neighbors)|)
      ensures knowledge == Shrunk(old(knowledge), neighbors, cell, isMine)
      ensures safes == old(safes) + Freed(old(knowledge), neighbors, cell, isMine)
      ensures discovered == Found(old(knowledge), neighbors, cell, isMine)
      ensures movesMade == old(movesMade) && mines == old(mines)
    {
      ghost var block := Block(height, width, cell);
      ghost var before := knowledge;
      adjusted, neighbors, discovered := count, {}, {};
      var i := Max(0, cell.0 - 1);
      PrefixStart(height, width, cell);
      while i < Min(width, cell.0 + 2)
        invariant Max(0, cell.0 - 1) <= i
        invariant neighbors == Prefix(block, i, Max(0, cell.1 - 1))
        invariant adjusted == Adjust(count, |Flagged(before, neighbors)|)
        invariant knowledge == Shrunk(before, neighbors, cell, isMine)
        invariant safes == old(safes) + Freed(before, neighbors, cell, isMine)
        invariant discovered == Found(before, neighbors, cell, isMine)
        invariant movesMade == old(movesMade) && mines == old(mines)
      {
        adjusted, neighbors, discovered := VisitRow(cell, count, isMine, i, before, old(safes),
                                                    adjusted, neighbors, discovered);
        i := i + 1;
      }
      PrefixEnd(height, width, cell, i);
    }

    /**
     * Told that `cell` has `count` mines around it (or, with `isMine`, that
     * `cell` is a mine): records the move, updates the neighbouring
     * sentences, stores a sentence over the unknown neighbours, and marks
     * the cells that sentence or the scan resolves.  The opened cell itself
     * is not added to `safes`.
     */
    method AddKnowledge(cell: Cell, count: int, isMine: bool, ghost truth: set<Cell>)
      modifies this
      decreases if count == 0 && isMine then 0 else 4
      ensures cell in movesMade
      ensures old(movesMade) <= movesMade && old(mines) <= mines && old(safes) <= safes
      ensures mines - movesMade <= old(mines - movesMade) - {cell}
      ensures old(Valid()) ==> Valid()
      ensures count == 0 && isMine ==> mines == old(mines) && movesMade == old(movesMade) + {cell}
      ensures var queued := Queued(height, width, old(movesMade), old(mines), old(knowledge), cell, count, isMine);
        && mines == old(mines) + queued
        && movesMade == old(movesMade) + {cell} + queued
        && knowledge.Keys == old(knowledge).Keys + {cell} + queued
      ensures count == 0 && isMine ==>
              Learned(height, width, old(movesMade), old(mines), old(safes), old(knowledge), cell, count, isMine,
                      movesMade, safes, knowledge, {})
      ensures knowledge[cell].isMine == isMine
      ensures knowledge[cell].cells !! old(movesMade) + {cell} && knowledge[cell].cells !! old(mines)
      ensures Cleared(knowledge, Block(height, width, cell), cell)
      ensures Refines(old(knowledge), knowledge, mines + {cell})
      ensures Refines(old(knowledge), knowledge,
                      {cell} + Queued(height, width, old(movesMade), old(mines), old(knowledge), cell, count, isMine))
      ensures Queued(height, width, old(movesMade), old(mines), old(knowledge), cell, count, isMine) == {} ==>
              Learned(height, width, old(movesMade), old(mines), old(safes), old(knowledge), cell, count, isMine,
                      movesMade, safes, knowledge, {})
      ensures count == 0 && isMine ==> Refines(old(knowledge), knowledge, {cell})
      ensures var s := NewSentence(height, width, old(movesMade), old(mines), old(knowledge), cell, count, isMine);
        && (|s.cells| == s.count && s.count != 0 ==> s.cells <= mines)
        && (s.count == 0 && !isMine ==> s.cells <= safes)
      ensures Found(old(knowledge), Block(height, width, cell), cell, isMine) <= mines
      ensures Freed(old(knowledge), Block(height, width, cell), cell, isMine) <= safes
      ensures old(Sound(truth, movesMade, mines, safes, knowledge) && Indexed(mines, knowledge, {cell})) &&
              Clue(truth, height, width, old(mines), cell, count, isMine) ==>
              Sound(truth, movesMade, mines, safes, knowledge) && Indexed(mines, knowledge, {})
    {
      ghost var moves0, mines0, safes0, knowledge0 := movesMade, mines, safes, knowledge;
      var discovered := Learn(cell, count, isMine);
      LearnKeys(height, width, moves0, mines0, safes0, knowledge0, cell, count, isMine,
                movesMade, safes, knowledge, discovered);
      LearnResolved(height, width, moves0, mines0, safes0, knowledge0, cell, count, isMine,
                    movesMade, safes, knowledge, discovered);
      LearnSoundAt(truth, height, width, moves0, mines0, safes0, knowledge0, cell, count, isMine,
                   movesMade, safes, knowledge, discovered);
      LearnCleared(height, width, moves0, mines0, safes0, knowledge0, cell, count, isMine,
                   movesMade, safes, knowledge, discovered);
      ghost var mines1, moves1, knowledge1 := mines, movesMade, knowledge;
      if discovered != {} {
        MarkMines(discovered, truth);
        ClearedKept(knowledge1, knowledge, discovered, Block(height, width, cell), cell);
        RefinesTransitive(knowledge0, knowledge1, knowledge, {cell}, discovered);
      }
      QueuedMarked(old(mines), mines1, mines, old(movesMade), moves1, movesMade,
                   knowledge0.Keys, knowledge1.Keys, knowledge.Keys, cell, discovered,
                   Queued(height, width, old(movesMade), old(mines), knowledge0, cell, count, isMine));
    }

    /**
     * Lines 185-247, the part of add_knowledge before any mine is marked:
     * returns the cells it found to be mines.
     */
    method Learn(cell: Cell, count: int, isMine: bool) returns (discovered: set<Cell>)
      modifies this
      ensures Learned(height, width, old(movesMade), old(mines), old(safes), old(knowledge), cell, count, isMine,
                      movesMade, safes, knowledge, discovered)
      ensures mines == old(mines)
    {
      ghost var moves0, mines0, safes0, knowledge0 := movesMade, mines, safes, knowledge;
      movesMade := movesMade + {cell};
      var adjusted, neighbors;
      adjusted, neighbors, discovered := VisitBlock(cell, count, isMine);
      ghost var block, shrunk, safes1, found1 := neighbors, knowledge, safes, discovered;
      neighbors := neighbors - movesMade - mines;
      knowledge := knowledge[cell := Sentence(neighbors, adjusted, isMine)];
      if |neighbors| == adjusted && adjusted != 0 {
        discovered := discovered + neighbors;
      } else if adjusted == 0 && !isMine {
        safes := safes + neighbors;  // mark_safe on each neighbour (lines 245-247)
      }
      LearnedFrom(height, width, moves0, mines0, safes0, knowledge0, cell, count, isMine,
                  block, adjusted, shrunk, safes1, found1, neighbors, movesMade, safes, knowledge, discovered);
    }

    /** Lines 249-250: mark_mine on each discovered mine, in some order. */
    method MarkMines(discovered: set<Cell>, ghost truth: set<Cell>)
      modifies this
      decreases 3
      ensures mines == old(mines) + discovered && movesMade == old(movesMade) + discovered
      ensures old(safes) <= safes
      ensures knowledge.Keys == old(knowledge).Keys + discovered
      ensures Refines(old(knowledge), knowledge, discovered)
      ensures Settled(height, width, knowledge, discovered, old(movesMade))
      ensures old(Sound(truth, movesMade, mines, safes, knowledge) && Indexed(mines, knowledge, {})) &&
              discovered <= truth ==>
              Sound(truth, movesMade, mines, safes, knowledge) && Indexed(mines, knowledge, {})
    {
      ghost var premise := Sound(truth, movesMade, mines, safes, knowledge) &&
                           Indexed(mines, knowledge, {}) && discovered <= truth;
      var pending := discovered;
      ghost var done: set<Cell> := {};
      while pending != {}
        invariant done + pending == discovered && done !! pending
        invariant mines == old(mines) + done
        invariant movesMade == old(movesMade) + done
        invariant old(safes) <= safes
        invariant knowledge.Keys == old(knowledge).Keys + done
        invariant Refines(old(knowledge), knowledge, done)
        invariant Settled(height, width, knowledge, done, old(movesMade))
        invariant premise ==> Sound(truth, movesMade, mines, safes, knowledge) && Indexed(mines, knowledge, {})
        decreases pending
      {
        var mine :| mine in pending;
        MarkNext(mine, old(mines), old(movesMade), old(safes), old(knowledge), done, truth, premise);
        pending := pending - {mine};
        done := done + {mine};
      }
    }

    /**
     * One pass of the loop at lines 249-250: mark_mine on `mine`, after the
     * `done` ones, carrying the loop's summary from `done` to `done + {mine}`.
     */
    method MarkNext(mine: Cell, ghost mines0: set<Cell>, ghost moves0: set<Cell>, ghost safes0: set<Cell>,
                    ghost knowledge0: map<Cell, Sentence>, ghost done: set<Cell>, ghost truth: set<Cell>,
                    ghost premise: bool)
      modifies this
      decreases 2
      requires mine !in done
      requires mines == mines0 + done && movesMade == moves0 + done && safes0 <= safes
      requires knowledge.Keys == knowledge0.Keys + done && Refines(knowledge0, knowledge, done)
      requires Settled(height, width, knowledge, done, moves0)
      requires premise ==> mine in truth && Sound(truth, movesMade, mines, safes, knowledge) &&
                           Indexed(mines, knowledge, {})
      ensures mines == mines0 + (done + {mine}) && movesMade == moves0 + (done + {mine}) && safes0 <= safes
      ensures knowledge.Keys == knowledge0.Keys + (done + {mine}) && Refines(knowledge0, knowledge, done + {mine})
      ensures Settled(height, width, knowledge, done + {mine}, moves0)
      ensures premise ==> Sound(truth, movesMade, mines, safes, knowledge) && Indexed(mines, knowledge, {})
    {
      ghost var mines1, moves1, before := mines, movesMade, knowledge;
      MarkMine(mine, truth);
      SettledStep(height, width, before, knowledge, done, moves0, mines, movesMade, mine);
      RefinesTransitive(knowledge0, before, knowledge, done, {mine});
      MarkedOneMore(mines0, mines1, mines, moves0, moves1, movesMade,
                    knowledge0.Keys, before.Keys, knowledge.Keys, done, mine);
    }

    /** Some known-safe cell not yet played, if there is one. */
    method MakeSafeMove() returns (move: Option<Cell>)
      ensures move.Some? <==> safes - movesMade != {}
      ensures move.Some? ==> move.value in safes && move.value !in movesMade
    {
      var unexploredSafes := safes - movesMade;
      if unexploredSafes != {} {
        var safeMove :| safeMove in unexploredSafes;
        return Some(safeMove);
      }
      return None;
    }

    /**
     * The first cell of the 7 x 7 square at the origin, in row-major order,
     * that has not been played; none once all 49 have been.
     */
    method MakeRandomMove() returns (move: Option<Cell>)
      ensures move.Some? ==> 0 <= move.value.0 < 7 && 0 <= move.value.1 < 7
      ensures move.Some? ==> move.value !in movesMade
      ensures move.Some? ==> forall i, j | 0 <= i < 7 && 0 <= j < 7 &&
                (i < move.value.0 || (i == move.value.0 && j < move.value.1)) :: (i, j) in movesMade
      ensures move.None? ==> forall i, j | 0 <= i < 7 && 0 <= j < 7 :: (i, j) in movesMade
      ensures move.Some? && Valid() ==> move.value !in mines
    {
      var i := 0;
      while i < 7
        invariant 0 <= i <= 7
        invariant forall a, b | 0 <= a < i && 0 <= b < 7 :: (a, b) in movesMade
      {
        var j := 0;
        while j < 7
          invariant 0 <= j <= 7
          invariant forall a, b | 0 <= a < i && 0 <= b < 7 :: (a, b) in movesMade
          invariant forall b | 0 <= b < j :: (i, b) in movesMade
        {
          if (i, j) !in movesMade {
            return Some((i, j));
          }
          j := j + 1;
        }
        i := i + 1;
      }
      return None;
    }
  }
}
