/*
 * The pure side of the player's knowledge base: the block of cells that
 * add_knowledge visits, the clue adjustment, the effect of the block scan
 * on stored sentences, and what it means for the knowledge to be true of
 * a board.
 */
module Knowledge {
  import opened Board
  import opened Sentences

  function Max(a: int, b: int): int { if a < b then b else a }
  function Min(a: int, b: int): int { if a < b then a else b }

  /**
   * The cells add_knowledge visits around `cell`, `cell` included.  Rows are
   * clipped by the width and columns by the height, as written.
   */
  predicate InBlock(height: int, width: int, cell: Cell, d: Cell)
  {
    Max(0, cell.0 - 1) <= d.0 < Min(width, cell.0 + 2) &&
    Max(0, cell.1 - 1) <= d.1 < Min(height, cell.1 + 2)
  }

  function Block(height: int, width: int, cell: Cell): (b: set<Cell>)
    ensures forall d :: d in b <==> InBlock(height, width, cell, d)
  {
    set i: int, j: int | Max(0, cell.0 - 1) <= i < Min(width, cell.0 + 2) &&
                         Max(0, cell.1 - 1) <= j < Min(height, cell.1 + 2) :: (i, j)
  }

  /**
   * On a square board the block around an on-board cell is that cell and its
   * on-board neighbours, so the mines in it are the ones the board counts.
   */
  lemma SquareBlockMines(height: int, width: int, truth: set<Cell>, cell: Cell)
    requires height == width && InGrid(height, width, cell) && cell !in truth
    ensures Block(height, width, cell) * truth == MinesAround(height, width, truth, cell)
  {
  }

  /**
   * On a 2 x 3 board the block around (0, 2) misses the neighbour (1, 2):
   * the swapped bounds stop columns at the height.
   */
  lemma SwappedBoundsMissNeighbour()
    ensures (1, 2) in MinesAround(2, 3, {(1, 2)}, (0, 2))
    ensures (1, 2) !in Block(2, 3, (0, 2))
  {
  }

  /** `if count: count -= 1` */
  function Decrement(count: int): int
  {
    if count != 0 then count - 1 else count
  }

  /** The clue after `k` guarded decrements, one per neighbour stored as a mine. */
  function Adjust(count: int, k: nat): int
  {
    if k == 0 then count else Decrement(Adjust(count, k - 1))
  }

  /**
   * The adjusted clue never exceeds the clue, stays non-negative when the
   * clue is, and is an exact subtraction while the clue covers every decrement.
   */
  lemma {:induction false} AdjustBounds(count: int, k: nat)
    ensures Adjust(count, k) <= count
    ensures count >= 0 ==> Adjust(count, k) >= 0
    ensures k <= count ==> Adjust(count, k) == count - k
  {
    if k > 0 {
      AdjustBounds(count, k - 1);
    }
  }

  /** One more flagged neighbour means one more guarded decrement. */
  lemma AdjustStep(count: int, k: nat, flag: set<Cell>, p: Cell)
    requires flag == {} || flag == {p}
    ensures Adjust(count, k + |flag|) == if flag != {} then Decrement(Adjust(count, k)) else Adjust(count, k)
  {
  }

  /** The cells of `cells` whose stored sentence is flagged as a mine. */
  function Flagged(knowledge: map<Cell, Sentence>, cells: set<Cell>): set<Cell>
  {
    set n | n in cells && n in knowledge && knowledge[n].isMine
  }

  /** A stored sentence after `cell` is removed from it (lines 207 and 213). */
  function Shrink(s: Sentence, cell: Cell, isMine: bool): Sentence
  {
    s.(cells := s.cells - {cell}, count := if isMine then s.count - 1 else s.count)
  }

  /** The sentences stored at `visited` keys that mention `cell`. */
  predicate Mentions(knowledge: map<Cell, Sentence>, visited: set<Cell>, cell: Cell, n: Cell)
  {
    n in visited && n in knowledge && cell in knowledge[n].cells
  }

  /** The knowledge once every sentence stored at a visited key has dropped `cell`. */
  function Shrunk(knowledge: map<Cell, Sentence>, visited: set<Cell>, cell: Cell, isMine: bool)
    : map<Cell, Sentence>
  {
    map n | n in knowledge ::
      if Mentions(knowledge, visited, cell, n) then Shrink(knowledge[n], cell, isMine) else knowledge[n]
  }

  /** A sentence mentioning a mine `cell` whose count drops to zero once `cell` is removed. */
  predicate ClearsSafe(s: Sentence, cell: Cell, isMine: bool)
  {
    isMine && Shrink(s, cell, isMine).count == 0
  }

  /** A sentence mentioning a safe `cell` whose other cells must all be mines. */
  predicate ClearsMines(s: Sentence, cell: Cell, isMine: bool)
  {
    !isMine && |s.cells - {cell}| == s.count && |s.cells - {cell}| > 0
  }

  /** Cells marked safe during the scan: those of a sentence whose count drops to zero (lines 214-218). */
  function Freed(knowledge: map<Cell, Sentence>, visited: set<Cell>, cell: Cell, isMine: bool)
    : set<Cell>
  {
    set n, d | n in knowledge && d in knowledge[n].cells &&
               Mentions(knowledge, visited, cell, n) && ClearsSafe(knowledge[n], cell, isMine) &&
               d != cell :: d
  }

  /** Cells found to be mines during the scan: those of a sentence that became all mines (lines 222-227). */
  function Found(knowledge: map<Cell, Sentence>, visited: set<Cell>, cell: Cell, isMine: bool)
    : set<Cell>
  {
    set n, d | n in knowledge && d in knowledge[n].cells &&
               Mentions(knowledge, visited, cell, n) && ClearsMines(knowledge[n], cell, isMine) &&
               d != cell :: d
  }

  /* The row-major scan of the block, one cell at a time. */

  lemma PrefixStart(height: int, width: int, cell: Cell)
    ensures Prefix(Block(height, width, cell), Max(0, cell.0 - 1), Max(0, cell.1 - 1)) == {}
  {
  }

  lemma PrefixStep(height: int, width: int, cell: Cell, i: int, j: int)
    requires InBlock(height, width, cell, (i, j))
    ensures var block := Block(height, width, cell);
      (i, j) !in Prefix(block, i, j) && Prefix(block, i, j + 1) == Prefix(block, i, j) + {(i, j)}
  {
  }

  lemma PrefixRow(height: int, width: int, cell: Cell, i: int, j: int)
    requires j >= Min(height, cell.1 + 2)
    ensures var block := Block(height, width, cell);
      Prefix(block, i, j) == Prefix(block, i + 1, Max(0, cell.1 - 1))
  {
  }

  lemma PrefixEnd(height: int, width: int, cell: Cell, i: int)
    requires i >= Min(width, cell.0 + 2)
    ensures var block := Block(height, width, cell);
      Prefix(block, i, Max(0, cell.1 - 1)) == block
  {
  }

  /**
   * The sentence add_knowledge stores for `cell` (line 236), given the state
   * on entry: the block minus the moves (now including `cell`) and the known
   * mines, with the clue lowered once per flagged neighbour.
   */
  function NewSentence(height: int, width: int, moves: set<Cell>, mines: set<Cell>,
                       knowledge: map<Cell, Sentence>, cell: Cell, count: int, isMine: bool): Sentence
  {
    var block := Block(height, width, cell);
    Sentence(block - (moves + {cell}) - mines, Adjust(count, |Flagged(knowledge, block)|), isMine)
  }

  /**
   * The new sentence talks only about unknown cells of the block, never about
   * `cell` itself, and its count is at most the clue and non-negative when the
   * clue is.
   */
  lemma NewSentenceShape(height: int, width: int, moves: set<Cell>, mines: set<Cell>,
                         knowledge: map<Cell, Sentence>, cell: Cell, count: int, isMine: bool)
    ensures var s := NewSentence(height, width, moves, mines, knowledge, cell, count, isMine);
      && s.cells <= Block(height, width, cell)
      && cell !in s.cells && s.cells !! moves && s.cells !! mines
      && s.count <= count && (count >= 0 ==> s.count >= 0)
  {
    AdjustBounds(count, |Flagged(knowledge, Block(height, width, cell))|);
  }

  /**
   * A sentence not flagged as a mine is true of the board `truth`; a
   * mine-flagged one claims only a count of at most zero.
   */
  ghost predicate Truthful(s: Sentence, truth: set<Cell>)
  {
    if s.isMine then s.count <= 0 else s.count == |s.cells * truth|
  }

  /**
   * The knowledge base agrees with the board whose mines are `truth`: every
   * known mine is a mine, no known safe is, every move that is a mine was
   * marked as one, only marked mines carry mine-flagged sentences, and every
   * stored sentence is Truthful (a mine-flagged one only claims a count of at
   * most zero).
   */
  ghost predicate Sound(truth: set<Cell>, moves: set<Cell>, mines: set<Cell>, safes: set<Cell>,
                        knowledge: map<Cell, Sentence>)
  {
    && mines <= truth
    && safes !! truth
    && moves * truth <= mines
    && (forall n | n in knowledge :: knowledge[n].isMine ==> n in mines)
    && (forall n | n in knowledge :: Truthful(knowledge[n], truth))
  }

  /** Every known mine outside `except` has a mine-flagged sentence. */
  ghost predicate Indexed(mines: set<Cell>, knowledge: map<Cell, Sentence>, except: set<Cell>)
  {
    forall m | m in mines && m !in except :: m in knowledge && knowledge[m].isMine
  }

  /**
   * What add_knowledge is told is true of `truth`: a cell already marked as a
   * mine with a zero clue, or a safe on-board cell of a square board with the
   * board's own count of mines around it.
   */
  ghost predicate Clue(truth: set<Cell>, height: int, width: int, mines: set<Cell>,
                       cell: Cell, count: int, isMine: bool)
  {
    if isMine then count == 0 && cell in mines
    else height == width && InGrid(height, width, cell) && cell !in truth &&
         count == |MinesAround(height, width, truth, cell)|
  }

  /** Stored sentences only shrink, except the ones stored afresh at `renewed` keys. */
  ghost predicate Refines(before: map<Cell, Sentence>, after: map<Cell, Sentence>, renewed: set<Cell>)
  {
    forall n | n in before ::
      n in after &&
      (n in renewed ||
       (after[n].cells <= before[n].cells && after[n].count <= before[n].count &&
        after[n].isMine == before[n].isMine))
  }

  lemma RefinesTransitive(a: map<Cell, Sentence>, b: map<Cell, Sentence>, c: map<Cell, Sentence>,
                          renewedAB: set<Cell>, renewedBC: set<Cell>)
    requires Refines(a, b, renewedAB) && Refines(b, c, renewedBC)
    ensures Refines(a, c, renewedAB + renewedBC)
  {
  }

  /** The block scan only shrinks stored sentences. */
  lemma ShrunkRefines(knowledge: map<Cell, Sentence>, visited: set<Cell>, cell: Cell, isMine: bool)
    ensures Refines(knowledge, Shrunk(knowledge, visited, cell, isMine), {})
    ensures Shrunk(knowledge, visited, cell, isMine).Keys == knowledge.Keys
  {
  }

  /** Storing a sentence renews one key. */
  lemma StoreRefines(before: map<Cell, Sentence>, after: map<Cell, Sentence>, renewed: set<Cell>,
                     key: Cell, s: Sentence)
    requires Refines(before, after, renewed)
    ensures Refines(before, after[key := s], renewed + {key})
  {
  }

  /** Storing a true sentence, flagged exactly when its key is a known mine, keeps the knowledge sound. */
  lemma StoreSound(truth: set<Cell>, moves: set<Cell>, mines: set<Cell>, safes: set<Cell>,
                   knowledge: map<Cell, Sentence>, cell: Cell, s: Sentence)
    requires Sound(truth, moves, mines, safes, knowledge) && Indexed(mines, knowledge, {cell})
    requires Truthful(s, truth) && (s.isMine <==> cell in mines)
    ensures Sound(truth, moves, mines, safes, knowledge[cell := s])
    ensures Indexed(mines, knowledge[cell := s], {})
  {
  }

  /** Marking cells that are not mines as safe keeps the knowledge sound. */
  lemma MarkSafesSound(truth: set<Cell>, moves: set<Cell>, mines: set<Cell>, safes: set<Cell>,
                       knowledge: map<Cell, Sentence>, marked: set<Cell>)
    requires Sound(truth, moves, mines, safes, knowledge) && marked !! truth
    ensures Sound(truth, moves, mines, safes + marked, knowledge)
  {
  }

  /** A true sentence that is not mine-flagged resolves only to true conclusions. */
  lemma TruthfulConclusions(s: Sentence, truth: set<Cell>)
    requires Truthful(s, truth) && !s.isMine
    ensures |s.cells| == s.count ==> s.cells <= truth
    ensures s.count == 0 ==> s.cells !! truth
  {
    SubsetOfSameSize(s.cells * truth, s.cells);
    if s.count == 0 {
      forall x | x in s.cells ensures x !in truth {
        assert x in truth ==> x in s.cells * truth;
      }
    }
  }

  /** Removing a cell whose status is right keeps a sentence true. */
  lemma ShrinkTruthful(s: Sentence, cell: Cell, isMine: bool, truth: set<Cell>)
    requires Truthful(s, truth) && cell in s.cells
    requires isMine <==> cell in truth
    ensures Truthful(Shrink(s, cell, isMine), truth)
  {
    if !s.isMine {
      if isMine {
        assert s.cells * truth == (s.cells - {cell}) * truth + {cell};
      } else {
        assert s.cells * truth == (s.cells - {cell}) * truth;
      }
    }
  }

  /**
   * The block scan keeps a sound knowledge base sound, and whatever it marks
   * safe or finds to be a mine is so.
   */
  lemma VisitSound(truth: set<Cell>, moves: set<Cell>, mines: set<Cell>, safes: set<Cell>,
                   knowledge: map<Cell, Sentence>, visited: set<Cell>, cell: Cell, isMine: bool)
    requires Sound(truth, moves, mines, safes, knowledge)
    requires isMine <==> cell in truth
    ensures Sound(truth, moves, mines, safes + Freed(knowledge, visited, cell, isMine),
                  Shrunk(knowledge, visited, cell, isMine))
    ensures Found(knowledge, visited, cell, isMine) <= truth
    ensures forall except | Indexed(mines, knowledge, except) ::
              Indexed(mines, Shrunk(knowledge, visited, cell, isMine), except)
  {
    var after := Shrunk(knowledge, visited, cell, isMine);
    forall n | n in after ensures Truthful(after[n], truth) {
      if Mentions(knowledge, visited, cell, n) {
        ShrinkTruthful(knowledge[n], cell, isMine, truth);
      }
    }
    forall d | d in Freed(knowledge, visited, cell, isMine) ensures d !in truth {
      var n :| n in knowledge && d in knowledge[n].cells &&
               Mentions(knowledge, visited, cell, n) && ClearsSafe(knowledge[n], cell, isMine) && d != cell;
      ShrinkTruthful(knowledge[n], cell, isMine, truth);
      TruthfulConclusions(Shrink(knowledge[n], cell, isMine), truth);
    }
    forall d | d in Found(knowledge, visited, cell, isMine) ensures d in truth {
      var n :| n in knowledge && d in knowledge[n].cells &&
               Mentions(knowledge, visited, cell, n) && ClearsMines(knowledge[n], cell, isMine) && d != cell;
      ShrinkTruthful(knowledge[n], cell, isMine, truth);
      TruthfulConclusions(Shrink(knowledge[n], cell, isMine), truth);
    }
  }

  /**
   * Told the board's own count for a safe cell, add_knowledge stores a true
   * sentence: the flagged neighbours are exactly the known mines of the block,
   * so the adjusted clue counts the mines among the unknown cells.
   */
  lemma NewSentenceTruthful(truth: set<Cell>, height: int, width: int, moves: set<Cell>,
                            mines: set<Cell>, knowledge: map<Cell, Sentence>, cell: Cell, count: int)
    requires mines <= truth && moves * truth <= mines
    requires Flagged(knowledge, Block(height, width, cell)) == Block(height, width, cell) * mines
    requires Clue(truth, height, width, mines, cell, count, false)
    ensures Truthful(NewSentence(height, width, moves, mines, knowledge, cell, count, false), truth)
  {
    var block := Block(height, width, cell);
    var known, actual := block * mines, block * truth;
    SquareBlockMines(height, width, truth, cell);
    SubsetCardinality(known, actual);
    AdjustBounds(count, |known|);
    UnknownMines(block, moves, mines, truth, cell);
  }

  /** The mines among the unknown cells of a block are its mines that are not yet known. */
  lemma UnknownMines(block: set<Cell>, moves: set<Cell>, mines: set<Cell>, truth: set<Cell>, cell: Cell)
    requires mines <= truth && moves * truth <= mines && cell !in truth
    ensures (block - (moves + {cell}) - mines) * truth == block * truth - block * mines
    ensures |block * truth - block * mines| == |block * truth| - |block * mines|
  {
    assert block * truth == (block * truth - block * mines) + block * mines;
  }

  /** The mine-flagged sentences of the block sit exactly at its known mines. */
  lemma FlaggedKnown(mines: set<Cell>, knowledge: map<Cell, Sentence>, block: set<Cell>, cell: Cell)
    requires forall n | n in knowledge :: knowledge[n].isMine ==> n in mines
    requires Indexed(mines, knowledge, {cell}) && cell !in mines
    ensures Flagged(knowledge, block) == block * mines
  {
  }

  /* What the sentence stored at one key `p` contributes to the scan. */

  function FlagAt(knowledge: map<Cell, Sentence>, p: Cell): set<Cell>
  {
    if p in knowledge && knowledge[p].isMine then {p} else {}
  }

  function ShrinkAt(knowledge: map<Cell, Sentence>, p: Cell, cell: Cell, isMine: bool): map<Cell, Sentence>
  {
    if p in knowledge && cell in knowledge[p].cells
    then knowledge[p := Shrink(knowledge[p], cell, isMine)]
    else knowledge
  }

  function FreedAt(knowledge: map<Cell, Sentence>, p: Cell, cell: Cell, isMine: bool): set<Cell>
  {
    if p in knowledge && cell in knowledge[p].cells && ClearsSafe(knowledge[p], cell, isMine)
    then knowledge[p].cells - {cell}
    else {}
  }

  function FoundAt(knowledge: map<Cell, Sentence>, p: Cell, cell: Cell, isMine: bool): set<Cell>
  {
    if p in knowledge && cell in knowledge[p].cells && ClearsMines(knowledge[p], cell, isMine)
    then knowledge[p].cells - {cell}
    else {}
  }

  /* One step of the scan, one part of its summary at a time: given the
     summary of the `visited` keys and what visiting `p` did to it, the
     result is the summary of `visited + {p}`. */

  /** The scan has not yet touched the sentence stored at an unvisited key. */
  lemma ShrunkUnvisited(knowledge: map<Cell, Sentence>, visited: set<Cell>, p: Cell, cell: Cell, isMine: bool)
    requires p !in visited
    ensures var shrunk := Shrunk(knowledge, visited, cell, isMine);
      (p in shrunk <==> p in knowledge) && (p in knowledge ==> shrunk[p] == knowledge[p])
  {
  }

  lemma FlaggedStep(knowledge: map<Cell, Sentence>, visited: set<Cell>, p: Cell, cell: Cell, isMine: bool)
    requires p !in visited
    ensures var flag := FlagAt(Shrunk(knowledge, visited, cell, isMine), p);
      Flagged(knowledge, visited + {p}) == Flagged(knowledge, visited) + flag &&
      |Flagged(knowledge, visited + {p})| == |Flagged(knowledge, visited)| + |flag|
  {
    var flag := FlagAt(knowledge, p);
    assert Flagged(knowledge, visited + {p}) == Flagged(knowledge, visited) + flag;
    assert p !in Flagged(knowledge, visited);
  }

  lemma AdjustedStep(before: map<Cell, Sentence>, visited: set<Cell>, p: Cell, cell: Cell, isMine: bool,
                     count: int, knowledge: map<Cell, Sentence>, adjusted: int, adjusted': int)
    requires p !in visited
    requires knowledge == Shrunk(before, visited, cell, isMine)
    requires adjusted == Adjust(count, |Flagged(before, visited)|)
    requires adjusted' == if FlagAt(knowledge, p) != {} then Decrement(adjusted) else adjusted
    ensures adjusted' == Adjust(count, |Flagged(before, visited + {p})|)
  {
    FlaggedStep(before, visited, p, cell, isMine);
    AdjustStep(count, |Flagged(before, visited)|, FlagAt(knowledge, p), p);
  }

  lemma ShrunkStep(before: map<Cell, Sentence>, visited: set<Cell>, p: Cell, cell: Cell, isMine: bool,
                   knowledge: map<Cell, Sentence>, knowledge': map<Cell, Sentence>)
    requires p !in visited
    requires knowledge == Shrunk(before, visited, cell, isMine)
    requires knowledge' == ShrinkAt(knowledge, p, cell, isMine)
    ensures knowledge' == Shrunk(before, visited + {p}, cell, isMine)
  {
  }

  lemma FreedStep(before: map<Cell, Sentence>, visited: set<Cell>, p: Cell, cell: Cell, isMine: bool,
                  safes0: set<Cell>, knowledge: map<Cell, Sentence>, safes: set<Cell>, safes': set<Cell>)
    requires p !in visited
    requires knowledge == Shrunk(before, visited, cell, isMine)
    requires safes == safes0 + Freed(before, visited, cell, isMine)
    requires safes' == safes + FreedAt(knowledge, p, cell, isMine)
    ensures safes' == safes0 + Freed(before, visited + {p}, cell, isMine)
  {
    ShrunkUnvisited(before, visited, p, cell, isMine);
    FreedGrows(before, visited, p, cell, isMine);
    FreedCovered(before, visited, p, cell, isMine);
  }

  lemma FoundStep(before: map<Cell, Sentence>, visited: set<Cell>, p: Cell, cell: Cell, isMine: bool,
                  knowledge: map<Cell, Sentence>, discovered: set<Cell>, discovered': set<Cell>)
    requires p !in visited
    requires knowledge == Shrunk(before, visited, cell, isMine)
    requires discovered == Found(before, visited, cell, isMine)
    requires discovered' == discovered + FoundAt(knowledge, p, cell, isMine)
    ensures discovered' == Found(before, visited + {p}, cell, isMine)
  {
    ShrunkUnvisited(before, visited, p, cell, isMine);
    FoundGrows(before, visited, p, cell, isMine);
    FoundCovered(before, visited, p, cell, isMine);
  }

  lemma FreedGrows(knowledge: map<Cell, Sentence>, visited: set<Cell>, p: Cell, cell: Cell, isMine: bool)
    ensures Freed(knowledge, visited, cell, isMine) + FreedAt(knowledge, p, cell, isMine) <=
            Freed(knowledge, visited + {p}, cell, isMine)
  {
    forall d | d in Freed(knowledge, visited, cell, isMine) + FreedAt(knowledge, p, cell, isMine)
      ensures d in Freed(knowledge, visited + {p}, cell, isMine)
    {
      if d in FreedAt(knowledge, p, cell, isMine) {
        assert Mentions(knowledge, visited + {p}, cell, p);
      } else {
        var n :| n in knowledge && d in knowledge[n].cells &&
                 Mentions(knowledge, visited, cell, n) && ClearsSafe(knowledge[n], cell, isMine) && d != cell;
        assert Mentions(knowledge, visited + {p}, cell, n);
      }
    }
  }

  lemma FreedCovered(knowledge: map<Cell, Sentence>, visited: set<Cell>, p: Cell, cell: Cell, isMine: bool)
    ensures Freed(knowledge, visited + {p}, cell, isMine) <=
            Freed(knowledge, visited, cell, isMine) + FreedAt(knowledge, p, cell, isMine)
  {
    forall d | d in Freed(knowledge, visited + {p}, cell, isMine)
      ensures d in Freed(knowledge, visited, cell, isMine) + FreedAt(knowledge, p, cell, isMine)
    {
      var n :| n in knowledge && d in knowledge[n].cells &&
               Mentions(knowledge, visited + {p}, cell, n) && ClearsSafe(knowledge[n], cell, isMine) && d != cell;
      if n != p {
        assert Mentions(knowledge, visited, cell, n);
      }
    }
  }

  lemma FoundGrows(knowledge: map<Cell, Sentence>, visited: set<Cell>, p: Cell, cell: Cell, isMine: bool)
    ensures Found(knowledge, visited, cell, isMine) + FoundAt(knowledge, p, cell, isMine) <=
            Found(knowledge, visited + {p}, cell, isMine)
  {
    forall d | d in Found(knowledge, visited, cell, isMine) + FoundAt(knowledge, p, cell, isMine)
      ensures d in Found(knowledge, visited + {p}, cell, isMine)
    {
      if d in FoundAt(knowledge, p, cell, isMine) {
        assert Mentions(knowledge, visited + {p}, cell, p);
      } else {
        var n :| n in knowledge && d in knowledge[n].cells &&
                 Mentions(knowledge, visited, cell, n) && ClearsMines(knowledge[n], cell, isMine) && d != cell;
        assert Mentions(knowledge, visited + {p}, cell, n);
      }
    }
  }

  lemma FoundCovered(knowledge: map<Cell, Sentence>, visited: set<Cell>, p: Cell, cell: Cell, isMine: bool)
    ensures Found(knowledge, visited + {p}, cell, isMine) <=
            Found(knowledge, visited, cell, isMine) + FoundAt(knowledge, p, cell, isMine)
  {
    forall d | d in Found(knowledge, visited + {p}, cell, isMine)
      ensures d in Found(knowledge, visited, cell, isMine) + FoundAt(knowledge, p, cell, isMine)
    {
      var n :| n in knowledge && d in knowledge[n].cells &&
               Mentions(knowledge, visited + {p}, cell, n) && ClearsMines(knowledge[n], cell, isMine) && d != cell;
      if n != p {
        assert Mentions(knowledge, visited, cell, n);
      }
    }
  }

  /** Before anything is known, the knowledge base is sound for every board. */
  lemma EmptyKnowledgeSound(truth: set<Cell>)
    ensures Sound(truth, {}, {}, {}, map[]) && Indexed({}, map[], {})
  {
  }

  /**
   * Everything add_knowledge derives before it marks a mine is true of a
   * board whose clue it was given: the updated knowledge stays sound, and
   * the cells it will mark as mines or safe are so.
   */
  lemma LearnSound(truth: set<Cell>, height: int, width: int, moves: set<Cell>, mines: set<Cell>,
                   safes: set<Cell>, knowledge: map<Cell, Sentence>, cell: Cell, count: int, isMine: bool)
    requires Sound(truth, moves, mines, safes, knowledge) && Indexed(mines, knowledge, {cell})
    requires Clue(truth, height, width, mines, cell, count, isMine)
    ensures var block := Block(height, width, cell);
      var s := NewSentence(height, width, moves, mines, knowledge, cell, count, isMine);
      var stored := Shrunk(knowledge, block, cell, isMine)[cell := s];
      && Sound(truth, moves + {cell}, mines, safes + Freed(knowledge, block, cell, isMine), stored)
      && Indexed(mines, stored, {})
      && Found(knowledge, block, cell, isMine) <= truth
      && (|s.cells| == s.count && s.count != 0 ==> s.cells <= truth)
      && (s.count == 0 && !isMine ==> s.cells !! truth)
  {
    var block := Block(height, width, cell);
    var s := NewSentence(height, width, moves, mines, knowledge, cell, count, isMine);
    NewSentenceShape(height, width, moves, mines, knowledge, cell, count, isMine);
    if !isMine {
      FlaggedKnown(mines, knowledge, block, cell);
      NewSentenceTruthful(truth, height, width, moves, mines, knowledge, cell, count);
      TruthfulConclusions(s, truth);
    }
    VisitSound(truth, moves + {cell}, mines, safes, knowledge, block, cell, isMine);
    StoreSound(truth, moves + {cell}, mines, safes + Freed(knowledge, block, cell, isMine),
               Shrunk(knowledge, block, cell, isMine), cell, s);
  }

  /**
   * The state add_knowledge reaches from (moves, mines, safes, knowledge)
   * before it marks any mine (lines 185-247): the move recorded, the block
   * scanned, the new sentence stored at `cell`, and the new sentence's own
   * conclusion drawn; `found` holds the cells to be marked as mines.
   */
  ghost predicate Learned(height: int, width: int, moves: set<Cell>, mines: set<Cell>, safes: set<Cell>,
                          knowledge: map<Cell, Sentence>, cell: Cell, count: int, isMine: bool,
                          moves': set<Cell>, safes': set<Cell>, knowledge': map<Cell, Sentence>, found: set<Cell>)
  {
    var block := Block(height, width, cell);
    var s := NewSentence(height, width, moves, mines, knowledge, cell, count, isMine);
    var safes1 := safes + Freed(knowledge, block, cell, isMine);
    var found1 := Found(knowledge, block, cell, isMine);
    && moves' == moves + {cell}
    && knowledge' == Shrunk(knowledge, block, cell, isMine)[cell := s]
    && (if |s.cells| == s.count && s.count != 0 then safes' == safes1 && found == found1 + s.cells
        else if s.count == 0 && !isMine then safes' == safes1 + s.cells && found == found1
        else safes' == safes1 && found == found1)
  }

  /**
   * The cells add_knowledge collects in its local `mines` set and hands to
   * mark_mine (lines 188-243): those of the block's sentences that became all
   * mines, and the new sentence's cells when it is all mines.
   */
  function Queued(height: int, width: int, moves: set<Cell>, mines: set<Cell>,
                  knowledge: map<Cell, Sentence>, cell: Cell, count: int, isMine: bool): set<Cell>
  {
    var s := NewSentence(height, width, moves, mines, knowledge, cell, count, isMine);
    Found(knowledge, Block(height, width, cell), cell, isMine) +
      (if |s.cells| == s.count && s.count != 0 then s.cells else {})
  }

  /** No sentence stored at a key of `keys` mentions `c`. */
  ghost predicate Cleared(knowledge: map<Cell, Sentence>, keys: set<Cell>, c: Cell)
  {
    forall n | n in knowledge && n in keys :: c !in knowledge[n].cells
  }

  /** Shrinking sentences keeps `c` out of them; renewed sentences must leave it out themselves. */
  lemma ClearedKept(before: map<Cell, Sentence>, after: map<Cell, Sentence>, renewed: set<Cell>,
                    keys: set<Cell>, c: Cell)
    requires Cleared(before, keys, c)
    requires Refines(before, after, renewed) && after.Keys <= before.Keys + renewed
    requires forall n | n in renewed && n in after :: c !in after[n].cells
    ensures Cleared(after, keys, c)
  {
  }

  /**
   * After mark_mine has run on each cell of `marked`: no sentence of a marked
   * mine's block mentions that mine, and the sentence stored at each marked
   * mine mentions no cell of `played`.
   */
  ghost predicate Settled(height: int, width: int, knowledge: map<Cell, Sentence>, marked: set<Cell>,
                          played: set<Cell>)
  {
    && (forall m | m in marked :: Cleared(knowledge, Block(height, width, m), m))
    && (forall n | n in marked :: n in knowledge && knowledge[n].cells !! played)
  }

  /** mark_mine on one more mine keeps the earlier ones settled. */
  lemma SettledStep(height: int, width: int, before: map<Cell, Sentence>, after: map<Cell, Sentence>,
                    marked: set<Cell>, played: set<Cell>, mines: set<Cell>, moves: set<Cell>, mine: Cell)
    requires Settled(height, width, before, marked, played)
    requires Refines(before, after, {mine}) && after.Keys == before.Keys + {mine} && mine !in marked
    requires Cleared(after, Block(height, width, mine), mine)
    requires marked <= mines && played <= moves
    requires mine in after && after[mine].cells !! moves && after[mine].cells !! mines
    ensures Settled(height, width, after, marked + {mine}, played)
  {
    forall m | m in marked
      ensures Cleared(after, Block(height, width, m), m)
    {
      ClearedKept(before, after, {mine}, Block(height, width, m), m);
    }
  }

  /** The two phases of add_knowledge together mark exactly the queued cells. */
  lemma QueuedMarked(mines0: set<Cell>, mines1: set<Cell>, mines2: set<Cell>,
                     moves0: set<Cell>, moves1: set<Cell>, moves2: set<Cell>,
                     keys0: set<Cell>, keys1: set<Cell>, keys2: set<Cell>,
                     cell: Cell, discovered: set<Cell>, queued: set<Cell>)
    requires discovered == queued
    requires mines1 == mines0 && moves1 == moves0 + {cell} && keys1 == keys0 + {cell}
    requires discovered == {} ==> mines2 == mines1 && moves2 == moves1 && keys2 == keys1
    requires discovered != {} ==>
             mines2 == mines1 + discovered && moves2 == moves1 + discovered && keys2 == keys1 + discovered
    ensures mines2 == mines0 + queued && moves2 == moves0 + {cell} + queued && keys2 == keys0 + {cell} + queued
  {
  }

  /** Marking one more mine extends what the loop has marked so far. */
  lemma MarkedOneMore(mines0: set<Cell>, mines1: set<Cell>, mines2: set<Cell>,
                      moves0: set<Cell>, moves1: set<Cell>, moves2: set<Cell>,
                      keys0: set<Cell>, keys1: set<Cell>, keys2: set<Cell>, done: set<Cell>, mine: Cell)
    requires mines1 == mines0 + done && moves1 == moves0 + done && keys1 == keys0 + done
    requires mines2 == mines1 + {mine} && moves2 == moves1 + {mine} && keys2 == keys1 + {mine}
    ensures mines2 == mines0 + (done + {mine}) && moves2 == moves0 + (done + {mine}) &&
            keys2 == keys0 + (done + {mine})
  {
  }

  /** Learned, from the values add_knowledge computes along the way. */
  lemma LearnedFrom(height: int, width: int, moves: set<Cell>, mines: set<Cell>, safes: set<Cell>,
                    knowledge: map<Cell, Sentence>, cell: Cell, count: int, isMine: bool,
                    block: set<Cell>, adjusted: int, shrunk: map<Cell, Sentence>, safes1: set<Cell>,
                    found1: set<Cell>, unknown: set<Cell>,
                    moves': set<Cell>, safes': set<Cell>, knowledge': map<Cell, Sentence>, found: set<Cell>)
    requires block == Block(height, width, cell)
    requires adjusted == Adjust(count, |Flagged(knowledge, block)|)
    requires shrunk == Shrunk(knowledge, block, cell, isMine)
    requires safes1 == safes + Freed(knowledge, block, cell, isMine)
    requires found1 == Found(knowledge, block, cell, isMine)
    requires moves' == moves + {cell}
    requires unknown == block - moves' - mines
    requires knowledge' == shrunk[cell := Sentence(unknown, adjusted, isMine)]
    requires if |unknown| == adjusted && adjusted != 0 then safes' == safes1 && found == found1 + unknown
             else if adjusted == 0 && !isMine then safes' == safes1 + unknown && found == found1
             else safes' == safes1 && found == found1
    ensures Learned(height, width, moves, mines, safes, knowledge, cell, count, isMine,
                    moves', safes', knowledge', found)
  {
  }

  /**
   * After that first phase, the knowledge holds one more key, `cell`, whose
   * sentence is flagged as the call was, and every other sentence has at
   * most lost cells.
   */
  lemma LearnKeys(height: int, width: int, moves: set<Cell>, mines: set<Cell>, safes: set<Cell>,
                  knowledge: map<Cell, Sentence>, cell: Cell, count: int, isMine: bool,
                  moves': set<Cell>, safes': set<Cell>, knowledge': map<Cell, Sentence>, found: set<Cell>)
    requires Learned(height, width, moves, mines, safes, knowledge, cell, count, isMine,
                     moves', safes', knowledge', found)
    ensures knowledge'.Keys == knowledge.Keys + {cell} && knowledge'[cell].isMine == isMine
    ensures Refines(knowledge, knowledge', {cell})
  {
    var block := Block(height, width, cell);
    var s := NewSentence(height, width, moves, mines, knowledge, cell, count, isMine);
    ShrunkRefines(knowledge, block, cell, isMine);
    StoreRefines(knowledge, Shrunk(knowledge, block, cell, isMine), {}, cell, s);
  }

  /**
   * Everything the scan or the new sentence resolved is marked safe or
   * reported as a mine, never `cell` itself; a mine's zero clue resolves
   * nothing.
   */
  lemma LearnResolved(height: int, width: int, moves: set<Cell>, mines: set<Cell>, safes: set<Cell>,
                      knowledge: map<Cell, Sentence>, cell: Cell, count: int, isMine: bool,
                      moves': set<Cell>, safes': set<Cell>, knowledge': map<Cell, Sentence>, found: set<Cell>)
    requires Learned(height, width, moves, mines, safes, knowledge, cell, count, isMine,
                     moves', safes', knowledge', found)
    ensures safes <= safes' && cell !in found
    ensures count == 0 && isMine ==> found == {}
    ensures var s := NewSentence(height, width, moves, mines, knowledge, cell, count, isMine);
      && (|s.cells| == s.count && s.count != 0 ==> s.cells <= found)
      && (s.count == 0 && !isMine ==> s.cells <= safes')
    ensures Found(knowledge, Block(height, width, cell), cell, isMine) <= found
    ensures Freed(knowledge, Block(height, width, cell), cell, isMine) <= safes'
    ensures found == Queued(height, width, moves, mines, knowledge, cell, count, isMine)
  {
    NewSentenceShape(height, width, moves, mines, knowledge, cell, count, isMine);
    if count == 0 && isMine {
      assert Found(knowledge, Block(height, width, cell), cell, isMine) == {};
    }
  }

  /**
   * After that first phase no sentence stored in the block of `cell` mentions
   * `cell`, and the new sentence mentions no played cell and no known mine.
   */
  lemma LearnCleared(height: int, width: int, moves: set<Cell>, mines: set<Cell>, safes: set<Cell>,
                     knowledge: map<Cell, Sentence>, cell: Cell, count: int, isMine: bool,
                     moves': set<Cell>, safes': set<Cell>, knowledge': map<Cell, Sentence>, found: set<Cell>)
    requires Learned(height, width, moves, mines, safes, knowledge, cell, count, isMine,
                     moves', safes', knowledge', found)
    ensures Cleared(knowledge', Block(height, width, cell), cell)
    ensures cell in knowledge' && knowledge'[cell].cells !! moves' && knowledge'[cell].cells !! mines
  {
    NewSentenceShape(height, width, moves, mines, knowledge, cell, count, isMine);
  }

  /** LearnSound, stated for the state add_knowledge reaches before it marks any mine. */
  lemma LearnSoundAt(truth: set<Cell>, height: int, width: int, moves: set<Cell>, mines: set<Cell>,
                     safes: set<Cell>, knowledge: map<Cell, Sentence>, cell: Cell, count: int, isMine: bool,
                     moves': set<Cell>, safes': set<Cell>, knowledge': map<Cell, Sentence>, found: set<Cell>)
    requires Learned(height, width, moves, mines, safes, knowledge, cell, count, isMine,
                     moves', safes', knowledge', found)
    ensures Sound(truth, moves, mines, safes, knowledge) && Indexed(mines, knowledge, {cell}) &&
            Clue(truth, height, width, mines, cell, count, isMine) ==>
            Sound(truth, moves', mines, safes', knowledge') && Indexed(mines, knowledge', {}) && found <= truth
  {
    if Sound(truth, moves, mines, safes, knowledge) && Indexed(mines, knowledge, {cell}) &&
       Clue(truth, height, width, mines, cell, count, isMine) {
      var block := Block(height, width, cell);
      var s := NewSentence(height, width, moves, mines, knowledge, cell, count, isMine);
      LearnSound(truth, height, width, moves, mines, safes, knowledge, cell, count, isMine);
      if !(|s.cells| == s.count && s.count != 0) && s.count == 0 && !isMine {
        MarkSafesSound(truth, moves', mines, safes + Freed(knowledge, block, cell, isMine), knowledge', s.cells);
      }
    }
  }
}
