# Minesweeper AI — a Dafny model

This project models `minesweeper.py`, a Minesweeper game and a knowledge-based player for it:

- `Minesweeper` is the board. It answers whether a cell is a mine, how many mines surround a cell, and whether the game is won.
- `Sentence` is one fact the player knows: "exactly `count` of these cells are mines".
- `MinesweeperAI` is the player. It records the moves it made, the cells it knows to be mines or safe, and one sentence per cell it was told about.

The model follows the code as written, including where the code does less than its docstrings promise:

- `add_knowledge` records the move but never adds the opened cell to `safes`.
- It draws conclusions only from sentences it touches while scanning the block around the cell, and from the new sentence. There is no subset inference and no repetition until nothing changes.
- The scan clips rows by `width` and columns by `height`. On a non-square board it therefore visits the wrong block. `Knowledge.SwappedBoundsMissNeighbour` shows a neighbour the scan misses on a 2 × 3 board.
- The scan also visits `cell` itself.
- The flag `is_mine` (a sentence stored for a cell that was marked as a mine) is kept. Equality of sentences ignores it.
- `make_random_move` scans the fixed 7 × 7 square at the origin, whatever the board size.
- The docstring of `mark_safe` (lines 163-166) promises to update all knowledge. The code (line 167) only adds the cell to `safes`.
- The docstring of `mark_mine` (lines 154-157) promises to update all knowledge. The code re-enters `add_knowledge`, which updates only the sentences stored in the (swapped) block around the cell. `MarkMine` states exactly which ones.

## Layout

- `board.dfy`, module `Board`: cells, the neighbourhood, and the `Minesweeper` class (`IsMine`, `NearbyMines`, `Won`).
- `sentence.dfy`, module `Sentences`: the `Sentence` datatype and its equality.
- `knowledge.dfy`, module `Knowledge`: the specification of `add_knowledge`, written on values.
  - `Block` is the cells the scan visits. `Adjust` is the clue after the guarded decrements.
  - `Shrunk`, `Freed` and `Found` are the effect of the scan on the stored sentences, the cells it marks safe, and the cells it finds to be mines.
  - `NewSentence` is the sentence stored for the cell. `Learned` is the state reached before any mine is marked.
  - `Queued` is the set of cells `add_knowledge` hands to `mark_mine`.
  - `Sound` says the knowledge is true of a board whose mines are `truth`.
  - Lemmas prove how these behave.
- `ai.dfy`, module `Ai`: the `MinesweeperAI` class.
  - `AddKnowledge`, `MarkMine` and `MarkMines` are mutually recursive, as `add_knowledge` and `mark_mine` are. `MarkNext` is one pass of the loop in `MarkMines`.
  - The block scan is three methods with loops: `VisitBlock` for the rows, `VisitRow` for one row, `VisitStep`/`VisitNeighbor` for one cell.
  - Each is proved against the functions of `Knowledge`.

Soundness is stated for a ghost parameter `truth`, the board's real mine set. Suppose the knowledge is sound for `truth`:

- every cell in `mines` is a mine, no cell in `safes` is, and every played mine is in `mines`;
- only cells in `mines` carry mine-flagged sentences, and every cell in `mines` carries one (`Indexed`);
- every sentence not flagged as a mine is true: exactly `count` of its cells are mines. A mine-flagged sentence only has a count of at most zero.

Suppose also that `add_knowledge` is given a true clue, meaning either of:

- the board's own count for a safe on-board cell, with `height == width`;
- a zero clue for a cell already marked as a mine.

Then afterwards all of the above still holds.

## Model

| member | source | states |
|---|---|---|
| Board.Minesweeper.constructor | minesweeper.py:10-34 | the board keeps its dimensions and mine set, and no mine has been found yet |
| Board.MinesAround | minesweeper.py:55-78 | the mines `nearby_mines` counts around `c`: adjacent to it, on the board, `c` itself excluded |
| Board.Prefix | minesweeper.py:189-192 | the cells of a set that a row-major scan has visited before (i, j) |
| Board.PythonIndex | minesweeper.py:51-53 | a Python index in `-n..n-1` selects the position `i mod n`, always within the list |
| Board.Minesweeper.IsMine | minesweeper.py:51-53 | for an on-board cell, true exactly when the cell is a mine; a negative index wraps modulo the dimension |
| Board.Minesweeper.NearbyMines | minesweeper.py:55-78 | the count equals the number of mines adjacent to the cell and on the board, the cell itself excluded; it is between 0 and 8 |
| Board.MinesAroundAtMostEight | minesweeper.py:55-78 | a cell has at most eight mines around it |
| Board.SubsetOfSameSize | minesweeper.py:80-84 | a subset is the whole set exactly when it is as large |
| Board.Minesweeper.Won | minesweeper.py:80-84 | won exactly when the flagged cells are a subset of the mines and as many |
| Sentences.Sentence.Equals | minesweeper.py:99-100 | two sentences are equal exactly when they agree once the flag is ignored |
| Sentences.EqualsIsEquivalence | minesweeper.py:99-100 | sentence equality is reflexive, symmetric and transitive, and blind to the flag |
| Knowledge.Block | minesweeper.py:189-190 | the cells the scan visits: rows from x-1 to x+1 clipped by the width, columns from y-1 to y+1 clipped by the height (bounds swapped as written), `cell` included; `SquareBlockMines` and `SwappedBoundsMissNeighbour` state what this means |
| Knowledge.Decrement | minesweeper.py:198-199 | the guarded decrement: a zero clue stays zero, any other clue drops by one |
| Knowledge.Adjust | minesweeper.py:196-199 | the clue after one guarded decrement per mine-flagged neighbour; `AdjustBounds` states its bounds |
| Knowledge.Flagged | minesweeper.py:194-196 | the visited keys whose stored sentence is flagged as a mine |
| Knowledge.Shrink | minesweeper.py:207-213 | a sentence with `cell` removed and, when `cell` is a mine, its count lowered by one |
| Knowledge.Shrunk | minesweeper.py:205-213 | the knowledge once every sentence at a visited key that mentions `cell` has been shrunk; every other sentence is unchanged |
| Knowledge.ClearsSafe | minesweeper.py:209-214 | a sentence mentioning a mine `cell` whose count reaches zero once `cell` is removed |
| Knowledge.ClearsMines | minesweeper.py:220-222 | a sentence mentioning a safe `cell` whose other cells are as many as its count, and at least one |
| Knowledge.Freed | minesweeper.py:214-218 | the other cells of every visited sentence that clears as safe: the cells the scan marks safe |
| Knowledge.Found | minesweeper.py:220-227 | the other cells of every visited sentence that clears as mines: the cells the scan queues as mines |
| Knowledge.NewSentence | minesweeper.py:234-236 | the sentence stored for `cell`: the block minus the moves (now with `cell`) and the known mines, with the adjusted clue and the call's flag |
| Knowledge.Queued | minesweeper.py:188-243 | the cells queued in the local `mines` set: those `Found` by the scan, plus the new sentence's cells when they are as many as its non-zero count |
| Knowledge.Learned | minesweeper.py:185-247 | the state before any mine is marked: moves plus `cell`; the knowledge `Shrunk` and then `cell` given `NewSentence`; the safes plus `Freed` and, under the safe rule, the new sentence's cells; the cells queued as mines |
| Knowledge.FlagAt | minesweeper.py:194-199 | one visited key's part of `Flagged` |
| Knowledge.ShrinkAt | minesweeper.py:205-213 | one visited key's part of `Shrunk` |
| Knowledge.FreedAt | minesweeper.py:214-218 | one visited key's part of `Freed` |
| Knowledge.FoundAt | minesweeper.py:220-227 | one visited key's part of `Found` |
| Knowledge.Truthful | minesweeper.py:88-92 | a sentence not flagged as a mine holds exactly `count` mines of `truth` among its cells; a mine-flagged one has a count of at most zero |
| Knowledge.Sound | minesweeper.py:143-151 | known mines are mines, known safes are not, played mines are known, only known mines carry mine-flagged sentences, and every sentence is `Truthful` |
| Knowledge.Indexed | minesweeper.py:153-160 | every known mine outside `except` carries a mine-flagged sentence, as `mark_mine` stores one |
| Knowledge.Clue | minesweeper.py:169-172 | what `add_knowledge` is told is true: a known mine with a zero clue, or a safe on-board cell of a square board with the board's own count |
| Knowledge.Refines | minesweeper.py:205-213 | every old key is kept, and its sentence has only lost cells and count, unless it was stored afresh |
| Knowledge.Cleared | minesweeper.py:205-207 | no sentence stored at a key of the given set mentions the cell |
| Knowledge.ClearedKept | minesweeper.py:249-250 | shrinking sentences keeps a cell out of them when the renewed sentences leave it out too |
| Knowledge.Settled | minesweeper.py:249-250 | each marked mine has left the sentences of its block, and its own sentence mentions no earlier move |
| Knowledge.SettledStep | minesweeper.py:249-250 | marking one more mine keeps the earlier marked mines settled and settles the new one |
| Knowledge.QueuedMarked | minesweeper.py:185-250 | the two phases of `add_knowledge` together add exactly `{cell}` and the queued cells to the moves, and the queued cells to the mines and to the keys |
| Knowledge.MarkedOneMore | minesweeper.py:249-250 | one more pass of the loop adds exactly the marked mine to the mines, moves and keys marked so far |
| Knowledge.LearnCleared | minesweeper.py:205-236 | after the first phase no sentence in the block of `cell` mentions `cell`, and the new sentence mentions no move and no known mine |
| Knowledge.SquareBlockMines | minesweeper.py:189-190 | on a square board the scanned block of an on-board safe cell holds exactly the mines the board counts around it |
| Knowledge.SwappedBoundsMissNeighbour | minesweeper.py:189-190 | on a 2 × 3 board the scan around (0, 2) misses the adjacent mine (1, 2) |
| Knowledge.AdjustBounds | minesweeper.py:196-199 | the guarded decrements never raise the clue, never take a non-negative clue below zero, and subtract exactly while the clue lasts |
| Knowledge.AdjustStep | minesweeper.py:196-199 | one more mine-flagged neighbour is one more guarded decrement |
| Knowledge.FlaggedStep | minesweeper.py:194-199 | visiting one more key adds its mine-flagged sentence, if any, to the flagged neighbours and to their number |
| Knowledge.AdjustedStep | minesweeper.py:194-199 | after visiting one more key the clue is the clue adjusted for the flagged neighbours seen so far |
| Knowledge.ShrunkUnvisited | minesweeper.py:194-207 | the scan has not touched the sentence stored at a key it has not visited |
| Knowledge.ShrunkStep | minesweeper.py:205-213 | visiting one more key drops `cell` from its sentence, if that sentence mentions it |
| Knowledge.FreedStep | minesweeper.py:209-218 | visiting one more key adds the cells its sentence frees to the safes |
| Knowledge.FoundStep | minesweeper.py:220-227 | visiting one more key adds the cells its sentence resolves as mines to the discovered mines |
| Knowledge.FreedGrows | minesweeper.py:209-218 | the cells freed so far, and those the next key frees, are freed by the longer scan |
| Knowledge.FreedCovered | minesweeper.py:209-218 | the longer scan frees nothing beyond those |
| Knowledge.FoundGrows | minesweeper.py:220-227 | the mines found so far, and those the next key finds, are found by the longer scan |
| Knowledge.FoundCovered | minesweeper.py:220-227 | the longer scan finds nothing beyond those |
| Knowledge.NewSentenceShape | minesweeper.py:234-236 | the stored sentence covers only unknown cells of the block, never `cell` itself; its count is at most the clue and non-negative when the clue is |
| Knowledge.FlaggedKnown | minesweeper.py:194-199 | when flagged sentences sit exactly at the known mines, the flagged neighbours are the known mines of the block |
| Knowledge.UnknownMines | minesweeper.py:234 | the mines among the unknown cells are the block's mines minus its known mines, and so are counted by subtraction |
| Knowledge.NewSentenceTruthful | minesweeper.py:234-236 | on a square board, given the board's count, the stored sentence is true: its count is the number of mines among its cells |
| Knowledge.ShrinkTruthful | minesweeper.py:205-213 | dropping a cell from a true sentence, and lowering the count exactly when that cell is a mine, leaves it true |
| Knowledge.TruthfulConclusions | minesweeper.py:214-227 | a true sentence with count zero holds no mine; one whose count equals its size holds only mines |
| Knowledge.VisitSound | minesweeper.py:189-232 | the scan keeps sound knowledge sound; every cell it marks safe is safe and every mine it finds is a mine |
| Knowledge.ShrunkRefines | minesweeper.py:205-213 | the scan keeps every key and only removes cells from, or lowers counts of, stored sentences |
| Knowledge.StoreRefines | minesweeper.py:236 | storing a sentence renews exactly its key |
| Knowledge.StoreSound | minesweeper.py:236 | storing a true sentence whose flag matches the key's status keeps the knowledge sound |
| Knowledge.MarkSafesSound | minesweeper.py:244-247 | marking cells safe that are not mines keeps the knowledge sound |
| Knowledge.RefinesTransitive | minesweeper.py:249-250 | successive refinements compose, their renewed keys added up |
| Knowledge.EmptyKnowledgeSound | minesweeper.py:137-151 | the initial empty knowledge is sound for every board |
| Knowledge.LearnSound | minesweeper.py:185-247 | from sound knowledge and a true clue, the scanned and extended knowledge is sound; the scan's mines are mines; the new sentence's conclusions are true |
| Knowledge.LearnedFrom | minesweeper.py:185-247 | the values `add_knowledge` computes (move, scan, stored sentence, its conclusion) make up the state `Learned` describes |
| Knowledge.LearnKeys | minesweeper.py:234-236 | after the first phase exactly `cell` is a new key, its sentence flagged as the call was, and every other sentence has only shrunk |
| Knowledge.LearnResolved | minesweeper.py:214-247 | everything the scan or the new sentence resolves is marked safe or queued as a mine, never `cell`; the cells queued are exactly `Queued`; a mine's zero clue resolves nothing |
| Knowledge.LearnSoundAt | minesweeper.py:185-247 | from sound knowledge and a true clue, the state after the first phase is sound and every queued mine is a mine |
| Ai.MinesweeperAI.constructor | minesweeper.py:137-151 | the player starts with no moves, mines, safes or sentences |
| Ai.MinesweeperAI.Valid | minesweeper.py:153-185 | every known mine has been recorded as a move, since `mark_mine` re-enters `add_knowledge`, which records it |
| Ai.MinesweeperAI.MarkMine | minesweeper.py:153-160 | the cell joins the mines; the moves, safes and knowledge are exactly those `Learned` from a zero mine clue, with nothing queued; the keys gain exactly the cell; no sentence of its block mentions it and its own sentence mentions no move and no known mine; a mine that is real keeps sound knowledge sound |
| Ai.MinesweeperAI.MarkSafe | minesweeper.py:162-167 | the cell joins the safes and nothing else changes |
| Ai.MinesweeperAI.VisitNeighbor | minesweeper.py:194-230 | one visited key: the clue, the sentence there, the safes and the discovered mines change exactly as that key's sentence dictates |
| Ai.MinesweeperAI.VisitStep | minesweeper.py:191-230 | one more cell of the scan carries the scan's summary from the cells before it to the cells up to it |
| Ai.MinesweeperAI.VisitRow | minesweeper.py:190-232 | one row of the scan carries its summary from the rows before it to the rows up to it |
| Ai.MinesweeperAI.VisitBlock | minesweeper.py:186-232 | the scan visits exactly `Block`; the clue, knowledge, safes and discovered mines are the functions of the state on entry that `Knowledge` defines |
| Ai.MinesweeperAI.Learn | minesweeper.py:184-247 | the state before any mine is marked is `Learned` from the state on entry, and the mines are unchanged |
| Ai.MinesweeperAI.MarkMines | minesweeper.py:249-250 | exactly the discovered cells join the mines, the moves and the keys; sentences only shrink except at those keys; each discovered mine has left the sentences of its block, and its own sentence mentions no earlier move; real mines keep sound knowledge sound |
| Ai.MinesweeperAI.MarkNext | minesweeper.py:249-250 | one `mark_mine` of the loop carries its summary from the mines marked before to one more: mines, moves and keys gain exactly that mine, sentences only shrink elsewhere, every marked mine is settled, and a real mine keeps sound knowledge sound |
| Ai.MinesweeperAI.AddKnowledge | minesweeper.py:169-252 | exactly `{cell}` and the `Queued` cells join the moves, the queued cells join the mines, and the keys gain exactly those; when nothing is queued (always so for a mine's zero clue) the whole new state is `Learned`; sentences only shrink except at `cell` and the queued cells; `cell` gets a sentence with the call's flag that mentions no earlier move or mine; no sentence of its block mentions `cell`; whatever the new sentence or the scan resolves is marked; safes only grow; a true clue keeps sound knowledge sound |
| Ai.MinesweeperAI.MakeSafeMove | minesweeper.py:254-259 | a move exactly when some known safe cell is unplayed, and then it is one such cell |
| Ai.MinesweeperAI.MakeRandomMove | minesweeper.py:261-265 | the first unplayed cell of the 7 × 7 square in row-major order, or none once all 49 are played; never a known mine while every known mine is recorded as a move |

## Left out

- The `print` calls, and `Minesweeper.print`, are console output only. They are not modelled.
- Random mine placement in `Minesweeper.__init__` is not modelled. The constructor takes the mine set as a parameter and requires it to lie on the board. The board matrix is the membership test `cell in mines`.
- The default of 8 mines in `Minesweeper.__init__` (line 10) has no counterpart, since the model takes the mine set rather than a number of mines to place. The defaults `height=8` and `width=8` (lines 10 and 137) are kept as default parameter values.
- `Board.Minesweeper.IsMine` requires an index within `-height..height-1` and `-width..width-1`. Python raises `IndexError` outside that range.
- Nothing in `minesweeper.py` updates `Minesweeper.mines_found`: only line 34 (the empty set) and line 84 (the comparison in `won`) touch it. The model has it as a field that `Won` reads.
- `Sentence.__str__` is display only.
- `Sentence.known_mines`, `known_safes`, `mark_mine` and `mark_safe` only raise `NotImplementedError`, and no code calls them.
- The code changes a stored `Sentence` object in place. The model overwrites its entry in the knowledge map instead. Each entry holds its own object, created at line 236, so no other reference sees the change.
- `random.sample` in `make_safe_move` picks an arbitrary unplayed safe cell. The model makes an arbitrary choice and does not model the randomness. On Python 3.11 and later, `random.sample` rejects a set argument; that error is not modelled.
- A missing return value (`None` from `make_safe_move` and `make_random_move`) is `Option.None`.
- `for mine in mines` at line 249 iterates a set in an order Python does not fix. `MarkMines` marks the cells in an arbitrary order.
- Ai.MinesweeperAI.AddKnowledge: once some cell is queued as a mine, the new `safes` and the sentences at `cell` and the queued cells are bounded only through `MarkMines`: other sentences only shrink, and the safes only grow. Which sentences reach a zero count then depends on the order in which the queued mines are marked. The moves, mines and keys are still stated exactly.
- Ai.MinesweeperAI.AddKnowledge: soundness is promised only when the clue comes from a square board. With width and height swapped, the scan on a non-square board is not the cell's neighbourhood, and the stored sentence can be false (`Knowledge.SwappedBoundsMissNeighbour`).
- Ai.MinesweeperAI.MarkMines: the cells it marks safe are stated one `mark_mine` at a time, by the `Learned` postcondition of `MarkMine`, not in closed form. Which sentences reach a zero count depends on the order in which the mines are marked.
- Ai.MinesweeperAI.MarkMine: soundness is promised only when the marked cell is a real mine. Otherwise there is nothing true to preserve.
