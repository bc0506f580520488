# Dastan move-selection engine in Dafny

This project models the computer player for Dastan, a two-player game on a
6 x 6 board. Each side has ordinary pieces, one special piece (the mirza) and
a home square (the kotla). A side moves by spending one of the three slots of
its move queue. Slot 0, 1 and 2 cost 1, 4 and 7 points. The kind in the slot
fixes the offsets the move may use. After the move, that kind goes to the back
of the queue.

The model covers three parts of `dastan_ai.py`:

- **The static tables.** These are the board size, the slot costs and the
  offset table of the five piece kinds (`board.dfy`). The queue rotation and
  slot cost live in `queue.dfy`.
- **The `minimax` search.** It has four parts:
  - `moves.dfy` enumerates the candidates in the order the search visits
    them: slot, then piece, then offset.
  - `capture.dfy` holds the capture loop and the conditional removal of the
    captured piece.
  - `search.dfy` builds each successor and scores it. It also holds the
    selection of the first strictly best child and the depth-bounded
    recursion.
  - `search_facts.dfy` proves the search's properties.
- **`parse_grid`.** It reads the six rendered board rows into the two sides'
  records (`grid.dfy`, with its properties in `grid_facts.dfy`). Python
  raises an exception on malformed input. Here the parser returns a
  `ParseError` instead: `Truncated` when a row ends inside a cell (where the
  source raises `StopIteration`), and `MissingDelimiter` when a cell does not
  open with `|` (where the source's `assert` fails).

`scenarios.dfy` proves behaviour on concrete positions:

- the worked opening in which player 1 captures with slot 0;
- the capture at index 0 that is scored but never removed;
- a double capture;
- the 5-point kotla bonus that a side whose kotla and mirza were both never
  marked collects on every move.

The model follows the code as written, including these quirks:

- **The kotla bonuses look at the position before the move.** Both bonuses
  test the mover's pre-move pieces, not the moved piece
  (`SearchFacts.KotlaBonusIgnoresDestination`).
- **A capture at index 0 is never removed.** The removal is guarded by the
  truthiness of the remembered index (`Capture.Truthy`).
- **Coinciding pieces all score.** Every defender piece on the destination
  adds one point, and the last match is the one removed.
- **The mirza has two absent values.** A never-marked mirza is `At(Unset)`,
  the default (-1, -1). A captured one is `Captured`, Python's `None`.
- **No candidates yield infinities.** With no candidate the search returns the
  starting infinity and no move. Scores are `ExtInt`, `NegInf | Fin(int) |
  PosInf`, in place of Python's float infinities.

## Model

| member | source | states |
|---|---|---|
| Board.OffsetsMove | dastan_ai.py:26-32 | no entry of the offset table is (0, 0), so every move, in either direction, leaves its square |
| Board.Offsets | dastan_ai.py:26-32 | the offset table of the five kinds, in table order; its use is stated by Moves.CandidatesExact and Moves.CandidateSquares |
| Board.Dest | dastan_ai.py:125 | the destination square, the offset subtracted for player 1 and added for player 2 (line 178); stated by Moves.CandidateSquares |
| Moves.SlotCandidates | dastan_ai.py:120-122 | the outer loop over the three queue slots; its order and contents are stated by Moves.SlotSound and Moves.SlotComplete |
| Moves.PieceCandidates | dastan_ai.py:123 | the loop over the mover's pieces in list order; stated by Moves.PieceSound and Moves.PieceComplete |
| Moves.OffsetCandidates | dastan_ai.py:124-129 | the loop over the slot kind's offsets with the board and self-collision filters; stated by Moves.OffsetSound and Moves.OffsetComplete |
| Moves.Candidates | dastan_ai.py:120-129 | every candidate of the side to move in search order; stated by Moves.CandidatesSound, Moves.CandidatesExact and Moves.CandidateSquares |
| Moves.SlotSound | dastan_ai.py:120-122 | the candidates of slots `slot..2` are legal moves of those slots, in search order |
| Moves.SlotComplete | dastan_ai.py:173-182 | every legal move of a slot at or after `slot` is listed |
| Search.NewScore | dastan_ai.py:130-144 | the mover's score after a move; its value is stated by SearchFacts.ChildScores |
| Search.Child | dastan_ai.py:146-154 | the successor state after one candidate; stated by SearchFacts.ChildMover, SearchFacts.ChildDefender, SearchFacts.ChildScores and SearchFacts.ChildQueues |
| Search.PickExtreme | dastan_ai.py:166-169 | the strict running-extreme selection; any index it reports is in range, and SearchFacts.PickFirstExtreme states the rest |
| Search.ChildValues | dastan_ai.py:156-165 | the children's values in move order, one per candidate; each is stated by SearchFacts.ChildValueAt |
| Search.Minimax | dastan_ai.py:107-222 | the search; stated by SearchFacts.MinimaxTerminal, SearchFacts.MinimaxExtreme and SearchFacts.MinimaxFirstBest |
| Grid.ReadCell | dastan_ai.py:85-95 | a cell is read if and only if it opens with the delimiter and holds both markers; a failure names the cell and is a missing delimiter exactly when the row reaches a delimiter position holding something else |
| Grid.Mark | dastan_ai.py:90-103 | what one cell records for one side; stated by GridFacts.ScanDescribes |
| Grid.ParseCells | dastan_ai.py:84-103 | the row-major loop over the cells, stopping at the first bad one; stated by GridFacts.ParseCellsOk and GridFacts.ParseCellsScan |
| Grid.ParseGrid | dastan_ai.py:81-104 | the parser; stated by GridFacts.ParseGridAccepts and GridFacts.ParseGridContents |
| Queue.Cost | dastan_ai.py:25 | the slot cost is 1, 4 or 7 and rises by 3 per slot |
| Queue.Rotate | dastan_ai.py:121-122 | using a slot keeps the queue's length and puts the used kind at the back |
| Queue.RotateShift | dastan_ai.py:174-175 | slots before the used one stay, later ones move up by one, and the queue holds the same multiset of kinds |
| Queue.RotateThree | dastan_ai.py:121-122 | on a three-slot queue, slot 0 gives [q1, q2, q0], slot 1 gives [q0, q2, q1] and slot 2 leaves the queue as it was |
| Moves.CandidatesSound | dastan_ai.py:120-129 | every enumerated candidate is a legal move of an existing slot, piece and offset, and the list is strictly ordered by slot, then piece, then offset |
| Moves.CandidatesExact | dastan_ai.py:173-182 | a candidate is enumerated if and only if it is a legal move of the mover |
| Moves.CandidateSquares | dastan_ai.py:125-129 | every destination is on the board, is the piece's square minus the offset for player 1 and plus it for player 2, and is on none of the mover's own pieces or its mirza |
| Search.MoveInRange | dastan_ai.py:123-124 | every candidate names a slot below 3 and an existing piece of the mover |
| Capture.ScanCaptures | dastan_ai.py:132-136 | the capture loop remembers no index exactly when no defender piece is on the destination, and otherwise remembers the last index holding it |
| Capture.ScanCount | dastan_ai.py:185-189 | the capture loop counts exactly the defender pieces on the destination |
| Capture.RemoveTaken | dastan_ai.py:146-150 | a truthy remembered index removes one element and a falsy one (none, or 0) leaves the list as it was |
| Capture.RemoveTakenShift | dastan_ai.py:199-203 | the pop keeps the elements before the index, moves later ones up by one, and removes one copy of the popped piece |
| Capture.CaptureRemoval | dastan_ai.py:132-150 | when the destination occurs at a non-zero index the defender loses its last occurrence and keeps the others in order; otherwise, including a hit only at index 0, the list is unchanged |
| SearchFacts.MinimaxTerminal | dastan_ai.py:115-116 | at depth 0 the result is the score differential and no move, whatever the board and queues hold, even empty queues |
| SearchFacts.PickFirstExtreme | dastan_ai.py:166-169 | the strict selection returns a value no child beats, held by a child when there is one, at the first index holding it; it reports no index exactly when the value is the starting infinity |
| SearchFacts.MinimaxExtreme | dastan_ai.py:117-169 | above depth 0 the value is the maximum (player 1) or minimum (player 2) of the child values and one child attains it; with no candidates it is (-inf, None) or (+inf, None) |
| SearchFacts.MinimaxFirstBest | dastan_ai.py:170-222 | a reported move is (slot, from, to) of the first candidate, in search order, whose child value equals the result |
| SearchFacts.ChildValueAt | dastan_ai.py:156-165 | child value i is the search, one level shallower, of the successor built from candidate i |
| SearchFacts.ChildValueLeaf | dastan_ai.py:209-218 | one level above the leaves, child value i is the successor's score differential |
| SearchFacts.OnePlyChoice | dastan_ai.py:219-221 | at depth 1, when no child value beats a value that child i0 attains first, the result is that value with candidate i0's move |
| SearchFacts.FirstExtremeAt | dastan_ai.py:166-168 | when no value beats v, v is not the starting infinity, and index i0 is the first holding v, the strict selection picks v at i0; v may be the opposite infinity of a child with no move |
| SearchFacts.ChildMover | dastan_ai.py:152-154 | in the successor the turn passes and only the moved piece of the former mover changes, to the destination; its kotla and mirza stay |
| SearchFacts.ChildDefender | dastan_ai.py:199-207 | the defender keeps its kotla, its mirza is captured exactly when it stood on the destination, and its list loses its last copy of the destination, the rest in order, only when the destination occurs at a non-zero index |
| SearchFacts.ChildScores | dastan_ai.py:183-197 | the mover's new score is the old one minus the slot cost, plus one per defender piece on the destination, 5 for the defender's mirza, 5 when the mover's kotla is held and 1 when the defender's kotla is held; the defender's score is unchanged |
| SearchFacts.ChildQueues | dastan_ai.py:209-218 | the mover's queue is rotated on the used slot and the defender's queue is passed down unchanged |
| SearchFacts.KotlaBonusIgnoresDestination | dastan_ai.py:141-144 | two non-capturing moves with the same slot score the same wherever the piece lands, because the kotla bonuses look at the position before the move |
| Grid.BoardRows | dastan_ai.py:84 | the board rows are output lines 2 to 7, or as many of them as exist |
| GridFacts.ParseCellsOk | dastan_ai.py:88-95 | the first n cells parse if and only if each is well formed; a failure names the first bad cell and tells a missing delimiter from a truncated row |
| GridFacts.ParseCellsScan | dastan_ai.py:90-103 | a successful parse is the two sides' error-free cell-by-cell scans |
| GridFacts.ScanDescribes | dastan_ai.py:91-103 | the scan lists exactly the cells with the side's piece marker, in row-major order, and keeps the last kotla and mirza markers, or (-1, -1) when there are none |
| GridFacts.ParseGridAccepts | dastan_ai.py:84-89 | a grid is accepted if and only if every cell of every board row opens with the delimiter and holds its two markers; a rejected grid names its first bad cell in row-major order |
| GridFacts.ParseGridContents | dastan_ai.py:81-104 | an accepted grid gives each side exactly its marked pieces in row-major order, the last marked kotla and mirza or (-1, -1), and only squares on the 6 x 6 board |
| Scenarios.OpeningMoves | dastan_ai.py:120-129 | in the opening, each slot moves the Ryott on (2, 2) to (1, 2), (3, 2), (2, 1) and (2, 3), in that order |
| Scenarios.OpeningCapture | dastan_ai.py:117-169 | searched one ply deep, the opening keeps its differential (one point for the capture, one for slot 0) and reports (0, (2, 2), (1, 2)) |
| Scenarios.CaptureAtIndexZeroKept | dastan_ai.py:146-151 | capturing the defender's only piece, at index 0, scores a point but leaves the piece in the defender's list |
| Scenarios.DoubleCapture | dastan_ai.py:132-150 | two defender pieces on the destination count two and only the later one is removed |
| Scenarios.UnmarkedKotlaBonus | dastan_ai.py:141-142 | a side whose kotla and mirza were both never marked collects the 5-point kotla bonus on every move |

## Left out

- The `Process` class (`dastan_ai.py:35-78`): subprocess pipes, echoing and the `sleep` delay are I/O with nothing to state.
- The driver script (`dastan_ai.py:225-245`): it launches the game, matches status lines with regular expressions and writes fixed answers. That is I/O and a library regex engine.
- The string values of the `Piece` enum (`dastan_ai.py:8-13`) are not modelled, because only the kinds themselves reach the search.
- The float infinities become the `NegInf` and `PosInf` values of `ExtInt`. Integer scores are compared exactly as Python compares them with the floats.
- Search.Minimax: the depth is a `nat`. Python with a negative depth never reaches the terminal case, so it recurses until a side has no candidate.
- Search.Minimax: above depth 0 both queues must hold at least three kinds (`WellFormed`). Python indexes a queue only when its side moves above depth 0, so it also accepts a short queue for the side not to move whenever no call reaches a ply where that side moves (at depth 1, or when the side to move has no candidate); those calls are not modelled. At depth 0 no queue is required, as in Python.
- Grid.ParseGrid: the `assert` on the delimiter becomes a `MissingDelimiter` error. Running Python with assertions disabled, which would skip that check, is not modelled.
- Aliasing: the source passes the defender's list down without a copy when nothing is removed. With immutable sequences this has no observable effect.
