/** Static data of the Dastan board: coordinates, the five move-option kinds
    with their offset tables, the queue-slot costs, and the per-side record
    (kotla, mirza, ordinary pieces). */
module Board {

  /** The board is WIDTH x HEIGHT squares. */
  const Width: int := 6
  const Height: int := 6

  /** Cost of using queue slot 0, 1 and 2. */
  const QueueSpotCosts: seq<int> := [1, 4, 7]

  /** A board coordinate. Unbounded, because the parser's "not yet seen"
      default is (-1, -1). */
  datatype Coord = Coord(x: int, y: int)

  /** The default coordinate a freshly parsed side starts with. */
  const Unset: Coord := Coord(-1, -1)

  /** A relative displacement (dx, dy). */
  datatype Offset = Offset(dx: int, dy: int)

  datatype PieceKind = Ryott | Chowkidar | Cuirassier | Faujdar | Jazair

  /** The static move table: the ordered offsets each kind may use. */
  function Offsets(k: PieceKind): seq<Offset>
  {
    match k
    case Ryott => [Offset(1, 0), Offset(-1, 0), Offset(0, 1), Offset(0, -1)]
    case Chowkidar => [Offset(1, 1), Offset(2, 0), Offset(1, -1), Offset(-1, 1), Offset(-2, 0), Offset(-1, -1)]
    case Faujdar => [Offset(-2, 0), Offset(-1, 0), Offset(1, 0), Offset(2, 0)]
    case Jazair => [Offset(0, 2), Offset(2, 2), Offset(2, 0), Offset(1, -1), Offset(-1, -1), Offset(-2, 0), Offset(-2, 2)]
    case Cuirassier => [Offset(0, 2), Offset(0, 1), Offset(2, 1), Offset(-2, 1)]
  }

  /** The mirza of a side: on a square, or captured. A side whose mirza was
      never placed sits at `At(Unset)`, so the two "absent" states of the
      source stay distinct. */
  datatype Mirza = Captured | At(pos: Coord)

  /** One side of the game. */
  datatype Player = Player(kotla: Coord, mirza: Mirza, pieces: seq<Coord>)

  /** The record a side starts with before the grid is read. */
  const Fresh: Player := Player(Unset, At(Unset), [])

  predicate OnBoard(c: Coord)
  {
    0 <= c.x < Width && 0 <= c.y < Height
  }

  /** True when the mirza stands on `c` (a captured mirza stands nowhere). */
  predicate MirzaOn(m: Mirza, c: Coord)
  {
    m == At(c)
  }

  /** True when one of `p`'s ordinary pieces or its mirza stands on `c`. */
  predicate Occupies(p: Player, c: Coord)
  {
    c in p.pieces || MirzaOn(p.mirza, c)
  }

  /** Where a piece lands: player 1 subtracts the offset, player 2 adds it. */
  function Dest(from: Coord, o: Offset, p1Turn: bool): Coord
  {
    if p1Turn then Coord(from.x - o.dx, from.y - o.dy)
    else Coord(from.x + o.dx, from.y + o.dy)
  }

  /** No offset in the table is (0, 0): a move always changes the square. */
  lemma OffsetsMove(k: PieceKind, i: int)
    requires 0 <= i < |Offsets(k)|
    ensures Offsets(k)[i] != Offset(0, 0)
    ensures forall p1Turn: bool, from: Coord :: Dest(from, Offsets(k)[i], p1Turn) != from
  {
  }
}
