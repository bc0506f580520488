/** Reading the rendered board. Rows 2..7 of the captured output hold the
    6 x 6 board; each row starts with two label characters, then six cells of
    three characters: the delimiter '|', a kotla marker ('K' player 1, 'k'
    player 2) and a piece marker ('!' / '"' ordinary piece, '1' / '2' mirza). */
module Grid {
  import opened Common
  import opened Board

  /** Why a grid is rejected: a row ended inside cell (x, y), or cell (x, y)
      does not open with '|'. */
  datatype ParseError = Truncated(x: int, y: int) | MissingDelimiter(x: int, y: int)

  /** The board rows: lines 2 up to (not including) 8 of the output, fewer
      when the output is shorter. */
  function BoardRows(grid: seq<string>): (rows: seq<string>)
    ensures |rows| == if |grid| <= 2 then 0 else if |grid| >= 8 then 6 else |grid| - 2
    ensures forall y :: 0 <= y < |rows| ==> rows[y] == grid[y + 2]
  {
    if |grid| <= 2 then [] else grid[2..if |grid| < 8 then |grid| else 8]
  }

  /** The markers one side is recognised by. */
  datatype Marks = Marks(kotla: char, piece: char, mirza: char)

  const P1Marks: Marks := Marks('K', '!', '1')
  const P2Marks: Marks := Marks('k', '"', '2')

  /** Records what one cell says about one side: a kotla marker overwrites
      the kotla, a mirza marker overwrites the mirza, a piece marker appends
      a piece. */
  function Mark(p: Player, m: Marks, c: Coord, kotla: char, piece: char): Player
  {
    Player(if kotla == m.kotla then c else p.kotla,
           if piece == m.mirza then At(c) else p.mirza,
           if piece == m.piece then p.pieces + [c] else p.pieces)
  }

  /** Reads cell `x` of a row: the row must reach the delimiter, the
      delimiter must be '|', and the row must reach the piece marker. */
  function ReadCell(line: string, x: nat, y: nat): (r: Result<(char, char), ParseError>)
    requires x < 6
    ensures r.Success? <==> CellOk(line, x)
    ensures r.Failure? ==>
      && r.error.x == x && r.error.y == y
      && (r.error.MissingDelimiter? <==> |line| > 2 + 3 * x && line[2 + 3 * x] != '|')
  {
    if |line| <= 2 + 3 * x then Failure(Truncated(x, y))
    else if line[2 + 3 * x] != '|' then Failure(MissingDelimiter(x, y))
    else if |line| <= 4 + 3 * x then Failure(Truncated(x, y))
    else Success((line[3 + 3 * x], line[4 + 3 * x]))
  }

  /** Cell number `k` in row-major order. */
  function CellCoord(k: nat): Coord
  {
    Coord(k % 6, k / 6)
  }

  /** Row-major position of a coordinate. */
  function Key(c: Coord): int
  {
    6 * c.y + c.x
  }

  /** The parser after the first `n` cells, in row-major order; the first
      failing cell aborts the whole parse. */
  function ParseCells(rows: seq<string>, n: nat): Result<(Player, Player), ParseError>
    requires n <= 6 * |rows|
  {
    if n == 0 then Success((Fresh, Fresh))
    else
      match ParseCells(rows, n - 1)
      case Failure(e) => Failure(e)
      case Success(ps) =>
        var c := CellCoord(n - 1);
        match ReadCell(rows[c.y], c.x, c.y)
        case Failure(e) => Failure(e)
        case Success(cell) =>
          Success((Mark(ps.0, P1Marks, c, cell.0, cell.1), Mark(ps.1, P2Marks, c, cell.0, cell.1)))
  }

  /** Parses the captured output into player 1's and player 2's records. */
  function ParseGrid(grid: seq<string>): Result<(Player, Player), ParseError>
  {
    var rows := BoardRows(grid);
    ParseCells(rows, 6 * |rows|)
  }

  // ---------------------------------------------------------------------
  // Reference description of a successful parse

  /** Cell `x` of a row is well formed: it opens with '|' and the row is
      long enough to hold its two markers. */
  predicate CellOk(line: string, x: int)
    requires 0 <= x < 6
  {
    |line| >= 5 + 3 * x && line[2 + 3 * x] == '|'
  }

  predicate CellOkAt(rows: seq<string>, k: nat)
    requires k < 6 * |rows|
  {
    CellOk(rows[k / 6], k % 6)
  }

  /** Character `off` (3 for the kotla marker, 4 for the piece marker) of
      cell number `k`; a blank when the row is too short. */
  function CellChar(rows: seq<string>, k: nat, off: nat): char
    requires k < 6 * |rows|
  {
    var line := rows[k / 6];
    var i := off + 3 * (k % 6);
    if i < |line| then line[i] else ' '
  }

  /** `c` is one of the first `n` cells. */
  predicate InCells(c: Coord, n: nat)
  {
    0 <= c.x < 6 && 0 <= c.y && Key(c) < n
  }

  /** `c` is the last of the first `n` cells carrying `ch` at `off`, or the
      default (-1, -1) when none does. */
  predicate LastMarked(rows: seq<string>, n: nat, off: nat, ch: char, c: Coord)
    requires n <= 6 * |rows|
  {
    if exists k :: 0 <= k < n && CellChar(rows, k, off) == ch then
      && InCells(c, n)
      && CellChar(rows, Key(c), off) == ch
      && forall k :: Key(c) < k < n ==> CellChar(rows, k, off) != ch
    else c == Unset
  }

  /** `ps` lists exactly the first `n` cells carrying piece marker `ch`, in
      row-major order. */
  predicate AllMarked(rows: seq<string>, n: nat, ch: char, ps: seq<Coord>)
    requires n <= 6 * |rows|
  {
    && (forall k :: 0 <= k < n ==> (CellCoord(k) in ps <==> CellChar(rows, k, 4) == ch))
    && (forall i :: 0 <= i < |ps| ==> InCells(ps[i], n))
    && (forall i, j :: 0 <= i < j < |ps| ==> Key(ps[i]) < Key(ps[j]))
  }

  /** What the first `n` cells say about the side with markers `m`: its
      pieces are exactly the cells with its piece marker, in row-major order;
      its kotla and mirza are the last cells carrying their markers. */
  predicate Describes(rows: seq<string>, n: nat, m: Marks, p: Player)
    requires n <= 6 * |rows|
  {
    && AllMarked(rows, n, m.piece, p.pieces)
    && LastMarked(rows, n, 3, m.kotla, p.kotla)
    && p.mirza.At? && LastMarked(rows, n, 4, m.mirza, p.mirza.pos)
  }
}
