/** Properties of the grid parser: which grids it accepts, which error it
    reports, and what the records it returns contain. */
module GridFacts {
  import opened Common
  import opened Board
  import opened Grid

  lemma CellKey(k: nat)
    ensures Key(CellCoord(k)) == k
    ensures InCells(CellCoord(k), k + 1)
  {
  }

  lemma KeyCell(c: Coord)
    requires 0 <= c.x < 6 && 0 <= c.y
    ensures Key(c) >= 0 && CellCoord(Key(c)) == c
  {
  }

  /** The parse of the first `n` cells succeeds exactly when all of them are
      well formed; a failure names the first malformed cell in row-major
      order, as a missing delimiter when the row reaches a delimiter
      position holding something other than '|', and as a truncation
      otherwise. */
  lemma {:induction false} ParseCellsOk(rows: seq<string>, n: nat)
    requires n <= 6 * |rows|
    ensures ParseCells(rows, n).Success? <==> forall k :: 0 <= k < n ==> CellOkAt(rows, k)
    ensures ParseCells(rows, n).Failure? ==> FirstBad(rows, n, ParseCells(rows, n).error)
  {
    if n > 0 {
      ParseCellsOk(rows, n - 1);
      match ParseCells(rows, n - 1)
      case Failure(e) =>
        FirstBadGrows(rows, n, e);
      case Success(ps) =>
        var c := CellCoord(n - 1);
        var r := ReadCell(rows[c.y], c.x, c.y);
        CellKey(n - 1);
        assert r.Success? <==> CellOkAt(rows, n - 1);
        if r.Failure? {
          assert ParseCells(rows, n) == Failure(r.error);
          FirstBadHere(rows, n, r.error);
        } else {
          assert ParseCells(rows, n).Success?;
        }
    }
  }

  /** A first bad cell among fewer cells stays the first among more. */
  lemma FirstBadGrows(rows: seq<string>, n: nat, e: ParseError)
    requires 0 < n <= 6 * |rows| && FirstBad(rows, n - 1, e)
    ensures FirstBad(rows, n, e)
    ensures !CellOkAt(rows, Key(Coord(e.x, e.y)))
  {
    KeyCell(Coord(e.x, e.y));
  }

  /** The failure of cell `n - 1`, after all earlier cells were read, names
      the first bad cell. */
  lemma FirstBadHere(rows: seq<string>, n: nat, e: ParseError)
    requires 0 < n <= 6 * |rows|
    requires forall k :: 0 <= k < n - 1 ==> CellOkAt(rows, k)
    requires var c := CellCoord(n - 1); ReadCell(rows[c.y], c.x, c.y) == Failure(e)
    ensures FirstBad(rows, n, e)
  {
    CellKey(n - 1);
  }

  /** `e` names the first malformed cell among the first `n`, with the
      right kind. */
  predicate FirstBad(rows: seq<string>, n: nat, e: ParseError)
    requires n <= 6 * |rows|
  {
    var c := Coord(e.x, e.y);
    && InCells(c, n)
    && !CellOk(rows[e.y], e.x)
    && (e.MissingDelimiter? <==> |rows[e.y]| > 2 + 3 * e.x && rows[e.y][2 + 3 * e.x] != '|')
    && forall k :: 0 <= k < Key(c) ==> CellOkAt(rows, k)
  }

  /** One side's record after the first `n` cells, ignoring errors. */
  function Scan(rows: seq<string>, n: nat, m: Marks): Player
    requires n <= 6 * |rows|
  {
    if n == 0 then Fresh
    else Mark(Scan(rows, n - 1, m), m, CellCoord(n - 1), CellChar(rows, n - 1, 3), CellChar(rows, n - 1, 4))
  }

  /** A successful parse is the two sides' error-free scans. */
  lemma {:induction false} ParseCellsScan(rows: seq<string>, n: nat)
    requires n <= 6 * |rows|
    ensures ParseCells(rows, n).Success? ==>
      ParseCells(rows, n).value == (Scan(rows, n, P1Marks), Scan(rows, n, P2Marks))
  {
    if n > 0 {
      ParseCellsScan(rows, n - 1);
    }
  }

  /** Adding cell `n - 1` to the scan keeps the "last marked" description. */
  lemma LastMarkedStep(rows: seq<string>, n: nat, off: nat, ch: char, prev: Coord)
    requires 0 < n <= 6 * |rows|
    requires LastMarked(rows, n - 1, off, ch, prev)
    ensures LastMarked(rows, n, off, ch, if CellChar(rows, n - 1, off) == ch then CellCoord(n - 1) else prev)
  {
    CellKey(n - 1);
    if CellChar(rows, n - 1, off) != ch {
      if exists k :: 0 <= k < n && CellChar(rows, k, off) == ch {
        var k :| 0 <= k < n && CellChar(rows, k, off) == ch;
        assert k < n - 1;
        KeyCell(prev);
      }
    }
  }

  /** The scan of one side matches the reference description. */
  lemma {:induction false} ScanDescribes(rows: seq<string>, n: nat, m: Marks)
    requires n <= 6 * |rows|
    ensures Describes(rows, n, m, Scan(rows, n, m))
  {
    if n > 0 {
      var prev := Scan(rows, n - 1, m);
      ScanDescribes(rows, n - 1, m);
      PiecesStep(rows, n, m);
      LastMarkedStep(rows, n, 3, m.kotla, prev.kotla);
      LastMarkedStep(rows, n, 4, m.mirza, prev.mirza.pos);
    }
  }

  /** Adding cell `n - 1` to the scan keeps the piece list exact. */
  lemma PiecesStep(rows: seq<string>, n: nat, m: Marks)
    requires 0 < n <= 6 * |rows|
    requires AllMarked(rows, n - 1, m.piece, Scan(rows, n - 1, m).pieces)
    ensures AllMarked(rows, n, m.piece, Scan(rows, n, m).pieces)
  {
    var p := Scan(rows, n, m);
    var c := CellCoord(n - 1);
    CellKey(n - 1);
    forall k | 0 <= k < n
      ensures CellCoord(k) in p.pieces <==> CellChar(rows, k, 4) == m.piece
    {
      CellKey(k);
      if k < n - 1 {
        assert CellCoord(k) != c;
      }
    }
  }

  /** A grid is accepted exactly when every cell of every board row opens
      with '|' and holds its two markers; a rejected grid names its first bad
      cell in row-major order. */
  lemma ParseGridAccepts(grid: seq<string>)
    ensures var rows := BoardRows(grid);
      ParseGrid(grid).Success? <==>
        forall y, x :: 0 <= y < |rows| && 0 <= x < 6 ==> CellOk(rows[y], x)
    ensures var rows := BoardRows(grid);
      ParseGrid(grid).Failure? ==>
        var e := ParseGrid(grid).error;
        && 0 <= e.x < 6 && 0 <= e.y < |rows|
        && !CellOk(rows[e.y], e.x)
        && (e.MissingDelimiter? <==> |rows[e.y]| > 2 + 3 * e.x && rows[e.y][2 + 3 * e.x] != '|')
        && forall y, x :: 0 <= y < |rows| && 0 <= x < 6 && 6 * y + x < 6 * e.y + e.x ==> CellOk(rows[y], x)
  {
    var rows := BoardRows(grid);
    var n := 6 * |rows|;
    ParseCellsOk(rows, n);
    if ParseGrid(grid).Success? {
      forall y, x | 0 <= y < |rows| && 0 <= x < 6
        ensures CellOk(rows[y], x)
      {
        KeyCell(Coord(x, y));
        assert CellOkAt(rows, 6 * y + x);
      }
    } else {
      var e := ParseGrid(grid).error;
      forall y, x | 0 <= y < |rows| && 0 <= x < 6 && 6 * y + x < 6 * e.y + e.x
        ensures CellOk(rows[y], x)
      {
        KeyCell(Coord(x, y));
        assert CellOkAt(rows, 6 * y + x);
      }
    }
  }

  /** On success each side's pieces are exactly the squares carrying its
      piece marker, listed in row-major order; its kotla and mirza are the
      last squares carrying their markers, or (-1, -1) when there is none;
      and every square recorded lies on the 6 x 6 board. */
  lemma ParseGridContents(grid: seq<string>)
    requires ParseGrid(grid).Success?
    ensures var rows := BoardRows(grid);
      var ps := ParseGrid(grid).value;
      && Describes(rows, 6 * |rows|, P1Marks, ps.0)
      && Describes(rows, 6 * |rows|, P2Marks, ps.1)
      && ps.0.mirza != Captured && ps.1.mirza != Captured
      && (forall i :: 0 <= i < |ps.0.pieces| ==> OnBoard(ps.0.pieces[i]))
      && (forall i :: 0 <= i < |ps.1.pieces| ==> OnBoard(ps.1.pieces[i]))
      && (ps.0.kotla == Unset || OnBoard(ps.0.kotla))
      && (ps.1.kotla == Unset || OnBoard(ps.1.kotla))
      && (ps.0.mirza == At(Unset) || OnBoard(ps.0.mirza.pos))
      && (ps.1.mirza == At(Unset) || OnBoard(ps.1.mirza.pos))
  {
    var rows := BoardRows(grid);
    var n := 6 * |rows|;
    ParseCellsScan(rows, n);
    ScanDescribes(rows, n, P1Marks);
    ScanDescribes(rows, n, P2Marks);
  }
}
