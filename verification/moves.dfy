/** Enumeration of the mover's candidate moves, in the order the search
    visits them: queue slot 0..2, then the mover's pieces in list order,
    then the offsets of the slot's kind in table order. */
module Moves {
  import opened Board

  /** One candidate: which slot, which piece (by index), which offset of the
      slot's kind, and the squares it goes from and to. */
  datatype Candidate = Candidate(slot: nat, index: nat, offset: nat, from: Coord, to: Coord)

  /** A destination the mover may land on: on the board and not on one of
      its own pieces or its own mirza (its own kotla is allowed). */
  predicate Legal(mover: Player, to: Coord)
  {
    OnBoard(to) && !Occupies(mover, to)
  }

  /** Reference description of a candidate, independent of the enumeration
      order: the triple names an existing slot, piece and offset, the squares
      are the ones those determine, and the destination is legal. */
  predicate IsMove(mover: Player, q: seq<PieceKind>, p1Turn: bool, c: Candidate)
    requires |q| >= 3
  {
    && c.slot < 3
    && c.index < |mover.pieces|
    && c.offset < |Offsets(q[c.slot])|
    && c.from == mover.pieces[c.index]
    && c.to == Dest(c.from, Offsets(q[c.slot])[c.offset], p1Turn)
    && Legal(mover, c.to)
  }

  /** Strict lexicographic order on (slot, index, offset). */
  predicate Before(a: Candidate, b: Candidate)
  {
    a.slot < b.slot
    || (a.slot == b.slot && a.index < b.index)
    || (a.slot == b.slot && a.index == b.index && a.offset < b.offset)
  }

  predicate Ordered(cs: seq<Candidate>)
  {
    forall i, j :: 0 <= i < j < |cs| ==> Before(cs[i], cs[j])
  }

  /** The legal moves of piece `index` with offsets `offs[k..]`. */
  function OffsetCandidates(mover: Player, offs: seq<Offset>, slot: nat, index: nat, p1Turn: bool, k: nat): seq<Candidate>
    requires index < |mover.pieces|
    requires k <= |offs|
    decreases |offs| - k
  {
    if k == |offs| then []
    else
      var from := mover.pieces[index];
      var to := Dest(from, offs[k], p1Turn);
      (if Legal(mover, to) then [Candidate(slot, index, k, from, to)] else [])
      + OffsetCandidates(mover, offs, slot, index, p1Turn, k + 1)
  }

  /** The legal moves of pieces `index..` with offsets `offs`. */
  function PieceCandidates(mover: Player, offs: seq<Offset>, slot: nat, p1Turn: bool, index: nat): seq<Candidate>
    requires index <= |mover.pieces|
    decreases |mover.pieces| - index
  {
    if index == |mover.pieces| then []
    else OffsetCandidates(mover, offs, slot, index, p1Turn, 0)
         + PieceCandidates(mover, offs, slot, p1Turn, index + 1)
  }

  /** The legal moves using slots `slot..2` of the queue. */
  function SlotCandidates(mover: Player, q: seq<PieceKind>, p1Turn: bool, slot: nat): seq<Candidate>
    requires |q| >= 3 && slot <= 3
    decreases 3 - slot
  {
    if slot == 3 then []
    else PieceCandidates(mover, Offsets(q[slot]), slot, p1Turn, 0)
         + SlotCandidates(mover, q, p1Turn, slot + 1)
  }

  /** Every legal move of the side to move, in search order. */
  function Candidates(mover: Player, q: seq<PieceKind>, p1Turn: bool): seq<Candidate>
    requires |q| >= 3
  {
    SlotCandidates(mover, q, p1Turn, 0)
  }

  /** Every listed candidate is a move, and the list is in search order. */
  lemma CandidatesSound(mover: Player, q: seq<PieceKind>, p1Turn: bool)
    requires |q| >= 3
    ensures var cs := Candidates(mover, q, p1Turn);
      && (forall i :: 0 <= i < |cs| ==> IsMove(mover, q, p1Turn, cs[i]))
      && Ordered(cs)
  {
    SlotSound(mover, q, p1Turn, 0);
  }

  // ---------------------------------------------------------------------
  // Soundness and order, level by level

  lemma OrderedAppend(a: seq<Candidate>, b: seq<Candidate>)
    requires Ordered(a) && Ordered(b)
    requires forall i, j :: 0 <= i < |a| && 0 <= j < |b| ==> Before(a[i], b[j])
    ensures Ordered(a + b)
  {
    forall i, j | 0 <= i < j < |a + b|
      ensures Before((a + b)[i], (a + b)[j])
    {
      if j < |a| {
      } else if i < |a| {
        assert (a + b)[j] == b[j - |a|];
      } else {
        assert (a + b)[i] == b[i - |a|] && (a + b)[j] == b[j - |a|];
      }
    }
  }

  lemma {:induction false} OffsetSound(mover: Player, offs: seq<Offset>, slot: nat, index: nat, p1Turn: bool, k: nat)
    requires index < |mover.pieces|
    requires k <= |offs|
    ensures var cs := OffsetCandidates(mover, offs, slot, index, p1Turn, k);
      && Ordered(cs)
      && forall i :: 0 <= i < |cs| ==>
           && cs[i].slot == slot && cs[i].index == index
           && k <= cs[i].offset < |offs|
           && cs[i].from == mover.pieces[index]
           && cs[i].to == Dest(cs[i].from, offs[cs[i].offset], p1Turn)
           && Legal(mover, cs[i].to)
    decreases |offs| - k
  {
    if k < |offs| {
      OffsetSound(mover, offs, slot, index, p1Turn, k + 1);
    }
  }

  lemma {:induction false} PieceSound(mover: Player, offs: seq<Offset>, slot: nat, p1Turn: bool, index: nat)
    requires index <= |mover.pieces|
    ensures var cs := PieceCandidates(mover, offs, slot, p1Turn, index);
      && Ordered(cs)
      && forall i :: 0 <= i < |cs| ==>
           && cs[i].slot == slot
           && index <= cs[i].index < |mover.pieces|
           && cs[i].offset < |offs|
           && cs[i].from == mover.pieces[cs[i].index]
           && cs[i].to == Dest(cs[i].from, offs[cs[i].offset], p1Turn)
           && Legal(mover, cs[i].to)
    decreases |mover.pieces| - index
  {
    if index < |mover.pieces| {
      var a := OffsetCandidates(mover, offs, slot, index, p1Turn, 0);
      var b := PieceCandidates(mover, offs, slot, p1Turn, index + 1);
      OffsetSound(mover, offs, slot, index, p1Turn, 0);
      PieceSound(mover, offs, slot, p1Turn, index + 1);
      OrderedAppend(a, b);
    }
  }

  lemma {:induction false} SlotSound(mover: Player, q: seq<PieceKind>, p1Turn: bool, slot: nat)
    requires |q| >= 3 && slot <= 3
    ensures var cs := SlotCandidates(mover, q, p1Turn, slot);
      && Ordered(cs)
      && forall i :: 0 <= i < |cs| ==> slot <= cs[i].slot && IsMove(mover, q, p1Turn, cs[i])
    decreases 3 - slot
  {
    if slot < 3 {
      var a := PieceCandidates(mover, Offsets(q[slot]), slot, p1Turn, 0);
      var b := SlotCandidates(mover, q, p1Turn, slot + 1);
      PieceSound(mover, Offsets(q[slot]), slot, p1Turn, 0);
      SlotSound(mover, q, p1Turn, slot + 1);
      assert forall i, j :: 0 <= i < |a| && 0 <= j < |b| ==> a[i].slot < b[j].slot;
      OrderedAppend(a, b);
      forall i | 0 <= i < |a + b|
        ensures slot <= (a + b)[i].slot && IsMove(mover, q, p1Turn, (a + b)[i])
      {
        if i < |a| {
          assert (a + b)[i] == a[i];
        } else {
          assert (a + b)[i] == b[i - |a|];
        }
      }
    }
  }

  // ---------------------------------------------------------------------
  // Completeness

  lemma {:induction false} OffsetComplete(mover: Player, offs: seq<Offset>, slot: nat, index: nat, p1Turn: bool, k: nat, o: nat)
    requires index < |mover.pieces|
    requires k <= o < |offs|
    requires Legal(mover, Dest(mover.pieces[index], offs[o], p1Turn))
    ensures Candidate(slot, index, o, mover.pieces[index], Dest(mover.pieces[index], offs[o], p1Turn))
            in OffsetCandidates(mover, offs, slot, index, p1Turn, k)
    decreases |offs| - k
  {
    if k < o {
      OffsetComplete(mover, offs, slot, index, p1Turn, k + 1, o);
    }
  }

  lemma {:induction false} PieceComplete(mover: Player, offs: seq<Offset>, slot: nat, p1Turn: bool, index: nat, c: Candidate)
    requires index <= c.index < |mover.pieces|
    requires c.slot == slot && c.offset < |offs|
    requires c.from == mover.pieces[c.index]
    requires c.to == Dest(c.from, offs[c.offset], p1Turn)
    requires Legal(mover, c.to)
    ensures c in PieceCandidates(mover, offs, slot, p1Turn, index)
    decreases |mover.pieces| - index
  {
    var a := OffsetCandidates(mover, offs, slot, index, p1Turn, 0);
    var b := PieceCandidates(mover, offs, slot, p1Turn, index + 1);
    assert PieceCandidates(mover, offs, slot, p1Turn, index) == a + b;
    if index < c.index {
      PieceComplete(mover, offs, slot, p1Turn, index + 1, c);
      assert c in b;
    } else {
      OffsetComplete(mover, offs, slot, index, p1Turn, 0, c.offset);
      assert c in a;
    }
  }

  lemma {:induction false} SlotComplete(mover: Player, q: seq<PieceKind>, p1Turn: bool, slot: nat, c: Candidate)
    requires |q| >= 3 && slot <= c.slot
    requires IsMove(mover, q, p1Turn, c)
    ensures c in SlotCandidates(mover, q, p1Turn, slot)
    decreases 3 - slot
  {
    var a := PieceCandidates(mover, Offsets(q[slot]), slot, p1Turn, 0);
    var b := SlotCandidates(mover, q, p1Turn, slot + 1);
    assert SlotCandidates(mover, q, p1Turn, slot) == a + b;
    if slot < c.slot {
      SlotComplete(mover, q, p1Turn, slot + 1, c);
      assert c in b;
    } else {
      PieceComplete(mover, Offsets(q[slot]), slot, p1Turn, 0, c);
      assert c in a;
    }
  }

  /** The enumeration lists exactly the legal moves: a candidate is listed
      if and only if it satisfies the reference description `IsMove`. Together
      with `Ordered` this pins the enumeration down completely. */
  lemma CandidatesExact(mover: Player, q: seq<PieceKind>, p1Turn: bool, c: Candidate)
    requires |q| >= 3
    ensures c in Candidates(mover, q, p1Turn) <==> IsMove(mover, q, p1Turn, c)
  {
    CandidatesSound(mover, q, p1Turn);
    if IsMove(mover, q, p1Turn, c) {
      SlotComplete(mover, q, p1Turn, 0, c);
    }
  }

  /** The listed destinations are on the board, are the piece's square minus
      the offset for player 1 and plus it for player 2, and never land on the
      mover's own pieces or mirza. */
  lemma CandidateSquares(mover: Player, q: seq<PieceKind>, p1Turn: bool, c: Candidate)
    requires |q| >= 3
    requires c in Candidates(mover, q, p1Turn)
    ensures c.slot < 3 && c.offset < |Offsets(q[c.slot])|
    ensures 0 <= c.to.x < Width && 0 <= c.to.y < Height
    ensures var o := Offsets(q[c.slot])[c.offset];
      p1Turn ==> c.to == Coord(c.from.x - o.dx, c.from.y - o.dy)
    ensures var o := Offsets(q[c.slot])[c.offset];
      !p1Turn ==> c.to == Coord(c.from.x + o.dx, c.from.y + o.dy)
    ensures c.to !in mover.pieces && mover.mirza != At(c.to)
  {
    CandidatesSound(mover, q, p1Turn);
  }
}
