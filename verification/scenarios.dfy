/** Concrete positions that exhibit the search's behaviour, including the two
    quirks of the capture rule. */
module Scenarios {
  import opened Common
  import opened Board
  import opened Queue
  import opened Moves
  import opened Capture
  import opened Search
  import opened SearchFacts

  /** The opening used below, player 1 to move: player 1 has one piece on
      (2, 2), a captured mirza, a kotla elsewhere and three Ryott in its
      queue; player 2 has one piece on (1, 2), its mirza on (4, 4) and its
      kotla off (2, 2). Scores and player 2's queue are arbitrary. */
  predicate IsOpening(s: State)
  {
    && s.p1Turn
    && s.p1.mirza == Captured && |s.p1.pieces| == 1 && s.p1.pieces[0] == Coord(2, 2) && s.p1.kotla != Coord(2, 2)
    && s.p2.mirza == At(Coord(4, 4)) && |s.p2.pieces| == 1 && s.p2.pieces[0] == Coord(1, 2) && s.p2.kotla != Coord(2, 2)
    && |s.queue1| >= 3 && s.queue1[0] == s.queue1[1] == s.queue1[2] == Ryott && |s.queue2| >= 3
  }

  /** Where the opening's four offsets take the piece on (2, 2). */
  function OpeningTargets(): seq<Coord>
  {
    [Coord(1, 2), Coord(3, 2), Coord(2, 1), Coord(2, 3)]
  }

  /** The four moves of the opening's piece with queue slot `slot`. */
  function SlotBlock(slot: nat): (b: seq<Candidate>)
    ensures |b| == 4
    ensures forall k :: 0 <= k < 4 ==> b[k] == Candidate(slot, 0, k, Coord(2, 2), OpeningTargets()[k])
  {
    [Candidate(slot, 0, 0, Coord(2, 2), Coord(1, 2)), Candidate(slot, 0, 1, Coord(2, 2), Coord(3, 2)),
     Candidate(slot, 0, 2, Coord(2, 2), Coord(2, 1)), Candidate(slot, 0, 3, Coord(2, 2), Coord(2, 3))]
  }

  /** One slot of the opening: the Ryott on (2, 2) has all four of its
      moves, none blocked, whatever the kotla. */
  lemma OpeningSlotMoves(m: Player, slot: nat)
    requires m.mirza == Captured && m.pieces == [Coord(2, 2)]
    ensures PieceCandidates(m, Offsets(Ryott), slot, true, 0) == SlotBlock(slot)
  {
    assert PieceCandidates(m, Offsets(Ryott), slot, true, 1) == [];
    assert OffsetCandidates(m, Offsets(Ryott), slot, 0, true, 4) == [];
    assert OffsetCandidates(m, Offsets(Ryott), slot, 0, true, 3) == [Candidate(slot, 0, 3, Coord(2, 2), Coord(2, 3))];
    assert OffsetCandidates(m, Offsets(Ryott), slot, 0, true, 2) == [Candidate(slot, 0, 2, Coord(2, 2), Coord(2, 1))]
           + OffsetCandidates(m, Offsets(Ryott), slot, 0, true, 3);
    assert OffsetCandidates(m, Offsets(Ryott), slot, 0, true, 1) == [Candidate(slot, 0, 1, Coord(2, 2), Coord(3, 2))]
           + OffsetCandidates(m, Offsets(Ryott), slot, 0, true, 2);
    assert OffsetCandidates(m, Offsets(Ryott), slot, 0, true, 0) == [Candidate(slot, 0, 0, Coord(2, 2), Coord(1, 2))]
           + OffsetCandidates(m, Offsets(Ryott), slot, 0, true, 1);
  }

  /** Candidate `4 * slot + k` of the three blocks in a row is the move with
      that slot and offset. */
  lemma BlocksIndex(slot: nat, k: nat)
    requires slot < 3 && k < 4
    ensures var cs := SlotBlock(0) + (SlotBlock(1) + SlotBlock(2));
      |cs| == 12 && cs[4 * slot + k] == Candidate(slot, 0, k, Coord(2, 2), OpeningTargets()[k])
  {
    var cs := SlotBlock(0) + (SlotBlock(1) + SlotBlock(2));
    if slot == 0 {
      assert cs[4 * slot + k] == SlotBlock(0)[k];
    } else if slot == 1 {
      assert cs[4 * slot + k] == SlotBlock(1)[k];
    } else {
      assert cs[4 * slot + k] == SlotBlock(2)[k];
    }
  }

  /** The moves of the opening, in search order: each slot moves the piece
      to (1, 2), (3, 2), (2, 1) and (2, 3), player 1 subtracting the offsets. */
  lemma OpeningMoves(s: State)
    requires IsOpening(s)
    ensures WellFormed(s)
    ensures MovesOf(s) == SlotBlock(0) + (SlotBlock(1) + SlotBlock(2))
  {
    var m := s.p1;
    OpeningSlotMoves(m, 0);
    OpeningSlotMoves(m, 1);
    OpeningSlotMoves(m, 2);
    assert SlotCandidates(m, s.queue1, true, 3) == [];
  }

  /** The differential after the opening's move with `slot` and offset `k`:
      player 1 pays the slot and gains one point for the capture on (1, 2),
      player 2 is untouched, and neither kotla bonus applies. */
  lemma OpeningChildScores(s: State, c: Candidate, k: nat)
    requires IsOpening(s) && k < 4
    requires c.slot < 3 && c.index == 0 && c.to == OpeningTargets()[k]
    ensures WellFormed(s)
    ensures Child(s, c).score1 == s.score1 - QueueSpotCosts[c.slot] + (if k == 0 then 1 else 0)
    ensures Child(s, c).score2 == s.score2
    ensures Child(s, c).score1 - Child(s, c).score2 == OpeningGain(s, c.slot, k)
  {
    ChildScores(s, c);
    var m := Mover(s);
    var d := Defender(s);
    assert m.kotla !in m.pieces && d.kotla !in m.pieces;
    assert d.mirza != At(c.to);
    assert multiset(d.pieces)[c.to] == (if k == 0 then 1 else 0) by {
      assert multiset(d.pieces) == multiset{Coord(1, 2)};
    }
  }

  /** The differential after the opening's move with `slot` and offset `k`. */
  function OpeningGain(s: State, slot: nat, k: nat): int
    requires slot < 3
  {
    s.score1 - s.score2 - QueueSpotCosts[slot] + (if k == 0 then 1 else 0)
  }

  /** The opening's successors one ply down: slot cost 1, 4 or 7, and one
      point back for the capture on (1, 2). */
  lemma OpeningLeaf(s: State, i: nat, slot: nat, k: nat)
    requires IsOpening(s) && slot < 3 && k < 4 && i == 4 * slot + k
    ensures WellFormed(s) && i < |MovesOf(s)|
    ensures ChildValues(s, 0)[i] == Fin(OpeningGain(s, slot, k))
  {
    var c := Candidate(slot, 0, k, Coord(2, 2), OpeningTargets()[k]);
    assert WellFormed(s) && i < |MovesOf(s)| && MovesOf(s)[i] == c by {
      OpeningMoves(s);
      BlocksIndex(slot, k);
    }
    ChildValueLeaf(s, i);
    OpeningChildScores(s, c, k);
  }

  /** No successor of the opening beats the differential it starts from,
      and only the first one reaches it. */
  lemma OpeningLeafBound(s: State, i: nat)
    requires IsOpening(s) && i < 12
    ensures WellFormed(s) && i < |MovesOf(s)|
    ensures ChildValues(s, 0)[i].Fin?
    ensures ChildValues(s, 0)[i].n <= s.score1 - s.score2
    ensures 0 < i ==> ChildValues(s, 0)[i].n < s.score1 - s.score2
  {
    if i < 4 {
      OpeningLeaf(s, i, 0, i);
    } else if i < 8 {
      OpeningLeaf(s, i, 1, i - 4);
    } else {
      OpeningLeaf(s, i, 2, i - 8);
    }
  }

  /** The worked example: searched one ply deep, player 1 takes the enemy
      piece with slot 0 -- one point for the capture, one for the slot --
      keeping the differential, and reports (0, (2, 2), (1, 2)). */
  lemma OpeningCapture(s: State)
    requires IsOpening(s)
    ensures WellFormed(s)
    ensures Minimax(s, 1) == Outcome(Fin(s.score1 - s.score2), Some(Choice(0, Coord(2, 2), Coord(1, 2))))
  {
    var best := s.score1 - s.score2;
    assert WellFormed(s) && |MovesOf(s)| == 12 && MovesOf(s)[0] == Candidate(0, 0, 0, Coord(2, 2), Coord(1, 2)) by {
      OpeningMoves(s);
      BlocksIndex(0, 0);
    }
    var vs := ChildValues(s, 0);
    forall i | 0 <= i < |vs|
      ensures !Improves(vs[i], Fin(best), true)
    {
      OpeningLeafBound(s, i);
    }
    OpeningLeafBound(s, 0);
    OnePlyChoice(s, 0, best);
  }

  /** The capture quirk: the only enemy piece is at index 0, so after the
      capture the defender's list still holds it, on the square the mover's
      piece now occupies, although the capture was scored. */
  lemma CaptureAtIndexZeroKept(s: State)
    requires IsOpening(s)
    ensures WellFormed(s)
    ensures var t := Child(s, Candidate(0, 0, 0, Coord(2, 2), Coord(1, 2)));
      && t.p2.pieces == [Coord(1, 2)]
      && t.p1.pieces == [Coord(1, 2)]
      && t.score1 == s.score1
  {
    var c := Candidate(0, 0, 0, Coord(2, 2), Coord(1, 2));
    ChildDefender(s, c);
    OpeningChildScores(s, c, 0);
  }

  /** Every coinciding defender piece scores, and only the last one is
      removed: two enemy pieces on (1, 2) give two points and one of them
      stays. */
  lemma DoubleCapture()
    ensures var h := ScanCaptures([Coord(1, 2), Coord(3, 3), Coord(1, 2)], Coord(1, 2));
      && h == Hits(2, Some(2))
      && RemoveTaken([Coord(1, 2), Coord(3, 3), Coord(1, 2)], h.taken) == [Coord(1, 2), Coord(3, 3)]
  {
    var ps := [Coord(1, 2), Coord(3, 3), Coord(1, 2)];
    ScanCount(ps, Coord(1, 2));
    assert multiset(ps) == multiset{Coord(1, 2), Coord(1, 2), Coord(3, 3)};
    assert ps[..2] + ps[3..] == [Coord(1, 2), Coord(3, 3)];
  }

  /** A side whose kotla and mirza were both never marked keeps both at the
      default (-1, -1); the kotla test then sees the mirza "on" the kotla and
      the mover collects the 5-point kotla bonus with every move. */
  lemma UnmarkedKotlaBonus(s: State, c: Candidate)
    requires WellFormed(s) && c.slot < 3 && c.index < |Mover(s).pieces|
    requires Mover(s).kotla == Unset && Mover(s).mirza == At(Unset)
    ensures var d := Defender(s);
      DefenderScore(Child(s, c)) == MoverScore(s) - QueueSpotCosts[c.slot]
        + multiset(d.pieces)[c.to]
        + (if d.mirza == At(c.to) then 5 else 0)
        + 5
        + (if d.kotla in Mover(s).pieces || d.kotla == Unset then 1 else 0)
  {
    ChildScores(s, c);
  }
}
