/** Properties of the minimax search: the terminal case, the extreme value
    and its tie-break, successor construction and scoring. */
module SearchFacts {
  import opened Common
  import opened Board
  import opened Queue
  import opened Moves
  import opened Capture
  import opened Search

  /** `Less` is a strict total order. */
  lemma LessOrder(a: ExtInt, b: ExtInt, c: ExtInt)
    ensures !Less(a, a)
    ensures Less(a, b) ==> !Less(b, a)
    ensures Less(a, b) && Less(b, c) ==> Less(a, c)
    ensures a != b ==> Less(a, b) || Less(b, a)
  {
  }

  /** No value of `vs` is strictly better than `v`. */
  predicate Extreme(v: ExtInt, vs: seq<ExtInt>, maximizing: bool)
  {
    forall j :: 0 <= j < |vs| ==> !Improves(vs[j], v, maximizing)
  }

  /** The selection fold returns the extreme of the values, and the index it
      reports is the FIRST one holding that extreme; it reports no index
      exactly when the extreme is still the starting infinity (no values, or
      all values equal to that infinity). */
  lemma {:induction false} PickFirstExtreme(vs: seq<ExtInt>, maximizing: bool)
    ensures var p := PickExtreme(vs, maximizing);
      && Extreme(p.value, vs, maximizing)
      && (|vs| > 0 ==> p.value in vs)
      && (|vs| == 0 ==> p == Pick(Worst(maximizing), None))
      && (p.at.None? <==> p.value == Worst(maximizing))
      && (p.at.Some? ==>
            && vs[p.at.value] == p.value
            && forall j :: 0 <= j < p.at.value ==> vs[j] != p.value)
    decreases |vs|
  {
    if |vs| > 0 {
      var n := |vs| - 1;
      var prev := PickExtreme(vs[..n], maximizing);
      PickFirstExtreme(vs[..n], maximizing);
      var p := PickExtreme(vs, maximizing);
      forall j | 0 <= j < |vs|
        ensures !Improves(vs[j], p.value, maximizing)
      {
        if j < n {
          assert vs[j] == vs[..n][j];
          LessOrder(vs[j], prev.value, vs[n]);
          LessOrder(prev.value, vs[j], vs[n]);
          LessOrder(vs[n], prev.value, vs[j]);
          LessOrder(prev.value, vs[n], vs[j]);
        } else {
          LessOrder(vs[n], prev.value, vs[n]);
        }
      }
      if p.at.Some? && p.at.value < n {
        forall j | 0 <= j < p.at.value
          ensures vs[j] != p.value
        {
          assert vs[j] == vs[..n][j];
        }
      }
      if n > 0 && !Improves(vs[n], prev.value, maximizing) {
        assert prev.value in vs[..n];
      }
    }
  }

  /** At depth 0 the search reports the static differential and no move,
      whatever the board and queues hold. */
  lemma MinimaxTerminal(s: State)
    ensures Minimax(s, 0) == Outcome(Fin(s.score1 - s.score2), None)
  {
  }

  /** The i-th child value is the search of the i-th successor. */
  lemma ChildValueAt(s: State, d: nat, i: nat)
    requires WellFormed(s) && i < |MovesOf(s)|
    ensures MovesOf(s)[i].slot < 3 && MovesOf(s)[i].index < |Mover(s).pieces|
    ensures ChildValues(s, d)[i] == Minimax(Child(s, MovesOf(s)[i]), d).value
  {
    MoveInRange(s, i);
  }

  /** One ply above the leaves, each child value is that successor's score
      differential. */
  lemma ChildValueLeaf(s: State, i: nat)
    requires WellFormed(s) && i < |MovesOf(s)|
    ensures MovesOf(s)[i].slot < 3 && MovesOf(s)[i].index < |Mover(s).pieces|
    ensures var t := Child(s, MovesOf(s)[i]);
      ChildValues(s, 0)[i] == Fin(t.score1 - t.score2)
  {
    ChildValueAt(s, 0, i);
    MinimaxTerminal(Child(s, MovesOf(s)[i]));
  }

  /** Above depth 0 the search is the selection fold over the child values. */
  lemma MinimaxUnfold(s: State, depth: nat)
    requires WellFormed(s) && depth > 0
    ensures var p := PickExtreme(ChildValues(s, depth - 1), s.p1Turn);
      Minimax(s, depth) == Outcome(p.value, if p.at.Some? then Some(ChoiceOf(MovesOf(s)[p.at.value])) else None)
  {
  }

  /** Above depth 0 the value is the maximum (player 1 to move) or minimum
      (player 2 to move) of the children's values and is attained by one of
      them; with no candidate it is the starting infinity and no move is
      reported, and no move is reported exactly when the value is that
      infinity. */
  lemma MinimaxExtreme(s: State, depth: nat)
    requires WellFormed(s) && depth > 0
    ensures var vs := ChildValues(s, depth - 1);
      var r := Minimax(s, depth);
      && (forall i :: 0 <= i < |vs| ==>
            if s.p1Turn then !Less(r.value, vs[i]) else !Less(vs[i], r.value))
      && (|vs| > 0 ==> r.value in vs)
      && (|vs| == 0 ==> r == Outcome(if s.p1Turn then NegInf else PosInf, None))
      && (r.best.None? <==> r.value == (if s.p1Turn then NegInf else PosInf))
  {
    var vs := ChildValues(s, depth - 1);
    var p := PickExtreme(vs, s.p1Turn);
    PickFirstExtreme(vs, s.p1Turn);
    MinimaxUnfold(s, depth);
    var r := Minimax(s, depth);
    assert r.value == p.value;
    assert r.best.None? <==> p.at.None?;
    assert Extreme(p.value, vs, s.p1Turn);
  }

  /** The reported move is `(slot, from, to)` of the first candidate, in
      search order (slot, then piece, then offset), whose child value (see
      `ChildValueAt`) reaches the result: later ties never replace it. */
  lemma MinimaxFirstBest(s: State, depth: nat)
    requires WellFormed(s) && depth > 0
    ensures var r := Minimax(s, depth);
      r.best.Some? ==> exists i :: 0 <= i < |MovesOf(s)| && FirstReaching(s, depth, i, r)
  {
    var vs := ChildValues(s, depth - 1);
    var p := PickExtreme(vs, s.p1Turn);
    PickFirstExtreme(vs, s.p1Turn);
    MinimaxUnfold(s, depth);
    var r := Minimax(s, depth);
    if r.best.Some? {
      assert FirstReaching(s, depth, p.at.value, r);
    }
  }

  /** Child `i` reaches the result's value, its move is the reported one,
      and no earlier child reaches that value. */
  predicate FirstReaching(s: State, depth: nat, i: nat, r: Outcome)
    requires WellFormed(s) && depth > 0
  {
    var cs := MovesOf(s);
    var vs := ChildValues(s, depth - 1);
    && i < |cs|
    && vs[i] == r.value
    && r.best == Some(Choice(cs[i].slot, cs[i].from, cs[i].to))
    && forall j :: 0 <= j < i ==> vs[j] != r.value
  }

  /** One ply deep, the search returns the best child value and the first
      candidate reaching it: if no child value beats `best` for the side to
      move, child `i0` has it, and no earlier child does, the result is
      `best` with candidate `i0`'s move. With `ChildValueLeaf` the child
      values are the successors' differentials. */
  lemma OnePlyChoice(s: State, i0: nat, best: int)
    requires WellFormed(s) && i0 < |MovesOf(s)|
    requires forall i :: 0 <= i < |MovesOf(s)| ==> !Improves(ChildValues(s, 0)[i], Fin(best), s.p1Turn)
    requires ChildValues(s, 0)[i0] == Fin(best)
    requires forall i :: 0 <= i < i0 ==> ChildValues(s, 0)[i] != Fin(best)
    ensures Minimax(s, 1) == Outcome(Fin(best), Some(ChoiceOf(MovesOf(s)[i0])))
  {
    FirstExtremeAt(ChildValues(s, 0), s.p1Turn, i0, Fin(best));
    MinimaxUnfold(s, 1);
  }

  /** If no value beats `v`, `v` sits at `i0`, and no earlier index holds
      it, the selection fold picks `v` at `i0` -- also when `v` is the
      opposite infinity, the value of a child whose side has no move. Only
      the starting infinity itself is never picked. */
  lemma FirstExtremeAt(vs: seq<ExtInt>, maximizing: bool, i0: nat, v: ExtInt)
    requires i0 < |vs| && vs[i0] == v && v != Worst(maximizing)
    requires forall i :: 0 <= i < |vs| ==> !Improves(vs[i], v, maximizing)
    requires forall i :: 0 <= i < i0 ==> vs[i] != v
    ensures PickExtreme(vs, maximizing) == Pick(v, Some(i0))
  {
    var p := PickExtreme(vs, maximizing);
    PickFirstExtreme(vs, maximizing);
    LessOrder(p.value, v, p.value);
  }

  // ---------------------------------------------------------------------
  // Successor construction

  /** In the successor the turn passes; the former mover (now the defender)
      has only its piece at `c.index` changed, to the destination, and keeps
      its kotla and mirza. */
  lemma ChildMover(s: State, c: Candidate)
    requires WellFormed(s) && c.slot < 3 && c.index < |Mover(s).pieces|
    ensures var t := Child(s, c);
      var m := Mover(s);
      var m' := Defender(t);
      && t.p1Turn == !s.p1Turn
      && m'.kotla == m.kotla
      && m'.mirza == m.mirza
      && |m'.pieces| == |m.pieces|
      && m'.pieces[c.index] == c.to
      && forall j :: 0 <= j < |m.pieces| && j != c.index ==> m'.pieces[j] == m.pieces[j]
  {
  }

  /** The former defender (now to move) keeps its kotla; its mirza becomes
      captured exactly when the destination was its square; its piece list
      loses its last copy of the destination, the rest in order, only when
      the destination occurs at a non-zero index, and is otherwise passed
      down unchanged, even when its piece at index 0 was the one hit. */
  lemma ChildDefender(s: State, c: Candidate)
    requires WellFormed(s) && c.slot < 3 && c.index < |Mover(s).pieces|
    ensures var t := Child(s, c);
      var d := Defender(s);
      var d' := Mover(t);
      && d'.kotla == d.kotla
      && d'.mirza == (if d.mirza == At(c.to) then Captured else d.mirza)
      && (!HitBeyondFirst(d.pieces, c.to) ==> d'.pieces == d.pieces)
      && (HitBeyondFirst(d.pieces, c.to) ==>
            && PopsLast(d.pieces, c.to, d'.pieces)
            && |d'.pieces| == |d.pieces| - 1
            && multiset(d'.pieces) == multiset(d.pieces) - multiset{c.to})
  {
    var d := Defender(s);
    CaptureRemoval(d.pieces, c.to);
    assert Mover(Child(s, c)).pieces == RemoveTaken(d.pieces, ScanCaptures(d.pieces, c.to).taken);
  }

  /** The mover's new score is its old score minus the slot cost, plus one
      per defender piece on the destination, plus 5 if the defender's mirza
      stood there, plus 5 if the mover's kotla is held by its pre-move pieces
      or mirza, plus 1 if the defender's kotla is; the defender's score is
      passed down unchanged. */
  lemma ChildScores(s: State, c: Candidate)
    requires WellFormed(s) && c.slot < 3 && c.index < |Mover(s).pieces|
    ensures var t := Child(s, c);
      var m := Mover(s);
      var d := Defender(s);
      && MoverScore(t) == DefenderScore(s)
      && DefenderScore(t) == MoverScore(s) - QueueSpotCosts[c.slot]
           + multiset(d.pieces)[c.to]
           + (if d.mirza == At(c.to) then 5 else 0)
           + (if m.kotla in m.pieces || m.mirza == At(m.kotla) then 5 else 0)
           + (if d.kotla in m.pieces || m.mirza == At(d.kotla) then 1 else 0)
  {
    ScanCount(Defender(s).pieces, c.to);
  }

  /** The mover's queue is rotated on the used slot and the defender's queue
      is passed down unchanged. */
  lemma ChildQueues(s: State, c: Candidate)
    requires WellFormed(s) && c.slot < 3 && c.index < |Mover(s).pieces|
    ensures var t := Child(s, c);
      && MoverQueue(t) == DefenderQueue(s)
      && |DefenderQueue(t)| == |MoverQueue(s)|
      && DefenderQueue(t)[|MoverQueue(s)| - 1] == MoverQueue(s)[c.slot]
      && DefenderQueue(t)[..|MoverQueue(s)| - 1] == MoverQueue(s)[..c.slot] + MoverQueue(s)[c.slot + 1..]
  {
    var q := MoverQueue(s);
    var r := DefenderQueue(Child(s, c));
    RotateShift(q, c.slot);
    assert r[..|q| - 1] == q[..c.slot] + q[c.slot + 1..];
  }

  /** Both kotla bonuses look at the mover's pieces BEFORE the move: two
      moves with the same slot that capture nothing score the same, wherever
      the piece lands, so landing on the mover's own kotla earns nothing
      extra on that move. */
  lemma KotlaBonusIgnoresDestination(s: State, c1: Candidate, c2: Candidate)
    requires WellFormed(s) && c1.slot == c2.slot < 3
    requires c1.index < |Mover(s).pieces| && c2.index < |Mover(s).pieces|
    requires c1.to !in Defender(s).pieces && Defender(s).mirza != At(c1.to)
    requires c2.to !in Defender(s).pieces && Defender(s).mirza != At(c2.to)
    ensures DefenderScore(Child(s, c1)) == DefenderScore(Child(s, c2))
  {
    ChildScores(s, c1);
    ChildScores(s, c2);
  }
}
