/** The minimax search: successor construction, scoring, the first-strict-
    extreme selection over the children, and the depth-bounded recursion.
    Player 1 always maximises the differential `score1 - score2`. */
module Search {
  import opened Common
  import opened Board
  import opened Queue
  import opened Moves
  import opened Capture

  /** Scores extended with the two infinities the search starts from. */
  datatype ExtInt = NegInf | Fin(n: int) | PosInf

  /** Strict order on extended scores. */
  predicate Less(a: ExtInt, b: ExtInt)
  {
    match a
    case NegInf => !b.NegInf?
    case Fin(x) => (b.Fin? && x < b.n) || b.PosInf?
    case PosInf => false
  }

  /** The move reported to the caller: slot, square moved from, square moved to. */
  datatype Choice = Choice(slot: nat, from: Coord, to: Coord)

  /** What the search returns: the value and the move reaching it, if any. */
  datatype Outcome = Outcome(value: ExtInt, best: Option<Choice>)

  /** Everything one search call receives. */
  datatype State = State(
    p1: Player, p2: Player,
    score1: int, score2: int,
    queue1: seq<PieceKind>, queue2: seq<PieceKind>,
    p1Turn: bool)

  /** Both queues have the three slots the search indexes. */
  predicate WellFormed(s: State)
  {
    |s.queue1| >= 3 && |s.queue2| >= 3
  }

  function Mover(s: State): Player { if s.p1Turn then s.p1 else s.p2 }
  function Defender(s: State): Player { if s.p1Turn then s.p2 else s.p1 }
  function MoverQueue(s: State): seq<PieceKind> { if s.p1Turn then s.queue1 else s.queue2 }
  function DefenderQueue(s: State): seq<PieceKind> { if s.p1Turn then s.queue2 else s.queue1 }
  function MoverScore(s: State): int { if s.p1Turn then s.score1 else s.score2 }
  function DefenderScore(s: State): int { if s.p1Turn then s.score2 else s.score1 }

  /** The value the search starts from before any child is seen. */
  function Worst(maximizing: bool): ExtInt
  {
    if maximizing then NegInf else PosInf
  }

  /** The legal moves of the side to move in `s`. */
  function MovesOf(s: State): seq<Candidate>
    requires WellFormed(s)
  {
    Candidates(Mover(s), MoverQueue(s), s.p1Turn)
  }

  /** The mover's score after moving to `to` with `slot`: the slot cost is
      paid, each defender piece on `to` and the defender's mirza there are
      credited, and the two kotla bonuses are judged on the mover's position
      BEFORE the move. */
  function NewScore(score: int, slot: nat, mover: Player, defender: Player, to: Coord): int
    requires slot < 3
  {
    var hits := ScanCaptures(defender.pieces, to).count;
    score - Cost(slot)
    + hits
    + (if MirzaOn(defender.mirza, to) then 5 else 0)
    + (if Occupies(mover, mover.kotla) then 5 else 0)
    + (if Occupies(mover, defender.kotla) then 1 else 0)
  }

  /** The state the search recurses into after candidate `c`. */
  function Child(s: State, c: Candidate): (t: State)
    requires WellFormed(s)
    requires c.slot < 3 && c.index < |Mover(s).pieces|
    ensures WellFormed(t)
  {
    var mover := Mover(s);
    var defender := Defender(s);
    var taken := ScanCaptures(defender.pieces, c.to).taken;
    var score := NewScore(MoverScore(s), c.slot, mover, defender, c.to);
    var defender' := Player(defender.kotla,
                            if MirzaOn(defender.mirza, c.to) then Captured else defender.mirza,
                            RemoveTaken(defender.pieces, taken));
    var mover' := Player(mover.kotla, mover.mirza, mover.pieces[c.index := c.to]);
    var queue' := Rotate(MoverQueue(s), c.slot);
    if s.p1Turn then State(mover', defender', score, s.score2, queue', s.queue2, false)
    else State(defender', mover', s.score1, score, s.queue1, queue', true)
  }

  /** Running extreme and the index that produced it. */
  datatype Pick = Pick(value: ExtInt, at: Option<nat>)

  /** True when `v` replaces the running extreme `best` (strict comparison). */
  predicate Improves(v: ExtInt, best: ExtInt, maximizing: bool)
  {
    if maximizing then Less(best, v) else Less(v, best)
  }

  /** The selection loop over the children's values, as a left fold: start
      from the worst value and take a value only when it is strictly better. */
  function PickExtreme(vs: seq<ExtInt>, maximizing: bool): (p: Pick)
    ensures p.at.Some? ==> p.at.value < |vs|
    decreases |vs|
  {
    if |vs| == 0 then Pick(Worst(maximizing), None)
    else
      var n := |vs| - 1;
      var prev := PickExtreme(vs[..n], maximizing);
      if Improves(vs[n], prev.value, maximizing) then Pick(vs[n], Some(n)) else prev
  }

  /** The search. At depth 0 the static differential is returned with no
      move, before either queue is looked at; otherwise the children are
      scored at depth - 1 and the first strictly best one is chosen. */
  function Minimax(s: State, depth: nat): Outcome
    requires depth > 0 ==> WellFormed(s)
    decreases depth, 1
  {
    if depth == 0 then Outcome(Fin(s.score1 - s.score2), None)
    else
      var cs := MovesOf(s);
      var p := PickExtreme(ChildValues(s, depth - 1), s.p1Turn);
      Outcome(p.value, if p.at.Some? then Some(ChoiceOf(cs[p.at.value])) else None)
  }

  /** The values of all children of `s`, searched to depth `d`, in move order. */
  function ChildValues(s: State, d: nat): (vs: seq<ExtInt>)
    requires WellFormed(s)
    ensures |vs| == |MovesOf(s)|
    decreases d, 3
  {
    seq(|MovesOf(s)|, i requires 0 <= i < |MovesOf(s)| => ChildValue(s, d, i))
  }

  /** The value of child `i` of `s`, searched to depth `d`. */
  function ChildValue(s: State, d: nat, i: nat): ExtInt
    requires WellFormed(s) && i < |MovesOf(s)|
    decreases d, 2
  {
    MoveInRange(s, i);
    Minimax(Child(s, MovesOf(s)[i]), d).value
  }

  /** Every listed candidate names an existing slot and piece of the mover. */
  lemma MoveInRange(s: State, i: nat)
    requires WellFormed(s) && i < |MovesOf(s)|
    ensures MovesOf(s)[i].slot < 3 && MovesOf(s)[i].index < |Mover(s).pieces|
  {
    CandidatesSound(Mover(s), MoverQueue(s), s.p1Turn);
  }

  function ChoiceOf(c: Candidate): Choice
  {
    Choice(c.slot, c.from, c.to)
  }
}
