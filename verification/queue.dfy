/** The move queue: a rotating buffer of piece kinds. Using a slot takes its
    kind out and puts it at the back. */
module Queue {
  import opened Board

  /** Slot `i`'s kind is removed and appended at the back. */
  function Rotate(q: seq<PieceKind>, i: nat): (r: seq<PieceKind>)
    requires i < |q|
    ensures |r| == |q|
    ensures r[|r| - 1] == q[i]
  {
    assert q == q[..i] + [q[i]] + q[i + 1..];
    q[..i] + q[i + 1..] + [q[i]]
  }

  /** The slots before `i` stay put, the ones after it move up by one, and
      nothing is gained or lost. */
  lemma RotateShift(q: seq<PieceKind>, i: nat)
    requires i < |q|
    ensures var r := Rotate(q, i);
      && (forall j :: 0 <= j < i ==> r[j] == q[j])
      && (forall j :: i <= j < |q| - 1 ==> r[j] == q[j + 1])
      && multiset(r) == multiset(q)
  {
    assert q == q[..i] + [q[i]] + q[i + 1..];
  }

  /** The cost of a slot is one of the three fixed tiers, rising with the slot. */
  function Cost(slot: nat): (c: int)
    requires slot < 3
    ensures c == 1 || c == 4 || c == 7
    ensures c == 1 + 3 * slot
  {
    QueueSpotCosts[slot]
  }

  /** On a three-slot queue the rotation is, slot by slot, the source's
      `pop(i)` followed by `append`. */
  lemma RotateThree(q: seq<PieceKind>, i: nat)
    requires |q| == 3 && i < 3
    ensures i == 0 ==> Rotate(q, i) == [q[1], q[2], q[0]]
    ensures i == 1 ==> Rotate(q, i) == [q[0], q[2], q[1]]
    ensures i == 2 ==> Rotate(q, i) == q
  {
  }
}
