/** Capture resolution: which defender pieces the destination hits, and how
    the defender's piece list is cut afterwards. */
module Capture {
  import opened Common
  import opened Board

  /** What the capture loop leaves behind: how many defender pieces stand on
      the destination, and the index of the last of them (if any). */
  datatype Hits = Hits(count: nat, taken: Option<nat>)

  /** The capture loop, a left fold over the defender's pieces: every piece on
      `to` adds one, and `taken` is overwritten with its index, so the last
      matching index survives. */
  function ScanCaptures(pieces: seq<Coord>, to: Coord): (h: Hits)
    ensures h.taken.None? <==> to !in pieces
    ensures h.taken.Some? ==>
      && h.taken.value < |pieces|
      && pieces[h.taken.value] == to
      && forall j :: h.taken.value < j < |pieces| ==> pieces[j] != to
    decreases |pieces|
  {
    if |pieces| == 0 then Hits(0, None)
    else
      var n := |pieces| - 1;
      assert pieces == pieces[..n] + [pieces[n]];
      var prev := ScanCaptures(pieces[..n], to);
      if pieces[n] == to then Hits(prev.count + 1, Some(n)) else prev
  }

  /** The loop's count is the number of defender pieces on `to`. */
  lemma {:induction false} ScanCount(pieces: seq<Coord>, to: Coord)
    ensures ScanCaptures(pieces, to).count == multiset(pieces)[to]
    decreases |pieces|
  {
    if |pieces| > 0 {
      var n := |pieces| - 1;
      assert pieces == pieces[..n] + [pieces[n]];
      ScanCount(pieces[..n], to);
    }
  }

  /** Truth value of the remembered index in the source's `if taken_index:`:
      both "no capture" and "captured at index 0" read as false. */
  predicate Truthy(taken: Option<nat>)
  {
    taken.Some? && taken.value != 0
  }

  /** The defender's pieces after the move: the remembered index is popped
      only when it is truthy, so a capture at index 0 removes nothing. */
  function RemoveTaken(pieces: seq<Coord>, taken: Option<nat>): (r: seq<Coord>)
    requires taken.Some? ==> taken.value < |pieces|
    ensures Truthy(taken) ==> |r| == |pieces| - 1
    ensures !Truthy(taken) ==> r == pieces
  {
    if Truthy(taken) then
      var i := taken.value;
      assert pieces == pieces[..i] + [pieces[i]] + pieces[i + 1..];
      pieces[..i] + pieces[i + 1..]
    else pieces
  }

  /** A truthy pop keeps the pieces before the index, moves the ones after
      it up by one, and removes exactly one copy of the popped piece. */
  lemma RemoveTakenShift(pieces: seq<Coord>, taken: Option<nat>)
    requires taken.Some? ==> taken.value < |pieces|
    ensures var r := RemoveTaken(pieces, taken);
      Truthy(taken) ==>
        && (forall j :: 0 <= j < taken.value ==> r[j] == pieces[j])
        && (forall j :: taken.value <= j < |r| ==> r[j] == pieces[j + 1])
        && multiset(r) == multiset(pieces) - multiset{pieces[taken.value]}
  {
    if Truthy(taken) {
      var i := taken.value;
      assert pieces == pieces[..i] + [pieces[i]] + pieces[i + 1..];
    }
  }

  /** Some defender piece other than the first stands on `to`. */
  predicate HitBeyondFirst(pieces: seq<Coord>, to: Coord)
  {
    exists j :: 1 <= j < |pieces| && pieces[j] == to
  }

  /** `r` is `pieces` with the LAST occurrence of `to` cut out, the order of
      the remaining pieces kept; that occurrence is not at index 0. */
  predicate PopsLast(pieces: seq<Coord>, to: Coord, r: seq<Coord>)
  {
    exists k :: 0 < k < |pieces| && pieces[k] == to
      && (forall j :: k < j < |pieces| ==> pieces[j] != to)
      && r == pieces[..k] + pieces[k + 1..]
  }

  /** The capture loop followed by the conditional pop: when `to` occurs at a
      non-zero index the list loses its last occurrence of `to` and keeps the
      order of the rest; otherwise it is left as it was -- in particular when
      the only piece hit is the one at index 0. */
  lemma {:induction false} CaptureRemoval(pieces: seq<Coord>, to: Coord)
    ensures var r := RemoveTaken(pieces, ScanCaptures(pieces, to).taken);
      && (!HitBeyondFirst(pieces, to) ==> r == pieces)
      && (HitBeyondFirst(pieces, to) ==>
            && PopsLast(pieces, to, r)
            && |r| == |pieces| - 1
            && multiset(r) == multiset(pieces) - multiset{to})
  {
    var h := ScanCaptures(pieces, to);
    if HitBeyondFirst(pieces, to) {
      var j :| 1 <= j < |pieces| && pieces[j] == to;
      assert Truthy(h.taken);
      RemoveTakenShift(pieces, h.taken);
      var k := h.taken.value;
      assert RemoveTaken(pieces, h.taken) == pieces[..k] + pieces[k + 1..];
      assert PopsLast(pieces, to, RemoveTaken(pieces, h.taken));
    } else if h.taken.Some? {
      assert h.taken.value == 0;
    }
  }
}
