/** Equation numbers of nodal degrees of freedom.

    Every nodal unknown carries an integer id:
      id >= 0   the unknown is solved for in global equation id,
      id == -1  the unknown is fixed and has no equation,
      id <= -2  the unknown is prescribed; it still owns equation -id-2.
    The same map id -> -id-2 encodes a prescribed id and, applied again, decodes it. */
module EquationIds {

  predicate IsFree(id: int) { id >= 0 }
  predicate IsFixed(id: int) { id == -1 }
  predicate IsPrescribed(id: int) { id <= -2 }

  /** The marking map id -> -id-2: it is its own inverse, swaps free and
      prescribed ids and leaves the fixed id alone. */
  function Flip(id: int): (r: int)
    ensures IsFree(id) <==> IsPrescribed(r)
    ensures IsPrescribed(id) <==> IsFree(r)
    ensures IsFixed(id) <==> IsFixed(r)
  {
    -id - 2
  }

  /** The equation an id refers to, decoded as `id < -1 ? -id-2 : id`. */
  function Slot(id: int): (n: nat)
    requires !IsFixed(id)
    ensures IsFree(id) ==> n == id
    ensures IsPrescribed(id) ==> Flip(n) == id
  {
    if id < -1 then -id - 2 else id
  }

  /** Marking twice restores the id, and marking never changes the equation
      an id refers to. */
  lemma FlipInvolution(id: int)
    ensures Flip(Flip(id)) == id
    ensures !IsFixed(id) ==> Slot(Flip(id)) == Slot(id)
  {
  }

  /** The ids of one node, one per kind of unknown. `c` holds one id per
      solute species. */
  datatype NodeIds = NodeIds(x: int, y: int, z: int, p: int,
                             ru: int, rv: int, rw: int, c: seq<int>)

  /** All ids whose equation exists are below `neq`. */
  predicate SlotsBelow(ids: seq<int>, neq: nat)
  {
    forall k :: 0 <= k < |ids| && !IsFixed(ids[k]) ==> Slot(ids[k]) < neq
  }

  /** The number of ids in `ids` that are not fixed. */
  function CountEquations(ids: seq<int>): nat
  {
    if ids == [] then 0
    else CountEquations(ids[..|ids| - 1]) + (if IsFixed(ids[|ids| - 1]) then 0 else 1)
  }

  /** The number of free ids and the number of prescribed ids. */
  function CountFree(ids: seq<int>): nat
  {
    if ids == [] then 0
    else CountFree(ids[..|ids| - 1]) + (if IsFree(ids[|ids| - 1]) then 1 else 0)
  }

  function CountPrescribed(ids: seq<int>): nat
  {
    if ids == [] then 0
    else CountPrescribed(ids[..|ids| - 1]) + (if IsPrescribed(ids[|ids| - 1]) then 1 else 0)
  }

  /** A count of non-fixed ids includes the prescribed ones. */
  lemma {:induction false} CountSplits(ids: seq<int>)
    ensures CountEquations(ids) == CountFree(ids) + CountPrescribed(ids)
    ensures CountEquations(ids) <= |ids|
  {
    if ids != [] {
      CountSplits(ids[..|ids| - 1]);
    }
  }

  /** Flipping any selection of ids (as free-draining marking does) leaves
      the number of equations unchanged. */
  lemma {:induction false} FlipKeepsCount(ids: seq<int>, flipped: seq<int>)
    requires |flipped| == |ids|
    requires forall k :: 0 <= k < |ids| ==> flipped[k] == ids[k] || flipped[k] == Flip(ids[k])
    ensures CountEquations(flipped) == CountEquations(ids)
  {
    if ids != [] {
      var n := |ids| - 1;
      FlipKeepsCount(ids[..n], flipped[..n]);
    }
  }
}
