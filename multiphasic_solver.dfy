/** The equation bookkeeping and the quasi-Newton driver of the multiphasic
    (solid, fluid pressure, solutes) solver.

    The global increment ui has one entry per equation. The solver splits
    it into a displacement, a pressure and one concentration sub-vector per
    solute species by walking the mesh nodes in order and picking the entry
    of every id that is not fixed. Geometry, element integrals, the linear
    solve, the line search and the secant update are outside the model: what
    they return enters as an Observation per iteration. */
module MultiphasicSolver {
  import opened EquationIds
  import opened QuasiNewton

  /** The reaction force recovered at a node. */
  datatype Reaction = Reaction(x: real, y: real, z: real)

  /** The values the solver writes to a mesh node: its fluid pressure, its
      solute concentrations (one per species) and its reaction force. The
      node's ids are kept apart, in the mesh numbering, since the solver
      only reads them. */
  datatype Node = Node(pt: real, ct: seq<real>, fr: Reaction)

  /** The kinds of unknowns the increment is split into. */
  datatype Field = Displacement | Pressure | Concentration(sol: nat)

  /** The ids a node contributes to a field, in the order the solver reads
      them. */
  function NodeFieldIds(id: NodeIds, f: Field): seq<int>
  {
    match f
    case Displacement => [id.x, id.y, id.z]
    case Pressure => [id.p]
    case Concentration(j) => if j < |id.c| then [id.c[j]] else []
  }

  /** The ids of a field over the mesh, node by node. */
  function FieldIds(mesh: seq<NodeIds>, f: Field): seq<int>
  {
    if mesh == [] then []
    else FieldIds(mesh[..|mesh| - 1], f) + NodeFieldIds(mesh[|mesh| - 1], f)
  }

  /** The equation of an id, if it has one, is below neq. */
  predicate Below(id: int, neq: nat) { !IsFixed(id) ==> Slot(id) < neq }

  /** Every equation the ids of a node refer to exists. */
  predicate NodeIdsBelow(id: NodeIds, neq: nat)
  {
    && Below(id.x, neq) && Below(id.y, neq) && Below(id.z, neq) && Below(id.p, neq)
    && Below(id.ru, neq) && Below(id.rv, neq) && Below(id.rw, neq)
    && forall j :: 0 <= j < |id.c| ==> Below(id.c[j], neq)
  }

  predicate MeshIdsBelow(mesh: seq<NodeIds>, neq: nat)
  {
    forall i :: 0 <= i < |mesh| ==> NodeIdsBelow(mesh[i], neq)
  }

  lemma {:induction false} FieldIdsBelow(mesh: seq<NodeIds>, f: Field, neq: nat)
    requires MeshIdsBelow(mesh, neq)
    ensures SlotsBelow(FieldIds(mesh, f), neq)
  {
    if mesh != [] {
      var n := |mesh| - 1;
      assert MeshIdsBelow(mesh[..n], neq) by {
        assert forall i :: 0 <= i < n ==> mesh[..n][i] == mesh[i];
      }
      FieldIdsBelow(mesh[..n], f, neq);
      SlotsBelowAppend(FieldIds(mesh[..n], f), NodeFieldIds(mesh[n], f), neq);
    }
  }

  lemma SlotsBelowAppend(a: seq<int>, b: seq<int>, neq: nat)
    ensures SlotsBelow(a + b, neq) <==> SlotsBelow(a, neq) && SlotsBelow(b, neq)
  {
    if SlotsBelow(a, neq) && SlotsBelow(b, neq) {
      forall k | 0 <= k < |a + b| && !IsFixed((a + b)[k])
        ensures Slot((a + b)[k]) < neq
      {
        if k >= |a| { assert (a + b)[k] == b[k - |a|]; }
      }
    }
    if SlotsBelow(a + b, neq) {
      forall k | 0 <= k < |a| && !IsFixed(a[k])
        ensures Slot(a[k]) < neq
      {
        assert (a + b)[k] == a[k];
      }
      forall k | 0 <= k < |b| && !IsFixed(b[k])
        ensures Slot(b[k]) < neq
      {
        assert (a + b)[|a| + k] == b[k];
      }
    }
  }

  lemma SlotsBelowPrefix(ids: seq<int>, i: nat, neq: nat)
    requires SlotsBelow(ids, neq) && i <= |ids|
    ensures SlotsBelow(ids[..i], neq)
  {
    assert forall k :: 0 <= k < i ==> ids[..i][k] == ids[k];
  }

  /** One more id extends the sub-vector by at most one entry. */
  lemma GatherStep(ids: seq<int>, i: nat, ui: seq<real>)
    requires SlotsBelow(ids, |ui|) && i < |ids|
    ensures SlotsBelow(ids[..i], |ui|) && SlotsBelow(ids[..i + 1], |ui|)
    ensures Gather(ids[..i + 1], ui)
         == Gather(ids[..i], ui) + (if IsFixed(ids[i]) then [] else [ui[Slot(ids[i])]])
    ensures CountEquations(ids[..i + 1]) == CountEquations(ids[..i]) + (if IsFixed(ids[i]) then 0 else 1)
  {
    SlotsBelowPrefix(ids, i, |ui|);
    SlotsBelowPrefix(ids, i + 1, |ui|);
    assert ids[..i + 1][..i] == ids[..i];
  }

  lemma {:induction false} CountAppend(a: seq<int>, b: seq<int>)
    ensures CountEquations(a + b) == CountEquations(a) + CountEquations(b)
  {
    if b == [] {
      assert a + b == a;
    } else {
      var n := |b| - 1;
      assert (a + b)[..|a + b| - 1] == a + b[..n];
      CountAppend(a, b[..n]);
    }
  }

  /** The entries of ui at the equations of the ids that are not fixed, in
      id order. A prescribed id reads its decoded equation. */
  function Gather(ids: seq<int>, ui: seq<real>): (r: seq<real>)
    requires SlotsBelow(ids, |ui|)
    ensures |r| == CountEquations(ids)
  {
    if ids == [] then []
    else
      var n := |ids| - 1;
      assert SlotsBelow(ids[..n], |ui|) by { SlotsBelowAppend(ids[..n], [ids[n]], |ui|); assert ids == ids[..n] + [ids[n]]; }
      Gather(ids[..n], ui) + (if IsFixed(ids[n]) then [] else [ui[Slot(ids[n])]])
  }

  /** The k-th id, when it is not fixed, lands at the position given by the
      number of non-fixed ids before it. */
  lemma {:induction false} GatherPlacement(ids: seq<int>, ui: seq<real>, k: nat)
    requires SlotsBelow(ids, |ui|) && k < |ids| && !IsFixed(ids[k])
    ensures CountEquations(ids[..k]) < |Gather(ids, ui)|
    ensures Gather(ids, ui)[CountEquations(ids[..k])] == ui[Slot(ids[k])]
  {
    var n := |ids| - 1;
    assert ids == ids[..n] + [ids[n]];
    SlotsBelowAppend(ids[..n], [ids[n]], |ui|);
    if k < n {
      assert ids[..n][..k] == ids[..k];
      GatherPlacement(ids[..n], ui, k);
    } else {
      assert ids[..k] == ids[..n];
    }
  }

  lemma {:induction false} GatherAppend(a: seq<int>, b: seq<int>, ui: seq<real>)
    requires SlotsBelow(a, |ui|) && SlotsBelow(b, |ui|)
    ensures SlotsBelow(a + b, |ui|)
    ensures Gather(a + b, ui) == Gather(a, ui) + Gather(b, ui)
  {
    SlotsBelowAppend(a, b, |ui|);
    if b == [] {
      assert a + b == a;
    } else {
      var n := |b| - 1;
      assert b == b[..n] + [b[n]];
      SlotsBelowAppend(b[..n], [b[n]], |ui|);
      assert (a + b)[..|a + b| - 1] == a + b[..n];
      GatherAppend(a, b[..n], ui);
    }
  }

  /** Splitting is linear: the sub-vector of v + s*w is the sub-vector of v
      plus s times the sub-vector of w. */
  lemma {:induction false} GatherLinear(ids: seq<int>, v: seq<real>, s: real, w: seq<real>)
    requires |v| == |w| && SlotsBelow(ids, |v|)
    ensures Gather(ids, Axpy(v, s, w)) == Axpy(Gather(ids, v), s, Gather(ids, w))
  {
    if ids != [] {
      var n := |ids| - 1;
      SlotsBelowAppend(ids[..n], [ids[n]], |v|);
      assert ids == ids[..n] + [ids[n]];
      GatherLinear(ids[..n], v, s, w);
      var gv, gw := Gather(ids[..n], v), Gather(ids[..n], w);
      var tv := if IsFixed(ids[n]) then [] else [v[Slot(ids[n])]];
      var tw := if IsFixed(ids[n]) then [] else [w[Slot(ids[n])]];
      assert Gather(ids, v) == gv + tv && Gather(ids, w) == gw + tw;
      AxpyAppend(gv, tv, s, gw, tw);
      var u := Axpy(v, s, w);
      var tu := if IsFixed(ids[n]) then [] else [u[Slot(ids[n])]];
      assert Gather(ids, u) == Gather(ids[..n], u) + tu;
      if IsFixed(ids[n]) {
        assert Axpy(tv, s, tw) == [];
      } else {
        var e := Axpy(tv, s, tw);
        assert |e| == 1 && e[0] == u[Slot(ids[n])];
        assert tu == e;
      }
    }
  }

  /** The sub-vector of a zero vector is zero. */
  lemma {:induction false} GatherZeros(ids: seq<int>, neq: nat)
    requires SlotsBelow(ids, neq)
    ensures Gather(ids, Zeros(neq)) == Zeros(CountEquations(ids))
  {
    if ids != [] {
      var n := |ids| - 1;
      SlotsBelowAppend(ids[..n], [ids[n]], neq);
      assert ids == ids[..n] + [ids[n]];
      GatherZeros(ids[..n], neq);
    }
  }

  /** Marking any selection of ids as prescribed, as a free-draining
      contact surface does with pressure ids, changes no sub-vector. */
  lemma {:induction false} GatherIgnoresMarking(ids: seq<int>, marked: seq<int>, ui: seq<real>)
    requires |marked| == |ids| && SlotsBelow(ids, |ui|)
    requires forall k :: 0 <= k < |ids| ==> marked[k] == ids[k] || marked[k] == Flip(ids[k])
    ensures SlotsBelow(marked, |ui|)
    ensures Gather(marked, ui) == Gather(ids, ui)
  {
    forall k | 0 <= k < |marked| && !IsFixed(marked[k])
      ensures Slot(marked[k]) < |ui|
    {
      FlipInvolution(ids[k]);
    }
    if ids != [] {
      var n := |ids| - 1;
      SlotsBelowAppend(ids[..n], [ids[n]], |ui|);
      assert ids == ids[..n] + [ids[n]];
      SlotsBelowAppend(marked[..n], [marked[n]], |ui|);
      assert marked == marked[..n] + [marked[n]];
      FlipInvolution(ids[n]);
      GatherIgnoresMarking(ids[..n], marked[..n], ui);
    }
  }

  /** A prefix of the ids has no more equations than all of them. */
  lemma CountPrefixBound(ids: seq<int>, i: nat)
    requires i <= |ids|
    ensures CountEquations(ids[..i]) <= CountEquations(ids)
  {
    assert ids == ids[..i] + ids[i..];
    CountAppend(ids[..i], ids[i..]);
  }

  /** Fills buf with the sub-vector of ui for the ids: buf is zeroed, then
      written with a cursor that advances once per id that is not fixed. The
      cursor never passes the end of buf. */
  method GetFieldData(ids: seq<int>, buf: seq<real>, ui: seq<real>) returns (out: seq<real>)
    requires SlotsBelow(ids, |ui|)
    requires CountEquations(ids) <= |buf|
    ensures |out| == |buf|
    ensures out[..CountEquations(ids)] == Gather(ids, ui)
    ensures forall k :: CountEquations(ids) <= k < |out| ==> out[k] == 0.0
  {
    out := Zeros(|buf|);
    var m := 0;
    for i := 0 to |ids|
      invariant SlotsBelow(ids[..i], |ui|)
      invariant m == CountEquations(ids[..i]) <= CountEquations(ids)
      invariant |out| == |buf|
      invariant out[..m] == Gather(ids[..i], ui)
      invariant forall k :: m <= k < |out| ==> out[k] == 0.0
    {
      GatherStep(ids, i, ui);
      CountPrefixBound(ids, i + 1);
      var nid := ids[i];
      if nid != -1 {
        nid := if nid < -1 then -nid - 2 else nid;
        out := out[m := ui[nid]];
        m := m + 1;
      }
    }
    assert ids[..|ids|] == ids;
  }

  /** A mesh numbering whose nodes all have one solute id per species
      slot, and whose ids all refer to existing equations. */
  predicate WellFormed(mesh: seq<NodeIds>, ncdofs: nat, neq: nat)
  {
    && MeshIdsBelow(mesh, neq)
    && forall i :: 0 <= i < |mesh| ==> |mesh[i].c| == ncdofs
  }

  /** Node values for every node of the mesh, one concentration per
      species slot. */
  predicate Stored(nodes: seq<Node>, mesh: seq<NodeIds>, ncdofs: nat)
  {
    |nodes| == |mesh| && forall i :: 0 <= i < |nodes| ==> |nodes[i].ct| == ncdofs
  }

  /** A reaction component: the negated reaction entry of the equation a
      prescribed id owns, and zero for a free or fixed id. */
  function ReactionComponent(id: int, Fr: seq<real>): (f: real)
    requires IsPrescribed(id) ==> Slot(id) < |Fr|
    ensures IsPrescribed(id) ==> f == -Fr[Slot(id)]
    ensures !IsPrescribed(id) ==> f == 0.0
  {
    var n := -id - 2;
    if n >= 0 then -Fr[n] else 0.0
  }

  function NodeReaction(id: NodeIds, Fr: seq<real>): Reaction
    requires NodeIdsBelow(id, |Fr|)
  {
    Reaction(ReactionComponent(id.x, Fr), ReactionComponent(id.y, Fr), ReactionComponent(id.z, Fr))
  }

  /** The degrees of freedom a prescribed boundary condition can act on. */
  datatype Dof = X | Y | Z | P | RU | RV | RW | C(sol: nat)

  /** A prescribed nodal value r + s * (current value of load curve lc). */
  datatype PrescribedBC = PrescribedBC(node: nat, dof: Dof, lc: nat, s: real, r: real, active: bool)

  predicate Applies(b: PrescribedBC, node: nat, dof: Dof)
  {
    b.active && b.node == node && b.dof == dof
  }

  /** The value an unknown has after the conditions are applied in order,
      starting from v: every active condition on it overwrites it. */
  function Enforce(bcs: seq<PrescribedBC>, node: nat, dof: Dof, lc: nat -> real, v: real): real
  {
    if bcs == [] then v
    else
      var b := bcs[|bcs| - 1];
      if Applies(b, node, dof) then b.r + b.s * lc(b.lc) else Enforce(bcs[..|bcs| - 1], node, dof, lc, v)
  }

  /** An unknown no active condition acts on keeps its value. */
  lemma {:induction false} EnforceUntouched(bcs: seq<PrescribedBC>, node: nat, dof: Dof, lc: nat -> real, v: real)
    requires forall k :: 0 <= k < |bcs| ==> !Applies(bcs[k], node, dof)
    ensures Enforce(bcs, node, dof, lc, v) == v
  {
    if bcs != [] {
      var n := |bcs| - 1;
      assert forall k :: 0 <= k < n ==> bcs[..n][k] == bcs[k];
      EnforceUntouched(bcs[..n], node, dof, lc, v);
    }
  }

  /** Otherwise the last condition acting on it decides its value. */
  lemma {:induction false} EnforceLastWins(bcs: seq<PrescribedBC>, node: nat, dof: Dof, lc: nat -> real, v: real, k: nat)
    requires k < |bcs| && Applies(bcs[k], node, dof)
    requires forall q :: k < q < |bcs| ==> !Applies(bcs[q], node, dof)
    ensures Enforce(bcs, node, dof, lc, v) == bcs[k].r + bcs[k].s * lc(bcs[k].lc)
  {
    var n := |bcs| - 1;
    if k < n {
      assert forall q :: k < q < n ==> bcs[..n][q] == bcs[q];
      EnforceLastWins(bcs[..n], node, dof, lc, v, k);
    }
  }

  /** The pressure a node takes from the solution: Ut + Ui + ui at its
      equation when the pressure is free, unchanged otherwise. */
  function FreePressure(id: NodeIds, n: Node, Ut: seq<real>, Ui: seq<real>, ui: seq<real>): real
    requires id.p >= 0 ==> id.p < |Ut| && id.p < |Ui| && id.p < |ui|
  {
    var e := id.p;
    if e >= 0 then Ut[e] + Ui[e] + ui[e] else n.pt
  }

  /** The concentration of species j a node takes from the solution, kept
      non-negative; unchanged when the species is not free at the node. */
  function FreeConcentration(id: NodeIds, n: Node, j: nat, Ut: seq<real>, Ui: seq<real>, ui: seq<real>): (v: real)
    requires j < |id.c| && j < |n.ct|
    requires id.c[j] >= 0 ==> id.c[j] < |Ut| && id.c[j] < |Ui| && id.c[j] < |ui|
    ensures id.c[j] >= 0 ==> v >= 0.0
    ensures id.c[j] >= 0 && Ut[id.c[j]] + Ui[id.c[j]] + ui[id.c[j]] < 0.0 ==> v == 0.0
    ensures id.c[j] >= 0 && Ut[id.c[j]] + Ui[id.c[j]] + ui[id.c[j]] >= 0.0
            ==> v == Ut[id.c[j]] + Ui[id.c[j]] + ui[id.c[j]]
    ensures id.c[j] < 0 ==> v == n.ct[j]
  {
    var e := id.c[j];
    if e >= 0 then
      var c := Ut[e] + Ui[e] + ui[e];
      if c < 0.0 then 0.0 else c
    else n.ct[j]
  }

  /** The reference norms of the first iteration: the residual and energy
      of the first solve, and the squared norms of the first sub-vectors. */
  function InitialReference(R0: seq<real>, ui: seq<real>, di: seq<real>, pi: seq<real>,
                            ci: seq<seq<real>>, nceq: seq<nat>, prev: Reference): Reference
    requires |R0| == |ui| && |ci| == |nceq| && |prev.Ci| == |nceq|
  {
    var ri := Abs(Dot(R0, R0));
    var ei := Abs(Dot(ui, R0));
    Reference(ri, ei, ei, Abs(Dot(di, di)), Abs(Dot(pi, pi)),
              seq(|nceq|, j requires 0 <= j < |nceq| =>
                            if nceq[j] != 0 then Abs(Dot(ci[j], ci[j])) else prev.Ci[j]))
  }

  function Counts(id: int): nat { if IsFixed(id) then 0 else 1 }

  /** The equations a node contributes to a field. */
  function NodeCount(id: NodeIds, f: Field): nat
  {
    match f
    case Displacement => Counts(id.x) + Counts(id.y) + Counts(id.z)
    case Pressure => Counts(id.p)
    case Concentration(j) => if j < |id.c| then Counts(id.c[j]) else 0
  }

  lemma CountNodeFieldIds(id: NodeIds, f: Field)
    ensures CountEquations(NodeFieldIds(id, f)) == NodeCount(id, f)
  {
    var l := [id.x, id.y, id.z];
    assert l[..2] == [id.x, id.y] && [id.x, id.y][..1] == [id.x] && [id.x][..0] == [];
    assert CountEquations([id.x]) == Counts(id.x);
    assert CountEquations([id.x, id.y]) == Counts(id.x) + Counts(id.y);
    assert CountEquations(l) == CountEquations([id.x, id.y]) + Counts(id.z);
    assert [id.p][..0] == [];
    if f.Concentration? && f.sol < |id.c| {
      assert [id.c[f.sol]][..0] == [];
    }
  }

  /** The equation count of a field, node by node. */
  function FieldCount(mesh: seq<NodeIds>, f: Field): nat
  {
    if mesh == [] then 0 else FieldCount(mesh[..|mesh| - 1], f) + NodeCount(mesh[|mesh| - 1], f)
  }

  lemma FieldCountStep(mesh: seq<NodeIds>, i: nat, f: Field)
    requires i < |mesh|
    ensures FieldCount(mesh[..i + 1], f) == FieldCount(mesh[..i], f) + NodeCount(mesh[i], f)
  {
    assert mesh[..i + 1][..i] == mesh[..i];
  }

  /** Counting node by node agrees with counting the field's ids. */
  lemma {:induction false} FieldCountIsCount(mesh: seq<NodeIds>, f: Field)
    ensures FieldCount(mesh, f) == CountEquations(FieldIds(mesh, f))
  {
    if mesh != [] {
      var n := |mesh| - 1;
      FieldCountIsCount(mesh[..n], f);
      CountAppend(FieldIds(mesh[..n], f), NodeFieldIds(mesh[n], f));
      CountNodeFieldIds(mesh[n], f);
    }
  }

  /** What the computations outside the model return in one iteration. */
  datatype Observation = Observation(
    ui: seq<real>,      // the solution of the linear system for the residual R0
    lsStep: real,       // the step the line search returns (used when it is on)
    R1: seq<real>,      // the residual at the updated configuration
    nups: int,          // secant updates done since the last reformation
    bfgsOk: bool,       // outcome of the secant update, when one is tried
    reformOk: bool,     // outcome of the stiffness reformation, when one is needed
    augmentOk: bool,    // outcome of the augmentations, when they run
    R0aug: seq<real>)   // the residual recomputed after unconverged augmentations

  /** The global stiffness matrix K, as a map from (row, column) to entry. */
  class SparseMatrix {
    var entries: map<(nat, nat), real>

    constructor ()
      ensures entries == map[]
    {
      entries := map[];
    }

    method Set(i: nat, j: nat, v: real)
      modifies this
      ensures entries == old(entries)[(i, j) := v]
    {
      entries := entries[(i, j) := v];
    }

    /** Sets to one the diagonal of every prescribed equation of one
        rigid body's LM vector. */
    method SetPrescribedDiagonals(lm: seq<int>)
      modifies this
      ensures DiagonalsSet(old(entries), entries, PrescribedSlots(lm))
    {
      for j := 0 to |lm|
        invariant DiagonalsSet(old(entries), entries, PrescribedSlots(lm[..j]))
      {
        assert lm[..j + 1][..j] == lm[..j];
        if lm[j] < -1 {
          var I := -lm[j] - 2;
          DiagonalsStep(old(entries), entries, PrescribedSlots(lm[..j]), I);
          Set(I, I, 1.0);
        }
      }
      assert lm[..|lm|] == lm;
    }
  }

  /** The equations of the prescribed entries of a rigid-body LM vector. */
  function PrescribedSlots(lm: seq<int>): set<nat>
  {
    if lm == [] then {}
    else PrescribedSlots(lm[..|lm| - 1]) + (if IsPrescribed(lm[|lm| - 1]) then {Slot(lm[|lm| - 1])} else {})
  }

  /** The equations of the prescribed degrees of freedom of the rigid bodies. */
  function RigidPrescribed(rbs: seq<seq<int>>): set<nat>
  {
    if rbs == [] then {} else RigidPrescribed(rbs[..|rbs| - 1]) + PrescribedSlots(rbs[|rbs| - 1])
  }

  /** An equation among the prescribed ones is the decoding of a prescribed
      entry, and every prescribed entry's equation is among them. */
  lemma {:induction false} PrescribedSlotsExact(lm: seq<int>, e: nat)
    ensures e in PrescribedSlots(lm) <==> exists j :: 0 <= j < |lm| && IsPrescribed(lm[j]) && Slot(lm[j]) == e
  {
    if lm != [] {
      var n := |lm| - 1;
      PrescribedSlotsExact(lm[..n], e);
      assert forall j :: 0 <= j < n ==> lm[..n][j] == lm[j];
    }
  }

  /** cur is prev with the diagonal of every equation in D set to one. */
  ghost predicate DiagonalsSet(prev: map<(nat, nat), real>, cur: map<(nat, nat), real>, D: set<nat>)
  {
    && (forall key :: key in cur <==> key in prev || (key.0 == key.1 && key.0 in D))
    && (forall e :: e in D ==> (e, e) in cur && cur[(e, e)] == 1.0)
    && (forall key :: key in prev && !(key.0 == key.1 && key.0 in D) ==> cur[key] == prev[key])
  }

  lemma DiagonalsStep(prev: map<(nat, nat), real>, cur: map<(nat, nat), real>, D: set<nat>, e: nat)
    requires DiagonalsSet(prev, cur, D)
    ensures DiagonalsSet(prev, cur[(e, e) := 1.0], D + {e})
  {
  }

  /** Setting the diagonals of A and then those of B sets those of A + B. */
  lemma DiagonalsCompose(prev: map<(nat, nat), real>, mid: map<(nat, nat), real>, cur: map<(nat, nat), real>,
                         A: set<nat>, B: set<nat>)
    requires DiagonalsSet(prev, mid, A) && DiagonalsSet(mid, cur, B)
    ensures DiagonalsSet(prev, cur, A + B)
  {
  }

  /** Every node's reaction, reset and then read from the reaction entries
      of its prescribed displacement equations; nothing else changes. */
  method Reactions(mesh: seq<NodeIds>, nodes: seq<Node>, Fr: seq<real>) returns (r: seq<Node>)
    requires MeshIdsBelow(mesh, |Fr|) && |nodes| == |mesh|
    ensures |r| == |nodes|
    ensures forall i :: 0 <= i < |r| ==> r[i] == nodes[i].(fr := NodeReaction(mesh[i], Fr))
  {
    r := nodes;
    for i := 0 to |nodes|
      invariant |r| == |nodes|
      invariant forall k :: 0 <= k < i ==> r[k] == nodes[k].(fr := NodeReaction(mesh[k], Fr))
      invariant forall k :: i <= k < |r| ==> r[k] == nodes[k]
    {
      var id, node := mesh[i], r[i];
      var fr := Reaction(0.0, 0.0, 0.0);
      var n := -id.x - 2;
      if n >= 0 { fr := fr.(x := -Fr[n]); }
      n := -id.y - 2;
      if n >= 0 { fr := fr.(y := -Fr[n]); }
      n := -id.z - 2;
      if n >= 0 { fr := fr.(z := -Fr[n]); }
      r := r[i := node.(fr := fr)];
    }
  }

  /** The pressures of every node after the solve. */
  method SolvePressures(mesh: seq<NodeIds>, nodes: seq<Node>, Ut: seq<real>, Ui: seq<real>, ui: seq<real>)
    returns (r: seq<Node>)
    requires MeshIdsBelow(mesh, |ui|) && |nodes| == |mesh| && |Ut| == |ui| && |Ui| == |ui|
    ensures |r| == |nodes|
    ensures forall i :: 0 <= i < |r| ==> r[i] == nodes[i].(pt := FreePressure(mesh[i], nodes[i], Ut, Ui, ui))
  {
    r := nodes;
    for i := 0 to |nodes|
      invariant |r| == |nodes|
      invariant forall k :: 0 <= k < i ==> r[k] == nodes[k].(pt := FreePressure(mesh[k], nodes[k], Ut, Ui, ui))
      invariant forall k :: i <= k < |r| ==> r[k] == nodes[k]
    {
      var node := r[i];
      var n := mesh[i].p;
      if n >= 0 { r := r[i := node.(pt := 0.0 + Ut[n] + Ui[n] + ui[n])]; }
    }
  }

  /** The active prescribed pressure conditions, applied in order. */
  method PrescribePressures(solved: seq<Node>, bcs: seq<PrescribedBC>, lc: nat -> real) returns (r: seq<Node>)
    requires forall k :: 0 <= k < |bcs| ==> bcs[k].node < |solved|
    ensures |r| == |solved|
    ensures forall i :: 0 <= i < |r| ==> r[i] == solved[i].(pt := Enforce(bcs, i, P, lc, solved[i].pt))
  {
    r := solved;
    for k := 0 to |bcs|
      invariant |r| == |solved|
      invariant forall i :: 0 <= i < |r| ==> r[i] == solved[i].(pt := Enforce(bcs[..k], i, P, lc, solved[i].pt))
    {
      assert bcs[..k + 1][..k] == bcs[..k];
      var dc := bcs[k];
      if dc.active {
        var n := dc.node;
        if dc.dof == P { r := r[n := r[n].(pt := dc.r + dc.s * lc(dc.lc))]; }
      }
    }
    assert bcs[..|bcs|] == bcs;
  }

  /** The first counting pass: one displacement equation per X, Y or Z id
      that is not fixed, one pressure equation per such P id. */
  method CountDisplacementAndPressure(mesh: seq<NodeIds>) returns (ndeq: nat, npeq: nat)
    ensures ndeq == CountEquations(FieldIds(mesh, Displacement))
    ensures npeq == CountEquations(FieldIds(mesh, Pressure))
  {
    ndeq, npeq := 0, 0;
    for i := 0 to |mesh|
      invariant ndeq == FieldCount(mesh[..i], Displacement)
      invariant npeq == FieldCount(mesh[..i], Pressure)
    {
      var id := mesh[i];
      FieldCountStep(mesh, i, Displacement);
      FieldCountStep(mesh, i, Pressure);
      if id.x != -1 { ndeq := ndeq + 1; }
      if id.y != -1 { ndeq := ndeq + 1; }
      if id.z != -1 { ndeq := ndeq + 1; }
      if id.p != -1 { npeq := npeq + 1; }
    }
    assert mesh[..|mesh|] == mesh;
    FieldCountIsCount(mesh, Displacement);
    FieldCountIsCount(mesh, Pressure);
  }

  /** The second counting pass: per species slot, one equation per solute
      id that is not fixed. */
  method CountSolutes(mesh: seq<NodeIds>, ncdofs: nat) returns (nceq: seq<nat>)
    requires forall i :: 0 <= i < |mesh| ==> |mesh[i].c| == ncdofs
    ensures |nceq| == ncdofs
    ensures forall j :: 0 <= j < ncdofs ==> nceq[j] == CountEquations(FieldIds(mesh, Concentration(j)))
  {
    nceq := seq(ncdofs, j => 0);
    for i := 0 to |mesh|
      invariant |nceq| == ncdofs
      invariant forall j :: 0 <= j < ncdofs ==> nceq[j] == FieldCount(mesh[..i], Concentration(j))
    {
      nceq := CountNodeSolutes(mesh, i, nceq);
    }
    assert mesh[..|mesh|] == mesh;
    forall j | 0 <= j < ncdofs
      ensures nceq[j] == CountEquations(FieldIds(mesh, Concentration(j)))
    {
      FieldCountIsCount(mesh, Concentration(j));
    }
  }

  /** One node of the second pass: each species slot whose id at node i is
      not fixed gains an equation. */
  method CountNodeSolutes(mesh: seq<NodeIds>, i: nat, counts: seq<nat>) returns (r: seq<nat>)
    requires i < |mesh| && |counts| == |mesh[i].c|
    requires forall j :: 0 <= j < |counts| ==> counts[j] == FieldCount(mesh[..i], Concentration(j))
    ensures |r| == |counts|
    ensures forall j :: 0 <= j < |r| ==> r[j] == FieldCount(mesh[..i + 1], Concentration(j))
  {
    var id := mesh[i];
    r := counts;
    for j := 0 to |r|
      invariant |r| == |counts|
      invariant forall q :: 0 <= q < j ==> r[q] == FieldCount(mesh[..i + 1], Concentration(q))
      invariant forall q :: j <= q < |r| ==> r[q] == counts[q]
    {
      FieldCountStep(mesh, i, Concentration(j));
      if id.c[j] != -1 { r := r[j := r[j] + 1]; }
    }
  }

  /** The concentrations of one node after the solve: species by species,
      Ut + Ui + ui at the species' equation when it is free, then raised
      to zero when negative. */
  method SolveConcentrations(id: NodeIds, node: Node, Ut: seq<real>, Ui: seq<real>, ui: seq<real>) returns (ct: seq<real>)
    requires |node.ct| == |id.c|
    requires forall j :: 0 <= j < |id.c| ==> id.c[j] >= 0 ==> id.c[j] < |Ut| && id.c[j] < |Ui| && id.c[j] < |ui|
    ensures |ct| == |node.ct|
    ensures forall j :: 0 <= j < |ct| ==> ct[j] == FreeConcentration(id, node, j, Ut, Ui, ui)
  {
    ct := node.ct;
    for j := 0 to |ct|
      invariant |ct| == |node.ct|
      invariant forall q :: 0 <= q < j ==> ct[q] == FreeConcentration(id, node, q, Ut, Ui, ui)
      invariant forall q :: j <= q < |ct| ==> ct[q] == node.ct[q]
    {
      var n := id.c[j];
      if n >= 0 {
        ct := ct[j := 0.0 + Ut[n] + Ui[n] + ui[n]];
        if ct[j] < 0.0 {
          ct := ct[j := 0.0];
        }
      }
    }
  }

  /** One active condition applied to a node's concentrations: the species
      it prescribes takes r + s * (its load curve's value). */
  method PrescribeConcentrations(ct: seq<real>, dc: PrescribedBC, lcValue: real) returns (r: seq<real>)
    ensures |r| == |ct|
    ensures forall j :: 0 <= j < |ct| ==> r[j] == (if dc.dof == C(j) then dc.r + dc.s * lcValue else ct[j])
  {
    r := ct;
    for j := 0 to |ct|
      invariant |r| == |ct|
      invariant forall q :: 0 <= q < j ==> r[q] == (if dc.dof == C(q) then dc.r + dc.s * lcValue else ct[q])
      invariant forall q :: j <= q < |ct| ==> r[q] == ct[q]
    {
      if dc.dof == C(j) {
        r := r[j := dc.r + dc.s * lcValue];
      }
    }
  }

  /** The concentrations of every node after the solve. */
  method SolveAll(mesh: seq<NodeIds>, nodes: seq<Node>, ncdofs: nat, Ut: seq<real>, Ui: seq<real>, ui: seq<real>)
    returns (r: seq<Node>)
    requires WellFormed(mesh, ncdofs, |ui|) && Stored(nodes, mesh, ncdofs) && |Ut| == |ui| && |Ui| == |ui|
    ensures Stored(r, mesh, ncdofs)
    ensures forall i :: 0 <= i < |r| ==> r[i].pt == nodes[i].pt && r[i].fr == nodes[i].fr
    ensures forall i, j :: 0 <= i < |r| && 0 <= j < ncdofs ==>
              r[i].ct[j] == FreeConcentration(mesh[i], nodes[i], j, Ut, Ui, ui)
  {
    r := nodes;
    for i := 0 to |nodes|
      invariant Stored(r, mesh, ncdofs)
      invariant forall k :: 0 <= k < |r| ==> r[k].pt == nodes[k].pt && r[k].fr == nodes[k].fr
      invariant forall k, j :: 0 <= k < i && 0 <= j < ncdofs ==>
                  r[k].ct[j] == FreeConcentration(mesh[k], nodes[k], j, Ut, Ui, ui)
      invariant forall k :: i <= k < |r| ==> r[k] == nodes[k]
    {
      var ct := SolveConcentrations(mesh[i], r[i], Ut, Ui, ui);
      r := r[i := r[i].(ct := ct)];
    }
  }

  /** The active prescribed concentration conditions, applied in order. */
  method PrescribeAll(solved: seq<Node>, ncdofs: nat, bcs: seq<PrescribedBC>, lc: nat -> real) returns (r: seq<Node>)
    requires forall i :: 0 <= i < |solved| ==> |solved[i].ct| == ncdofs
    requires forall k :: 0 <= k < |bcs| ==> bcs[k].node < |solved|
    ensures |r| == |solved|
    ensures forall i :: 0 <= i < |r| ==> r[i].pt == solved[i].pt && r[i].fr == solved[i].fr && |r[i].ct| == ncdofs
    ensures forall i, j :: 0 <= i < |r| && 0 <= j < ncdofs ==> r[i].ct[j] == Enforce(bcs, i, C(j), lc, solved[i].ct[j])
  {
    r := solved;
    for k := 0 to |bcs|
      invariant |r| == |solved|
      invariant forall i :: 0 <= i < |r| ==>
                  r[i].pt == solved[i].pt && r[i].fr == solved[i].fr && |r[i].ct| == ncdofs
      invariant forall i, j :: 0 <= i < |r| && 0 <= j < ncdofs ==> r[i].ct[j] == Enforce(bcs[..k], i, C(j), lc, solved[i].ct[j])
    {
      assert bcs[..k + 1][..k] == bcs[..k];
      var dc := bcs[k];
      if dc.active {
        var n := dc.node;
        var ct := PrescribeConcentrations(r[n].ct, dc, lc(dc.lc));
        r := r[n := r[n].(ct := ct)];
      }
    }
    assert bcs[..|bcs|] == bcs;
  }

  /** The solute totals at the start of a step: zero for every species
      with equations, untouched for the others. */
  method ZeroTotals(Ci: seq<seq<real>>, nceq: seq<nat>) returns (r: seq<seq<real>>)
    requires Shaped(Ci, nceq)
    ensures Shaped(r, nceq)
    ensures forall j :: 0 <= j < |nceq| ==> r[j] == (if nceq[j] != 0 then Zeros(nceq[j]) else Ci[j])
  {
    r := Ci;
    for j := 0 to |nceq|
      invariant Shaped(r, nceq)
      invariant forall q :: 0 <= q < j ==> r[q] == (if nceq[q] != 0 then Zeros(nceq[q]) else Ci[q])
      invariant forall q :: j <= q < |nceq| ==> r[q] == Ci[q]
    {
      if nceq[j] != 0 { r := r[j := Zeros(|r[j]|)]; }
    }
  }

  /** The equation counts match the mesh, whose ids all refer to existing
      equations. */
  ghost predicate MeshCounted(mesh: seq<NodeIds>, neq: nat, ncdofs: nat, ndeq: nat, npeq: nat, nceq: seq<nat>)
  {
    && WellFormed(mesh, ncdofs, neq)
    && |nceq| == ncdofs
    && ndeq == FieldCount(mesh, Displacement)
    && npeq == FieldCount(mesh, Pressure)
    && forall j :: 0 <= j < ncdofs ==> nceq[j] == FieldCount(mesh, Concentration(j))
  }

  /** One vector per species, each as long as the species' equation count. */
  predicate Shaped(vs: seq<seq<real>>, nceq: seq<nat>)
  {
    |vs| == |nceq| && forall j :: 0 <= j < |nceq| ==> |vs[j]| == nceq[j]
  }

  /** The result of splitting one field: its sub-vector of ui, its new
      total and the squared norms of the scaled sub-vector and the total. */
  predicate FieldSplit(ids: seq<int>, ui: seq<real>, s: real, total: seq<real>,
                         inc: seq<real>, next: seq<real>, nInc: real, nTotal: real)
  {
    && SlotsBelow(ids, |ui|) && |total| == CountEquations(ids)
    && inc == Gather(ids, ui) && next == Axpy(total, s, inc)
    && nInc == StepNorm(inc, s) && nTotal == Dot(next, next)
  }

  /** One field of the split: the sub-vector of ui is written into buf,
      s times it is added to the field total, and the squared norms of the
      scaled sub-vector and of the new total are measured. */
  method SplitField(ids: seq<int>, buf: seq<real>, total: seq<real>, ui: seq<real>, s: real)
    returns (inc: seq<real>, next: seq<real>, nInc: real, nTotal: real)
    requires SlotsBelow(ids, |ui|) && |buf| == CountEquations(ids) && |total| == |buf|
    ensures FieldSplit(ids, ui, s, total, inc, next, nInc, nTotal)
  {
    inc := GetFieldData(ids, buf, ui);
    assert inc[..|inc|] == inc;
    next := AddScaled(total, s, inc);
    nInc := StepNorm(inc, s);
    nTotal := Dot(next, next);
  }

  /** The ids of every species, species by species. */
  function SoluteIds(mesh: seq<NodeIds>, ncdofs: nat): (sids: seq<seq<int>>)
    ensures |sids| == ncdofs && forall j :: 0 <= j < ncdofs ==> sids[j] == FieldIds(mesh, Concentration(j))
  {
    seq(ncdofs, (j: nat) => FieldIds(mesh, Concentration(j)))
  }

  /** The solute part of the split, species by species; species without
      equations are skipped. */
  method SplitSolutes(sids: seq<seq<int>>, nceq: seq<nat>, ci: seq<seq<real>>, Ci: seq<seq<real>>, ui: seq<real>, s: real)
    returns (ci': seq<seq<real>>, Ci': seq<seq<real>>, nc: seq<real>, nC: seq<real>)
    requires Shaped(ci, nceq) && Shaped(Ci, nceq) && |sids| == |nceq|
    requires forall j :: 0 <= j < |nceq| ==> SlotsBelow(sids[j], |ui|) && nceq[j] == CountEquations(sids[j])
    ensures Shaped(ci', nceq) && Shaped(Ci', nceq) && |nc| == |nceq| && |nC| == |nceq|
    ensures forall j :: 0 <= j < |nceq| && nceq[j] != 0 ==> FieldSplit(sids[j], ui, s, Ci[j], ci'[j], Ci'[j], nc[j], nC[j])
    ensures forall j :: 0 <= j < |nceq| && nceq[j] == 0 ==> ci'[j] == ci[j] && Ci'[j] == Ci[j] && nc[j] == 0.0 && nC[j] == 0.0
  {
    ci', Ci' := ci, Ci;
    nc, nC := Zeros(|nceq|), Zeros(|nceq|);
    for j := 0 to |nceq|
      invariant Shaped(ci', nceq) && Shaped(Ci', nceq) && |nc| == |nceq| && |nC| == |nceq|
      invariant forall q :: 0 <= q < j && nceq[q] != 0 ==> FieldSplit(sids[q], ui, s, Ci[q], ci'[q], Ci'[q], nc[q], nC[q])
      invariant forall q :: j <= q < |nceq| || (0 <= q < j && nceq[q] == 0) ==>
                  ci'[q] == ci[q] && Ci'[q] == Ci[q] && nc[q] == 0.0 && nC[q] == 0.0
    {
      if nceq[j] != 0 {
        var inc, total, nInc, nTotal := SplitField(sids[j], ci'[j], Ci'[j], ui, s);
        assert FieldSplit(sids[j], ui, s, Ci[j], inc, total, nInc, nTotal);
        ghost var (c0, C0, n0, N0) := (ci', Ci', nc, nC);
        ci' := ci'[j := inc];
        Ci' := Ci'[j := total];
        nc := nc[j := nInc];
        nC := nC[j := nTotal];
        forall q | 0 <= q < j && nceq[q] != 0
          ensures FieldSplit(sids[q], ui, s, Ci[q], ci'[q], Ci'[q], nc[q], nC[q])
        {
          assert ci'[q] == c0[q] && Ci'[q] == C0[q] && nc[q] == n0[q] && nC[q] == N0[q];
        }
      }
    }
  }

  /** The field total is the sub-vector of what the total increment U has
      gained since it was U0. */
  predicate Tracks(ids: seq<int>, U0: seq<real>, U: seq<real>, total: seq<real>)
  {
    && |U0| == |U| && SlotsBelow(ids, |U|) && |total| == CountEquations(ids)
    && Gather(ids, U) == Axpy(Gather(ids, U0), 1.0, total)
  }

  /** A zero total tracks an increment that has not moved. */
  lemma TracksFromZero(ids: seq<int>, U0: seq<real>)
    requires SlotsBelow(ids, |U0|)
    ensures Tracks(ids, U0, U0, Zeros(CountEquations(ids)))
  {
    AxpyZeros(Gather(ids, U0));
  }

  /** One split keeps the total tracking the increment: adding s*u to the
      increment and s times the sub-vector of u to the total. */
  lemma SplitTracks(ids: seq<int>, U0: seq<real>, U: seq<real>, total: seq<real>, u: seq<real>, s: real,
                    inc: seq<real>, next: seq<real>, nInc: real, nTotal: real)
    requires Tracks(ids, U0, U, total) && |u| == |U|
    requires FieldSplit(ids, u, s, total, inc, next, nInc, nTotal)
    ensures Tracks(ids, U0, Axpy(U, s, u), next)
  {
    GatherLinear(ids, U, s, u);
    AxpyRegroup(Gather(ids, U0), total, s, inc);
  }

  /** A field without equations tracks any increment with its empty total. */
  lemma EmptyTracks(ids: seq<int>, U0: seq<real>, U: seq<real>, total: seq<real>)
    requires |U0| == |U| && SlotsBelow(ids, |U|) && CountEquations(ids) == 0 && |total| == 0
    ensures Tracks(ids, U0, U, total)
  {
  }

  /** One split keeps every species total tracking the increment; a
      species without equations has an empty total, which tracks anything. */
  lemma SolutesTrack(sids: seq<seq<int>>, nceq: seq<nat>, U0: seq<real>, U: seq<real>, u: seq<real>, s: real,
                     C: seq<seq<real>>, c': seq<seq<real>>, C': seq<seq<real>>, nc: seq<real>, nC: seq<real>)
    requires |sids| == |nceq| && Shaped(C, nceq) && Shaped(c', nceq) && Shaped(C', nceq)
    requires |nc| == |nceq| && |nC| == |nceq| && |u| == |U|
    requires forall j :: 0 <= j < |nceq| ==> Tracks(sids[j], U0, U, C[j])
    requires forall j :: 0 <= j < |nceq| && nceq[j] != 0 ==> FieldSplit(sids[j], u, s, C[j], c'[j], C'[j], nc[j], nC[j])
    requires forall j :: 0 <= j < |nceq| && nceq[j] == 0 ==> C'[j] == C[j]
    ensures forall j :: 0 <= j < |nceq| ==> Tracks(sids[j], U0, Axpy(U, s, u), C'[j])
  {
    forall j | 0 <= j < |nceq|
      ensures Tracks(sids[j], U0, Axpy(U, s, u), C'[j])
    {
      if nceq[j] != 0 {
        SplitTracks(sids[j], U0, U, C[j], u, s, c'[j], C'[j], nc[j], nC[j]);
      } else {
        EmptyTracks(sids[j], U0, Axpy(U, s, u), C'[j]);
      }
    }
  }

  /** Zeroed totals track an increment from where it stands; the totals
      of species without equations are empty. */
  lemma ZeroTotalsTrack(mesh: seq<NodeIds>, neq: nat, ncdofs: nat, ndeq: nat, npeq: nat, nceq: seq<nat>,
                        U: seq<real>, C: seq<seq<real>>)
    requires MeshCounted(mesh, neq, ncdofs, ndeq, npeq, nceq) && |U| == neq && Shaped(C, nceq)
    requires forall j :: 0 <= j < ncdofs && nceq[j] != 0 ==> C[j] == Zeros(nceq[j])
    ensures Tracks(FieldIds(mesh, Displacement), U, U, Zeros(ndeq))
    ensures Tracks(FieldIds(mesh, Pressure), U, U, Zeros(npeq))
    ensures forall j :: 0 <= j < ncdofs ==> Tracks(SoluteIds(mesh, ncdofs)[j], U, U, C[j])
  {
    FieldIdsBelow(mesh, Displacement, neq);
    FieldCountIsCount(mesh, Displacement);
    TracksFromZero(FieldIds(mesh, Displacement), U);
    FieldIdsBelow(mesh, Pressure, neq);
    FieldCountIsCount(mesh, Pressure);
    TracksFromZero(FieldIds(mesh, Pressure), U);
    forall j | 0 <= j < ncdofs
      ensures Tracks(SoluteIds(mesh, ncdofs)[j], U, U, C[j])
    {
      FieldIdsBelow(mesh, Concentration(j), neq);
      FieldCountIsCount(mesh, Concentration(j));
      if nceq[j] != 0 {
        TracksFromZero(FieldIds(mesh, Concentration(j)), U);
      }
    }
  }

  /** Every species' ids refer to existing equations, and count as many
      equations as the species has. */
  lemma SoluteIdsBelow(mesh: seq<NodeIds>, ncdofs: nat, neq: nat)
    requires MeshIdsBelow(mesh, neq)
    ensures forall j :: 0 <= j < ncdofs ==>
              && SlotsBelow(SoluteIds(mesh, ncdofs)[j], neq)
              && CountEquations(SoluteIds(mesh, ncdofs)[j]) == FieldCount(mesh, Concentration(j))
  {
    forall j | 0 <= j < ncdofs
      ensures SlotsBelow(SoluteIds(mesh, ncdofs)[j], neq)
      ensures CountEquations(SoluteIds(mesh, ncdofs)[j]) == FieldCount(mesh, Concentration(j))
    {
      FieldIdsBelow(mesh, Concentration(j), neq);
      FieldCountIsCount(mesh, Concentration(j));
    }
  }

  /** What the increment U has gained over U0 on the equations of ids. */
  function Gained(ids: seq<int>, U0: seq<real>, U: seq<real>): (t: seq<real>)
    requires |U0| == |U| && SlotsBelow(ids, |U|)
    ensures |t| == CountEquations(ids)
  {
    var g0, g := Gather(ids, U0), Gather(ids, U);
    seq(|g|, k requires 0 <= k < |g| => g[k] - g0[k])
  }

  /** A field total that tracks the increment is what the increment has
      gained on that field. */
  lemma TracksGained(ids: seq<int>, U0: seq<real>, U: seq<real>, total: seq<real>)
    requires Tracks(ids, U0, U, total)
    ensures total == Gained(ids, U0, U)
  {
    var g0, g := Gather(ids, U0), Gather(ids, U);
    forall k | 0 <= k < |total|
      ensures total[k] == g[k] - g0[k]
    {
      assert g[k] == g0[k] + 1.0 * total[k];
    }
  }

  /** One field's split keeps its total tracking the increment, and its
      norms are those of the sub-vector of u and of what the increment has
      gained. */
  lemma SplitGained(ids: seq<int>, U0: seq<real>, U: seq<real>, total: seq<real>, u: seq<real>, s: real,
                    inc: seq<real>, next: seq<real>, nInc: real, nTotal: real)
    requires Tracks(ids, U0, U, total) && |u| == |U|
    requires FieldSplit(ids, u, s, total, inc, next, nInc, nTotal)
    ensures Tracks(ids, U0, Axpy(U, s, u), next)
    ensures next == Gained(ids, U0, Axpy(U, s, u))
    ensures nInc == StepNorm(Gather(ids, u), s)
    ensures nTotal == Dot(Gained(ids, U0, Axpy(U, s, u)), Gained(ids, U0, Axpy(U, s, u)))
  {
    SplitTracks(ids, U0, U, total, u, s, inc, next, nInc, nTotal);
    TracksGained(ids, U0, Axpy(U, s, u), next);
  }

  /** The sub-vector of u of every species. */
  function SoluteParts(sids: seq<seq<int>>, u: seq<real>): (parts: seq<seq<real>>)
    requires forall j :: 0 <= j < |sids| ==> SlotsBelow(sids[j], |u|)
    ensures |parts| == |sids|
  {
    seq(|sids|, j requires 0 <= j < |sids| => Gather(sids[j], u))
  }

  /** The squared norm of s times every species' sub-vector of u; zero for
      a species without equations. */
  function SoluteSteps(sids: seq<seq<int>>, nceq: seq<nat>, u: seq<real>, s: real): (ns: seq<real>)
    requires |sids| == |nceq| && forall j :: 0 <= j < |sids| ==> SlotsBelow(sids[j], |u|)
    ensures |ns| == |nceq|
  {
    seq(|nceq|, j requires 0 <= j < |nceq| => if nceq[j] != 0 then StepNorm(Gather(sids[j], u), s) else 0.0)
  }

  /** The squared norm of what every species has gained from U0 to U;
      zero for a species without equations. */
  function SoluteTotals(sids: seq<seq<int>>, nceq: seq<nat>, U0: seq<real>, U: seq<real>): (ns: seq<real>)
    requires |sids| == |nceq| && |U0| == |U| && forall j :: 0 <= j < |sids| ==> SlotsBelow(sids[j], |U|)
    ensures |ns| == |nceq|
  {
    seq(|nceq|, j requires 0 <= j < |nceq| =>
                  if nceq[j] != 0 then Dot(Gained(sids[j], U0, U), Gained(sids[j], U0, U)) else 0.0)
  }

  /** The species part of the split keeps every species total tracking the
      increment, and its sub-vectors and norms are those of u and of what
      the increment has gained. */
  lemma SolutesGained(sids: seq<seq<int>>, nceq: seq<nat>, U0: seq<real>, U: seq<real>, u: seq<real>, s: real,
                      C: seq<seq<real>>, c': seq<seq<real>>, C': seq<seq<real>>, nc: seq<real>, nC: seq<real>)
    requires |sids| == |nceq| && Shaped(C, nceq) && Shaped(c', nceq) && Shaped(C', nceq)
    requires |nc| == |nceq| && |nC| == |nceq| && |u| == |U| && |U0| == |U|
    requires forall j :: 0 <= j < |sids| ==> SlotsBelow(sids[j], |U|)
    requires forall j :: 0 <= j < |nceq| ==> Tracks(sids[j], U0, U, C[j])
    requires forall j :: 0 <= j < |nceq| && nceq[j] != 0 ==> FieldSplit(sids[j], u, s, C[j], c'[j], C'[j], nc[j], nC[j])
    requires forall j :: 0 <= j < |nceq| && nceq[j] == 0 ==> C'[j] == C[j] && nc[j] == 0.0 && nC[j] == 0.0
    ensures forall j :: 0 <= j < |nceq| ==> Tracks(sids[j], U0, Axpy(U, s, u), C'[j])
    ensures c' == SoluteParts(sids, u)
    ensures nc == SoluteSteps(sids, nceq, u, s)
    ensures nC == SoluteTotals(sids, nceq, U0, Axpy(U, s, u))
  {
    SolutesTrack(sids, nceq, U0, U, u, s, C, c', C', nc, nC);
    var V := Axpy(U, s, u);
    forall j | 0 <= j < |nceq|
      ensures c'[j] == SoluteParts(sids, u)[j]
      ensures nc[j] == SoluteSteps(sids, nceq, u, s)[j]
      ensures nC[j] == SoluteTotals(sids, nceq, U0, V)[j]
    {
      if nceq[j] != 0 {
        SplitGained(sids[j], U0, U, C[j], u, s, c'[j], C'[j], nc[j], nC[j]);
      }
    }
  }

  /** The state one iteration hands to the next: the step's increment, the
      residual to solve, the reference norms and the counters. */
  datatype Progress = Progress(Ui: seq<real>, R0: seq<real>, ref: Reference, niter: nat, nref: nat, naug: nat)

  /** The outcome of an iteration or of a run of them: whether the step
      converged, whether a failed reformation stopped it, and the state
      after it. */
  datatype Outcome = Outcome(bconv: bool, stop: bool, p: Progress)

  class MultiphasicSolver {
    /** The ids of the mesh nodes, which the solver only reads, and the
        values it writes to them. */
    const mesh: seq<NodeIds>
    var nodes: seq<Node>
    /** The number of equations and the number of solute species slots. */
    const neq: nat
    const ncdofs: nat
    const tol: Tolerances
    /** Whether the analysis step runs augmentations. */
    const baugment: bool

    /** Equation counts per field, fixed once the equations are numbered. */
    const ndeq: nat
    const npeq: nat
    const nceq: seq<nat>

    /** Total solution at the start of the step, and the increment of this
        step so far. */
    var Ut: seq<real>
    var Ui: seq<real>
    /** The secant solver's vectors: the last increment and two residuals. */
    var ui: seq<real>
    var R0: seq<real>
    var R1: seq<real>
    /** Residual adjustment of the prescribed displacements, and the
        assembled reaction entries. */
    var Fd: seq<real>
    var Fr: seq<real>
    /** Sub-vectors of the last increment, and their totals in this step. */
    var di: seq<real>
    var Di: seq<real>
    var pi: seq<real>
    var Pi: seq<real>
    var ci: seq<seq<real>>
    var Ci: seq<seq<real>>
    /** Iterations, stiffness reformations, augmentations and residual
        evaluations. */
    var niter: nat
    var nref: nat
    var naug: nat
    var nrhs: nat

    /** Numbers the equations of each field (every id that is not fixed
        counts, prescribed ones included) and allocates the per-field
        vectors, all zero. */
    constructor (mesh: seq<NodeIds>, nodes: seq<Node>, neq: nat, ncdofs: nat, tol: Tolerances, baugment: bool)
      requires WellFormed(mesh, ncdofs, neq)
      ensures this.mesh == mesh && this.nodes == nodes && this.neq == neq && this.ncdofs == ncdofs
      ensures this.tol == tol && this.baugment == baugment
      ensures ndeq == CountEquations(FieldIds(mesh, Displacement))
      ensures npeq == CountEquations(FieldIds(mesh, Pressure))
      ensures |nceq| == ncdofs
      ensures forall j :: 0 <= j < ncdofs ==> nceq[j] == CountEquations(FieldIds(mesh, Concentration(j)))
      ensures Valid()
      ensures di == Zeros(ndeq) && Di == Zeros(ndeq) && pi == Zeros(npeq) && Pi == Zeros(npeq)
      ensures forall j :: 0 <= j < ncdofs ==> ci[j] == Zeros(nceq[j]) && Ci[j] == Zeros(nceq[j])
      ensures niter == 0 && nref == 0 && naug == 0 && nrhs == 0
    {
      var d, p := CountDisplacementAndPressure(mesh);
      var c := CountSolutes(mesh, ncdofs);
      FieldCountIsCount(mesh, Displacement);
      FieldCountIsCount(mesh, Pressure);
      forall j | 0 <= j < ncdofs
        ensures c[j] == FieldCount(mesh, Concentration(j))
      {
        FieldCountIsCount(mesh, Concentration(j));
      }
      this.mesh := mesh;
      this.nodes := nodes;
      this.neq := neq;
      this.ncdofs := ncdofs;
      this.tol := tol;
      this.baugment := baugment;
      ndeq, npeq, nceq := d, p, c;
      Ut, Ui, ui, R0, R1, Fd, Fr := Zeros(neq), Zeros(neq), Zeros(neq), Zeros(neq), Zeros(neq), Zeros(neq), Zeros(neq);
      di, Di, pi, Pi := Zeros(d), Zeros(d), Zeros(p), Zeros(p);
      ci, Ci := seq(ncdofs, j requires 0 <= j < ncdofs => Zeros(c[j])), seq(ncdofs, j requires 0 <= j < ncdofs => Zeros(c[j]));
      niter, nref, naug, nrhs := 0, 0, 0, 0;
    }

    /** The equation counts match the mesh. */
    ghost predicate Numbered()
    {
      MeshCounted(mesh, neq, ncdofs, ndeq, npeq, nceq)
    }

    /** The sizes the iteration relies on: every vector has the length of
        its field, and the counts match the mesh. */
    ghost predicate Valid()
      reads this`Ut, this`Ui, this`ui, this`R0, this`R1, this`Fd, this`di, this`Di, this`pi, this`Pi, this`ci, this`Ci
    {
      && Numbered()
      && |Ut| == neq && |Ui| == neq && |ui| == neq && |R0| == neq && |R1| == neq && |Fd| == neq
      && |di| == ndeq && |Di| == ndeq && |pi| == npeq && |Pi| == npeq
      && Shaped(ci, nceq) && Shaped(Ci, nceq)
    }

    /** The reaction recovery at the end of a residual evaluation: every
        node's reaction is reset and then read from the reaction entries of
        its prescribed displacement equations. */
    method RecoverReactions()
      requires MeshIdsBelow(mesh, |Fr|) && |nodes| == |mesh|
      modifies this`nodes, this`nrhs
      ensures |nodes| == |old(nodes)|
      ensures forall i :: 0 <= i < |nodes| ==> nodes[i] == old(nodes[i]).(fr := NodeReaction(mesh[i], Fr))
      ensures nrhs == old(nrhs) + 1
    {
      nodes := Reactions(mesh, nodes, Fr);
      nrhs := nrhs + 1;
    }

    /** After the stiffness assembly, the diagonal of every prescribed
        rigid-body equation is set to one; no other entry changes. */
    method SetRigidDiagonals(K: SparseMatrix, rbs: seq<seq<int>>)
      modifies K
      ensures DiagonalsSet(old(K.entries), K.entries, RigidPrescribed(rbs))
    {
      for b := 0 to |rbs|
        invariant DiagonalsSet(old(K.entries), K.entries, RigidPrescribed(rbs[..b]))
      {
        assert rbs[..b + 1][..b] == rbs[..b];
        ghost var mid := K.entries;
        K.SetPrescribedDiagonals(rbs[b]);
        DiagonalsCompose(old(K.entries), mid, K.entries, RigidPrescribed(rbs[..b]), PrescribedSlots(rbs[b]));
      }
      assert rbs[..|rbs|] == rbs;
    }

    /** Writes the solved pressures to the nodes, then lets the active
        prescribed pressure conditions overwrite them, in order. */
    method UpdatePoro(ui: seq<real>, bcs: seq<PrescribedBC>, lc: nat -> real)
      requires MeshIdsBelow(mesh, neq) && |nodes| == |mesh| && |Ut| == neq && |Ui| == neq && |ui| == neq
      requires forall k :: 0 <= k < |bcs| ==> bcs[k].node < |nodes|
      modifies this`nodes
      ensures |nodes| == |old(nodes)|
      ensures forall i :: 0 <= i < |nodes| ==>
                nodes[i] == old(nodes[i]).(pt := Enforce(bcs, i, P, lc, FreePressure(mesh[i], old(nodes[i]), Ut, Ui, ui)))
    {
      var solved := SolvePressures(mesh, nodes, Ut, Ui, ui);
      nodes := PrescribePressures(solved, bcs, lc);
    }

    /** Writes the solved concentrations to the nodes, raising negative
        ones to zero, then lets the active prescribed concentration
        conditions overwrite them, in order. */
    method UpdateSolute(ui: seq<real>, bcs: seq<PrescribedBC>, lc: nat -> real)
      requires WellFormed(mesh, ncdofs, neq) && Stored(nodes, mesh, ncdofs) && |Ut| == neq && |Ui| == neq && |ui| == neq
      requires forall k :: 0 <= k < |bcs| ==> bcs[k].node < |nodes|
      modifies this`nodes
      ensures Stored(nodes, mesh, ncdofs)
      ensures forall i :: 0 <= i < |nodes| ==> nodes[i].pt == old(nodes[i]).pt && nodes[i].fr == old(nodes[i]).fr
      ensures forall i, j :: 0 <= i < |nodes| && 0 <= j < ncdofs ==>
                nodes[i].ct[j] == Enforce(bcs, i, C(j), lc, FreeConcentration(mesh[i], old(nodes[i]), j, Ut, Ui, ui))
    {
      var solved := SolveAll(mesh, nodes, ncdofs, Ut, Ui, ui);
      nodes := PrescribeAll(solved, ncdofs, bcs, lc);
    }

    /** Before the first iteration of a step the per-field totals are
        zeroed; those of species without equations are left alone. */
    method PrepStep()
      requires Valid()
      modifies this`Di, this`Pi, this`Ci
      ensures Valid()
      ensures Di == Zeros(ndeq) && Pi == Zeros(npeq)
      ensures forall j :: 0 <= j < ncdofs ==> Ci[j] == (if nceq[j] != 0 then Zeros(nceq[j]) else old(Ci[j]))
    {
      Ci := ZeroTotals(Ci, nceq);
      Pi := Zeros(|Pi|);
      Di := Zeros(|Di|);
    }

    /** A stiffness reformation; its success is decided outside the model.
        Every reformation is counted. */
    method ReformStiffness(ok: bool) returns (r: bool)
      modifies this`nref
      ensures nref == old(nref) + 1 && r == ok
    {
      nref := nref + 1;
      r := ok;
    }

    /** The convergence tests of one iteration, each clearing the flag when
        it is enabled and fails. */
    method CheckConvergence(n: Norms, r: Reference, s: real) returns (bconv: bool)
      requires |n.c| == |nceq| && |n.C| == |nceq|
      ensures bconv == Converged(tol, n, r, s, nceq)
    {
      bconv := true;
      if tol.Rtol > 0.0 && n.R1 > tol.Rtol * r.Ri { bconv := false; }
      if tol.Dtol > 0.0 && n.d > (tol.Dtol * tol.Dtol) * n.D { bconv := false; }
      if tol.Etol > 0.0 && n.E1 > tol.Etol * r.Ei { bconv := false; }
      if tol.LStol > 0.0 && s < tol.LSmin { bconv := false; }
      if n.E1 > r.Em { bconv := false; }
      if tol.Ptol > 0.0 && n.p > (tol.Ptol * tol.Ptol) * n.P { bconv := false; }
      ghost var others := bconv;
      if tol.Ctol > 0.0 {
        for j := 0 to |nceq|
          invariant bconv == (others && forall q :: 0 <= q < j && nceq[q] != 0 ==> n.c[q] <= (tol.Ctol * tol.Ctol) * n.C[q])
        {
          if nceq[j] != 0 { bconv := bconv && n.c[j] <= (tol.Ctol * tol.Ctol) * n.C[j]; }
        }
      }
    }

    /** The displacement part of the split: the displacement sub-vector
        of the increment ui, s times it added to the displacement total,
        and the squared norms of the scaled sub-vector and of the total. */
    method SplitDisplacement(s: real) returns (nd: real, nD: real)
      requires Valid()
      modifies this`di, this`Di
      ensures Valid()
      ensures FieldSplit(FieldIds(mesh, Displacement), ui, s, old(Di), di, Di, nd, nD)
    {
      FieldIdsBelow(mesh, Displacement, neq);
      FieldCountIsCount(mesh, Displacement);
      var d, D;
      d, D, nd, nD := SplitField(FieldIds(mesh, Displacement), di, Di, ui, s);
      di, Di := d, D;
    }

    /** The pressure part of the split, in the same way. */
    method SplitPressure(s: real) returns (np: real, nP: real)
      requires Valid()
      modifies this`pi, this`Pi
      ensures Valid()
      ensures FieldSplit(FieldIds(mesh, Pressure), ui, s, old(Pi), pi, Pi, np, nP)
    {
      FieldIdsBelow(mesh, Pressure, neq);
      FieldCountIsCount(mesh, Pressure);
      var p, P;
      p, P, np, nP := SplitField(FieldIds(mesh, Pressure), pi, Pi, ui, s);
      pi, Pi := p, P;
    }

    /** The solute part of the split: species by species in the same way;
        species without equations are skipped. */
    method SplitSpecies(s: real) returns (nc: seq<real>, nC: seq<real>)
      requires Valid()
      modifies this`ci, this`Ci
      ensures Valid()
      ensures |nc| == ncdofs && |nC| == ncdofs
      ensures forall j :: 0 <= j < ncdofs && nceq[j] != 0 ==>
                FieldSplit(SoluteIds(mesh, ncdofs)[j], ui, s, old(Ci[j]), ci[j], Ci[j], nc[j], nC[j])
      ensures forall j :: 0 <= j < ncdofs && nceq[j] == 0 ==>
                ci[j] == old(ci[j]) && Ci[j] == old(Ci[j]) && nc[j] == 0.0 && nC[j] == 0.0
    {
      var sids := SoluteIds(mesh, ncdofs);
      forall j | 0 <= j < ncdofs
        ensures SlotsBelow(sids[j], |ui|) && nceq[j] == CountEquations(sids[j])
      {
        FieldIdsBelow(mesh, Concentration(j), neq);
        FieldCountIsCount(mesh, Concentration(j));
      }
      var c, C;
      c, C, nc, nC := SplitSolutes(sids, nceq, ci, Ci, ui, s);
      ci, Ci := c, C;
    }

    /** The start of an iteration: the solved increment and the residual at
        the updated configuration are taken from outside the model, the step
        is the line search's when it is on, and s times the increment is
        added to the step's total increment. */
    method Advance(obs: Observation) returns (s: real)
      requires Valid() && |obs.ui| == neq && |obs.R1| == neq
      modifies this`ui, this`R1, this`Ui
      ensures Valid()
      ensures ui == obs.ui && R1 == obs.R1 && s == LineStep(tol, obs.lsStep)
      ensures Ui == Axpy(old(Ui), s, obs.ui)
    {
      s := LineStep(tol, obs.lsStep);
      var U := AddScaled(Ui, s, obs.ui);
      ui, R1, Ui := obs.ui, obs.R1, U;
    }

    /** An iteration that has not converged: the policy decides between
        declaring convergence, reforming and a secant update; a diverging
        iteration takes its norms as the new reference. The increment is
        zeroed, a needed reformation runs, and unless it fails, stopping the
        iteration, the last residual becomes the one to solve next. */
    method Respond(n: Norms, r: Reference, s: real, obs: Observation)
      returns (bconv: bool, stop: bool, next: Reference)
      requires Valid() && |n.c| == ncdofs && |r.Ci| == ncdofs
      modifies this`ui, this`nref, this`R0
      ensures Valid()
      ensures bconv == (Decide(tol, n, r, s, obs.nups, obs.bfgsOk) == NoForce)
      ensures next == if Decide(tol, n, r, s, obs.nups, obs.bfgsOk) == Diverging then ResetReference(n, nceq, r) else r
      ensures ui == Zeros(neq)
      ensures nref == old(nref) + if Reforms(Decide(tol, n, r, s, obs.nups, obs.bfgsOk)) then 1 else 0
      ensures stop == (Reforms(Decide(tol, n, r, s, obs.nups, obs.bfgsOk)) && !obs.reformOk)
      ensures R0 == if stop then old(R0) else R1
    {
      var a := Decide(tol, n, r, s, obs.nups, obs.bfgsOk);
      bconv := a == NoForce;
      next := if a == Diverging then ResetReference(n, nceq, r) else r;
      ui := Zeros(neq);
      stop := false;
      if Reforms(a) {
        var ok := ReformStiffness(obs.reformOk);
        if !ok {
          stop := true;
          return;
        }
      }
      R0 := R1;
    }

    /** A converged iteration of a step with augmentations: they run and
        decide convergence, are counted, and reset the reformation count.
        When they have not converged the residual is recomputed, and full
        Newton reforms the stiffness; a failed reformation stops the
        iteration. */
    method AugmentStep(obs: Observation) returns (bconv: bool, stop: bool)
      requires Valid() && |obs.R0aug| == neq
      modifies this`naug, this`nref, this`R0
      ensures Valid()
      ensures bconv == obs.augmentOk && naug == old(naug) + 1
      ensures R0 == if bconv then old(R0) else obs.R0aug
      ensures nref == if !bconv && tol.maxups == 0 then 1 else 0
      ensures stop == (!bconv && tol.maxups == 0 && !obs.reformOk)
    {
      bconv := obs.augmentOk;
      naug, nref := naug + 1, 0;
      stop := false;
      if !bconv {
        R0 := obs.R0aug;
        if tol.maxups == 0 {
          var ok := ReformStiffness(obs.reformOk);
          stop := !ok;
        }
      }
    }

    /** What the computations outside the model return in one iteration
        has the sizes of the equation system. */
    predicate Observed(obs: Observation)
    {
      |obs.ui| == neq && |obs.R1| == neq && |obs.R0aug| == neq
    }

    /** A state between iterations has the sizes of the equation system. */
    predicate Sized(p: Progress)
    {
      |p.Ui| == neq && |p.R0| == neq && |p.ref.Ci| == ncdofs
    }

    /** The norms of an iteration whose line step s took the step's
        increment to U, with the field totals counted from U0: the residual
        and energy of the observed solve, and per field the squared norms of
        s times its sub-vector and of what it has gained since U0. */
    ghost function StepNorms(U0: seq<real>, U: seq<real>, obs: Observation, s: real): (n: Norms)
      requires Numbered() && |U0| == neq && |U| == neq && Observed(obs)
      ensures |n.c| == ncdofs && |n.C| == ncdofs
    {
      FieldIdsBelow(mesh, Displacement, neq);
      FieldIdsBelow(mesh, Pressure, neq);
      SoluteIdsBelow(mesh, ncdofs, neq);
      var D, P, S := FieldIds(mesh, Displacement), FieldIds(mesh, Pressure), SoluteIds(mesh, ncdofs);
      var GD, GP := Gained(D, U0, U), Gained(P, U0, U);
      Norms(Dot(obs.R1, obs.R1), EnergyNorm(obs.ui, obs.R1, s),
            StepNorm(Gather(D, obs.ui), s), Dot(GD, GD), StepNorm(Gather(P, obs.ui), s), Dot(GP, GP),
            SoluteSteps(S, nceq, obs.ui, s), SoluteTotals(S, nceq, U0, U))
    }

    /** The reference norms of an iteration: in the step's first iteration
        those of the residual R0 and of the first solve, afterwards the ones
        carried over. */
    ghost function StepReference(R0: seq<real>, niter: nat, ref: Reference, obs: Observation): (r: Reference)
      requires Numbered() && |R0| == neq && Observed(obs) && |ref.Ci| == ncdofs
      ensures |r.Ci| == ncdofs
      ensures niter != 0 ==> r == ref
    {
      FieldIdsBelow(mesh, Displacement, neq);
      FieldIdsBelow(mesh, Pressure, neq);
      SoluteIdsBelow(mesh, ncdofs, neq);
      var D, P, S := FieldIds(mesh, Displacement), FieldIds(mesh, Pressure), SoluteIds(mesh, ncdofs);
      if niter == 0 then InitialReference(R0, obs.ui, Gather(D, obs.ui), Gather(P, obs.ui), SoluteParts(S, obs.ui), nceq, ref)
      else ref
    }

    /** The deciding half of an iteration whose state p already holds the
        increment after the line step s and the reference norms for the
        norms n. A converged iteration ends the step unless augmentations
        run and do not converge; an unconverged one follows the reformation
        policy. A failed reformation stops the step without counting the
        iteration. */
    ghost function ConcludeOf(p: Progress, n: Norms, s: real, obs: Observation): (o: Outcome)
      requires |n.c| == ncdofs && |n.C| == ncdofs && |p.ref.Ci| == ncdofs && Numbered()
      ensures o.p.Ui == p.Ui && (o.stop ==> !o.bconv) && (o.stop ==> !obs.reformOk)
      ensures o.p.niter == p.niter + if o.stop then 0 else 1
      ensures Sized(p) && Observed(obs) ==> Sized(o.p)
    {
      var r := p.ref;
      if Converged(tol, n, r, s, nceq) then
        if !baugment then Outcome(true, false, p.(niter := p.niter + 1))
        else
          var ok := obs.augmentOk;
          var stop := !ok && tol.maxups == 0 && !obs.reformOk;
          Outcome(ok, stop, p.(R0 := if ok then p.R0 else obs.R0aug, niter := if stop then p.niter else p.niter + 1,
                               nref := if !ok && tol.maxups == 0 then 1 else 0, naug := p.naug + 1))
      else
        var a := Decide(tol, n, r, s, obs.nups, obs.bfgsOk);
        var stop := Reforms(a) && !obs.reformOk;
        Outcome(a == NoForce, stop, p.(R0 := if stop then p.R0 else obs.R1,
                                       ref := if a == Diverging then ResetReference(n, nceq, r) else r,
                                       niter := if stop then p.niter else p.niter + 1,
                                       nref := p.nref + (if Reforms(a) then 1 else 0)))
    }

    /** One iteration from the state p, with the field totals counted from
        U0: the line step, the norms and the reference of the measuring
        half, then the deciding half. */
    ghost function IterationOf(U0: seq<real>, p: Progress, obs: Observation): (o: Outcome)
      requires Numbered() && |U0| == neq && Sized(p) && Observed(obs)
      ensures Sized(o.p) && (o.stop ==> !o.bconv)
      ensures o.p.Ui == Axpy(p.Ui, LineStep(tol, obs.lsStep), obs.ui)
      ensures o.p.niter == p.niter + if o.stop then 0 else 1
      ensures o.stop ==> !obs.reformOk
    {
      var s := LineStep(tol, obs.lsStep);
      var U := Axpy(p.Ui, s, obs.ui);
      ConcludeOf(p.(Ui := U, ref := StepReference(p.R0, p.niter, p.ref, obs)), StepNorms(U0, U, obs, s), s, obs)
    }

    /** The iterations of a step over the observations in trace, from the
        state p: they run until one converges or a reformation fails, and
        running out of observations leaves the step unconverged. Every
        iteration that is not stopped is counted, so an unconverged run with
        observations left over was stopped by a failed reformation. */
    ghost function Run(U0: seq<real>, p: Progress, trace: seq<Observation>): (o: Outcome)
      requires Numbered() && |U0| == neq && Sized(p) && forall k :: 0 <= k < |trace| ==> Observed(trace[k])
      ensures Sized(o.p) && (o.stop ==> !o.bconv)
      ensures p.niter <= o.p.niter <= p.niter + |trace|
      ensures !o.bconv && !o.stop ==> o.p.niter == p.niter + |trace|
      ensures o.stop ==> o.p.niter < p.niter + |trace|
      ensures o.bconv ==> p.niter < o.p.niter
      decreases |trace|
    {
      if trace == [] then Outcome(false, false, p)
      else
        var o := IterationOf(U0, p, trace[0]);
        if o.bconv || o.stop then o else Run(U0, o.p, trace[1..])
    }

    /** The run over the observations from k on is the k-th iteration,
        followed, unless it ends the step, by the run over the rest. */
    lemma RunFrom(U0: seq<real>, p: Progress, trace: seq<Observation>, k: nat)
      requires Numbered() && |U0| == neq && Sized(p) && forall q :: 0 <= q < |trace| ==> Observed(trace[q])
      requires k < |trace|
      ensures var o := IterationOf(U0, p, trace[k]);
              Run(U0, p, trace[k..]) == if o.bconv || o.stop then o else Run(U0, o.p, trace[k + 1..])
    {
      assert trace[k..][0] == trace[k];
      assert trace[k..][1..] == trace[k + 1..];
    }

    /** A step whose reformations all succeed is never stopped: it either
        converges or runs through every observation. */
    lemma {:induction false} RunWithoutFailures(U0: seq<real>, p: Progress, trace: seq<Observation>)
      requires Numbered() && |U0| == neq && Sized(p) && forall k :: 0 <= k < |trace| ==> Observed(trace[k])
      requires forall k :: 0 <= k < |trace| ==> trace[k].reformOk
      ensures !Run(U0, p, trace).stop
      ensures !Run(U0, p, trace).bconv ==> Run(U0, p, trace).p.niter == p.niter + |trace|
      decreases |trace|
    {
      if trace != [] {
        var o := IterationOf(U0, p, trace[0]);
        if !(o.bconv || o.stop) {
          RunWithoutFailures(U0, o.p, trace[1..]);
        }
      }
    }

    /** The measuring half of an iteration: the increment is added to the
        totals field by field and the norms are taken; the first iteration
        takes its reference norms from the first solve. The totals keep
        tracking the increment since U0, and the norms and the reference are
        those of the iteration's specification. */
    method Measure(obs: Observation, ref: Reference, ghost U0: seq<real>) returns (s: real, n: Norms, r: Reference)
      requires Valid() && TracksSince(U0) && Observed(obs) && |ref.Ci| == ncdofs
      modifies this`ui, this`R1, this`Ui, this`di, this`Di, this`pi, this`Pi, this`ci, this`Ci
      ensures Valid() && TracksSince(U0)
      ensures s == LineStep(tol, obs.lsStep) && ui == obs.ui && R1 == obs.R1 && Ui == Axpy(old(Ui), s, obs.ui)
      ensures FieldSplit(FieldIds(mesh, Displacement), ui, s, old(Di), di, Di, n.d, n.D)
      ensures FieldSplit(FieldIds(mesh, Pressure), ui, s, old(Pi), pi, Pi, n.p, n.P)
      ensures |n.c| == ncdofs && |n.C| == ncdofs
      ensures forall j :: 0 <= j < ncdofs && nceq[j] != 0 ==>
                FieldSplit(SoluteIds(mesh, ncdofs)[j], ui, s, old(Ci[j]), ci[j], Ci[j], n.c[j], n.C[j])
      ensures forall j :: 0 <= j < ncdofs && nceq[j] == 0 ==> ci[j] == old(ci[j]) && Ci[j] == old(Ci[j])
      ensures n.R1 == Dot(R1, R1) && n.E1 == EnergyNorm(ui, R1, s)
      ensures r == if niter == 0 then InitialReference(R0, ui, di, pi, ci, nceq, ref) else ref
      ensures n == StepNorms(U0, Ui, obs, s) && r == StepReference(R0, niter, ref, obs)
    {
      ghost var (U, D, P, C) := (Ui, Di, Pi, Ci);
      s := Advance(obs);
      var nd, nD := SplitDisplacement(s);
      var np, nP := SplitPressure(s);
      var nc, nC := SplitSpecies(s);
      r := if niter == 0 then InitialReference(R0, ui, di, pi, ci, nceq, ref) else ref;
      n := Norms(Dot(R1, R1), EnergyNorm(ui, R1, s), nd, nD, np, nP, nc, nC);
      SplitGained(FieldIds(mesh, Displacement), U0, U, D, ui, s, di, Di, nd, nD);
      SplitGained(FieldIds(mesh, Pressure), U0, U, P, ui, s, pi, Pi, np, nP);
      SolutesGained(SoluteIds(mesh, ncdofs), nceq, U0, U, ui, s, C, ci, Ci, nc, nC);
    }

    /** The deciding half of an iteration. A converged iteration runs the
        augmentations when the step has them; one that has not converged
        follows the reformation policy. The iteration counter advances
        unless a failed reformation stops the loop. */
    method Conclude(n: Norms, r: Reference, s: real, obs: Observation) returns (bconv: bool, stop: bool, next: Reference)
      requires Valid() && |n.c| == ncdofs && |n.C| == ncdofs && |r.Ci| == ncdofs && |obs.R0aug| == neq
      requires R1 == obs.R1
      modifies this`ui, this`nref, this`naug, this`R0, this`niter
      ensures Valid()
      ensures Converged(tol, n, r, s, nceq) && !baugment ==>
                bconv && !stop && next == r && ui == old(ui) && R0 == old(R0) && nref == old(nref) && naug == old(naug)
      ensures Converged(tol, n, r, s, nceq) && baugment ==>
                && next == r && ui == old(ui) && bconv == obs.augmentOk && naug == old(naug) + 1
                && R0 == (if bconv then old(R0) else obs.R0aug)
                && nref == (if !bconv && tol.maxups == 0 then 1 else 0)
                && stop == (!bconv && tol.maxups == 0 && !obs.reformOk)
      ensures !Converged(tol, n, r, s, nceq) ==>
                var a := Decide(tol, n, r, s, obs.nups, obs.bfgsOk);
                && bconv == (a == NoForce) && naug == old(naug) && ui == Zeros(neq)
                && next == (if a == Diverging then ResetReference(n, nceq, r) else r)
                && nref == old(nref) + (if Reforms(a) then 1 else 0)
                && stop == (Reforms(a) && !obs.reformOk)
                && R0 == (if stop then old(R0) else R1)
      ensures stop ==> !bconv
      ensures niter == old(niter) + if stop then 0 else 1
      ensures Outcome(bconv, stop, Progress(Ui, R0, next, niter, nref, naug))
              == ConcludeOf(Progress(Ui, old(R0), r, old(niter), old(nref), old(naug)), n, s, obs)
    {
      bconv := CheckConvergence(n, r, s);
      stop, next := false, r;
      if !bconv {
        bconv, stop, next := Respond(n, r, s, obs);
      } else if baugment {
        bconv, stop := AugmentStep(obs);
      }
      if !stop {
        niter := niter + 1;
      }
    }

    /** Every field total is the sub-vector of what the step's total
        increment has gained since it was U0. */
    ghost predicate TracksSince(U0: seq<real>)
      reads this`Ui, this`Di, this`Pi, this`Ci
    {
      && Tracks(FieldIds(mesh, Displacement), U0, Ui, Di)
      && Tracks(FieldIds(mesh, Pressure), U0, Ui, Pi)
      && |Ci| == ncdofs
      && forall j :: 0 <= j < ncdofs ==> Tracks(SoluteIds(mesh, ncdofs)[j], U0, Ui, Ci[j])
    }

    /** The start of a time step: the totals are zeroed (so they track the
        increment from where it stands), the stiffness is reformed and the
        first residual, to which the prescribed-displacement adjustment is
        added, is evaluated outside the model. Either of the last two may
        fail. */
    method Begin(reformOk: bool, residualOk: bool, Rstart: seq<real>) returns (ok: bool)
      requires Valid() && |Rstart| == neq
      modifies this`Di, this`Pi, this`Ci, this`nref, this`R0
      ensures Valid() && TracksSince(Ui)
      ensures Di == Zeros(ndeq) && Pi == Zeros(npeq)
      ensures forall j :: 0 <= j < ncdofs ==> Ci[j] == (if nceq[j] != 0 then Zeros(nceq[j]) else old(Ci[j]))
      ensures nref == old(nref) + 1 && ok == (reformOk && residualOk)
      ensures R0 == if ok then Axpy(Rstart, 1.0, Fd) else old(R0)
    {
      PrepStep();
      ZeroTotalsTrack(mesh, neq, ncdofs, ndeq, npeq, nceq, Ui, Ci);
      ok := ReformStiffness(reformOk);
      if ok && residualOk {
        R0 := AddScaled(Rstart, 1.0, Fd);
      }
      ok := ok && residualOk;
    }

    /** One iteration: measuring, then deciding. The field totals keep
        tracking the increment. */
    method Iterate(obs: Observation, ref: Reference, ghost U0: seq<real>) returns (bconv: bool, stop: bool, next: Reference)
      requires Valid() && TracksSince(U0) && Observed(obs) && |ref.Ci| == ncdofs
      modifies this`ui, this`R1, this`Ui, this`di, this`Di, this`pi, this`Pi, this`ci, this`Ci
      modifies this`nref, this`naug, this`R0, this`niter
      ensures Valid() && TracksSince(U0)
      ensures Ui == Axpy(old(Ui), LineStep(tol, obs.lsStep), obs.ui)
      ensures |next.Ci| == ncdofs && (stop ==> !bconv)
      ensures Outcome(bconv, stop, Progress(Ui, R0, next, niter, nref, naug))
              == IterationOf(U0, Progress(old(Ui), old(R0), ref, old(niter), old(nref), old(naug)), obs)
    {
      var s, n, r := Measure(obs, ref, U0);
      bconv, stop, next := Conclude(n, r, s, obs);
    }

    /** The state the iterations of a step start from, once the start of
        the step has succeeded. */
    ghost function StartOf(U: seq<real>, Rstart: seq<real>, nref: nat, naug: nat): (p: Progress)
      requires |U| == neq && |Rstart| == neq && |Fd| == neq
      reads this`Fd
      ensures Sized(p) && p.niter == 0
    {
      Progress(U, Axpy(Rstart, 1.0, Fd), Reference(0.0, 0.0, 0.0, 0.0, 0.0, Zeros(ncdofs)), 0, nref + 1, naug)
    }

    /** The iterations of a time step over the observations in trace, run
        until one converges or a reformation fails. The field totals keep
        tracking the increment since U0, and the outcome is the run's. */
    method Iterations(trace: seq<Observation>, ghost U0: seq<real>) returns (bconv: bool)
      requires Valid() && TracksSince(U0) && forall k :: 0 <= k < |trace| ==> Observed(trace[k])
      modifies this`ui, this`R1, this`Ui, this`di, this`Di, this`pi, this`Pi, this`ci, this`Ci
      modifies this`R0, this`nref, this`naug, this`niter
      ensures Valid() && TracksSince(U0)
      ensures trace == [] ==> Ui == old(Ui)
      ensures var o := Run(U0, Progress(old(Ui), old(R0), Reference(0.0, 0.0, 0.0, 0.0, 0.0, Zeros(ncdofs)),
                                        old(niter), old(nref), old(naug)), trace);
              && bconv == o.bconv && Ui == o.p.Ui && R0 == o.p.R0
              && niter == o.p.niter && nref == o.p.nref && naug == o.p.naug
    {
      bconv := false;
      var ref := Reference(0.0, 0.0, 0.0, 0.0, 0.0, Zeros(ncdofs));
      ghost var o := Run(U0, Progress(Ui, R0, ref, niter, nref, naug), trace);
      var k := 0;
      while k < |trace|
        invariant Valid() && TracksSince(U0) && !bconv
        invariant |ref.Ci| == ncdofs && k <= |trace| && (k == 0 ==> Ui == old(Ui))
        invariant Run(U0, Progress(Ui, R0, ref, niter, nref, naug), trace[k..]) == o
        decreases |trace| - k
      {
        RunFrom(U0, Progress(Ui, R0, ref, niter, nref, naug), trace, k);
        var stop;
        bconv, stop, ref := Iterate(trace[k], ref, U0);
        if bconv || stop {
          return;
        }
        k := k + 1;
      }
    }

    /** A converged step adds its increment to the total solution. */
    method Commit()
      requires Valid()
      modifies this`Ut
      ensures Valid() && Ut == Axpy(old(Ut), 1.0, Ui)
    {
      Ut := AddScaled(Ut, 1.0, Ui);
    }

    /** The quasi-Newton solution of one time step. After the start of the
        step, iterations run until one converges or a reformation fails;
        the outcomes of the iterations come from outside the model, and
        running out of them leaves the step unconverged. Only a converged
        step adds its increment to the total solution. Every field total
        ends as the sub-vector of the increment the step accumulated. The
        iteration counter is expected to be zero at the start of the step. */
    method Quasin(reformOk: bool, residualOk: bool, Rstart: seq<real>, trace: seq<Observation>) returns (bconv: bool)
      requires Valid() && |Rstart| == neq && niter == 0
      requires forall k :: 0 <= k < |trace| ==> Observed(trace[k])
      modifies this`Ut, this`ui, this`R1, this`Ui, this`di, this`Di, this`pi, this`Pi, this`ci, this`Ci
      modifies this`R0, this`nref, this`naug, this`niter
      ensures Valid() && TracksSince(old(Ui))
      ensures bconv ==> Ut == Axpy(old(Ut), 1.0, Ui)
      ensures !bconv ==> Ut == old(Ut)
      ensures !reformOk || !residualOk || trace == [] ==> !bconv && Ui == old(Ui)
      ensures !(reformOk && residualOk) ==> nref == old(nref) + 1 && niter == 0 && naug == old(naug)
      ensures reformOk && residualOk ==>
                var o := Run(old(Ui), StartOf(old(Ui), Rstart, old(nref), old(naug)), trace);
                && bconv == o.bconv && Ui == o.p.Ui && R0 == o.p.R0
                && niter == o.p.niter && nref == o.p.nref && naug == o.p.naug
    {
      bconv := false;
      var ok := Begin(reformOk, residualOk, Rstart);
      if !ok {
        return;
      }
      assert Progress(Ui, R0, Reference(0.0, 0.0, 0.0, 0.0, 0.0, Zeros(ncdofs)), niter, nref, naug)
             == StartOf(old(Ui), Rstart, old(nref), old(naug));
      bconv := Iterations(trace, old(Ui));
      if bconv {
        Commit();
      }
    }
  }
}
