/** The decision rules of the quasi-Newton (BFGS) equilibrium iteration of
    the multiphasic solver: vector arithmetic on increments, the relative
    convergence tests and the reformation policy. The iteration itself, with
    its state, is the class MultiphasicSolver.MultiphasicSolver. */
module QuasiNewton {

  function Abs(x: real): real { if x < 0.0 then -x else x }

  function Zeros(n: nat): (v: seq<real>)
    ensures |v| == n && forall i :: 0 <= i < n ==> v[i] == 0.0
  {
    seq(n, i => 0.0)
  }

  /** v + s*w, component by component. */
  function Axpy(v: seq<real>, s: real, w: seq<real>): (r: seq<real>)
    requires |v| == |w|
    ensures |r| == |v| && forall i :: 0 <= i < |v| ==> r[i] == v[i] + s * w[i]
  {
    seq(|v|, i requires 0 <= i < |v| => v[i] + s * w[i])
  }

  lemma AxpyAppend(a: seq<real>, b: seq<real>, s: real, c: seq<real>, d: seq<real>)
    requires |a| == |c| && |b| == |d|
    ensures Axpy(a + b, s, c + d) == Axpy(a, s, c) + Axpy(b, s, d)
  {
    var l, r := Axpy(a + b, s, c + d), Axpy(a, s, c) + Axpy(b, s, d);
    forall i | 0 <= i < |l|
      ensures l[i] == r[i]
    {
      if i >= |a| {
        assert (a + b)[i] == b[i - |a|] && (c + d)[i] == d[i - |a|];
      } else {
        assert (a + b)[i] == a[i] && (c + d)[i] == c[i];
      }
    }
  }

  /** Adding s*w and then the result once is adding w's multiple to the
      summand first: (a + 1*b) + s*c == a + 1*(b + s*c). */
  lemma AxpyRegroup(a: seq<real>, b: seq<real>, s: real, c: seq<real>)
    requires |a| == |b| == |c|
    ensures Axpy(Axpy(a, 1.0, b), s, c) == Axpy(a, 1.0, Axpy(b, s, c))
  {
  }

  /** Adding a zero vector changes nothing. */
  lemma AxpyZeros(a: seq<real>)
    ensures Axpy(a, 1.0, Zeros(|a|)) == a
  {
  }

  /** The inner product a*b of two vectors. */
  function Dot(a: seq<real>, b: seq<real>): real
    requires |a| == |b|
  {
    if a == [] then 0.0 else Dot(a[..|a| - 1], b[..|b| - 1]) + a[|a| - 1] * b[|b| - 1]
  }

  /** The squared norm of the scaled increment s*v, written as the squared
      norm of v times s squared. */
  function StepNorm(v: seq<real>, s: real): real
  {
    Dot(v, v) * (s * s)
  }

  /** The energy norm of a step s along the increment ui against the
      residual R: s times the magnitude of ui*R. */
  function EnergyNorm(ui: seq<real>, R: seq<real>, s: real): real
    requires |ui| == |R|
  {
    s * Abs(Dot(ui, R))
  }

  /** A squared norm is never negative. */
  lemma {:induction false} DotSelfNonNegative(a: seq<real>)
    ensures Dot(a, a) >= 0.0
  {
    if a != [] {
      DotSelfNonNegative(a[..|a| - 1]);
      var x := a[|a| - 1];
      assert x * x >= 0.0;
    }
  }

  /** Computes v + s*w with an index loop, as the accumulations do. */
  method AddScaled(v: seq<real>, s: real, w: seq<real>) returns (r: seq<real>)
    requires |v| == |w|
    ensures r == Axpy(v, s, w)
  {
    r := v;
    var i := 0;
    while i < |v|
      invariant 0 <= i <= |v| && |r| == |v|
      invariant forall k :: 0 <= k < i ==> r[k] == v[k] + s * w[k]
      invariant forall k :: i <= k < |v| ==> r[k] == v[k]
    {
      r := r[i := r[i] + s * w[i]];
      i := i + 1;
    }
    assert r == Axpy(v, s, w);
  }

  /** Computes a*b with an accumulator loop. */
  method InnerProduct(a: seq<real>, b: seq<real>) returns (d: real)
    requires |a| == |b|
    ensures d == Dot(a, b)
  {
    d := 0.0;
    var i := 0;
    while i < |a|
      invariant 0 <= i <= |a|
      invariant d == Dot(a[..i], b[..i])
    {
      assert a[..i + 1][..i] == a[..i] && b[..i + 1][..i] == b[..i];
      d := d + a[i] * b[i];
      i := i + 1;
    }
    assert a[..i] == a && b[..i] == b;
  }

  /** The user's solver settings. A tolerance that is not positive switches
      its test off. */
  datatype Tolerances = Tolerances(
    Rtol: real, Dtol: real, Etol: real, Ptol: real, Ctol: real,
    Rmin: real, LStol: real, LSmin: real, maxups: int)

  /** The step of an iteration: the line search's when the line search is
      on (a positive LStol), the full step otherwise. */
  function LineStep(t: Tolerances, searched: real): real
  {
    if t.LStol > 0.0 then searched else 1.0
  }

  /** The norms measured after the line search of one iteration: residual,
      energy, displacement increment and total, pressure increment and
      total, and per solute species the concentration increment and total. */
  datatype Norms = Norms(R1: real, E1: real, d: real, D: real, p: real, P: real,
                         c: seq<real>, C: seq<real>)

  /** The reference norms of the relative tests, taken at the first
      iteration and replaced when the iteration diverges. Em is the energy
      bound of the divergence test. */
  datatype Reference = Reference(Ri: real, Ei: real, Em: real, Di: real, Pi: real, Ci: seq<real>)

  predicate ResidualPasses(t: Tolerances, n: Norms, r: Reference)
  { t.Rtol > 0.0 ==> n.R1 <= t.Rtol * r.Ri }

  predicate DisplacementPasses(t: Tolerances, n: Norms)
  { t.Dtol > 0.0 ==> n.d <= (t.Dtol * t.Dtol) * n.D }

  predicate EnergyPasses(t: Tolerances, n: Norms, r: Reference)
  { t.Etol > 0.0 ==> n.E1 <= t.Etol * r.Ei }

  predicate LineStepPasses(t: Tolerances, s: real)
  { t.LStol > 0.0 ==> s >= t.LSmin }

  /** The divergence test has no tolerance: it always applies. */
  predicate NotDiverging(n: Norms, r: Reference)
  { n.E1 <= r.Em }

  predicate PressurePasses(t: Tolerances, n: Norms)
  { t.Ptol > 0.0 ==> n.p <= (t.Ptol * t.Ptol) * n.P }

  /** Every solute species that has equations passes its test. */
  predicate SolutesPass(t: Tolerances, n: Norms, nceq: seq<nat>)
    requires |n.c| == |nceq| && |n.C| == |nceq|
  {
    t.Ctol > 0.0 ==>
      forall j :: 0 <= j < |nceq| && nceq[j] != 0 ==> n.c[j] <= (t.Ctol * t.Ctol) * n.C[j]
  }

  /** Convergence: every enabled test passes. */
  predicate Converged(t: Tolerances, n: Norms, r: Reference, s: real, nceq: seq<nat>)
    requires |n.c| == |nceq| && |n.C| == |nceq|
  {
    && ResidualPasses(t, n, r)
    && DisplacementPasses(t, n)
    && EnergyPasses(t, n, r)
    && LineStepPasses(t, s)
    && NotDiverging(n, r)
    && PressurePasses(t, n)
    && SolutesPass(t, n, nceq)
  }

  /** What an unconverged iteration does next. */
  datatype Action =
    | NoForce          // the residual is below the floor: declared converged
    | LineStepTooSmall // reform
    | Diverging        // reset the reference norms and reform
    | BfgsUpdated      // a successful secant update, no reformation
    | BfgsFailed       // the secant update failed: reform
    | BudgetExhausted  // no secant updates left: reform

  /** The policy of an unconverged iteration, tried in this order. */
  function Decide(t: Tolerances, n: Norms, r: Reference, s: real, nups: int, bfgsOk: bool): Action
  {
    if n.R1 < t.Rmin then NoForce
    else if s < t.LSmin then LineStepTooSmall
    else if n.E1 > r.Em then Diverging
    else if nups < t.maxups - 1 then (if bfgsOk then BfgsUpdated else BfgsFailed)
    else BudgetExhausted
  }

  predicate Reforms(a: Action)
  {
    a == LineStepTooSmall || a == Diverging || a == BfgsFailed || a == BudgetExhausted
  }

  /** Full Newton (maxups == 0) never attempts a secant update: every
      unconverged iteration that is not stopped by the residual floor, the
      line step or divergence reforms because the budget is exhausted. */
  lemma FullNewtonAlwaysReforms(t: Tolerances, n: Norms, r: Reference, s: real, nups: int, ok: bool)
    requires t.maxups == 0 && nups >= 0
    ensures Decide(t, n, r, s, nups, ok) != BfgsUpdated
    ensures Decide(t, n, r, s, nups, ok) != NoForce ==> Reforms(Decide(t, n, r, s, nups, ok))
  {
  }

  /** The reference norms after a diverging iteration: the current norms. */
  function ResetReference(n: Norms, nceq: seq<nat>, prev: Reference): (r: Reference)
    requires |n.c| == |nceq| && |prev.Ci| == |nceq|
    ensures r.Em == n.E1 && r.Ei == n.E1 && r.Ri == n.R1 && r.Di == n.d && r.Pi == n.p
    ensures |r.Ci| == |nceq|
    ensures forall j :: 0 <= j < |nceq| ==> r.Ci[j] == (if nceq[j] != 0 then n.c[j] else prev.Ci[j])
  {
    Reference(n.R1, n.E1, n.E1, n.d, n.p,
              seq(|nceq|, j requires 0 <= j < |nceq| => if nceq[j] != 0 then n.c[j] else prev.Ci[j]))
  }

  /** A diverging iteration resets the reference to its own norms. Judged
      against the reset reference, the same norms are no longer diverging:
      the policy moves on to the secant update, or to the exhausted budget. */
  lemma ResetEndsDivergence(t: Tolerances, n: Norms, r: Reference, s: real, nups: int, ok: bool, nceq: seq<nat>)
    requires |n.c| == |nceq| && |r.Ci| == |nceq|
    requires Decide(t, n, r, s, nups, ok) == Diverging
    ensures NotDiverging(n, ResetReference(n, nceq, r))
    ensures Decide(t, n, ResetReference(n, nceq, r), s, nups, ok)
            == if nups < t.maxups - 1 then (if ok then BfgsUpdated else BfgsFailed) else BudgetExhausted
  {
  }
}
