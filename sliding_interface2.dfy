/** The augmented-Lagrangian state of the biphasic sliding contact
    interface: per integration point of each contact surface a gap, a
    normal multiplier, a fluid-pressure multiplier, a pressure gap and the
    element of the opposite surface the point projects onto. Geometry (the
    projection search, normals, shape functions) and the recovery of nodal
    tractions are inputs. */
module SlidingInterface2 {
  import opened EquationIds
  import opened Wrappers
  import QuasiNewton

  /** The sum of a list of counts. */
  function Sum(s: seq<nat>): nat
  {
    if s == [] then 0 else Sum(s[..|s| - 1]) + s[|s| - 1]
  }

  lemma SumStep(s: seq<nat>, i: nat)
    requires i < |s|
    ensures Sum(s[..i + 1]) == Sum(s[..i]) + s[i]
  {
    assert s[..i + 1][..i] == s[..i];
  }

  /** A prefix never sums to more than the whole list. */
  lemma {:induction false} SumPrefixBound(s: seq<nat>, i: nat)
    requires i <= |s|
    ensures Sum(s[..i]) <= Sum(s)
  {
    if i < |s| {
      var n := |s| - 1;
      assert s[..n][..i] == s[..i];
      SumPrefixBound(s[..n], i);
      assert s[..n] == s[..|s| - 1];
    } else {
      assert s[..i] == s;
    }
  }

  /** The first integration point of each element comes right after those
      of the elements before it, and an element's points lie inside the
      surface's point arrays. */
  lemma OffsetsTile(points: seq<nat>, i: nat)
    requires i < |points|
    ensures Sum(points[..i]) + points[i] == Sum(points[..i + 1]) <= Sum(points)
  {
    SumStep(points, i);
    SumPrefixBound(points, i + 1);
  }

  /** Counts the integration points of the surface, element by element. */
  method CountPoints(points: seq<nat>) returns (nint: nat)
    ensures nint == Sum(points)
  {
    nint := 0;
    for i := 0 to |points|
      invariant nint == Sum(points[..i])
    {
      SumStep(points, i);
      nint := nint + points[i];
    }
    assert points[..|points|] == points;
  }

  /** The offset of each element's first integration point: the running
      count of the points of the elements before it. */
  method Offsets(points: seq<nat>) returns (nei: seq<nat>)
    ensures |nei| == |points| && forall i :: 0 <= i < |points| ==> nei[i] == Sum(points[..i])
  {
    nei := seq(|points|, i => 0);
    var nint := 0;
    for i := 0 to |points|
      invariant |nei| == |points| && nint == Sum(points[..i])
      invariant forall k :: 0 <= k < i ==> nei[k] == Sum(points[..k])
    {
      nei := nei[i := nint];
      SumStep(points, i);
      nint := nint + points[i];
    }
  }

  function NoProjections(n: nat): (v: seq<Option<nat>>)
    ensures |v| == n && forall i :: 0 <= i < n ==> v[i] == None
  {
    seq(n, i => None)
  }

  /** The Macaulay bracket <x>: x when positive, zero otherwise. */
  function Bracket(x: real): (r: real)
    ensures r >= 0.0 && (x > 0.0 ==> r == x) && (x <= 0.0 ==> r == 0.0)
  {
    if x > 0.0 then x else 0.0
  }

  /** The trial normal traction Lmd + eps*g of a point. */
  function Trial(Lmd: real, eps: real, g: real): real
  {
    Lmd + eps * g
  }

  /** The state of one integration point. pg is only kept in poroelastic
      analyses; elsewhere its slot reads as zero. */
  datatype Point = Point(gap: real, Lmd: real, Lmp: real, pg: real, pme: Option<nat>)

  /** What the geometry reports for one integration point: whether the ray
      still meets the element it was projected onto before, the element a
      new search finds (if any), the gap to the element finally used and
      the pressure difference across it. */
  datatype Probe = Probe(keeps: bool, found: Option<nat>, g: real, dp: real)

  /** The element a point is projected onto: the previous one when the ray
      still meets it, otherwise the result of a new search. */
  function Candidate(p: Point, pr: Probe): Option<nat>
  {
    if p.pme.Some? && pr.keeps then p.pme else pr.found
  }

  /** The projection rule of one point. A point with a candidate element
      stays in contact exactly when its trial traction is positive and its
      gap is within the search radius R, and then takes the new gap (and in
      poroelastic analyses the new pressure gap). Any other point loses its
      multiplier, gap and element, and in poroelastic analyses its pressure
      multiplier and pressure gap. */
  function ProjectPoint(p: Point, pr: Probe, eps: real, R: real, bporo: bool): (q: Point)
    ensures q.pme.Some? <==> Candidate(p, pr).Some? && Trial(p.Lmd, eps, pr.g) > 0.0 && pr.g <= R
    ensures q.pme.Some? ==> q == p.(gap := pr.g, pme := Candidate(p, pr), pg := if bporo then pr.dp else p.pg)
    ensures q.pme.None? ==> q.Lmd == 0.0 && q.gap == 0.0
    ensures q.pme.None? ==> q.Lmp == (if bporo then 0.0 else p.Lmp) && q.pg == (if bporo then 0.0 else p.pg)
  {
    var c := Candidate(p, pr);
    if c.Some? && Trial(p.Lmd, eps, pr.g) > 0.0 && pr.g <= R then
      p.(gap := pr.g, pme := c, pg := if bporo then pr.dp else p.pg)
    else
      p.(Lmd := 0.0, gap := 0.0, pme := None,
         Lmp := if bporo then 0.0 else p.Lmp, pg := if bporo then 0.0 else p.pg)
  }

  /** The n-th point of a set of point arrays. */
  function PointOf(gap: seq<real>, Lmd: seq<real>, Lmp: seq<real>, pg: seq<real>, pme: seq<Option<nat>>, n: nat): Point
    requires n < |gap| && n < |Lmd| && n < |Lmp| && n < |pme|
  {
    Point(gap[n], Lmd[n], Lmp[n], if n < |pg| then pg[n] else 0.0, pme[n])
  }

  /** The point arrays of a surface, all of one length; pg has that
      length too in poroelastic analyses. */
  predicate PointArrays(total: nat, gap: seq<real>, Lmd: seq<real>, Lmp: seq<real>, pg: seq<real>,
                        pme: seq<Option<nat>>, bporo: bool)
  {
    |gap| == total && |Lmd| == total && |Lmp| == total && |pme| == total && (bporo ==> |pg| == total)
  }

  /** The projection of the n-th point, written branch by branch. */
  method ProjectAt(gap: seq<real>, Lmd: seq<real>, Lmp: seq<real>, pg: seq<real>, pme: seq<Option<nat>>,
                   n: nat, pr: Probe, eps: real, R: real, bporo: bool)
    returns (gap': seq<real>, Lmd': seq<real>, Lmp': seq<real>, pg': seq<real>, pme': seq<Option<nat>>)
    requires PointArrays(|gap|, gap, Lmd, Lmp, pg, pme, bporo) && n < |gap|
    ensures PointArrays(|gap|, gap', Lmd', Lmp', pg', pme', bporo) && |pg'| == |pg|
    ensures PointOf(gap', Lmd', Lmp', pg', pme', n) == ProjectPoint(PointOf(gap, Lmd, Lmp, pg, pme, n), pr, eps, R, bporo)
    ensures forall m :: 0 <= m < |gap| && m != n ==> PointOf(gap', Lmd', Lmp', pg', pme', m) == PointOf(gap, Lmd, Lmp, pg, pme, m)
    ensures !bporo ==> pg' == pg
  {
    gap', Lmd', Lmp', pg', pme' := gap, Lmd, Lmp, pg, pme;
    var e := pme[n];
    if e.Some? && !pr.keeps {
      e := None;
    }
    if e == None {
      e := pr.found;
    }
    pme' := pme'[n := e];
    if e.Some? {
      if Trial(Lmd[n], eps, pr.g) > 0.0 && pr.g <= R {
        gap' := gap'[n := pr.g];
        if bporo {
          pg' := pg'[n := pr.dp];
        }
      } else {
        Lmd', gap', pme' := Lmd'[n := 0.0], gap'[n := 0.0], pme'[n := None];
        if bporo {
          Lmp', pg' := Lmp'[n := 0.0], pg'[n := 0.0];
        }
      }
    } else {
      Lmd', gap' := Lmd'[n := 0.0], gap'[n := 0.0];
      if bporo {
        Lmp', pg' := Lmp'[n := 0.0], pg'[n := 0.0];
      }
    }
  }

  /** The outcome of a projection pass: the arrays keep their lengths and
      every point has followed the projection rule with its own probe; pg
      is untouched outside poroelastic analyses. */
  ghost predicate Projected(total: nat, gap: seq<real>, Lmd: seq<real>, Lmp: seq<real>, pg: seq<real>, pme: seq<Option<nat>>,
                            gap': seq<real>, Lmd': seq<real>, Lmp': seq<real>, pg': seq<real>, pme': seq<Option<nat>>,
                            probes: seq<Probe>, eps: real, R: real, bporo: bool)
    requires PointArrays(total, gap, Lmd, Lmp, pg, pme, bporo) && |probes| == total
  {
    && PointArrays(total, gap', Lmd', Lmp', pg', pme', bporo) && |pg'| == |pg|
    && (forall n :: 0 <= n < total ==>
          PointOf(gap', Lmd', Lmp', pg', pme', n) == ProjectPoint(PointOf(gap, Lmd, Lmp, pg, pme, n), probes[n], eps, R, bporo))
    && (!bporo ==> pg' == pg)
  }

  /** The projection pass over a surface: element by element, point by
      point, with a running point index. Every point follows the
      projection rule with its own probe. */
  method ProjectPoints(points: seq<nat>, gap: seq<real>, Lmd: seq<real>, Lmp: seq<real>, pg: seq<real>,
                       pme: seq<Option<nat>>, probes: seq<Probe>, eps: real, R: real, bporo: bool)
    returns (gap': seq<real>, Lmd': seq<real>, Lmp': seq<real>, pg': seq<real>, pme': seq<Option<nat>>)
    requires PointArrays(Sum(points), gap, Lmd, Lmp, pg, pme, bporo) && |probes| == Sum(points)
    ensures Projected(Sum(points), gap, Lmd, Lmp, pg, pme, gap', Lmd', Lmp', pg', pme', probes, eps, R, bporo)
  {
    gap', Lmd', Lmp', pg', pme' := gap, Lmd, Lmp, pg, pme;
    var n := 0;
    for i := 0 to |points|
      invariant n == Sum(points[..i]) <= Sum(points)
      invariant PointArrays(Sum(points), gap', Lmd', Lmp', pg', pme', bporo) && |pg'| == |pg|
      invariant forall m :: 0 <= m < n ==>
                  PointOf(gap', Lmd', Lmp', pg', pme', m) == ProjectPoint(PointOf(gap, Lmd, Lmp, pg, pme, m), probes[m], eps, R, bporo)
      invariant forall m :: n <= m < Sum(points) ==> PointOf(gap', Lmd', Lmp', pg', pme', m) == PointOf(gap, Lmd, Lmp, pg, pme, m)
      invariant !bporo ==> pg' == pg
    {
      OffsetsTile(points, i);
      for j := 0 to points[i]
        invariant n == Sum(points[..i]) + j
        invariant PointArrays(Sum(points), gap', Lmd', Lmp', pg', pme', bporo) && |pg'| == |pg|
        invariant forall m :: 0 <= m < n ==>
                    PointOf(gap', Lmd', Lmp', pg', pme', m) == ProjectPoint(PointOf(gap, Lmd, Lmp, pg, pme, m), probes[m], eps, R, bporo)
        invariant forall m :: n <= m < Sum(points) ==> PointOf(gap', Lmd', Lmp', pg', pme', m) == PointOf(gap, Lmd, Lmp, pg, pme, m)
        invariant !bporo ==> pg' == pg
      {
        gap', Lmd', Lmp', pg', pme' := ProjectAt(gap', Lmd', Lmp', pg', pme', n, probes[n], eps, R, bporo);
        n := n + 1;
      }
    }
    assert points[..|points|] == points;
  }

  // ---------------------------------------------------------------------
  // Free-draining pressure ids

  /** A pressure id marked as free-draining: an id with an equation is
      stored in its prescribed form, any other id is left as it is. */
  function Marked(id: int): int
  {
    if id >= 0 then Flip(id) else id
  }

  /** A pressure id released from free-draining: an id in prescribed form
      gets back its free form, any other id is left as it is. */
  function Free(id: int): int
  {
    if id < -1 then Flip(id) else id
  }

  /** Marking and releasing each only look at which equation an id owns:
      releasing a marked id is releasing it, marking a released id is
      marking it, a free id comes back unchanged from marking and
      releasing, and neither map ever changes the equation an id owns. */
  lemma MarkFreeRoundTrip(id: int)
    ensures Free(Marked(id)) == Free(id) && Marked(Free(id)) == Marked(id)
    ensures IsFree(id) ==> Marked(id) == Flip(id) && Free(Marked(id)) == id
    ensures IsFixed(Marked(id)) == IsFixed(id) && IsFixed(Free(id)) == IsFixed(id)
    ensures !IsFixed(id) ==> Slot(Marked(id)) == Slot(id) && Slot(Free(id)) == Slot(id)
  {
  }

  /** The local node numbers of every element lie below n. */
  predicate NodesBelow(es: seq<seq<nat>>, n: nat)
  {
    forall e, i :: 0 <= e < |es| && 0 <= i < |es[e]| ==> es[e][i] < n
  }

  /** One recovered nodal traction per node of each element. */
  predicate Matching(es: seq<seq<nat>>, ts: seq<seq<real>>)
  {
    |ts| == |es| && forall e :: 0 <= e < |es| ==> |ts[e]| == |es[e]|
  }

  /** Some of the first j nodes of one element is node v with a positive
      recovered traction. */
  predicate WetAt(en: seq<nat>, t: seq<real>, j: nat, v: nat)
    requires j <= |en| && |t| == |en|
  {
    j > 0 && (WetAt(en, t, j - 1, v) || (en[j - 1] == v && t[j - 1] > 0.0))
  }

  /** Node v has a positive recovered traction in one of the first e
      elements. */
  predicate WetIn(es: seq<seq<nat>>, ts: seq<seq<real>>, e: nat, v: nat)
    requires Matching(es, ts) && e <= |es|
  {
    e > 0 && (WetIn(es, ts, e - 1, v) || WetAt(es[e - 1], ts[e - 1], |es[e - 1]|, v))
  }

  lemma {:induction false} WetAtIff(en: seq<nat>, t: seq<real>, j: nat, v: nat)
    requires j <= |en| && |t| == |en|
    ensures WetAt(en, t, j, v) <==> exists i :: 0 <= i < j && en[i] == v && t[i] > 0.0
  {
    if j > 0 {
      WetAtIff(en, t, j - 1, v);
    }
  }

  /** A node is wet exactly when it carries a positive traction in some
      element it belongs to. */
  lemma {:induction false} WetInIff(es: seq<seq<nat>>, ts: seq<seq<real>>, e: nat, v: nat)
    requires Matching(es, ts) && e <= |es|
    ensures WetIn(es, ts, e, v) <==>
            exists d, i :: 0 <= d < e && 0 <= i < |es[d]| && es[d][i] == v && ts[d][i] > 0.0
  {
    if e > 0 {
      WetInIff(es, ts, e - 1, v);
      WetAtIff(es[e - 1], ts[e - 1], |es[e - 1]|, v);
    }
  }

  /** Which of n surface nodes are wet. */
  function WetNodes(es: seq<seq<nat>>, ts: seq<seq<real>>, n: nat): (w: seq<bool>)
    requires Matching(es, ts)
    ensures |w| == n
  {
    seq(n, v requires 0 <= v < n => WetIn(es, ts, |es|, v))
  }

  /** Which secondary nodes project onto the primary surface at a point
      of positive traction. */
  function WetProjections(tp: seq<Option<real>>): (w: seq<bool>)
    ensures |w| == |tp| && forall v :: 0 <= v < |tp| ==> (w[v] <==> tp[v].Some? && tp[v].value > 0.0)
  {
    seq(|tp|, v requires 0 <= v < |tp| => tp[v].Some? && tp[v].value > 0.0)
  }

  /** The pressure ids after a free-draining pass: wet nodes keep (or get
      back) their free form, all others are marked. */
  function Drain(p: seq<int>, wet: seq<bool>): seq<int>
    requires |wet| == |p|
  {
    seq(|p|, v requires 0 <= v < |p| => if wet[v] then Free(p[v]) else Marked(p[v]))
  }

  /** A node is left free-draining exactly when it owns an equation and is
      not wet; a wet node that was free gets its own equation back; and no
      node changes which equation it owns. */
  lemma DrainMeaning(p: seq<int>, wet: seq<bool>, v: nat)
    requires |wet| == |p| && v < |p|
    ensures Drain(p, wet)[v] < -1 <==> !IsFixed(p[v]) && !wet[v]
    ensures wet[v] && IsFree(p[v]) ==> Drain(p, wet)[v] == p[v]
    ensures IsFixed(Drain(p, wet)[v]) == IsFixed(p[v])
    ensures !IsFixed(p[v]) ==> Slot(Drain(p, wet)[v]) == Slot(p[v])
  {
  }

  /** Only the last free-draining pass counts: in particular a pass
      repeated with the same tractions changes nothing. */
  lemma {:induction false} DrainLastWins(p: seq<int>, w1: seq<bool>, w2: seq<bool>)
    requires |w1| == |p| && |w2| == |p|
    ensures Drain(Drain(p, w1), w2) == Drain(p, w2)
  {
    forall v | 0 <= v < |p|
      ensures Drain(Drain(p, w1), w2)[v] == Drain(p, w2)[v]
    {
      MarkFreeRoundTrip(p[v]);
    }
  }

  /** The nodal pressures after a pass: zero at every free-draining node,
      unchanged elsewhere. */
  function ZeroDrained(pt: seq<real>, pid: seq<int>): (r: seq<real>)
    requires |pid| == |pt|
    ensures |r| == |pt|
    ensures forall v :: 0 <= v < |pt| ==> r[v] == (if pid[v] < -1 then 0.0 else pt[v])
  {
    seq(|pt|, v requires 0 <= v < |pt| => if pid[v] < -1 then 0.0 else pt[v])
  }

  /** Zeroing the same free-draining nodes twice is zeroing them once. */
  lemma ZeroDrainedTwice(pt: seq<real>, pid: seq<int>)
    requires |pid| == |pt|
    ensures ZeroDrained(ZeroDrained(pt, pid), pid) == ZeroDrained(pt, pid)
  {
  }

  /** Marks every node with an equation as free-draining. */
  method MarkAll(p: seq<int>) returns (r: seq<int>)
    ensures |r| == |p| && forall v :: 0 <= v < |p| ==> r[v] == Marked(p[v])
  {
    r := p;
    for v := 0 to |p|
      invariant |r| == |p|
      invariant forall u :: 0 <= u < |p| ==> r[u] == if u < v then Marked(p[u]) else p[u]
    {
      if r[v] >= 0 {
        r := r[v := Flip(r[v])];
      }
    }
  }

  /** Element by element, node by node: a node in prescribed form with a
      positive recovered traction is flipped back. */
  method Unmark(p: seq<int>, es: seq<seq<nat>>, ts: seq<seq<real>>) returns (r: seq<int>)
    requires Matching(es, ts) && NodesBelow(es, |p|)
    ensures |r| == |p| && forall v :: 0 <= v < |p| ==> r[v] == if WetIn(es, ts, |es|, v) then Free(p[v]) else p[v]
  {
    r := p;
    for e := 0 to |es|
      invariant |r| == |p|
      invariant forall v :: 0 <= v < |p| ==> r[v] == if WetIn(es, ts, e, v) then Free(p[v]) else p[v]
    {
      for j := 0 to |es[e]|
        invariant |r| == |p|
        invariant forall v :: 0 <= v < |p| ==>
                    r[v] == if WetIn(es, ts, e, v) || WetAt(es[e], ts[e], j, v) then Free(p[v]) else p[v]
      {
        var v := es[e][j];
        if r[v] < -1 && ts[e][j] > 0.0 {
          r := r[v := Flip(r[v])];
        }
      }
    }
  }

  /** Sets the pressure of every free-draining node to zero. */
  method ZeroPressures(pt: seq<real>, pid: seq<int>) returns (r: seq<real>)
    requires |pid| == |pt|
    ensures r == ZeroDrained(pt, pid)
  {
    r := pt;
    for v := 0 to |pt|
      invariant |r| == |pt|
      invariant forall u :: 0 <= u < |pt| ==> r[u] == if u < v && pid[u] < -1 then 0.0 else pt[u]
    {
      if pid[v] < -1 {
        r := r[v := 0.0];
      }
    }
  }

  /** The secondary-surface pass of a single-pass analysis, node by node:
      mark the node, then flip it back when it projects onto the primary
      surface at a point of positive traction. */
  method MarkSecondary(p: seq<int>, tp: seq<Option<real>>) returns (r: seq<int>)
    requires |tp| == |p|
    ensures r == Drain(p, WetProjections(tp))
  {
    r := p;
    for v := 0 to |p|
      invariant |r| == |p|
      invariant forall u :: 0 <= u < |p| ==> r[u] == if u < v then Drain(p, WetProjections(tp))[u] else p[u]
    {
      if r[v] >= 0 {
        r := r[v := Flip(r[v])];
      }
      if tp[v].Some? && r[v] < -1 && tp[v].value > 0.0 {
        r := r[v := Flip(r[v])];
      }
    }
  }

  /** The free-draining pass of one surface: every node is marked, wet
      nodes are released, and free-draining nodes lose their pressure. */
  method DrainSurface(pid: seq<int>, pt: seq<real>, es: seq<seq<nat>>, ts: seq<seq<real>>)
    returns (pid': seq<int>, pt': seq<real>)
    requires |pt| == |pid| && Matching(es, ts) && NodesBelow(es, |pid|)
    ensures pid' == Drain(pid, WetNodes(es, ts, |pid|)) && pt' == ZeroDrained(pt, pid')
  {
    var marked := MarkAll(pid);
    pid' := Unmark(marked, es, ts);
    forall v | 0 <= v < |pid| {
      MarkFreeRoundTrip(pid[v]);
    }
    pt' := ZeroPressures(pt, pid');
  }

  // ---------------------------------------------------------------------
  // Augmentation

  function Abs(x: real): real
  {
    if x < 0.0 then -x else x
  }

  function Max(a: real, b: real): real
  {
    if a < b then b else a
  }

  /** The magnitudes of a list of values. */
  function Mags(v: seq<real>): (r: seq<real>)
    ensures |r| == |v| && forall i :: 0 <= i < |v| ==> r[i] >= 0.0
  {
    seq(|v|, i requires 0 <= i < |v| => Abs(v[i]))
  }

  /** A point whose trial traction is positive. */
  predicate Active(Lmd: seq<real>, gap: seq<real>, eps: real, i: nat)
    requires i < |Lmd| && i < |gap|
  {
    Trial(Lmd[i], eps, gap[i]) > 0.0
  }

  /** The running maximum, started at m, of v over the active ones of the
      first k points. */
  function ActiveMax(m: real, Lmd: seq<real>, gap: seq<real>, eps: real, v: seq<real>, k: nat): real
    requires k <= |Lmd| && |gap| == |Lmd| && |v| == |Lmd|
  {
    if k == 0 then m
    else if Active(Lmd, gap, eps, k - 1) then Max(ActiveMax(m, Lmd, gap, eps, v, k - 1), v[k - 1])
    else ActiveMax(m, Lmd, gap, eps, v, k - 1)
  }

  /** The running maximum is at least its start, bounds v at every active
      point, and is its start or the value at an active point. */
  lemma {:induction false} ActiveMaxIsMax(m: real, Lmd: seq<real>, gap: seq<real>, eps: real, v: seq<real>, k: nat)
    requires k <= |Lmd| && |gap| == |Lmd| && |v| == |Lmd|
    ensures m <= ActiveMax(m, Lmd, gap, eps, v, k)
    ensures forall i :: 0 <= i < k && Active(Lmd, gap, eps, i) ==> v[i] <= ActiveMax(m, Lmd, gap, eps, v, k)
    ensures ActiveMax(m, Lmd, gap, eps, v, k) == m ||
            exists i :: 0 <= i < k && Active(Lmd, gap, eps, i) && v[i] == ActiveMax(m, Lmd, gap, eps, v, k)
  {
    if k > 0 {
      ActiveMaxIsMax(m, Lmd, gap, eps, v, k - 1);
    }
  }

  /** The running maximum stays within a tolerance exactly when its start
      and the value at every active point do. */
  lemma ActiveMaxWithin(m: real, Lmd: seq<real>, gap: seq<real>, eps: real, v: seq<real>, tol: real)
    requires |gap| == |Lmd| && |v| == |Lmd|
    ensures ActiveMax(m, Lmd, gap, eps, v, |Lmd|) <= tol <==>
            m <= tol && forall i :: 0 <= i < |Lmd| && Active(Lmd, gap, eps, i) ==> v[i] <= tol
  {
    ActiveMaxIsMax(m, Lmd, gap, eps, v, |Lmd|);
  }

  /** The updated normal multipliers: the Macaulay bracket of the trial
      traction, hence never negative. */
  function Augmented(Lmd: seq<real>, gap: seq<real>, eps: real): (r: seq<real>)
    requires |gap| == |Lmd|
    ensures |r| == |Lmd|
    ensures forall i :: 0 <= i < |Lmd| ==> r[i] >= 0.0 && r[i] >= Trial(Lmd[i], eps, gap[i])
    ensures forall i :: 0 <= i < |Lmd| ==> (r[i] > 0.0 <==> Active(Lmd, gap, eps, i))
  {
    seq(|Lmd|, i requires 0 <= i < |Lmd| => Bracket(Trial(Lmd[i], eps, gap[i])))
  }

  /** The updated pressure multipliers: Lmp + epsp*pg at active points,
      zero at the others. */
  function AugmentedLmp(Lmd: seq<real>, gap: seq<real>, Lmp: seq<real>, pg: seq<real>, eps: real, epsp: real): (r: seq<real>)
    requires |gap| == |Lmd| && |Lmp| == |Lmd| && |pg| == |Lmd|
    ensures |r| == |Lmd|
  {
    seq(|Lmd|, i requires 0 <= i < |Lmd| => if Active(Lmd, gap, eps, i) then Trial(Lmp[i], epsp, pg[i]) else 0.0)
  }

  /** The augmentation of one surface: every multiplier is updated and the
      running maxima of the gap and, in poroelastic analyses, of the
      pressure-gap magnitude over the active points are carried on. */
  method AugmentPoints(Lmd: seq<real>, Lmp: seq<real>, gap: seq<real>, pg: seq<real>, eps: real, epsp: real,
                       bporo: bool, maxgap0: real, maxpg0: real)
    returns (Lmd': seq<real>, Lmp': seq<real>, maxgap: real, maxpg: real)
    requires |gap| == |Lmd| && |Lmp| == |Lmd| && (bporo ==> |pg| == |Lmd|)
    ensures Lmd' == Augmented(Lmd, gap, eps)
    ensures Lmp' == if bporo then AugmentedLmp(Lmd, gap, Lmp, pg, eps, epsp) else Lmp
    ensures maxgap == ActiveMax(maxgap0, Lmd, gap, eps, gap, |Lmd|)
    ensures maxpg == if bporo then ActiveMax(maxpg0, Lmd, gap, eps, Mags(pg), |Lmd|) else maxpg0
  {
    Lmd', Lmp', maxgap, maxpg := Lmd, Lmp, maxgap0, maxpg0;
    for i := 0 to |Lmd|
      invariant |Lmd'| == |Lmd| && |Lmp'| == |Lmd|
      invariant forall k :: 0 <= k < |Lmd| ==> Lmd'[k] == if k < i then Augmented(Lmd, gap, eps)[k] else Lmd[k]
      invariant bporo ==> forall k :: 0 <= k < |Lmd| ==>
                  Lmp'[k] == if k < i then AugmentedLmp(Lmd, gap, Lmp, pg, eps, epsp)[k] else Lmp[k]
      invariant !bporo ==> Lmp' == Lmp
      invariant maxgap == ActiveMax(maxgap0, Lmd, gap, eps, gap, i)
      invariant maxpg == if bporo then ActiveMax(maxpg0, Lmd, gap, eps, Mags(pg), i) else maxpg0
    {
      var Ln := Trial(Lmd[i], eps, gap[i]);
      Lmd' := Lmd'[i := Bracket(Ln)];
      if bporo {
        var Lp := 0.0;
        if Ln > 0.0 {
          Lp := Trial(Lmp[i], epsp, pg[i]);
          maxpg := Max(maxpg, Abs(pg[i]));
        }
        Lmp' := Lmp'[i := Lp];
      }
      if Ln > 0.0 {
        maxgap := Max(maxgap, gap[i]);
      }
    }
  }

  /** The largest gap at an active point of the primary, then of the
      secondary surface, and zero when there is none or all are negative. */
  function MaxGap(sLmd: seq<real>, sgap: seq<real>, mLmd: seq<real>, mgap: seq<real>, eps: real): real
    requires |sgap| == |sLmd| && |mgap| == |mLmd|
  {
    ActiveMax(ActiveMax(0.0, sLmd, sgap, eps, sgap, |sLmd|), mLmd, mgap, eps, mgap, |mLmd|)
  }

  /** The largest pressure-gap magnitude at an active point of either
      surface, and zero when there is none. */
  function MaxPg(sLmd: seq<real>, sgap: seq<real>, spg: seq<real>, mLmd: seq<real>, mgap: seq<real>, mpg: seq<real>, eps: real): real
    requires |sgap| == |sLmd| && |spg| == |sLmd| && |mgap| == |mLmd| && |mpg| == |mLmd|
  {
    ActiveMax(ActiveMax(0.0, sLmd, sgap, eps, Mags(spg), |sLmd|), mLmd, mgap, eps, Mags(mpg), |mLmd|)
  }

  /** The convergence test of augmentation: the largest gap is within gtol
      and, in poroelastic analyses, the largest pressure gap within ptol. */
  predicate AugmentConverged(sLmd: seq<real>, sgap: seq<real>, spg: seq<real>, mLmd: seq<real>, mgap: seq<real>, mpg: seq<real>,
                             eps: real, gtol: real, ptol: real, bporo: bool)
    requires |sgap| == |sLmd| && |mgap| == |mLmd| && (bporo ==> |spg| == |sLmd| && |mpg| == |mLmd|)
  {
    !(MaxGap(sLmd, sgap, mLmd, mgap, eps) > gtol) && (bporo ==> !(MaxPg(sLmd, sgap, spg, mLmd, mgap, mpg, eps) > ptol))
  }

  /** Augmentation has converged exactly when the tolerance is not
      negative and every active point of either surface has its gap within
      gtol, and, in poroelastic analyses, the same holds for ptol and the
      pressure-gap magnitudes. */
  lemma AugmentConvergedIff(sLmd: seq<real>, sgap: seq<real>, spg: seq<real>, mLmd: seq<real>, mgap: seq<real>, mpg: seq<real>,
                            eps: real, gtol: real, ptol: real, bporo: bool)
    requires |sgap| == |sLmd| && |mgap| == |mLmd| && (bporo ==> |spg| == |sLmd| && |mpg| == |mLmd|)
    ensures AugmentConverged(sLmd, sgap, spg, mLmd, mgap, mpg, eps, gtol, ptol, bporo) <==>
            && 0.0 <= gtol
            && (forall i :: 0 <= i < |sLmd| && Active(sLmd, sgap, eps, i) ==> sgap[i] <= gtol)
            && (forall i :: 0 <= i < |mLmd| && Active(mLmd, mgap, eps, i) ==> mgap[i] <= gtol)
            && (bporo ==> && 0.0 <= ptol
                          && (forall i :: 0 <= i < |sLmd| && Active(sLmd, sgap, eps, i) ==> Abs(spg[i]) <= ptol)
                          && (forall i :: 0 <= i < |mLmd| && Active(mLmd, mgap, eps, i) ==> Abs(mpg[i]) <= ptol))
  {
    ActiveMaxWithin(0.0, sLmd, sgap, eps, sgap, gtol);
    ActiveMaxWithin(ActiveMax(0.0, sLmd, sgap, eps, sgap, |sLmd|), mLmd, mgap, eps, mgap, gtol);
    if bporo {
      ActiveMaxWithin(0.0, sLmd, sgap, eps, Mags(spg), ptol);
      ActiveMaxWithin(ActiveMax(0.0, sLmd, sgap, eps, Mags(spg), |sLmd|), mLmd, mgap, eps, Mags(mpg), ptol);
    }
  }

  // ---------------------------------------------------------------------
  // Contact stiffness multiplier and equation lists

  /** The multiplier of the higher-order stiffness terms. A negative
      setting -n switches the terms on once n (truncated) stiffness
      reformations have been done; any other setting is used as it is. */
  function HigherOrderMultiplier(knmult: real, nref: int): (k: real)
    ensures knmult >= 0.0 ==> k == knmult
    ensures knmult < 0.0 ==> (k == 1.0 || k == 0.0) && (k == 1.0 <==> nref >= (-knmult).Floor)
  {
    if knmult < 0.0 then (if nref >= (-knmult).Floor then 1.0 else 0.0) else knmult
  }

  /** Under a negative setting, once the higher-order terms are on, further
      reformations keep them on. */
  lemma HigherOrderStaysOn(knmult: real, nref: int, nref': int)
    requires knmult < 0.0 && nref <= nref' && HigherOrderMultiplier(knmult, nref) == 1.0
    ensures HigherOrderMultiplier(knmult, nref') == 1.0
  {
  }

  /** The displacement equations of a contact pair: the x, y, z ids of the
      slave element's nodes, then those of the master element's. */
  function PairDisplacements(sLM: seq<int>, mLM: seq<int>, nseln: nat, nmeln: nat): seq<int>
    requires 3 * nseln <= |sLM| && 3 * nmeln <= |mLM|
  {
    sLM[..3 * nseln] + mLM[..3 * nmeln]
  }

  /** The pressure equations of a contact pair: an element's equation list
      holds the pressure ids after the 3 displacement ids of each node. */
  function PairPressures(sLM: seq<int>, mLM: seq<int>, nseln: nat, nmeln: nat): seq<int>
    requires 4 * nseln <= |sLM| && 4 * nmeln <= |mLM|
  {
    sLM[3 * nseln..4 * nseln] + mLM[3 * nmeln..4 * nmeln]
  }

  /** The equation list of a solid-solid contact pair, filled node by node. */
  method DisplacementLM(sLM: seq<int>, mLM: seq<int>, nseln: nat, nmeln: nat) returns (LM: seq<int>)
    requires 3 * nseln <= |sLM| && 3 * nmeln <= |mLM|
    ensures LM == PairDisplacements(sLM, mLM, nseln, nmeln)
  {
    LM := [];
    for k := 0 to nseln
      invariant LM == sLM[..3 * k]
    {
      assert sLM[..3 * (k + 1)] == sLM[..3 * k] + [sLM[3 * k], sLM[3 * k + 1], sLM[3 * k + 2]];
      LM := LM + [sLM[3 * k], sLM[3 * k + 1], sLM[3 * k + 2]];
    }
    for k := 0 to nmeln
      invariant LM == sLM[..3 * nseln] + mLM[..3 * k]
    {
      assert mLM[..3 * (k + 1)] == mLM[..3 * k] + [mLM[3 * k], mLM[3 * k + 1], mLM[3 * k + 2]];
      LM := LM + [mLM[3 * k], mLM[3 * k + 1], mLM[3 * k + 2]];
    }
  }

  /** The equation list of a pressure-pressure contact pair. */
  method PressureLM(sLM: seq<int>, mLM: seq<int>, nseln: nat, nmeln: nat) returns (LM: seq<int>)
    requires 4 * nseln <= |sLM| && 4 * nmeln <= |mLM|
    ensures LM == PairPressures(sLM, mLM, nseln, nmeln)
  {
    LM := [];
    for k := 0 to nseln
      invariant LM == sLM[3 * nseln..3 * nseln + k]
    {
      assert sLM[3 * nseln..3 * nseln + k + 1] == sLM[3 * nseln..3 * nseln + k] + [sLM[3 * nseln + k]];
      LM := LM + [sLM[3 * nseln + k]];
    }
    for k := 0 to nmeln
      invariant LM == sLM[3 * nseln..4 * nseln] + mLM[3 * nmeln..3 * nmeln + k]
    {
      assert mLM[3 * nmeln..3 * nmeln + k + 1] == mLM[3 * nmeln..3 * nmeln + k] + [mLM[3 * nmeln + k]];
      LM := LM + [mLM[3 * nmeln + k]];
    }
  }

  /** The four slots of node k in a solid-pressure list: its three
      displacement ids, then its pressure id. */
  function NodeSlots(d: seq<int>, p: seq<int>, k: nat): seq<int>
    requires k < |p| && 3 * |p| <= |d|
  {
    [d[3 * k], d[3 * k + 1], d[3 * k + 2], p[k]]
  }

  /** The first n nodes of a solid-pressure list. */
  function Interleave(d: seq<int>, p: seq<int>, n: nat): seq<int>
    requires n <= |p| && 3 * |p| <= |d|
  {
    if n == 0 then [] else Interleave(d, p, n - 1) + NodeSlots(d, p, n - 1)
  }

  /** The interleaved list has four slots per node: slots 4k to 4k+3 hold
      the displacement ids 3k to 3k+2 and then pressure id k. */
  lemma {:induction false} InterleaveSlots(d: seq<int>, p: seq<int>, n: nat)
    requires n <= |p| && 3 * |p| <= |d|
    ensures |Interleave(d, p, n)| == 4 * n
    ensures forall k :: 0 <= k < n ==> Interleave(d, p, n)[4 * k..4 * k + 4] == NodeSlots(d, p, k)
  {
    if n > 0 {
      InterleaveSlots(d, p, n - 1);
      var A := Interleave(d, p, n - 1);
      var L := A + NodeSlots(d, p, n - 1);
      forall k | 0 <= k < n
        ensures L[4 * k..4 * k + 4] == NodeSlots(d, p, k)
      {
        if k < n - 1 {
          assert L[4 * k..4 * k + 4] == A[4 * k..4 * k + 4];
        } else {
          assert L[4 * k..4 * k + 4] == L[|A|..];
        }
      }
    }
  }

  /** The equation list of a solid-pressure contact pair, node by node:
      slave nodes, then master nodes. */
  method MixedLM(sLM: seq<int>, mLM: seq<int>, nseln: nat, nmeln: nat) returns (LM: seq<int>)
    requires 4 * nseln <= |sLM| && 4 * nmeln <= |mLM|
    ensures LM == Interleave(PairDisplacements(sLM, mLM, nseln, nmeln), PairPressures(sLM, mLM, nseln, nmeln), nseln + nmeln)
  {
    ghost var d := PairDisplacements(sLM, mLM, nseln, nmeln);
    ghost var p := PairPressures(sLM, mLM, nseln, nmeln);
    LM := [];
    for k := 0 to nseln
      invariant LM == Interleave(d, p, k)
    {
      assert NodeSlots(d, p, k) == [sLM[3 * k], sLM[3 * k + 1], sLM[3 * k + 2], sLM[3 * nseln + k]];
      LM := LM + [sLM[3 * k], sLM[3 * k + 1], sLM[3 * k + 2], sLM[3 * nseln + k]];
    }
    for k := 0 to nmeln
      invariant LM == Interleave(d, p, nseln + k)
    {
      assert NodeSlots(d, p, nseln + k) == [mLM[3 * k], mLM[3 * k + 1], mLM[3 * k + 2], mLM[3 * nmeln + k]];
      LM := LM + [mLM[3 * k], mLM[3 * k + 1], mLM[3 * k + 2], mLM[3 * nmeln + k]];
    }
  }

  // ---------------------------------------------------------------------
  // Contact surfaces and the interface

  /** One contact surface: the integration points and local node numbers of
      each of its elements, the pressure id and nodal pressure of each of its
      nodes, and the contact state of each integration point with the
      offset of each element's first point. */
  class ContactSurface2 {
    const points: seq<nat>
    const enodes: seq<seq<nat>>
    var nei: seq<nat>
    var gap: seq<real>
    var Lmd: seq<real>
    var Lmp: seq<real>
    var pg: seq<real>
    var pme: seq<Option<nat>>
    var pid: seq<int>
    var pt: seq<real>

    /** Every element lists its nodes, every listed node exists, and every
        node has a pressure. */
    predicate Wellformed()
      reads this`pid, this`pt
    {
      |enodes| == |points| && NodesBelow(enodes, |pid|) && |pt| == |pid|
    }

    /** The point arrays have one entry per integration point. */
    predicate Sized(bporo: bool)
      reads this`gap, this`Lmd, this`Lmp, this`pg, this`pme
    {
      PointArrays(Sum(points), gap, Lmd, Lmp, pg, pme, bporo)
    }

    /** A surface before initialisation holds no point data. */
    constructor(points: seq<nat>, enodes: seq<seq<nat>>, pid: seq<int>, pt: seq<real>)
      requires |enodes| == |points| && NodesBelow(enodes, |pid|) && |pt| == |pid|
      ensures this.points == points && this.enodes == enodes && this.pid == pid && this.pt == pt
      ensures nei == [] && gap == [] && Lmd == [] && Lmp == [] && pg == [] && pme == []
      ensures Wellformed()
    {
      this.points, this.enodes, this.pid, this.pt := points, enodes, pid, pt;
      nei, gap, Lmd, Lmp, pg, pme := [], [], [], [], [], [];
    }

    /** Allocates one entry per integration point, with every gap and
        multiplier zero and no projection, and the offset of each element's
        first point; the pressure gaps exist only in poroelastic analyses. */
    method Init(bporo: bool)
      modifies this`nei, this`gap, this`Lmd, this`Lmp, this`pg, this`pme
      ensures |nei| == |points| && forall i :: 0 <= i < |points| ==> nei[i] == Sum(points[..i])
      ensures gap == QuasiNewton.Zeros(Sum(points)) && Lmd == QuasiNewton.Zeros(Sum(points)) && Lmp == QuasiNewton.Zeros(Sum(points))
      ensures pme == NoProjections(Sum(points))
      ensures pg == if bporo then QuasiNewton.Zeros(Sum(points)) else old(pg)
      ensures bporo ==> Sized(bporo)
    {
      var nint := CountPoints(points);
      var offsets := Offsets(points);
      nei, gap, Lmd, Lmp, pme := offsets, QuasiNewton.Zeros(nint), QuasiNewton.Zeros(nint), QuasiNewton.Zeros(nint), NoProjections(nint);
      if bporo {
        pg := QuasiNewton.Zeros(nint);
      }
    }

    /** Takes over the multipliers and gaps of another surface and forgets
        every projection. */
    method ShallowCopy(s: ContactSurface2)
      modifies this`Lmd, this`Lmp, this`gap, this`pme
      ensures Lmd == old(s.Lmd) && Lmp == old(s.Lmp) && gap == old(s.gap)
      ensures pme == NoProjections(|old(pme)|)
    {
      Lmd, Lmp, gap, pme := s.Lmd, s.Lmp, s.gap, NoProjections(|pme|);
    }

    /** Projects every integration point onto the opposite surface. */
    method Project(probes: seq<Probe>, eps: real, R: real, bporo: bool)
      requires Sized(bporo) && |probes| == Sum(points)
      modifies this`gap, this`Lmd, this`Lmp, this`pg, this`pme
      ensures Projected(Sum(points), old(gap), old(Lmd), old(Lmp), old(pg), old(pme), gap, Lmd, Lmp, pg, pme,
                        probes, eps, R, bporo)
      ensures Sized(bporo)
    {
      gap, Lmd, Lmp, pg, pme := ProjectPoints(points, gap, Lmd, Lmp, pg, pme, probes, eps, R, bporo);
    }

    /** The free-draining pass of a surface whose own nodal tractions decide. */
    method DrainPrimary(tn: seq<seq<real>>)
      requires Wellformed() && Matching(enodes, tn)
      modifies this`pid, this`pt
      ensures pid == Drain(old(pid), WetNodes(enodes, tn, |old(pid)|)) && pt == ZeroDrained(old(pt), pid)
      ensures Wellformed()
    {
      pid, pt := DrainSurface(pid, pt, enodes, tn);
    }

    /** The free-draining pass of the secondary surface, decided by the
        traction where each node projects onto the primary surface. */
    method DrainSecondary(tp: seq<Option<real>>)
      requires Wellformed() && |tp| == |pid|
      modifies this`pid, this`pt
      ensures pid == Drain(old(pid), WetProjections(tp)) && pt == ZeroDrained(old(pt), pid)
      ensures Wellformed()
    {
      var q := MarkSecondary(pid, tp);
      var z := ZeroPressures(pt, q);
      pid, pt := q, z;
    }
  }

  /** The biphasic sliding interface between a primary (slave) and a
      secondary (master) surface. */
  class SlidingInterface {
    const ss: ContactSurface2
    const ms: ContactSurface2
    var knmult: real
    var atol: real
    var eps: real
    var epsp: real
    var npass: int
    var stol: real
    var bsymm: bool
    var srad: real
    var naugmin: int
    var naugmax: int
    var blaugon: bool
    var gtol: real
    var ptol: real

    /** The interface with its default settings; whether augmentation is on
        and its tolerances are given. */
    constructor(ss: ContactSurface2, ms: ContactSurface2, blaugon: bool, gtol: real, ptol: real)
      requires ss != ms
      ensures this.ss == ss && this.ms == ms && this.ss != this.ms
      ensures knmult == 1.0 && atol == 0.02 && eps == 1.0 && epsp == 1.0 && npass == 1 && stol == 0.01
      ensures bsymm && srad == 0.1 && naugmin == 0 && naugmax == 10
      ensures this.blaugon == blaugon && this.gtol == gtol && this.ptol == ptol
    {
      this.ss, this.ms := ss, ms;
      knmult, atol, eps, epsp, npass, stol := 1.0, 0.02, 1.0, 1.0, 1, 0.01;
      bsymm, srad, naugmin, naugmax := true, 0.1, 0, 10;
      this.blaugon, this.gtol, this.ptol := blaugon, gtol, ptol;
    }

    /** Projects the primary surface onto the secondary one and, in
        two-pass analyses, the secondary surface onto the primary one. */
    method ProjectSurfaces(probesS: seq<Probe>, probesM: seq<Probe>, R: real, bporo: bool)
      requires ss != ms && ss.Sized(bporo) && ms.Sized(bporo)
      requires |probesS| == Sum(ss.points) && (npass == 2 ==> |probesM| == Sum(ms.points))
      modifies ss`gap, ss`Lmd, ss`Lmp, ss`pg, ss`pme, ms`gap, ms`Lmd, ms`Lmp, ms`pg, ms`pme
      ensures Projected(Sum(ss.points), old(ss.gap), old(ss.Lmd), old(ss.Lmp), old(ss.pg), old(ss.pme),
                        ss.gap, ss.Lmd, ss.Lmp, ss.pg, ss.pme, probesS, eps, R, bporo)
      ensures npass == 2 ==> Projected(Sum(ms.points), old(ms.gap), old(ms.Lmd), old(ms.Lmp), old(ms.pg), old(ms.pme),
                                       ms.gap, ms.Lmd, ms.Lmp, ms.pg, ms.pme, probesM, eps, R, bporo)
      ensures npass != 2 ==> unchanged(ms`gap, ms`Lmd, ms`Lmp, ms`pg, ms`pme)
      ensures ss.Sized(bporo) && ms.Sized(bporo)
    {
      ss.Project(probesS, eps, R, bporo);
      if npass == 2 {
        ms.Project(probesM, eps, R, bporo);
      }
    }

    /** The free-draining passes of a poroelastic analysis: surface ss in
        pass 0 and ms in every later pass, each decided by that surface's
        nodal tractions (one per element node); in single-pass analyses the
        secondary surface is decided by the tractions tpM where its nodes
        project onto the primary surface. */
    method DrainSurfaces(tnS: seq<seq<real>>, tnM: seq<seq<real>>, tpM: seq<Option<real>>)
      requires ss != ms && ss.Wellformed() && ms.Wellformed()
      requires Matching(ss.enodes, tnS) && Matching(ms.enodes, tnM) && |tpM| == |ms.pid|
      modifies ss`pid, ss`pt, ms`pid, ms`pt
      ensures npass < 1 ==> unchanged(ss`pid, ss`pt, ms`pid, ms`pt)
      ensures npass >= 1 ==>
                ss.pid == Drain(old(ss.pid), WetNodes(ss.enodes, tnS, |old(ss.pid)|)) && ss.pt == ZeroDrained(old(ss.pt), ss.pid)
      ensures npass >= 2 ==>
                ms.pid == Drain(old(ms.pid), WetNodes(ms.enodes, tnM, |old(ms.pid)|)) && ms.pt == ZeroDrained(old(ms.pt), ms.pid)
      ensures npass == 1 ==>
                ms.pid == Drain(old(ms.pid), WetProjections(tpM)) && ms.pt == ZeroDrained(old(ms.pt), ms.pid)
      ensures ss.Wellformed() && ms.Wellformed()
    {
      if npass >= 1 {
        ss.DrainPrimary(tnS);
      }
      ghost var drained := Drain(old(ms.pid), WetNodes(ms.enodes, tnM, |old(ms.pid)|));
      var np := 1;
      while np < npass
        modifies ms`pid, ms`pt
        invariant 1 <= np && (np == 1 || np <= npass)
        invariant ms.Wellformed() && |ms.pid| == |old(ms.pid)|
        invariant np <= 1 ==> unchanged(ms`pid, ms`pt)
        invariant np >= 2 ==> ms.pid == drained && ms.pt == ZeroDrained(old(ms.pt), ms.pid)
      {
        ms.DrainPrimary(tnM);
        DrainLastWins(old(ms.pid), WetNodes(ms.enodes, tnM, |old(ms.pid)|), WetNodes(ms.enodes, tnM, |old(ms.pid)|));
        np := np + 1;
      }
      if npass == 1 {
        ms.DrainSecondary(tpM);
      }
    }

    /** Projects the surfaces onto each other with search radius srad times
        the radius of the mesh and, in poroelastic analyses only, updates
        which surface nodes are free-draining. */
    method Update(probesS: seq<Probe>, probesM: seq<Probe>, radius: real, bporo: bool,
                  tnS: seq<seq<real>>, tnM: seq<seq<real>>, tpM: seq<Option<real>>)
      requires ss != ms && ss.Sized(bporo) && ms.Sized(bporo)
      requires |probesS| == Sum(ss.points) && (npass == 2 ==> |probesM| == Sum(ms.points))
      requires ss.Wellformed() && ms.Wellformed()
      requires Matching(ss.enodes, tnS) && Matching(ms.enodes, tnM) && |tpM| == |ms.pid|
      modifies ss`gap, ss`Lmd, ss`Lmp, ss`pg, ss`pme, ss`pid, ss`pt
      modifies ms`gap, ms`Lmd, ms`Lmp, ms`pg, ms`pme, ms`pid, ms`pt
      ensures Projected(Sum(ss.points), old(ss.gap), old(ss.Lmd), old(ss.Lmp), old(ss.pg), old(ss.pme),
                        ss.gap, ss.Lmd, ss.Lmp, ss.pg, ss.pme, probesS, eps, srad * radius, bporo)
      ensures npass == 2 ==> Projected(Sum(ms.points), old(ms.gap), old(ms.Lmd), old(ms.Lmp), old(ms.pg), old(ms.pme),
                                       ms.gap, ms.Lmd, ms.Lmp, ms.pg, ms.pme, probesM, eps, srad * radius, bporo)
      ensures npass != 2 ==> unchanged(ms`gap, ms`Lmd, ms`Lmp, ms`pg, ms`pme)
      ensures !bporo || npass < 1 ==> unchanged(ss`pid, ss`pt, ms`pid, ms`pt)
      ensures bporo && npass >= 1 ==>
                ss.pid == Drain(old(ss.pid), WetNodes(ss.enodes, tnS, |old(ss.pid)|)) && ss.pt == ZeroDrained(old(ss.pt), ss.pid)
      ensures bporo && npass >= 2 ==>
                ms.pid == Drain(old(ms.pid), WetNodes(ms.enodes, tnM, |old(ms.pid)|)) && ms.pt == ZeroDrained(old(ms.pt), ms.pid)
      ensures bporo && npass == 1 ==>
                ms.pid == Drain(old(ms.pid), WetProjections(tpM)) && ms.pt == ZeroDrained(old(ms.pt), ms.pid)
    {
      ProjectSurfaces(probesS, probesM, srad * radius, bporo);
      if bporo {
        DrainSurfaces(tnS, tnM, tpM);
      }
    }

    /** Takes over the multipliers and gaps of another interface's
        surfaces and forgets every projection. */
    method ShallowCopy(si: SlidingInterface)
      requires ss != ms && si.ss != ms && si.ms != ss
      modifies ss`Lmd, ss`Lmp, ss`gap, ss`pme, ms`Lmd, ms`Lmp, ms`gap, ms`pme
      ensures ss.Lmd == old(si.ss.Lmd) && ss.Lmp == old(si.ss.Lmp) && ss.gap == old(si.ss.gap)
      ensures ms.Lmd == old(si.ms.Lmd) && ms.Lmp == old(si.ms.Lmp) && ms.gap == old(si.ms.gap)
      ensures ss.pme == NoProjections(|old(ss.pme)|) && ms.pme == NoProjections(|old(ms.pme)|)
    {
      ss.ShallowCopy(si.ss);
      ms.ShallowCopy(si.ms);
    }

    /** The augmentation step. When augmentation is off nothing changes and
        the step counts as converged. Otherwise every normal multiplier of
        both surfaces becomes the bracket of its trial traction, in
        poroelastic analyses every pressure multiplier is updated at active
        points and zeroed elsewhere, and the step has converged when the
        largest active gap (and pressure gap) is within tolerance. */
    method Augment(bporo: bool) returns (bconv: bool)
      requires ss != ms && ss.Sized(bporo) && ms.Sized(bporo)
      modifies ss`Lmd, ss`Lmp, ms`Lmd, ms`Lmp
      ensures !blaugon ==> bconv && unchanged(ss`Lmd, ss`Lmp, ms`Lmd, ms`Lmp)
      ensures blaugon ==> ss.Lmd == Augmented(old(ss.Lmd), ss.gap, eps) && ms.Lmd == Augmented(old(ms.Lmd), ms.gap, eps)
      ensures blaugon && bporo ==> ss.Lmp == AugmentedLmp(old(ss.Lmd), ss.gap, old(ss.Lmp), ss.pg, eps, epsp)
      ensures blaugon && bporo ==> ms.Lmp == AugmentedLmp(old(ms.Lmd), ms.gap, old(ms.Lmp), ms.pg, eps, epsp)
      ensures blaugon && !bporo ==> unchanged(ss`Lmp, ms`Lmp)
      ensures blaugon ==> (bconv <==> AugmentConverged(old(ss.Lmd), ss.gap, ss.pg, old(ms.Lmd), ms.gap, ms.pg,
                                                       eps, gtol, ptol, bporo))
    {
      if !blaugon {
        return true;
      }
      var sL, sP, maxgap, maxpg := AugmentPoints(ss.Lmd, ss.Lmp, ss.gap, ss.pg, eps, epsp, bporo, 0.0, 0.0);
      var mL, mP, maxgap', maxpg' := AugmentPoints(ms.Lmd, ms.Lmp, ms.gap, ms.pg, eps, epsp, bporo, maxgap, maxpg);
      ss.Lmd, ss.Lmp := sL, sP;
      ms.Lmd, ms.Lmp := mL, mP;
      bconv := true;
      if maxgap' > gtol {
        bconv := false;
      }
      if bporo && maxpg' > ptol {
        bconv := false;
      }
    }
  }
}
