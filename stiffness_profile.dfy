/** The profile of the global stiffness matrix: the list of equation groups
    whose entries couple in the matrix. The static part (elements, rigid
    bodies, linear and nonlinear constraints) is built once, when the
    builder is reset, and kept; the contact part is rebuilt on every call. */
module StiffnessProfile {
  import opened EquationIds
  import opened Wrappers
  import opened ContactProfile

  /** An element of a domain: whether it belongs to a rigid body, its mesh
      nodes, and the equation ids its domain unpacks for it. */
  datatype Element = Element(rigid: bool, nodes: seq<nat>, lm: seq<int>)

  /** A domain of the current step. A UT4 domain also carries, for each mesh
      node, the indices of its elements around that node; an elastic solid
      domain takes part in the linear-constraint cross terms. */
  datatype Domain = Domain(ut4: bool, elastic: bool, elems: seq<Element>, nel: seq<seq<nat>>)

  /** The nonlinear constraints the builder knows; any other adds nothing. */
  datatype Nonlinear =
    | PointConstraint(node: nat, elNodes: seq<nat>)
    | ConstraintSet(dofs: seq<seq<int>>)
    | RigidJoint(a: nat, b: nat)
    | OtherConstraint

  /** What the builder reads from the model. `bodies` holds the rigid-body
      equation ids, `linC` the slave equation ids of each linear constraint
      and `lct` the linear-constraint table: for each node and degree of
      freedom, the constraint it is master of, or a negative number.
      `maxNdofs` and `maxNodes` are the program's per-node and per-element
      limits. */
  datatype Model = Model(
    mesh: seq<NodeIds>, domains: seq<Domain>, bodies: seq<seq<int>>,
    linC: seq<seq<int>>, lct: seq<int>, nonlinear: seq<Nonlinear>,
    contacts: seq<Contact>, maxNdofs: nat, maxNodes: nat)

  // ---------------------------------------------------------------------
  // Domains

  /** The groups of the first n elements: the ids of every element that is
      not rigid. */
  function ElementGroups(es: seq<Element>, n: nat): seq<Group>
    requires n <= |es|
  {
    if n == 0 then [] else ElementGroups(es, n - 1) + (if es[n - 1].rigid then [] else [es[n - 1].lm])
  }

  /** A group belongs to the element part exactly when it is the ids of an
      element that is not rigid. */
  lemma {:induction false} ElementGroupsMembers(es: seq<Element>, n: nat)
    requires n <= |es|
    ensures forall g :: g in ElementGroups(es, n) <==> exists i :: 0 <= i < n && !es[i].rigid && g == es[i].lm
  {
    if n > 0 {
      ElementGroupsMembers(es, n - 1);
    }
  }

  /** A UT4 domain's elements around each node exist and have at least w ids. */
  predicate Ut4Ready(d: Domain, w: nat)
  {
    forall i, n :: 0 <= i < |d.nel| && 0 <= n < |d.nel[i]| ==>
      d.nel[i][n] < |d.elems| && w <= |d.elems[d.nel[i][n]].lm|
  }

  /** The parts of a UT4 node group: the first w ids of each element around
      node i. */
  function Ut4Parts(d: Domain, w: nat, i: nat): (r: seq<seq<int>>)
    requires Ut4Ready(d, w) && i < |d.nel|
    ensures |r| == |d.nel[i]| && forall n :: 0 <= n < |r| ==> r[n] == d.elems[d.nel[i][n]].lm[..w]
  {
    seq(|d.nel[i]|, n requires 0 <= n < |d.nel[i]| => d.elems[d.nel[i][n]].lm[..w])
  }

  /** The groups of the first n mesh nodes of a UT4 domain: one per node
      with elements around it, holding their ids one element after another. */
  function Ut4Groups(d: Domain, w: nat, n: nat): seq<Group>
    requires Ut4Ready(d, w) && n <= |d.nel|
  {
    if n == 0 then []
    else Ut4Groups(d, w, n - 1) + (if |d.nel[n - 1]| > 0 then [Join(Ut4Parts(d, w, n - 1))] else [])
  }

  /** Cut every w entries, the group of node i gives the first w ids of
      each element around the node, in the node's element order. */
  lemma Ut4GroupLayout(d: Domain, w: nat, i: nat)
    requires w > 0 && Ut4Ready(d, w) && i < |d.nel|
    ensures var c := Chunks(Join(Ut4Parts(d, w, i)), w);
            |c| == |d.nel[i]| && forall n :: 0 <= n < |c| ==> c[n] == d.elems[d.nel[i][n]].lm[..w]
  {
    ChunksJoin(Ut4Parts(d, w, i), w);
  }

  /** The groups of one domain: one per UT4 node, or one per element that
      is not rigid. */
  function DomainGroups(d: Domain, w: nat): seq<Group>
    requires d.ut4 ==> Ut4Ready(d, w)
  {
    if d.ut4 then Ut4Groups(d, w, |d.nel|) else ElementGroups(d.elems, |d.elems|)
  }

  /** The groups of the first n domains. */
  function AllDomainGroups(ds: seq<Domain>, w: nat, n: nat): seq<Group>
    requires n <= |ds| && forall i :: 0 <= i < |ds| && ds[i].ut4 ==> Ut4Ready(ds[i], w)
  {
    if n == 0 then [] else AllDomainGroups(ds, w, n - 1) + DomainGroups(ds[n - 1], w)
  }

  /** Builds the group of a UT4 node, element by element. */
  method Ut4Group(d: Domain, w: nat, i: nat) returns (lm: Group)
    requires Ut4Ready(d, w) && i < |d.nel|
    ensures lm == Join(Ut4Parts(d, w, i))
  {
    var parts := Ut4Parts(d, w, i);
    lm := [];
    for n := 0 to |d.nel[i]|
      invariant lm == Join(parts[..n])
    {
      JoinAppend(parts[..n], parts[n]);
      assert parts[..n + 1] == parts[..n] + [parts[n]];
      lm := lm + d.elems[d.nel[i][n]].lm[..w];
    }
    assert parts[..|d.nel[i]|] == parts;
  }

  method AddDomain(d: Domain, w: nat) returns (groups: seq<Group>)
    requires d.ut4 ==> Ut4Ready(d, w)
    ensures groups == DomainGroups(d, w)
  {
    groups := [];
    if d.ut4 {
      for i := 0 to |d.nel|
        invariant groups == Ut4Groups(d, w, i)
      {
        if |d.nel[i]| > 0 {
          var lm := Ut4Group(d, w, i);
          groups := groups + [lm];
        }
      }
    } else {
      for j := 0 to |d.elems|
        invariant groups == ElementGroups(d.elems, j)
      {
        if !d.elems[j].rigid {
          groups := groups + [d.elems[j].lm];
        }
      }
    }
  }

  // ---------------------------------------------------------------------
  // Rigid bodies and linear constraints

  /** Every rigid body has its six equation ids. */
  predicate BodiesReady(bodies: seq<seq<int>>)
  {
    forall i :: 0 <= i < |bodies| ==> 6 <= |bodies[i]|
  }

  /** The group of each rigid body: its six equation ids. */
  function BodyGroups(bodies: seq<seq<int>>): (r: seq<Group>)
    requires BodiesReady(bodies)
    ensures |r| == |bodies| && forall i :: 0 <= i < |r| ==> r[i] == bodies[i][..6]
  {
    seq(|bodies|, i requires 0 <= i < |bodies| => bodies[i][..6])
  }

  method AddBodies(bodies: seq<seq<int>>) returns (groups: seq<Group>)
    requires BodiesReady(bodies)
    ensures groups == BodyGroups(bodies)
  {
    groups := [];
    for i := 0 to |bodies|
      invariant groups == BodyGroups(bodies)[..i]
    {
      groups := groups + [bodies[i][..6]];
    }
  }

  /** Every entry of the table names a linear constraint or none, and every
      node of an element of an elastic domain has its row in the table. */
  predicate LinksReady(m: Model)
  {
    && (forall t :: 0 <= t < |m.lct| ==> m.lct[t] < |m.linC|)
    && forall d, e, j :: 0 <= d < |m.domains| && m.domains[d].elastic && 0 <= e < |m.domains[d].elems| &&
                         0 <= j < |m.domains[d].elems[e].nodes| ==>
                           m.domains[d].elems[e].nodes[j] * m.maxNdofs + m.maxNdofs <= |m.lct|
  }

  /** The constraint named by the first of degrees of freedom k and after
      of a node's row of the table that names one. */
  function FirstLink(row: seq<int>, k: nat): (r: Option<nat>)
    decreases |row| - k
    ensures r.Some? ==> exists q :: k <= q < |row| && row[q] == r.value
  {
    if k >= |row| then None
    else if row[k] >= 0 then Some(row[k] as nat)
    else FirstLink(row, k + 1)
  }

  /** FirstLink finds the first degree of freedom that names a constraint,
      and finds none exactly when none does. */
  lemma {:induction false} FirstLinkIsFirst(row: seq<int>, k: nat)
    decreases |row| - k
    ensures FirstLink(row, k).None? <==> forall q :: k <= q < |row| ==> row[q] < 0
    ensures FirstLink(row, k).Some? ==>
              exists q :: k <= q < |row| && row[q] == FirstLink(row, k).value && forall q' :: k <= q' < q ==> row[q'] < 0
  {
    if k < |row| && row[k] < 0 {
      FirstLinkIsFirst(row, k + 1);
      var r := FirstLink(row, k + 1);
      if r.Some? {
        var q :| k + 1 <= q < |row| && row[q] == r.value && forall q' :: k + 1 <= q' < q ==> row[q'] < 0;
        assert forall q' :: k <= q' < q ==> row[q'] < 0;
      }
    } else if k < |row| {
      assert row[k] == FirstLink(row, k).value;
    }
  }

  /** The table row of node `node`: one entry per degree of freedom. */
  function Row(m: Model, node: nat): seq<int>
    requires node * m.maxNdofs + m.maxNdofs <= |m.lct|
  {
    m.lct[node * m.maxNdofs..node * m.maxNdofs + m.maxNdofs]
  }

  /** The cross groups of the first j nodes of an element: for each node
      with a degree of freedom that is master of a linear constraint, the
      element's ids followed by the slave ids of the first such constraint. */
  function NodeLinks(m: Model, el: Element, j: nat): seq<Group>
    requires LinksReady(m) && j <= |el.nodes|
    requires forall i :: 0 <= i < |el.nodes| ==> el.nodes[i] * m.maxNdofs + m.maxNdofs <= |m.lct|
  {
    if j == 0 then []
    else
      NodeLinks(m, el, j - 1) +
      match FirstLink(Row(m, el.nodes[j - 1]), 0)
      case None => []
      case Some(n) => [el.lm + m.linC[n]]
  }

  /** The cross groups of the first n elements of an elastic domain. */
  function ElementLinks(m: Model, d: nat, n: nat): seq<Group>
    requires LinksReady(m) && d < |m.domains| && m.domains[d].elastic && n <= |m.domains[d].elems|
  {
    if n == 0 then []
    else
      var el := m.domains[d].elems[n - 1];
      ElementLinks(m, d, n - 1) + (if el.rigid then [] else NodeLinks(m, el, |el.nodes|))
  }

  /** The cross groups of the first n domains; only elastic solid domains
      take part. */
  function CrossGroups(m: Model, n: nat): seq<Group>
    requires LinksReady(m) && n <= |m.domains|
  {
    if n == 0 then []
    else CrossGroups(m, n - 1) + (if m.domains[n - 1].elastic then ElementLinks(m, n - 1, |m.domains[n - 1].elems|) else [])
  }

  /** All slave ids of all linear constraints, in constraint order. */
  function Flatten(linC: seq<seq<int>>): (r: seq<int>)
  {
    if linC == [] then [] else Flatten(linC[..|linC| - 1]) + linC[|linC| - 1]
  }

  /** An id is in the constraint group exactly when it is a slave id of some
      linear constraint. */
  lemma {:induction false} FlattenMembers(linC: seq<seq<int>>)
    ensures forall x :: x in Flatten(linC) <==> exists n :: 0 <= n < |linC| && x in linC[n]
  {
    if linC != [] {
      var k := |linC| - 1;
      FlattenMembers(linC[..k]);
      forall x | x in Flatten(linC)
        ensures exists n :: 0 <= n < |linC| && x in linC[n]
      {
        if x in Flatten(linC[..k]) {
          var n :| 0 <= n < k && x in linC[..k][n];
          assert x in linC[n];
        } else {
          assert x in linC[k];
        }
      }
      forall x, n | 0 <= n < |linC| && x in linC[n]
        ensures x in Flatten(linC)
      {
        if n < k {
          assert x in linC[..k][n];
        }
      }
    }
  }

  /** The number of slave ids of all linear constraints. */
  function SlaveCount(linC: seq<seq<int>>): nat
  {
    if linC == [] then 0 else SlaveCount(linC[..|linC| - 1]) + |linC[|linC| - 1]|
  }

  lemma {:induction false} FlattenLength(linC: seq<seq<int>>)
    ensures |Flatten(linC)| == SlaveCount(linC)
  {
    if linC != [] {
      FlattenLength(linC[..|linC| - 1]);
    }
  }

  lemma {:induction false} FlattenBlock(linC: seq<seq<int>>, n: nat)
    requires n < |linC|
    ensures |Flatten(linC)| == SlaveCount(linC)
    ensures SlaveCount(linC[..n]) + |linC[n]| <= SlaveCount(linC)
    ensures Flatten(linC)[SlaveCount(linC[..n])..SlaveCount(linC[..n]) + |linC[n]|] == linC[n]
  {
    var k := |linC| - 1;
    var A := linC[..k];
    FlattenLength(A);
    FlattenLength(linC);
    if n < k {
      FlattenBlock(A, n);
      assert A[..n] == linC[..n] && A[n] == linC[n];
    } else {
      assert linC[..n] == A;
    }
  }

  /** The constraint group has one entry per slave id, and the slave ids of
      each constraint sit together, in constraint order, after those of the
      constraints before it. */
  lemma FlattenLayout(linC: seq<seq<int>>)
    ensures |Flatten(linC)| == SlaveCount(linC)
    ensures forall n :: 0 <= n < |linC| ==> SlaveCount(linC[..n]) + |linC[n]| <= SlaveCount(linC)
    ensures forall n :: 0 <= n < |linC| ==>
              Flatten(linC)[SlaveCount(linC[..n])..SlaveCount(linC[..n]) + |linC[n]|] == linC[n]
  {
    FlattenLength(linC);
    forall n | 0 <= n < |linC|
      ensures SlaveCount(linC[..n]) + |linC[n]| <= SlaveCount(linC)
      ensures Flatten(linC)[SlaveCount(linC[..n])..SlaveCount(linC[..n]) + |linC[n]|] == linC[n]
    {
      FlattenBlock(linC, n);
    }
  }

  /** The linear-constraint part: the cross groups and then one group of
      all slave ids, or nothing when there are no linear constraints. */
  function LinearGroups(m: Model): seq<Group>
    requires LinksReady(m)
  {
    if |m.linC| > 0 then CrossGroups(m, |m.domains|) + [Flatten(m.linC)] else []
  }

  /** The cross groups of one element, node by node; a node contributes at
      most one group. */
  method AddNodeLinks(m: Model, el: Element) returns (groups: seq<Group>)
    requires LinksReady(m)
    requires forall i :: 0 <= i < |el.nodes| ==> el.nodes[i] * m.maxNdofs + m.maxNdofs <= |m.lct|
    ensures groups == NodeLinks(m, el, |el.nodes|)
  {
    groups := [];
    for j := 0 to |el.nodes|
      invariant groups == NodeLinks(m, el, j)
    {
      var link := FindLink(m, el.nodes[j]);
      if link.Some? {
        groups := groups + [el.lm + m.linC[link.value]];
      }
    }
  }

  /** Scans a node's row of the table for the first degree of freedom that
      names a constraint, stopping there. */
  method FindLink(m: Model, node: nat) returns (link: Option<nat>)
    requires LinksReady(m) && node * m.maxNdofs + m.maxNdofs <= |m.lct|
    ensures link == FirstLink(Row(m, node), 0)
    ensures link.Some? ==> link.value < |m.linC|
  {
    ghost var row := Row(m, node);
    var base := node * m.maxNdofs;
    link := None;
    var k := 0;
    while k < m.maxNdofs
      invariant k <= m.maxNdofs
      invariant FirstLink(row, 0) == FirstLink(row, k)
    {
      var n := m.lct[base + k];
      assert n == row[k];
      if n >= 0 {
        link := Some(n as nat);
        return;
      }
      k := k + 1;
    }
  }

  /** The cross groups of the elements of elastic domain d. */
  method AddElementLinks(m: Model, d: nat) returns (groups: seq<Group>)
    requires LinksReady(m) && d < |m.domains| && m.domains[d].elastic
    ensures groups == ElementLinks(m, d, |m.domains[d].elems|)
  {
    groups := [];
    for e := 0 to |m.domains[d].elems|
      invariant groups == ElementLinks(m, d, e)
    {
      var el := m.domains[d].elems[e];
      if !el.rigid {
        var more := AddNodeLinks(m, el);
        groups := groups + more;
      }
    }
  }

  /** The group of all slave ids, constraint by constraint. */
  method AddSlaves(linC: seq<seq<int>>) returns (lm: Group)
    ensures lm == Flatten(linC)
  {
    lm := [];
    for i := 0 to |linC|
      invariant lm == Flatten(linC[..i])
    {
      assert linC[..i + 1][..i] == linC[..i];
      lm := lm + linC[i];
    }
    assert linC[..|linC|] == linC;
  }

  method AddLinearConstraints(m: Model) returns (groups: seq<Group>)
    requires LinksReady(m)
    ensures groups == LinearGroups(m)
  {
    groups := [];
    if |m.linC| > 0 {
      for d := 0 to |m.domains|
        invariant groups == CrossGroups(m, d)
      {
        if m.domains[d].elastic {
          var more := AddElementLinks(m, d);
          groups := groups + more;
        }
      }
      var lm := AddSlaves(m.linC);
      groups := groups + [lm];
    }
  }

  // ---------------------------------------------------------------------
  // Nonlinear constraints

  function Xyz(id: NodeIds): (r: seq<int>)
    ensures |r| == 3
  {
    [id.x, id.y, id.z]
  }

  /** The slots of a point-constraint group: the constrained node, then the
      eight nodes of the element it lies in. */
  function PointSlots(mesh: seq<NodeIds>, n0: nat, el: seq<nat>): (r: seq<seq<int>>)
    requires n0 < |mesh| && 8 <= |el| && NodesIn(el, mesh)
    ensures |r| == 9 && r[0] == Xyz(mesh[n0]) && forall j :: 0 <= j < 8 ==> r[j + 1] == Xyz(mesh[el[j]])
  {
    [Xyz(mesh[n0])] + seq(8, j requires 0 <= j < 8 => Xyz(mesh[el[j]]))
  }

  /** The point-constraint group as intended: the x, y, z ids of the node
      and of each of the element's eight nodes. */
  function PointLM(mesh: seq<NodeIds>, n0: nat, el: seq<nat>): Group
    requires n0 < |mesh| && 8 <= |el| && NodesIn(el, mesh)
  {
    Join(PointSlots(mesh, n0, el))
  }

  /** Cut every three entries, the intended group gives the node's ids and
      then those of the element's nodes in order. */
  lemma PointLMLayout(mesh: seq<NodeIds>, n0: nat, el: seq<nat>)
    requires n0 < |mesh| && 8 <= |el| && NodesIn(el, mesh)
    ensures var c := Chunks(PointLM(mesh, n0, el), 3);
            |c| == 9 && c[0] == Xyz(mesh[n0]) && forall j :: 1 <= j < 9 ==> c[j] == Xyz(mesh[el[j - 1]])
  {
    var r := PointSlots(mesh, n0, el);
    ChunksJoin(r, 3);
    forall j | 1 <= j < 9
      ensures r[j] == Xyz(mesh[el[j - 1]])
    {
      assert r[(j - 1) + 1] == Xyz(mesh[el[j - 1]]);
    }
  }

  /** Fills the intended point-constraint group node by node. */
  method PointGroup(mesh: seq<NodeIds>, n0: nat, el: seq<nat>) returns (lm: Group)
    requires n0 < |mesh| && 8 <= |el| && NodesIn(el, mesh)
    ensures lm == PointLM(mesh, n0, el)
  {
    var slots := PointSlots(mesh, n0, el);
    assert slots[..1] == [Xyz(mesh[n0])];
    lm := Xyz(mesh[n0]);
    for j := 0 to 8
      invariant lm == Join(slots[..j + 1])
    {
      JoinAppend(slots[..j + 1], slots[j + 1]);
      assert slots[..j + 2] == slots[..j + 1] + [slots[j + 1]];
      lm := lm + Xyz(mesh[el[j]]);
    }
    assert slots[..9] == slots;
  }

  /** The point-constraint group as the loop is written: the loop tests
      and advances a counter `i` left over from the enclosing function while
      its own index stays 0, so the element's first node is written (again
      and again) only when the counter is below 8, and the other 21 entries
      keep the zeros the group starts with. */
  function PointLMAsWritten(mesh: seq<NodeIds>, n0: nat, el: seq<nat>, i: int): (r: Group)
    requires n0 < |mesh| && 1 <= |el| && el[0] < |mesh|
    ensures |r| == 27
  {
    Xyz(mesh[n0]) + (if i < 8 then Xyz(mesh[el[0]]) else [0, 0, 0]) + seq(21, _ => 0)
  }

  /** The loop as written, with the counter it leaves behind. */
  method PointGroupAsWritten(mesh: seq<NodeIds>, n0: nat, el: seq<nat>, i: int) returns (lm: Group, i': int)
    requires n0 < |mesh| && 1 <= |el| && el[0] < |mesh|
    ensures lm == PointLMAsWritten(mesh, n0, el, i)
    ensures i' == if i < 8 then 8 else i
  {
    lm := seq(27, _ => 0);
    var id := mesh[n0];
    lm := lm[0 := id.x][1 := id.y][2 := id.z];
    var j := 0;
    i' := i;
    while i' < 8
      invariant i' == if i < 8 then (if i' < 8 then i' else 8) else i
      invariant i < 8 <= i' ==> lm == PointLMAsWritten(mesh, n0, el, i)
      invariant i' == i ==> lm == Xyz(id) + [0, 0, 0] + seq(21, _ => 0)
      invariant i' < 8 ==> i' == i || lm == PointLMAsWritten(mesh, n0, el, i)
      decreases 8 - i'
    {
      var nj := mesh[el[j]];
      lm := lm[3 * (j + 1) := nj.x][3 * (j + 1) + 1 := nj.y][3 * (j + 1) + 2 := nj.z];
      i' := i' + 1;
    }
  }

  /** Whenever the element's second node has a nonzero x id, the group as
      written differs from the intended one: entry 6 is 0 instead of that
      id. */
  lemma PointLMAsWrittenMisses(mesh: seq<NodeIds>, n0: nat, el: seq<nat>, i: int)
    requires n0 < |mesh| && 8 <= |el| && NodesIn(el, mesh) && mesh[el[1]].x != 0
    ensures PointLMAsWritten(mesh, n0, el, i)[6] == 0
    ensures 6 < |PointLM(mesh, n0, el)| && PointLM(mesh, n0, el)[6] == mesh[el[1]].x
    ensures PointLMAsWritten(mesh, n0, el, i) != PointLM(mesh, n0, el)
  {
    PointLMLayout(mesh, n0, el);
    var g := PointLM(mesh, n0, el);
    var g1, g2 := g[3..], g[3..][3..];
    assert Chunks(g, 3) == [g[..3]] + Chunks(g1, 3);
    assert Chunks(g1, 3) == [g1[..3]] + Chunks(g2, 3);
    assert Chunks(g, 3)[2] == Chunks(g1, 3)[1] == Chunks(g2, 3)[0] == g2[..3];
    assert g2[..3] == Xyz(mesh[el[1]]);
    assert g[6] == g2[0];
  }

  /** Constraint data names nodes and rigid bodies that exist. */
  predicate NonlinearReady(m: Model, c: Nonlinear)
  {
    match c
    case PointConstraint(node, el) => node < |m.mesh| && 8 <= |el| && NodesIn(el, m.mesh)
    case ConstraintSet(_) => true
    case RigidJoint(a, b) => a < |m.bodies| && b < |m.bodies|
    case OtherConstraint => true
  }

  /** The groups of one nonlinear constraint: the point-constraint group, one
      group per augmented linear constraint of a set (its dofs' equation
      ids), or the twelve ids of the two bodies of a rigid joint. */
  function ConstraintGroups(m: Model, c: Nonlinear): seq<Group>
    requires BodiesReady(m.bodies) && NonlinearReady(m, c)
  {
    match c
    case PointConstraint(node, el) => [PointLM(m.mesh, node, el)]
    case ConstraintSet(dofs) => dofs
    case RigidJoint(a, b) => [m.bodies[a][..6] + m.bodies[b][..6]]
    case OtherConstraint => []
  }

  /** The groups of the first n nonlinear constraints. */
  function NonlinearGroups(m: Model, n: nat): seq<Group>
    requires BodiesReady(m.bodies) && n <= |m.nonlinear|
    requires forall i :: 0 <= i < |m.nonlinear| ==> NonlinearReady(m, m.nonlinear[i])
  {
    if n == 0 then [] else NonlinearGroups(m, n - 1) + ConstraintGroups(m, m.nonlinear[n - 1])
  }

  method AddNonlinear(m: Model) returns (groups: seq<Group>)
    requires BodiesReady(m.bodies)
    requires forall i :: 0 <= i < |m.nonlinear| ==> NonlinearReady(m, m.nonlinear[i])
    ensures groups == NonlinearGroups(m, |m.nonlinear|)
  {
    groups := [];
    for i := 0 to |m.nonlinear|
      invariant groups == NonlinearGroups(m, i)
    {
      match m.nonlinear[i]
      case PointConstraint(node, el) =>
        var lm := PointGroup(m.mesh, node, el);
        groups := groups + [lm];
      case ConstraintSet(dofs) =>
        for k := 0 to |dofs|
          invariant groups == NonlinearGroups(m, i) + dofs[..k]
        {
          assert dofs[..k + 1] == dofs[..k] + [dofs[k]];
          groups := groups + [dofs[k]];
        }
        assert dofs[..|dofs|] == dofs;
      case RigidJoint(a, b) =>
        groups := groups + [m.bodies[a][..6] + m.bodies[b][..6]];
      case OtherConstraint =>
    }
  }

  // ---------------------------------------------------------------------
  // The whole profile

  /** The model's static data fits what the builder reads. */
  predicate StaticReady(m: Model)
  {
    && (forall i :: 0 <= i < |m.domains| && m.domains[i].ut4 ==> Ut4Ready(m.domains[i], 4 * m.maxNdofs))
    && BodiesReady(m.bodies)
    && LinksReady(m)
    && forall i :: 0 <= i < |m.nonlinear| ==> NonlinearReady(m, m.nonlinear[i])
  }

  /** The static profile: domains, rigid bodies, linear constraints, then
      nonlinear constraints. */
  function StaticGroups(m: Model): seq<Group>
    requires StaticReady(m)
  {
    AllDomainGroups(m.domains, 4 * m.maxNdofs, |m.domains|) + BodyGroups(m.bodies) + LinearGroups(m) +
    NonlinearGroups(m, |m.nonlinear|)
  }

  /** Builds the static profile part by part. */
  method BuildStatic(m: Model) returns (groups: seq<Group>)
    requires StaticReady(m)
    ensures groups == StaticGroups(m)
  {
    groups := [];
    for d := 0 to |m.domains|
      invariant groups == AllDomainGroups(m.domains, 4 * m.maxNdofs, d)
    {
      var more := AddDomain(m.domains[d], 4 * m.maxNdofs);
      groups := groups + more;
    }
    var bodies := AddBodies(m.bodies);
    var linear := AddLinearConstraints(m);
    var nonlinear := AddNonlinear(m);
    groups := groups + bodies + linear + nonlinear;
  }

  /** The profile builder. `cache` is the static profile kept from the last
      reset; the source keeps it in a function-level static shared by every
      builder. */
  class ProfileBuilder {
    var cache: seq<Group>

    constructor()
      ensures cache == []
    {
      cache := [];
    }

    /** Builds the profile. On a reset the static profile is rebuilt from
        the model and kept; otherwise the kept one is reused as it is, even
        if the model's static data changed. The groups of every active
        contact interface follow, rebuilt each time. */
    method Create(m: Model, breset: bool) returns (profile: seq<Group>)
      requires breset ==> StaticReady(m)
      requires ContactsReady(m.mesh, m.contacts, m.maxNodes)
      modifies this`cache
      ensures breset ==> cache == StaticGroups(m)
      ensures !breset ==> cache == old(cache)
      ensures profile == cache + ContactGroups(m.mesh, m.contacts, m.maxNodes, |m.contacts|)
    {
      if breset {
        cache := BuildStatic(m);
      }
      var contact := AddContacts(m.mesh, m.contacts, m.maxNodes);
      profile := cache + contact;
    }
  }

  /** Any call followed by a call without reset: the second call returns
      the first call's profile whenever the contact part is unchanged,
      whatever the second model's static data. */
  method ReuseStatic(b: ProfileBuilder, m: Model, breset: bool, m': Model) returns (p: seq<Group>, p': seq<Group>)
    requires breset ==> StaticReady(m)
    requires ContactsReady(m.mesh, m.contacts, m.maxNodes)
    requires m'.mesh == m.mesh && m'.contacts == m.contacts && m'.maxNodes == m.maxNodes
    modifies b
    ensures breset ==> p == StaticGroups(m) + ContactGroups(m.mesh, m.contacts, m.maxNodes, |m.contacts|)
    ensures p' == p
  {
    p := b.Create(m, breset);
    p' := b.Create(m', false);
  }
}
