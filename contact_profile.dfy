/** The contact part of the global stiffness profile. Every active contact
    interface adds one equation group per contact pair it currently has:
    the equation ids of the nodes the pair couples, laid out in a fixed
    number of slots per node, with -1 in every slot no node fills. These
    groups are rebuilt on every call, since contact pairs change between
    calls. */
module ContactProfile {
  import opened EquationIds
  import opened Wrappers

  /** One group of equation ids coupled in the stiffness matrix. */
  type Group = seq<int>

  /** The ids a node contributes to a structural group: x, y, z, ru, rv, rw. */
  function Six(id: NodeIds): (r: seq<int>)
    ensures |r| == 6
  {
    [id.x, id.y, id.z, id.ru, id.rv, id.rw]
  }

  /** The ids a node contributes to a biphasic group: x, y, z, p, ru, rv, rw. */
  function Seven(id: NodeIds): (r: seq<int>)
    ensures |r| == 7
  {
    [id.x, id.y, id.z, id.p, id.ru, id.rv, id.rw]
  }

  /** The ids a node contributes to a multiphasic group: the biphasic ids,
      then the concentration id of solute s. */
  function Eight(id: NodeIds, s: nat): (r: seq<int>)
    requires s < |id.c|
    ensures |r| == 8
  {
    Seven(id) + [id.c[s]]
  }

  function Pad(n: nat): (r: seq<int>)
    ensures |r| == n && forall i :: 0 <= i < n ==> r[i] == -1
  {
    seq(n, _ => -1)
  }

  /** A list of slots written out one after the other. */
  function Join(slots: seq<seq<int>>): seq<int>
  {
    if slots == [] then [] else slots[0] + Join(slots[1..])
  }

  /** Appending a slot writes it out after the others. */
  lemma {:induction false} JoinAppend(slots: seq<seq<int>>, x: seq<int>)
    ensures Join(slots + [x]) == Join(slots) + x
  {
    if slots != [] {
      assert (slots + [x])[1..] == slots[1..] + [x];
      JoinAppend(slots[1..], x);
    } else {
      assert slots + [x] == [x];
    }
  }

  /** A flat group cut into slots of w entries each. */
  function Chunks(g: seq<int>, w: nat): seq<seq<int>>
    decreases |g|
  {
    if w == 0 || |g| < w then [] else [g[..w]] + Chunks(g[w..], w)
  }

  /** Slots of one width, written out and cut again, come back unchanged. */
  lemma {:induction false} ChunksJoin(slots: seq<seq<int>>, w: nat)
    requires w > 0 && forall s :: 0 <= s < |slots| ==> |slots[s]| == w
    ensures Chunks(Join(slots), w) == slots
  {
    if slots != [] {
      var g := Join(slots);
      assert g[..w] == slots[0] && g[w..] == Join(slots[1..]);
      ChunksJoin(slots[1..], w);
      assert [slots[0]] + slots[1..] == slots;
    }
  }

  /** The ids of a list of mesh nodes. */
  predicate NodesIn(nodes: seq<nat>, mesh: seq<NodeIds>)
  {
    forall i :: 0 <= i < |nodes| ==> nodes[i] < |mesh|
  }

  function Ids(mesh: seq<NodeIds>, nodes: seq<nat>): (r: seq<NodeIds>)
    requires NodesIn(nodes, mesh)
    ensures |r| == |nodes| && forall i :: 0 <= i < |nodes| ==> r[i] == mesh[nodes[i]]
  {
    seq(|nodes|, i requires 0 <= i < |nodes| => mesh[nodes[i]])
  }

  // ---------------------------------------------------------------------
  // Facet-to-facet pairs: one group per integration point with a projection

  /** The interfaces that pair a slave element with the master element its
      integration point projects onto. */
  datatype PairKind = FacetSliding | FacetTied | TensionCompression | Biphasic | Multiphasic | TiedBiphasic

  /** Slots per node: 6 structural ids, 7 with the fluid pressure, 8 with
      the concentration of the surface's solute. */
  function Width(k: PairKind): nat
  {
    if k == Multiphasic then 8 else if k == Biphasic || k == TiedBiphasic then 7 else 6
  }

  function NodeSlot(k: PairKind, id: NodeIds, sol: nat): (r: seq<int>)
    requires k == Multiphasic ==> sol < |id.c|
    ensures |r| == Width(k)
  {
    match k
    case Multiphasic => Eight(id, sol)
    case Biphasic => Seven(id)
    case TiedBiphasic => Seven(id)
    case _ => Six(id)
  }

  /** A facet surface: the mesh nodes of each element, for each integration
      point of each element the index of the opposite surface's element it
      projects onto (if any), and the solute of each element. */
  datatype FacetSurface = FacetSurface(elems: seq<seq<nat>>, pme: seq<seq<Option<nat>>>, solu: seq<nat>)

  /** The solute whose concentration id a node of element j contributes. */
  function Solute(k: PairKind, S: FacetSurface, j: nat): nat
    requires k == Multiphasic ==> j < |S.solu|
  {
    if k == Multiphasic then S.solu[j] else 0
  }

  /** The nodes of element j exist, there are at most maxNodes of them and
      each has the element's solute. */
  predicate ElementReady(k: PairKind, mesh: seq<NodeIds>, S: FacetSurface, j: nat, maxNodes: nat)
    requires j < |S.elems| && (k == Multiphasic ==> |S.solu| == |S.elems|)
  {
    && |S.elems[j]| <= maxNodes && NodesIn(S.elems[j], mesh)
    && (k == Multiphasic ==> forall i :: 0 <= i < |S.elems[j]| ==> Solute(k, S, j) < |mesh[S.elems[j][i]].c|)
  }

  /** Surface S can be projected onto surface M. */
  predicate FacetReady(k: PairKind, mesh: seq<NodeIds>, S: FacetSurface, M: FacetSurface, maxNodes: nat)
  {
    && |S.pme| == |S.elems|
    && (k == Multiphasic ==> |S.solu| == |S.elems| && |M.solu| == |M.elems|)
    && (forall j :: 0 <= j < |S.elems| ==> ElementReady(k, mesh, S, j, maxNodes))
    && (forall j :: 0 <= j < |M.elems| ==> ElementReady(k, mesh, M, j, maxNodes))
    && (forall j, p :: 0 <= j < |S.pme| && 0 <= p < |S.pme[j]| && S.pme[j][p].Some? ==> S.pme[j][p].value < |M.elems|)
  }

  /** Element j of S and element m of M can form a contact pair. */
  predicate PairReady(k: PairKind, mesh: seq<NodeIds>, S: FacetSurface, j: nat, M: FacetSurface, m: nat, maxNodes: nat)
  {
    && (k == Multiphasic ==> |S.solu| == |S.elems| && |M.solu| == |M.elems|)
    && j < |S.elems| && m < |M.elems|
    && ElementReady(k, mesh, S, j, maxNodes) && ElementReady(k, mesh, M, m, maxNodes)
  }

  /** Slot l of the pair of element j of S with element m of M. */
  function PairSlot(k: PairKind, mesh: seq<NodeIds>, S: FacetSurface, j: nat, M: FacetSurface, m: nat, maxNodes: nat, l: nat)
    : (r: seq<int>)
    requires PairReady(k, mesh, S, j, M, m, maxNodes)
    ensures |r| == Width(k)
  {
    var se, me := S.elems[j], M.elems[m];
    if l < |se| then NodeSlot(k, mesh[se[l]], Solute(k, S, j))
    else if l < |se| + |me| then NodeSlot(k, mesh[me[l - |se|]], Solute(k, M, m))
    else Pad(Width(k))
  }

  /** The slots of a contact pair: the slave element's nodes, then the
      master element's, then padding up to twice maxNodes nodes. */
  function PairSlots(k: PairKind, mesh: seq<NodeIds>, S: FacetSurface, j: nat, M: FacetSurface, m: nat, maxNodes: nat)
    : (r: seq<seq<int>>)
    requires PairReady(k, mesh, S, j, M, m, maxNodes)
    ensures |r| == 2 * maxNodes && forall l :: 0 <= l < |r| ==> r[l] == PairSlot(k, mesh, S, j, M, m, maxNodes, l)
  {
    seq(2 * maxNodes, l requires 0 <= l < 2 * maxNodes => PairSlot(k, mesh, S, j, M, m, maxNodes, l))
  }

  /** From slot `from` on, the slots hold the nodes of element j of S. */
  predicate SlotsHold(c: seq<seq<int>>, from: nat, k: PairKind, mesh: seq<NodeIds>, S: FacetSurface, j: nat, maxNodes: nat)
    requires k == Multiphasic ==> |S.solu| == |S.elems|
    requires j < |S.elems| && ElementReady(k, mesh, S, j, maxNodes)
  {
    from + |S.elems[j]| <= |c| &&
    forall l :: 0 <= l < |S.elems[j]| ==> c[from + l] == NodeSlot(k, mesh[S.elems[j][l]], Solute(k, S, j))
  }

  /** Slots from `from` on are all -1. */
  predicate SlotsPadded(c: seq<seq<int>>, from: nat, w: nat)
  {
    forall l :: from <= l < |c| ==> c[l] == Pad(w)
  }

  /** The group of a contact pair, cut into slots of Width(k) entries,
      gives twice maxNodes slots, the first of which hold the ids of the
      slave element's nodes. */
  lemma PairGroupSlave(k: PairKind, mesh: seq<NodeIds>, S: FacetSurface, j: nat, M: FacetSurface, m: nat, maxNodes: nat)
    requires PairReady(k, mesh, S, j, M, m, maxNodes)
    ensures |Chunks(Join(PairSlots(k, mesh, S, j, M, m, maxNodes)), Width(k))| == 2 * maxNodes
    ensures SlotsHold(Chunks(Join(PairSlots(k, mesh, S, j, M, m, maxNodes)), Width(k)), 0, k, mesh, S, j, maxNodes)
  {
    var r := PairSlots(k, mesh, S, j, M, m, maxNodes);
    ChunksJoin(r, Width(k));
    forall l | 0 <= l < |S.elems[j]|
      ensures r[l] == NodeSlot(k, mesh[S.elems[j][l]], Solute(k, S, j))
    {
      assert r[l] == PairSlot(k, mesh, S, j, M, m, maxNodes, l);
    }
  }

  /** The slots right after the slave element's hold the ids of the master
      element's nodes. */
  lemma PairGroupMaster(k: PairKind, mesh: seq<NodeIds>, S: FacetSurface, j: nat, M: FacetSurface, m: nat, maxNodes: nat)
    requires PairReady(k, mesh, S, j, M, m, maxNodes)
    ensures SlotsHold(Chunks(Join(PairSlots(k, mesh, S, j, M, m, maxNodes)), Width(k)), |S.elems[j]|, k, mesh, M, m, maxNodes)
  {
    var r := PairSlots(k, mesh, S, j, M, m, maxNodes);
    ChunksJoin(r, Width(k));
    var ns := |S.elems[j]|;
    forall l | 0 <= l < |M.elems[m]|
      ensures r[ns + l] == NodeSlot(k, mesh[M.elems[m][l]], Solute(k, M, m))
    {
      MasterSlot(k, mesh, S, j, M, m, maxNodes, l);
    }
    assert SlotsHold(r, ns, k, mesh, M, m, maxNodes);
  }

  /** Slot |slave| + l of a pair holds master node l. */
  lemma MasterSlot(k: PairKind, mesh: seq<NodeIds>, S: FacetSurface, j: nat, M: FacetSurface, m: nat, maxNodes: nat, l: nat)
    requires PairReady(k, mesh, S, j, M, m, maxNodes) && l < |M.elems[m]|
    ensures PairSlot(k, mesh, S, j, M, m, maxNodes, |S.elems[j]| + l) == NodeSlot(k, mesh[M.elems[m][l]], Solute(k, M, m))
  {
    var ns := |S.elems[j]|;
    assert ns + l - ns == l;
  }

  /** Every slot after the master element's is -1. */
  lemma PairGroupPadding(k: PairKind, mesh: seq<NodeIds>, S: FacetSurface, j: nat, M: FacetSurface, m: nat, maxNodes: nat)
    requires PairReady(k, mesh, S, j, M, m, maxNodes)
    ensures SlotsPadded(Chunks(Join(PairSlots(k, mesh, S, j, M, m, maxNodes)), Width(k)), |S.elems[j]| + |M.elems[m]|, Width(k))
  {
    var r := PairSlots(k, mesh, S, j, M, m, maxNodes);
    ChunksJoin(r, Width(k));
    forall l | |S.elems[j]| + |M.elems[m]| <= l < 2 * maxNodes
      ensures r[l] == Pad(Width(k))
    {
      assert r[l] == PairSlot(k, mesh, S, j, M, m, maxNodes, l);
    }
  }

  /** Fills the group of one contact pair: every slot -1, then the slave
      element's nodes, then the master element's. */
  method PairGroup(k: PairKind, mesh: seq<NodeIds>, S: FacetSurface, j: nat, M: FacetSurface, m: nat, maxNodes: nat)
    returns (lm: Group)
    requires PairReady(k, mesh, S, j, M, m, maxNodes)
    ensures lm == Join(PairSlots(k, mesh, S, j, M, m, maxNodes))
  {
    var se, me := S.elems[j], M.elems[m];
    var slots := seq(2 * maxNodes, _ => Pad(Width(k)));
    for l := 0 to |se|
      invariant |slots| == 2 * maxNodes
      invariant forall s :: 0 <= s < 2 * maxNodes ==>
                  slots[s] == if s < l then PairSlot(k, mesh, S, j, M, m, maxNodes, s) else Pad(Width(k))
    {
      slots := slots[l := NodeSlot(k, mesh[se[l]], Solute(k, S, j))];
    }
    for l := 0 to |me|
      invariant |slots| == 2 * maxNodes
      invariant forall s :: 0 <= s < 2 * maxNodes ==>
                  slots[s] == if s < |se| + l then PairSlot(k, mesh, S, j, M, m, maxNodes, s) else Pad(Width(k))
    {
      slots := slots[|se| + l := NodeSlot(k, mesh[me[l]], Solute(k, M, m))];
    }
    assert slots == PairSlots(k, mesh, S, j, M, m, maxNodes);
    lm := Join(slots);
  }

  /** The groups of the first n integration points of element j of S. */
  function PointGroups(k: PairKind, mesh: seq<NodeIds>, S: FacetSurface, M: FacetSurface, maxNodes: nat, j: nat, n: nat)
    : seq<Group>
    requires FacetReady(k, mesh, S, M, maxNodes) && j < |S.elems| && n <= |S.pme[j]|
  {
    if n == 0 then []
    else
      PointGroups(k, mesh, S, M, maxNodes, j, n - 1) +
      match S.pme[j][n - 1]
      case None => []
      case Some(m) => [Join(PairSlots(k, mesh, S, j, M, m, maxNodes))]
  }

  /** The groups of the first e elements of S, projected onto M. */
  function PassGroups(k: PairKind, mesh: seq<NodeIds>, S: FacetSurface, M: FacetSurface, maxNodes: nat, e: nat): seq<Group>
    requires FacetReady(k, mesh, S, M, maxNodes) && e <= |S.elems|
  {
    if e == 0 then [] else PassGroups(k, mesh, S, M, maxNodes, e - 1) + PointGroups(k, mesh, S, M, maxNodes, e - 1, |S.pme[e - 1]|)
  }

  /** The number of the first n integration points of an element that
      have a projection. */
  function Hits(pme: seq<Option<nat>>, n: nat): nat
    requires n <= |pme|
  {
    if n == 0 then 0 else Hits(pme, n - 1) + (if pme[n - 1].Some? then 1 else 0)
  }

  /** The number of projected integration points of the first e elements. */
  function SurfaceHits(S: FacetSurface, e: nat): nat
    requires |S.pme| == |S.elems| && e <= |S.elems|
  {
    if e == 0 then 0 else SurfaceHits(S, e - 1) + Hits(S.pme[e - 1], |S.pme[e - 1]|)
  }

  /** A pass adds exactly one group per integration point with a projection. */
  lemma {:induction false} PassGroupsCount(k: PairKind, mesh: seq<NodeIds>, S: FacetSurface, M: FacetSurface, maxNodes: nat, e: nat)
    requires FacetReady(k, mesh, S, M, maxNodes) && e <= |S.elems|
    ensures |PassGroups(k, mesh, S, M, maxNodes, e)| == SurfaceHits(S, e)
  {
    if e > 0 {
      PassGroupsCount(k, mesh, S, M, maxNodes, e - 1);
      PointGroupsCount(k, mesh, S, M, maxNodes, e - 1, |S.pme[e - 1]|);
    }
  }

  lemma {:induction false} PointGroupsCount(k: PairKind, mesh: seq<NodeIds>, S: FacetSurface, M: FacetSurface, maxNodes: nat, j: nat, n: nat)
    requires FacetReady(k, mesh, S, M, maxNodes) && j < |S.elems| && n <= |S.pme[j]|
    ensures |PointGroups(k, mesh, S, M, maxNodes, j, n)| == Hits(S.pme[j], n)
  {
    if n > 0 {
      PointGroupsCount(k, mesh, S, M, maxNodes, j, n - 1);
    }
  }

  /** The groups of the projected integration points of element j of S. */
  method ElementPass(k: PairKind, mesh: seq<NodeIds>, S: FacetSurface, M: FacetSurface, maxNodes: nat, j: nat)
    returns (groups: seq<Group>)
    requires FacetReady(k, mesh, S, M, maxNodes) && j < |S.elems|
    ensures groups == PointGroups(k, mesh, S, M, maxNodes, j, |S.pme[j]|)
  {
    groups := [];
    for p := 0 to |S.pme[j]|
      invariant groups == PointGroups(k, mesh, S, M, maxNodes, j, p)
    {
      if S.pme[j][p].Some? {
        var m := S.pme[j][p].value;
        var lm := PairGroup(k, mesh, S, j, M, m, maxNodes);
        groups := groups + [lm];
      }
    }
  }

  /** One pass over surface S, element by element, point by point. */
  method FacetPass(k: PairKind, mesh: seq<NodeIds>, S: FacetSurface, M: FacetSurface, maxNodes: nat) returns (groups: seq<Group>)
    requires FacetReady(k, mesh, S, M, maxNodes)
    ensures groups == PassGroups(k, mesh, S, M, maxNodes, |S.elems|)
  {
    groups := [];
    for j := 0 to |S.elems|
      invariant groups == PassGroups(k, mesh, S, M, maxNodes, j)
    {
      var more := ElementPass(k, mesh, S, M, maxNodes, j);
      groups := groups + more;
    }
  }

  /** Facet-to-facet tied interfaces make one pass; the others make a
      second pass, with the surfaces swapped, when set to two-pass. */
  function Passes(k: PairKind, twoPass: bool): nat
  {
    if k != FacetTied && twoPass then 2 else 1
  }

  // ---------------------------------------------------------------------
  // Node-on-facet interfaces: one group per slave node with a projection

  /** The interfaces pairing a slave node with the master element it
      projects onto. */
  datatype NodeKind = NodeSliding | NodeTied | Periodic

  /** A node surface: the mesh node of each surface node and the mesh
      nodes of the master element it projects onto, if any. */
  datatype NodeSurface = NodeSurface(nodes: seq<nat>, pme: seq<Option<seq<nat>>>)

  predicate NodeReady(mesh: seq<NodeIds>, S: NodeSurface, maxMaster: nat)
  {
    && |S.pme| == |S.nodes| && NodesIn(S.nodes, mesh)
    && forall j :: 0 <= j < |S.pme| && S.pme[j].Some? ==> |S.pme[j].value| <= maxMaster && NodesIn(S.pme[j].value, mesh)
  }

  /** Every node of S has a projection. */
  predicate AllProjected(S: NodeSurface)
  {
    forall j :: 0 <= j < |S.pme| ==> S.pme[j].Some?
  }

  /** n slots of six entries each, every entry -1. */
  function Blank(n: nat): (r: seq<seq<int>>)
    ensures |r| == n && forall s :: 0 <= s < n ==> r[s] == Pad(6)
  {
    seq(n, _ => Pad(6))
  }

  /** n slots of six zeros: a fresh buffer. */
  function Zeroed(n: nat): (r: seq<seq<int>>)
    ensures |r| == n && forall s :: 0 <= s < n ==> |r[s]| == 6
  {
    seq(n, _ => seq(6, _ => 0))
  }

  /** Slot 0 takes the slave node's ids, slots 1 to |master| those of the
      master element's nodes; later slots keep what they held. */
  function Place(buf: seq<seq<int>>, slave: NodeIds, master: seq<NodeIds>): (r: seq<seq<int>>)
    requires |master| < |buf|
    ensures |r| == |buf|
    ensures (forall s :: 0 <= s < |buf| ==> |buf[s]| == 6) ==> forall s :: 0 <= s < |r| ==> |r[s]| == 6
  {
    seq(|buf|, s requires 0 <= s < |buf| => if s == 0 then Six(slave) else if s <= |master| then Six(master[s - 1]) else buf[s])
  }

  /** Slots from `from` on set to -1. */
  function PadFrom(buf: seq<seq<int>>, from: nat): (r: seq<seq<int>>)
    ensures |r| == |buf|
    ensures (forall s :: 0 <= s < |buf| ==> |buf[s]| == 6) ==> forall s :: 0 <= s < |r| ==> |r[s]| == 6
  {
    var blank := Pad(6);
    seq(|buf|, s requires 0 <= s < |buf| => if s < from then buf[s] else blank)
  }

  /** The node-on-facet sliding buffer after one slave node: a triangle
      master clears slots 4 to 6 and a quadrilateral master slots 5 and 6
      before the node's slots are written. */
  function SlidingSlots(buf: seq<seq<int>>, slave: NodeIds, master: seq<NodeIds>): (r: seq<seq<int>>)
    requires |buf| == 7 && |master| <= 6
    ensures |r| == 7
  {
    Place(if |master| == 3 then PadFrom(buf, 4) else if |master| == 4 then PadFrom(buf, 5) else buf, slave, master)
  }

  /** The periodic-boundary buffer after one slave node: a triangle master
      clears slot 4. */
  function PeriodicSlots(buf: seq<seq<int>>, slave: NodeIds, master: seq<NodeIds>): (r: seq<seq<int>>)
    requires |buf| == 5 && |master| <= 4
    ensures |r| == 5
  {
    Place(if |master| == 3 then PadFrom(buf, 4) else buf, slave, master)
  }

  /** In the sliding group of a slave node, slot 0 holds the node's ids,
      slots 1 to n those of the n master nodes, a triangle master leaves
      slots 4 to 6 at -1 and a quadrilateral master slots 5 and 6; any other
      slot beyond the master keeps what the previous node left. */
  lemma SlidingLayout(buf: seq<seq<int>>, slave: NodeIds, master: seq<NodeIds>)
    requires |buf| == 7 && |master| <= 6 && forall s :: 0 <= s < 7 ==> |buf[s]| == 6
    ensures var c := Chunks(Join(SlidingSlots(buf, slave, master)), 6);
            && |c| == 7 && c[0] == Six(slave)
            && (forall l :: 1 <= l <= |master| ==> c[l] == Six(master[l - 1]))
            && (|master| == 3 ==> forall l :: 4 <= l < 7 ==> c[l] == Pad(6))
            && (|master| == 4 ==> forall l :: 5 <= l < 7 ==> c[l] == Pad(6))
            && (|master| != 3 && |master| != 4 ==> forall l :: |master| < l < 7 ==> c[l] == buf[l])
  {
    var r := SlidingSlots(buf, slave, master);
    assert forall s :: 0 <= s < 7 ==> |r[s]| == 6;
    ChunksJoin(r, 6);
  }

  /** The groups of the first n slave nodes of S and the buffer after them,
      starting from buffer buf. */
  function SlidingRun(mesh: seq<NodeIds>, S: NodeSurface, buf: seq<seq<int>>, n: nat): (r: (seq<Group>, seq<seq<int>>))
    requires |buf| == 7 && NodeReady(mesh, S, 6) && n <= |S.nodes|
    ensures |r.1| == 7
  {
    if n == 0 then ([], buf)
    else
      var (gs, b) := SlidingRun(mesh, S, buf, n - 1);
      match S.pme[n - 1]
      case None => (gs, b)
      case Some(en) =>
        var b' := SlidingSlots(b, mesh[S.nodes[n - 1]], Ids(mesh, en));
        (gs + [Join(b')], b')
  }

  /** One pass of a node-on-facet sliding interface over the slave nodes of
      S: the same buffer is reused from node to node. */
  method SlidingPass(mesh: seq<NodeIds>, S: NodeSurface, buf: seq<seq<int>>) returns (groups: seq<Group>, buf': seq<seq<int>>)
    requires |buf| == 7 && NodeReady(mesh, S, 6)
    ensures (groups, buf') == SlidingRun(mesh, S, buf, |S.nodes|)
  {
    groups, buf' := [], buf;
    for j := 0 to |S.nodes|
      invariant (groups, buf') == SlidingRun(mesh, S, buf, j)
    {
      if S.pme[j].Some? {
        var en := S.pme[j].value;
        var master := Ids(mesh, en);
        if |en| == 3 {
          buf' := PadFrom(buf', 4);
        }
        if |en| == 4 {
          buf' := PadFrom(buf', 5);
        }
        buf' := PlaceNode(buf', mesh[S.nodes[j]], master);
        groups := groups + [Join(buf')];
      }
    }
  }

  /** Writes slot 0 and then the master nodes' slots one by one. */
  method PlaceNode(buf: seq<seq<int>>, slave: NodeIds, master: seq<NodeIds>) returns (r: seq<seq<int>>)
    requires |master| < |buf|
    ensures r == Place(buf, slave, master)
  {
    r := buf[0 := Six(slave)];
    for k := 0 to |master|
      invariant |r| == |buf|
      invariant forall s :: 0 <= s < |buf| ==>
                  r[s] == if s == 0 then Six(slave) else if s <= k then Six(master[s - 1]) else buf[s]
    {
      r := r[k + 1 := Six(master[k])];
    }
  }

  /** The tied group of the first n slave nodes: every slot cleared before
      each node is written. */
  function TiedGroups(mesh: seq<NodeIds>, S: NodeSurface, maxNodes: nat, n: nat): seq<Group>
    requires NodeReady(mesh, S, maxNodes) && n <= |S.nodes|
  {
    if n == 0 then []
    else
      TiedGroups(mesh, S, maxNodes, n - 1) +
      match S.pme[n - 1]
      case None => []
      case Some(en) => [Join(Place(Blank(maxNodes + 1), mesh[S.nodes[n - 1]], Ids(mesh, en)))]
  }

  /** In a tied group, slot 0 holds the slave node's ids, slots 1 to n
      those of the n master nodes, and every later slot is -1. */
  lemma TiedLayout(slave: NodeIds, master: seq<NodeIds>, maxNodes: nat)
    requires |master| <= maxNodes
    ensures var c := Chunks(Join(Place(Blank(maxNodes + 1), slave, master)), 6);
            && |c| == maxNodes + 1 && c[0] == Six(slave)
            && (forall l :: 1 <= l <= |master| ==> c[l] == Six(master[l - 1]))
            && (forall l :: |master| < l <= maxNodes ==> c[l] == Pad(6))
  {
    var r := Place(Blank(maxNodes + 1), slave, master);
    ChunksJoin(r, 6);
  }

  method TiedPass(mesh: seq<NodeIds>, S: NodeSurface, maxNodes: nat) returns (groups: seq<Group>)
    requires NodeReady(mesh, S, maxNodes)
    ensures groups == TiedGroups(mesh, S, maxNodes, |S.nodes|)
  {
    groups := [];
    for j := 0 to |S.nodes|
      invariant groups == TiedGroups(mesh, S, maxNodes, j)
    {
      if S.pme[j].Some? {
        var lm := PlaceNode(Blank(maxNodes + 1), mesh[S.nodes[j]], Ids(mesh, S.pme[j].value));
        groups := groups + [Join(lm)];
      }
    }
  }

  /** The periodic groups of the first n slave nodes, every one projected,
      from buffer buf. */
  function PeriodicRun(mesh: seq<NodeIds>, S: NodeSurface, buf: seq<seq<int>>, n: nat): (r: (seq<Group>, seq<seq<int>>))
    requires |buf| == 5 && NodeReady(mesh, S, 4) && AllProjected(S) && n <= |S.nodes|
    ensures |r.1| == 5
  {
    if n == 0 then ([], buf)
    else
      var (gs, b) := PeriodicRun(mesh, S, buf, n - 1);
      var b' := PeriodicSlots(b, mesh[S.nodes[n - 1]], Ids(mesh, S.pme[n - 1].value));
      (gs + [Join(b')], b')
  }

  method PeriodicPass(mesh: seq<NodeIds>, S: NodeSurface) returns (groups: seq<Group>)
    requires NodeReady(mesh, S, 4) && AllProjected(S)
    ensures groups == PeriodicRun(mesh, S, Zeroed(5), |S.nodes|).0
  {
    groups := [];
    var buf := Zeroed(5);
    for j := 0 to |S.nodes|
      invariant (groups, buf) == PeriodicRun(mesh, S, Zeroed(5), j)
    {
      var en := S.pme[j].value;
      if |en| == 3 {
        buf := PadFrom(buf, 4);
      }
      buf := PlaceNode(buf, mesh[S.nodes[j]], Ids(mesh, en));
      groups := groups + [Join(buf)];
    }
  }

  /** The surface-constraint group of slave node j: five cleared slots, then
      the node and its master element. */
  function ConstraintGroup(mesh: seq<NodeIds>, S: NodeSurface, j: nat): Group
    requires NodeReady(mesh, S, 4) && AllProjected(S) && j < |S.nodes|
  {
    Join(Place(Blank(5), mesh[S.nodes[j]], Ids(mesh, S.pme[j].value)))
  }

  /** One group per slave node. The reference node's group is filled first
      but cleared by the first slave node before it is ever added, so it
      contributes nothing; the reference element must still exist. */
  function ConstraintGroups(mesh: seq<NodeIds>, S: NodeSurface, nref: nat, n: nat): seq<Group>
    requires NodeReady(mesh, S, 4) && AllProjected(S) && nref < |S.nodes| && n <= |S.nodes|
  {
    if n == 0 then [] else ConstraintGroups(mesh, S, nref, n - 1) + [ConstraintGroup(mesh, S, n - 1)]
  }

  method ConstraintPass(mesh: seq<NodeIds>, S: NodeSurface, nref: nat) returns (groups: seq<Group>)
    requires NodeReady(mesh, S, 4) && AllProjected(S) && nref < |S.nodes|
    ensures groups == ConstraintGroups(mesh, S, nref, |S.nodes|)
  {
    var lm := PlaceNode(Blank(5), mesh[S.nodes[nref]], Ids(mesh, S.pme[nref].value));
    groups := [];
    for j := 0 to |S.nodes|
      invariant groups == ConstraintGroups(mesh, S, nref, j)
    {
      lm := PlaceNode(Blank(5), mesh[S.nodes[j]], Ids(mesh, S.pme[j].value));
      groups := groups + [Join(lm)];
    }
  }

  // ---------------------------------------------------------------------
  // Rigid walls

  /** The groups of the first n wall nodes: the six ids of each node whose
      gap is not negative. */
  function WallGroups(mesh: seq<NodeIds>, nodes: seq<nat>, gap: seq<real>, n: nat): seq<Group>
    requires NodesIn(nodes, mesh) && |gap| == |nodes| && n <= |nodes|
  {
    if n == 0 then []
    else WallGroups(mesh, nodes, gap, n - 1) + (if gap[n - 1] >= 0.0 then [Six(mesh[nodes[n - 1]])] else [])
  }

  /** A rigid wall adds exactly the six ids of each of its nodes whose gap
      is not negative. */
  lemma {:induction false} WallGroupsMembers(mesh: seq<NodeIds>, nodes: seq<nat>, gap: seq<real>, n: nat)
    requires NodesIn(nodes, mesh) && |gap| == |nodes| && n <= |nodes|
    ensures forall g :: g in WallGroups(mesh, nodes, gap, n) <==>
              exists j :: 0 <= j < n && gap[j] >= 0.0 && g == Six(mesh[nodes[j]])
  {
    if n > 0 {
      WallGroupsMembers(mesh, nodes, gap, n - 1);
    }
  }

  method WallPass(mesh: seq<NodeIds>, nodes: seq<nat>, gap: seq<real>) returns (groups: seq<Group>)
    requires NodesIn(nodes, mesh) && |gap| == |nodes|
    ensures groups == WallGroups(mesh, nodes, gap, |nodes|)
  {
    groups := [];
    for j := 0 to |nodes|
      invariant groups == WallGroups(mesh, nodes, gap, j)
    {
      if gap[j] >= 0.0 {
        groups := groups + [Six(mesh[nodes[j]])];
      }
    }
  }

  // ---------------------------------------------------------------------
  // Interfaces

  /** A contact interface as the profile builder sees it. Interfaces of a
      kind the builder does not know add nothing. */
  datatype Contact =
    | FacetPair(active: bool, kind: PairKind, twoPass: bool, ss: FacetSurface, ms: FacetSurface)
    | NodeOnFacet(active: bool, nkind: NodeKind, twoPass: bool, ns: NodeSurface, nm: NodeSurface)
    | SurfaceConstraint(active: bool, nref: nat, ns: NodeSurface)
    | RigidWall(active: bool, nodes: seq<nat>, gap: seq<real>)
    | OtherContact(active: bool)

  /** The interface's surfaces fit the mesh and the slot layout of its kind. */
  predicate ContactReady(mesh: seq<NodeIds>, c: Contact, maxNodes: nat)
  {
    match c
    case FacetPair(_, k, twoPass, ss, ms) =>
      FacetReady(k, mesh, ss, ms, maxNodes) && (Passes(k, twoPass) == 2 ==> FacetReady(k, mesh, ms, ss, maxNodes))
    case NodeOnFacet(_, nk, twoPass, ns, nm) =>
      (match nk
       case NodeSliding => NodeReady(mesh, ns, 6) && (twoPass ==> NodeReady(mesh, nm, 6))
       case NodeTied => NodeReady(mesh, ns, maxNodes)
       case Periodic => NodeReady(mesh, ns, 4) && AllProjected(ns))
    case SurfaceConstraint(_, nref, ns) => NodeReady(mesh, ns, 4) && AllProjected(ns) && nref < |ns.nodes|
    case RigidWall(_, nodes, gap) => NodesIn(nodes, mesh) && |gap| == |nodes|
    case OtherContact(_) => true
  }

  /** The groups one interface adds. */
  function InterfaceGroups(mesh: seq<NodeIds>, c: Contact, maxNodes: nat): seq<Group>
    requires ContactReady(mesh, c, maxNodes)
  {
    match c
    case FacetPair(_, k, twoPass, ss, ms) =>
      PassGroups(k, mesh, ss, ms, maxNodes, |ss.elems|) +
      (if Passes(k, twoPass) == 2 then PassGroups(k, mesh, ms, ss, maxNodes, |ms.elems|) else [])
    case NodeOnFacet(_, nk, twoPass, ns, nm) =>
      (match nk
       case NodeSliding =>
         var (g0, b0) := SlidingRun(mesh, ns, Zeroed(7), |ns.nodes|);
         if twoPass then g0 + SlidingRun(mesh, nm, b0, |nm.nodes|).0 else g0
       case NodeTied => TiedGroups(mesh, ns, maxNodes, |ns.nodes|)
       case Periodic => PeriodicRun(mesh, ns, Zeroed(5), |ns.nodes|).0)
    case SurfaceConstraint(_, nref, ns) => ConstraintGroups(mesh, ns, nref, |ns.nodes|)
    case RigidWall(_, nodes, gap) => WallGroups(mesh, nodes, gap, |nodes|)
    case OtherContact(_) => []
  }

  /** Adds the groups of one interface, pass by pass. */
  method AddContactInterface(mesh: seq<NodeIds>, c: Contact, maxNodes: nat) returns (groups: seq<Group>)
    requires ContactReady(mesh, c, maxNodes)
    ensures groups == InterfaceGroups(mesh, c, maxNodes)
  {
    match c
    case FacetPair(_, k, twoPass, ss, ms) =>
      groups := [];
      for np := 0 to Passes(k, twoPass)
        invariant groups == if np == 0 then [] else if np == 1 then PassGroups(k, mesh, ss, ms, maxNodes, |ss.elems|)
                            else InterfaceGroups(mesh, c, maxNodes)
      {
        var more;
        if np == 0 {
          more := FacetPass(k, mesh, ss, ms, maxNodes);
        } else {
          more := FacetPass(k, mesh, ms, ss, maxNodes);
        }
        groups := groups + more;
      }
    case NodeOnFacet(_, nk, twoPass, ns, nm) =>
      if nk == NodeSliding {
        var buf;
        groups, buf := SlidingPass(mesh, ns, Zeroed(7));
        if twoPass {
          var more;
          more, buf := SlidingPass(mesh, nm, buf);
          groups := groups + more;
        }
      } else if nk == NodeTied {
        groups := TiedPass(mesh, ns, maxNodes);
      } else {
        groups := PeriodicPass(mesh, ns);
      }
    case SurfaceConstraint(_, nref, ns) =>
      groups := ConstraintPass(mesh, ns, nref);
    case RigidWall(_, nodes, gap) =>
      groups := WallPass(mesh, nodes, gap);
    case OtherContact(_) =>
      groups := [];
  }

  /** Every active interface fits the mesh. */
  predicate ContactsReady(mesh: seq<NodeIds>, cs: seq<Contact>, maxNodes: nat)
  {
    forall i :: 0 <= i < |cs| && cs[i].active ==> ContactReady(mesh, cs[i], maxNodes)
  }

  /** The groups of the active ones among the first n interfaces. */
  function ContactGroups(mesh: seq<NodeIds>, cs: seq<Contact>, maxNodes: nat, n: nat): seq<Group>
    requires ContactsReady(mesh, cs, maxNodes) && n <= |cs|
  {
    if n == 0 then []
    else ContactGroups(mesh, cs, maxNodes, n - 1) + (if cs[n - 1].active then InterfaceGroups(mesh, cs[n - 1], maxNodes) else [])
  }

  /** Every contact group comes from an active interface. */
  lemma {:induction false} ContactGroupsFromActive(mesh: seq<NodeIds>, cs: seq<Contact>, maxNodes: nat, n: nat)
    requires ContactsReady(mesh, cs, maxNodes) && n <= |cs|
    ensures forall g :: g in ContactGroups(mesh, cs, maxNodes, n) ==>
              exists i :: 0 <= i < n && cs[i].active && g in InterfaceGroups(mesh, cs[i], maxNodes)
  {
    if n > 0 {
      ContactGroupsFromActive(mesh, cs, maxNodes, n - 1);
    }
  }

  /** The contact pass over all interfaces, skipping inactive ones. */
  method AddContacts(mesh: seq<NodeIds>, cs: seq<Contact>, maxNodes: nat) returns (groups: seq<Group>)
    requires ContactsReady(mesh, cs, maxNodes)
    ensures groups == ContactGroups(mesh, cs, maxNodes, |cs|)
  {
    groups := [];
    for i := 0 to |cs|
      invariant groups == ContactGroups(mesh, cs, maxNodes, i)
    {
      if cs[i].active {
        var more := AddContactInterface(mesh, cs[i], maxNodes);
        groups := groups + more;
      }
    }
  }
}
