/** A mixture of uncoupled elastic solids: its bulk modulus, deviatoric
    stress and deviatoric tangent are the sums of its components', and a
    parameter "material.param" is looked up in the component named
    "material". The components' own constitutive laws are not modelled:
    their stresses and tangents at a material point are inputs. */
module ElasticMixture {
  import opened Wrappers

  /** The independent components of a symmetric tensor: 6 for a second-order
      stress, 21 for a fourth-order elasticity tensor. */
  type Tensor = seq<real>

  const STRESS_COMPONENTS: nat := 6
  const TANGENT_COMPONENTS: nat := 21

  function Zero(d: nat): (t: Tensor)
    ensures |t| == d && forall k :: 0 <= k < d ==> t[k] == 0.0
  {
    seq(d, k => 0.0)
  }

  function Add(a: Tensor, b: Tensor): (c: Tensor)
    requires |a| == |b|
    ensures |c| == |a| && forall k :: 0 <= k < |a| ==> c[k] == a[k] + b[k]
  {
    seq(|a|, k requires 0 <= k < |a| => a[k] + b[k])
  }

  predicate AllOfSize(ts: seq<Tensor>, d: nat)
  {
    forall i :: 0 <= i < |ts| ==> |ts[i]| == d
  }

  /** The tensors added up, starting from zero. */
  function Sum(ts: seq<Tensor>, d: nat): (s: Tensor)
    requires AllOfSize(ts, d)
    ensures |s| == d
  {
    if ts == [] then Zero(d) else Add(Sum(ts[..|ts| - 1], d), ts[|ts| - 1])
  }

  /** Component k of each tensor added up. */
  function SumAt(ts: seq<Tensor>, k: nat): real
    requires forall i :: 0 <= i < |ts| ==> k < |ts[i]|
  {
    if ts == [] then 0.0 else SumAt(ts[..|ts| - 1], k) + ts[|ts| - 1][k]
  }

  /** The sum is taken component by component. */
  lemma {:induction false} SumComponentwise(ts: seq<Tensor>, d: nat, k: nat)
    requires AllOfSize(ts, d) && k < d
    ensures Sum(ts, d)[k] == SumAt(ts, k)
  {
    if ts != [] {
      SumComponentwise(ts[..|ts| - 1], d, k);
    }
  }

  /** Composition is additive: the mixture of two groups of components has
      the sum of the two groups' contributions. */
  lemma {:induction false} SumAppend(a: seq<Tensor>, b: seq<Tensor>, d: nat)
    requires AllOfSize(a, d) && AllOfSize(b, d)
    ensures AllOfSize(a + b, d)
    ensures Sum(a + b, d) == Add(Sum(a, d), Sum(b, d))
  {
    if b == [] {
      assert a + b == a;
    } else {
      var n := |b| - 1;
      assert (a + b)[..|a + b| - 1] == a + b[..n];
      SumAppend(a, b[..n], d);
    }
  }

  /** Adds the tensors one by one into an accumulator that starts at zero. */
  method Accumulate(ts: seq<Tensor>, d: nat) returns (acc: Tensor)
    requires AllOfSize(ts, d)
    ensures acc == Sum(ts, d)
    ensures forall k :: 0 <= k < d ==> acc[k] == SumAt(ts, k)
  {
    acc := Zero(d);
    var i := 0;
    while i < |ts|
      invariant 0 <= i <= |ts|
      invariant acc == Sum(ts[..i], d)
    {
      assert ts[..i + 1][..i] == ts[..i];
      acc := Add(acc, ts[i]);
      i := i + 1;
    }
    assert ts[..i] == ts;
    forall k | 0 <= k < d ensures acc[k] == SumAt(ts, k) {
      SumComponentwise(ts, d, k);
    }
  }

  /** A parameter name split at its dots: "material.param" is ["material", "param"]. */
  type ParamPath = seq<string>

  /** A parameter, identified by its position in its owner's parameter list. */
  type ParamRef = nat

  /** A material as seen by parameter lookup and bulk-modulus summation: a
      plain material, or a mixture with components of its own. */
  datatype Material = Material(name: string, own: map<ParamPath, ParamRef>, K: real,
                               isMixture: bool, parts: seq<Material>)

  /** A material's own parameter list (the base-class lookup). */
  function OwnLookup(own: map<ParamPath, ParamRef>, s: ParamPath): Option<ParamRef>
  {
    if s in own then Some(own[s]) else None
  }

  /** Whether the head segment of `s` names the material. */
  predicate Names(s: ParamPath, name: string)
  {
    |s| > 0 && s[0] == name
  }

  /** Parameter lookup on any material: a mixture resolves a one-segment
      name itself and hands a longer name to its components. */
  function Lookup(m: Material, s: ParamPath): Option<ParamRef>
    decreases m, 1
  {
    if m.isMixture && |s| != 1 then FirstMatch(m, 0, s) else OwnLookup(m.own, s)
  }

  /** The lookup of the first component from index i on whose name is the
      head segment, with the remaining segments; none when there is none. */
  function FirstMatch(m: Material, i: nat, s: ParamPath): Option<ParamRef>
    requires i <= |m.parts|
    decreases m, 0, |m.parts| - i
  {
    if i == |m.parts| then None
    else if Names(s, m.parts[i].name) then Lookup(m.parts[i], s[1..])
    else FirstMatch(m, i + 1, s)
  }

  /** No component from index i up to index j is named by the head segment. */
  predicate NoneNamed(parts: seq<Material>, s: ParamPath, i: nat, j: nat)
    requires i <= j <= |parts|
  {
    forall l :: i <= l < j ==> !Names(s, parts[l].name)
  }

  /** FirstMatch returns nothing when no component from i on matches. */
  lemma {:induction false} FirstMatchNone(m: Material, i: nat, s: ParamPath)
    requires i <= |m.parts| && NoneNamed(m.parts, s, i, |m.parts|)
    ensures FirstMatch(m, i, s) == None
    decreases |m.parts| - i
  {
    if i < |m.parts| {
      FirstMatchNone(m, i + 1, s);
    }
  }

  /** FirstMatch returns what the first component from i on that the head
      segment names returns. */
  lemma {:induction false} FirstMatchIsFirst(m: Material, i: nat, j: nat, s: ParamPath)
    requires i <= j < |m.parts| && Names(s, m.parts[j].name) && NoneNamed(m.parts, s, i, j)
    ensures FirstMatch(m, i, s) == Lookup(m.parts[j], s[1..])
    decreases j - i
  {
    if i < j {
      assert !Names(s, m.parts[i].name);
      FirstMatchIsFirst(m, i + 1, j, s);
    }
  }

  /** The bulk moduli of the components added up. */
  function SumK(parts: seq<Material>): real
  {
    if parts == [] then 0.0 else SumK(parts[..|parts| - 1]) + parts[|parts| - 1].K
  }

  class UncoupledElasticMixture {
    var name: string
    var own: map<ParamPath, ParamRef>
    var K: real
    var components: seq<Material>

    constructor (name: string, own: map<ParamPath, ParamRef>, K: real, components: seq<Material>)
      ensures this.name == name && this.own == own && this.K == K && this.components == components
    {
      this.name, this.own, this.K, this.components := name, own, K, components;
    }

    /** Adds every component's bulk modulus into the mixture's own. The
        components' initialisation is not modelled: each component's K is
        the value it has after its own Init. */
    method Init()
      modifies this`K
      ensures K == old(K) + SumK(components)
      ensures name == old(name) && own == old(own) && components == old(components)
    {
      var i := 0;
      while i < |components|
        invariant 0 <= i <= |components|
        invariant K == old(K) + SumK(components[..i])
      {
        assert components[..i + 1][..i] == components[..i];
        K := K + components[i].K;
        i := i + 1;
      }
      assert components[..i] == components;
    }

    /** The deviatoric stress: the sum of the components' deviatoric
        stresses at the material point, `stress[i]` being component i's. */
    method DevStress(stress: seq<Tensor>) returns (s: Tensor)
      requires |stress| == |components| && AllOfSize(stress, STRESS_COMPONENTS)
      ensures |s| == STRESS_COMPONENTS
      ensures forall k :: 0 <= k < STRESS_COMPONENTS ==> s[k] == SumAt(stress, k)
    {
      s := Accumulate(stress, STRESS_COMPONENTS);
    }

    /** The deviatoric tangent: the sum of the components' tangents. */
    method DevTangent(tangent: seq<Tensor>) returns (c: Tensor)
      requires |tangent| == |components| && AllOfSize(tangent, TANGENT_COMPONENTS)
      ensures |c| == TANGENT_COMPONENTS
      ensures forall k :: 0 <= k < TANGENT_COMPONENTS ==> c[k] == SumAt(tangent, k)
    {
      c := Accumulate(tangent, TANGENT_COMPONENTS);
    }

    /** The mixture viewed as a material value. */
    function AsMaterial(): Material
      reads this
    {
      Material(name, own, K, true, components)
    }

    /** Looks up "material.param": a one-segment name in the mixture's own
        list, a longer one in the first component named by its head
        segment; none when no component has that name. */
    function GetParameter(s: ParamPath): (r: Option<ParamRef>)
      reads this
      ensures |s| == 1 ==> r == OwnLookup(own, s)
      ensures |s| != 1 && NoneNamed(components, s, 0, |components|) ==> r == None
      ensures forall j :: |s| != 1 && 0 <= j < |components| && Names(s, components[j].name) && NoneNamed(components, s, 0, j)
                          ==> r == Lookup(components[j], s[1..])
    {
      assert |s| != 1 && NoneNamed(components, s, 0, |components|) ==> Lookup(AsMaterial(), s) == None by {
        if |s| != 1 && NoneNamed(components, s, 0, |components|) {
          FirstMatchNone(AsMaterial(), 0, s);
        }
      }
      assert forall j :: |s| != 1 && 0 <= j < |components| && Names(s, components[j].name) && NoneNamed(components, s, 0, j)
                        ==> Lookup(AsMaterial(), s) == Lookup(components[j], s[1..]) by {
        forall j | |s| != 1 && 0 <= j < |components| && Names(s, components[j].name) && NoneNamed(components, s, 0, j)
          ensures Lookup(AsMaterial(), s) == Lookup(components[j], s[1..])
        {
          FirstMatchIsFirst(AsMaterial(), 0, j, s);
        }
      }
      Lookup(AsMaterial(), s)
    }
  }
}
