/** The part of the multiphasic solver's restart archive that the solver
    itself writes after its base class: the pressure tolerance, the
    displacement and pressure equation counts, the concentration tolerance
    and one equation count per solute slot. The archive is a stream of
    entries of two kinds, read back in the order they were written. */
module SolverArchive {
  import opened Wrappers

  datatype Entry = Real(r: real) | Int(n: int)

  /** What the solver stores: the tolerances it owns and its equation
      counts. */
  datatype Saved = Saved(Ptol: real, ndeq: int, npeq: int, Ctol: real, nceq: seq<int>)

  function Ints(ns: seq<int>): (a: seq<Entry>)
    ensures |a| == |ns| && forall i :: 0 <= i < |ns| ==> a[i] == Int(ns[i])
  {
    if ns == [] then [] else [Int(ns[0])] + Ints(ns[1..])
  }

  /** Saving writes Ptol, ndeq, npeq, then Ctol and the counts per slot. */
  function Save(x: Saved): seq<Entry>
  {
    [Real(x.Ptol), Int(x.ndeq), Int(x.npeq)] + [Real(x.Ctol)] + Ints(x.nceq)
  }

  /** Reading one entry fails when the stream is exhausted or the entry is
      of the other kind. */
  function ReadReal(a: seq<Entry>): (o: Option<(real, seq<Entry>)>)
    ensures o.Some? <==> a != [] && a[0].Real?
    ensures o.Some? ==> o.value == (a[0].r, a[1..])
  {
    if a != [] && a[0].Real? then Some((a[0].r, a[1..])) else None
  }

  function ReadInt(a: seq<Entry>): (o: Option<(int, seq<Entry>)>)
    ensures o.Some? <==> a != [] && a[0].Int?
    ensures o.Some? ==> o.value == (a[0].n, a[1..])
  {
    if a != [] && a[0].Int? then Some((a[0].n, a[1..])) else None
  }

  /** Reads k integers in a row, one per solute slot. */
  function ReadInts(a: seq<Entry>, k: nat): Option<(seq<int>, seq<Entry>)>
    decreases k
  {
    if k == 0 then Some(([], a))
    else match ReadInt(a)
      case None => None
      case Some((n, rest)) =>
        match ReadInts(rest, k - 1)
          case None => None
          case Some((ns, rest')) => Some(([n] + ns, rest'))
  }

  /** The counts written per slot read back as themselves. */
  lemma {:induction false} ReadIntsSaved(ns: seq<int>, rest: seq<Entry>)
    ensures ReadInts(Ints(ns) + rest, |ns|) == Some((ns, rest))
  {
    if ns == [] {
      assert Ints(ns) + rest == rest;
    } else {
      var a := Ints(ns) + rest;
      assert a == [Int(ns[0])] + (Ints(ns[1..]) + rest);
      assert ReadInt(a) == Some((ns[0], Ints(ns[1..]) + rest));
      ReadIntsSaved(ns[1..], rest);
      assert [ns[0]] + ns[1..] == ns;
    }
  }

  /** Loading as the solver reads: Ptol, then ndeq and npeq twice, then
      Ctol and the counts of k slots. */
  function LoadAsWritten(a: seq<Entry>, k: nat): Option<(Saved, seq<Entry>)>
  {
    match ReadReal(a)
    case None => None
    case Some((ptol, a1)) =>
      match ReadInt(a1)
      case None => None
      case Some((_, a2)) =>
        match ReadInt(a2)
        case None => None
        case Some((_, a3)) =>
          match ReadInt(a3)
          case None => None
          case Some((nd, a4)) =>
            match ReadInt(a4)
            case None => None
            case Some((np, a5)) =>
              match ReadReal(a5)
              case None => None
              case Some((ctol, a6)) =>
                match ReadInts(a6, k)
                case None => None
                case Some((nc, a7)) => Some((Saved(ptol, nd, np, ctol, nc), a7))
  }

  /** What the solver saved cannot be loaded back as written: the second
      read of ndeq meets the concentration tolerance. */
  lemma LoadAsWrittenFails(x: Saved, rest: seq<Entry>)
    ensures LoadAsWritten(Save(x) + rest, |x.nceq|) == None
  {
    var a := Save(x) + rest;
    assert a[..4] == [Real(x.Ptol), Int(x.ndeq), Int(x.npeq), Real(x.Ctol)];
    assert a[1..][1..][1..] == a[3..] && a[3] == Real(x.Ctol);
  }

  /** Loading with each field read once, in the order it was saved. */
  function Load(a: seq<Entry>, k: nat): Option<(Saved, seq<Entry>)>
  {
    match ReadReal(a)
    case None => None
    case Some((ptol, a1)) =>
      match ReadInt(a1)
      case None => None
      case Some((nd, a2)) =>
        match ReadInt(a2)
        case None => None
        case Some((np, a3)) =>
          match ReadReal(a3)
          case None => None
          case Some((ctol, a4)) =>
            match ReadInts(a4, k)
            case None => None
            case Some((nc, a5)) => Some((Saved(ptol, nd, np, ctol, nc), a5))
  }

  /** Loading what was saved gives back the saved state and leaves what
      follows in the archive unread. */
  lemma LoadSave(x: Saved, rest: seq<Entry>)
    ensures Load(Save(x) + rest, |x.nceq|) == Some((x, rest))
  {
    var a := Save(x) + rest;
    assert a[1..][1..][1..][1..] == Ints(x.nceq) + rest;
    ReadIntsSaved(x.nceq, rest);
  }
}
