/** The node/link store of the main engine: the cell-cell link arrays
    (`NodeConfiguration`) and the cell-substrate link arrays
    (`SubsConfiguration`). Each per-pair attribute is an N x N (or
    N x Nsubs) array that `AddLink` and `RemoveLink` update in place for one
    pair. */
module Store {
  import opened Vectors
  import opened Links

  /** After the step, a[i, j] holds vij and a[j, i] holds vji (the latter
      written last, so it wins when i == j); nothing else changed. */
  twostate predicate AssignedPair<T>(a: array2<T>, i: nat, j: nat, vij: T, vji: T)
    reads a
  {
    forall p, q :: 0 <= p < a.Length0 && 0 <= q < a.Length1 ==>
      a[p, q] == (if p == j && q == i then vji else if p == i && q == j then vij else old(a[p, q]))
  }

  /** After the step, a[i, j] holds v; nothing else changed. */
  twostate predicate AssignedAt<T>(a: array2<T>, i: nat, j: nat, v: T)
    reads a
  {
    forall p, q :: 0 <= p < a.Length0 && 0 <= q < a.Length1 ==>
      a[p, q] == (if p == i && q == j then v else old(a[p, q]))
  }

  method SetPair<T>(a: array2<T>, i: nat, j: nat, vij: T, vji: T)
    requires i < a.Length0 && j < a.Length1 && j < a.Length0 && i < a.Length1
    modifies a
    ensures AssignedPair(a, i, j, vij, vji)
    ensures vij == vji && old(Symmetric(a)) ==> Symmetric(a)
  {
    a[i, j] := vij;
    a[j, i] := vji;
  }

  method SetAt<T>(a: array2<T>, i: nat, j: nat, v: T)
    requires i < a.Length0 && j < a.Length1
    modifies a
    ensures AssignedAt(a, i, j, v)
  {
    a[i, j] := v;
  }

  /** The same pair of entries of two distinct arrays set both ways, to va
      in a and to vb in b. */
  method SetPairs<T>(a: array2<T>, b: array2<T>, i: nat, j: nat, va: T, vb: T)
    requires a != b
    requires i < a.Length0 && j < a.Length1 && j < a.Length0 && i < a.Length1
    requires i < b.Length0 && j < b.Length1 && j < b.Length0 && i < b.Length1
    modifies a, b
    ensures AssignedPair(a, i, j, va, va) && AssignedPair(b, i, j, vb, vb)
    ensures old(Symmetric(a)) ==> Symmetric(a)
    ensures old(Symmetric(b)) ==> Symmetric(b)
  {
    SetPair(a, i, j, va, va);
    SetPair(b, i, j, vb, vb);
  }

  /** The same entry of two distinct arrays set to v. */
  method SetAts<T>(a: array2<T>, b: array2<T>, i: nat, j: nat, v: T)
    requires a != b
    requires i < a.Length0 && j < a.Length1 && i < b.Length0 && j < b.Length1
    modifies a, b
    ensures AssignedAt(a, i, j, v) && AssignedAt(b, i, j, v)
  {
    SetAt(a, i, j, v);
    SetAt(b, i, j, v);
  }

  ghost predicate Symmetric<T>(a: array2<T>)
    reads a
  {
    forall p, q :: 0 <= p < a.Length0 && 0 <= q < a.Length0 && p < a.Length1 && q < a.Length1 ==>
      a[p, q] == a[q, p]
  }

  ghost predicate Shaped<T>(a: array2<T>, rows: nat, cols: nat) {
    a.Length0 == rows && a.Length1 == cols
  }

  /** The optional arguments of the cell-cell `addlink`. */
  datatype LinkParams = LinkParams(
    t1: Option<Vec3>, t2: Option<Vec3>, d0: Option<real>, k: Option<real>,
    bend: Option<real>, twist: Option<real>, n: Option<Vec3>,
    norm1: Option<Vec3>, norm2: Option<Vec3>)

  /** `addlink(ni, mi)` with every optional argument omitted. */
  const NoParams := LinkParams(None, None, None, None, None, None, None, None, None)

  /** The optional arguments of the cell-substrate `addlink`. */
  datatype SubsLinkParams = SubsLinkParams(
    t1: Option<Vec3>, d0: Option<real>, k: Option<real>,
    bend: Option<real>, twist: Option<real>, n: Option<Vec3>,
    norm1: Option<Vec3>, norm2: Option<Vec3>)

  /** Default spring constant of a new link. */
  const DefaultK: real := 15.0

  /** The vector the default link normal is built from: e x ez, or e x ex when
      e is (nearly) parallel to ez, i.e. when |e x ez| < 1e-5. */
  function NormalAxis(e: Vec3): Vec3 {
    var c := Cross(e, Ez);
    if NormSq(c) < 0.0000000001 then Cross(e, Ex) else c
  }

  /** The default normal is perpendicular to the link direction, and for a
      unit direction the fallback never leaves a degenerate (near-zero) axis. */
  lemma NormalAxisSound(e: Vec3)
    ensures Dot(NormalAxis(e), e) == 0.0
    ensures NormSq(e) == 1.0 ==> NormSq(NormalAxis(e)) >= 0.0000000001
  {
    var c := Cross(e, Ez);
    assert NormSq(c) == e.x * e.x + e.y * e.y;
    assert NormSq(Cross(e, Ex)) == e.y * e.y + e.z * e.z;
  }

  /** A preferred tangent in a node's local frame: the supplied direction,
      normalised, or else the current link direction, rotated by `rot`. */
  function Tangent(rot: Mat3, supplied: Option<Vec3>, actual: Vec3, num: Numerics): Vec3 {
    MatVec(rot, if supplied.Some? then num.unit(supplied.value) else actual)
  }

  /** A stored normal: the supplied one as is, or else `n` (default: the
      normalised `NormalAxis` of the link direction e) rotated by `rot`. */
  function LinkNormal(rot: Mat3, supplied: Option<Vec3>, n: Option<Vec3>, e: Vec3, num: Numerics): Vec3 {
    if supplied.Some? then supplied.value
    else MatVec(rot, if n.Some? then n.value else num.unit(NormalAxis(e)))
  }

  /** After the step, a supplied bend b is in both entries of the pair and
      a supplied twist tw in twist[mi, ni] and, overriding, in bend[ni, mi];
      nothing else of bend or twist changed. */
  twostate predicate BendTwistWritten(bend: array2<real>, twist: array2<real>, ni: nat, mi: nat, b: Option<real>, tw: Option<real>)
    reads bend, twist
  {
    && (forall p, q :: 0 <= p < bend.Length0 && 0 <= q < bend.Length1 ==>
         bend[p, q] == (if p == ni && q == mi && tw.Some? then tw.value
                        else if IsPair(p, q, ni, mi) && b.Some? then b.value
                        else old(bend[p, q])))
    && (forall p, q :: 0 <= p < twist.Length0 && 0 <= q < twist.Length1 ==>
         twist[p, q] == (if p == mi && q == ni && tw.Some? then tw.value else old(twist[p, q])))
  }

  /** The bend and twist writes of `addlink`: a supplied bend b goes to
      both entries; a supplied twist tw goes to twist[mi, ni] and, written
      last, to bend[ni, mi]. */
  method SetBendTwist(bend: array2<real>, twist: array2<real>, ni: nat, mi: nat, b: Option<real>, tw: Option<real>)
    requires bend != twist
    requires ni < bend.Length0 && mi < bend.Length0 && ni < bend.Length1 && mi < bend.Length1
    requires ni < twist.Length0 && mi < twist.Length0 && ni < twist.Length1 && mi < twist.Length1
    modifies bend, twist
    ensures BendTwistWritten(bend, twist, ni, mi, b, tw)
  {
    if b.Some? {
      SetPair(bend, mi, ni, b.value, b.value);
    }
    if tw.Some? {
      SetAt(twist, mi, ni, tw.value);
      SetAt(bend, ni, mi, tw.value);
    }
  }

  /** The tangent and normal writes of `addlink`, both ends of the pair. */
  method SetFrames(t: array2<Vec3>, norm: array2<Vec3>, ni: nat, mi: nat, t1: Vec3, t2: Vec3, n1: Vec3, n2: Vec3)
    requires t != norm
    requires ni < t.Length0 && mi < t.Length0 && ni < t.Length1 && mi < t.Length1
    requires ni < norm.Length0 && mi < norm.Length0 && ni < norm.Length1 && mi < norm.Length1
    modifies t, norm
    ensures AssignedPair(t, ni, mi, t1, t2) && AssignedPair(norm, ni, mi, n1, n2)
  {
    SetPair(t, ni, mi, t1, t2);
    SetPair(norm, ni, mi, n1, n2);
  }

  /** The parameters of one link entry (i, j): tangent, normal, the normal
      of the transposed entry (j, i), bending and torsion rigidity, spring
      constant and rest length. */
  datatype LinkRecord = LinkRecord(link: Link, t: Vec3, norm: Vec3, normT: Vec3, bend: real, twist: real, k: real, d0: real)

  class NodeConfiguration {
    const N: nat
    const dims: nat
    var nodesX: seq<Vec3>
    var nodesPhi: seq<Vec3>
    const islink: array2<bool>
    const e: array2<Vec3>
    const d: array2<real>
    const k: array2<real>
    const bend: array2<real>
    const twist: array2<real>
    const d0: array2<real>
    const t: array2<Vec3>
    const norm: array2<Vec3>
    const Mlink: array2<Vec3>
    const Flink: array2<Vec3>

    ghost predicate Valid()
      reads this
    {
      && |nodesX| == N && |nodesPhi| == N
      && Shaped(islink, N, N) && Shaped(e, N, N) && Shaped(d, N, N) && Shaped(k, N, N)
      && Shaped(bend, N, N) && Shaped(twist, N, N) && Shaped(d0, N, N) && Shaped(t, N, N)
      && Shaped(norm, N, N) && Shaped(Mlink, N, N) && Shaped(Flink, N, N)
      && d != k && d != bend && d != twist && d != d0
      && k != bend && k != twist && k != d0 && bend != twist && bend != d0 && twist != d0
      && e != t && e != norm && e != Mlink && e != Flink
      && t != norm && t != Mlink && t != Flink && norm != Mlink && norm != Flink && Mlink != Flink
    }

    /** No link: k = 0, bend = 10, twist = 1, all vectors zero. A dimension
        other than 2 or 3 ends the program, and so does an empty configuration
        (the source divides by the number of nodes). */
    constructor (num: nat, dimensions: nat)
      requires num > 0 && (dimensions == 2 || dimensions == 3)
      ensures Valid() && N == num && dims == dimensions
      ensures forall i :: 0 <= i < N ==> nodesX[i] == Null && nodesPhi[i] == Null
      ensures forall p, q :: 0 <= p < N && 0 <= q < N ==>
        && !islink[p, q] && k[p, q] == 0.0 && d0[p, q] == 0.0 && d[p, q] == 0.0
        && bend[p, q] == 10.0 && twist[p, q] == 1.0
        && e[p, q] == Null && t[p, q] == Null && norm[p, q] == Null
        && Mlink[p, q] == Null && Flink[p, q] == Null
    {
      N := num;
      dims := dimensions;
      nodesX := seq(num, _ => Null);
      nodesPhi := seq(num, _ => Null);
      islink := new bool[num, num]((_, _) => false);
      e := new Vec3[num, num]((_, _) => Null);
      d := new real[num, num]((_, _) => 0.0);
      k := new real[num, num]((_, _) => 0.0);
      bend := new real[num, num]((_, _) => 10.0);
      twist := new real[num, num]((_, _) => 1.0);
      d0 := new real[num, num]((_, _) => 0.0);
      t := new Vec3[num, num]((_, _) => Null);
      norm := new Vec3[num, num]((_, _) => Null);
      Mlink := new Vec3[num, num]((_, _) => Null);
      Flink := new Vec3[num, num]((_, _) => Null);
    }

    /** The rotation into node i's local frame: the rotation matrix of -Phi_i. */
    function Local(i: nat, num: Numerics): Mat3
      reads this
      requires i < |nodesPhi|
    {
      num.rotMat(Neg(nodesPhi[i]))
    }

    /** The effect of `addlink(ni, mi)` with the optional arguments prm:
        the pair is flagged both ways, k (15 if omitted) and d0 (the current
        distance if omitted) are set both ways, a supplied bend and twist are
        written as `BendTwistWritten` says, the preferred tangents and normals
        of both ends are stored in their local frames, force and torque are
        untouched, and no other entry changes. */
    twostate predicate Linked(ni: nat, mi: nat, prm: LinkParams, num: Numerics)
      reads this, islink, k, bend, twist, d0, t, norm, Flink, Mlink, d, e
      requires Valid() && ni < N && mi < N
    {
      && AssignedPair(islink, ni, mi, true, true)
      && AssignedPair(k, ni, mi, prm.k.GetOr(DefaultK), prm.k.GetOr(DefaultK))
      && AssignedPair(d0, ni, mi, prm.d0.GetOr(d[ni, mi]), prm.d0.GetOr(d[ni, mi]))
      && BendTwistWritten(bend, twist, ni, mi, prm.bend, prm.twist)
      && AssignedPair(t, ni, mi,
           Tangent(Local(ni, num), prm.t1, e[ni, mi], num),
           Tangent(Local(mi, num), prm.t2, e[mi, ni], num))
      && AssignedPair(norm, ni, mi,
           LinkNormal(Local(ni, num), prm.norm1, prm.n, e[ni, mi], num),
           LinkNormal(Local(mi, num), prm.norm2, prm.n, e[ni, mi], num))
      && unchanged(Flink, Mlink)
    }

    /** The effect of `removelink(ni, mi)`: the flag is cleared and force,
        torque, tangent, normal, k and d0 are zeroed in both directions;
        bend, twist and every other entry stay. */
    twostate predicate Unlinked(ni: nat, mi: nat)
      reads this, islink, Flink, Mlink, t, norm, k, d0, bend, twist
      requires Valid()
    {
      && (forall p, q {:trigger islink[p, q]} {:trigger Flink[p, q]} {:trigger Mlink[p, q]}
            {:trigger t[p, q]} {:trigger norm[p, q]} {:trigger k[p, q]} {:trigger d0[p, q]} ::
            0 <= p < N && 0 <= q < N ==>
            var hit := IsPair(p, q, ni, mi);
            && islink[p, q] == (!hit && old(islink[p, q]))
            && Flink[p, q] == (if hit then Null else old(Flink[p, q]))
            && Mlink[p, q] == (if hit then Null else old(Mlink[p, q]))
            && t[p, q] == (if hit then Null else old(t[p, q]))
            && norm[p, q] == (if hit then Null else old(norm[p, q]))
            && k[p, q] == (if hit then 0.0 else old(k[p, q]))
            && d0[p, q] == (if hit then 0.0 else old(d0[p, q])))
      && unchanged(bend, twist)
    }

    /** `addlink`: flags the pair both ways, sets k (15 if omitted) and d0 (the
        current distance if omitted) both ways, and stores the preferred
        tangents and normals of both ends in their local frames. A supplied
        bend goes to both entries; a supplied twist goes to twist[mi, ni]
        and to bend[ni, mi], as the source writes it. */
    method AddLink(ni: nat, mi: nat, prm: LinkParams, num: Numerics)
      requires Valid() && ni < N && mi < N
      modifies islink, k, bend, twist, d0, t, norm
      ensures Linked(ni, mi, prm, num)
      ensures old(Symmetric(islink)) ==> Symmetric(islink)
      ensures old(Symmetric(k)) ==> Symmetric(k)
      ensures old(Symmetric(d0)) ==> Symmetric(d0)
    {
      var kk := prm.k.GetOr(DefaultK);
      var dd0 := prm.d0.GetOr(d[ni, mi]);
      var rot1, rot2 := Local(ni, num), Local(mi, num);
      var t1, t2 := Tangent(rot1, prm.t1, e[ni, mi], num), Tangent(rot2, prm.t2, e[mi, ni], num);
      var n1 := LinkNormal(rot1, prm.norm1, prm.n, e[ni, mi], num);
      var n2 := LinkNormal(rot2, prm.norm2, prm.n, e[ni, mi], num);
      SetPair(islink, ni, mi, true, true);
      SetPairs(k, d0, ni, mi, kk, dd0);
      SetBendTwist(bend, twist, ni, mi, prm.bend, prm.twist);
      SetFrames(t, norm, ni, mi, t1, t2, n1, n2);
    }

    /** `removelink`: clears the flag and zeroes force, torque, tangent,
        normal, k and d0 in both directions; bend and twist stay. */
    method RemoveLink(ni: nat, mi: nat)
      requires Valid() && ni < N && mi < N
      modifies islink, Flink, Mlink, t, norm, k, d0
      ensures Unlinked(ni, mi)
      ensures old(Symmetric(islink)) ==> Symmetric(islink)
      ensures old(Symmetric(k)) ==> Symmetric(k)
      ensures old(Symmetric(d0)) ==> Symmetric(d0)
    {
      SetPair(islink, ni, mi, false, false);
      SetPairs(Flink, Mlink, ni, mi, Null, Null);
      SetPairs(t, norm, ni, mi, Null, Null);
      SetPairs(k, d0, ni, mi, 0.0, 0.0);
      forall p, q | 0 <= p < N && 0 <= q < N
        ensures var hit := IsPair(p, q, ni, mi);
            && islink[p, q] == (!hit && old(islink[p, q]))
            && Flink[p, q] == (if hit then Null else old(Flink[p, q]))
            && Mlink[p, q] == (if hit then Null else old(Mlink[p, q]))
            && t[p, q] == (if hit then Null else old(t[p, q]))
            && norm[p, q] == (if hit then Null else old(norm[p, q]))
            && k[p, q] == (if hit then 0.0 else old(k[p, q]))
            && d0[p, q] == (if hit then 0.0 else old(d0[p, q]))
      {
      }
    }

    /** The index selection of `compactStuffINeed`: every flagged entry, in
        row-major order. */
    function LinkedEntries(): (r: seq<Link>)
      reads islink
      ensures Increasing(r)
      ensures forall l :: l in r <==> l.i < islink.Length0 && l.j < islink.Length1 && islink[l.i, l.j]
    {
      Indices(islink, (b: bool) => b)
    }

    /** With a symmetric flag array both orientations of every link are selected. */
    lemma LinkedEntriesBothWays(l: Link)
      requires Valid() && Symmetric(islink)
      ensures Link(l.i, l.j) in LinkedEntries() <==> Link(l.j, l.i) in LinkedEntries()
    {
    }

    /** The parameters of one selected entry, as `compactStuffINeed` gathers them. */
    function Record(l: Link): (r: LinkRecord)
      reads this, t, norm, bend, twist, k, d0
      requires Valid() && l.i < N && l.j < N
      ensures r.link == l && r.t == t[l.i, l.j] && r.norm == norm[l.i, l.j]
      ensures r.normT == norm[l.j, l.i]
      ensures r.bend == bend[l.i, l.j] && r.twist == twist[l.i, l.j] && r.k == k[l.i, l.j] && r.d0 == d0[l.i, l.j]
    {
      LinkRecord(l, t[l.i, l.j], norm[l.i, l.j], norm[l.j, l.i], bend[l.i, l.j], twist[l.i, l.j], k[l.i, l.j], d0[l.i, l.j])
    }

    /** `compactStuffINeed`: the parameters of every flagged entry, in the
        row-major order of the selection, the transposed normal included. */
    function Compact(): (r: seq<LinkRecord>)
      reads this, islink, t, norm, bend, twist, k, d0
      requires Valid()
      ensures |r| == |LinkedEntries()|
      ensures forall m :: 0 <= m < |r| ==> r[m] == Record(LinkedEntries()[m])
    {
      Gather(LinkedEntries())
    }

    /** The records of the entries ls, in their order. */
    function Gather(ls: seq<Link>): (r: seq<LinkRecord>)
      reads this, t, norm, bend, twist, k, d0
      requires Valid() && forall l :: l in ls ==> l.i < N && l.j < N
      ensures |r| == |ls| && forall m :: 0 <= m < |r| ==> r[m] == Record(ls[m])
    {
      if ls == [] then [] else [Record(ls[0])] + Gather(ls[1..])
    }

    /** With a symmetric flag array, the transposed normal gathered for a link
        is the normal gathered for the same link seen from its other end. */
    lemma CompactTransposePartner(m: nat)
      requires Valid() && Symmetric(islink) && m < |Compact()|
      ensures exists m2 :: (0 <= m2 < |Compact()| && Compact()[m2].link == Link(Compact()[m].link.j, Compact()[m].link.i) &&
                            Compact()[m2].norm == Compact()[m].normT && Compact()[m2].normT == Compact()[m].norm)
    {
      var l := LinkedEntries()[m];
      assert l in LinkedEntries();
      assert Link(l.j, l.i) in LinkedEntries();
      var m2 :| 0 <= m2 < |LinkedEntries()| && LinkedEntries()[m2] == Link(l.j, l.i);
      assert Compact()[m2].link == Link(l.j, l.i);
    }
  }

  /** Add a link and remove it again: the pair is back to "no link" (flag
      false, k and d0 zero, tangents, normals, forces and torques zero) for
      every choice of parameters, and no other pair changed. */
  method LinkLifecycle(s: NodeConfiguration, ni: nat, mi: nat, prm: LinkParams, num: Numerics)
    requires s.Valid() && ni < s.N && mi < s.N
    modifies s.islink, s.k, s.bend, s.twist, s.d0, s.t, s.norm, s.Mlink, s.Flink
    ensures !s.islink[ni, mi] && !s.islink[mi, ni]
    ensures s.k[ni, mi] == s.k[mi, ni] == s.d0[ni, mi] == s.d0[mi, ni] == 0.0
    ensures s.t[ni, mi] == s.t[mi, ni] == s.norm[ni, mi] == s.norm[mi, ni] == Null
    ensures s.Flink[ni, mi] == s.Flink[mi, ni] == s.Mlink[ni, mi] == s.Mlink[mi, ni] == Null
    ensures forall p, q :: 0 <= p < s.N && 0 <= q < s.N && !IsPair(p, q, ni, mi) ==>
      && s.islink[p, q] == old(s.islink[p, q]) && s.k[p, q] == old(s.k[p, q])
      && s.d0[p, q] == old(s.d0[p, q]) && s.bend[p, q] == old(s.bend[p, q])
      && s.twist[p, q] == old(s.twist[p, q]) && s.t[p, q] == old(s.t[p, q])
      && s.norm[p, q] == old(s.norm[p, q]) && s.Flink[p, q] == old(s.Flink[p, q])
      && s.Mlink[p, q] == old(s.Mlink[p, q])
  {
    s.AddLink(ni, mi, prm, num);
    s.RemoveLink(ni, mi);
  }

  class SubsConfiguration {
    const N: nat
    const Nsubs: nat
    const dims: nat
    var nodesX: seq<Vec3>
    var nodesPhi: seq<Vec3>
    const islink: array2<bool>
    const e: array2<Vec3>
    const d: array2<real>
    const k: array2<real>
    const bend: array2<real>
    const twist: array2<real>
    const d0: array2<real>
    const tcell: array2<Vec3>
    const tsubs: array2<Vec3>
    const normcell: array2<Vec3>
    const normsubs: array2<Vec3>
    const Mcelllink: array2<Vec3>
    const Msubslink: array2<Vec3>
    const Flink: array2<Vec3>

    ghost predicate Valid()
      reads this
    {
      && |nodesX| == Nsubs && |nodesPhi| == Nsubs
      && Shaped(islink, N, Nsubs) && Shaped(e, N, Nsubs) && Shaped(d, N, Nsubs)
      && Shaped(k, N, Nsubs) && Shaped(bend, N, Nsubs) && Shaped(twist, N, Nsubs)
      && Shaped(d0, N, Nsubs) && Shaped(tcell, N, Nsubs) && Shaped(tsubs, N, Nsubs)
      && Shaped(normcell, N, Nsubs) && Shaped(normsubs, N, Nsubs)
      && Shaped(Mcelllink, N, Nsubs) && Shaped(Msubslink, N, Nsubs) && Shaped(Flink, N, Nsubs)
      && d != k && d != bend && d != twist && d != d0
      && k != bend && k != twist && k != d0 && bend != twist && bend != d0 && twist != d0
      && e != tcell && e != tsubs && e != normcell && e != normsubs
      && e != Mcelllink && e != Msubslink && e != Flink
      && tcell != tsubs && tcell != normcell && tcell != normsubs
      && tcell != Mcelllink && tcell != Msubslink && tcell != Flink
      && tsubs != normcell && tsubs != normsubs && tsubs != Mcelllink && tsubs != Msubslink && tsubs != Flink
      && normcell != normsubs && normcell != Mcelllink && normcell != Msubslink && normcell != Flink
      && normsubs != Mcelllink && normsubs != Msubslink && normsubs != Flink
      && Mcelllink != Msubslink && Mcelllink != Flink && Msubslink != Flink
    }

    /** No cell-substrate link: k = 0, d0 = 0, bend = 10, twist = 1, all
        distances and vectors zero. A dimension other than 2 or 3 ends the
        program. */
    constructor (numCells: nat, numSubs: nat, dimensions: nat)
      requires dimensions == 2 || dimensions == 3
      ensures Valid() && N == numCells && Nsubs == numSubs && dims == dimensions
      ensures forall i :: 0 <= i < Nsubs ==> nodesX[i] == Null && nodesPhi[i] == Null
      ensures forall p, q :: 0 <= p < N && 0 <= q < Nsubs ==>
        && !islink[p, q] && k[p, q] == 0.0 && d0[p, q] == 0.0 && d[p, q] == 0.0
        && bend[p, q] == 10.0 && twist[p, q] == 1.0 && e[p, q] == Null
        && tcell[p, q] == Null && tsubs[p, q] == Null && normcell[p, q] == Null && normsubs[p, q] == Null
        && Mcelllink[p, q] == Null && Msubslink[p, q] == Null && Flink[p, q] == Null
    {
      N := numCells;
      Nsubs := numSubs;
      dims := dimensions;
      nodesX := seq(numSubs, _ => Null);
      nodesPhi := seq(numSubs, _ => Null);
      e := new Vec3[numCells, numSubs]((_, _) => Null);
      d := new real[numCells, numSubs]((_, _) => 0.0);
      tcell := new Vec3[numCells, numSubs]((_, _) => Null);
      tsubs := new Vec3[numCells, numSubs]((_, _) => Null);
      normcell := new Vec3[numCells, numSubs]((_, _) => Null);
      normsubs := new Vec3[numCells, numSubs]((_, _) => Null);
      Mcelllink := new Vec3[numCells, numSubs]((_, _) => Null);
      Msubslink := new Vec3[numCells, numSubs]((_, _) => Null);
      Flink := new Vec3[numCells, numSubs]((_, _) => Null);
      islink := new bool[numCells, numSubs]((_, _) => false);
      k := new real[numCells, numSubs]((_, _) => 0.0);
      bend := new real[numCells, numSubs]((_, _) => 10.0);
      twist := new real[numCells, numSubs]((_, _) => 1.0);
      d0 := new real[numCells, numSubs]((_, _) => 0.0);
    }

    /** `addlink` for cell ni and substrate node mi, one directed entry. The
        cell end is rotated by the cell orientation the caller passes, the
        substrate end by the substrate node's own orientation; without t1 the
        substrate tangent is the reversed link direction, with t1 both ends
        take t1. */
    method AddLink(ni: nat, mi: nat, cellphi: Vec3, prm: SubsLinkParams, num: Numerics)
      requires Valid() && ni < N && mi < Nsubs
      modifies islink, k, bend, twist, d0, tcell, tsubs, normcell, normsubs
      ensures AssignedAt(islink, ni, mi, true)
      ensures AssignedAt(k, ni, mi, prm.k.GetOr(DefaultK))
      ensures AssignedAt(bend, ni, mi, prm.bend.GetOr(old(bend[ni, mi])))
      ensures AssignedAt(twist, ni, mi, prm.twist.GetOr(old(twist[ni, mi])))
      ensures AssignedAt(d0, ni, mi, prm.d0.GetOr(d[ni, mi]))
      ensures AssignedAt(tcell, ni, mi, Tangent(num.rotMat(Neg(cellphi)), prm.t1, e[ni, mi], num))
      ensures AssignedAt(tsubs, ni, mi, Tangent(num.rotMat(Neg(nodesPhi[mi])), prm.t1, Neg(e[ni, mi]), num))
      ensures AssignedAt(normcell, ni, mi, LinkNormal(num.rotMat(Neg(cellphi)), prm.norm1, prm.n, e[ni, mi], num))
      ensures AssignedAt(normsubs, ni, mi, LinkNormal(num.rotMat(Neg(nodesPhi[mi])), prm.norm2, prm.n, e[ni, mi], num))
    {
      var dd0 := prm.d0.GetOr(d[ni, mi]);
      var rot1 := num.rotMat(Neg(cellphi));
      var rot2 := num.rotMat(Neg(nodesPhi[mi]));
      var tc := Tangent(rot1, prm.t1, e[ni, mi], num);
      var ts := Tangent(rot2, prm.t1, Neg(e[ni, mi]), num);
      var nc := LinkNormal(rot1, prm.norm1, prm.n, e[ni, mi], num);
      var ns := LinkNormal(rot2, prm.norm2, prm.n, e[ni, mi], num);
      SetScalars(ni, mi, prm.k.GetOr(DefaultK), prm.bend.GetOr(bend[ni, mi]), prm.twist.GetOr(twist[ni, mi]), dd0);
      SetFrames(ni, mi, tc, ts, nc, ns);
    }

    /** The scalar part of `AddLink`: flag, spring constant, bending and
        torsion constants and rest length of entry (ni, mi). */
    method SetScalars(ni: nat, mi: nat, kv: real, bv: real, tv: real, dv: real)
      requires Valid() && ni < N && mi < Nsubs
      modifies islink, k, bend, twist, d0
      ensures AssignedAt(islink, ni, mi, true) && AssignedAt(k, ni, mi, kv)
      ensures AssignedAt(bend, ni, mi, bv) && AssignedAt(twist, ni, mi, tv)
      ensures AssignedAt(d0, ni, mi, dv)
    {
      SetAt(islink, ni, mi, true);
      SetAt(k, ni, mi, kv);
      SetAt(bend, ni, mi, bv);
      SetAt(twist, ni, mi, tv);
      SetAt(d0, ni, mi, dv);
    }

    /** The frame part of `AddLink`: both preferred tangents and both normals
        of entry (ni, mi). */
    method SetFrames(ni: nat, mi: nat, tc: Vec3, ts: Vec3, nc: Vec3, ns: Vec3)
      requires Valid() && ni < N && mi < Nsubs
      modifies tcell, tsubs, normcell, normsubs
      ensures AssignedAt(tcell, ni, mi, tc) && AssignedAt(tsubs, ni, mi, ts)
      ensures AssignedAt(normcell, ni, mi, nc) && AssignedAt(normsubs, ni, mi, ns)
    {
      SetAt(tcell, ni, mi, tc);
      SetAt(tsubs, ni, mi, ts);
      SetAt(normcell, ni, mi, nc);
      SetAt(normsubs, ni, mi, ns);
    }

    /** `removelink`: clears the entry and zeroes its force, both torques,
        both tangents, both normals, k and d0; bend and twist stay. */
    method RemoveLink(ni: nat, mi: nat)
      requires Valid() && ni < N && mi < Nsubs
      modifies islink, Flink, Mcelllink, Msubslink, tcell, tsubs, normcell, normsubs, k, d0
      ensures AssignedAt(islink, ni, mi, false)
      ensures AssignedAt(Flink, ni, mi, Null)
      ensures AssignedAt(Mcelllink, ni, mi, Null) && AssignedAt(Msubslink, ni, mi, Null)
      ensures AssignedAt(tcell, ni, mi, Null) && AssignedAt(tsubs, ni, mi, Null)
      ensures AssignedAt(normcell, ni, mi, Null) && AssignedAt(normsubs, ni, mi, Null)
      ensures AssignedAt(k, ni, mi, 0.0) && AssignedAt(d0, ni, mi, 0.0)
      ensures unchanged(bend, twist)
    {
      SetAt(islink, ni, mi, false);
      SetAt(Flink, ni, mi, Null);
      SetAts(Mcelllink, Msubslink, ni, mi, Null);
      SetAts(tcell, tsubs, ni, mi, Null);
      SetAts(normcell, normsubs, ni, mi, Null);
      SetAts(k, d0, ni, mi, 0.0);
    }
  }
}
