/** The earlier variant of the engine: one `Configuration` class holding
    nodes and links, with its own `addlink` (supplied tangents are not
    rotated), `removelink` (only the flag, force and torque are cleared),
    crossing resolution over `combinations`, `tryLink` without the
    already-linked test, `addLinkList` and `pickEvent`. */
module Cell2 {
  import opened Vectors
  import opened Geometry
  import opened Links
  import opened Store
  import opened Greedy
  import opened Gillespie
  import opened CellMech

  /** The links a and b of this variant cross: `intersect` on the end points. */
  predicate Meets(a: Link, b: Link, X: seq<Vec3>)
    requires a.i < |X| && a.j < |X| && b.i < |X| && b.j < |X|
  {
    Intersect(X[a.i], X[a.j], X[b.i], X[b.j])
  }

  /** The pairs (ls[p], ls[b]) with b from q on that cross. */
  function MeetsRow(ls: seq<Link>, X: seq<Vec3>, p: nat, q: nat): (r: seq<Clash>)
    requires InRange(ls, |X|) && p < q <= |ls|
    ensures forall c :: c in r ==> c.l1 == ls[p] && c.l2 in ls && Meets(c.l1, c.l2, X)
    ensures Increasing(ls) ==> forall c :: c in r ==> Before(c.l1, c.l2)
    ensures forall b :: q <= b < |ls| && Meets(ls[p], ls[b], X) ==> Clash(ls[p], ls[b]) in r
    ensures Increasing(ls) ==> forall c, k :: c in r && 0 <= k < q ==> Before(ls[k], c.l2)
    ensures Increasing(ls) ==> NoRepeats(r)
    decreases |ls| - q
  {
    if q == |ls| then []
    else
      var head := if Meets(ls[p], ls[q], X) then [Clash(ls[p], ls[q])] else [];
      var rest := MeetsRow(ls, X, p, q + 1);
      assert Increasing(ls) ==> NoRepeats(head + rest) by {
        if Increasing(ls) {
          NoRepeatsJoin(head, rest);
        }
      }
      head + rest
  }

  /** The crossing pairs among `combinations(ls, 2)` whose first element is at p or later. */
  function MeetsFrom(ls: seq<Link>, X: seq<Vec3>, p: nat): (r: seq<Clash>)
    requires InRange(ls, |X|) && p <= |ls|
    ensures forall c :: c in r ==> c.l1 in ls && c.l2 in ls && Meets(c.l1, c.l2, X)
    ensures Increasing(ls) ==> forall c :: c in r ==> Before(c.l1, c.l2)
    ensures forall a, b :: p <= a < b < |ls| && Meets(ls[a], ls[b], X) ==> Clash(ls[a], ls[b]) in r
    ensures Increasing(ls) ==> forall c, k :: c in r && 0 <= k < p ==> Before(ls[k], c.l1)
    ensures Increasing(ls) ==> NoRepeats(r)
    decreases |ls| - p
  {
    if p + 1 >= |ls| then []
    else
      var row := MeetsRow(ls, X, p, p + 1);
      var rest := MeetsFrom(ls, X, p + 1);
      JoinMeets(ls, X, p, row, rest);
      assert Increasing(ls) ==> NoRepeats(row + rest) by {
        if Increasing(ls) {
          NoRepeatsJoin(row, rest);
        }
      }
      row + rest
  }

  /** The pairs of ls[p] followed by those of later links are all pairs from p on. */
  lemma JoinMeets(ls: seq<Link>, X: seq<Vec3>, p: nat, row: seq<Clash>, rest: seq<Clash>)
    requires InRange(ls, |X|) && p < |ls|
    requires forall c :: c in row ==> c.l1 == ls[p] && c.l2 in ls && Meets(c.l1, c.l2, X)
    requires forall b :: p + 1 <= b < |ls| && Meets(ls[p], ls[b], X) ==> Clash(ls[p], ls[b]) in row
    requires forall c :: c in rest ==> c.l1 in ls && c.l2 in ls && Meets(c.l1, c.l2, X)
    requires forall a, b :: p + 1 <= a < b < |ls| && Meets(ls[a], ls[b], X) ==> Clash(ls[a], ls[b]) in rest
    ensures forall c :: c in row + rest ==> c.l1 in ls && c.l2 in ls && Meets(c.l1, c.l2, X)
    ensures forall a, b :: p <= a < b < |ls| && Meets(ls[a], ls[b], X) ==> Clash(ls[a], ls[b]) in row + rest
  {
  }

  /** The list `Xs` that `checkLinkX` builds: every unordered pair of links
      of ls, in `combinations` order, whose segments cross. For links in
      row-major order no pair is reported twice. */
  function Crossings(ls: seq<Link>, X: seq<Vec3>): (r: seq<Clash>)
    requires InRange(ls, |X|)
    ensures forall c :: c in r ==> c.l1 in ls && c.l2 in ls && Meets(c.l1, c.l2, X)
    ensures Increasing(ls) ==> forall c :: c in r ==> Before(c.l1, c.l2)
    ensures Increasing(ls) ==> forall a, b :: 0 <= a < b < |r| ==> r[a] != r[b]
  {
    MeetsFrom(ls, X, 0)
  }

  /** For a link list in row-major order every crossing pair is reported,
      in either orientation of the test, since `intersect` is symmetric. */
  lemma CrossingsComplete(ls: seq<Link>, X: seq<Vec3>, l1: Link, l2: Link)
    requires InRange(ls, |X|) && Increasing(ls)
    requires l1 in ls && l2 in ls && Before(l1, l2)
    requires Meets(l1, l2, X) || Meets(l2, l1, X)
    ensures Clash(l1, l2) in Crossings(ls, X)
  {
    IntersectSymmetric(X[l1.i], X[l1.j], X[l2.i], X[l2.j]);
    var a :| 0 <= a < |ls| && ls[a] == l1;
    var b :| 0 <= b < |ls| && ls[b] == l2;
    IncreasingIndexOrder(ls, a, b);
  }

  /** No two links of ls meet, in either order. */
  ghost predicate Untangled(ls: seq<Link>, X: seq<Vec3>)
    requires InRange(ls, |X|)
  {
    forall l1, l2 :: l1 in ls && l2 in ls ==> !Meets(l1, l2, X)
  }

  /** No link meets itself: the first proximity guard rejects it. */
  lemma NeverMeetsItself(a: Link, X: seq<Vec3>)
    requires a.i < |X| && a.j < |X|
    ensures !Meets(a, a, X)
  {
  }

  /** Removing every link of ds, where ds meets every crossing pair of ls0,
      leaves a sub-list ls1 without any pair of crossing links. */
  lemma NoCrossingsLeft(ls0: seq<Link>, ls1: seq<Link>, X: seq<Vec3>, ds: seq<Link>)
    requires InRange(ls0, |X|) && Increasing(ls0) && InRange(ls1, |X|) && Increasing(ls1)
    requires forall l :: l in ls1 ==> l in ls0 && l !in ds
    requires forall c :: c in Crossings(ls0, X) ==> c.l1 in ds || c.l2 in ds
    ensures Untangled(ls1, X)
  {
    forall l1, l2 | l1 in ls1 && l2 in ls1 ensures !Meets(l1, l2, X) {
      if Meets(l1, l2, X) {
        NeverMeetsItself(l1, X);
        if Before(l1, l2) {
          CrossingsComplete(ls0, X, l1, l2);
        } else {
          CrossingsComplete(ls0, X, l2, l1);
        }
        assert false;
      }
    }
  }

  /** The preferred tangent of this variant: a supplied direction is only
      normalised, the current link direction is rotated into the local frame. */
  function FreeTangent(rot: Mat3, supplied: Option<Vec3>, actual: Vec3, num: Numerics): (v: Vec3)
    ensures supplied.Some? ==> v == num.unit(supplied.value)
    ensures supplied.None? ==> v == MatVec(rot, actual)
  {
    if supplied.Some? then num.unit(supplied.value) else MatVec(rot, actual)
  }

  /** A supplied tangent differs from the main variant's only by the
      rotation into the local frame, and an omitted one not at all. */
  lemma FreeTangentVersusTangent(rot: Mat3, supplied: Option<Vec3>, actual: Vec3, num: Numerics)
    ensures supplied.None? ==> FreeTangent(rot, supplied, actual, num) == Tangent(rot, supplied, actual, num)
    ensures supplied.Some? ==> MatVec(rot, FreeTangent(rot, supplied, actual, num)) == Tangent(rot, supplied, actual, num)
  {
  }

  /** The smallest distance a new link may have. */
  const MinDistance: real := 0.00001

  /** The propensity scale of `addLinkList`, fixed at 2 in this variant. */
  const AddScale: real := 2.0

  /** The distance between nodes n1 and n2 at positions X. */
  function NodeDistance(X: seq<Vec3>, n1: nat, n2: nat, num: Numerics): real
    requires n1 < |X| && n2 < |X|
  {
    num.norm(Sub(X[n1], X[n2]))
  }

  /** What `tryLink` returns for the pair n1, n2 against the links ls, with
      node positions X and the largest link length dmax: -1 when the
      segment meets one of the links or the nodes are further apart than
      dmax, otherwise the distance. The flag test `islink[n1, n2] is True`
      never holds, so linked pairs are not rejected for being linked. */
  function Acceptance(X: seq<Vec3>, dmax: real, n1: nat, n2: nat, ls: seq<Link>, num: Numerics): (r: real)
    requires n1 < |X| && n2 < |X| && InRange(ls, |X|)
    ensures (exists q :: 0 <= q < |ls| && Meets(Link(n1, n2), ls[q], X)) ==> r == -1.0
    ensures NodeDistance(X, n1, n2, num) > dmax ==> r == -1.0
    ensures ((forall q :: 0 <= q < |ls| ==> !Meets(Link(n1, n2), ls[q], X)) && NodeDistance(X, n1, n2, num) <= dmax) ==>
      r == NodeDistance(X, n1, n2, num)
  {
    if exists q :: 0 <= q < |ls| && Meets(Link(n1, n2), ls[q], X) then -1.0
    else if NodeDistance(X, n1, n2, num) > dmax then -1.0
    else NodeDistance(X, n1, n2, num)
  }

  /** The addition candidates among the pairs cs: every pair accepted with
      a distance above 1e-5, with propensity 1 - d / 2. */
  function AddCandidates(X: seq<Vec3>, dmax: real, cs: seq<Link>, ls: seq<Link>, num: Numerics): (r: seq<Candidate>)
    requires InRange(cs, |X|) && InRange(ls, |X|)
    ensures CandidatesInRange(r, |X|) && |r| <= |cs|
  {
    if cs == [] then []
    else
      var l := cs[|cs| - 1];
      var dist := Acceptance(X, dmax, l.i, l.j, ls, num);
      AddCandidates(X, dmax, cs[..|cs| - 1], ls, num) + (if dist > MinDistance then [Candidate(l, 1.0 - dist / AddScale)] else [])
  }

  /** The addition candidates are exactly the pairs of cs accepted with a
      distance above 1e-5, each with propensity 1 - d / 2. */
  lemma {:induction false} AddCandidatesMembers(X: seq<Vec3>, dmax: real, cs: seq<Link>, ls: seq<Link>, num: Numerics)
    requires InRange(cs, |X|) && InRange(ls, |X|)
    ensures forall c :: c in AddCandidates(X, dmax, cs, ls, num) <==>
      c.link in cs && Acceptance(X, dmax, c.link.i, c.link.j, ls, num) > MinDistance &&
      c.p == 1.0 - Acceptance(X, dmax, c.link.i, c.link.j, ls, num) / AddScale
  {
    if cs != [] {
      var init := cs[..|cs| - 1];
      assert forall x :: x in cs <==> x in init || x == cs[|cs| - 1];
      AddCandidatesMembers(X, dmax, init, ls, num);
    }
  }

  /** Every addition candidate lies within dmax and above 1e-5, so its
      propensity is at least 1 - dmax / 2 and below 1; with the default
      d0max = 2 it lies in [0, 1). */
  lemma AddCandidatesBounds(X: seq<Vec3>, dmax: real, cs: seq<Link>, ls: seq<Link>, num: Numerics)
    requires InRange(cs, |X|) && InRange(ls, |X|)
    ensures forall c :: c in AddCandidates(X, dmax, cs, ls, num) ==>
      1.0 - dmax / AddScale <= c.p < 1.0 &&
      MinDistance < NodeDistance(X, c.link.i, c.link.j, num) <= dmax
  {
    AddCandidatesMembers(X, dmax, cs, ls, num);
    forall c | c in AddCandidates(X, dmax, cs, ls, num)
      ensures 1.0 - dmax / AddScale <= c.p < 1.0
      ensures MinDistance < NodeDistance(X, c.link.i, c.link.j, num) <= dmax
    {
      var dist := Acceptance(X, dmax, c.link.i, c.link.j, ls, num);
      assert dist == NodeDistance(X, c.link.i, c.link.j, num);
    }
  }

  /** One more near pair considered for addition. */
  lemma AddCandidatesStep(X: seq<Vec3>, dmax: real, cs: seq<Link>, ls: seq<Link>, m: nat, num: Numerics)
    requires InRange(cs, |X|) && InRange(ls, |X|) && m < |cs|
    ensures var l := cs[m];
      var dist := Acceptance(X, dmax, l.i, l.j, ls, num);
      AddCandidates(X, dmax, cs[..m + 1], ls, num) == AddCandidates(X, dmax, cs[..m], ls, num) +
        (if dist > MinDistance then [Candidate(l, 1.0 - dist / AddScale)] else [])
  {
    assert cs[..m + 1][..m] == cs[..m];
  }

  class Configuration {
    const N: nat
    const d0max: real
    const forceLimit: real
    const pAdd: real
    const pDel: real
    const chkx: bool
    var nodesR: seq<Vec3>
    var nodesPhi: seq<Vec3>
    const islink: array2<bool>
    const e: array2<Vec3>
    const d: array2<real>
    const k: array2<real>
    const bend: array2<real>
    const twist: array2<real>
    const d0: array2<real>
    const t: array2<Vec3>
    const norm: array2<Vec3>
    const Mlink: array2<Vec3>
    const Flink: array2<Vec3>

    ghost predicate Valid()
      reads this
    {
      && |nodesR| == N && |nodesPhi| == N
      && Shaped(islink, N, N) && Shaped(e, N, N) && Shaped(d, N, N) && Shaped(k, N, N)
      && Shaped(bend, N, N) && Shaped(twist, N, N) && Shaped(d0, N, N) && Shaped(t, N, N)
      && Shaped(norm, N, N) && Shaped(Mlink, N, N) && Shaped(Flink, N, N)
      && d != k && d != bend && d != twist && d != d0
      && k != bend && k != twist && k != d0 && bend != twist && bend != d0 && twist != d0
      && e != t && e != norm && e != Mlink && e != Flink
      && t != norm && t != Mlink && t != Flink && norm != Mlink && norm != Flink && Mlink != Flink
    }

    /** No link: k = 0, bend = 10, twist = 1, all vectors zero. */
    constructor (num: nat, maxRest: real, limit: real, rateAdd: real, rateDel: real, check: bool)
      ensures Valid() && N == num
      ensures forall i :: 0 <= i < N ==> nodesR[i] == Null && nodesPhi[i] == Null
      ensures d0max == maxRest && forceLimit == limit && pAdd == rateAdd && pDel == rateDel && chkx == check
      ensures forall p, q :: 0 <= p < N && 0 <= q < N ==>
        && !islink[p, q] && k[p, q] == 0.0 && d0[p, q] == 0.0
        && bend[p, q] == 10.0 && twist[p, q] == 1.0 && d[p, q] == 0.0 && e[p, q] == Null
        && t[p, q] == Null && norm[p, q] == Null && Mlink[p, q] == Null && Flink[p, q] == Null
    {
      N := num;
      d0max := maxRest;
      forceLimit := limit;
      pAdd := rateAdd;
      pDel := rateDel;
      chkx := check;
      nodesR := seq(num, _ => Null);
      nodesPhi := seq(num, _ => Null);
      islink := new bool[num, num]((_, _) => false);
      e := new Vec3[num, num]((_, _) => Null);
      d := new real[num, num]((_, _) => 0.0);
      k := new real[num, num]((_, _) => 0.0);
      bend := new real[num, num]((_, _) => 10.0);
      twist := new real[num, num]((_, _) => 1.0);
      d0 := new real[num, num]((_, _) => 0.0);
      t := new Vec3[num, num]((_, _) => Null);
      norm := new Vec3[num, num]((_, _) => Null);
      Mlink := new Vec3[num, num]((_, _) => Null);
      Flink := new Vec3[num, num]((_, _) => Null);
    }

    /** The rotation into node i's local frame: the rotation matrix of -phi_i. */
    function Local(i: nat, num: Numerics): Mat3
      reads this
      requires i < |nodesPhi|
    {
      num.rotMat(Neg(nodesPhi[i]))
    }

    /** The effect of `addlink(ni, mi)` with the optional arguments prm:
        the pair is flagged both ways, k (15 if omitted) and d0 (the current
        distance if omitted) are set both ways, tangents (a supplied one
        normalised but not rotated) and normals are stored, a supplied twist
        goes to twist[mi, ni] and bend[ni, mi]; force and torque are left
        alone, and so is every other entry. */
    twostate predicate Linked(ni: nat, mi: nat, prm: LinkParams, num: Numerics)
      reads this, islink, k, bend, twist, d0, t, norm, Flink, Mlink, d, e
      requires Valid() && ni < N && mi < N
    {
      && AssignedPair(islink, ni, mi, true, true)
      && AssignedPair(k, ni, mi, prm.k.GetOr(DefaultK), prm.k.GetOr(DefaultK))
      && AssignedPair(d0, ni, mi, prm.d0.GetOr(d[ni, mi]), prm.d0.GetOr(d[ni, mi]))
      && BendTwistWritten(bend, twist, ni, mi, prm.bend, prm.twist)
      && AssignedPair(t, ni, mi,
           FreeTangent(Local(ni, num), prm.t1, e[ni, mi], num),
           FreeTangent(Local(mi, num), prm.t2, e[mi, ni], num))
      && AssignedPair(norm, ni, mi,
           LinkNormal(Local(ni, num), prm.norm1, prm.n, e[ni, mi], num),
           LinkNormal(Local(mi, num), prm.norm2, prm.n, e[ni, mi], num))
      && unchanged(Flink, Mlink)
    }

    /** The effect of `removelink(ni, mi)`: the flag cleared and force and
        torque zeroed in both directions; every other entry, and all of k,
        d0, the tangents, the normals, bend and twist, unchanged. */
    twostate predicate Unlinked(ni: nat, mi: nat)
      reads this, islink, Flink, Mlink, k, d0, t, norm, bend, twist
      requires Valid()
    {
      && (forall p, q {:trigger islink[p, q]} {:trigger Flink[p, q]} {:trigger Mlink[p, q]} ::
            0 <= p < N && 0 <= q < N ==>
            var hit := IsPair(p, q, ni, mi);
            && islink[p, q] == (!hit && old(islink[p, q]))
            && Flink[p, q] == (if hit then Null else old(Flink[p, q]))
            && Mlink[p, q] == (if hit then Null else old(Mlink[p, q])))
      && unchanged(k, d0, t, norm, bend, twist)
    }

    /** `addlink`: see `Linked`. */
    method AddLink(ni: nat, mi: nat, prm: LinkParams, num: Numerics)
      requires Valid() && ni < N && mi < N
      modifies islink, k, bend, twist, d0, t, norm
      ensures Linked(ni, mi, prm, num)
      ensures old(Symmetric(islink)) ==> Symmetric(islink)
      ensures old(Symmetric(k)) ==> Symmetric(k)
      ensures old(Symmetric(d0)) ==> Symmetric(d0)
    {
      var kk := prm.k.GetOr(DefaultK);
      var dd0 := prm.d0.GetOr(d[ni, mi]);
      var rot1, rot2 := Local(ni, num), Local(mi, num);
      var t1, t2 := FreeTangent(rot1, prm.t1, e[ni, mi], num), FreeTangent(rot2, prm.t2, e[mi, ni], num);
      var n1 := LinkNormal(rot1, prm.norm1, prm.n, e[ni, mi], num);
      var n2 := LinkNormal(rot2, prm.norm2, prm.n, e[ni, mi], num);
      SetPair(islink, ni, mi, true, true);
      SetPairs(k, d0, ni, mi, kk, dd0);
      SetBendTwist(bend, twist, ni, mi, prm.bend, prm.twist);
      SetFrames(t, norm, ni, mi, t1, t2, n1, n2);
    }

    /** `removelink`: see `Unlinked`. */
    method RemoveLink(ni: nat, mi: nat)
      requires Valid() && ni < N && mi < N
      modifies islink, Flink, Mlink
      ensures Unlinked(ni, mi)
      ensures old(Symmetric(islink)) ==> Symmetric(islink)
    {
      SetPair(islink, ni, mi, false, false);
      SetPairs(Flink, Mlink, ni, mi, Null, Null);
      forall p, q | 0 <= p < N && 0 <= q < N
        ensures var hit := IsPair(p, q, ni, mi);
          && islink[p, q] == (!hit && old(islink[p, q]))
          && Flink[p, q] == (if hit then Null else old(Flink[p, q]))
          && Mlink[p, q] == (if hit then Null else old(Mlink[p, q]))
      {
      }
    }

    /** The flagged pairs [a, b] with a > b, in row-major order. */
    function LinkList(): (r: seq<Link>)
      reads this, islink
      requires Valid()
      ensures Increasing(r) && InRange(r, N)
      ensures forall l :: l in r <==> l.i > l.j && l.i < N && islink[l.i, l.j]
    {
      UpperFirst(Indices(islink, (b: bool) => b))
    }

    /** What `removelink` leaves behind for every pair of ds: the flag
        cleared and force and torque zeroed both ways; every other entry of
        these arrays unchanged. */
    twostate predicate Cleared(ds: seq<Link>)
      reads this, islink, Flink, Mlink
      requires Valid()
    {
      forall p, q {:trigger islink[p, q]} {:trigger Flink[p, q]} {:trigger Mlink[p, q]} ::
        0 <= p < N && 0 <= q < N ==>
        var gone := Link(p, q) in ds || Link(q, p) in ds;
        && islink[p, q] == (old(islink[p, q]) && !gone)
        && Flink[p, q] == (if gone then Null else old(Flink[p, q]))
        && Mlink[p, q] == (if gone then Null else old(Mlink[p, q]))
    }

    /** The removal loop of `checkLinkX`. */
    method RemoveAll(ds: seq<Link>)
      requires Valid() && Symmetric(islink) && InRange(ds, N)
      modifies islink, Flink, Mlink
      ensures Valid() && Symmetric(islink)
      ensures forall p, q :: 0 <= p < N && 0 <= q < N ==>
        islink[p, q] == (old(islink[p, q]) && Link(p, q) !in ds && Link(q, p) !in ds)
      ensures Cleared(ds)
    {
      for m := 0 to |ds|
        invariant Valid() && Symmetric(islink)
        invariant Cleared(ds[..m])
      {
        var bad := ds[m];
        assert forall l :: l in ds[..m + 1] <==> l in ds[..m] || l == bad by {
          assert ds[..m + 1] == ds[..m] + [bad];
        }
        RemoveLink(bad.i, bad.j);
      }
      assert ds[..|ds|] == ds;
    }

    /** `checkLinkX`: collect the crossing pairs over `combinations` of the
        links, resolve them greedily (ties to the link seen first) and remove
        the picked links. Afterwards no two links cross and only links that
        took part in a crossing were removed. */
    method CheckLinkX()
      requires Valid() && Symmetric(islink)
      modifies islink, Flink, Mlink
      ensures Valid() && Symmetric(islink)
      ensures Untangled(LinkList(), nodesR)
      ensures NoneSet(islink)
      ensures forall p, q :: 0 <= p < N && 0 <= q < N && old(islink[p, q]) && !islink[p, q] ==>
        Mentioned(old(Crossings(LinkList(), nodesR)), Link(p, q)) || Mentioned(old(Crossings(LinkList(), nodesR)), Link(q, p))
      ensures Cleared(GreedyDeletes(old(Crossings(LinkList(), nodesR)), SeenFirst))
    {
      var ls := LinkList();
      var xs := Crossings(ls, nodesR);
      var deleteList := ResolveCrossings(xs, SeenFirst);
      PickedInRange(xs, deleteList, N);
      RemovePicked(ls, xs, deleteList);
      NoMeetsLeft(ls, xs, deleteList);
    }

    /** The removal step of `checkLinkX` for the links ds picked to resolve
        the crossing pairs xs of the links ls: only links that occur in xs
        are removed, and every link left is a link of ls outside ds. */
    method RemovePicked(ls: seq<Link>, xs: seq<Clash>, ds: seq<Link>)
      requires Valid() && Symmetric(islink) && InRange(ds, N) && ls == LinkList()
      requires forall l :: l in ds ==> l in Flat(xs)
      modifies islink, Flink, Mlink
      ensures Valid() && Symmetric(islink) && NoneSet(islink)
      ensures forall p, q :: 0 <= p < N && 0 <= q < N ==>
        islink[p, q] == (old(islink[p, q]) && Link(p, q) !in ds && Link(q, p) !in ds)
      ensures forall p, q :: 0 <= p < N && 0 <= q < N && old(islink[p, q]) && !islink[p, q] ==>
        Mentioned(xs, Link(p, q)) || Mentioned(xs, Link(q, p))
      ensures forall p, q :: 0 <= q < p < N && islink[p, q] ==> Link(p, q) in ls && Link(p, q) !in ds
      ensures Cleared(ds)
    {
      RemoveAll(ds);
      PickedMentioned(xs, ds);
    }

    /** When every link left was in ls0 and is not in ds, and ds meets every
        crossing pair xs of ls0, no two links left cross. */
    lemma NoMeetsLeft(ls0: seq<Link>, xs: seq<Clash>, ds: seq<Link>)
      requires Valid() && InRange(ls0, N) && Increasing(ls0) && xs == Crossings(ls0, nodesR)
      requires forall c :: c in xs ==> c.l1 in ds || c.l2 in ds
      requires forall p, q :: 0 <= q < p < N && islink[p, q] ==> Link(p, q) in ls0 && Link(p, q) !in ds
      ensures Untangled(LinkList(), nodesR)
    {
      NoCrossingsLeft(ls0, LinkList(), nodesR, ds);
    }

    /** `tryLink`: the early-return search over the links, then the distance test. */
    method TryLink(n1: nat, n2: nat, ls: seq<Link>, num: Numerics) returns (r: real)
      requires Valid() && n1 < N && n2 < N && InRange(ls, N)
      ensures r == Acceptance(nodesR, d0max, n1, n2, ls, num)
    {
      for q := 0 to |ls|
        invariant forall q' :: 0 <= q' < q ==> !Meets(Link(n1, n2), ls[q'], nodesR)
      {
        if Meets(Link(n1, n2), ls[q], nodesR) {
          return -1.0;
        }
      }
      var dist := NodeDistance(nodesR, n1, n2, num);
      if dist > d0max {
        return -1.0;
      }
      return dist;
    }

    /** The pairs `addLinkList` tries: every entry whose distance is below d0max. */
    function Near(): (r: seq<Link>)
      reads this, d
      requires Valid()
      ensures InRange(r, N) && Increasing(r)
      ensures forall l :: l in r <==> l.i < N && l.j < N && d[l.i, l.j] < d0max
    {
      Indices(d, (x: real) => x < d0max)
    }

    /** `addLinkList`: the append loop over the near pairs. */
    method AddLinkList(ls: seq<Link>, num: Numerics) returns (toAdd: seq<Candidate>)
      requires Valid() && InRange(ls, N)
      ensures toAdd == AddCandidates(nodesR, d0max, Near(), ls, num)
    {
      toAdd := CollectAdditions(Near(), ls, num);
    }

    /** The loop of `addLinkList` over the pairs cs. */
    method CollectAdditions(cs: seq<Link>, ls: seq<Link>, num: Numerics) returns (toAdd: seq<Candidate>)
      requires Valid() && InRange(cs, N) && InRange(ls, N)
      ensures toAdd == AddCandidates(nodesR, d0max, cs, ls, num)
    {
      toAdd := [];
      for m := 0 to |cs|
        invariant toAdd == AddCandidates(nodesR, d0max, cs[..m], ls, num)
      {
        var l := cs[m];
        AddCandidatesStep(nodesR, d0max, cs, ls, m, num);
        var dist := TryLink(l.i, l.j, ls, num);
        if dist > MinDistance {
          toAdd := toAdd + [Candidate(l, 1.0 - dist / AddScale)];
        }
      }
      assert cs[..|cs|] == cs;
    }

    /** The branch of `pickEvent` that carries out the selected event e. */
    method ApplyEvent(e: Event, toDel: seq<Candidate>, toAdd: seq<Candidate>, num: Numerics) returns (dt: Option<real>)
      requires Valid() && CandidatesInRange(toDel, N) && CandidatesInRange(toAdd, N)
      requires (e.Remove? ==> e.index < |toDel|) && (e.Add? ==> e.index < |toAdd|)
      modifies islink, Flink, Mlink, k, bend, twist, d0, t, norm
      ensures dt == TimeTaken(e)
      ensures e.Idle? || e.FellThrough? ==> unchanged(islink, Flink, Mlink, k, bend, twist, d0, t, norm)
      ensures e.Remove? ==>
        var l := toDel[e.index].link;
        Unlinked(l.i, l.j) && FlippedOnly(islink, l.i, l.j) && NoneSet(islink)
      ensures e.Add? ==>
        var l := toAdd[e.index].link;
        Linked(l.i, l.j, NoParams, num) && FlippedOnly(islink, l.i, l.j)
      ensures AtMostOnePairFlipped(islink)
      ensures old(Symmetric(islink)) ==> Symmetric(islink)
    {
      match e
      case Idle =>
        dt := Some(1.0);
      case FellThrough =>
        dt := None;
      case Remove(m, w) =>
        var l := toDel[m].link;
        RemoveLink(l.i, l.j);
        dt := Some(w);
      case Add(m, w) =>
        var l := toAdd[m].link;
        AddLink(l.i, l.j, NoParams, num);
        dt := Some(w);
    }

    /** `pickEvent`: select an event from the candidate lists and carry it
        out. Nothing changes and 1.0 is returned when no event is due; one
        removal or one addition (with default parameters) and the waiting
        time otherwise; `None` when the walks fall through. */
    method PickEvent(toDel: seq<Candidate>, toAdd: seq<Candidate>, wait: real, u: real, num: Numerics)
      returns (dt: Option<real>)
      requires Valid() && CandidatesInRange(toDel, N) && CandidatesInRange(toAdd, N)
      modifies islink, Flink, Mlink, k, bend, twist, d0, t, norm
      ensures dt == TimeTaken(SelectedEvent(toDel, toAdd, pDel, pAdd, wait, u))
      ensures var e := SelectedEvent(toDel, toAdd, pDel, pAdd, wait, u);
        e.Idle? || e.FellThrough? ==>
        unchanged(islink, Flink, Mlink, k, bend, twist, d0, t, norm)
      ensures var e := SelectedEvent(toDel, toAdd, pDel, pAdd, wait, u);
        e.Remove? ==>
        var l := toDel[e.index].link;
        Unlinked(l.i, l.j) && FlippedOnly(islink, l.i, l.j) && NoneSet(islink)
      ensures var e := SelectedEvent(toDel, toAdd, pDel, pAdd, wait, u);
        e.Add? ==>
        var l := toAdd[e.index].link;
        Linked(l.i, l.j, NoParams, num) && FlippedOnly(islink, l.i, l.j)
      ensures AtMostOnePairFlipped(islink)
      ensures old(Symmetric(islink)) ==> Symmetric(islink)
    {
      var e := ChooseEvent(Rates(toDel, pDel), Rates(toAdd, pAdd), wait, u);
      assert e == SelectedEvent(toDel, toAdd, pDel, pAdd, wait, u);
      dt := ApplyEvent(e, toDel, toAdd, num);
    }
  }

  /** In this variant removing a link keeps its parameters: after adding a
      link with spring constant kv and rest length dv and removing it again,
      the pair is unlinked but k and d0 still hold kv and dv. */
  method StaleParameters(c: Configuration, ni: nat, mi: nat, kv: real, dv: real, num: Numerics)
    requires c.Valid() && ni < c.N && mi < c.N
    modifies c.islink, c.k, c.bend, c.twist, c.d0, c.t, c.norm, c.Flink, c.Mlink
    ensures !c.islink[ni, mi] && !c.islink[mi, ni]
    ensures c.k[ni, mi] == c.k[mi, ni] == kv && c.d0[ni, mi] == c.d0[mi, ni] == dv
  {
    c.AddLink(ni, mi, NoParams.(k := Some(kv), d0 := Some(dv)), num);
    c.RemoveLink(ni, mi);
  }
}
