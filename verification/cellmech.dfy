/** The remodeling engine of the main variant: the link list, the
    crossing tests over all links, greedy crossing resolution, the removal
    and addition candidates, the Gillespie event, and their order in one
    remodeling step. */
module CellMech {
  import opened Vectors
  import opened Geometry
  import opened Links
  import opened Store
  import opened Greedy
  import opened Gillespie

  /** Every link of ls joins two of the n nodes. */
  predicate InRange(ls: seq<Link>, n: nat) {
    forall l :: l in ls ==> l.i < n && l.j < n
  }

  /** Every candidate link joins two of the n nodes. */
  predicate CandidatesInRange(cs: seq<Candidate>, n: nat) {
    forall c :: c in cs ==> c.link.i < n && c.link.j < n
  }

  /** The segments of links a and b cross (the vectorised test of
      `intersect_all`, with a as A-B and b as C-D). */
  predicate Crosses(a: Link, b: Link, X: seq<Vec3>)
    requires a.i < |X| && a.j < |X| && b.i < |X| && b.j < |X|
  {
    LinksCross(X[a.i], X[a.j], X[b.i], X[b.j])
  }

  /** A link never crosses itself: the first proximity guard fails. */
  lemma NoSelfCrossing(a: Link, X: seq<Vec3>)
    requires a.i < |X| && a.j < |X|
    ensures !Crosses(a, a, X)
  {
    SharedEndpointNeverCrosses(X[a.i], X[a.j], X[a.i], X[a.j]);
  }

  /** No clash occurs twice in xs. */
  predicate NoRepeats(xs: seq<Clash>) {
    forall a, b :: 0 <= a < b < |xs| ==> xs[a] != xs[b]
  }

  /** Two lists without repeats and without a common clash join into a
      list without repeats. */
  lemma NoRepeatsJoin(xs: seq<Clash>, ys: seq<Clash>)
    requires NoRepeats(xs) && NoRepeats(ys)
    requires forall c :: c in ys ==> c !in xs
    ensures NoRepeats(xs + ys)
  {
    var r := xs + ys;
    forall i, j | 0 <= i < j < |r|
      ensures r[i] != r[j]
    {
      if j < |xs| {
        assert r[i] == xs[i] && r[j] == xs[j];
      } else if i >= |xs| {
        assert r[i] == ys[i - |xs|] && r[j] == ys[j - |xs|];
      } else {
        assert r[i] == xs[i] && r[j] == ys[j - |xs|] && r[j] in ys;
      }
    }
  }

  /** Row p of the upper triangle of the crossing matrix, from column q on. */
  function ClashRow(ls: seq<Link>, X: seq<Vec3>, p: nat, q: nat): (r: seq<Clash>)
    requires InRange(ls, |X|) && p < |ls| && p <= q <= |ls|
    ensures forall c :: c in r ==> c.l1 == ls[p] && c.l2 in ls && Crosses(c.l1, c.l2, X)
    ensures Increasing(ls) ==> forall c :: c in r ==> Before(c.l1, c.l2)
    ensures forall b :: q <= b < |ls| && Crosses(ls[p], ls[b], X) ==> Clash(ls[p], ls[b]) in r
    ensures Increasing(ls) ==> forall c, k :: c in r && 0 <= k < q ==> Before(ls[k], c.l2)
    ensures Increasing(ls) ==> NoRepeats(r)
    decreases |ls| - q
  {
    if q == |ls| then []
    else
      NoSelfCrossing(ls[p], X);
      var head := if Crosses(ls[p], ls[q], X) then [Clash(ls[p], ls[q])] else [];
      var rest := ClashRow(ls, X, p, q + 1);
      assert Increasing(ls) ==> NoRepeats(head + rest) by {
        if Increasing(ls) {
          NoRepeatsJoin(head, rest);
        }
      }
      head + rest
  }

  /** Rows p and below of the upper triangle, in row-major order. */
  function ClashesFrom(ls: seq<Link>, X: seq<Vec3>, p: nat): (r: seq<Clash>)
    requires InRange(ls, |X|) && p <= |ls|
    ensures forall c :: c in r ==> c.l1 in ls && c.l2 in ls && Crosses(c.l1, c.l2, X)
    ensures Increasing(ls) ==> forall c :: c in r ==> Before(c.l1, c.l2)
    ensures forall a, b :: p <= a <= b < |ls| && Crosses(ls[a], ls[b], X) ==> Clash(ls[a], ls[b]) in r
    ensures Increasing(ls) ==> forall c, k :: c in r && 0 <= k < p ==> Before(ls[k], c.l1)
    ensures Increasing(ls) ==> NoRepeats(r)
    decreases |ls| - p
  {
    if p == |ls| then []
    else
      var row := ClashRow(ls, X, p, p);
      var rest := ClashesFrom(ls, X, p + 1);
      JoinRows(ls, X, p, row, rest);
      assert Increasing(ls) ==> NoRepeats(row + rest) by {
        if Increasing(ls) {
          NoRepeatsJoin(row, rest);
        }
      }
      row + rest
  }

  /** Row p followed by the rows below it is the upper triangle from row p. */
  lemma JoinRows(ls: seq<Link>, X: seq<Vec3>, p: nat, row: seq<Clash>, rest: seq<Clash>)
    requires InRange(ls, |X|) && p < |ls|
    requires forall c :: c in row ==> c.l1 == ls[p] && c.l2 in ls && Crosses(c.l1, c.l2, X)
    requires forall b :: p <= b < |ls| && Crosses(ls[p], ls[b], X) ==> Clash(ls[p], ls[b]) in row
    requires forall c :: c in rest ==> c.l1 in ls && c.l2 in ls && Crosses(c.l1, c.l2, X)
    requires forall a, b :: p + 1 <= a <= b < |ls| && Crosses(ls[a], ls[b], X) ==> Clash(ls[a], ls[b]) in rest
    ensures forall c :: c in row + rest ==> c.l1 in ls && c.l2 in ls && Crosses(c.l1, c.l2, X)
    ensures forall a, b :: p <= a <= b < |ls| && Crosses(ls[a], ls[b], X) ==> Clash(ls[a], ls[b]) in row + rest
  {
  }

  /** `intersect_all` over the link list ls and node positions X: every pair
      of links (upper triangle, diagonal included, row-major) whose segments
      cross. For links in row-major order no pair is reported twice. */
  function Clashes(ls: seq<Link>, X: seq<Vec3>): (r: seq<Clash>)
    requires InRange(ls, |X|)
    ensures forall c :: c in r ==> c.l1 in ls && c.l2 in ls && Crosses(c.l1, c.l2, X) && c.l1 != c.l2
    ensures Increasing(ls) ==> forall c :: c in r ==> Before(c.l1, c.l2)
    ensures Increasing(ls) ==> forall a, b :: 0 <= a < b < |r| ==> r[a] != r[b]
  {
    var r := ClashesFrom(ls, X, 0);
    assert forall c :: c in r ==> c.l1 != c.l2 by {
      forall c | c in r ensures c.l1 != c.l2 {
        if c.l1 == c.l2 {
          NoSelfCrossing(c.l1, X);
        }
      }
    }
    r
  }

  /** For a link list in row-major order, every crossing pair of its links is
      reported, in the orientation of that order. */
  lemma ClashesComplete(ls: seq<Link>, X: seq<Vec3>, l1: Link, l2: Link)
    requires InRange(ls, |X|) && Increasing(ls)
    requires l1 in ls && l2 in ls && Before(l1, l2) && Crosses(l1, l2, X)
    ensures Clash(l1, l2) in Clashes(ls, X)
  {
    var a :| 0 <= a < |ls| && ls[a] == l1;
    var b :| 0 <= b < |ls| && ls[b] == l2;
    IncreasingIndexOrder(ls, a, b);
  }

  /** Removing links never creates a crossing: if every crossing pair of ls0
      involves a link of ds, then a sub-list ls1 of ls0 that avoids ds has no
      crossing pair at all. */
  lemma NoClashesLeft(ls0: seq<Link>, ls1: seq<Link>, X: seq<Vec3>, ds: seq<Link>)
    requires InRange(ls0, |X|) && Increasing(ls0) && InRange(ls1, |X|) && Increasing(ls1)
    requires forall l :: l in ls1 ==> l in ls0 && l !in ds
    requires forall c :: c in Clashes(ls0, X) ==> c.l1 in ds || c.l2 in ds
    ensures Clashes(ls1, X) == []
  {
    if Clashes(ls1, X) != [] {
      var c := Clashes(ls1, X)[0];
      assert c in Clashes(ls1, X);
      ClashesComplete(ls0, X, c.l1, c.l2);
      assert false;
    }
  }

  /** Links taken from crossing pairs of links below n are below n. */
  lemma PickedInRange(xs: seq<Clash>, ds: seq<Link>, n: nat)
    requires forall c :: c in xs ==> c.l1.i < n && c.l1.j < n && c.l2.i < n && c.l2.j < n
    requires forall l :: l in ds ==> l in Flat(xs)
    ensures InRange(ds, n)
  {
    forall l | l in ds ensures l.i < n && l.j < n {
      assert Mentioned(xs, l);
      var c :| c in xs && Involves(c, l);
    }
  }

  /** Every picked link occurs in some crossing pair. */
  lemma PickedMentioned(xs: seq<Clash>, ds: seq<Link>)
    requires forall l :: l in ds ==> l in Flat(xs)
    ensures forall l :: l in ds ==> Mentioned(xs, l)
  {
  }

  /** `intersect_withone`: the segment n1-n2 crosses the segment of some link of ls. */
  predicate CrossesAny(n1: nat, n2: nat, ls: seq<Link>, X: seq<Vec3>)
    requires n1 < |X| && n2 < |X| && InRange(ls, |X|)
    ensures CrossesAny(n1, n2, ls, X) ==> n1 != n2
  {
    exists k :: 0 <= k < |ls| && Crosses(Link(n1, n2), ls[k], X)
  }

  /** For a link of a row-major list, `intersect_withone` and `intersect_all`
      agree: the link crosses some link of the list exactly when it occurs
      in a crossing pair. */
  lemma {:induction false} CrossesAnyVersusClashes(l: Link, ls: seq<Link>, X: seq<Vec3>)
    requires InRange(ls, |X|) && Increasing(ls) && l in ls
    ensures CrossesAny(l.i, l.j, ls, X) <==> exists c :: c in Clashes(ls, X) && Involves(c, l)
  {
    assert l == Link(l.i, l.j);
    if CrossesAny(l.i, l.j, ls, X) {
      var k :| 0 <= k < |ls| && Crosses(l, ls[k], X);
      var m := ls[k];
      NoSelfCrossing(l, X);
      if Before(l, m) {
        ClashesComplete(ls, X, l, m);
        assert Involves(Clash(l, m), l);
      } else {
        IntersectSymmetric(X[l.i], X[l.j], X[m.i], X[m.j]);
        ClashesComplete(ls, X, m, l);
        assert Involves(Clash(m, l), l);
      }
    }
    if c :| c in Clashes(ls, X) && Involves(c, l) {
      var m := if c.l1 == l then c.l2 else c.l1;
      IntersectSymmetric(X[c.l1.i], X[c.l1.j], X[c.l2.i], X[c.l2.j]);
      assert Crosses(l, m, X);
      var k :| 0 <= k < |ls| && ls[k] == m;
    }
  }

  /** A pair (i, j) with i < j, whichever order the vertices come in. */
  function Normalize(i: nat, j: nat): (l: Link)
    ensures l.i <= l.j && {l.i, l.j} == {i, j}
  {
    if i < j then Link(i, j) else Link(j, i)
  }

  /** The pair normalisation of `VoronoiNeighbors`: every pair of vertices
      of a simplex (in `combinations` order), normalised, as a set. */
  function VoronoiNeighbors(simplices: seq<seq<nat>>): (r: set<Link>)
    ensures forall l :: l in r ==> l.i <= l.j
  {
    set s, a, b | s in simplices && 0 <= a < b < |s| :: Normalize(s[a], s[b])
  }

  /** Two distinct vertices that share a simplex yield exactly one pair,
      the same whichever order they are met in, with the smaller index first. */
  lemma VoronoiPair(simplices: seq<seq<nat>>, s: seq<nat>, a: nat, b: nat)
    requires s in simplices && a < |s| && b < |s| && s[a] != s[b]
    ensures Normalize(s[a], s[b]) == Normalize(s[b], s[a])
    ensures Normalize(s[a], s[b]) in VoronoiNeighbors(simplices)
    ensures Normalize(s[a], s[b]).i < Normalize(s[a], s[b]).j
  {
    if b < a {
      assert Normalize(s[b], s[a]) in VoronoiNeighbors(simplices);
    }
  }

  /** When no simplex repeats a vertex, every pair has i < j strictly. */
  lemma VoronoiStrict(simplices: seq<seq<nat>>)
    requires forall s, a, b :: s in simplices && 0 <= a < b < |s| ==> s[a] != s[b]
    ensures forall l :: l in VoronoiNeighbors(simplices) ==> l.i < l.j
  {
  }

  /** Only the entries (i, j) and (j, i) of a changed. */
  twostate predicate FlippedOnly(a: array2<bool>, i: nat, j: nat)
    reads a
  {
    forall p, q :: 0 <= p < a.Length0 && 0 <= q < a.Length1 && a[p, q] != old(a[p, q]) ==> IsPair(p, q, i, j)
  }

  /** No entry of a became true. */
  twostate predicate NoneSet(a: array2<bool>)
    reads a
  {
    forall p, q :: 0 <= p < a.Length0 && 0 <= q < a.Length1 && a[p, q] ==> old(a[p, q])
  }

  /** At most one pair of entries (i, j), (j, i) of a became true. */
  twostate predicate AtMostOnePairSet(a: array2<bool>)
    reads a
  {
    forall p, q, p2, q2 ::
      (0 <= p < a.Length0 && 0 <= q < a.Length1 && 0 <= p2 < a.Length0 && 0 <= q2 < a.Length1 &&
       a[p, q] && !old(a[p, q]) && a[p2, q2] && !old(a[p2, q2])) ==> IsPair(p2, q2, p, q)
  }

  /** At most one pair of entries (i, j), (j, i) of a changed. */
  twostate predicate AtMostOnePairFlipped(a: array2<bool>)
    reads a
  {
    forall p, q, p2, q2 ::
      (0 <= p < a.Length0 && 0 <= q < a.Length1 && 0 <= p2 < a.Length0 && 0 <= q2 < a.Length1 &&
       a[p, q] != old(a[p, q]) && a[p2, q2] != old(a[p2, q2])) ==> IsPair(p2, q2, p, q)
  }

  /** The event `pickEvent` selects for the candidate lists, with removal
      rate rateDel and addition rate rateAdd per unit of propensity. */
  function SelectedEvent(toDel: seq<Candidate>, toAdd: seq<Candidate>, rateDel: real, rateAdd: real, wait: real, u: real): (e: Event)
    ensures e.Remove? ==> e.index < |toDel|
    ensures e.Add? ==> e.index < |toAdd|
  {
    var delW := Rates(toDel, rateDel);
    var addW := Rates(toAdd, rateAdd);
    Select(delW, addW, Sum(delW) + Sum(addW), wait, u)
  }

  /** With non-negative rates and propensities and a draw u in [0, 1), the
      selection never falls off the end of both walks: it is either "nothing
      to do" (total rate below 1e-7 or waiting time above 1) or exactly one
      removal or addition. */
  lemma SelectedEventActs(toDel: seq<Candidate>, toAdd: seq<Candidate>, rateDel: real, rateAdd: real, wait: real, u: real)
    requires 0.0 <= rateDel && 0.0 <= rateAdd && 0.0 <= u < 1.0
    requires forall c :: c in toDel ==> c.p >= 0.0
    requires forall c :: c in toAdd ==> c.p >= 0.0
    ensures SelectedEvent(toDel, toAdd, rateDel, rateAdd, wait, u) != FellThrough
    ensures var total := Sum(Rates(toDel, rateDel)) + Sum(Rates(toAdd, rateAdd));
      SelectedEvent(toDel, toAdd, rateDel, rateAdd, wait, u).Idle? <==> (total < MinRate || wait / total > 1.0)
  {
    var delW := Rates(toDel, rateDel);
    var addW := Rates(toAdd, rateAdd);
    SelectSound(delW, addW, Sum(delW) + Sum(addW), wait, u);
  }

  /** The value `pickEvent` returns for the event e: 1.0 when no event is
      due, `None` when the walks fall through, the waiting time of a removal
      or an addition. */
  function TimeTaken(e: Event): (dt: Option<real>)
    ensures dt.None? <==> e.FellThrough?
  {
    match e
    case Idle => Some(1.0)
    case FellThrough => None
    case Remove(_, t) => Some(t)
    case Add(_, t) => Some(t)
  }

  /** For 0 < d <= m the ratio d / m lies in (0, 1]. */
  lemma RatioBounds(d: real, m: real)
    requires 0.0 < d <= m
    ensures 0.0 < d / m <= 1.0
  {
    assert d == (d / m) * m;
  }

  const DefaultParams := NoParams

  /** The smallest distance a new link may have. */
  const MinLinkLength: real := 0.00001

  class CellMech {
    const nodes: NodeConfiguration
    const dims: nat
    const d0max: real
    const forceLimit: real
    const pAdd: real
    const pDel: real
    const chkx: bool

    ghost predicate Valid()
      reads this, nodes
    {
      nodes.Valid() && dims == nodes.dims
    }

    constructor (numCells: nat, dimensions: nat, maxRest: real, limit: real, rateAdd: real, rateDel: real, check: bool)
      requires numCells > 0 && (dimensions == 2 || dimensions == 3)
      ensures Valid() && nodes.N == numCells && fresh(nodes)
      ensures forall i :: 0 <= i < numCells ==> nodes.nodesX[i] == Null && nodes.nodesPhi[i] == Null
      ensures dims == dimensions && d0max == maxRest && forceLimit == limit
      ensures pAdd == rateAdd && pDel == rateDel && chkx == check
      ensures forall p, q :: 0 <= p < numCells && 0 <= q < numCells ==>
        && !nodes.islink[p, q] && nodes.k[p, q] == 0.0 && nodes.d0[p, q] == 0.0 && nodes.d[p, q] == 0.0
        && nodes.bend[p, q] == 10.0 && nodes.twist[p, q] == 1.0
        && nodes.e[p, q] == Null && nodes.t[p, q] == Null && nodes.norm[p, q] == Null
        && nodes.Mlink[p, q] == Null && nodes.Flink[p, q] == Null
    {
      nodes := new NodeConfiguration(numCells, dimensions);
      dims := dimensions;
      d0max := maxRest;
      forceLimit := limit;
      pAdd := rateAdd;
      pDel := rateDel;
      chkx := check;
    }

    /** `getLinkList`: the flagged entries [a, b] with a > b, row-major. */
    function LinkList(): (r: seq<Link>)
      reads this, nodes, nodes.islink
      requires Valid()
      ensures Increasing(r) && InRange(r, nodes.N)
      ensures forall l :: l in r <==> l.i > l.j && l.i < nodes.N && nodes.islink[l.i, l.j]
    {
      UpperFirst(nodes.LinkedEntries())
    }

    /** With a symmetric flag array, every linked pair of distinct nodes is
        listed exactly once, higher index first. */
    lemma LinkListOncePerPair(i: nat, j: nat)
      requires Valid() && Symmetric(nodes.islink) && i < j < nodes.N
      ensures Link(j, i) in LinkList() <==> nodes.islink[i, j]
      ensures Link(i, j) !in LinkList()
    {
    }

    /** `getLinkTuple`: the same links as two index columns. */
    function LinkTuple(): (r: (seq<nat>, seq<nat>))
      reads this, nodes, nodes.islink
      requires Valid()
      ensures |r.0| == |r.1| == |LinkList()|
      ensures forall k :: 0 <= k < |r.0| ==> LinkList()[k] == Link(r.0[k], r.1[k])
    {
      var ls := LinkList();
      (seq(|ls|, k requires 0 <= k < |ls| => ls[k].i), seq(|ls|, k requires 0 <= k < |ls| => ls[k].j))
    }

    /** `intersect_all` on the current links and positions. */
    function IntersectAll(): (r: seq<Clash>)
      reads this, nodes, nodes.islink
      requires Valid()
      ensures forall c :: c in r ==>
        && c.l1.i > c.l1.j && c.l1.i < nodes.N && nodes.islink[c.l1.i, c.l1.j]
        && c.l2.i > c.l2.j && c.l2.i < nodes.N && nodes.islink[c.l2.i, c.l2.j]
        && Before(c.l1, c.l2) && Crosses(c.l1, c.l2, nodes.nodesX)
      ensures NoRepeats(r)
    {
      Clashes(LinkList(), nodes.nodesX)
    }

    /** `intersect_withone` on the current links and positions. */
    predicate IntersectWithOne(n1: nat, n2: nat)
      reads this, nodes, nodes.islink
      requires Valid() && n1 < nodes.N && n2 < nodes.N
      ensures IntersectWithOne(n1, n2) <==>
        exists p, q :: 0 <= q < p < nodes.N && nodes.islink[p, q] && Crosses(Link(n1, n2), Link(p, q), nodes.nodesX)
    {
      var ls := LinkList();
      assert CrossesAny(n1, n2, ls, nodes.nodesX) ==>
        exists p, q :: 0 <= q < p < nodes.N && nodes.islink[p, q] && Crosses(Link(n1, n2), Link(p, q), nodes.nodesX)
      by {
        if CrossesAny(n1, n2, ls, nodes.nodesX) {
          var k :| 0 <= k < |ls| && Crosses(Link(n1, n2), ls[k], nodes.nodesX);
          assert ls[k] in ls;
          assert ls[k] == Link(ls[k].i, ls[k].j);
        }
      }
      assert (exists p, q :: 0 <= q < p < nodes.N && nodes.islink[p, q] && Crosses(Link(n1, n2), Link(p, q), nodes.nodesX))
        ==> CrossesAny(n1, n2, ls, nodes.nodesX)
      by {
        if p, q :| 0 <= q < p < nodes.N && nodes.islink[p, q] && Crosses(Link(n1, n2), Link(p, q), nodes.nodesX) {
          assert Link(p, q) in ls;
          var k :| 0 <= k < |ls| && ls[k] == Link(p, q);
        }
      }
      CrossesAny(n1, n2, ls, nodes.nodesX)
    }

    /** After crossing resolution `intersect_withone` reports no crossing
        for any current link. */
    lemma NoLinkCrossesAny()
      requires Valid() && IntersectAll() == []
      ensures forall l :: l in LinkList() ==> !IntersectWithOne(l.i, l.j)
    {
      forall l | l in LinkList() ensures !IntersectWithOne(l.i, l.j) {
        CrossesAnyVersusClashes(l, LinkList(), nodes.nodesX);
      }
    }

    /** What `removelink` leaves behind for every pair of ds: the flag
        cleared and force, torque, tangent, normal, k and d0 zeroed both ways;
        every other entry of these arrays unchanged. */
    twostate predicate Cleared(ds: seq<Link>)
      reads this, nodes, nodes.islink, nodes.Flink, nodes.Mlink, nodes.t, nodes.norm, nodes.k, nodes.d0
      requires Valid()
    {
      forall p, q {:trigger nodes.islink[p, q]} {:trigger nodes.Flink[p, q]} {:trigger nodes.Mlink[p, q]}
        {:trigger nodes.t[p, q]} {:trigger nodes.norm[p, q]} {:trigger nodes.k[p, q]} {:trigger nodes.d0[p, q]} ::
        0 <= p < nodes.N && 0 <= q < nodes.N ==>
        var gone := Link(p, q) in ds || Link(q, p) in ds;
        && nodes.islink[p, q] == (old(nodes.islink[p, q]) && !gone)
        && nodes.Flink[p, q] == (if gone then Null else old(nodes.Flink[p, q]))
        && nodes.Mlink[p, q] == (if gone then Null else old(nodes.Mlink[p, q]))
        && nodes.t[p, q] == (if gone then Null else old(nodes.t[p, q]))
        && nodes.norm[p, q] == (if gone then Null else old(nodes.norm[p, q]))
        && nodes.k[p, q] == (if gone then 0.0 else old(nodes.k[p, q]))
        && nodes.d0[p, q] == (if gone then 0.0 else old(nodes.d0[p, q]))
    }

    /** The removal loop of `checkLinkX`: unlink every pair of ds. */
    method RemoveAll(ds: seq<Link>)
      requires Valid() && Symmetric(nodes.islink) && InRange(ds, nodes.N)
      modifies nodes.islink, nodes.Flink, nodes.Mlink, nodes.t, nodes.norm, nodes.k, nodes.d0
      ensures Valid() && Symmetric(nodes.islink)
      ensures forall p, q :: 0 <= p < nodes.N && 0 <= q < nodes.N ==>
        nodes.islink[p, q] == (old(nodes.islink[p, q]) && Link(p, q) !in ds && Link(q, p) !in ds)
      ensures Cleared(ds)
    {
      for m := 0 to |ds|
        invariant Valid() && Symmetric(nodes.islink)
        invariant Cleared(ds[..m])
      {
        var bad := ds[m];
        assert forall l :: l in ds[..m + 1] <==> l in ds[..m] || l == bad by {
          assert ds[..m + 1] == ds[..m] + [bad];
        }
        nodes.RemoveLink(bad.i, bad.j);
      }
      assert ds[..|ds|] == ds;
    }

    /** `checkLinkX`: resolve crossings greedily (ties to the first link in
        row-major order) and remove the picked links. Afterwards no two
        links cross, only links that took part in a crossing were removed,
        and the flag array stays symmetric. */
    method CheckLinkX()
      requires Valid() && Symmetric(nodes.islink)
      modifies nodes.islink, nodes.Flink, nodes.Mlink, nodes.t, nodes.norm, nodes.k, nodes.d0
      ensures Valid() && Symmetric(nodes.islink)
      ensures IntersectAll() == []
      ensures NoneSet(nodes.islink)
      ensures forall p, q :: 0 <= p < nodes.N && 0 <= q < nodes.N && old(nodes.islink[p, q]) && !nodes.islink[p, q] ==>
        Mentioned(old(IntersectAll()), Link(p, q)) || Mentioned(old(IntersectAll()), Link(q, p))
      ensures Cleared(GreedyDeletes(old(IntersectAll()), SortedFirst))
    {
      var ls := LinkList();
      var xs := Clashes(ls, nodes.nodesX);
      var deleteList := ResolveCrossings(xs, SortedFirst);
      PickedInRange(xs, deleteList, nodes.N);
      RemovePicked(ls, xs, deleteList);
      NoClashesAfter(ls, xs, deleteList);
    }

    /** The removal step of `checkLinkX` for the links ds picked to resolve
        the crossing pairs xs of the links ls: only links that occur in xs
        are removed, and every link left is a link of ls outside ds. */
    method RemovePicked(ls: seq<Link>, xs: seq<Clash>, ds: seq<Link>)
      requires Valid() && Symmetric(nodes.islink) && InRange(ds, nodes.N) && ls == LinkList()
      requires forall l :: l in ds ==> l in Flat(xs)
      modifies nodes.islink, nodes.Flink, nodes.Mlink, nodes.t, nodes.norm, nodes.k, nodes.d0
      ensures Valid() && Symmetric(nodes.islink) && NoneSet(nodes.islink)
      ensures forall p, q :: 0 <= p < nodes.N && 0 <= q < nodes.N ==>
        nodes.islink[p, q] == (old(nodes.islink[p, q]) && Link(p, q) !in ds && Link(q, p) !in ds)
      ensures forall p, q :: 0 <= p < nodes.N && 0 <= q < nodes.N && old(nodes.islink[p, q]) && !nodes.islink[p, q] ==>
        Mentioned(xs, Link(p, q)) || Mentioned(xs, Link(q, p))
      ensures forall p, q :: 0 <= q < p < nodes.N && nodes.islink[p, q] ==> Link(p, q) in ls && Link(p, q) !in ds
      ensures Cleared(ds)
    {
      RemoveAll(ds);
      PickedMentioned(xs, ds);
    }

    /** When every link left was in ls0 and is not in ds, and ds meets every
        crossing pair xs of ls0, no crossing pair is left. */
    lemma NoClashesAfter(ls0: seq<Link>, xs: seq<Clash>, ds: seq<Link>)
      requires Valid() && InRange(ls0, nodes.N) && Increasing(ls0) && xs == Clashes(ls0, nodes.nodesX)
      requires forall c :: c in xs ==> c.l1 in ds || c.l2 in ds
      requires forall p, q :: 0 <= q < p < nodes.N && nodes.islink[p, q] ==> Link(p, q) in ls0 && Link(p, q) !in ds
      ensures IntersectAll() == []
    {
      NoClashesLeft(ls0, LinkList(), nodes.nodesX, ds);
    }

    /** The removal candidates for the links ls: every link that is not
        compressed (d >= d0), with propensity exp(|Flink| / force_limit). */
    function DelCandidates(ls: seq<Link>, num: Numerics): (r: seq<Candidate>)
      reads this, nodes, nodes.d, nodes.d0, nodes.Flink
      requires Valid() && InRange(ls, nodes.N) && forceLimit != 0.0
      ensures CandidatesInRange(r, nodes.N) && |r| <= |ls|
    {
      if ls == [] then []
      else
        var l := ls[|ls| - 1];
        DelCandidates(ls[..|ls| - 1], num) +
          (if nodes.d[l.i, l.j] < nodes.d0[l.i, l.j] then []
           else [Candidate(l, num.exp(num.norm(nodes.Flink[l.i, l.j]) / forceLimit))])
    }

    /** The removal candidates are exactly the links of ls that are not
        compressed, each with propensity exp(|Flink| / force_limit). */
    lemma {:induction false} DelCandidatesMembers(ls: seq<Link>, num: Numerics)
      requires Valid() && InRange(ls, nodes.N) && forceLimit != 0.0
      ensures forall c :: c in DelCandidates(ls, num) <==>
        c.link in ls && !(nodes.d[c.link.i, c.link.j] < nodes.d0[c.link.i, c.link.j]) &&
        c.p == num.exp(num.norm(nodes.Flink[c.link.i, c.link.j]) / forceLimit)
    {
      if ls != [] {
        var init := ls[..|ls| - 1];
        assert forall x :: x in ls <==> x in init || x == ls[|ls| - 1];
        DelCandidatesMembers(init, num);
      }
    }

    /** One more link of ls considered for removal. */
    lemma DelCandidatesStep(ls: seq<Link>, m: nat, num: Numerics)
      requires Valid() && InRange(ls, nodes.N) && forceLimit != 0.0 && m < |ls|
      ensures var l := ls[m];
        DelCandidates(ls[..m + 1], num) == DelCandidates(ls[..m], num) +
          (if nodes.d[l.i, l.j] < nodes.d0[l.i, l.j] then []
           else [Candidate(l, num.exp(num.norm(nodes.Flink[l.i, l.j]) / forceLimit))])
    {
      assert ls[..m + 1][..m] == ls[..m];
    }

    /** `delLinkList`: the append loop over the current link list. */
    method DelLinkList(num: Numerics) returns (toDel: seq<Candidate>)
      requires Valid() && forceLimit != 0.0
      ensures toDel == DelCandidates(LinkList(), num)
    {
      var ls := LinkList();
      toDel := [];
      for m := 0 to |ls|
        invariant toDel == DelCandidates(ls[..m], num)
      {
        var l := ls[m];
        DelCandidatesStep(ls, m, num);
        if nodes.d[l.i, l.j] < nodes.d0[l.i, l.j] {
          continue;
        }
        var f := num.norm(nodes.Flink[l.i, l.j]);
        toDel := toDel + [Candidate(l, num.exp(f / forceLimit))];
      }
      assert ls[..|ls|] == ls;
    }

    /** The distance between nodes n1 and n2. */
    function Distance(n1: nat, n2: nat, num: Numerics): real
      reads this, nodes
      requires Valid() && n1 < nodes.N && n2 < nodes.N
    {
      num.norm(Sub(nodes.nodesX[n1], nodes.nodesX[n2]))
    }

    /** `tryLink`: -1 for a pair that is already linked, for a pair whose
        segment crosses a link in two dimensions, or for a pair further apart
        than d0max; otherwise the distance. */
    function TryLink(n1: nat, n2: nat, num: Numerics): (d: real)
      reads this, nodes, nodes.islink
      requires Valid() && n1 < nodes.N && n2 < nodes.N
      ensures nodes.islink[n1, n2] ==> d == -1.0
      ensures dims == 2 && IntersectWithOne(n1, n2) ==> d == -1.0
      ensures Distance(n1, n2, num) > d0max ==> d == -1.0
      ensures (!nodes.islink[n1, n2] && !(dims == 2 && IntersectWithOne(n1, n2)) && Distance(n1, n2, num) <= d0max) ==>
        d == Distance(n1, n2, num)
    {
      if nodes.islink[n1, n2] then -1.0
      else if dims == 2 && IntersectWithOne(n1, n2) then -1.0
      else
        var d := Distance(n1, n2, num);
        if d > d0max then -1.0 else d
    }

    /** The addition candidates among the neighbour pairs nbrs: every pair
        `TryLink` accepts with a distance above 1e-5, with propensity
        1 - d / d0max. */
    function AddCandidates(nbrs: seq<Link>, num: Numerics): (r: seq<Candidate>)
      reads this, nodes, nodes.islink
      requires Valid() && InRange(nbrs, nodes.N)
      ensures CandidatesInRange(r, nodes.N) && |r| <= |nbrs|
    {
      if nbrs == [] then []
      else
        var l := nbrs[|nbrs| - 1];
        var d := TryLink(l.i, l.j, num);
        AddCandidates(nbrs[..|nbrs| - 1], num) + (if d > MinLinkLength then [Candidate(l, 1.0 - d / d0max)] else [])
    }

    /** The addition candidates are exactly the neighbour pairs `TryLink`
        accepts with a distance above 1e-5, each with propensity 1 - d / d0max. */
    lemma {:induction false} AddCandidatesMembers(nbrs: seq<Link>, num: Numerics)
      requires Valid() && InRange(nbrs, nodes.N)
      ensures forall c :: c in AddCandidates(nbrs, num) <==>
        c.link in nbrs && TryLink(c.link.i, c.link.j, num) > MinLinkLength &&
        c.p == 1.0 - TryLink(c.link.i, c.link.j, num) / d0max
    {
      if nbrs != [] {
        var init := nbrs[..|nbrs| - 1];
        assert forall x :: x in nbrs <==> x in init || x == nbrs[|nbrs| - 1];
        AddCandidatesMembers(init, num);
      }
    }

    /** Every addition candidate is unlinked, within d0max, and has a
        propensity in [0, 1). */
    lemma AddCandidatesInRange(nbrs: seq<Link>, num: Numerics)
      requires Valid() && InRange(nbrs, nodes.N)
      ensures forall c :: c in AddCandidates(nbrs, num) ==>
        0.0 <= c.p < 1.0 && !nodes.islink[c.link.i, c.link.j] &&
        MinLinkLength < Distance(c.link.i, c.link.j, num) <= d0max
    {
      AddCandidatesMembers(nbrs, num);
      forall c | c in AddCandidates(nbrs, num)
        ensures 0.0 <= c.p < 1.0 && !nodes.islink[c.link.i, c.link.j]
        ensures MinLinkLength < Distance(c.link.i, c.link.j, num) <= d0max
      {
        var d := TryLink(c.link.i, c.link.j, num);
        assert d > MinLinkLength && c.p == 1.0 - d / d0max;
        assert !nodes.islink[c.link.i, c.link.j] && Distance(c.link.i, c.link.j, num) <= d0max;
        assert d == Distance(c.link.i, c.link.j, num);
        RatioBounds(d, d0max);
      }
    }

    /** One more neighbour pair considered for addition. */
    lemma AddCandidatesStep(nbrs: seq<Link>, m: nat, num: Numerics)
      requires Valid() && InRange(nbrs, nodes.N) && m < |nbrs|
      ensures var l := nbrs[m];
        var d := TryLink(l.i, l.j, num);
        AddCandidates(nbrs[..m + 1], num) == AddCandidates(nbrs[..m], num) +
          (if d > MinLinkLength then [Candidate(l, 1.0 - d / d0max)] else [])
    {
      assert nbrs[..m + 1][..m] == nbrs[..m];
    }

    /** `addLinkList`: the append loop over the neighbour pairs. */
    method AddLinkList(nbrs: seq<Link>, num: Numerics) returns (toAdd: seq<Candidate>)
      requires Valid() && InRange(nbrs, nodes.N)
      ensures toAdd == AddCandidates(nbrs, num)
    {
      toAdd := [];
      for m := 0 to |nbrs|
        invariant toAdd == AddCandidates(nbrs[..m], num)
      {
        var l := nbrs[m];
        AddCandidatesStep(nbrs, m, num);
        var d := TryLink(l.i, l.j, num);
        if d > MinLinkLength {
          toAdd := toAdd + [Candidate(l, 1.0 - d / d0max)];
        }
      }
      assert nbrs[..|nbrs|] == nbrs;
    }

    /** The branch of `pickEvent` that carries out the selected event e. */
    method ApplyEvent(e: Event, toDel: seq<Candidate>, toAdd: seq<Candidate>, num: Numerics) returns (dt: Option<real>)
      requires Valid() && CandidatesInRange(toDel, nodes.N) && CandidatesInRange(toAdd, nodes.N)
      requires (e.Remove? ==> e.index < |toDel|) && (e.Add? ==> e.index < |toAdd|)
      modifies nodes.islink, nodes.Flink, nodes.Mlink, nodes.t, nodes.norm, nodes.k, nodes.d0, nodes.bend, nodes.twist
      ensures Valid() && dt == TimeTaken(e)
      ensures e.Idle? || e.FellThrough? ==>
        unchanged(nodes.islink, nodes.Flink, nodes.Mlink, nodes.t, nodes.norm, nodes.k, nodes.d0, nodes.bend, nodes.twist)
      ensures e.Remove? ==>
        var l := toDel[e.index].link;
        nodes.Unlinked(l.i, l.j) && FlippedOnly(nodes.islink, l.i, l.j) && NoneSet(nodes.islink)
      ensures e.Add? ==>
        var l := toAdd[e.index].link;
        nodes.Linked(l.i, l.j, DefaultParams, num) && FlippedOnly(nodes.islink, l.i, l.j)
      ensures old(Symmetric(nodes.islink)) ==> Symmetric(nodes.islink)
      ensures AtMostOnePairFlipped(nodes.islink)
      ensures !e.Add? ==> NoneSet(nodes.islink)
    {
      match e
      case Idle =>
        dt := Some(1.0);
      case FellThrough =>
        dt := None;
      case Remove(m, t) =>
        var l := toDel[m].link;
        nodes.RemoveLink(l.i, l.j);
        dt := Some(t);
      case Add(m, t) =>
        var l := toAdd[m].link;
        nodes.AddLink(l.i, l.j, DefaultParams, num);
        dt := Some(t);
    }

    /** `pickEvent`: select an event from the candidate lists and carry it
        out. Nothing changes and 1.0 is returned when no event is due; a
        removal or an addition (with default parameters) of exactly one
        candidate otherwise, and the waiting time is returned; `None` when
        the walks fall through. */
    method PickEvent(toDel: seq<Candidate>, toAdd: seq<Candidate>, wait: real, u: real, num: Numerics)
      returns (dt: Option<real>)
      requires Valid() && CandidatesInRange(toDel, nodes.N) && CandidatesInRange(toAdd, nodes.N)
      modifies nodes.islink, nodes.Flink, nodes.Mlink, nodes.t, nodes.norm, nodes.k, nodes.d0, nodes.bend, nodes.twist
      ensures Valid() && dt == TimeTaken(SelectedEvent(toDel, toAdd, pDel, pAdd, wait, u))
      ensures var e := SelectedEvent(toDel, toAdd, pDel, pAdd, wait, u);
        e.Idle? || e.FellThrough? ==>
        unchanged(nodes.islink, nodes.Flink, nodes.Mlink, nodes.t, nodes.norm, nodes.k, nodes.d0, nodes.bend, nodes.twist)
      ensures var e := SelectedEvent(toDel, toAdd, pDel, pAdd, wait, u);
        e.Remove? ==>
        var l := toDel[e.index].link;
        nodes.Unlinked(l.i, l.j) && FlippedOnly(nodes.islink, l.i, l.j) && NoneSet(nodes.islink)
      ensures var e := SelectedEvent(toDel, toAdd, pDel, pAdd, wait, u);
        e.Add? ==>
        var l := toAdd[e.index].link;
        nodes.Linked(l.i, l.j, DefaultParams, num) && FlippedOnly(nodes.islink, l.i, l.j)
      ensures old(Symmetric(nodes.islink)) ==> Symmetric(nodes.islink)
      ensures AtMostOnePairFlipped(nodes.islink)
      ensures !SelectedEvent(toDel, toAdd, pDel, pAdd, wait, u).Add? ==> NoneSet(nodes.islink)
    {
      var e := ChooseEvent(Rates(toDel, pDel), Rates(toAdd, pAdd), wait, u);
      assert e == SelectedEvent(toDel, toAdd, pDel, pAdd, wait, u);
      dt := ApplyEvent(e, toDel, toAdd, num);
    }

    /** `modlink`: crossing resolution when enabled, then the candidate
        lists on the resulting store (returned as ghost results; the
        functions that `delLinkList` and `addLinkList` are proved to compute
        stand in for those loops), then one event selected from them. Without
        crossing resolution the candidate lists are those of the store as it
        was and the store changes by exactly the selected event; with it, the
        removal candidates are links that survived the crossing resolution.
        Either way the returned time is that of the event selected from the
        lists, and at most one link is added. */
    method ModLink(nbrs: seq<Link>, wait: real, u: real, num: Numerics)
      returns (dt: Option<real>, ghost toDel: seq<Candidate>, ghost toAdd: seq<Candidate>)
      requires Valid() && Symmetric(nodes.islink) && InRange(nbrs, nodes.N) && forceLimit != 0.0
      modifies nodes.islink, nodes.Flink, nodes.Mlink, nodes.t, nodes.norm, nodes.k, nodes.d0, nodes.bend, nodes.twist
      ensures Valid() && Symmetric(nodes.islink)
      ensures dt == TimeTaken(SelectedEvent(toDel, toAdd, pDel, pAdd, wait, u))
      ensures AtMostOnePairSet(nodes.islink)
      ensures !chkx ==> AtMostOnePairFlipped(nodes.islink)
      ensures !chkx ==> toDel == old(DelCandidates(LinkList(), num)) && toAdd == old(AddCandidates(nbrs, num))
      ensures !chkx ==>
        var e := SelectedEvent(toDel, toAdd, pDel, pAdd, wait, u);
        e.Idle? || e.FellThrough? ==>
        unchanged(nodes.islink, nodes.Flink, nodes.Mlink, nodes.t, nodes.norm, nodes.k, nodes.d0, nodes.bend, nodes.twist)
      ensures !chkx ==>
        var e := SelectedEvent(toDel, toAdd, pDel, pAdd, wait, u);
        e.Remove? ==> e.index < |toDel| && nodes.Unlinked(toDel[e.index].link.i, toDel[e.index].link.j)
      ensures !chkx ==>
        var e := SelectedEvent(toDel, toAdd, pDel, pAdd, wait, u);
        e.Add? ==>
          && e.index < |toAdd| && toAdd[e.index].link.i < nodes.N && toAdd[e.index].link.j < nodes.N
          && nodes.Linked(toAdd[e.index].link.i, toAdd[e.index].link.j, DefaultParams, num)
      ensures chkx ==> forall c :: c in toDel ==>
        c.link in old(LinkList()) && c.link !in GreedyDeletes(old(IntersectAll()), SortedFirst)
      ensures forall c :: c in toAdd ==> c.link in nbrs
    {
      if chkx {
        CheckLinkX();
      }
      label Checked:
      DelCandidatesMembers(LinkList(), num);
      AddCandidatesMembers(nbrs, num);
      var dels, adds := DelCandidates(LinkList(), num), AddCandidates(nbrs, num);
      toDel, toAdd := dels, adds;
      dt := PickEvent(dels, adds, wait, u, num);
      if chkx {
        forall c | c in toDel
          ensures c.link in old(LinkList()) && c.link !in GreedyDeletes(old(IntersectAll()), SortedFirst)
        {
          assert old@Checked(nodes.islink[c.link.i, c.link.j]);
        }
      }
      forall p, q, p2, q2 | 0 <= p < nodes.N && 0 <= q < nodes.N && 0 <= p2 < nodes.N && 0 <= q2 < nodes.N &&
        nodes.islink[p, q] && !old(nodes.islink[p, q]) && nodes.islink[p2, q2] && !old(nodes.islink[p2, q2])
        ensures IsPair(p2, q2, p, q)
      {
        assert !old@Checked(nodes.islink[p, q]) && !old@Checked(nodes.islink[p2, q2]);
      }
    }
  }
}
