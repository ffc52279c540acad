/** Links as index pairs, the row-major order in which numpy enumerates
    them, and `np.where` over a two-dimensional array. */
module Links {

  /** A pair of node indices `[i, j]` (a row of the source's link arrays). */
  datatype Link = Link(i: nat, j: nat)

  /** Row-major (lexicographic) order: the order of `np.where` and of `np.unique`. */
  predicate Before(l: Link, m: Link) {
    l.i < m.i || (l.i == m.i && l.j < m.j)
  }

  predicate Increasing(ls: seq<Link>) {
    forall p, q :: 0 <= p < q < |ls| ==> Before(ls[p], ls[q])
  }

  /** In an increasing sequence positions follow the order of the elements. */
  lemma IncreasingIndexOrder(ls: seq<Link>, p: nat, q: nat)
    requires Increasing(ls) && p < |ls| && q < |ls|
    requires Before(ls[p], ls[q])
    ensures p < q
  {
  }

  /** (p, q) is the entry (i, j) or its transpose (j, i). */
  predicate IsPair(p: nat, q: nat, i: nat, j: nat) {
    (p == i && q == j) || (p == j && q == i)
  }

  /** The entries of row `i` of `a`, from column `j` on, whose value passes `keep`. */
  function RowIndices<T>(a: array2<T>, keep: T -> bool, i: nat, j: nat): (r: seq<Link>)
    requires i < a.Length0
    reads a
    ensures forall l :: l in r <==> l.i == i && j <= l.j < a.Length1 && keep(a[l.i, l.j])
    ensures Increasing(r)
    decreases a.Length1 - j
  {
    if j >= a.Length1 then []
    else (if keep(a[i, j]) then [Link(i, j)] else []) + RowIndices(a, keep, i, j + 1)
  }

  /** The entries of rows `i` and below whose value passes `keep`, in row-major order. */
  function IndicesFrom<T>(a: array2<T>, keep: T -> bool, i: nat): (r: seq<Link>)
    reads a
    ensures forall l :: l in r <==> i <= l.i < a.Length0 && l.j < a.Length1 && keep(a[l.i, l.j])
    ensures Increasing(r)
    decreases a.Length0 - i
  {
    if i >= a.Length0 then []
    else
      var row := RowIndices(a, keep, i, 0);
      var rest := IndicesFrom(a, keep, i + 1);
      assert forall p, q :: 0 <= p < |row| && 0 <= q < |rest| ==> Before(row[p], rest[q]) by {
        forall p, q | 0 <= p < |row| && 0 <= q < |rest| ensures Before(row[p], rest[q]) {
          assert row[p] in row && rest[q] in rest;
        }
      }
      row + rest
  }

  /** `np.where(keep(a))`: every index pair whose entry passes `keep`, in row-major order. */
  function Indices<T>(a: array2<T>, keep: T -> bool): (r: seq<Link>)
    reads a
    ensures forall l :: l in r <==> l.i < a.Length0 && l.j < a.Length1 && keep(a[l.i, l.j])
    ensures Increasing(r)
  {
    IndicesFrom(a, keep, 0)
  }

  /** The pairs of `ps` whose first index is the greater, in their original order. */
  function UpperFirst(ps: seq<Link>): (r: seq<Link>)
    ensures forall l :: l in r <==> l in ps && l.i > l.j
    ensures Increasing(ps) ==> Increasing(r)
  {
    if ps == [] then []
    else
      var rest := UpperFirst(ps[1..]);
      if ps[0].i > ps[0].j then
        PrependIncreasing(ps, rest);
        [ps[0]] + rest
      else
        rest
  }

  /** Putting the head of an increasing sequence in front of an increasing
      selection from its tail keeps it increasing. */
  lemma PrependIncreasing(ps: seq<Link>, rest: seq<Link>)
    requires ps != [] && (forall l :: l in rest ==> l in ps[1..])
    requires Increasing(ps) ==> Increasing(rest)
    ensures Increasing(ps) ==> Increasing([ps[0]] + rest)
  {
    if Increasing(ps) {
      var r := [ps[0]] + rest;
      forall p, q | 0 <= p < q < |r| ensures Before(r[p], r[q]) {
        if p == 0 {
          assert r[q] in ps[1..];
        } else {
          assert r[p] == rest[p - 1] && r[q] == rest[q - 1];
        }
      }
    }
  }
}
