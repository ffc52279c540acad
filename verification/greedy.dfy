/** Greedy crossing resolution (`checkLinkX`): while crossing pairs remain,
    pick the link that occurs in the most of them, drop every pair that
    contains it, and finally remove all picked links. */
module Greedy {
  import opened Links

  /** Two links whose segments cross. */
  datatype Clash = Clash(l1: Link, l2: Link)

  /** How a tie between equally frequent links is broken: the first in
      sorted (row-major) order, as `np.unique` followed by `argmax` does, or
      the first in order of appearance. The second stands in for `max` over a
      `Counter`, whose tie-break follows the dictionary's iteration order and
      is unspecified in Python 2; taking the first link met is one choice
      among those `max` may make. */
  datatype TieBreak = SortedFirst | SeenFirst

  predicate Involves(c: Clash, l: Link) {
    c.l1 == l || c.l2 == l
  }

  /** The clash list reshaped into a list of links, two per clash. */
  function Flat(xs: seq<Clash>): (r: seq<Link>)
    ensures |r| == 2 * |xs|
    ensures forall k :: 0 <= k < |xs| ==> r[2 * k] == xs[k].l1 && r[2 * k + 1] == xs[k].l2
    ensures forall l :: l in r <==> Mentioned(xs, l)
  {
    if xs == [] then []
    else
      var rest := Flat(xs[1..]);
      var r := [xs[0].l1, xs[0].l2] + rest;
      assert forall l :: l in r <==> Mentioned(xs, l) by {
        forall l ensures l in r <==> Mentioned(xs, l) {
          if l in rest {
            var c :| c in xs[1..] && Involves(c, l);
            assert c in xs;
          }
          if l == xs[0].l1 || l == xs[0].l2 {
            assert xs[0] in xs && Involves(xs[0], l);
          }
          if Mentioned(xs, l) {
            var c :| c in xs && Involves(c, l);
            if c != xs[0] {
              assert c in xs[1..];
            }
          }
        }
      }
      r
  }

  /** Some clash of xs involves l. */
  ghost predicate Mentioned(xs: seq<Clash>, l: Link) {
    exists c :: c in xs && Involves(c, l)
  }

  /** The number of occurrences of l among the remaining clashes. */
  function Count(xs: seq<Clash>, l: Link): nat {
    multiset(Flat(xs))[l]
  }

  /** The position in s of its most frequent link, with counts taken from m
      and ties broken by `tie`: a left-to-right scan that moves to a strictly
      more frequent link, or, for `SortedFirst`, to an equally frequent link
      that comes earlier in row-major order. */
  function Best(s: seq<Link>, m: multiset<Link>, tie: TieBreak): (i: nat)
    requires s != []
    ensures i < |s|
    ensures forall k :: 0 <= k < |s| ==> m[s[k]] <= m[s[i]]
    ensures tie == SortedFirst ==> forall k :: 0 <= k < |s| && m[s[k]] == m[s[i]] ==> !Before(s[k], s[i])
    ensures tie == SeenFirst ==> forall k :: 0 <= k < i ==> m[s[k]] < m[s[i]]
    decreases |s|
  {
    if |s| == 1 then 0
    else
      var n := |s| - 1;
      var i0 := Best(s[..n], m, tie);
      assert s[i0] == s[..n][i0];
      if m[s[n]] > m[s[i0]] || (tie == SortedFirst && m[s[n]] == m[s[i0]] && Before(s[n], s[i0])) then n
      else i0
  }

  /** The link to delete next: the link at the position `Best` picks in the
      flattened clash list. */
  function Pick(xs: seq<Clash>, tie: TieBreak): (b: Link)
    requires xs != []
    ensures b in Flat(xs)
  {
    var flat := Flat(xs);
    flat[Best(flat, multiset(flat), tie)]
  }

  /** The picked link occurs in the most remaining clashes; with
      `SortedFirst` it is the first such link in row-major order, with
      `SeenFirst` (the tie-break chosen for the `Counter` variant) the first
      such link met in the flattened clash list. */
  lemma PickMostFrequent(xs: seq<Clash>, tie: TieBreak)
    requires xs != []
    ensures forall l :: Count(xs, l) <= Count(xs, Pick(xs, tie))
    ensures tie == SortedFirst ==> forall l :: Count(xs, l) == Count(xs, Pick(xs, tie)) ==> !Before(l, Pick(xs, tie))
    ensures tie == SeenFirst ==>
      exists i :: 0 <= i < |Flat(xs)| && Flat(xs)[i] == Pick(xs, tie) &&
        forall k :: 0 <= k < i ==> Count(xs, Flat(xs)[k]) < Count(xs, Pick(xs, tie))
  {
    var flat := Flat(xs);
    var m := multiset(flat);
    var i := Best(flat, m, tie);
    assert Pick(xs, tie) == flat[i];
    assert forall l :: Count(xs, l) == m[l];
    forall l ensures m[l] <= m[flat[i]] && (tie == SortedFirst && m[l] == m[flat[i]] ==> !Before(l, flat[i])) {
      if l in flat {
        var k :| 0 <= k < |flat| && flat[k] == l;
      }
    }
  }

  /** The clashes that do not involve b, in their original order. */
  function Without(xs: seq<Clash>, b: Link): (r: seq<Clash>)
    ensures forall c :: c in r <==> c in xs && !Involves(c, b)
    ensures |r| <= |xs|
    ensures b in Flat(xs) ==> |r| < |xs|
    decreases |xs|
  {
    if xs == [] then []
    else
      var init := xs[..|xs| - 1];
      var x := xs[|xs| - 1];
      assert forall c :: c in xs <==> c in init || c == x;
      Without(init, b) + (if Involves(x, b) then [] else [x])
  }

  /** The links the greedy loop deletes, in the order it picks them. */
  function GreedyDeletes(xs: seq<Clash>, tie: TieBreak): (r: seq<Link>)
    ensures xs != [] ==> r != []
    decreases |xs|
  {
    if xs == [] then []
    else
      var b := Pick(xs, tie);
      [b] + GreedyDeletes(Without(xs, b), tie)
  }

  /** Every clash contains at least one deleted link. */
  lemma GreedyCovers(xs: seq<Clash>, tie: TieBreak)
    ensures forall c :: c in xs ==> c.l1 in GreedyDeletes(xs, tie) || c.l2 in GreedyDeletes(xs, tie)
  {
    forall c | c in xs ensures c.l1 in GreedyDeletes(xs, tie) || c.l2 in GreedyDeletes(xs, tie) {
      CoveredBy(xs, tie, c);
    }
  }

  /** A clash survives until a round picks one of its links, and every
      round removes at least the clashes of its pick. */
  lemma {:induction false} CoveredBy(xs: seq<Clash>, tie: TieBreak, c: Clash)
    requires c in xs
    ensures c.l1 in GreedyDeletes(xs, tie) || c.l2 in GreedyDeletes(xs, tie)
    decreases |xs|
  {
    var b := Pick(xs, tie);
    var rest := Without(xs, b);
    var g := GreedyDeletes(rest, tie);
    GreedyStep(xs, tie, b);
    var all := [b] + g;
    if Involves(c, b) {
      assert all[0] == b;
    } else {
      assert c in rest;
      CoveredBy(rest, tie, c);
      assert c.l1 in all || c.l2 in all;
    }
  }

  /** Only links that occur in some clash are deleted. */
  lemma {:induction false} GreedyOnlyClashing(xs: seq<Clash>, tie: TieBreak)
    ensures forall l :: l in GreedyDeletes(xs, tie) ==> l in Flat(xs)
    decreases |xs|
  {
    if xs != [] {
      var b := Pick(xs, tie);
      var rest := Without(xs, b);
      GreedyOnlyClashing(rest, tie);
      assert GreedyDeletes(xs, tie) == [b] + GreedyDeletes(rest, tie);
      forall l | l in GreedyDeletes(rest, tie) ensures Mentioned(xs, l) {
        var c :| c in rest && Involves(c, l);
        assert c in xs;
      }
    }
  }

  /** No link is deleted twice, and there are at most as many deletions as clashes. */
  lemma {:induction false} GreedyDistinct(xs: seq<Clash>, tie: TieBreak)
    ensures forall p, q :: 0 <= p < q < |GreedyDeletes(xs, tie)| ==>
      GreedyDeletes(xs, tie)[p] != GreedyDeletes(xs, tie)[q]
    ensures |GreedyDeletes(xs, tie)| <= |xs|
    decreases |xs|
  {
    if xs != [] {
      var b := Pick(xs, tie);
      var rest := Without(xs, b);
      GreedyDistinct(rest, tie);
      GreedyOnlyClashing(rest, tie);
      var g := GreedyDeletes(rest, tie);
      assert GreedyDeletes(xs, tie) == [b] + g;
      assert !Mentioned(rest, b);
    }
  }

  /** The filter loop of `checkLinkX`: keep the clashes not involving b. */
  method DropInvolving(xs: seq<Clash>, b: Link) returns (r: seq<Clash>)
    ensures r == Without(xs, b)
  {
    r := [];
    for i := 0 to |xs|
      invariant r == Without(xs[..i], b)
    {
      assert xs[..i + 1][..i] == xs[..i];
      if !Involves(xs[i], b) {
        r := r + [xs[i]];
      }
    }
    assert xs[..|xs|] == xs;
  }

  /** One round of the greedy loop: the pick, then the rounds on what is left. */
  lemma GreedyStep(cur: seq<Clash>, tie: TieBreak, b: Link)
    requires cur != [] && b == Pick(cur, tie)
    ensures GreedyDeletes(cur, tie) == [b] + GreedyDeletes(Without(cur, b), tie)
  {
  }

  /** What the greedy deletions achieve: every clash loses a link, no link
      is deleted twice, and only clashing links are deleted. */
  lemma GreedySound(xs: seq<Clash>, tie: TieBreak)
    ensures forall c :: c in xs ==> c.l1 in GreedyDeletes(xs, tie) || c.l2 in GreedyDeletes(xs, tie)
    ensures forall p, q :: 0 <= p < q < |GreedyDeletes(xs, tie)| ==>
      GreedyDeletes(xs, tie)[p] != GreedyDeletes(xs, tie)[q]
    ensures forall l :: l in GreedyDeletes(xs, tie) ==> l in Flat(xs)
  {
    GreedyCovers(xs, tie);
    GreedyDistinct(xs, tie);
    GreedyOnlyClashing(xs, tie);
  }

  lemma AppendAssoc<T>(a: seq<T>, b: seq<T>, c: seq<T>)
    ensures a + (b + c) == (a + b) + c
  {
  }

  /** The `while` loop of `checkLinkX`: the links to delete so that no
      clash of xs survives, each distinct and each occurring in some clash. */
  method ResolveCrossings(xs: seq<Clash>, tie: TieBreak) returns (deleteList: seq<Link>)
    ensures deleteList == GreedyDeletes(xs, tie)
    ensures forall c :: c in xs ==> c.l1 in deleteList || c.l2 in deleteList
    ensures forall p, q :: 0 <= p < q < |deleteList| ==> deleteList[p] != deleteList[q]
    ensures forall l :: l in deleteList ==> l in Flat(xs)
  {
    var cur := xs;
    deleteList := [];
    while |cur| > 0
      invariant deleteList + GreedyDeletes(cur, tie) == GreedyDeletes(xs, tie)
      decreases |cur|
    {
      var badlink := Pick(cur, tie);
      var next := DropInvolving(cur, badlink);
      GreedyStep(cur, tie, badlink);
      AppendAssoc(deleteList, [badlink], GreedyDeletes(next, tie));
      deleteList, cur := deleteList + [badlink], next;
    }
    assert deleteList + [] == deleteList;
    GreedySound(xs, tie);
  }
}
