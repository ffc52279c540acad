/** The event selection of `pickEvent` (Gillespie's direct method): the
    total removal and addition rates, the waiting time, and a cumulative-sum
    walk that picks one candidate. The two random draws are parameters:
    `wait` is -log of the first uniform draw, `u` the second uniform draw. */
module Gillespie {
  import opened Links

  /** A candidate link and its propensity p. */
  datatype Candidate = Candidate(link: Link, p: real)

  /** Sum of a list of rates, accumulated left to right. */
  function Sum(ws: seq<real>): real {
    if ws == [] then 0.0 else Sum(ws[..|ws| - 1]) + ws[|ws| - 1]
  }

  predicate NonNegative(ws: seq<real>) {
    forall k :: 0 <= k < |ws| ==> ws[k] >= 0.0
  }

  /** Adding non-negative rates never decreases the running sum. */
  lemma {:induction false} SumMonotone(ws: seq<real>, i: nat, j: nat)
    requires NonNegative(ws) && i <= j <= |ws|
    ensures 0.0 <= Sum(ws[..i]) <= Sum(ws[..j])
    decreases j
  {
    if j > 0 {
      assert ws[..j][..j - 1] == ws[..j - 1];
      if i < j {
        SumMonotone(ws, i, j - 1);
      } else {
        SumMonotone(ws, 0, j - 1);
      }
    }
  }

  /** The rates `p * rate` of a candidate list. */
  function Rates(cs: seq<Candidate>, rate: real): (ws: seq<real>)
    ensures |ws| == |cs|
    ensures 0.0 <= rate && (forall c :: c in cs ==> c.p >= 0.0) ==> NonNegative(ws)
  {
    seq(|cs|, k requires 0 <= k < |cs| => cs[k].p * rate)
  }

  /** The accumulating loop `s += p * rate`. */
  method Total(ws: seq<real>) returns (s: real)
    ensures s == Sum(ws)
    ensures NonNegative(ws) ==> s >= 0.0
  {
    s := 0.0;
    for i := 0 to |ws|
      invariant s == Sum(ws[..i])
    {
      assert ws[..i + 1][..i] == ws[..i];
      s := s + ws[i];
    }
    assert ws[..|ws|] == ws;
    if NonNegative(ws) {
      SumMonotone(ws, 0, |ws|);
    }
  }

  /** The running sum through position j. */
  function Running(ws: seq<real>, j: nat): real
    requires j < |ws|
  {
    Sum(ws[..j + 1])
  }

  /** The first position from `from` on whose running sum exceeds r, or -1
      when none does. */
  function FirstAbove(ws: seq<real>, r: real, from: nat): (k: int)
    requires from <= |ws|
    ensures -1 <= k < |ws|
    ensures k >= 0 ==> from <= k && Running(ws, k) > r
    ensures k >= 0 ==> forall j :: from <= j < k ==> Running(ws, j) <= r
    ensures k == -1 ==> forall j :: from <= j < |ws| ==> Running(ws, j) <= r
    decreases |ws| - from
  {
    if from == |ws| then -1
    else if Running(ws, from) > r then from
    else FirstAbove(ws, r, from + 1)
  }

  /** The walk always stops when r is below the total, and then r lies in the
      interval of the chosen position: each position is chosen for a share
      of [0, total) equal to its own rate. */
  lemma FirstAboveInterval(ws: seq<real>, r: real)
    requires 0.0 <= r < Sum(ws)
    ensures FirstAbove(ws, r, 0) >= 0
    ensures Sum(ws[..FirstAbove(ws, r, 0)]) <= r < Sum(ws[..FirstAbove(ws, r, 0) + 1])
  {
    assert ws[..|ws|] == ws;
    assert ws != [];
    assert Running(ws, |ws| - 1) == Sum(ws);
    var k := FirstAbove(ws, r, 0);
    if k > 0 {
      assert Running(ws, k - 1) <= r;
    }
  }

  /** The loop `for (l, p) in list: r = r - p * rate; if r < 0: ...`: the
      position at which r first drops below zero, and the r left over. */
  method Walk(ws: seq<real>, r0: real) returns (k: int, r: real)
    ensures k == FirstAbove(ws, r0, 0)
    ensures k >= 0 ==> r == r0 - Running(ws, k)
    ensures k == -1 ==> r == r0 - Sum(ws)
  {
    r := r0;
    var i := 0;
    while i < |ws|
      invariant 0 <= i <= |ws|
      invariant r == r0 - Sum(ws[..i])
      invariant FirstAbove(ws, r0, 0) == FirstAbove(ws, r0, i)
    {
      assert ws[..i + 1][..i] == ws[..i];
      r := r - ws[i];
      if r < 0.0 {
        return i, r;
      }
      i := i + 1;
    }
    assert ws[..|ws|] == ws;
    return -1, r;
  }

  /** Below this total rate nothing happens. */
  const MinRate: real := 0.0000001

  /** What `pickEvent` does: nothing (it returns 1.0), remove the candidate
      at `index` of the removal list, add the candidate at `index` of the
      addition list (it returns dt), or fall off the end of the function. */
  datatype Event = Idle | Remove(index: nat, dt: real) | Add(index: nat, dt: real) | FellThrough

  /** The decision of `pickEvent` for removal rates delW and addition rates
      addW with total rate `total`: nothing when the total rate is below 1e-7
      or the waiting time exceeds 1, otherwise the walk at r = total * u. */
  function Select(delW: seq<real>, addW: seq<real>, total: real, wait: real, u: real): (e: Event)
    requires total == Sum(delW) + Sum(addW)
    ensures e.Remove? ==> e.index < |delW|
    ensures e.Add? ==> e.index < |addW|
  {
    if total < MinRate then Idle
    else if wait / total > 1.0 then Idle
    else Decide(delW, addW, total * u, wait / total)
  }

  /** The two walks of `pickEvent` at r: over the removal list when r < s1,
      then, with r reduced by s1, over the addition list when r < s2. As in
      the source, a removal walk that does not stop has already subtracted s1
      before the second subtraction. */
  function Decide(delW: seq<real>, addW: seq<real>, r: real, dt: real): (e: Event)
    ensures e.Remove? ==> e.index < |delW| && e.dt == dt
    ensures e.Add? ==> e.index < |addW| && e.dt == dt
  {
    var s1 := Sum(delW);
    var s2 := Sum(addW);
    var k := if r < s1 then FirstAbove(delW, r, 0) else -1;
    if k >= 0 then Remove(k, dt)
    else
      var r2 := (if r < s1 then r - s1 else r) - s1;
      var j := if r2 < s2 then FirstAbove(addW, r2, 0) else -1;
      if j >= 0 then Add(j, dt) else FellThrough
  }

  /** For r in [0, s1 + s2) with non-negative rates the walks always pick
      exactly one candidate: a removal exactly when r < s1, and the candidate
      whose interval of the cumulative sum contains r (for an addition, r - s1). */
  lemma DecideSound(delW: seq<real>, addW: seq<real>, r: real, dt: real)
    requires NonNegative(delW) && NonNegative(addW) && 0.0 <= r < Sum(delW) + Sum(addW)
    ensures Decide(delW, addW, r, dt) != FellThrough
    ensures Decide(delW, addW, r, dt).Remove? <==> r < Sum(delW)
    ensures Decide(delW, addW, r, dt).dt == dt
    ensures var e := Decide(delW, addW, r, dt);
      e.Remove? ==> e.index < |delW| && Sum(delW[..e.index]) <= r < Sum(delW[..e.index + 1])
    ensures var e := Decide(delW, addW, r, dt);
      e.Add? ==> e.index < |addW| && Sum(addW[..e.index]) <= r - Sum(delW) < Sum(addW[..e.index + 1])
  {
    SumMonotone(delW, 0, |delW|);
    assert delW[..|delW|] == delW;
    if r < Sum(delW) {
      FirstAboveInterval(delW, r);
    } else {
      FirstAboveInterval(addW, r - Sum(delW));
    }
  }

  /** With non-negative rates and a uniform draw u in [0, 1): no change (and
      1.0 returned) exactly when the total rate is below 1e-7 or the waiting
      time exceeds 1; otherwise exactly one event with the waiting time, never
      a fall-through, as `DecideSound` describes for r = total * u, which
      lies in [0, total). */
  lemma SelectSound(delW: seq<real>, addW: seq<real>, total: real, wait: real, u: real)
    requires total == Sum(delW) + Sum(addW)
    requires NonNegative(delW) && NonNegative(addW) && 0.0 <= u < 1.0
    ensures Select(delW, addW, total, wait, u) == Idle <==> (total < MinRate || wait / total > 1.0)
    ensures Select(delW, addW, total, wait, u) != FellThrough
    ensures total >= MinRate && wait / total <= 1.0 ==>
      Select(delW, addW, total, wait, u) == Decide(delW, addW, total * u, wait / total) &&
      0.0 <= total * u < total
  {
    if total >= MinRate && wait / total <= 1.0 {
      assert 0.0 <= total * u < total by {
        assert total * u < total * 1.0;
      }
      DecideSound(delW, addW, total * u, wait / total);
    }
  }

  /** The loops of `pickEvent`: the two sums, then the walks. */
  method ChooseEvent(delW: seq<real>, addW: seq<real>, wait: real, u: real) returns (e: Event)
    ensures e == Select(delW, addW, Sum(delW) + Sum(addW), wait, u)
  {
    var s1 := Total(delW);
    var s2 := Total(addW);
    e := Decision(delW, addW, s1, s2, wait, u);
  }

  /** The tests of `pickEvent` on the total rate and the waiting time, then
      the walks. */
  method Decision(delW: seq<real>, addW: seq<real>, s1: real, s2: real, wait: real, u: real) returns (e: Event)
    requires s1 == Sum(delW) && s2 == Sum(addW)
    ensures e == Select(delW, addW, s1 + s2, wait, u)
  {
    var total := s1 + s2;
    if total < MinRate {
      return Idle;
    }
    var dt := wait / total;
    if dt > 1.0 {
      return Idle;
    }
    e := WalkBoth(delW, addW, s1, s2, total * u, dt);
  }

  /** The two walking loops of `pickEvent`. */
  method WalkBoth(delW: seq<real>, addW: seq<real>, s1: real, s2: real, r0: real, dt: real) returns (e: Event)
    requires s1 == Sum(delW) && s2 == Sum(addW)
    ensures e == Decide(delW, addW, r0, dt)
  {
    var r := r0;
    if r < s1 {
      var k;
      k, r := Walk(delW, r);
      if k >= 0 {
        return Remove(k, dt);
      }
    }
    r := r - s1;
    if r < s2 {
      var j;
      j, r := Walk(addW, r);
      if j >= 0 {
        return Add(j, dt);
      }
    }
    return FellThrough;
  }
}
