/** The goal progress shown beside the daily goals: the share of completed
    goals as a whole percentage, `Math.round(completed / total * 100)`, or
    0 when there are no goals. */
module Progress {
  import opened Lists

  function IsCompleted(goal: Item): bool {
    goal.completed
  }

  /** `goals.filter(goal => goal.completed).length`. */
  function CompletedCount(goals: seq<Item>): (n: nat)
    ensures n <= |goals|
  {
    |Filter(goals, IsCompleted)|
  }

  /** `Math.round(completed / total * 100)` in exact arithmetic: the whole
      number nearest to 100 * completed / total, halves rounded up. */
  function Percent(completed: nat, total: nat): (p: nat)
    requires completed <= total
    ensures p <= 100
    ensures total == 0 ==> p == 0
    ensures total > 0 ==> (2 * p - 1) * total <= 200 * completed < (2 * p + 1) * total
  {
    if total == 0 then 0
    else
      RoundHalfUp(completed, total);
      (200 * completed + total) / (2 * total)
  }

  /** Division facts behind `Percent`'s contract. */
  lemma RoundHalfUp(c: nat, t: nat)
    requires 0 < t && c <= t
    ensures var p := (200 * c + t) / (2 * t);
      0 <= p <= 100 && (2 * p - 1) * t <= 200 * c < (2 * p + 1) * t
  {
    var n, d := 200 * c + t, 2 * t;
    var p, r := n / d, n % d;
    assert n == d * p + r && 0 <= r < d;
    var pt := p * t;
    assert d * p == 2 * pt;
    assert (2 * p - 1) * t == 2 * pt - t;
    assert (2 * p + 1) * t == 2 * pt + t;
    if p > 100 {
      MulLe(101, p, t);
    }
  }

  /** Multiplying by a natural number keeps the order. */
  lemma {:induction false} MulLe(a: int, b: int, t: nat)
    requires a <= b
    ensures a * t <= b * t
    decreases t
  {
    if t > 0 {
      MulLe(a, b, t - 1);
      assert a * t == a * (t - 1) + a;
      assert b * t == b * (t - 1) + b;
    }
  }

  /** The percentage `updateProgressBar` displays for a list of goals. */
  function Progress(goals: seq<Item>): (p: nat)
    ensures p <= 100
    ensures goals == [] ==> p == 0
  {
    Percent(CompletedCount(goals), |goals|)
  }

  /** When every goal of a non-empty list is completed, progress is 100. */
  lemma AllCompletedIsFull(goals: seq<Item>)
    requires goals != []
    requires forall j :: 0 <= j < |goals| ==> goals[j].completed
    ensures Progress(goals) == 100
  {
    FilterKeepsAll(goals, IsCompleted);
    var p := Progress(goals);
    if p < 100 {
      MulLe(2 * p + 1, 199, |goals|);
    }
  }

  /** With fewer than 200 goals, 100 is shown only when every goal is
      completed. */
  lemma FullMeansAllCompleted(goals: seq<Item>)
    requires |goals| < 200
    requires Progress(goals) == 100
    ensures forall j :: 0 <= j < |goals| ==> goals[j].completed
  {
    var c := CompletedCount(goals);
    var t := |goals|;
    assert 199 * t <= 200 * c;
    AllKeptMeansAllAccepted(goals, IsCompleted);
  }

  /** From 200 goals on, one open goal still rounds to 100 (199.5 / 200 of
      the way is displayed as complete). */
  lemma OneOpenOfManyIsFull(goals: seq<Item>)
    requires |goals| >= 200 && CompletedCount(goals) == |goals| - 1
    ensures Progress(goals) == 100
  {
    var t := |goals|;
    var p := Progress(goals);
    if p < 100 {
      MulLe(2 * p + 1, 199, t);
    }
  }

  /** If every element survives the filter, every element is accepted. */
  lemma {:induction false} AllKeptMeansAllAccepted(s: seq<Item>, keep: Item -> bool)
    requires |Filter(s, keep)| == |s|
    ensures forall j :: 0 <= j < |s| ==> keep(s[j])
    decreases |s|
  {
    if s != [] {
      AllKeptMeansAllAccepted(s[1..], keep);
      forall j | 0 <= j < |s| ensures keep(s[j]) {
        if j > 0 {
          assert s[j] == s[1..][j - 1];
        }
      }
    }
  }

  /** Replacing one element changes the number of kept elements by what
      the filter says of the old and the new element. */
  lemma {:induction false} FilterCountUpdate(s: seq<Item>, k: nat, x: Item, keep: Item -> bool)
    requires k < |s|
    ensures |Filter(s[k := x], keep)| + (if keep(s[k]) then 1 else 0)
         == |Filter(s, keep)| + (if keep(x) then 1 else 0)
    decreases |s|
  {
    if k > 0 {
      assert s[k := x][1..] == s[1..][k - 1 := x];
      FilterCountUpdate(s[1..], k - 1, x, keep);
    } else {
      assert s[k := x][1..] == s[1..];
    }
  }

  /** Toggling a present goal moves the completed count by exactly one, in
      the direction of the goal's new state; an absent id changes nothing. */
  lemma ToggleMovesCountByOne(goals: seq<Item>, id: int)
    ensures var k := FirstIndexOf(goals, id);
      CompletedCount(Toggled(goals, id)) ==
        if k == -1 then CompletedCount(goals)
        else if goals[k].completed then CompletedCount(goals) - 1
        else CompletedCount(goals) + 1
  {
    var k := FirstIndexOf(goals, id);
    if k != -1 {
      FilterCountUpdate(goals, k, Flipped(goals[k]), IsCompleted);
      assert Toggled(goals, id) == goals[k := Flipped(goals[k])];
    }
  }

  /** Completing an open goal never lowers the progress shown. */
  lemma CompletingRaisesProgress(goals: seq<Item>, id: int)
    requires FirstIndexOf(goals, id) >= 0 && !goals[FirstIndexOf(goals, id)].completed
    ensures Progress(Toggled(goals, id)) >= Progress(goals)
  {
    ToggleMovesCountByOne(goals, id);
    PercentMonotone(CompletedCount(goals), |goals|);
  }

  /** One more completed goal never lowers the percentage. */
  lemma PercentMonotone(c: nat, t: nat)
    requires c < t
    ensures Percent(c, t) <= Percent(c + 1, t)
  {
    var p, q := Percent(c, t), Percent(c + 1, t);
    if q < p {
      MulLe(2 * q + 1, 2 * p - 1, t);
    }
  }

  /** The worked figures: 1 of 2 is 50, 1 of 3 is 33, 2 of 3 is 67 and 1
      of 8 (12.5) rounds up to 13. */
  lemma PercentExamples()
    ensures Percent(1, 2) == 50 && Percent(1, 3) == 33
    ensures Percent(2, 3) == 67 && Percent(1, 8) == 13
  {
  }
}
