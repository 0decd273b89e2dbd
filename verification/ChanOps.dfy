/** One (channel, account) score record: a ring of daily points with a cached total (sqlChanOp). */
module ChanOps {
  import opened Config

  type Slot = d: int | 0 <= d < DAYSAMPLES
  type Ring = s: seq<int> | |s| == DAYSAMPLES witness [0, 0, 0, 0, 0, 0, 0, 0, 0, 0, 0, 0, 0, 0]

  const NO_POINTS: Ring := [0, 0, 0, 0, 0, 0, 0, 0, 0, 0, 0, 0, 0, 0]

  function Sum(s: seq<int>): int {
    if s == [] then 0 else Sum(s[..|s| - 1]) + s[|s| - 1]
  }

  /** The value of a record; `points` caches the total of `day`. */
  datatype OpRec = OpRec(seen: int, first: int, last: int, day: Ring, points: int) {

    predicate Totalled() {
      points == Sum(day)
    }

    /** What the types of the record's fields ensure: slots are shorts; with it, a total that is up to date. */
    ghost predicate Sound() {
      Totalled() && forall d: Slot :: IsShort(day[d])
    }

    function WithSlot(d: Slot, score: int): (r: OpRec)
      ensures r.Totalled() && r.day[d] == score
      ensures forall e: Slot :: e != d ==> r.day[e] == day[e]
    {
      var day' := day[d := score];
      this.(day := day', points := Sum(day'))
    }

    function PlusPoint(today: Slot): OpRec {
      WithSlot(today, ToShort(day[today] + 1))
    }
  }

  /** newChanOp: an account seen for the first time, without points. */
  function NewOp(now: int): OpRec {
    OpRec(0, now, now, NO_POINTS, 0)
  }

  /** Conversion to short wraps around: the result is the one short that differs by a multiple of 65536. */
  lemma ShortExact(x: int, y: int)
    ensures y == ToShort(x) <==> IsShort(y) && (x - y) % 0x1_0000 == 0
  {
  }

  /** Replacing one element shifts a sum by the difference. */
  lemma {:induction false} SumUpdate(s: seq<int>, i: nat, v: int)
    requires i < |s|
    ensures Sum(s[i := v]) == Sum(s) - s[i] + v
  {
    var n := |s| - 1;
    if i < n {
      SumUpdate(s[..n], i, v);
      assert s[i := v][..n] == s[..n][i := v];
    } else {
      assert s[i := v][..n] == s[..n];
    }
  }

  lemma {:induction false} SumZeros(s: seq<int>)
    requires forall i :: 0 <= i < |s| ==> s[i] == 0
    ensures Sum(s) == 0
  {
    if s != [] {
      SumZeros(s[..|s| - 1]);
    }
  }

  lemma {:induction false} SumBounded(s: seq<int>, lo: int, hi: int)
    requires forall i :: 0 <= i < |s| ==> lo <= s[i] <= hi
    ensures |s| * lo <= Sum(s) <= |s| * hi
  {
    if s != [] {
      SumBounded(s[..|s| - 1], lo, hi);
      assert (|s| - 1) * lo + lo == |s| * lo;
      assert (|s| - 1) * hi + hi == |s| * hi;
    }
  }

  /** What the sum of fourteen shorts can be. */
  predicate ShortSum(x: int) {
    -DAYSAMPLES * 0x8000 <= x <= DAYSAMPLES * 0x7FFF
  }

  lemma SoundTotal(r: OpRec)
    requires r.Sound()
    ensures ShortSum(r.points)
  {
    forall i | 0 <= i < DAYSAMPLES
      ensures IsShort(r.day[i])
    {
      var d: Slot := i;
      assert IsShort(r.day[d]);
    }
    SumBounded(r.day, -0x8000, 0x7FFF);
  }

  lemma NewOpTotalled(now: int)
    ensures NewOp(now).Totalled()
  {
    SumZeros(NO_POINTS);
  }

  /** The object itself, with the fixed-size day array updated in place. */
  class ChanOp {
    var seen: int
    var first: int
    var last: int
    var points: int
    const day: array<int>

    ghost predicate Valid()
      reads this, day
    {
      day.Length == DAYSAMPLES
    }

    ghost function View(): OpRec
      reads this, day
      requires Valid()
    {
      OpRec(seen, first, last, day[..], points)
    }

    constructor ()
      ensures Valid() && fresh(day)
      ensures View() == NewOp(0)
    {
      seen, first, last, points := 0, 0, 0, 0;
      day := new int[DAYSAMPLES](_ => 0);
    }

    method CalcTotalPoints()
      requires Valid()
      modifies this`points
      ensures Valid()
      ensures View() == old(View()).(points := Sum(old(day[..])))
    {
      var i := 0;
      points := 0;
      while i < DAYSAMPLES
        invariant 0 <= i <= DAYSAMPLES
        invariant points == Sum(day[..i])
      {
        assert day[..i + 1][..i] == day[..i];
        points := points + day[i];
        i := i + 1;
      }
      assert day[..i] == day[..];
    }

    /** Writes a slot but leaves the cached total stale. */
    method SetDay(d: Slot, score: int)
      requires Valid()
      modifies day
      ensures Valid()
      ensures View() == old(View()).(day := old(day[..])[d := ToShort(score)])
    {
      day[d] := ToShort(score);
    }

    method SetPoints(currentDay: Slot, score: int)
      requires Valid()
      modifies this`points, day
      ensures Valid()
      ensures View() == old(View()).WithSlot(currentDay, ToShort(score))
    {
      day[currentDay] := ToShort(score);
      CalcTotalPoints();
    }

    method AddPoint(currentDay: Slot)
      requires Valid()
      modifies this`points, day
      ensures Valid()
      ensures View() == old(View()).PlusPoint(currentDay)
    {
      day[currentDay] := ToShort(day[currentDay] + 1);
      CalcTotalPoints();
    }

    /** Loads a database row: every field is taken over and the total is computed afresh. */
    method SetAllMembers(rowSeen: int, rowFirst: int, rowLast: int, rowDay: Ring)
      requires Valid()
      modifies this, day
      ensures Valid()
      ensures View().Totalled()
      ensures View() == OpRec(rowSeen, rowFirst, rowLast,
                              seq(DAYSAMPLES, i requires 0 <= i < DAYSAMPLES => ToShort(rowDay[i])), View().points)
    {
      seen, first, last := rowSeen, rowFirst, rowLast;
      var i := 0;
      while i < DAYSAMPLES
        invariant 0 <= i <= DAYSAMPLES
        invariant forall k :: 0 <= k < i ==> day[k] == ToShort(rowDay[k])
        invariant seen == rowSeen && first == rowFirst && last == rowLast
      {
        day[i] := ToShort(rowDay[i]);
        i := i + 1;
      }
      CalcTotalPoints();
    }
  }
}
