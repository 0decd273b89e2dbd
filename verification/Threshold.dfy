/** The minimum score an account needs at a given moment of a fix (fixChan, shouldCJoin and simFix compute the same). */
module Threshold {
  import opened Config

  /** Falls linearly from 20% to 4% of the maximum possible score over the fix window. */
  function MinScoreAbs(elapsed: int): int {
    TruncDiv(MAX_SCORE * ABS_BEGIN * AUTOFIX_MAXIMUM - elapsed * (MAX_SCORE * ABS_BEGIN - MAX_SCORE * ABS_END),
             100 * AUTOFIX_MAXIMUM)
  }

  /** Falls linearly from 90% to 30% of the channel's top score over the fix window. */
  function MinScoreRel(top: int, elapsed: int): int {
    TruncDiv(top * (REL_BEGIN * AUTOFIX_MAXIMUM - elapsed * (REL_BEGIN - REL_END)), 100 * AUTOFIX_MAXIMUM)
  }

  /** The higher of the two, lowered to the top score so that the first op is never waited for. */
  function MinScore(top: int, elapsed: int): int {
    var abs := MinScoreAbs(elapsed);
    var rel := MinScoreRel(top, elapsed);
    var m := if rel > abs then rel else abs;
    if top < m then top else m
  }

  /** The documented promise: never below min_score nor below 30% of the channel's top score. */
  predicate FloorKept(top: int, score: int) {
    score >= DOC_MIN_SCORE && 100 * score >= REL_END * top
  }

  /** The same with both bounds rounded down to integers, as the computation of the bar does. */
  predicate RoundedFloorKept(top: int, score: int) {
    score >= MIN_FIXABLE && score >= TruncDiv(REL_END * top, 100)
  }

  /**
   * What the documentation promises of the first attempt: at least 90% of the channel's top score, and at least
   * `percent` of the maximum score. It says 40%; the constant in the code is 20%.
   */
  predicate FirstFloorKept(top: int, score: int, percent: int) {
    100 * score >= REL_BEGIN * top && 100 * score >= percent * MAX_SCORE
  }

  const DOC_ABS_BEGIN := 40

  /** The top scores for which the first attempt keeps that: the bar is truncated, and lowered to a low top score. */
  predicate FirstFloorSafe(top: int, auto: bool, percent: int) {
    if auto then top % 10 == 0 && top >= (if percent == DOC_ABS_BEGIN then 1800 else 900)
    else top >= (if percent == DOC_ABS_BEGIN then 1783 else 807)
  }

  /** How long into a fix the promise holds for every channel: ten seconds less than the window. */
  const FLOOR_KEPT_FOR := 3590

  lemma TruncMonotone(a: int, b: int)
    requires a <= b
    ensures TruncDiv(a, 360000) <= TruncDiv(b, 360000)
  {
  }

  /** The score is at least the quotient of n and 360000, truncated toward zero. */
  predicate Reaches(score: int, n: int) {
    if n >= 0 then 360000 * (score + 1) > n else 360000 * score >= n
  }

  lemma TruncReached(score: int, n: int)
    ensures score >= TruncDiv(n, 360000) <==> Reaches(score, n)
  {
  }

  /**
   * Who meets the bar at any moment of a fix, or after it: the top scorer, and everybody who reaches two bounds, one
   * falling from 20% to 4% of 4032, the other from 90% to 30% of the top score, each by the same amount every second of
   * an hour, and on at that pace.
   */
  lemma BarExact(top: int, elapsed: int, score: int)
    ensures score >= MinScore(top, elapsed) <==>
            || score >= top
            || (Reaches(score, 4032 * (20 * 3600 - 16 * elapsed)) && Reaches(score, top * (90 * 3600 - 60 * elapsed)))
  {
    TruncReached(score, 4032 * (20 * 3600 - 16 * elapsed));
    TruncReached(score, top * (90 * 3600 - 60 * elapsed));
  }

  /** Waiting longer never raises the bar. */
  lemma MinScoreAntitone(top: int, early: int, late: int)
    requires 0 <= top && early <= late
    ensures MinScore(top, late) <= MinScore(top, early)
  {
    TruncMonotone(MAX_SCORE * ABS_BEGIN * AUTOFIX_MAXIMUM - late * (MAX_SCORE * ABS_BEGIN - MAX_SCORE * ABS_END),
                  MAX_SCORE * ABS_BEGIN * AUTOFIX_MAXIMUM - early * (MAX_SCORE * ABS_BEGIN - MAX_SCORE * ABS_END));
    var hi := REL_BEGIN * AUTOFIX_MAXIMUM - early * (REL_BEGIN - REL_END);
    var lo := REL_BEGIN * AUTOFIX_MAXIMUM - late * (REL_BEGIN - REL_END);
    assert top * lo <= top * hi;
    TruncMonotone(top * lo, top * hi);
  }

  /** At the very end of the window the bar is exactly the rounded floor. */
  lemma BarAtWindowEnd(top: int)
    requires top > MIN_FIXABLE
    ensures RoundedFloorKept(top, MinScore(top, AUTOFIX_MAXIMUM))
  {
    assert MinScoreRel(top, AUTOFIX_MAXIMUM) == TruncDiv(top * 108000, 360000);
    assert top * 108000 / 360000 == REL_END * top / 100;
  }

  /** Ten seconds earlier the bar is still high enough for rounding not to matter. */
  lemma BarTenSecondsEarlier(top: int)
    requires top > MIN_FIXABLE
    ensures FloorKept(top, MinScore(top, FLOOR_KEPT_FOR))
  {
    assert MinScoreRel(top, FLOOR_KEPT_FOR) == TruncDiv(top * 108600, 360000);
    assert MinScoreAbs(FLOOR_KEPT_FOR) == 163;
  }

  /** Two top scores whose bar is below their floor as soon as it can be. */
  lemma LateBars(elapsed: int)
    ensures elapsed > FLOOR_KEPT_FOR ==> MinScore(547, elapsed) <= 164
    ensures elapsed > AUTOFIX_MAXIMUM ==> MinScore(1000, elapsed) <= 299
  {
    if elapsed > FLOOR_KEPT_FOR {
      MinScoreAntitone(547, FLOOR_KEPT_FOR + 1, elapsed);
    }
    if elapsed > AUTOFIX_MAXIMUM {
      MinScoreAntitone(1000, AUTOFIX_MAXIMUM + 1, elapsed);
    }
  }

  /**
   * The rounded floor holds for every fixable channel iff the attempt is made inside the window. The guard is not in
   * the code: processQueue attempts the fix first and only then looks at the window.
   */
  lemma RoundedFloorExact(elapsed: int)
    ensures (forall top :: top > MIN_FIXABLE ==> RoundedFloorKept(top, MinScore(top, elapsed))) <==>
            elapsed <= AUTOFIX_MAXIMUM
  {
    if elapsed <= AUTOFIX_MAXIMUM {
      forall top | top > MIN_FIXABLE
        ensures RoundedFloorKept(top, MinScore(top, elapsed))
      {
        BarAtWindowEnd(top);
        MinScoreAntitone(top, elapsed, AUTOFIX_MAXIMUM);
      }
    } else {
      LateBars(elapsed);
      assert !RoundedFloorKept(1000, MinScore(1000, elapsed));
    }
  }

  /**
   * The documented floor holds for every fixable channel iff the attempt is made ten seconds before the window ends.
   */
  lemma FloorExact(elapsed: int)
    ensures (forall top :: top > MIN_FIXABLE ==> FloorKept(top, MinScore(top, elapsed))) <==> elapsed <= FLOOR_KEPT_FOR
  {
    if elapsed <= FLOOR_KEPT_FOR {
      forall top | top > MIN_FIXABLE
        ensures FloorKept(top, MinScore(top, elapsed))
      {
        BarTenSecondsEarlier(top);
        MinScoreAntitone(top, elapsed, FLOOR_KEPT_FOR);
      }
    } else {
      LateBars(elapsed);
      assert !FloorKept(547, MinScore(547, elapsed));
    }
  }

  /** The bar of a first attempt. */
  lemma FirstBar(top: int, auto: bool)
    requires top > MIN_FIXABLE
    ensures var rel, abs := if auto then 9 * top / 10 else 181 * top / 200, if auto then 806 else 811;
            var bar := if rel > abs then rel else abs;
            MinScore(top, if auto then 0 else -CHANFIX_DELAY) == if top < bar then top else bar
  {
    if auto {
      assert MinScoreRel(top, 0) == TruncDiv(top * 324000, 360000);
      assert top * 324000 / 360000 == 9 * top / 10;
    } else {
      assert MinScoreRel(top, -CHANFIX_DELAY) == TruncDiv(top * 325800, 360000);
      assert top * 325800 / 360000 == 181 * top / 200;
    }
  }

  /** Neither of the two percentages holds for all channels; nor does the 90% of an automatic fix. */
  lemma FirstFloorExact(top: int, auto: bool, percent: int)
    requires top > MIN_FIXABLE && (percent == DOC_ABS_BEGIN || percent == ABS_BEGIN)
    ensures FirstFloorKept(top, MinScore(top, if auto then 0 else -CHANFIX_DELAY), percent) <==>
            FirstFloorSafe(top, auto, percent)
  {
    FirstBar(top, auto);
  }

  /** The documentation's worked example, a top score of 2400, which it gives bars of 2160, 1728 and 800. */
  lemma WorkedExample(elapsed: int)
    ensures MinScore(2400, 0) == 2160 && MinScore(2400, 1200) == 1680
    ensures MinScore(2400, elapsed) >= 800 <==> elapsed <= 3400
  {
    if elapsed <= 3400 {
      MinScoreAntitone(2400, elapsed, 3400);
    } else {
      MinScoreAntitone(2400, 3401, elapsed);
    }
  }

  /** Inside the window every score that meets the bar keeps the rounded floor, and the top score always meets it. */
  lemma WindowBounds(top: int, elapsed: int)
    requires top > MIN_FIXABLE && elapsed <= AUTOFIX_MAXIMUM
    ensures forall score | score >= MinScore(top, elapsed) :: RoundedFloorKept(top, score)
    ensures MinScore(top, elapsed) <= top
  {
    RoundedFloorExact(elapsed);
  }
}
