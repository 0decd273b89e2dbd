/** Who may ask for a fix of his own channel: the lists of CANFIX and REQUESTOP. */
module TopOps {
  import opened Config
  import opened ChanOps
  import opened Ranking

  /** The loops' running maximum, which starts at 0. */
  function MaxScore(l: seq<Ranked>): int {
    if l == [] then 0
    else
      var m := MaxScore(l[..|l| - 1]);
      if l[|l| - 1].points > m then l[|l| - 1].points else m
  }

  /**
   * score / top * 100, truncated to `int`; with top 0, or out of range, the conversion is undefined and yields `nan`.
   */
  function Percent(score: int, top: int, nan: int): int
    requires top >= 0
  {
    if top == 0 then nan else ToInt(TruncDiv(score * 100, top), nan)
  }

  /** CANFIX's test, in signed integers. */
  predicate CanFixAccepts(score: int, top: int, nan: int, cfg: Settings)
    requires top >= 0
  {
    100 - Percent(score, top, nan) <= cfg.topOpPercent && score >= cfg.minFixScore
  }

  /** REQUESTOP's test, in unsigned integers throughout: a negative score is a very high one. */
  predicate RequestOpAccepts(score: int, top: int, nan: int, cfg: Settings)
    requires top >= 0
  {
    && ToUnsigned(100 - ToUnsigned(Percent(ToUnsigned(score), top, nan))) <= cfg.topOpPercent
    && ToUnsigned(score) >= cfg.minFixScore
  }

  lemma {:induction false} MaxScoreIsMax(l: seq<Ranked>)
    ensures MaxScore(l) >= 0
    ensures forall i :: 0 <= i < |l| ==> l[i].points <= MaxScore(l)
    ensures MaxScore(l) == 0 || exists i :: 0 <= i < |l| && l[i].points == MaxScore(l)
  {
    if l != [] {
      MaxScoreIsMax(l[..|l| - 1]);
      assert l == l[..|l| - 1] + [l[|l| - 1]];
    }
  }

  method TopScore(l: seq<Ranked>) returns (maxScore: int)
    ensures maxScore == MaxScore(l)
  {
    maxScore := 0;
    for i := 0 to |l|
      invariant maxScore == MaxScore(l[..i])
    {
      assert l[..i + 1][..i] == l[..i];
      if l[i].points > maxScore {
        maxScore := l[i].points;
      }
    }
    assert l[..|l|] == l;
  }

  /** The lines of CANFIX's list, best account first. */
  function Accepted(l: seq<Ranked>, top: int, nan: int, cfg: Settings): seq<Acct>
    requires top >= 0
  {
    if l == [] then []
    else
      var x := l[|l| - 1];
      Accepted(l[..|l| - 1], top, nan, cfg) + (if CanFixAccepts(x.points, top, nan, cfg) then [x.account] else [])
  }

  lemma {:induction false} AcceptedExact(l: seq<Ranked>, top: int, nan: int, cfg: Settings, a: Acct)
    requires top >= 0
    ensures a in Accepted(l, top, nan, cfg) <==>
            exists i :: 0 <= i < |l| && l[i].account == a && CanFixAccepts(l[i].points, top, nan, cfg)
  {
    if l != [] {
      var rest := l[..|l| - 1];
      AcceptedExact(rest, top, nan, cfg, a);
      assert forall i | 0 <= i < |rest| :: rest[i] == l[i];
    }
  }

  /** The accounts that CANFIX prints; None when the asker may not see the list or there is none. */
  method CanFix(l: seq<Ranked>, asker: Acct, isOper: bool, minCanFix: int, nan: int, cfg: Settings)
    returns (printed: Option<seq<Acct>>)
    requires forall i, j | 0 <= i < j < |l| :: l[i].account != l[j].account
    ensures MaxScore(l) >= 0
    ensures printed ==
            if l != [] && (isOper || exists i :: 0 <= i < |l| && l[i].account == asker && l[i].points >= minCanFix)
            then Some(Accepted(l, MaxScore(l), nan, cfg)) else None
  {
    MaxScoreIsMax(l);
    var highscore := false;
    for i := 0 to |l|
      invariant highscore <==> exists k :: 0 <= k < i && l[k].account == asker && l[k].points >= minCanFix
    {
      if l[i].account == asker {
        highscore := l[i].points >= minCanFix;
      }
    }
    if isOper {
      highscore := true;
    }
    if !highscore || l == [] {
      return None;
    }
    var maxScore := TopScore(l);
    var out := [];
    for i := 0 to |l|
      invariant out == Accepted(l[..i], maxScore, nan, cfg)
    {
      assert l[..i + 1][..i] == l[..i];
      if CanFixAccepts(l[i].points, maxScore, nan, cfg) {
        out := out + [l[i].account];
      }
    }
    assert l[..|l|] == l;
    return Some(out);
  }

  /** REQUESTOP's `ishighscore`. */
  ghost predicate IsHighScore(l: seq<Ranked>, asker: Acct, nan: int, cfg: Settings)
    requires MaxScore(l) >= 0
  {
    cfg.allowTopOpFix &&
    exists i :: 0 <= i < |l| && l[i].account == asker && RequestOpAccepts(l[i].points, MaxScore(l), nan, cfg)
  }

  method HighScore(l: seq<Ranked>, asker: Acct, nan: int, cfg: Settings) returns (ishighscore: bool)
    ensures MaxScore(l) >= 0 && (ishighscore <==> IsHighScore(l, asker, nan, cfg))
  {
    MaxScoreIsMax(l);
    ishighscore := false;
    if cfg.allowTopOpFix {
      var maxScore := TopScore(l);
      for i := 0 to |l|
        invariant ishighscore <==>
                  exists k :: 0 <= k < i && l[k].account == asker && RequestOpAccepts(l[k].points, maxScore, nan, cfg)
      {
        if RequestOpAccepts(l[i].points, maxScore, nan, cfg) {
          if l[i].account == asker {
            ishighscore := true;
          }
        }
      }
    }
  }

  lemma {:induction false} MulAtLeast(d: nat, k: int)
    ensures k >= 1 ==> d * k >= d
    decreases k
  {
    if k > 1 {
      MulAtLeast(d, k - 1);
      assert d * k == d * (k - 1) + d;
    }
  }

  lemma MulOrder(x: int, y: int, d: int)
    requires 0 < d && d * x < d * y + d
    ensures x <= y
  {
    MulAtLeast(d, x - y);
    assert d * (x - y) == d * x - d * y;
  }

  lemma DivMonotone(a: int, b: int, d: int)
    requires 0 <= a <= b && 0 < d
    ensures a / d <= b / d
  {
    assert a == d * (a / d) + a % d;
    assert b == d * (b / d) + b % d;
    MulOrder(a / d, b / d, d);
  }

  lemma DivCancel(top: int)
    requires 0 < top
    ensures top * 100 / top == 100 && 0 / top == 0
  {
    var q := top * 100 / top;
    assert top * 100 == top * q + top * 100 % top;
    MulOrder(q, 100, top);
    MulOrder(100, q, top);
  }

  lemma PercentBounds(score: int, top: int)
    requires 0 <= score <= top && 0 < top
    ensures 0 <= score * 100 / top <= 100
    ensures top * 100 / top == 100
  {
    DivCancel(top);
    DivMonotone(0, score * 100, top);
    DivMonotone(score * 100, top * 100, top);
  }

  /** Whether the conversions of a negative total are defined: REQUESTOP takes it for a very large number. */
  predicate Convertible(score: int, top: int, cfg: Settings)
    requires top > 0
  {
    score < 0 ==> ToUnsigned(score) * 100 / top < 0x8000_0000 && cfg.topOpPercent < 0x8000_0000
  }

  /** Both tests reject every negative total: to REQUESTOP it is too large a percentage. */
  lemma NegativeRejected(score: int, top: int, nan1: int, nan2: int, cfg: Settings)
    requires ShortSum(score) && ShortSum(top) && score < 0 < top
    ensures !CanFixAccepts(score, top, nan1, cfg)
    ensures Convertible(score, top, cfg) ==> !RequestOpAccepts(score, top, nan2, cfg)
  {
    var p := ToUnsigned(score) * 100 / top;
    DivMonotone(101 * top, ToUnsigned(score) * 100, top);
    MulOrder(101, 101 * top / top, top);
    assert p >= 101;
    if Convertible(score, top, cfg) {
      assert Percent(ToUnsigned(score), top, nan2) == p;
      assert ToUnsigned(100 - p) == 0x1_0000_0000 + 100 - p;
    }
  }

  /** The signed and the unsigned test agree on every total of a channel whose top score is positive. */
  lemma TestsAgree(score: int, top: int, nan1: int, nan2: int, cfg: Settings)
    requires ShortSum(score) && ShortSum(top) && score <= top && 0 < top && Convertible(score, top, cfg)
    ensures CanFixAccepts(score, top, nan1, cfg) <==> RequestOpAccepts(score, top, nan2, cfg)
  {
    if score < 0 {
      NegativeRejected(score, top, nan1, nan2, cfg);
    } else {
      PercentBounds(score, top);
      var p := Percent(score, top, nan2);
      assert p == score * 100 / top;
      UnsignedComplement(p);
      assert ToUnsigned(score) == score;
    }
  }

  lemma UnsignedComplement(p: int)
    requires 0 <= p <= 100
    ensures ToUnsigned(100 - ToUnsigned(p)) == 100 - p
  {
  }

  lemma AcceptedUpward(x: int, y: int, top: int, nan: int, cfg: Settings)
    requires x <= y <= top && 0 < top && CanFixAccepts(x, top, nan, cfg)
    ensures x >= 0 && CanFixAccepts(y, top, nan, cfg)
  {
    PercentBounds(x, top);
    PercentBounds(y, top);
    DivMonotone(x * 100, y * 100, top);
  }

  lemma TopAccepted(top: int, nan: int, cfg: Settings)
    requires 0 < top
    ensures CanFixAccepts(top, top, nan, cfg) <==> top >= cfg.minFixScore
  {
    PercentBounds(top, top);
  }

  lemma DivAtLeast(a: int, d: int, k: int)
    requires 0 < d
    ensures a / d >= k <==> a >= d * k
  {
    var q := a / d;
    assert a == d * q + a % d;
    if q >= k {
      MulAtLeast(d, q - k);
      assert d * (q - k) == d * q - d * k;
      assert q == k || d * (q - k) >= d;
    } else {
      MulAtLeast(d, k - q);
      assert d * (k - q) == d * k - d * q;
    }
  }

  /** What the test of CANFIX asks for: to be within so many percent of the top score, and to reach the minimum. */
  lemma AcceptedMeans(score: int, top: int, nan: int, cfg: Settings)
    requires 0 <= score <= top && 0 < top
    ensures CanFixAccepts(score, top, nan, cfg) <==>
            100 * score >= top * (100 - cfg.topOpPercent) && score >= cfg.minFixScore
  {
    PercentBounds(score, top);
    DivAtLeast(score * 100, top, 100 - cfg.topOpPercent);
  }

  lemma RankingFacts(ops: OpTable)
    requires ops != map[] && MyOps(ops) != [] && MyOps(ops)[0].points > 0
    ensures MaxScore(MyOps(ops)) == MyOps(ops)[0].points
    ensures forall a | a in ops :: ops[a].points <= MyOps(ops)[0].points
    ensures forall a | a in ops :: Lists(MyOps(ops), a)
    ensures forall i | 0 <= i < |MyOps(ops)| ::
            MyOps(ops)[i].account in ops && MyOps(ops)[i].points == ops[MyOps(ops)[i].account].points
  {
    MyOpsIsRanking(ops);
    TopIsMaximum(ops);
    MaxScoreIsMax(MyOps(ops));
  }

  /** Where fixes by top ops are allowed, REQUESTOP accepts exactly the accounts that CANFIX prints. */
  lemma CanFixAgreesWithRequestOp(ops: OpTable, a: Acct, nan1: int, nan2: int, cfg: Settings)
    requires forall b | b in ops :: ShortSum(ops[b].points)
    requires MyOps(ops) != [] && MyOps(ops)[0].points > 0
    requires a in ops ==> Convertible(ops[a].points, MyOps(ops)[0].points, cfg)
    ensures MaxScore(MyOps(ops)) == MyOps(ops)[0].points
    ensures a in Accepted(MyOps(ops), MaxScore(MyOps(ops)), nan1, cfg) <==>
            a in ops && CanFixAccepts(ops[a].points, MyOps(ops)[0].points, nan1, cfg)
    ensures IsHighScore(MyOps(ops), a, nan2, cfg) <==>
            cfg.allowTopOpFix && a in Accepted(MyOps(ops), MaxScore(MyOps(ops)), nan1, cfg)
  {
    var l := MyOps(ops);
    var top := l[0].points;
    assert ops != map[];
    RankingFacts(ops);
    AcceptedExact(l, top, nan1, cfg, a);
    if a in ops {
      assert Lists(l, a);
      assert l[0].account in ops;
      TestsAgree(ops[a].points, top, nan1, nan2, cfg);
    }
  }

  /** The accepted accounts are closed under higher scores; the top scorer is accepted iff it reaches the minimum. */
  lemma HighScoresAreUpward(ops: OpTable, a: Acct, b: Acct, nan: int, cfg: Settings)
    requires a in ops && b in ops && ops[a].points <= ops[b].points
    requires forall c | c in ops :: ShortSum(ops[c].points)
    requires MyOps(ops) != [] && MyOps(ops)[0].points > 0
    requires Convertible(ops[a].points, MyOps(ops)[0].points, cfg)
    ensures MaxScore(MyOps(ops)) >= 0
    ensures IsHighScore(MyOps(ops), a, nan, cfg) ==> IsHighScore(MyOps(ops), b, nan, cfg)
    ensures IsHighScore(MyOps(ops), MyOps(ops)[0].account, nan, cfg) <==>
            cfg.allowTopOpFix && MyOps(ops)[0].points >= cfg.minFixScore
  {
    var l := MyOps(ops);
    var top := l[0].points;
    RankingFacts(ops);
    CanFixAgreesWithRequestOp(ops, a, nan, nan, cfg);
    CanFixAgreesWithRequestOp(ops, l[0].account, nan, nan, cfg);
    if IsHighScore(l, a, nan, cfg) {
      AcceptedUpward(ops[a].points, ops[b].points, top, nan, cfg);
      CanFixAgreesWithRequestOp(ops, b, nan, nan, cfg);
    }
    TopAccepted(top, nan, cfg);
  }
}
