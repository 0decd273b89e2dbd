/** What one attempt to fix a channel achieves, and how it relates to its dry run and to later attempts. */
module Fixes {
  import opened Config
  import opened ChanOps
  import opened Ranking
  import opened Chooser
  import opened Threshold
  import opened Slices
  import opened Runs

  /** The highest score of a channel with records. */
  ghost function Top(ops: OpTable): int
    requires ops != map[]
  {
    TopIsMaximum(ops);
    MyOps(ops)[0].points
  }

  /** The top score an attempt goes by: a channel whose records are all gone keeps the last one. */
  ghost function TopScore(s: Slice): int {
    if s.Ops() == map[] then s.Rec().maxScore else Top(s.Ops())
  }

  /** The score an attempt at time `now` asks for. */
  ghost function Bar(s: Slice, auto: bool, now: int): int {
    MinScore(TopScore(s), Elapsed(Stamped(s.Rec(), now), auto, now))
  }

  /** A record with the given total. */
  function Scored(points: int): OpRec {
    NewOp(0).WithSlot(0, points)
  }

  lemma ScoredPoints(points: int)
    ensures Scored(points).points == points
  {
    SumUpdate(NO_POINTS, 0, points);
    SumZeros(NO_POINTS);
  }

  /** An attempt reaches the selection: the channel exists, has a high enough top score, and is short of ops. */
  ghost predicate Selects(s: Slice) {
    && s.net.Some? && DistinctUsers(s.net.value.users) && CountOps(s.net.value.users) < NUM_OPPED
    && TopScore(s) > MIN_FIXABLE
  }

  /** With a high enough top score and too few ops, an attempt gets as far as the selection. */
  lemma ReachesSelection(s: Slice, auto: bool, now: int)
    requires Selects(s)
    ensures var s1 := s.(rec := Some(Stamped(s.Rec(), now).(maxScore := TopScore(s))));
            FixAttempt(s, auto, now) == GiveOps(s1, auto, now)
  {
    if s.Ops() != map[] {
      TopIsMaximum(s.Ops());
    }
    assert WithTop(Stamped(s.Rec(), now), MyOps(s.Ops())) == Stamped(s.Rec(), now).(maxScore := TopScore(s));
  }

  lemma SelectionOf(s: Slice, auto: bool, now: int)
    requires Selects(s)
    ensures FixAttempt(s, auto, now).opped ==
            Chosen(MyOps(s.Ops()), s.net.value.users, Bar(s, auto, now), NUM_OPPED - CountOps(s.net.value.users))
    ensures FixAttempt(s, auto, now).s.net.Some?
    ensures FixAttempt(s, auto, now).opped != [] ==>
              FixAttempt(s, auto, now).s.net.value.users ==
                OpUsers(s.net.value.users, Ids(FixAttempt(s, auto, now).opped))
    ensures FixAttempt(s, auto, now).opped == [] ==> FixAttempt(s, auto, now).s.net.value.users == s.net.value.users
  {
    ReachesSelection(s, auto, now);
    assert Elapsed(Stamped(s.Rec(), now).(maxScore := TopScore(s)), auto, now) ==
           Elapsed(Stamped(s.Rec(), now), auto, now);
  }

  lemma IdsLast(users: seq<User>)
    requires users != []
    ensures Ids(users) == Ids(users[..|users| - 1]) + {users[|users| - 1].id}
  {
    var rest := users[..|users| - 1];
    assert forall i | 0 <= i < |rest| :: rest[i] == users[i];
    forall id | id in Ids(users)
      ensures id in Ids(rest) + {users[|users| - 1].id}
    {
      var i :| 0 <= i < |users| && users[i].id == id;
      assert i < |rest| ==> rest[i].id == id;
    }
  }

  lemma {:induction false} IdsCardinality(users: seq<User>, picked: seq<User>)
    requires DistinctUsers(users) && Distinct(picked)
    requires forall u | u in picked :: u in users
    ensures |Ids(picked)| == |picked| && Ids(picked) <= Ids(users)
  {
    if picked == [] {
      assert Ids(picked) == {};
    } else {
      var rest, x := picked[..|picked| - 1], picked[|picked| - 1];
      assert forall u | u in rest :: u in picked;
      IdsCardinality(users, rest);
      IdsLast(picked);
      LastIdIsNew(users, picked);
    }
  }

  lemma LastIdIsNew(users: seq<User>, picked: seq<User>)
    requires DistinctUsers(users) && Distinct(picked) && picked != []
    requires forall u | u in picked :: u in users
    ensures picked[|picked| - 1].id in Ids(users)
    ensures picked[|picked| - 1].id !in Ids(picked[..|picked| - 1])
  {
    var rest, x := picked[..|picked| - 1], picked[|picked| - 1];
    assert x in picked && x in users;
    forall i | 0 <= i < |rest|
      ensures rest[i].id != x.id
    {
      assert rest[i] == picked[i] && picked[i] in picked && picked[i] in users;
    }
  }

  lemma OppingCounts(users: seq<User>, picked: seq<User>)
    requires DistinctUsers(users) && Distinct(picked)
    requires forall u | u in picked :: u in users && !u.opped
    ensures CountOps(OpUsers(users, Ids(picked))) == CountOps(users) + |picked|
  {
    IdsCardinality(users, picked);
    forall u | u in users && u.id in Ids(picked)
      ensures !u.opped
    {
      var i :| 0 <= i < |picked| && picked[i].id == u.id;
      assert picked[i] in users;
    }
    OpUsersCount(users, Ids(picked));
  }

  /** Only accounts with a record are given ops. */
  lemma OppedAreScored(s: Slice, auto: bool, now: int)
    requires s.net.Some? ==> DistinctUsers(s.net.value.users)
    ensures forall u | u in FixAttempt(s, auto, now).opped :: u.account in s.Ops()
  {
    if Selects(s) {
      AttemptIsGreedy(s, auto, now);
    } else if s.Ops() != map[] {
      TopIsMaximum(s.Ops());
    }
  }

  /** The greedy choice: as many eligible clients as there are and as fit, and none passed over for a lower score. */
  lemma AttemptIsGreedy(s: Slice, auto: bool, now: int)
    requires Selects(s)
    ensures var opped, users, ops, bar := FixAttempt(s, auto, now).opped, s.net.value.users, s.Ops(), Bar(s, auto, now);
            var n := |EligibleUsers(ops, users, bar)|;
            && Distinct(opped)
            && (forall u | u in opped :: Eligible(u, ops, users, bar))
            && |opped| == (if n < NUM_OPPED - CountOps(users) then n else NUM_OPPED - CountOps(users))
            && (forall u, v | u in opped && v !in opped && Eligible(v, ops, users, bar) ::
                  ops[v.account].points <= ops[u.account].points)
  {
    SelectionOf(s, auto, now);
    GreedyChoice(s.Ops(), s.net.value.users, Bar(s, auto, now), NUM_OPPED - CountOps(s.net.value.users));
  }

  /** The channel ends up with exactly that many more ops, and never with more than the cap. */
  lemma AttemptCounts(s: Slice, auto: bool, now: int)
    requires Selects(s)
    ensures var a := FixAttempt(s, auto, now);
            && a.s.net.Some? && |a.s.net.value.users| == |s.net.value.users|
            && CountOps(a.s.net.value.users) == CountOps(s.net.value.users) + |a.opped| <= NUM_OPPED
  {
    AttemptIsGreedy(s, auto, now);
    OppingCounts(s.net.value.users, FixAttempt(s, auto, now).opped);
    SelectionOf(s, auto, now);
  }

  /** If a client of a top-scoring account is present without ops, somebody is opped: the bar never exceeds the top. */
  lemma TopScorerSuffices(s: Slice, auto: bool, now: int, u: User)
    requires Selects(s) && u in s.net.value.users && !u.opped
    requires u.account in s.Ops() && s.Ops()[u.account].points == TopScore(s)
    ensures FixAttempt(s, auto, now).opped != []
  {
    AttemptIsGreedy(s, auto, now);
    assert u in EligibleUsers(s.Ops(), s.net.value.users, Bar(s, auto, now));
  }

  /**
   * What makes an attempt a success, told from the state before it: the channel is gone; or, with n clients at the bar,
   * it has its ops already, or somebody can be opped (or has ops, if the fix is automatic) and everybody, or as many as
   * the cap allows, ends up opped.
   */
  ghost predicate Succeeds(s: Slice, auto: bool, now: int) {
    s.net.Some? ==>
      var users := s.net.value.users;
      var cur, n := CountOps(users), |EligibleUsers(s.Ops(), users, Bar(s, auto, now))|;
      && TopScore(s) > MIN_FIXABLE
      && (|| cur >= NUM_OPPED
          || ((n > 0 || (auto && cur > 0)) && (cur + n >= NUM_OPPED || cur + n >= |users|)))
  }

  lemma FixedExactly(s: Slice, auto: bool, now: int)
    requires s.net.Some? ==> DistinctUsers(s.net.value.users)
    ensures FixAttempt(s, auto, now).fixed <==> Succeeds(s, auto, now)
  {
    if s.Ops() != map[] {
      TopIsMaximum(s.Ops());
    }
    if Selects(s) {
      AttemptIsGreedy(s, auto, now);
    }
  }

  /** An attempt reports success only if the channel is gone, has its ops, or everybody on it is opped. */
  lemma FixedMeansDone(s: Slice, auto: bool, now: int)
    requires s.net.Some? ==> DistinctUsers(s.net.value.users)
    requires FixAttempt(s, auto, now).fixed
    ensures var net := FixAttempt(s, auto, now).s.net;
            || (s.net.None? && net.None?)
            || (net.Some? && CountOps(net.value.users) >= NUM_OPPED)
            || (net.Some? && forall i :: 0 <= i < |net.value.users| ==> net.value.users[i].opped)
  {
    if Selects(s) {
      AttemptCounts(s, auto, now);
      CountOpsBound(FixAttempt(s, auto, now).s.net.value.users);
    } else if s.Ops() != map[] {
      TopIsMaximum(s.Ops());
    }
  }

  /**
   * The documented end of a fix, somebody opped and no one else at the bar, is none: in that state an automatic attempt
   * is complete exactly when everybody on the channel is opped, and a manual one never is.
   */
  lemma DocumentedEndExact(s: Slice, auto: bool, now: int)
    requires Selects(s)
    ensures CountOps(s.net.value.users) > 0 && EligibleUsers(s.Ops(), s.net.value.users, Bar(s, auto, now)) == {} ==>
              (FixAttempt(s, auto, now).fixed <==>
               auto && forall i :: 0 <= i < |s.net.value.users| ==> s.net.value.users[i].opped)
  {
    FixedExactly(s, auto, now);
    CountOpsBound(s.net.value.users);
  }

  /** The other documented end, everybody opped on a channel below the cap: it is one for automatic fixes only. */
  lemma EverybodyOppedExact(s: Slice, auto: bool, now: int)
    requires Selects(s) && s.net.value.users != []
    requires forall i :: 0 <= i < |s.net.value.users| ==> s.net.value.users[i].opped
    ensures FixAttempt(s, auto, now).fixed <==> auto
  {
    var users := s.net.value.users;
    assert users[0].opped;
    CountOpsBound(users);
    forall u | u in users
      ensures u.opped
    {
      var i :| 0 <= i < |users| && users[i] == u;
    }
    assert EligibleUsers(s.Ops(), users, Bar(s, auto, now)) == {};
    DocumentedEndExact(s, auto, now);
  }

  /** A queued channel with a top score of 1000, one op, and perhaps one client without an account. */
  function OneOp(auto: bool, due: int, alone: bool): Slice {
    var op, other := User(7, 1, 0, false, true, true), User(8, NO_ACCOUNT, 0, false, true, false);
    WithDue(Slice(Some(NEW_REC), None, None, None, Some(Chan(if alone then [op] else [op, other], false)),
                  Some(map[1 := Scored(1000)])),
            auto, Some(due))
  }

  lemma OneOpSelects(auto: bool, now: int, alone: bool)
    ensures var s := OneOp(auto, now, alone);
            && Selects(s) && CountOps(s.net.value.users) > 0
            && EligibleUsers(s.Ops(), s.net.value.users, Bar(s, auto, now)) == {}
  {
    var s := OneOp(auto, now, alone);
    ScoredPoints(1000);
    assert 1 in s.Ops();
    TopIsMaximum(s.Ops());
    CountOpsBound(s.net.value.users);
    assert s.net.value.users[0].opped;
    assert forall u | u in s.net.value.users :: u.opped || u.account == NO_ACCOUNT;
  }

  /**
   * With one op and nobody else at the bar, a pass keeps a fix of either kind in its queue; a manual one even if the op
   * is alone.
   */
  lemma DocumentedEndFails(auto: bool, now: nat, alone: bool)
    requires now >= DAY && (alone ==> !auto)
    ensures Due(Pass(OneOp(auto, now, alone), now), auto) == Some(now + Interval(auto))
  {
    var s := OneOp(auto, now, alone);
    OneOpSelects(auto, now, alone);
    DocumentedEndExact(s, auto, now);
    if !alone {
      assert !s.net.value.users[1].opped;
    }
    GoesOn(s, auto, now);
  }

  /** A due entry whose first attempt fails stays in its queue. */
  lemma GoesOn(s: Slice, auto: bool, now: nat)
    requires now >= DAY && s.rec == Some(NEW_REC) && Due(s, auto) == Some(now) && Due(s, !auto).None?
    requires !FixAttempt(s, auto, now).fixed
    ensures Due(Pass(s, now), auto) == Some(now + Interval(auto))
  {
    assert s.(rec := Some(s.Rec())) == s;
    TryFrame(s, auto, now);
    EntryFrame(s, auto, now);
  }

  /** shouldCJoin: whether a first attempt right now would fill the channel up to the cap. */
  ghost predicate ShouldJoin(s: Slice, auto: bool) {
    && s.net.Some? && MyOps(s.Ops()) != [] && MyOps(s.Ops())[0].points > MIN_FIXABLE
    && CountOps(s.net.value.users) < NUM_OPPED
    && |Candidates(MyOps(s.Ops()), s.net.value.users,
                   MinScore(MyOps(s.Ops())[0].points, if auto then 0 else -CHANFIX_DELAY))|
       >= NUM_OPPED - CountOps(s.net.value.users)
  }

  lemma DryRunOfSelection(s: Slice, auto: bool, now: int)
    requires Selects(s) && s.Ops() != map[] && s.Rec().start == 0
    ensures ShouldJoin(s, auto) <==>
            |FixAttempt(s, auto, now).opped| == NUM_OPPED - CountOps(s.net.value.users)
  {
    TopIsMaximum(s.Ops());
    SelectionOf(s, auto, now);
    assert Elapsed(Stamped(s.Rec(), now), auto, now) == if auto then 0 else -CHANFIX_DELAY;
  }

  /**
   * The dry run predicts the first attempt: it says yes exactly when that attempt reaches the cap by opping someone.
   */
  lemma DryRunAgrees(s: Slice, auto: bool, now: int)
    requires s.Rec().start == 0
    requires s.net.Some? ==> DistinctUsers(s.net.value.users)
    ensures ShouldJoin(s, auto) <==>
            && FixAttempt(s, auto, now).opped != []
            && FixAttempt(s, auto, now).s.net.Some?
            && CountOps(FixAttempt(s, auto, now).s.net.value.users) >= NUM_OPPED
  {
    if s.Ops() == map[] {
      if Selects(s) {
        AttemptIsGreedy(s, auto, now);
      }
    } else if Selects(s) {
      AttemptCounts(s, auto, now);
      DryRunOfSelection(s, auto, now);
    } else {
      TopIsMaximum(s.Ops());
    }
  }

  // ---- The documented floor ----

  /** Nobody is given ops below min_score or below 30% of the channel's top score. */
  ghost predicate FloorLaw(s: Slice, auto: bool, now: int)
    requires Selects(s)
  {
    forall u | u in FixAttempt(s, auto, now).opped ::
      u.account in s.Ops() && FloorKept(TopScore(s), s.Ops()[u.account].points)
  }

  /** The same with both bounds rounded down. */
  ghost predicate RoundedFloorLaw(s: Slice, auto: bool, now: int)
    requires Selects(s)
  {
    forall u | u in FixAttempt(s, auto, now).opped ::
      u.account in s.Ops() && RoundedFloorKept(TopScore(s), s.Ops()[u.account].points)
  }

  /** Nobody is given ops in a first attempt below what is promised of it. */
  ghost predicate FirstFloorLaw(s: Slice, auto: bool, now: int, percent: int)
    requires Selects(s)
  {
    forall u | u in FixAttempt(s, auto, now).opped ::
      u.account in s.Ops() && FirstFloorKept(TopScore(s), s.Ops()[u.account].points, percent)
  }

  lemma EarlyKeepsFloor(s: Slice, auto: bool, now: int)
    requires Selects(s)
    ensures Elapsed(Stamped(s.Rec(), now), auto, now) <= FLOOR_KEPT_FOR ==> FloorLaw(s, auto, now)
    ensures Elapsed(Stamped(s.Rec(), now), auto, now) <= AUTOFIX_MAXIMUM ==> RoundedFloorLaw(s, auto, now)
  {
    AttemptIsGreedy(s, auto, now);
    FloorExact(Elapsed(Stamped(s.Rec(), now), auto, now));
    RoundedFloorExact(Elapsed(Stamped(s.Rec(), now), auto, now));
  }

  /** A channel whose only client present scored `score` out of a top score of `top`. */
  function Lone(start: int, top: int, score: int): Slice {
    Slice(Some(NEW_REC.(start := start, last := start)), None, None, None,
          Some(Chan([User(7, 2, 0, false, true, false)], false)),
          Some(map[1 := Scored(top), 2 := Scored(score)]))
  }

  lemma LoneSelects(start: int, top: int, score: int)
    requires score <= top && top > MIN_FIXABLE
    ensures Selects(Lone(start, top, score)) && TopScore(Lone(start, top, score)) == top
    ensures Lone(start, top, score).Ops()[2].points == score
  {
    ScoredPoints(top);
    ScoredPoints(score);
    var ops := Lone(start, top, score).Ops();
    assert ops[1].points == top;
    TopIsMaximum(ops);
    CountOpsBound(Lone(start, top, score).net.value.users);
  }

  /** The only client of a channel is opped as soon as its account meets the bar. */
  lemma OnlyClientIsOpped(s: Slice, auto: bool, now: int, u: User)
    requires Selects(s) && s.net.value.users == [u]
    ensures Eligible(u, s.Ops(), [u], Bar(s, auto, now)) ==> u in FixAttempt(s, auto, now).opped
  {
    AttemptIsGreedy(s, auto, now);
    if Eligible(u, s.Ops(), [u], Bar(s, auto, now)) {
      assert u in EligibleUsers(s.Ops(), [u], Bar(s, auto, now));
      var v := FixAttempt(s, auto, now).opped[0];
      assert v in FixAttempt(s, auto, now).opped;
      assert v in [u];
    }
  }

  lemma LoneIsOpped(auto: bool, start: int, now: int, top: int, score: int)
    requires score <= top && top > MIN_FIXABLE
    ensures Selects(Lone(start, top, score)) && TopScore(Lone(start, top, score)) == top
    ensures Lone(start, top, score).Ops()[2].points == score
    ensures MinScore(top, Elapsed(Stamped(NEW_REC.(start := start), now), auto, now)) <= score ==>
              Lone(start, top, score).net.value.users[0] in FixAttempt(Lone(start, top, score), auto, now).opped
  {
    var s := Lone(start, top, score);
    var u := s.net.value.users[0];
    LoneSelects(start, top, score);
    assert u in [u];
    assert MinScore(top, Elapsed(Stamped(NEW_REC.(start := start), now), auto, now)) <= score ==>
           Eligible(u, s.Ops(), [u], Bar(s, auto, now));
    OnlyClientIsOpped(s, auto, now, u);
  }

  lemma LateBelowFloor(auto: bool, start: int, now: int)
    requires Elapsed(Stamped(NEW_REC.(start := start), now), auto, now) > FLOOR_KEPT_FOR
    ensures Selects(Lone(start, 547, 164)) && !FloorLaw(Lone(start, 547, 164), auto, now)
  {
    LateBars(Elapsed(Stamped(NEW_REC.(start := start), now), auto, now));
    LoneIsOpped(auto, start, now, 547, 164);
  }

  lemma LateBelowRoundedFloor(auto: bool, start: int, now: int)
    requires Elapsed(Stamped(NEW_REC.(start := start), now), auto, now) > AUTOFIX_MAXIMUM
    ensures Selects(Lone(start, 1000, 299)) && !RoundedFloorLaw(Lone(start, 1000, 299), auto, now)
  {
    LateBars(Elapsed(Stamped(NEW_REC.(start := start), now), auto, now));
    LoneIsOpped(auto, start, now, 1000, 299);
  }

  /**
   * The promise is kept for every channel exactly when the attempt is made at least ten seconds before the window ends.
   * After that the bar, truncated to an integer, may be below the floor: 164 of a top score of 547 is less than 30%.
   */
  lemma FloorLawExact(auto: bool, start: int, now: int)
    ensures (forall s | Selects(s) && s.Rec().start == start :: FloorLaw(s, auto, now)) <==>
            Elapsed(Stamped(NEW_REC.(start := start), now), auto, now) <= FLOOR_KEPT_FOR
  {
    var e := Elapsed(Stamped(NEW_REC.(start := start), now), auto, now);
    if e <= FLOOR_KEPT_FOR {
      forall s | Selects(s) && s.Rec().start == start
        ensures FloorLaw(s, auto, now)
      {
        EarlyKeepsFloor(s, auto, now);
      }
    } else {
      LateBelowFloor(auto, start, now);
      assert Lone(start, 547, 164).Rec().start == start;
    }
  }

  /**
   * Up to rounding it is kept for every channel exactly when the attempt is made inside the window. processQueue does
   * not check that first: a last attempt up to an interval later falls below even the rounded floor.
   */
  lemma RoundedFloorLawExact(auto: bool, start: int, now: int)
    ensures (forall s | Selects(s) && s.Rec().start == start :: RoundedFloorLaw(s, auto, now)) <==>
            Elapsed(Stamped(NEW_REC.(start := start), now), auto, now) <= AUTOFIX_MAXIMUM
  {
    var e := Elapsed(Stamped(NEW_REC.(start := start), now), auto, now);
    if e <= AUTOFIX_MAXIMUM {
      forall s | Selects(s) && s.Rec().start == start
        ensures RoundedFloorLaw(s, auto, now)
      {
        EarlyKeepsFloor(s, auto, now);
      }
    } else {
      LateBelowRoundedFloor(auto, start, now);
      assert Lone(start, 1000, 299).Rec().start == start;
    }
  }

  lemma FirstAttemptKeepsFloor(s: Slice, auto: bool, now: int, percent: int)
    requires Selects(s) && s.Rec().start == 0 && (percent == DOC_ABS_BEGIN || percent == ABS_BEGIN)
    requires FirstFloorSafe(TopScore(s), auto, percent)
    ensures FirstFloorLaw(s, auto, now, percent)
  {
    AttemptIsGreedy(s, auto, now);
    FirstFloorExact(TopScore(s), auto, percent);
  }

  lemma FirstAttemptBelowFloor(auto: bool, now: int, top: int, percent: int)
    requires top > MIN_FIXABLE && (percent == DOC_ABS_BEGIN || percent == ABS_BEGIN)
    requires !FirstFloorSafe(top, auto, percent)
    ensures var s := Lone(0, top, MinScore(top, if auto then 0 else -CHANFIX_DELAY));
            Selects(s) && TopScore(s) == top && !FirstFloorLaw(s, auto, now, percent)
  {
    FirstFloorExact(top, auto, percent);
    LoneIsOpped(auto, 0, now, top, MinScore(top, if auto then 0 else -CHANFIX_DELAY));
  }

  /**
   * What is promised of the first attempt is kept on all channels with a given top score exactly when that is high
   * enough and, for an automatic fix, divisible by ten (or when the channel is not fixed at all).
   */
  lemma FirstFloorLawExact(auto: bool, now: int, top: int, percent: int)
    requires percent == DOC_ABS_BEGIN || percent == ABS_BEGIN
    ensures (forall s | Selects(s) && s.Rec().start == 0 && TopScore(s) == top ::
               FirstFloorLaw(s, auto, now, percent)) <==>
            top <= MIN_FIXABLE || FirstFloorSafe(top, auto, percent)
  {
    if FirstFloorSafe(top, auto, percent) {
      forall s | Selects(s) && s.Rec().start == 0 && TopScore(s) == top
        ensures FirstFloorLaw(s, auto, now, percent)
      {
        FirstAttemptKeepsFloor(s, auto, now, percent);
      }
    } else if top > MIN_FIXABLE {
      FirstAttemptBelowFloor(auto, now, top, percent);
      assert Lone(0, top, MinScore(top, if auto then 0 else -CHANFIX_DELAY)).Rec().start == 0;
    }
  }

  /** The first attempt on a channel with a top score of 500 ops a client with 500 points, 12% of the maximum. */
  lemma FirstAttemptOpsTop(auto: bool, now: int)
    ensures Selects(Lone(0, 500, 500)) && Lone(0, 500, 500).Ops()[2].points == 500
    ensures Lone(0, 500, 500).net.value.users[0] in FixAttempt(Lone(0, 500, 500), auto, now).opped
    ensures 100 * 500 < ABS_BEGIN * MAX_SCORE < DOC_ABS_BEGIN * MAX_SCORE
  {
    LoneIsOpped(auto, 0, now, 500, 500);
  }

  /** An attempt at the very end of the window gives ops for 161 points, less than min_score. */
  lemma WindowEndBelowMinScore(start: int)
    requires start != 0
    ensures Selects(Lone(start, 500, 161))
            && Elapsed(Lone(start, 500, 161).Rec(), true, start + 3600) == AUTOFIX_MAXIMUM
    ensures Lone(start, 500, 161).net.value.users[0] in FixAttempt(Lone(start, 500, 161), true, start + 3600).opped
    ensures Lone(start, 500, 161).Ops()[2].points == 161 < DOC_MIN_SCORE
  {
    assert MinScore(500, 3600) == 161;
    LoneIsOpped(true, start, start + 3600, 500, 161);
  }

  /** The late channel in the automatic queue, last tried ten minutes before the end of its window. */
  function LateQueued(start: int): Slice {
    var s := Lone(start, 1000, 299);
    s.(auto := Some(start + 3600), rec := Some(s.Rec().(last := start + 3000)))
  }

  lemma WindowEndAttempt(start: nat)
    requires start > 0
    ensures var s, now := LateQueued(start), start + 3600;
            FixAttempt(s, true, now) == Attempt(s.(rec := Some(s.Rec().(last := now, maxScore := 1000))), false, [])
  {
    var s, now := LateQueued(start), start + 3600;
    LoneSelects(start, 1000, 299);
    CountOpsBound(s.net.value.users);
    AttemptIsGreedy(s, true, now);
    assert MinScore(1000, 3600) == 300;
    assert EligibleUsers(s.Ops(), s.net.value.users, 300) == {};
    SelectionOf(s, true, now);
  }

  lemma WindowEndOpsNobody(start: nat)
    requires start > 0
    ensures Pass(LateQueued(start), start + 3600) ==
            LateQueued(start).(auto := Some(start + 4200),
                               rec := Some(LateQueued(start).Rec().(last := start + 3600, maxScore := 1000)))
  {
    WindowEndAttempt(start);
    AutoPassKeepsManual(LateQueued(start), start + 3600);
  }

  /**
   * Two ordinary passes ten minutes apart: the first, at the very end of the window, finds nobody; the second tries
   * again before it looks at the window, and ops a client with less than 30% of the top score.
   */
  lemma LastAttemptIsLate(start: nat)
    requires start > 0
    ensures var s := Pass(Pass(LateQueued(start), start + 3600), start + 4200);
            && !LateQueued(start).net.value.users[0].opped
            && s.net.Some? && |s.net.value.users| == 1 && s.net.value.users[0].opped
            && !FloorKept(1000, LateQueued(start).Ops()[2].points)
  {
    WindowEndOpsNobody(start);
    var s, now := Pass(LateQueued(start), start + 3600), start + 4200;
    var u := s.net.value.users[0];
    LoneSelects(start, 1000, 299);
    TopIsMaximum(s.Ops());
    CountOpsBound(s.net.value.users);
    assert MinScore(1000, 4200) == 200;
    OnlyClientIsOpped(s, true, now, u);
    SelectionOf(s, true, now);
    PassOps(s, now, u);
  }

  /** A channel that left the network while queued, with the time of a fix long past; and back again, opless. */
  function GoneWhileQueued(t: int): Slice {
    Lone(t, 1000, 0).(auto := Some(t + 600), net := None)
  }

  function BackAgain(t: int): Slice {
    Lone(t, 1000, 0).(rec := Some(NEW_REC.(start := t, last := t + 600, maxScore := 0)))
  }

  lemma GoneLeavesStart(t: nat)
    requires t > 0
    ensures Pass(GoneWhileQueued(t), t + 600).(net := BackAgain(t).net) == BackAgain(t)
  {
  }

  lemma BackIsQueued(cfg: Settings, t: nat)
    requires cfg.minClients <= 1
    ensures Scan(cfg, BackAgain(t), t + 100000) ==
            BackAgain(t).(auto := Some(t + 100000), rec := Some(BackAgain(t).Rec().(maxScore := 1000)))
  {
    LoneSelects(t, 1000, 0);
    TopIsMaximum(BackAgain(t).Ops());
    CountOpsBound(BackAgain(t).net.value.users);
  }

  /**
   * A stale start removes the floor altogether: the channel is gone when its entry is processed, comes back without
   * ops, is queued by the next scan, and the first pass after it ops a client without a single point.
   */
  lemma StaleStartNoFloor(cfg: Settings, t: nat)
    requires t > 0 && cfg.minClients <= 1
    ensures var gone := Pass(GoneWhileQueued(t), t + 600);
            var s := Pass(Scan(cfg, gone.(net := BackAgain(t).net), t + 100000), t + 100000);
            && s.net.Some? && |s.net.value.users| == 1 && s.net.value.users[0].opped
            && s.net.value.users[0].account in s.Ops() && s.Ops()[s.net.value.users[0].account].points == 0
  {
    GoneLeavesStart(t);
    BackIsQueued(cfg, t);
    var s, now := Scan(cfg, BackAgain(t), t + 100000), t + 100000;
    var u := s.net.value.users[0];
    LoneSelects(t, 1000, 0);
    TopIsMaximum(s.Ops());
    CountOpsBound(s.net.value.users);
    assert MinScore(1000, 100000) <= 0;
    OnlyClientIsOpped(s, true, now, u);
    SelectionOf(s, true, now);
    PassOps(s, now, u);
    PassFrame(s, now);
  }

  lemma PassOps(s: Slice, now: nat, u: User)
    requires Selects(s) && s.auto.Some? && s.auto.value <= now && s.man.None?
    requires s.net.value.users == [u] && now - s.Rec().last >= AUTOFIX_INTERVAL && s.rec.Some?
    ensures u in FixAttempt(s, true, now).opped ==>
              Pass(s, now).net.Some? && |Pass(s, now).net.value.users| == 1 && Pass(s, now).net.value.users[0].opped
  {
    var a := FixAttempt(s, true, now);
    SelectionOf(s, true, now);
    if u in a.opped {
      var i :| 0 <= i < |a.opped| && a.opped[i] == u;
      assert u.id in Ids(a.opped);
    }
    assert TryFix(s, true, now) == a;
    assert Pass(s, now) == PassQueue(s, true, now) by {
      AutoPassKeepsManual(s, now);
    }
  }

  lemma AutoPassKeepsManual(s: Slice, now: nat)
    requires s.rec.Some? && s.man.None?
    ensures PassQueue(s, true, now).man.None?
  {
    TryFrame(s, true, now);
  }

  // ---- Eligibility during a fix ----

  /** All an event other than a rotation can do to a queued channel's table: add records without points. */
  ghost predicate OnlyAddsEmpty(ops: OpTable, ops': OpTable) {
    && (forall a | a in ops :: a in ops' && ops'[a].points == ops[a].points)
    && (forall a | a in ops' && a !in ops :: ops'[a].points == 0)
  }

  lemma AddsEmptyTrans(a: OpTable, b: OpTable, c: OpTable)
    requires OnlyAddsEmpty(a, b) && OnlyAddsEmpty(b, c)
    ensures OnlyAddsEmpty(a, c)
  {
  }

  lemma {:induction false} ModeOnlyAddsEmpty(cfg: Settings, st: Status, s: Slice, byUser: bool, targets: seq<Target>,
                                             now: int)
    ensures OnlyAddsEmpty(s.Ops(), ModeTargets(cfg, st, s, byUser, targets, now).Ops())
  {
    if targets != [] {
      var t := targets[|targets| - 1];
      var s1 := ModeTargets(cfg, st, s, byUser, targets[..|targets| - 1], now);
      ModeOnlyAddsEmpty(cfg, st, s, byUser, targets[..|targets| - 1], now);
      var got := GotOpped(cfg, st.chanServ, s1.Ops(), t.user, now);
      assert OnlyAddsEmpty(s1.Ops(), got);
      AddsEmptyTrans(s.Ops(), s1.Ops(), got);
      assert s1.WithOps(got).Ops() == got;
      assert StopFixing(cfg, s1.WithOps(got), false).Ops() == got;
    }
  }

  lemma QueuedScoresStay(cfg: Settings, st: Status, s: Slice, e: Event, now: nat)
    requires 0 < now && TimesOk(s, now) && s.BeingFixed() && !e.TimerRotate?
    ensures OnlyAddsEmpty(s.Ops(), Step(cfg, st, s, e, now).Ops())
  {
    if e.TimerQueue? {
      PassFrame(s, now);
    } else if e.OpMode? {
      ModeOnlyAddsEmpty(cfg, st, s, e.byUser, e.targets, now);
      ModeOnlyAddsEmpty(cfg, st, TempBlocked(s, now), e.byUser, e.targets, now);
    }
  }

  lemma QueuedScoresStayAt(h: seq<Sys>, tr: seq<Stamp>, t0: nat, k: nat)
    requires GoodRun(h, tr, t0) && k < |tr| && h[k].s.BeingFixed() && !tr[k].e.TimerRotate?
    ensures OnlyAddsEmpty(h[k].s.Ops(), h[k + 1].s.Ops())
  {
    RunSafety(h, tr, t0, k);
    assert Linked(h, tr, k);
    QueuedScoresStay(tr[k].cfg, h[k].st, h[k].s, tr[k].e, tr[k].now);
  }

  lemma {:induction false} ScoresStayWhileQueued(h: seq<Sys>, tr: seq<Stamp>, t0: nat, i: nat, k: nat, j: nat,
                                                 auto: bool)
    requires GoodRun(h, tr, t0) && QueuedThrough(h, i, j, auto) && i <= k <= j
    requires forall m | k <= m < j :: !tr[m].e.TimerRotate?
    ensures OnlyAddsEmpty(h[k].s.Ops(), h[j].s.Ops())
    decreases j
  {
    if k < j {
      ScoresStayWhileQueued(h, tr, t0, i, k, j - 1, auto);
      QueuedScoresStayAt(h, tr, t0, j - 1);
    }
  }

  lemma TopUnchanged(ops: OpTable, ops': OpTable)
    requires ops != map[] && OnlyAddsEmpty(ops, ops') && Top(ops) >= 0
    ensures ops' != map[] && Top(ops') == Top(ops)
  {
    TopIsMaximum(ops);
    var a :| a in ops && ops[a].points == Top(ops);
    assert a in ops';
    TopIsMaximum(ops');
    var b :| b in ops' && ops'[b].points == Top(ops');
  }

  /**
   * Eligibility only grows: whoever meets the bar at one moment of a fix, its first attempt included, meets it at every
   * later moment of the same fix, provided no rotation comes in between.
   */
  lemma EligibilityGrows(h: seq<Sys>, tr: seq<Stamp>, t0: nat, i: nat, k: nat, j: nat, auto: bool, a: Acct)
    requires GoodRun(h, tr, t0) && QueuedThrough(h, i, j, auto) && i <= k <= j < |tr|
    requires forall m | k <= m < j :: !tr[m].e.TimerRotate?
    requires a in h[k].s.Ops() && TopScore(h[k].s) >= 0
    ensures a in h[j].s.Ops()
    ensures h[k].s.Ops()[a].points >= Bar(h[k].s, auto, tr[k].now) ==>
            h[j].s.Ops()[a].points >= Bar(h[j].s, auto, tr[j].now)
  {
    ScoresStayWhileQueued(h, tr, t0, i, k, j, auto);
    TopUnchanged(h[k].s.Ops(), h[j].s.Ops());
    DueBounds(h, tr, t0, i, k, j, auto);
    RunSafety(h, tr, t0, j);
    var e0 := Elapsed(Stamped(h[k].s.Rec(), tr[k].now), auto, tr[k].now);
    var e1 := Elapsed(Stamped(h[j].s.Rec(), tr[j].now), auto, tr[j].now);
    assert e0 <= e1;
    MinScoreAntitone(TopScore(h[k].s), e0, e1);
  }

  // ---- The floor of a whole fix ----

  /** The start of a fix that was queued without one is not earlier than its insertion. */
  lemma {:induction false} StartsAfterInsertion(h: seq<Sys>, tr: seq<Stamp>, t0: nat, i: nat, j: nat, auto: bool)
    requires GoodRun(h, tr, t0) && QueuedThrough(h, i, j, auto) && h[i - 1].s.Rec().start == 0
    ensures h[j].s.Rec().start == 0 || h[j].s.Rec().start >= tr[i - 1].now
    decreases j
  {
    if i == j {
      InsertedAt(h, tr, t0, i, auto);
    } else {
      StartsAfterInsertion(h, tr, t0, i, j - 1, auto);
      StayQueuedAt(h, tr, t0, i, j - 1, auto);
    }
  }

  /** How long ago the start lies that a channel brings into its queue, if it brings one. */
  function AgeWhenQueued(s: Slice, inserted: int): int {
    if s.Rec().start == 0 then 0 else inserted - s.Rec().start
  }

  /**
   * Over every run with passes at most P seconds apart, a fix never ops anybody below the bar of its latest possible
   * attempt: one interval and P seconds after its window, or P seconds after its insertion if it was too old by then.
   */
  lemma RunFloor(h: seq<Sys>, tr: seq<Stamp>, t0: nat, i: nat, j: nat, auto: bool, P: nat)
    requires GoodRun(h, tr, t0) && QueuedThrough(h, i, j, auto) && PassesEvery(h, tr, i, j, P)
    ensures var age, latest := AgeWhenQueued(h[i - 1].s, tr[i - 1].now), AUTOFIX_MAXIMUM + Interval(auto);
            Selects(h[j].s) ==>
              forall u | u in FixAttempt(h[j].s, auto, tr[j].now).opped ::
                && u.account in h[j].s.Ops()
                && h[j].s.Ops()[u.account].points >=
                   MinScore(TopScore(h[j].s), (if age > latest then age else latest) + P)
  {
    var age, latest := AgeWhenQueued(h[i - 1].s, tr[i - 1].now), AUTOFIX_MAXIMUM + Interval(auto);
    var bound := (if age > latest then age else latest) + P;
    LatestAttempt(h, tr, t0, i, j, auto, P);
    if Selects(h[j].s) {
      AttemptIsGreedy(h[j].s, auto, tr[j].now);
      MinScoreAntitone(TopScore(h[j].s), Elapsed(Stamped(h[j].s.Rec(), tr[j].now), auto, tr[j].now), bound);
    }
  }

  lemma LatestAttempt(h: seq<Sys>, tr: seq<Stamp>, t0: nat, i: nat, j: nat, auto: bool, P: nat)
    requires GoodRun(h, tr, t0) && QueuedThrough(h, i, j, auto) && PassesEvery(h, tr, i, j, P)
    ensures var age, latest := AgeWhenQueued(h[i - 1].s, tr[i - 1].now), AUTOFIX_MAXIMUM + Interval(auto);
            Elapsed(Stamped(h[j].s.Rec(), tr[j].now), auto, tr[j].now) <= (if age > latest then age else latest) + P
  {
    FixesEnd(h, tr, t0, i, j, auto, P);
    if h[i - 1].s.Rec().start == 0 {
      StartsAfterInsertion(h, tr, t0, i, j, auto);
    } else {
      InsertedAt(h, tr, t0, i, auto);
      DueBounds(h, tr, t0, i, i, j, auto);
    }
  }
}
