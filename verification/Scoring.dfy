/** What one award round, one op change and one rotation do to a channel's score table. */
module Scoring {
  import opened Config
  import opened ChanOps
  import opened Ranking
  import opened Chooser
  import opened Slices
  import opened Runs

  /** The record an account has, or would start from. */
  function Base(ops: OpTable, a: Acct, now: int): OpRec {
    if a in ops then ops[a] else NewOp(now)
  }

  /** One point more today, and nothing else but the time and the mask. */
  ghost predicate OnePoint(r: OpRec, r': OpRec, today: Slot, now: int) {
    && r'.day == r.day[today := ToShort(r.day[today] + 1)]
    && r'.Totalled() && r'.first == r.first && r'.last == now
  }

  /** A round gives each account at most one point, to today's slot, and leaves every other account's record alone. */
  lemma {:induction false} AwardExact(cfg: Settings, serv: bool, ops: OpTable, users: seq<User>, today: Slot, now: int)
    ensures var t := AwardUsers(cfg, serv, ops, users, today, now);
            && t.awarded <= t.scored && t.awarded <= t.ops.Keys && NO_ACCOUNT !in t.scored
            && (forall a | a in t.awarded :: OnePoint(Base(ops, a, now), t.ops[a], today, now))
            && (forall a | a !in t.awarded :: (a in t.ops <==> a in ops) && (a in ops ==> t.ops[a] == ops[a]))
  {
    if users != [] {
      AwardExact(cfg, serv, ops, users[..|users| - 1], today, now);
      var t := AwardUsers(cfg, serv, ops, users[..|users| - 1], today, now);
      var u := users[|users| - 1];
      if u.opped && u.account != NO_ACCOUNT && u.account !in t.scored {
        GivePointsExact(cfg, serv, t.ops, u, today, now);
      }
    }
  }

  lemma GotOppedExact(cfg: Settings, serv: bool, ops: OpTable, u: User, now: int)
    requires u.account !in ops
    ensures var ops' := GotOpped(cfg, serv, ops, u, now);
            ops' == ops || (ops' == ops[u.account := NewOp(now).(seen := u.mask)] && |ops'| <= MAXOPCOUNT)
  {
  }

  lemma PointIsOnePoint(r: OpRec, today: Slot, now: int)
    ensures OnePoint(r, r.PlusPoint(today).(last := now), today, now)
  {
  }

  lemma GivePointsExact(cfg: Settings, serv: bool, ops: OpTable, u: User, today: Slot, now: int)
    ensures var (ops', given) := GivePoints(cfg, serv, ops, u, today, now);
            && (!given ==> ops' == ops)
            && (given ==> u.account in ops' && ops' == ops[u.account := ops'[u.account]]
                          && OnePoint(Base(ops, u.account, now), ops'[u.account], today, now))
            && (given <== u.account in ops && (cfg.clientNeedsIdent ==> u.ident))
            && |ops'| <= (if |ops| < MAXOPCOUNT then MAXOPCOUNT else |ops|)
  {
    var a := u.account;
    PointIsOnePoint(Base(ops, a, now), today, now);
    if a !in ops {
      PointIsOnePoint(NewOp(now).(seen := u.mask), today, now);
      GotOppedExact(cfg, serv, ops, u, now);
    }
  }

  /** Without the ident requirement every tracked account with an opped client gets its point. */
  lemma {:induction false} AwardReachesTracked(cfg: Settings, serv: bool, ops: OpTable, users: seq<User>, today: Slot,
                                               now: int, u: User)
    requires !cfg.clientNeedsIdent && u in users && u.opped && u.account != NO_ACCOUNT && u.account in ops
    ensures u.account in AwardUsers(cfg, serv, ops, users, today, now).awarded
  {
    var rest, v := users[..|users| - 1], users[|users| - 1];
    var t := AwardUsers(cfg, serv, ops, rest, today, now);
    AwardExact(cfg, serv, ops, rest, today, now);
    TrackedScored(cfg, serv, ops, rest, today, now, u.account);
    GivePointsExact(cfg, serv, t.ops, v, today, now);
    if u != v {
      assert u in rest;
      AwardReachesTracked(cfg, serv, ops, rest, today, now, u);
    }
  }

  /**
   * One round on one channel: without the ident requirement a tracked account gets exactly one point, today, iff the
   * channel is scorable and not being fixed and the account has an opped client there; else its record is untouched.
   */
  lemma RoundConserves(cfg: Settings, st: Status, s: Slice, now: int, a: Acct)
    requires !cfg.clientNeedsIdent && a in s.Ops() && a != NO_ACCOUNT
    ensures var s' := Award(cfg, st, s, now);
            && a in s'.Ops()
            && if Scorable(cfg, s) && exists u :: u in s.net.value.users && u.opped && u.account == a
               then OnePoint(s.Ops()[a], s'.Ops()[a], st.currentDay, now)
               else s'.Ops()[a] == s.Ops()[a]
  {
    if Scorable(cfg, s) {
      var users := s.net.value.users;
      AwardExact(cfg, st.chanServ, s.Ops(), users, st.currentDay, now);
      AwardNeedsOp(cfg, st.chanServ, s.Ops(), users, st.currentDay, now, a);
      if u :| u in users && u.opped && u.account == a {
        AwardReachesTracked(cfg, st.chanServ, s.Ops(), users, st.currentDay, now, u);
      }
    }
  }

  lemma {:induction false} AwardNeedsOp(cfg: Settings, serv: bool, ops: OpTable, users: seq<User>, today: Slot,
                                        now: int, a: Acct)
    ensures a in AwardUsers(cfg, serv, ops, users, today, now).awarded ==>
            exists u :: u in users && u.opped && u.account == a
  {
    if users != [] {
      var rest, v := users[..|users| - 1], users[|users| - 1];
      AwardNeedsOp(cfg, serv, ops, rest, today, now, a);
      assert users == rest + [v];
    }
  }

  /** For a tracked account, being looked at and getting the point are the same thing. */
  lemma {:induction false} TrackedScored(cfg: Settings, serv: bool, ops: OpTable, users: seq<User>, today: Slot,
                                         now: int, a: Acct)
    requires !cfg.clientNeedsIdent && a in ops
    ensures a in AwardUsers(cfg, serv, ops, users, today, now).scored ==>
            a in AwardUsers(cfg, serv, ops, users, today, now).awarded
  {
    if users != [] {
      var rest, v := users[..|users| - 1], users[|users| - 1];
      TrackedScored(cfg, serv, ops, rest, today, now, a);
      AwardExact(cfg, serv, ops, rest, today, now);
      GivePointsExact(cfg, serv, AwardUsers(cfg, serv, ops, rest, today, now).ops, v, today, now);
    }
  }

  /** No channel grows past 256 records. */
  lemma {:induction false} AwardRespectsCap(cfg: Settings, serv: bool, ops: OpTable, users: seq<User>, today: Slot,
                                            now: int)
    requires |ops| <= MAXOPCOUNT
    ensures |AwardUsers(cfg, serv, ops, users, today, now).ops| <= MAXOPCOUNT
  {
    if users != [] {
      var t := AwardUsers(cfg, serv, ops, users[..|users| - 1], today, now);
      AwardRespectsCap(cfg, serv, ops, users[..|users| - 1], today, now);
      GivePointsExact(cfg, serv, t.ops, users[|users| - 1], today, now);
    }
  }

  // ---- When a round does nothing ----

  /** An account that is tracked on the channel, or still can be. */
  predicate Trackable(cfg: Settings, serv: bool, ops: OpTable, u: User) {
    && (cfg.clientNeedsIdent ==> u.ident)
    && (u.account in ops || (|ops| < MAXOPCOUNT && (|ops| > 0 || serv)))
  }

  /** A round looks only at the first opped client of an account. */
  predicate FirstOp(users: seq<User>, i: nat)
    requires i < |users|
  {
    users[i].opped && users[i].account != NO_ACCOUNT &&
    forall j | 0 <= j < i :: users[j].opped ==> users[j].account != users[i].account
  }

  ghost predicate NobodyScores(cfg: Settings, serv: bool, ops: OpTable, users: seq<User>) {
    forall i | 0 <= i < |users| && FirstOp(users, i) :: !Trackable(cfg, serv, ops, users[i])
  }

  lemma {:induction false} ScoredExact(cfg: Settings, serv: bool, ops: OpTable, users: seq<User>, today: Slot,
                                       now: int, a: Acct)
    ensures a in AwardUsers(cfg, serv, ops, users, today, now).scored <==>
            a != NO_ACCOUNT && exists i :: 0 <= i < |users| && users[i].opped && users[i].account == a
  {
    if users != [] {
      var rest := users[..|users| - 1];
      ScoredExact(cfg, serv, ops, rest, today, now, a);
      assert forall i | 0 <= i < |rest| :: rest[i] == users[i];
    }
  }

  lemma GivenExact(cfg: Settings, serv: bool, ops: OpTable, u: User, today: Slot, now: int)
    ensures GivePoints(cfg, serv, ops, u, today, now).1 <==> Trackable(cfg, serv, ops, u)
  {
  }

  lemma NobodyScoresLast(cfg: Settings, serv: bool, ops: OpTable, users: seq<User>)
    requires users != []
    ensures var n := |users| - 1;
            NobodyScores(cfg, serv, ops, users) <==>
            NobodyScores(cfg, serv, ops, users[..n]) && !(FirstOp(users, n) && Trackable(cfg, serv, ops, users[n]))
  {
    var n := |users| - 1;
    var rest := users[..n];
    forall i | 0 <= i < n
      ensures FirstOp(users, i) == FirstOp(rest, i)
    {
      assert forall j | 0 <= j <= i :: rest[j] == users[j];
    }
    if !NobodyScores(cfg, serv, ops, rest) {
      var i :| 0 <= i < n && FirstOp(rest, i) && Trackable(cfg, serv, ops, rest[i]);
      assert FirstOp(users, i);
    }
  }

  lemma NothingAwarded(cfg: Settings, serv: bool, ops: OpTable, users: seq<User>, today: Slot, now: int)
    ensures var t := AwardUsers(cfg, serv, ops, users, today, now); t.awarded == {} <==> t.ops == ops
  {
    var t := AwardUsers(cfg, serv, ops, users, today, now);
    AwardExact(cfg, serv, ops, users, today, now);
    if a :| a in t.awarded {
      assert OnePoint(Base(ops, a, now), t.ops[a], today, now);
    } else {
      forall a: Acct
        ensures a in t.ops <==> a in ops
        ensures a in ops ==> t.ops[a] == ops[a]
      {
        assert a !in t.awarded;
      }
      assert t.ops == ops;
    }
  }

  lemma {:induction false} NobodyAwarded(cfg: Settings, serv: bool, ops: OpTable, users: seq<User>, today: Slot,
                                         now: int)
    ensures AwardUsers(cfg, serv, ops, users, today, now).awarded == {} <==> NobodyScores(cfg, serv, ops, users)
  {
    if users != [] {
      var n := |users| - 1;
      NobodyAwarded(cfg, serv, ops, users[..n], today, now);
      NobodyScoresLast(cfg, serv, ops, users);
      NothingAwarded(cfg, serv, ops, users[..n], today, now);
      ScoredExact(cfg, serv, ops, users[..n], today, now, users[n].account);
      GivenExact(cfg, serv, ops, users[n], today, now);
      FirstOpIsUnscored(users);
    }
  }

  lemma FirstOpIsUnscored(users: seq<User>)
    requires users != []
    ensures var n := |users| - 1;
            FirstOp(users, n) <==>
            && users[n].opped && users[n].account != NO_ACCOUNT
            && !exists i :: 0 <= i < n && users[..n][i].opped && users[..n][i].account == users[n].account
  {
    var n := |users| - 1;
    assert forall i | 0 <= i < n :: users[..n][i] == users[i];
  }

  /**
   * A round leaves a channel as it is exactly when the channel is not scorable or no opped account on it is, or can
   * become, tracked. Neither the state of the service nor the number of linked servers plays a part.
   */
  lemma RoundIdleExactly(cfg: Settings, st: Status, s: Slice, now: int)
    ensures Award(cfg, st, s, now) == s <==>
            !Scorable(cfg, s) || NobodyScores(cfg, st.chanServ, s.Ops(), s.net.value.users)
  {
    if Scorable(cfg, s) {
      NobodyAwarded(cfg, st.chanServ, s.Ops(), s.net.value.users, st.currentDay, now);
      NothingAwarded(cfg, st.chanServ, s.Ops(), s.net.value.users, st.currentDay, now);
    }
  }

  const SPLIT_STATUS := Status(SPLIT, 1, 100, 75, 0, true)
  const OPPED_CHANNEL := Slice(None, None, None, None, Some(Chan([User(7, 1, 0, false, true, true)], false)),
                               Some(map[1 := NewOp(5)]))

  /** A channel's only client, if it is opped and its account tracked, gets its point. */
  lemma OnlyClientScores(cfg: Settings, serv: bool, ops: OpTable, u: User, today: Slot, now: int)
    requires u.opped && u.account != NO_ACCOUNT && u.account in ops && (cfg.clientNeedsIdent ==> u.ident)
    ensures AwardUsers(cfg, serv, ops, [u], today, now).ops ==
            ops[u.account := ops[u.account].PlusPoint(today).(last := now)]
  {
    assert [u][..0] == [];
  }

  /** With one server of a hundred linked and the service in SPLIT, a tracked account still gets its point. */
  lemma SplitScoresAnyway(cfg: Settings, now: int)
    requires cfg.minClients <= 1
    ensures TooFew(SPLIT_STATUS) && SPLIT_STATUS.mode == SPLIT
    ensures 1 in OPPED_CHANNEL.Ops() && OPPED_CHANNEL.Ops()[1].points == 0
    ensures 1 in Award(cfg, SPLIT_STATUS, OPPED_CHANNEL, now).Ops()
    ensures Award(cfg, SPLIT_STATUS, OPPED_CHANNEL, now).Ops()[1].points == 1
  {
    var s := OPPED_CHANNEL;
    OnlyClientScores(cfg, true, s.Ops(), s.net.value.users[0], 0, now);
    SumZeros(NO_POINTS);
    SumUpdate(NO_POINTS, 0, 1);
    assert NewOp(5).PlusPoint(0).points == 1;
  }

  /** All that op changes do: refresh the time and mask of records, and start records without points. */
  ghost predicate Refreshed(ops: OpTable, ops': OpTable, now: int) {
    && (forall a | a in ops :: a in ops' && ops'[a].day == ops[a].day && ops'[a].points == ops[a].points
                               && ops'[a].first == ops[a].first && (ops'[a].last == ops[a].last || ops'[a].last == now))
    && (forall a | a in ops' && a !in ops :: a != NO_ACCOUNT && ops'[a].day == NO_POINTS && ops'[a].points == 0
                                             && ops'[a].first == now && ops'[a].last == now)
    && (|ops| <= MAXOPCOUNT ==> |ops'| <= MAXOPCOUNT)
  }

  lemma RefreshedTrans(a: OpTable, b: OpTable, c: OpTable, now: int)
    requires Refreshed(a, b, now) && Refreshed(b, c, now)
    ensures Refreshed(a, c, now)
  {
  }

  lemma GotOppedRefreshes(cfg: Settings, serv: bool, ops: OpTable, u: User, now: int)
    requires u.account != NO_ACCOUNT
    ensures Refreshed(ops, GotOpped(cfg, serv, ops, u, now), now)
  {
  }

  lemma {:induction false} ModeRefreshes(cfg: Settings, st: Status, s: Slice, byUser: bool, targets: seq<Target>,
                                         now: int)
    ensures Refreshed(s.Ops(), ModeTargets(cfg, st, s, byUser, targets, now).Ops(), now)
  {
    if targets != [] {
      var t := targets[|targets| - 1];
      var s1 := ModeTargets(cfg, st, s, byUser, targets[..|targets| - 1], now);
      ModeRefreshes(cfg, st, s, byUser, targets[..|targets| - 1], now);
      if t.user.account != NO_ACCOUNT {
        GotOppedRefreshes(cfg, st.chanServ, s1.Ops(), t.user, now);
        var got := GotOpped(cfg, st.chanServ, s1.Ops(), t.user, now);
        RefreshedTrans(s.Ops(), s1.Ops(), got, now);
        assert s1.WithOps(got).Ops() == got;
        assert StopFixing(cfg, s1.WithOps(got), false).Ops() == got;
      }
    }
  }

  /** Only award rounds and rotations change anybody's points. */
  lemma OtherEventsRefresh(cfg: Settings, st: Status, s: Slice, e: Event, now: nat)
    requires !e.TimerPoints? && !e.TimerRotate?
    ensures Refreshed(s.Ops(), Step(cfg, st, s, e, now).Ops(), now)
  {
    if e.Command() {
      CommandKeepsTable(cfg, st, s, e, now);
    } else if e.OpMode? {
      ModeRefreshes(cfg, st, s, e.byUser, e.targets, now);
      ModeRefreshes(cfg, st, TempBlocked(s, now), e.byUser, e.targets, now);
    } else if e.TimerQueue? {
      PassKeepsTable(s, now);
    }
  }

  lemma CommandKeepsTable(cfg: Settings, st: Status, s: Slice, e: Event, now: nat)
    requires e.Command()
    ensures Step(cfg, st, s, e, now).table == s.table
  {
  }

  lemma EntryKeepsTable(s: Slice, auto: bool, now: int)
    ensures ProcessEntry(s, auto, now).table == s.table
  {
    TryFrame(s.(rec := Some(s.Rec())), auto, now);
  }

  lemma PassKeepsTable(s: Slice, now: int)
    ensures Pass(s, now).table == s.table
  {
    EntryKeepsTable(s, true, now);
    EntryKeepsTable(PassQueue(s, true, now), false, now);
  }
}
