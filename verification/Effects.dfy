/** What each operation does to a channel: conditions on the state before it, and the facts of the state after it. */
module Effects {
  import opened Config
  import opened ChanOps
  import opened Ranking
  import opened Chooser
  import opened Threshold
  import opened Slices
  import opened Runs
  import opened Scoring
  import opened Fixes
  import TopOps

  // ---- Users and scores ----

  ghost predicate NoService(users: seq<User>) {
    forall u | u in users :: !u.service
  }

  lemma NoServiceExact(users: seq<User>)
    ensures NoService(users) <==> !HasService(users)
  {
    if i :| 0 <= i < |users| && users[i].service {
      assert users[i] in users;
    }
  }

  ghost predicate Opless(users: seq<User>) {
    forall u | u in users :: !u.opped
  }

  lemma OplessExact(users: seq<User>)
    ensures Opless(users) <==> CountOps(users) == 0
  {
    CountOpsBound(users);
    if i :| 0 <= i < |users| && users[i].opped {
      assert users[i] in users;
    }
  }

  /** Somebody has more than 4% of the maximum score. */
  ghost predicate Scored(ops: OpTable) {
    exists a :: a in ops && ops[a].points > 161
  }

  lemma ScoredExact(ops: OpTable)
    ensures MyOps(ops) != [] <==> ops != map[]
    ensures Scored(ops) <==> MyOps(ops) != [] && MyOps(ops)[0].points > MIN_FIXABLE
  {
    if ops != map[] {
      TopIsMaximum(ops);
    }
  }

  // ---- An attempt ----

  /** An attempt notes its time, and the time of the first one as the start of the fix. */
  lemma AttemptStamps(s: Slice, auto: bool, now: int)
    ensures var r := FixAttempt(s, auto, now).s.Rec();
            && r.last == now && r.start == (if s.Rec().start == 0 then now else s.Rec().start)
            && r.blocked == s.Rec().blocked && r.alert == s.Rec().alert && r.inSQL == s.Rec().inSQL
  {
  }

  /** On an existing channel it also notes the top score. */
  lemma AttemptNotesTop(s: Slice, auto: bool, now: int)
    requires s.net.Some?
    ensures FixAttempt(s, auto, now).s.Rec().maxScore == TopScore(s)
  {
    if s.Ops() != map[] {
      TopIsMaximum(s.Ops());
    }
  }

  /** Without a channel, a high enough score, or a lack of ops, an attempt ops nobody and leaves the network alone. */
  lemma AttemptIdle(s: Slice, auto: bool, now: int)
    requires s.net.Some? ==> DistinctUsers(s.net.value.users)
    requires !Selects(s)
    ensures FixAttempt(s, auto, now).opped == [] && FixAttempt(s, auto, now).s.net == s.net
  {
    if s.Ops() != map[] {
      TopIsMaximum(s.Ops());
    }
  }

  /** Exactly the chosen clients become ops; nothing else about anybody on the channel changes. */
  lemma AttemptOpsExactly(s: Slice, auto: bool, now: int, i: nat)
    requires Selects(s) && i < |s.net.value.users|
    ensures var a := FixAttempt(s, auto, now); var u := s.net.value.users[i];
            && a.s.net.Some? && |a.s.net.value.users| == |s.net.value.users|
            && a.s.net.value.users[i] == u.(opped := u.opped || u in a.opped)
  {
    var opped, users := FixAttempt(s, auto, now).opped, s.net.value.users;
    SelectionOf(s, auto, now);
    AttemptIsGreedy(s, auto, now);
    if opped != [] && users[i].id in Ids(opped) {
      var k :| 0 <= k < |opped| && opped[k].id == users[i].id;
      assert opped[k] in opped && opped[k] in users;
      var m :| 0 <= m < |users| && users[m] == opped[k];
      assert m == i;
    }
    if users[i] in opped {
      var k :| 0 <= k < |opped| && opped[k] == users[i];
      assert users[i].id in Ids(opped);
    }
  }

  /**
   * An attempt lifts the modes of a channel exactly if it is automatic, finds nobody to op where nobody has ops, the
   * channel is restricted, and this was not done before.
   */
  lemma AttemptLiftsModes(s: Slice, auto: bool, now: int)
    requires Selects(s)
    ensures var lifts := && auto && CountOps(s.net.value.users) == 0 && s.net.value.restricted && !s.Rec().modesRemoved
                         && EligibleUsers(s.Ops(), s.net.value.users, Bar(s, auto, now)) == {};
            var a := FixAttempt(s, auto, now);
            && a.s.net.Some? && a.s.net.value.restricted == (s.net.value.restricted && !lifts)
            && a.s.Rec().modesRemoved == (s.Rec().modesRemoved || lifts)
  {
    ReachesSelection(s, auto, now);
    SelectionOf(s, auto, now);
    AttemptIsGreedy(s, auto, now);
  }

  // ---- The queues ----

  /** An entry that has come due is tried if the last attempt is ten (manual: five) minutes ago. */
  predicate Tried(s: Slice, auto: bool, now: int) {
    now - s.Rec().last >= if auto then 600 else 300
  }

  /** The start of the fix after that. */
  function StartAfter(s: Slice, auto: bool, now: int): int {
    if Tried(s, auto, now) && s.Rec().start == 0 then now else s.Rec().start
  }

  /** The entry is done with: the fix is complete, or its hour (manual: and half a minute) is over. */
  ghost predicate Done(s: Slice, auto: bool, now: int) {
    || (Tried(s, auto, now) && Succeeds(s, auto, now))
    || now - StartAfter(s, auto, now) > (if auto then 3600 else 3630)
  }

  /**
   * A due entry leaves its queue exactly if it is done with; otherwise it is due ten (manual: five) minutes later. The
   * times of a fix that ends are reset if the channel exists.
   */
  lemma EntryExact(s: Slice, auto: bool, now: int)
    requires 0 < now && TimesOk(s, now) && Due(s, auto).Some? && Due(s, auto).value <= now
    requires s.net.Some? ==> DistinctUsers(s.net.value.users)
    ensures var s' := PassQueue(s, auto, now);
            && Due(s', auto) == (if Done(s, auto, now) then None else Some(now + if auto then 600 else 300))
            && Due(s', !auto) == Due(s, !auto)
            && s'.Rec().start == (if Done(s, auto, now) && s.net.Some? then 0 else StartAfter(s, auto, now))
            && s'.Rec().last == (if Done(s, auto, now) && s.net.Some? then 0
                                 else if Tried(s, auto, now) then now else s.Rec().last)
  {
    var s1 := s.(rec := Some(s.Rec()));
    TryFrame(s1, auto, now);
    FixedExactly(s1, auto, now);
    assert Succeeds(s1, auto, now) == Succeeds(s, auto, now);
    assert TryFix(s1, auto, now).fixed <==> Tried(s, auto, now) && Succeeds(s, auto, now);
    assert PassQueue(s, auto, now) == Settle(TryFix(s1, auto, now), auto, now);
  }

  /** What a pass does to the channel itself: an attempt if the entry is due and tried, and nothing otherwise. */
  lemma EntryTries(s: Slice, auto: bool, now: int)
    ensures PassQueue(s, auto, now).net ==
            if Due(s, auto).Some? && Due(s, auto).value <= now && Tried(s, auto, now)
            then FixAttempt(s, auto, now).s.net else s.net
    ensures Due(s, auto).None? || Due(s, auto).value > now ==> PassQueue(s, auto, now) == s
  {
  }

  /** autoFix queues a channel, to be tried at once, exactly if it is one that has lost its ops and may be fixed. */
  lemma ScanExact(cfg: Settings, s: Slice, now: int)
    ensures var s' := Scan(cfg, s, now);
            var lost := && s.net.Some? && |s.net.value.users| >= cfg.minClients
                        && NoService(s.net.value.users) && Opless(s.net.value.users)
                        && s.auto.None? && s.man.None? && s.temp.None? && Scored(s.Ops()) && !s.Rec().blocked;
            && s'.auto == (if lost then Some(now) else s.auto)
            && s'.(auto := s.auto, rec := s.rec) == s
            && (s'.Rec() == s.Rec() || (s.Ops() != map[] && s'.Rec() == s.Rec().(maxScore := Top(s.Ops()))))
            && (s'.auto != s.auto ==> s'.rec == Some(s.Rec().(maxScore := Top(s.Ops()))))
  {
    ScoredExact(s.Ops());
    if s.net.Some? {
      NoServiceExact(s.net.value.users);
      OplessExact(s.net.value.users);
    }
  }

  /** Both timers only act in RUN, and the scan only where it is enabled. */
  lemma TimersExact(cfg: Settings, st: Status, s: Slice, now: nat)
    ensures Step(cfg, st, s, TimerQueue, now) ==
            if st.mode == RUN then PassQueue(PassQueue(s, true, now), false, now) else s
    ensures Step(cfg, st, s, TimerAutoFix, now) ==
            if st.mode == RUN && cfg.enableAutoFix then Scan(cfg, s, now) else s
  {
  }

  // ---- Orders ----

  /** A channel that orders look at: in RUN, on the network without a service, with records, and in no manual fix. */
  ghost predicate Examined(st: Status, s: Slice) {
    st.mode == RUN && s.net.Some? && NoService(s.net.value.users) && s.man.None? && s.Ops() != map[]
  }

  /** A channel that may be ordered to be fixed, so far as the commands agree. */
  ghost predicate MayBeFixed(cfg: Settings, st: Status, s: Slice) {
    cfg.enableChanFix && Examined(st, s) && Scored(s.Ops())
  }

  /** The record after an order: with the top score if the channel was examined, and saved if the order was accepted. */
  ghost function Reviewed(s: Slice, examined: bool, accepted: bool, sqlOk: bool): FixRec {
    s.Rec().(maxScore := if examined && s.Ops() != map[] then Top(s.Ops()) else s.Rec().maxScore,
             inSQL := s.Rec().inSQL || (accepted && sqlOk))
  }

  /** A manual fix has begun: everybody is deopped, the modes are lifted, the first attempt is due in half a minute. */
  ghost predicate FixOrdered(s: Slice, s': Slice, now: int) {
    && s'.man == Some(now + 30) && s'.auto.None? && s'.temp == s.temp && s'.table == s.table
    && s.net.Some? && s'.net.Some? && !s'.net.value.restricted
    && |s'.net.value.users| == |s.net.value.users|
    && forall i | 0 <= i < |s.net.value.users| :: s'.net.value.users[i] == s.net.value.users[i].(opped := false)
  }

  lemma ExaminedExact(st: Status, s: Slice)
    ensures Fixable(st, s) <==> Examined(st, s)
    ensures s.Ops() != map[] ==> MyOps(s.Ops())[0].points == Top(s.Ops())
  {
    ScoredExact(s.Ops());
    if s.net.Some? {
      NoServiceExact(s.net.value.users);
    }
    if s.Ops() != map[] {
      TopIsMaximum(s.Ops());
    }
  }

  lemma OrderableExact(cfg: Settings, st: Status, s: Slice)
    ensures Orderable(cfg, st, s) <==> cfg.enableChanFix && Examined(st, s)
    ensures Orderable(cfg, st, s) && MyOps(s.Ops())[0].points > MIN_FIXABLE <==> MayBeFixed(cfg, st, s)
    ensures s.Ops() != map[] ==> MyOps(s.Ops())[0].points == Top(s.Ops())
  {
    ExaminedExact(st, s);
    ScoredExact(s.Ops());
  }

  /**
   * CHANFIX begins a fix exactly if the channel may be fixed, is not blocked, and is not in an automatic fix, under a
   * temporary block or marked by an alert; of the last three OVERRIDE makes light. Otherwise nobody on the channel
   * notices; an automatic fix that was to be overridden ends all the same.
   */
  lemma ChanfixExact(cfg: Settings, st: Status, s: Slice, override: bool, sqlOk: bool, now: int)
    ensures var s' := ChanfixCommand(cfg, st, s, override, sqlOk, now);
            var free := s.auto.None? && s.temp.None? && !s.Rec().alert;
            var accepted := MayBeFixed(cfg, st, s) && !s.Rec().blocked && (override || free);
            && s'.Rec() == Reviewed(s, cfg.enableChanFix && Examined(st, s), accepted, sqlOk)
            && if accepted then FixOrdered(s, s', now)
               else
                 && s'.man == s.man && s'.net == s.net && s'.temp == s.temp && s'.table == s.table
                 && s'.auto == if MayBeFixed(cfg, st, s) && override then None else s.auto
  {
    OrderableExact(cfg, st, s);
  }

  /**
   * REQUESTOP begins one exactly if the asker has a high score, the last one is long enough ago, and the channel may be
   * fixed and is neither blocked, nor in a fix, nor under a temporary block, nor marked by an alert.
   */
  lemma RequestOpExact(cfg: Settings, st: Status, s: Slice, asker: Acct, lastFix: int, nan: int, sqlOk: bool, now: int)
    requires TopOps.MaxScore(MyOps(s.Ops())) >= 0
    ensures var s' := RequestOpCommand(cfg, st, s, asker, lastFix, nan, sqlOk, now);
            var free := s.auto.None? && s.temp.None? && !s.Rec().alert && !s.Rec().blocked;
            var examined := && cfg.enableChanFix && Examined(st, s)
                            && TopOps.IsHighScore(MyOps(s.Ops()), asker, nan, cfg)
                            && ToUnsigned(now - lastFix) >= cfg.minRequestOpTime;
            var accepted := examined && Scored(s.Ops()) && free;
            && s'.Rec() == Reviewed(s, examined, accepted, sqlOk)
            && if accepted then FixOrdered(s, s', now) else s'.(rec := s.rec) == s
  {
    OrderableExact(cfg, st, s);
  }

  /** SIMULATE only reviews the record; it accepts channels with a score that are not blocked in either way. */
  lemma SimulateExact(st: Status, s: Slice, sqlOk: bool)
    ensures var s' := SimulateCommand(st, s, sqlOk);
            && s'.Rec() == Reviewed(s, Examined(st, s), Simulated(st, s), sqlOk)
            && s'.(rec := s.rec) == s
    ensures Simulated(st, s) <==> Examined(st, s) && Scored(s.Ops()) && !s.Rec().blocked && s.temp.None?
  {
    ExaminedExact(st, s);
    ScoredExact(s.Ops());
  }

  /** No order touches the attempt times: the first attempt of the fix sets them. */
  lemma OrdersKeepTimes(cfg: Settings, st: Status, s: Slice, e: Event, now: nat)
    requires e.CommandChanfix? || e.CommandRequestOp?
    ensures SameTimes(s, Step(cfg, st, s, e, now))
  {
    if e.CommandChanfix? && Orderable(cfg, st, s) {
      FixOrderTimes(s.(rec := Some(WithTop(s.Rec(), MyOps(s.Ops())))), e.override, e.sqlOk, now);
    } else if e.CommandRequestOp? {
      FixOrderTimes(s.(rec := Some(WithTop(s.Rec(), MyOps(s.Ops())))), false, e.sqlOk, now);
    }
  }

  /** Commands are refused during a burst, and BLOCK aborts fixes of channels on the network for good. */
  lemma BlockEnds(cfg: Settings, st: Status, s: Slice, sqlOk: bool, now: nat)
    ensures var s' := Step(cfg, st, s, CommandBlock(sqlOk), now);
            if st.mode == BURST || !cfg.enableBlocking || s.Rec().blocked || s.net.None? || !s.BeingFixed()
            then && s'.(rec := s.rec) == s && SameTimes(s, s')
                 && s'.Rec().inSQL == (s.Rec().inSQL || (sqlOk && Blocks(cfg, st, s, CommandBlock(sqlOk))))
            else && s'.auto.None? && s'.man.None? && s'.Rec().start == 0 && s'.Rec().last == 0
                 && s'.net == s.net && s'.temp == s.temp && s'.table == s.table
                 && s'.Rec().inSQL == (s.Rec().inSQL || sqlOk)
  {
  }

  /** ADDNOTE only saves the record, a change of the roster is only that, and events of the service touch no channel. */
  lemma OtherEventsExact(cfg: Settings, st: Status, s: Slice, e: Event, now: nat)
    requires e.CommandNote? || e.Roster? || e.OfService()
    ensures var s' := Step(cfg, st, s, e, now);
            && s'.(rec := s.rec, net := s.net) == s
            && s'.net == (if e.Roster? then e.net else s.net)
            && s'.Rec() == s.Rec().(inSQL := s.Rec().inSQL || (e.CommandNote? && e.sqlOk && st.mode != BURST))
  {
  }

  // ---- Ops seen on the network ----

  /** A client whose op counts: logged in, and with ident where that is needed. */
  predicate Counts(cfg: Settings, u: User) {
    u.account != NO_ACCOUNT && (cfg.clientNeedsIdent ==> u.ident)
  }

  /** One op of an account: its record is refreshed, or a new one begun while there is room, and no other is touched. */
  lemma TrackingExact(cfg: Settings, serv: bool, ops: OpTable, u: User, now: int)
    ensures var ops' := GotOpped(cfg, serv, ops, u, now); var ok := cfg.clientNeedsIdent ==> u.ident;
            && (forall a | a != u.account :: (a in ops' <==> a in ops) && (a in ops ==> ops'[a] == ops[a]))
            && (u.account in ops' <==> u.account in ops || (ok && |ops| < 256 && (ops != map[] || serv)))
            && (u.account in ops' ==>
                  ops'[u.account] == if u.account in ops && !ok then ops[u.account]
                                     else if u.account in ops then ops[u.account].(last := now, seen := u.mask)
                                     else OpRec(u.mask, now, now, NO_POINTS, 0))
  {
    assert |ops| == 0 <==> ops == map[];
  }

  ghost predicate OpsAccount(cfg: Settings, targets: seq<Target>, a: Acct) {
    exists i :: 0 <= i < |targets| && targets[i].opped && targets[i].user.account == a && Counts(cfg, targets[i].user)
  }

  ghost predicate OpsSomebody(targets: seq<Target>) {
    exists i :: 0 <= i < |targets| && targets[i].opped && targets[i].user.account != NO_ACCOUNT
  }

  lemma TargetsLast(cfg: Settings, targets: seq<Target>, a: Acct)
    requires targets != []
    ensures var n := |targets| - 1; var t := targets[n];
            && (OpsSomebody(targets) <==> OpsSomebody(targets[..n]) || (t.opped && t.user.account != NO_ACCOUNT))
            && (OpsAccount(cfg, targets, a) <==>
                  OpsAccount(cfg, targets[..n], a) || (t.opped && t.user.account == a && Counts(cfg, t.user)))
  {
    assert forall i | 0 <= i < |targets| - 1 :: targets[..|targets| - 1][i] == targets[i];
  }

  /** The queues and times after an op by a user stopped the fixes that the settings let it stop. */
  ghost predicate Stopped(cfg: Settings, s: Slice, s': Slice, stops: bool) {
    var auto, man := stops && cfg.stopAutoFixOnOp && s.auto.Some?, stops && cfg.stopChanFixOnOp && s.man.Some?;
    && s'.auto == (if auto then None else s.auto) && s'.man == (if man then None else s.man)
    && s'.Rec() == (if auto || man then s.Rec().(start := 0, last := 0) else s.Rec())
  }

  lemma StopOnce(cfg: Settings, s: Slice)
    ensures Stopped(cfg, s, StopFixing(cfg, s, false), true)
    ensures StopFixing(cfg, s, false).(auto := s.auto, man := s.man, rec := s.rec) == s
  {
  }

  lemma StopAgain(cfg: Settings, s: Slice, s1: Slice, s2: Slice, first: bool, second: bool)
    requires Stopped(cfg, s, s1, first) && Stopped(cfg, s1, s2, second)
    ensures Stopped(cfg, s, s2, first || second)
  {
  }

  lemma {:induction false} TargetsStop(cfg: Settings, st: Status, s: Slice, byUser: bool, targets: seq<Target>,
                                       now: int)
    ensures Stopped(cfg, s, ModeTargets(cfg, st, s, byUser, targets, now), byUser && OpsSomebody(targets))
  {
    if targets != [] {
      var n := |targets| - 1;
      var t := targets[n];
      var s1 := ModeTargets(cfg, st, s, byUser, targets[..n], now);
      TargetsStop(cfg, st, s, byUser, targets[..n], now);
      TargetsLast(cfg, targets, 0);
      if t.user.account != NO_ACCOUNT && t.opped {
        var s2 := s1.WithOps(GotOpped(cfg, st.chanServ, s1.Ops(), t.user, now));
        StopOnce(cfg, s2);
        if byUser {
          StopAgain(cfg, s, s2, StopFixing(cfg, s2, false), byUser && OpsSomebody(targets[..n]), true);
        }
      }
    }
  }

  /** Mode changes are looked at on large enough channels without a service. */
  ghost predicate Watched(cfg: Settings, s: Slice) {
    s.net.Some? && |s.net.value.users| >= cfg.minClients && NoService(s.net.value.users)
  }

  /**
   * A mode change stops a fix exactly if a user gave ops to somebody logged in, on a watched channel, and the setting
   * for that kind of fix says so. A user of a service server also causes a temporary block, wherever there is none.
   */
  lemma OpModeExact(cfg: Settings, st: Status, s: Slice, byUser: bool, byService: bool, targets: seq<Target>, now: int)
    ensures var s' := ModeO(cfg, st, s, byUser, byService, targets, now);
            && Stopped(cfg, s, s', Watched(cfg, s) && byUser && OpsSomebody(targets))
            && s'.net == s.net
            && s'.temp == (if s.net.Some? && byUser && byService && s.temp.None? then Some(now) else s.temp)
  {
    if s.net.Some? {
      NoServiceExact(s.net.value.users);
      var s1 := if byUser && byService then TempBlocked(s, now) else s;
      TargetsStop(cfg, st, s1, byUser, targets, now);
      ModeFrame(cfg, st, s1, byUser, targets, now);
    }
  }

  /** A service's server mode places a temporary block, where there is none, on large enough channels, in RUN. */
  lemma ServiceModeExact(cfg: Settings, st: Status, s: Slice, now: int)
    ensures var places := st.mode == RUN && s.net.Some? && |s.net.value.users| >= cfg.minClients && s.temp.None?;
            ServerMode(cfg, st, s, now) == if places then s.(temp := Some(now)) else s
  {
  }

  /** The record of a tracked account after a mode change: refreshed exactly if somebody of it was given ops. */
  lemma {:induction false} TargetsTrack(cfg: Settings, st: Status, s: Slice, byUser: bool, targets: seq<Target>,
                                        now: int, a: Acct)
    requires a in s.Ops()
    ensures var ops' := ModeTargets(cfg, st, s, byUser, targets, now).Ops();
            && a in ops'
            && ops'[a].(last := s.Ops()[a].last, seen := s.Ops()[a].seen) == s.Ops()[a]
            && ops'[a].last == (if OpsAccount(cfg, targets, a) then now else s.Ops()[a].last)
            && (!OpsAccount(cfg, targets, a) ==> ops'[a] == s.Ops()[a])
  {
    if targets != [] {
      var n := |targets| - 1;
      var t := targets[n];
      var s1 := ModeTargets(cfg, st, s, byUser, targets[..n], now);
      TargetsTrack(cfg, st, s, byUser, targets[..n], now, a);
      TargetsLast(cfg, targets, a);
      if t.user.account != NO_ACCOUNT && t.opped {
        var got := GotOpped(cfg, st.chanServ, s1.Ops(), t.user, now);
        TrackingExact(cfg, st.chanServ, s1.Ops(), t.user, now);
        assert s1.WithOps(got).Ops() == got;
        StopOnce(cfg, s1.WithOps(got));
        assert ModeTargets(cfg, st, s, byUser, targets, now).Ops() == got;
      } else {
        assert ModeTargets(cfg, st, s, byUser, targets, now) == s1;
      }
    }
  }

  // ---- Award rounds ----

  /** A channel that is scored: large enough, without a service, and in no fix. */
  ghost predicate IsScored(cfg: Settings, s: Slice) {
    Watched(cfg, s) && s.auto.None? && s.man.None?
  }

  lemma IsScoredExact(cfg: Settings, s: Slice)
    ensures IsScored(cfg, s) <==> Scorable(cfg, s)
  {
    if s.net.Some? {
      NoServiceExact(s.net.value.users);
    }
  }

  /** The first opped client of the account counts. */
  ghost predicate FirstCounts(cfg: Settings, users: seq<User>, a: Acct) {
    exists i :: 0 <= i < |users| && FirstOp(users, i) && users[i].account == a && Counts(cfg, users[i])
  }

  lemma FirstCountsLast(cfg: Settings, users: seq<User>, a: Acct)
    requires users != []
    ensures var n := |users| - 1;
            FirstCounts(cfg, users, a) <==>
            FirstCounts(cfg, users[..n], a) || (FirstOp(users, n) && users[n].account == a && Counts(cfg, users[n]))
  {
    var n := |users| - 1;
    var rest := users[..n];
    forall i | 0 <= i < n
      ensures FirstOp(users, i) == FirstOp(rest, i) && users[i] == rest[i]
    {
      assert forall j | 0 <= j <= i :: rest[j] == users[j];
    }
    if FirstCounts(cfg, rest, a) {
      var i :| 0 <= i < |rest| && FirstOp(rest, i) && rest[i].account == a && Counts(cfg, rest[i]);
      assert FirstOp(users, i) && users[i].account == a;
    }
  }

  /** A tracked account, or one for which there is room anyway, is awarded exactly if its first opped client counts. */
  lemma {:induction false} AwardedExact(cfg: Settings, serv: bool, ops: OpTable, users: seq<User>, today: Slot,
                                        now: int, a: Acct)
    requires a in ops || ((serv || ops != map[]) && |ops| + |users| <= 256)
    ensures a in AwardUsers(cfg, serv, ops, users, today, now).awarded <==> FirstCounts(cfg, users, a)
  {
    if users != [] {
      var n := |users| - 1;
      var rest, u := users[..n], users[n];
      var t := AwardUsers(cfg, serv, ops, rest, today, now);
      AwardedExact(cfg, serv, ops, rest, today, now, a);
      FirstCountsLast(cfg, users, a);
      FirstOpIsUnscored(users);
      Scoring.ScoredExact(cfg, serv, ops, rest, today, now, u.account);
      GivenExact(cfg, serv, t.ops, u, today, now);
      AwardExact(cfg, serv, ops, rest, today, now);
      TableGrows(cfg, serv, ops, rest, today, now);
    }
  }

  lemma {:induction false} TableGrows(cfg: Settings, serv: bool, ops: OpTable, users: seq<User>, today: Slot, now: int)
    ensures var ops' := AwardUsers(cfg, serv, ops, users, today, now).ops;
            && |ops'| <= |ops| + |users| && (ops != map[] ==> ops' != map[])
  {
    if users != [] {
      var n := |users| - 1;
      var t := AwardUsers(cfg, serv, ops, users[..n], today, now);
      TableGrows(cfg, serv, ops, users[..n], today, now);
      GivePointsExact(cfg, serv, t.ops, users[n], today, now);
      var ops' := GivePoints(cfg, serv, t.ops, users[n], today, now).0;
      if ops' != t.ops {
        assert ops'.Keys == t.ops.Keys + {users[n].account};
      }
    }
  }

  /**
   * One round on one channel: where it is scored, an account with room for its record gets one point today exactly if
   * its first opped client counts; everywhere else nothing changes.
   */
  lemma RoundExact(cfg: Settings, st: Status, s: Slice, now: int, a: Acct)
    requires s.net.Some? ==>
               a in s.Ops() || ((st.chanServ || s.Ops() != map[]) && |s.Ops()| + |s.net.value.users| <= 256)
    ensures var s' := Award(cfg, st, s, now);
            if IsScored(cfg, s) && FirstCounts(cfg, s.net.value.users, a)
            then a in s'.Ops() && OnePoint(Base(s.Ops(), a, now), s'.Ops()[a], st.currentDay, now)
            else (a in s'.Ops() <==> a in s.Ops()) && (a in s.Ops() ==> s'.Ops()[a] == s.Ops()[a])
  {
    IsScoredExact(cfg, s);
    if Scorable(cfg, s) {
      var users := s.net.value.users;
      AwardedExact(cfg, st.chanServ, s.Ops(), users, st.currentDay, now, a);
      AwardExact(cfg, st.chanServ, s.Ops(), users, st.currentDay, now);
      assert Award(cfg, st, s, now).Ops() == AwardUsers(cfg, st.chanServ, s.Ops(), users, st.currentDay, now).ops;
    }
  }

  // ---- Rotation ----

  /**
   * A rotation drops a channel's record from memory exactly if the channel has a table, of which no score is left, no
   * flag is set, and no row of it was just deleted from the database.
   */
  lemma RotationDrops(s: Slice, today: Slot, sqlOk: bool, now: int)
    ensures var s' := Rotate(s, today, sqlOk, now);
            var drops := && s.table.Some? && s'.Ops() == map[] && !s.Rec().blocked && !s.Rec().alert
                         && (s.Rec().inSQL ==> !sqlOk);
            && s'.rec == (if drops then None else s.rec)
            && s'.auto == s.auto && s'.man == s.man && s'.temp == s.temp && s'.net == s.net
  {
  }

  // ---- The service ----

  /** The servers that are linked, in percent, fall short of the demand. */
  lemma TooFewMeans(st: Status)
    requires st.numServers * st.minPresent < 0x1_0000_0000
    ensures TooFew(st) <==> 100 * st.linked < st.numServers * st.minPresent
  {
  }

  /** The events after which the number of servers is checked. */
  predicate Checks(st: Status, e: Event) {
    e.ServerLink? || (e.SetNumServers? && st.mode != BURST)
  }

  /**
   * Every change of the shared status: SPLIT is entered and left only by a check, exactly as too few servers are
   * linked; RUN is entered by a completed burst, unless there is a split, and by the first connection; INIT is never
   * entered.
   */
  lemma StatusExact(st: Status, e: Event, now: nat)
    ensures var st' := StatusStep(st, e, now);
            && (st'.mode == SPLIT <==> if Checks(st, e) then TooFew(st') else st.mode == SPLIT)
            && (st'.mode == RUN <==>
                  || (st.mode == RUN && st'.mode != SPLIT)
                  || (e.BurstComplete? && st.mode != SPLIT)
                  || (e.Connected? && st.mode == INIT))
            && (st'.mode == INIT ==> st.mode == INIT)
    ensures var st' := StatusStep(st, e, now);
            && st'.linked == (if e.ServerLink? then e.linked else st.linked)
            && st'.chanServ == (if e.ServiceLink? then e.up else st.chanServ)
            && st'.currentDay == (if e.TimerRotate? then DayOf(now) % 14 else st.currentDay)
            && st'.numServers == (if st.mode == BURST then st.numServers
                                  else if e.SetNumServers? then e.n
                                  else if e.Rehash? then e.numServers else st.numServers)
            && st'.minPresent == (if e.Rehash? && st.mode != BURST then e.minPresent else st.minPresent)
  {
  }

  /** After a server joined or left, the service is in SPLIT exactly if too few are linked. */
  lemma CheckExact(h: seq<Sys>, tr: seq<Stamp>, n: nat)
    requires Run(h, tr) && n < |tr| && tr[n].e.ServerLink?
    ensures h[n + 1].st.linked == tr[n].e.linked
    ensures h[n + 1].st.mode == SPLIT <==> TooFew(h[n + 1].st)
    ensures h[n + 1].st.mode != SPLIT ==> h[n + 1].st.mode == if h[n].st.mode == SPLIT then BURST else h[n].st.mode
  {
    assert Linked(h, tr, n);
  }

  /** Servers stay sufficient through the events k up to n. */
  ghost predicate EnoughThrough(h: seq<Sys>, k: nat, n: nat) {
    n < |h| && forall m | k < m <= n :: !TooFew(h[m].st)
  }

  /**
   * A split does end: once a joining server makes the number sufficient, and as long as it stays so, the next completed
   * burst puts the service back into RUN, where it remains.
   */
  lemma {:induction false} SplitEnds(h: seq<Sys>, tr: seq<Stamp>, k: nat, l: nat, n: nat)
    requires Run(h, tr) && k < l < n <= |tr| && h[k].st.mode == SPLIT && tr[k].e.ServerLink?
    requires tr[l].e.BurstComplete? && EnoughThrough(h, k, n)
    ensures h[n].st.mode == RUN
    decreases n
  {
    assert Linked(h, tr, n - 1);
    if n - 1 > l {
      SplitEnds(h, tr, k, l, n - 1);
    } else {
      LeavesSplit(h, tr, k, l);
    }
  }

  lemma {:induction false} LeavesSplit(h: seq<Sys>, tr: seq<Stamp>, k: nat, n: nat)
    requires Run(h, tr) && k < n <= |tr| && h[k].st.mode == SPLIT && tr[k].e.ServerLink? && EnoughThrough(h, k, n)
    ensures h[n].st.mode == BURST || h[n].st.mode == RUN
    decreases n
  {
    assert Linked(h, tr, n - 1);
    if n - 1 > k {
      LeavesSplit(h, tr, k, n - 1);
    }
  }
}
