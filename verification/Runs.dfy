/** Whole runs of the service, seen from one channel: any sequence of events under changing settings. */
module Runs {
  import opened Config
  import opened ChanOps
  import opened Ranking
  import opened Chooser
  import opened Slices

  datatype Stamp = Stamp(cfg: Settings, now: nat, e: Event)

  /** One round of giveAllOpsPoints: the service's day, the time, and which accounts got a point on this channel. */
  datatype Round = Round(day: int, time: nat, awarded: set<Acct>)

  /** The state as one channel sees it, with the day of the last rotation and the log of all award rounds. */
  datatype Sys = Sys(st: Status, s: Slice, day: int, log: seq<Round>)

  ghost function Next(x: Sys, p: Stamp): Sys {
    Sys(StatusStep(x.st, p.e, p.now),
        Step(p.cfg, x.st, x.s, p.e, p.now),
        if p.e.TimerRotate? then DayOf(p.now) else x.day,
        if p.e.TimerPoints? then x.log + [Round(x.day, p.now, AwardTally(p.cfg, x.st, x.s, p.now).awarded)] else x.log)
  }

  ghost predicate Linked(h: seq<Sys>, tr: seq<Stamp>, n: nat)
    requires |h| == |tr| + 1 && n < |tr|
  {
    h[n + 1] == Next(h[n], tr[n])
  }

  /** h lists the states of a run with events tr. Clocks never run backwards and are far from the epoch. */
  ghost predicate Run(h: seq<Sys>, tr: seq<Stamp>) {
    && |h| == |tr| + 1
    && (forall n | 0 <= n < |tr| :: tr[n].now >= DAY)
    && (forall m, n | 0 <= m <= n < |tr| :: tr[m].now <= tr[n].now)
    && (forall n | 0 <= n < |tr| :: Linked(h, tr, n))
  }

  /** Every sequence of events is a run from every state. */
  lemma {:induction false} EveryTraceRuns(x: Sys, tr: seq<Stamp>) returns (h: seq<Sys>)
    requires forall n | 0 <= n < |tr| :: tr[n].now >= DAY
    requires forall m, n | 0 <= m <= n < |tr| :: tr[m].now <= tr[n].now
    ensures Run(h, tr) && h[0] == x
  {
    if tr == [] {
      h := [x];
    } else {
      var k := |tr| - 1;
      var g := EveryTraceRuns(x, tr[..k]);
      h := g + [Next(g[k], tr[k])];
      forall n | 0 <= n < |tr|
        ensures Linked(h, tr, n)
      {
        assert n < k ==> Linked(g, tr[..k], n);
      }
    }
  }

  // ---- Invariants of a slice ----

  ghost predicate Disjoint(s: Slice) {
    s.auto.None? || s.man.None?
  }

  ghost predicate BlockedIdle(s: Slice) {
    s.Rec().blocked ==> !s.BeingFixed()
  }

  ghost predicate TimesOk(s: Slice, now: int) {
    && (s.Rec().start == 0 <==> s.Rec().last == 0)
    && (s.Rec().start != 0 ==> 0 < s.Rec().start <= s.Rec().last <= now)
  }

  /** What trying a due entry leaves alone, and how it stamps the record. */
  lemma TryFrame(s: Slice, auto: bool, now: int)
    requires s.rec.Some?
    ensures var a := TryFix(s, auto, now);
            && a.s.rec.Some? && a.s.auto == s.auto && a.s.man == s.man && a.s.temp == s.temp && a.s.table == s.table
            && (a.s.net.None? <==> s.net.None?)
            && a.s.Rec().start ==
                 (if now - s.Rec().last >= Interval(auto) then Stamped(s.Rec(), now) else s.Rec()).start
            && a.s.Rec().last == (if now - s.Rec().last >= Interval(auto) then now else s.Rec().last)
            && a.s.Rec().blocked == s.Rec().blocked && a.s.Rec().alert == s.Rec().alert
            && a.s.Rec().inSQL == s.Rec().inSQL
  {
  }

  lemma SettleFrame(a: Attempt, auto: bool, now: int)
    requires a.s.rec.Some? && TimesOk(a.s, now)
    ensures var s' := Settle(a, auto, now);
            && s'.rec.Some? && TimesOk(s', now)
            && Due(s', !auto) == Due(a.s, !auto) && s'.temp == a.s.temp && s'.table == a.s.table
            && s'.Rec().blocked == a.s.Rec().blocked && s'.Rec().alert == a.s.Rec().alert
            && s'.Rec().inSQL == a.s.Rec().inSQL
            && (Due(s', auto).None?
                  || (s' == WithDue(a.s, auto, Some(now + Interval(auto))) && now - a.s.Rec().start <= Window(auto)))
  {
  }

  lemma EntryFrame(s: Slice, auto: bool, now: int)
    requires 0 < now && TimesOk(s, now)
    ensures var s' := ProcessEntry(s, auto, now);
            && s'.rec.Some? && TimesOk(s', now)
            && Due(s', !auto) == Due(s, !auto) && s'.temp == s.temp && s'.table == s.table
            && s'.Rec().blocked == s.Rec().blocked && s'.Rec().alert == s.Rec().alert && s'.Rec().inSQL == s.Rec().inSQL
            && (Due(s', auto).Some? ==>
                  && Due(s', auto).value == now + Interval(auto) && now - s'.Rec().start <= Window(auto)
                  && s'.Rec().start ==
                       (if now - s.Rec().last >= Interval(auto) then Stamped(s.Rec(), now) else s.Rec()).start)
  {
    var s1 := s.(rec := Some(s.Rec()));
    var a := TryFix(s1, auto, now);
    TryFrame(s1, auto, now);
    SettleFrame(a, auto, now);
  }

  lemma PassFrame(s: Slice, now: int)
    requires 0 < now && TimesOk(s, now)
    ensures var s' := Pass(s, now);
            && TimesOk(s', now) && s'.temp == s.temp && s'.table == s.table
            && s'.Rec().blocked == s.Rec().blocked && s'.Rec().alert == s.Rec().alert
            && (s.auto.None? ==> s'.auto.None?) && (s.man.None? ==> s'.man.None?)
  {
    var s1 := PassQueue(s, true, now);
    if s1 != s {
      EntryFrame(s, true, now);
    }
    if Pass(s, now) != s1 {
      EntryFrame(s1, false, now);
    }
  }

  /** No channel is ever in both queues. */
  lemma StepKeepsDisjoint(cfg: Settings, st: Status, s: Slice, e: Event, now: nat)
    requires 0 < now && Disjoint(s) && TimesOk(s, now)
    ensures Disjoint(Step(cfg, st, s, e, now))
  {
    if e.TimerQueue? {
      PassFrame(s, now);
    } else if e.OpMode? {
      ModeOFrame(cfg, st, s, e, now);
    }
  }

  /** Op changes insert into no queue, and only clear the attempt times of a channel they take out. */
  lemma {:induction false} ModeFrame(cfg: Settings, st: Status, s: Slice, byUser: bool, targets: seq<Target>, now: int)
    ensures var s' := ModeTargets(cfg, st, s, byUser, targets, now);
            && (s'.auto == s.auto || s'.auto.None?) && (s'.man == s.man || s'.man.None?)
            && s'.net == s.net && s'.temp == s.temp && (s'.rec.Some? <==> s.rec.Some?)
            && s'.rec == (if s'.auto != s.auto || s'.man != s.man then Cleared(s) else s).rec
  {
    if targets != [] {
      ModeFrame(cfg, st, s, byUser, targets[..|targets| - 1], now);
    }
  }

  lemma ModeOFrame(cfg: Settings, st: Status, s: Slice, e: Event, now: int)
    requires e.OpMode?
    ensures var s' := ModeO(cfg, st, s, e.byUser, e.byService, e.targets, now);
            && (s'.auto == s.auto || s'.auto.None?) && (s'.man == s.man || s'.man.None?)
            && s'.net == s.net && (s'.rec.Some? <==> s.rec.Some?)
            && s'.rec == (if s'.auto != s.auto || s'.man != s.man then Cleared(s) else s).rec
  {
    ModeFrame(cfg, st, s, e.byUser, e.targets, now);
    ModeFrame(cfg, st, TempBlocked(s, now), e.byUser, e.targets, now);
  }

  ghost predicate SameTimes(s: Slice, s': Slice) {
    s'.Rec().start == s.Rec().start && s'.Rec().last == s.Rec().last
  }

  lemma FixOrderTimes(s: Slice, override: bool, sqlOk: bool, now: int)
    ensures SameTimes(s, OrderFix(s, override, sqlOk, now)) && SameTimes(s, RequestFix(s, sqlOk, now))
  {
    assert SameTimes(s, ManualFix(Inserted(s, sqlOk), now));
    assert SameTimes(s, ManualFix(Inserted(s.(auto := None), sqlOk), now));
  }

  lemma BlockTimes(cfg: Settings, s: Slice, sqlOk: bool)
    ensures var s' := BlockCommand(cfg, s, sqlOk); SameTimes(s, s') || (s'.Rec().start == 0 && s'.Rec().last == 0)
  {
  }

  lemma CommandTimes(cfg: Settings, st: Status, s: Slice, e: Event, now: nat)
    requires e.Command()
    ensures var s' := Step(cfg, st, s, e, now); SameTimes(s, s') || (s'.Rec().start == 0 && s'.Rec().last == 0)
  {
    var s1 := s.(rec := Some(WithTop(s.Rec(), MyOps(s.Ops()))));
    match e
    case CommandChanfix(override, sqlOk) => FixOrderTimes(s1, override, sqlOk, now);
    case CommandRequestOp(_, _, _, sqlOk) => FixOrderTimes(s1, false, sqlOk, now);
    case CommandBlock(sqlOk) => BlockTimes(cfg, s, sqlOk);
    case _ =>
  }

  lemma StepKeepsTimes(cfg: Settings, st: Status, s: Slice, e: Event, now: nat)
    requires 0 < now && TimesOk(s, now)
    ensures TimesOk(Step(cfg, st, s, e, now), now)
  {
    if e.Command() {
      CommandTimes(cfg, st, s, e, now);
    } else if e.TimerQueue? {
      PassFrame(s, now);
    } else if e.OpMode? {
      ModeOFrame(cfg, st, s, e, now);
    }
  }

  /** BLOCK takes the channel out of the queues exactly when it is on the network (or was not queued at all). */
  lemma BlockExact(cfg: Settings, s: Slice, sqlOk: bool)
    requires cfg.enableBlocking && !s.Rec().blocked
    ensures BlockCommand(cfg, s, sqlOk).Rec().blocked
    ensures BlockedIdle(BlockCommand(cfg, s, sqlOk)) <==> s.net.Some? || !s.BeingFixed()
  {
  }

  /** A BLOCK that sets the flag: accepted, with blocking enabled, and on a channel that is not blocked yet. */
  predicate Blocks(cfg: Settings, st: Status, s: Slice, e: Event) {
    e.CommandBlock? && st.mode != BURST && cfg.enableBlocking && !s.Rec().blocked
  }

  /** Only such a BLOCK, of a queued channel that is not on the network, leaves a blocked channel queued. */
  lemma StepBlockedIdle(cfg: Settings, st: Status, s: Slice, e: Event, now: nat)
    requires 0 < now && BlockedIdle(s) && TimesOk(s, now)
    ensures BlockedIdle(Step(cfg, st, s, e, now)) <==> (Blocks(cfg, st, s, e) ==> s.net.Some? || !s.BeingFixed())
  {
    if e.TimerQueue? {
      PassFrame(s, now);
    } else if e.OpMode? {
      ModeOFrame(cfg, st, s, e, now);
    } else if Blocks(cfg, st, s, e) {
      BlockExact(cfg, s, e.sqlOk);
    }
  }

  /** UNBLOCK undoes BLOCK: of a channel that was not blocked, only the fixes that BLOCK aborted are lost. */
  lemma UnblockUndoesBlock(cfg: Settings, s: Slice, ok1: bool, ok2: bool)
    requires cfg.enableBlocking && !s.Rec().blocked
    ensures var s' := UnblockCommand(cfg, BlockCommand(cfg, s, ok1), ok2);
            if s.net.Some? && s.BeingFixed()
            then s' == Cleared(s.(auto := None, man := None,
                                  rec := Some(s.Rec().(inSQL := s.Rec().inSQL || ok1 || ok2))))
            else s' == s.(rec := Some(s.Rec().(inSQL := s.Rec().inSQL || ok1 || ok2)))
  {
  }

  /** After UNBLOCK, where blocking is enabled, the flag is clear; after ALERT it is as asked. Nothing else changes. */
  lemma FlagsAsAsked(cfg: Settings, s: Slice, alert: bool, sqlOk: bool)
    ensures var s' := UnblockCommand(cfg, s, sqlOk);
            && s'.Rec().blocked == (s.Rec().blocked && !cfg.enableBlocking)
            && s'.(rec := s.rec) == s && s'.Rec().(blocked := s.Rec().blocked, inSQL := s.Rec().inSQL) == s.Rec()
            && s'.Rec().inSQL == (s.Rec().inSQL || (sqlOk && s.Rec().blocked && cfg.enableBlocking))
    ensures var s' := AlertCommand(s, alert, sqlOk);
            && s'.Rec().alert == alert
            && s'.(rec := s.rec) == s && s'.Rec().(alert := s.Rec().alert, inSQL := s.Rec().inSQL) == s.Rec()
            && s'.Rec().inSQL == (s.Rec().inSQL || (sqlOk && s.Rec().alert != alert))
  {
  }

  /** Rotation never drops a record that carries a flag. */
  lemma RotateKeepsFlags(s: Slice, today: Slot, sqlOk: bool, now: int)
    ensures Rotate(s, today, sqlOk, now).Rec().blocked == s.Rec().blocked
    ensures Rotate(s, today, sqlOk, now).Rec().alert == s.Rec().alert
  {
  }

  /** The window test never takes an unset start for an elapsed window. */
  lemma WindowTestReadsSetStart(s: Slice, auto: bool, now: int)
    requires s.rec.Some? && 0 < now && TimesOk(s, now)
    ensures var a := TryFix(s, auto, now); now - a.s.Rec().start > Window(auto) ==> a.s.Rec().start != 0
  {
    TryFrame(s, auto, now);
  }

  // ---- Safety over runs ----

  function Clock(t0: nat, tr: seq<Stamp>, n: nat): nat
    requires n <= |tr|
  {
    if n == 0 then t0 else tr[n - 1].now
  }

  /** A run from a state that is consistent at time t0. */
  ghost predicate GoodRun(h: seq<Sys>, tr: seq<Stamp>, t0: nat) {
    && Run(h, tr)
    && (forall n | 0 <= n < |tr| :: t0 <= tr[n].now)
    && Disjoint(h[0].s) && TimesOk(h[0].s, t0)
  }

  lemma SafeStep(h: seq<Sys>, tr: seq<Stamp>, n: nat)
    requires Run(h, tr) && n < |tr| && Disjoint(h[n].s) && TimesOk(h[n].s, tr[n].now)
    ensures Disjoint(h[n + 1].s) && TimesOk(h[n + 1].s, tr[n].now)
  {
    assert Linked(h, tr, n);
    StepKeepsDisjoint(tr[n].cfg, h[n].st, h[n].s, tr[n].e, tr[n].now);
    StepKeepsTimes(tr[n].cfg, h[n].st, h[n].s, tr[n].e, tr[n].now);
  }

  /** In every reachable state the queues are disjoint and the attempt times are consistent. */
  lemma {:induction false} RunSafety(h: seq<Sys>, tr: seq<Stamp>, t0: nat, n: nat)
    requires GoodRun(h, tr, t0) && n <= |tr|
    ensures Disjoint(h[n].s) && TimesOk(h[n].s, Clock(t0, tr, n))
  {
    if n > 0 {
      RunSafety(h, tr, t0, n - 1);
      SafeStep(h, tr, n - 1);
    }
  }

  /** The n-th event does not set the block flag of a queued channel that is not on the network. */
  ghost predicate BlockFits(h: seq<Sys>, tr: seq<Stamp>, n: nat)
    requires n < |tr| && n < |h|
  {
    Blocks(tr[n].cfg, h[n].st, h[n].s, tr[n].e) ==> h[n].s.net.Some? || !h[n].s.BeingFixed()
  }

  lemma BlockedIdleStep(h: seq<Sys>, tr: seq<Stamp>, n: nat)
    requires Run(h, tr) && n < |tr| && BlockedIdle(h[n].s) && TimesOk(h[n].s, tr[n].now)
    ensures BlockedIdle(h[n + 1].s) <==> BlockFits(h, tr, n)
  {
    assert Linked(h, tr, n);
    StepBlockedIdle(tr[n].cfg, h[n].st, h[n].s, tr[n].e, tr[n].now);
  }

  /** In all states of a run so far blocked channels are idle exactly if every BLOCK that took effect was fitting. */
  lemma {:induction false} RunBlockedIdle(h: seq<Sys>, tr: seq<Stamp>, t0: nat, n: nat)
    requires GoodRun(h, tr, t0) && n <= |tr| && BlockedIdle(h[0].s)
    ensures (forall k | 0 <= k <= n :: BlockedIdle(h[k].s)) <==> forall i | 0 <= i < n :: BlockFits(h, tr, i)
  {
    if n > 0 {
      RunBlockedIdle(h, tr, t0, n - 1);
      RunSafety(h, tr, t0, n - 1);
      if BlockedIdle(h[n - 1].s) {
        BlockedIdleStep(h, tr, n - 1);
      }
    }
  }

  // ---- Temporary blocks ----

  /** How one event changes the temporary block. */
  lemma StepTemp(cfg: Settings, st: Status, s: Slice, e: Event, now: nat)
    requires 0 < now && TimesOk(s, now)
    ensures var s' := Step(cfg, st, s, e, now);
            if s.temp.Some?
            then s'.temp == if e.TimerTempBlocks? && now - s.temp.value >= TEMPBLOCK_DURATION_TIME then None else s.temp
            else s'.temp.None? || s'.temp == Some(now)
  {
    if e.TimerQueue? {
      PassFrame(s, now);
    } else if e.OpMode? {
      ModeFrame(cfg, st, s, e.byUser, e.targets, now);
      ModeFrame(cfg, st, TempBlocked(s, now), e.byUser, e.targets, now);
    }
  }

  /** A server mode of a service, or a mode change by a user of one, leaves the channel temporarily blocked. */
  lemma ServiceModeBlocks(cfg: Settings, st: Status, s: Slice, targets: seq<Target>, now: nat)
    requires s.net.Some?
    ensures st.mode == RUN && |s.net.value.users| >= cfg.minClients ==>
            ServerMode(cfg, st, s, now).temp == Some(s.temp.GetOr(now))
    ensures ModeO(cfg, st, s, true, true, targets, now).temp == Some(s.temp.GetOr(now))
  {
    ModeFrame(cfg, st, TempBlocked(s, now), true, targets, now);
  }

  /** A block placed at time t is there exactly until the timer finds it an hour old. */
  lemma {:induction false} TempBlockLasts(h: seq<Sys>, tr: seq<Stamp>, t0: nat, i: nat, j: nat, t: int)
    requires GoodRun(h, tr, t0) && i <= j <= |tr| && h[i].s.temp == Some(t)
    ensures h[j].s.temp == Some(t) <==>
            forall k | i <= k < j && tr[k].e.TimerTempBlocks? :: tr[k].now - t < TEMPBLOCK_DURATION_TIME
    decreases j
  {
    if i < j {
      TempBlockLasts(h, tr, t0, i, j - 1, t);
      RunSafety(h, tr, t0, j - 1);
      assert Linked(h, tr, j - 1);
      StepTemp(tr[j - 1].cfg, h[j - 1].st, h[j - 1].s, tr[j - 1].e, tr[j - 1].now);
    }
  }

  /** While it is there, only CHANFIX with OVERRIDE can queue the channel. */
  lemma TempBlockHoldsOff(cfg: Settings, st: Status, s: Slice, e: Event, now: nat)
    requires 0 < now && TimesOk(s, now) && s.temp.Some? && !s.BeingFixed()
    ensures Step(cfg, st, s, e, now).BeingFixed() ==> e.CommandChanfix? && e.override
  {
    if e.TimerQueue? {
      PassFrame(s, now);
    } else if e.OpMode? {
      ModeOFrame(cfg, st, s, e, now);
    }
  }

  // ---- Fixes end ----

  lemma QueueLeavesLaterDue(s: Slice, auto: bool, now: int)
    requires 0 < now && TimesOk(s, now)
    ensures var s' := PassQueue(s, auto, now);
            && TimesOk(s', now) && Due(s', !auto) == Due(s, !auto)
            && (Due(s', auto).Some? ==> Due(s', auto).value > now)
  {
    if Due(s, auto).Some? && Due(s, auto).value <= now {
      EntryFrame(s, auto, now);
    }
  }

  /** After a pass every remaining entry is due strictly later. */
  lemma PassLeavesLaterDue(s: Slice, now: int)
    requires 0 < now && TimesOk(s, now)
    ensures Pass(s, now).auto.Some? ==> Pass(s, now).auto.value > now
    ensures Pass(s, now).man.Some? ==> Pass(s, now).man.value > now
  {
    QueueLeavesLaterDue(s, true, now);
    QueueLeavesLaterDue(PassQueue(s, true, now), false, now);
  }

  ghost predicate Untouched(s: Slice, s': Slice, auto: bool) {
    Due(s', auto) == Due(s, auto) && s'.Rec().start == s.Rec().start
  }

  ghost predicate Retried(s: Slice, s': Slice, auto: bool, now: int) {
    && Due(s, auto).Some? && Due(s, auto).value <= now
    && Due(s', auto) == Some(now + Interval(auto))
    && s'.Rec().start == (if s.Rec().start == 0 then now else s.Rec().start)
    && now - s'.Rec().start <= Window(auto)
  }

  lemma StayQueuedPass(s: Slice, auto: bool, now: nat)
    requires now >= DAY && TimesOk(s, now) && Disjoint(s) && s.rec.Some?
    requires Due(s, auto).Some? && Due(Pass(s, now), auto).Some?
    ensures Untouched(s, Pass(s, now), auto) || Retried(s, Pass(s, now), auto, now)
    ensures Due(Pass(s, now), auto).value > now
  {
    EntryFrame(s, auto, now);
    if auto {
      assert Pass(s, now) == PassQueue(s, true, now);
    } else {
      assert PassQueue(s, true, now) == s;
    }
  }

  lemma StayQueuedCommand(cfg: Settings, st: Status, s: Slice, e: Event, now: nat, auto: bool)
    requires e.Command() && Due(s, auto).Some? && Due(Step(cfg, st, s, e, now), auto).Some?
    ensures Untouched(s, Step(cfg, st, s, e, now), auto)
  {
  }

  /** A channel that stays queued through an event, record and all, either was not touched or was tried again. */
  lemma StayQueued(cfg: Settings, st: Status, s: Slice, e: Event, now: nat, auto: bool)
    requires now >= DAY && TimesOk(s, now) && Disjoint(s) && s.rec.Some?
    requires Due(s, auto).Some? && Due(Step(cfg, st, s, e, now), auto).Some? && Step(cfg, st, s, e, now).rec.Some?
    ensures var s' := Step(cfg, st, s, e, now);
            && (Untouched(s, s', auto) || Retried(s, s', auto, now))
            && (e.TimerQueue? && st.mode == RUN ==> Due(s', auto).value > now)
  {
    if e.Command() {
      StayQueuedCommand(cfg, st, s, e, now, auto);
    } else if e.TimerQueue? {
      if st.mode == RUN {
        StayQueuedPass(s, auto, now);
      }
    } else if e.OpMode? {
      ModeOFrame(cfg, st, s, e, now);
    }
  }

  function FirstDue(auto: bool, inserted: int): int {
    if auto then inserted else inserted + CHANFIX_DELAY
  }

  lemma EntersQueue(cfg: Settings, st: Status, s: Slice, e: Event, now: nat, auto: bool)
    requires now >= DAY && TimesOk(s, now) && Due(s, auto).None? && Due(Step(cfg, st, s, e, now), auto).Some?
    ensures Due(Step(cfg, st, s, e, now), auto).value == FirstDue(auto, now)
    ensures Step(cfg, st, s, e, now).Rec().start == s.Rec().start
  {
    if e.TimerQueue? {
      PassFrame(s, now);
    } else if e.OpMode? {
      ModeOFrame(cfg, st, s, e, now);
    }
  }

  /** The channel is queued, with its record, from after event `i - 1` (which queued it) up to before event `j`. */
  ghost predicate QueuedThrough(h: seq<Sys>, i: nat, j: nat, auto: bool) {
    && 0 < i <= j < |h|
    && Due(h[i - 1].s, auto).None?
    && forall k | i <= k <= j :: Due(h[k].s, auto).Some? && h[k].s.rec.Some?
  }

  ghost predicate PassAt(h: seq<Sys>, tr: seq<Stamp>, m: int) {
    0 <= m < |tr| && m < |h| && tr[m].e.TimerQueue? && h[m].st.mode == RUN
  }

  /** While the channel is queued, every event is within P seconds of an earlier pass or of its insertion. */
  ghost predicate PassesEvery(h: seq<Sys>, tr: seq<Stamp>, i: nat, j: nat, P: nat) {
    0 < i && j < |tr| &&
    forall k | i <= k <= j ::
      || tr[k].now <= tr[i - 1].now + P
      || exists m :: i <= m < k && PassAt(h, tr, m) && tr[k].now <= tr[m].now + P
  }

  lemma InsertedAt(h: seq<Sys>, tr: seq<Stamp>, t0: nat, i: nat, auto: bool)
    requires GoodRun(h, tr, t0) && QueuedThrough(h, i, i, auto)
    ensures Due(h[i].s, auto).value == FirstDue(auto, tr[i - 1].now)
    ensures h[i].s.Rec().start == h[i - 1].s.Rec().start <= tr[i - 1].now
  {
    RunSafety(h, tr, t0, i - 1);
    assert Linked(h, tr, i - 1);
    EntersQueue(tr[i - 1].cfg, h[i - 1].st, h[i - 1].s, tr[i - 1].e, tr[i - 1].now, auto);
  }

  lemma StayQueuedAt(h: seq<Sys>, tr: seq<Stamp>, t0: nat, i: nat, k: nat, auto: bool)
    requires GoodRun(h, tr, t0) && k < |tr| && QueuedThrough(h, i, k + 1, auto) && i <= k
    ensures Untouched(h[k].s, h[k + 1].s, auto) || Retried(h[k].s, h[k + 1].s, auto, tr[k].now)
    ensures PassAt(h, tr, k) ==> Due(h[k + 1].s, auto).value > tr[k].now
    ensures TimesOk(h[k].s, tr[k].now)
  {
    RunSafety(h, tr, t0, k);
    assert Linked(h, tr, k);
    StayQueued(tr[k].cfg, h[k].st, h[k].s, tr[k].e, tr[k].now, auto);
  }

  /** The due time of a queued channel only grows, and is bounded by its start once it has been tried. */
  lemma {:induction false} DueBounds(h: seq<Sys>, tr: seq<Stamp>, t0: nat, i: nat, k: nat, j: nat, auto: bool)
    requires GoodRun(h, tr, t0) && QueuedThrough(h, i, j, auto) && i <= k <= j
    ensures var s, d0 := h[j].s, FirstDue(auto, tr[i - 1].now);
            && d0 <= Due(h[k].s, auto).value <= Due(s, auto).value
            && (Due(s, auto).value == d0
                  || (s.Rec().start != 0 && Due(s, auto).value <= s.Rec().start + Window(auto) + Interval(auto)))
            && (h[k].s.Rec().start != 0 ==> s.Rec().start == h[k].s.Rec().start)
    decreases j
  {
    if i == j {
      InsertedAt(h, tr, t0, i, auto);
    } else {
      DueBounds(h, tr, t0, i, if k < j then k else j - 1, j - 1, auto);
      StayQueuedAt(h, tr, t0, i, j - 1, auto);
    }
  }

  lemma DueAfterPass(h: seq<Sys>, tr: seq<Stamp>, t0: nat, i: nat, m: nat, j: nat, auto: bool)
    requires GoodRun(h, tr, t0) && QueuedThrough(h, i, j, auto) && i <= m < j && PassAt(h, tr, m)
    ensures Due(h[j].s, auto).value > tr[m].now
  {
    StayQueuedAt(h, tr, t0, i, m, auto);
    DueBounds(h, tr, t0, i, m + 1, j, auto);
  }

  /** No event finds the channel still queued more than P seconds after its due time. */
  lemma DueIsMet(h: seq<Sys>, tr: seq<Stamp>, t0: nat, i: nat, j: nat, auto: bool, P: nat)
    requires GoodRun(h, tr, t0) && QueuedThrough(h, i, j, auto) && PassesEvery(h, tr, i, j, P)
    ensures tr[j].now <= Due(h[j].s, auto).value + P
  {
    if tr[j].now <= tr[i - 1].now + P {
      DueBounds(h, tr, t0, i, i, j, auto);
    } else {
      var m :| i <= m < j && PassAt(h, tr, m) && tr[j].now <= tr[m].now + P;
      DueAfterPass(h, tr, t0, i, m, j, auto);
    }
  }

  /**
   * Fixes end: with passes at most P seconds apart, no event finds the channel still queued later than the window,
   * one interval and P seconds after the fix's start (or P seconds after its first due time, if it was never tried).
   */
  lemma FixesEnd(h: seq<Sys>, tr: seq<Stamp>, t0: nat, i: nat, j: nat, auto: bool, P: nat)
    requires GoodRun(h, tr, t0) && QueuedThrough(h, i, j, auto) && PassesEvery(h, tr, i, j, P)
    ensures var start := h[j].s.Rec().start;
            || tr[j].now <= FirstDue(auto, tr[i - 1].now) + P
            || (start != 0 && tr[j].now <= start + Window(auto) + Interval(auto) + P)
  {
    DueIsMet(h, tr, t0, i, j, auto, P);
    DueBounds(h, tr, t0, i, i, j, auto);
  }

  /** The start of a fix lies within P seconds of the first due time. */
  lemma {:induction false} StartBound(h: seq<Sys>, tr: seq<Stamp>, t0: nat, i: nat, j: nat, auto: bool, P: nat)
    requires GoodRun(h, tr, t0) && QueuedThrough(h, i, j, auto) && PassesEvery(h, tr, i, j, P)
    ensures h[j].s.Rec().start <= FirstDue(auto, tr[i - 1].now) + P
    decreases j
  {
    if i == j {
      InsertedAt(h, tr, t0, i, auto);
    } else {
      StartBound(h, tr, t0, i, j - 1, auto, P);
      FixesEnd(h, tr, t0, i, j - 1, auto, P);
      StayQueuedAt(h, tr, t0, i, j - 1, auto);
    }
  }

  /** In total, a fix of either kind is over within window + interval + 2P of its first due time. */
  lemma FixesEndAbsolutely(h: seq<Sys>, tr: seq<Stamp>, t0: nat, i: nat, j: nat, auto: bool, P: nat)
    requires GoodRun(h, tr, t0) && QueuedThrough(h, i, j, auto) && PassesEvery(h, tr, i, j, P)
    ensures tr[j].now <= FirstDue(auto, tr[i - 1].now) + Window(auto) + Interval(auto) + 2 * P
  {
    FixesEnd(h, tr, t0, i, j, auto, P);
    StartBound(h, tr, t0, i, j, auto, P);
  }
}
