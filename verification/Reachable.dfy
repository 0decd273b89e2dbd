/** Further facts about every reachable state: score tables, attempt times of idle channels, and split safety. */
module Reachable {
  import opened Config
  import opened ChanOps
  import opened Ranking
  import opened Chooser
  import opened Slices
  import opened Runs
  import opened Scoring
  import opened Fixes

  // ---- Score tables ----

  /** At most 256 records, none of clients without an account, each a ring of shorts with its sum as the total. */
  ghost predicate TableOk(ops: OpTable) {
    |ops| <= MAXOPCOUNT && NO_ACCOUNT !in ops && forall a | a in ops :: ops[a].Sound()
  }

  lemma RotateKeepsTable(ops: OpTable, slot: Slot, now: int)
    requires TableOk(ops)
    ensures TableOk(RotateOps(ops, slot, now))
  {
    SubsetSize(RotateOps(ops, slot, now).Keys, ops.Keys);
  }

  lemma {:induction false} SubsetSize<T>(a: set<T>, b: set<T>)
    requires a <= b
    ensures |a| <= |b|
    decreases a
  {
    if a != {} {
      var x :| x in a;
      SubsetSize(a - {x}, b - {x});
    }
  }

  lemma RefreshKeepsTable(ops: OpTable, ops': OpTable, now: int)
    requires TableOk(ops) && Refreshed(ops, ops', now)
    ensures TableOk(ops')
  {
    SumZeros(NO_POINTS);
  }

  lemma PointKeepsSound(r: OpRec, r': OpRec, today: Slot, now: int)
    requires r.Sound() && OnePoint(r, r', today, now)
    ensures r'.Sound()
  {
    forall d: Slot
      ensures IsShort(r'.day[d])
    {
      assert IsShort(r.day[d]);
    }
  }

  lemma AwardKeepsTable(cfg: Settings, st: Status, s: Slice, now: int)
    requires TableOk(s.Ops())
    ensures TableOk(Award(cfg, st, s, now).Ops())
  {
    if Scorable(cfg, s) {
      var users, ops, today := s.net.value.users, s.Ops(), st.currentDay;
      var t := AwardUsers(cfg, st.chanServ, ops, users, today, now);
      AwardExact(cfg, st.chanServ, ops, users, today, now);
      AwardRespectsCap(cfg, st.chanServ, ops, users, today, now);
      SumZeros(NO_POINTS);
      forall a | a in t.ops
        ensures t.ops[a].Sound()
      {
        if a in t.awarded {
          PointKeepsSound(Base(ops, a, now), t.ops[a], today, now);
        }
      }
      assert Award(cfg, st, s, now).Ops() == t.ops;
    }
  }

  lemma StepKeepsTable(cfg: Settings, st: Status, s: Slice, e: Event, now: nat)
    requires TableOk(s.Ops())
    ensures TableOk(Step(cfg, st, s, e, now).Ops())
  {
    if e.TimerPoints? {
      AwardKeepsTable(cfg, st, s, now);
    } else if e.TimerRotate? {
      if s.table.Some? {
        RotateKeepsTable(s.Ops(), NextDay(st.currentDay), now);
      }
    } else {
      OtherEventsRefresh(cfg, st, s, e, now);
      RefreshKeepsTable(s.Ops(), Step(cfg, st, s, e, now).Ops(), now);
    }
  }

  lemma TableStep(h: seq<Sys>, tr: seq<Stamp>, n: nat)
    requires Run(h, tr) && n < |tr| && TableOk(h[n].s.Ops())
    ensures TableOk(h[n + 1].s.Ops())
  {
    assert Linked(h, tr, n);
    StepKeepsTable(tr[n].cfg, h[n].st, h[n].s, tr[n].e, tr[n].now);
  }

  lemma {:induction false} RunKeepsTable(h: seq<Sys>, tr: seq<Stamp>, n: nat)
    requires Run(h, tr) && n <= |tr| && TableOk(h[0].s.Ops())
    ensures TableOk(h[n].s.Ops())
  {
    if n > 0 {
      RunKeepsTable(h, tr, n - 1);
      TableStep(h, tr, n - 1);
    }
  }

  /** Over every run, nobody who is not logged in is ever given ops by a fix. */
  lemma RunOpsLoggedIn(h: seq<Sys>, tr: seq<Stamp>, n: nat, auto: bool, now: int)
    requires Run(h, tr) && n <= |tr| && TableOk(h[0].s.Ops())
    requires h[n].s.net.Some? ==> DistinctUsers(h[n].s.net.value.users)
    ensures forall u | u in FixAttempt(h[n].s, auto, now).opped :: u.account != NO_ACCOUNT && u.account in h[n].s.Ops()
  {
    RunKeepsTable(h, tr, n);
    OppedAreScored(h[n].s, auto, now);
  }

  /** Over every run a total is the sum of fourteen shorts. */
  lemma RunTotals(h: seq<Sys>, tr: seq<Stamp>, n: nat, a: Acct)
    requires Run(h, tr) && n <= |tr| && TableOk(h[0].s.Ops()) && a in h[n].s.Ops()
    ensures ShortSum(h[n].s.Ops()[a].points)
  {
    RunKeepsTable(h, tr, n);
    SoundTotal(h[n].s.Ops()[a]);
  }

  // ---- Attempt times of idle channels ----

  /** A channel in no queue carries no attempt times. */
  ghost predicate IdleReset(s: Slice) {
    !s.BeingFixed() ==> s.Rec().start == 0
  }

  /**
   * A processed entry leaves no stale times behind exactly when the channel exists, or when it was tried less than an
   * interval ago within its window: then it is not tried again, and stays queued.
   */
  lemma LeavingResets(s: Slice, auto: bool, now: int)
    requires 0 < now && TimesOk(s, now) && Disjoint(s) && Due(s, auto).Some?
    ensures IdleReset(ProcessEntry(s, auto, now)) <==>
            s.net.Some? || (now - s.Rec().last < Interval(auto) && now - s.Rec().start <= Window(auto))
  {
    var s1 := s.(rec := Some(s.Rec()));
    TryFrame(s1, auto, now);
    WindowTestReadsSetStart(s1, auto, now);
  }

  /** No entry that is due leaves its queue with the channel gone. */
  predicate EntriesFit(s: Slice, now: int) {
    s.net.Some? ||
    forall auto: bool | Due(s, auto).Some? && Due(s, auto).value <= now ::
      now - s.Rec().last < Interval(auto) && now - s.Rec().start <= Window(auto)
  }

  lemma PassIdleReset(s: Slice, now: int)
    requires 0 < now && TimesOk(s, now) && Disjoint(s) && IdleReset(s)
    ensures IdleReset(Pass(s, now)) <==> EntriesFit(s, now)
  {
    if s.auto.Some? && s.auto.value <= now {
      LeavingResets(s, true, now);
      EntryFrame(s, true, now);
      assert Pass(s, now) == PassQueue(s, true, now);
    } else if s.man.Some? && s.man.value <= now {
      LeavingResets(s, false, now);
      assert PassQueue(s, true, now) == s;
    } else {
      assert forall auto: bool | Due(s, auto).Some? :: Due(s, auto).value > now;
    }
  }

  lemma StepIdleReset(cfg: Settings, st: Status, s: Slice, e: Event, now: nat)
    requires 0 < now && TimesOk(s, now) && Disjoint(s) && BlockedIdle(s) && IdleReset(s)
    ensures IdleReset(Step(cfg, st, s, e, now)) <==> (e.TimerQueue? && st.mode == RUN ==> EntriesFit(s, now))
  {
    if e.TimerQueue? {
      PassIdleReset(s, now);
    } else if e.OpMode? {
      ModeOFrame(cfg, st, s, e, now);
    }
  }

  /** If the n-th event is a pass, no entry leaves its queue with the channel gone. */
  ghost predicate PassFits(h: seq<Sys>, tr: seq<Stamp>, n: nat)
    requires n < |tr| && n < |h|
  {
    PassAt(h, tr, n) ==> EntriesFit(h[n].s, tr[n].now)
  }

  lemma IdleResetStep(h: seq<Sys>, tr: seq<Stamp>, n: nat)
    requires Run(h, tr) && n < |tr| && Disjoint(h[n].s) && TimesOk(h[n].s, tr[n].now)
    requires BlockedIdle(h[n].s) && IdleReset(h[n].s)
    ensures IdleReset(h[n + 1].s) <==> PassFits(h, tr, n)
  {
    assert Linked(h, tr, n);
    StepIdleReset(tr[n].cfg, h[n].st, h[n].s, tr[n].e, tr[n].now);
  }

  /**
   * As long as every BLOCK that takes effect is fitting: every fix so far started afresh, that is, an idle channel
   * never carried attempt times, exactly if in every pass the channels whose entries left their queue existed.
   */
  lemma {:induction false} RunIdleReset(h: seq<Sys>, tr: seq<Stamp>, t0: nat, n: nat)
    requires GoodRun(h, tr, t0) && n <= |tr| && BlockedIdle(h[0].s) && IdleReset(h[0].s)
    requires forall i | 0 <= i < n :: BlockFits(h, tr, i)
    ensures (forall k | 0 <= k <= n :: IdleReset(h[k].s)) <==> forall i | 0 <= i < n :: PassFits(h, tr, i)
  {
    if n > 0 {
      RunIdleReset(h, tr, t0, n - 1);
      RunBlockedIdle(h, tr, t0, n - 1);
      RunSafety(h, tr, t0, n - 1);
      assert BlockedIdle(h[n - 1].s);
      if IdleReset(h[n - 1].s) {
        IdleResetStep(h, tr, n - 1);
      }
    }
  }

  // ---- Splits ----

  /** Too few servers linked means that the service has stopped fixing. */
  ghost predicate SplitSafe(st: Status) {
    TooFew(st) ==> st.mode == SPLIT
  }

  /** REHASH takes over the server settings without a check. */
  predicate RehashFits(st: Status, e: Event) {
    e.Rehash? ==>
      || st.mode == BURST || st.mode == SPLIT
      || !TooFew(st.(numServers := e.numServers, minPresent := e.minPresent))
  }

  /** It leaves a safe state safe exactly if it is refused, fixing has stopped already, or enough servers remain. */
  lemma RehashExact(st: Status, e: Event, now: nat)
    requires SplitSafe(st) && e.Rehash?
    ensures SplitSafe(StatusStep(st, e, now)) <==> RehashFits(st, e)
  {
  }

  const MOSTLY_LINKED := Status(RUN, 80, 100, 75, 0, true)

  /** Raising the demand from 75% to 90% of the servers, with 80% linked, goes unnoticed until the next check. */
  lemma RehashUnnoticed(now: nat)
    ensures var st := StatusStep(MOSTLY_LINKED, Rehash(100, 90), now);
            && SplitSafe(MOSTLY_LINKED) && TooFew(st) && st.mode == RUN
            && StatusStep(st, ServerLink(80), now).mode == SPLIT
  {
  }

  lemma StatusStepSafe(st: Status, e: Event, now: nat)
    requires RehashFits(st, e)
    requires SplitSafe(st) || (e.ServerLink? || (e.SetNumServers? && st.mode != BURST))
    ensures SplitSafe(StatusStep(st, e, now))
  {
  }

  /**
   * From the first check on, every state with too few servers is in SPLIT, as long as the settings for that are fixed,
   * or no REHASH asks for more servers than are linked.
   */
  lemma {:induction false} RunSplitSafe(h: seq<Sys>, tr: seq<Stamp>, i: nat, n: nat)
    requires Run(h, tr) && i < n <= |tr|
    requires tr[i].e.ServerLink?
    requires forall k | i < k < n :: RehashFits(h[k].st, tr[k].e)
    ensures SplitSafe(h[n].st)
    decreases n
  {
    assert Linked(h, tr, n - 1);
    if i < n - 1 {
      RunSplitSafe(h, tr, i, n - 1);
    }
    StatusStepSafe(h[n - 1].st, tr[n - 1].e, tr[n - 1].now);
  }

  /** What can lead from one state of the service to another. */
  lemma StatusMoves(st: Status, e: Event, now: nat)
    ensures var st' := StatusStep(st, e, now);
            && (st.mode == SPLIT ==>
                  st'.mode == SPLIT || (st'.mode == BURST && !TooFew(st') && (e.ServerLink? || e.SetNumServers?)))
            && (st.mode == BURST ==>
                  st'.mode == BURST || (st'.mode == SPLIT && TooFew(st')) || (st'.mode == RUN && e.BurstComplete?))
  {
  }

  ghost predicate Recovered(h: seq<Sys>, tr: seq<Stamp>, i: nat, k: int, n: nat) {
    i <= k < n < |h| && n <= |tr| && h[k + 1].st.mode == BURST && !TooFew(h[k + 1].st) && h[k].st.mode == SPLIT
  }

  ghost predicate BurstIn(tr: seq<Stamp>, k: int, l: int, n: nat) {
    0 <= k < l < n <= |tr| && tr[l].e.BurstComplete?
  }

  /** After a split nothing runs again until enough servers have linked and, after that, a burst has completed. */
  lemma {:induction false} RunNeedsRecovery(h: seq<Sys>, tr: seq<Stamp>, i: nat, n: nat)
    requires Run(h, tr) && i <= n <= |tr| && h[i].st.mode == SPLIT
    ensures h[n].st.mode != INIT
    ensures h[n].st.mode == BURST ==> exists k :: Recovered(h, tr, i, k, n)
    ensures h[n].st.mode == RUN ==> exists k, l :: Recovered(h, tr, i, k, n) && BurstIn(tr, k, l, n)
    decreases n
  {
    if i < n {
      RunNeedsRecovery(h, tr, i, n - 1);
      assert Linked(h, tr, n - 1);
      StatusMoves(h[n - 1].st, tr[n - 1].e, tr[n - 1].now);
      if h[n - 1].st.mode == SPLIT {
        assert h[n].st.mode == BURST ==> Recovered(h, tr, i, n - 1, n);
      } else if h[n - 1].st.mode == BURST {
        var k :| Recovered(h, tr, i, k, n - 1);
        assert Recovered(h, tr, i, k, n);
        assert h[n].st.mode == RUN ==> BurstIn(tr, k, n - 1, n);
      } else {
        var k, l :| Recovered(h, tr, i, k, n - 1) && BurstIn(tr, k, l, n - 1);
        assert Recovered(h, tr, i, k, n) && BurstIn(tr, k, l, n);
      }
    }
  }

  /** Outside RUN no event queues a channel, tries to fix it or gives anybody ops. */
  lemma NothingOutsideRun(cfg: Settings, st: Status, s: Slice, e: Event, now: nat)
    requires st.mode != RUN
    ensures var s' := Step(cfg, st, s, e, now);
            && (s'.auto == s.auto || s'.auto.None?) && (s'.man == s.man || s'.man.None?)
            && (s'.Rec().last == s.Rec().last || s'.Rec().last == 0)
            && (s'.net == s.net || e.Roster?)
  {
    if e.OpMode? {
      ModeOFrame(cfg, st, s, e, now);
    }
  }
}
