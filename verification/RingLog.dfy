/**
 * The day rings refine the log of all awards: a sliding window of fourteen days. A day here is the service's own, from
 * one rotation to the next; it is the calendar's for every award that does not slip in before the day's rotation.
 */
module RingLog {
  import opened Config
  import opened ChanOps
  import opened Ranking
  import opened Chooser
  import opened Slices
  import opened Runs
  import opened Scoring

  /** The awards to an account logged for day d. */
  function Awards(log: seq<Round>, a: Acct, d: int): nat {
    if log == [] then 0
    else
      var x := log[|log| - 1];
      Awards(log[..|log| - 1], a, d) + (if a in x.awarded && x.day == d then 1 else 0)
  }

  /** The awards to an account logged for day `today` and the thirteen days before it. */
  function Recent(log: seq<Round>, a: Acct, today: int): nat {
    if log == [] then 0
    else
      var x := log[|log| - 1];
      Recent(log[..|log| - 1], a, today) + (if a in x.awarded && today - DAYSAMPLES < x.day <= today then 1 else 0)
  }

  function RoundsOn(log: seq<Round>, d: int): nat {
    if log == [] then 0
    else RoundsOn(log[..|log| - 1], d) + (if log[|log| - 1].day == d then 1 else 0)
  }

  /** At most 288 award rounds in a day. */
  ghost predicate FewRounds(log: seq<Round>) {
    forall d :: RoundsOn(log, d) <= ROUNDS_PER_DAY
  }

  /** No round was logged for a day to come, or for a day after its own. */
  ghost predicate LoggedUpTo(log: seq<Round>, today: int, now: int) {
    forall i | 0 <= i < |log| :: log[i].day <= today && log[i].day <= DayOf(log[i].time) && log[i].time <= now
  }

  ghost predicate RecordRefines(r: OpRec, log: seq<Round>, a: Acct, today: int) {
    && r.Totalled()
    && (forall d | today - DAYSAMPLES < d <= today :: r.day[d % DAYSAMPLES] == Awards(log, a, d))
    && r.points == Recent(log, a, today)
    && (forall i | 0 <= i < |log| && a in log[i].awarded :: log[i].time <= r.last)
  }

  /** Every record holds its account's awards of the window; an account without a record has none. */
  ghost predicate Refines(ops: OpTable, log: seq<Round>, today: int) {
    && (forall a | a in ops :: RecordRefines(ops[a], log, a, today))
    && (forall a | a !in ops :: Recent(log, a, today) == 0)
  }

  // ---- Counting ----

  lemma {:induction false} AwardsAtMostRecent(log: seq<Round>, a: Acct, d: int, today: int)
    requires today - DAYSAMPLES < d <= today
    ensures Awards(log, a, d) <= Recent(log, a, today)
  {
    if log != [] {
      AwardsAtMostRecent(log[..|log| - 1], a, d, today);
    }
  }

  lemma {:induction false} AwardsAtMostRounds(log: seq<Round>, a: Acct, d: int)
    ensures Awards(log, a, d) <= RoundsOn(log, d)
  {
    if log != [] {
      AwardsAtMostRounds(log[..|log| - 1], a, d);
    }
  }

  /** Moving the window on by a day drops the awards of the oldest one. */
  lemma {:induction false} WindowShift(log: seq<Round>, a: Acct, today: int)
    requires forall i | 0 <= i < |log| :: log[i].day <= today
    ensures Recent(log, a, today + 1) == Recent(log, a, today) - Awards(log, a, today - DAYSAMPLES + 1)
  {
    if log != [] {
      WindowShift(log[..|log| - 1], a, today);
    }
  }

  lemma {:induction false} NothingRecent(log: seq<Round>, a: Acct, today: int)
    requires forall i | 0 <= i < |log| && a in log[i].awarded :: log[i].day <= today - DAYSAMPLES
    ensures Recent(log, a, today) == 0
  {
    if log != [] {
      NothingRecent(log[..|log| - 1], a, today);
    }
  }

  // ---- One event ----

  lemma AwardRefines(ops: OpTable, ops': OpTable, log: seq<Round>, today: int, now: nat, awarded: set<Acct>)
    requires Refines(ops, log, today) && LoggedUpTo(log, today, now)
    requires RoundsOn(log, today) < ROUNDS_PER_DAY
    requires awarded <= ops'.Keys
    requires forall a | a in awarded :: OnePoint(Base(ops, a, now), ops'[a], today % DAYSAMPLES, now)
    requires forall a | a !in awarded :: (a in ops' <==> a in ops) && (a in ops ==> ops'[a] == ops[a])
    ensures Refines(ops', log + [Round(today, now, awarded)], today)
  {
    var log' := log + [Round(today, now, awarded)];
    assert log'[..|log|] == log;
    forall a | a in ops'
      ensures RecordRefines(ops'[a], log', a, today)
    {
      if a in awarded {
        BaseRefines(ops, log, a, today, now);
        PointRefines(Base(ops, a, now), ops'[a], log, a, today, now, awarded);
      }
    }
  }

  lemma BaseRefines(ops: OpTable, log: seq<Round>, a: Acct, today: int, now: int)
    requires Refines(ops, log, today) && LoggedUpTo(log, today, now)
    ensures RecordRefines(Base(ops, a, now), log, a, today)
  {
    if a !in ops {
      NewOpTotalled(now);
      forall d | today - DAYSAMPLES < d <= today
        ensures Awards(log, a, d) == 0
      {
        AwardsAtMostRecent(log, a, d, today);
      }
    }
  }

  lemma PointRefines(r: OpRec, r': OpRec, log: seq<Round>, a: Acct, today: int, now: nat, awarded: set<Acct>)
    requires RecordRefines(r, log, a, today) && LoggedUpTo(log, today, now)
    requires RoundsOn(log, today) < ROUNDS_PER_DAY && a in awarded
    requires OnePoint(r, r', today % DAYSAMPLES, now)
    ensures RecordRefines(r', log + [Round(today, now, awarded)], a, today)
  {
    var log' := log + [Round(today, now, awarded)];
    var slot := today % DAYSAMPLES;
    assert log'[..|log|] == log;
    AwardsAtMostRounds(log, a, today);
    assert r.day[slot] == Awards(log, a, today) && Awards(log', a, today) == Awards(log, a, today) + 1;
    SumUpdate(r.day, slot, r.day[slot] + 1);
    forall d | today - DAYSAMPLES < d <= today
      ensures r'.day[d % DAYSAMPLES] == Awards(log', a, d)
    {
      if d != today {
        SameSlot(d, today);
      }
    }
  }

  /** Days of one window have different slots. */
  lemma SameSlot(d: int, today: int)
    requires today - DAYSAMPLES < d < today
    ensures d % DAYSAMPLES != today % DAYSAMPLES
  {
  }

  lemma RefreshRefines(ops: OpTable, ops': OpTable, log: seq<Round>, today: int, now: int)
    requires Refines(ops, log, today) && LoggedUpTo(log, today, now) && Refreshed(ops, ops', now)
    ensures Refines(ops', log, today)
  {
    forall a | a in ops'
      ensures RecordRefines(ops'[a], log, a, today)
    {
      BaseRefines(ops, log, a, today, now);
    }
  }

  /** What the rotation leaves in one record's ring on the day after `today`. */
  lemma ClearedRefines(r: OpRec, log: seq<Round>, a: Acct, today: int)
    requires RecordRefines(r, log, a, today)
    requires forall i | 0 <= i < |log| :: log[i].day <= today
    ensures RecordRefines(r.WithSlot((today + 1) % DAYSAMPLES, 0), log, a, today + 1)
  {
    var slot := (today + 1) % DAYSAMPLES;
    var r' := r.WithSlot(slot, 0);
    var oldest := today - DAYSAMPLES + 1;
    assert oldest % DAYSAMPLES == slot;
    SumUpdate(r.day, slot, 0);
    WindowShift(log, a, today);
    NoAwardsTomorrow(log, a, today);
    forall d | today + 1 - DAYSAMPLES < d <= today + 1
      ensures r'.day[d % DAYSAMPLES] == Awards(log, a, d)
    {
      if d <= today {
        SameSlot(d, today + 1);
      }
    }
  }

  lemma {:induction false} NoAwardsTomorrow(log: seq<Round>, a: Acct, today: int)
    requires forall i | 0 <= i < |log| :: log[i].day <= today
    ensures Awards(log, a, today + 1) == 0
  {
    if log != [] {
      NoAwardsTomorrow(log[..|log| - 1], a, today);
    }
  }

  /**
   * Forgetting is lossless: in the rotation to the next day, every record that is deleted, for whichever reason, has
   * no points left once the slot is cleared.
   */
  lemma ForgettingIsLossless(ops: OpTable, log: seq<Round>, today: int, now: nat, a: Acct)
    requires Refines(ops, log, today) && LoggedUpTo(log, today, now) && DayOf(now) == today + 1
    requires a in ops && a !in RotateOps(ops, (today + 1) % DAYSAMPLES, now)
    ensures ops[a].WithSlot((today + 1) % DAYSAMPLES, 0).points == 0
    ensures Recent(log, a, today + 1) == 0
  {
    ClearedRefines(ops[a], log, a, today);
    if now - DAYSAMPLES * DAY > ops[a].last {
      forall i | 0 <= i < |log| && a in log[i].awarded
        ensures log[i].day <= today + 1 - DAYSAMPLES
      {
      }
      NothingRecent(log, a, today + 1);
    }
  }

  lemma RotationRefines(ops: OpTable, log: seq<Round>, today: int, now: nat)
    requires Refines(ops, log, today) && LoggedUpTo(log, today, now) && DayOf(now) == today + 1
    ensures Refines(RotateOps(ops, (today + 1) % DAYSAMPLES, now), log, today + 1)
  {
    var ops' := RotateOps(ops, (today + 1) % DAYSAMPLES, now);
    forall a | a in ops'
      ensures RecordRefines(ops'[a], log, a, today + 1)
    {
      ClearedRefines(ops[a], log, a, today);
    }
    forall a | a !in ops'
      ensures Recent(log, a, today + 1) == 0
    {
      if a in ops {
        ForgettingIsLossless(ops, log, today, now, a);
      } else {
        WindowShift(log, a, today);
      }
    }
  }

  // ---- Runs ----

  /** Rotation fires once per calendar day, at any time of it. */
  ghost predicate DailyRun(h: seq<Sys>, tr: seq<Stamp>) {
    Run(h, tr) && forall n | 0 <= n < |tr| && tr[n].e.TimerRotate? :: DayOf(tr[n].now) == h[n].day + 1
  }

  ghost predicate ScoresGood(x: Sys, now: int) {
    && x.st.currentDay == x.day % DAYSAMPLES && x.day <= DayOf(now)
    && Refines(x.s.Ops(), x.log, x.day)
    && LoggedUpTo(x.log, x.day, now)
  }

  lemma NextDayIsSlot(today: int)
    ensures NextDay(today % DAYSAMPLES) == (today + 1) % DAYSAMPLES
  {
  }

  lemma AwardStep(x: Sys, p: Stamp)
    requires ScoresGood(x, p.now) && p.e.TimerPoints? && FewRounds(Next(x, p).log)
    ensures ScoresGood(Next(x, p), p.now)
  {
    var t := AwardTally(p.cfg, x.st, x.s, p.now);
    if Scorable(p.cfg, x.s) {
      AwardExact(p.cfg, x.st.chanServ, x.s.Ops(), x.s.net.value.users, x.st.currentDay, p.now);
    }
    assert Next(x, p).log[..|x.log|] == x.log;
    assert RoundsOn(Next(x, p).log, x.day) <= ROUNDS_PER_DAY;
    assert Next(x, p).s.Ops() == t.ops;
    AwardRefines(x.s.Ops(), t.ops, x.log, x.day, p.now, t.awarded);
  }

  lemma RotatedOps(x: Sys, p: Stamp)
    requires x.st.currentDay == x.day % DAYSAMPLES && p.e.TimerRotate?
    ensures Next(x, p).s.Ops() == RotateOps(x.s.Ops(), (x.day + 1) % DAYSAMPLES, p.now)
  {
    NextDayIsSlot(x.day);
    if x.s.table.None? {
      assert RotateOps(x.s.Ops(), (x.day + 1) % DAYSAMPLES, p.now) == map[];
    }
  }

  lemma RotationStep(x: Sys, p: Stamp)
    requires ScoresGood(x, p.now) && p.e.TimerRotate? && DayOf(p.now) == x.day + 1
    ensures ScoresGood(Next(x, p), p.now)
  {
    RotatedOps(x, p);
    RotationRefines(x.s.Ops(), x.log, x.day, p.now);
  }

  lemma ScoresStep(x: Sys, p: Stamp)
    requires ScoresGood(x, p.now) && FewRounds(Next(x, p).log)
    requires p.e.TimerRotate? ==> DayOf(p.now) == x.day + 1
    ensures ScoresGood(Next(x, p), p.now)
  {
    if p.e.TimerPoints? {
      AwardStep(x, p);
    } else if p.e.TimerRotate? {
      RotationStep(x, p);
    } else {
      OtherEventsRefresh(p.cfg, x.st, x.s, p.e, p.now);
      RefreshRefines(x.s.Ops(), Next(x, p).s.Ops(), x.log, x.day, p.now);
    }
  }

  /**
   * The rings refine the log in every reachable state: a cached total is the number of the account's awards of the
   * last fourteen days, whether or not its record was dropped and started anew in between.
   */
  lemma {:induction false} RingRefinesLog(h: seq<Sys>, tr: seq<Stamp>, t0: nat, n: nat)
    requires DailyRun(h, tr) && n <= |tr| && ScoresGood(h[0], t0)
    requires forall k | 0 <= k < |tr| :: t0 <= tr[k].now
    requires forall k | 0 <= k < |h| :: FewRounds(h[k].log)
    ensures ScoresGood(h[n], Clock(t0, tr, n))
  {
    if n > 0 {
      RingRefinesLog(h, tr, t0, n - 1);
      assert Linked(h, tr, n - 1);
      ScoresStep(h[n - 1], tr[n - 1]);
    }
  }

  /** The record of an account after the rotation to day `today`, if it has one; if not, there was nothing to keep. */
  ghost predicate Forgotten(ops: OpTable, ops': OpTable, log: seq<Round>, today: int, a: Acct)
    requires a in ops
  {
    var cleared := ops[a].WithSlot(today % DAYSAMPLES, 0);
    if a in ops' then ops'[a] == cleared else cleared.points == 0 && Recent(log, a, today) == 0
  }

  lemma RotationForgets(x: Sys, p: Stamp, a: Acct)
    requires ScoresGood(x, p.now) && p.e.TimerRotate? && DayOf(p.now) == x.day + 1 && a in x.s.Ops()
    ensures Forgotten(x.s.Ops(), Next(x, p).s.Ops(), x.log, Next(x, p).day, a)
  {
    RotatedOps(x, p);
    if a !in Next(x, p).s.Ops() {
      ForgettingIsLossless(x.s.Ops(), x.log, x.day, p.now, a);
    }
  }

  lemma StaysGood(x: Sys, t: int, now: int)
    requires ScoresGood(x, t) && t <= now
    ensures ScoresGood(x, now)
  {
  }

  /**
   * Over every run forgetting is lossless: a rotation drops only records without points left, of accounts without
   * awards in the window, and takes nothing from the others but the points of the day that leaves it.
   */
  lemma RunForgetsNothing(h: seq<Sys>, tr: seq<Stamp>, t0: nat, n: nat, a: Acct)
    requires DailyRun(h, tr) && n < |tr| && ScoresGood(h[0], t0)
    requires forall k | 0 <= k < |tr| :: t0 <= tr[k].now
    requires forall k | 0 <= k < |h| :: FewRounds(h[k].log)
    requires tr[n].e.TimerRotate? && a in h[n].s.Ops()
    ensures Forgotten(h[n].s.Ops(), h[n + 1].s.Ops(), h[n].log, h[n + 1].day, a)
  {
    RingRefinesLog(h, tr, t0, n);
    StaysGood(h[n], Clock(t0, tr, n), tr[n].now);
    RotationForgets(h[n], tr[n], a);
    assert Linked(h, tr, n);
  }

  /**
   * Which records a rotation keeps: those with points left or first seen no more than 310 seconds ago, if they were
   * last seen in the last fourteen days.
   */
  lemma RotationKeeps(ops: OpTable, slot: Slot, now: int, a: Acct)
    ensures a in RotateOps(ops, slot, now) <==>
            a in ops && (Sum(ops[a].day[slot := 0]) > 0 || ops[a].first >= now - 310) && ops[a].last >= now - 14 * 86400
  {
  }

  /**
   * Over every run nothing is kept for too long: after a rotation an account has a record exactly if it had one before,
   * was last seen in the last fourteen days, and has awards in the window or was first seen just now.
   */
  lemma RunPrunes(h: seq<Sys>, tr: seq<Stamp>, t0: nat, n: nat, a: Acct)
    requires DailyRun(h, tr) && n < |tr| && ScoresGood(h[0], t0)
    requires forall k | 0 <= k < |tr| :: t0 <= tr[k].now
    requires forall k | 0 <= k < |h| :: FewRounds(h[k].log)
    requires tr[n].e.TimerRotate?
    ensures a in h[n + 1].s.Ops() <==>
            && a in h[n].s.Ops()
            && (Recent(h[n].log, a, h[n + 1].day) > 0 || h[n].s.Ops()[a].first >= tr[n].now - 310)
            && h[n].s.Ops()[a].last >= tr[n].now - 14 * 86400
  {
    RingRefinesLog(h, tr, t0, n);
    StaysGood(h[n], Clock(t0, tr, n), tr[n].now);
    RotationPrunes(h[n], tr[n], a);
    assert Linked(h, tr, n);
  }

  lemma RotationPrunes(x: Sys, p: Stamp, a: Acct)
    requires ScoresGood(x, p.now) && p.e.TimerRotate? && DayOf(p.now) == x.day + 1
    ensures a in Next(x, p).s.Ops() <==>
            && a in x.s.Ops()
            && (Recent(x.log, a, Next(x, p).day) > 0 || x.s.Ops()[a].first >= p.now - 310)
            && x.s.Ops()[a].last >= p.now - 14 * 86400
  {
    RotatedOps(x, p);
    RotationKeeps(x.s.Ops(), (x.day + 1) % DAYSAMPLES, p.now, a);
    if a in x.s.Ops() {
      var r, slot := x.s.Ops()[a], (x.day + 1) % DAYSAMPLES;
      ClearedRefines(r, x.log, a, x.day);
      assert Sum(r.day[slot := 0]) == r.WithSlot(slot, 0).points == Recent(x.log, a, x.day + 1);
    }
  }

  /** Totals stay between 0 and the maximum score, and no slot overflows its 16 bits. */
  lemma TotalsBounded(ops: OpTable, log: seq<Round>, today: int, a: Acct)
    requires Refines(ops, log, today) && FewRounds(log) && a in ops
    ensures 0 <= ops[a].points <= MAX_SCORE
    ensures forall d: Slot :: 0 <= ops[a].day[d] <= ROUNDS_PER_DAY
  {
    forall d: Slot
      ensures 0 <= ops[a].day[d] <= ROUNDS_PER_DAY
    {
      var e := today - (today - d) % DAYSAMPLES;
      assert e % DAYSAMPLES == d;
      AwardsAtMostRounds(log, a, e);
    }
    SumBounded(ops[a].day, 0, ROUNDS_PER_DAY);
  }

  // ---- A service that starts without scores ----

  /** What the constructor of the service leaves of each channel. */
  function Fresh(numServers: nat, minPresent: nat, t0: nat): Sys {
    Sys(Status(INIT, 0, numServers, minPresent, SlotOf(t0), false), Slice(None, None, None, None, None, None),
        DayOf(t0), [])
  }

  /** From a fresh service every series of events makes a run, and in all its states the rings refine the log. */
  lemma FreshRunRefines(tr: seq<Stamp>, t0: nat, numServers: nat, minPresent: nat) returns (h: seq<Sys>)
    requires forall n | 0 <= n < |tr| :: DAY <= tr[n].now && t0 <= tr[n].now
    requires forall m, n | 0 <= m <= n < |tr| :: tr[m].now <= tr[n].now
    ensures GoodRun(h, tr, t0) && h[0] == Fresh(numServers, minPresent, t0)
    ensures DailyRun(h, tr) && (forall k | 0 <= k < |h| :: FewRounds(h[k].log)) ==>
              forall n | 0 <= n <= |tr| :: ScoresGood(h[n], Clock(t0, tr, n))
  {
    h := EveryTraceRuns(Fresh(numServers, minPresent, t0), tr);
    if DailyRun(h, tr) && forall k | 0 <= k < |h| :: FewRounds(h[k].log) {
      forall n | 0 <= n <= |tr|
        ensures ScoresGood(h[n], Clock(t0, tr, n))
      {
        RingRefinesLog(h, tr, t0, n);
      }
    }
  }

  // ---- The calendar ----

  /** The same rounds, each logged for the calendar day of its time. */
  function ByCalendar(log: seq<Round>): seq<Round> {
    seq(|log|, i requires 0 <= i < |log| => log[i].(day := DayOf(log[i].time)))
  }

  /** Award rounds are run by a timer that is re-armed for five minutes later. */
  ghost predicate Spaced(log: seq<Round>) {
    forall i | 0 <= i < |log| - 1 :: log[i].time + POINTS_UPDATE_TIME <= log[i + 1].time
  }

  /** At most 288 rounds fit into a calendar day. */
  lemma {:induction false} RoundsPerDay(log: seq<Round>, d: int)
    requires Spaced(log) && ByCalendar(log) == log
    ensures RoundsOn(log, d) <= ROUNDS_PER_DAY
    ensures log != [] && log[|log| - 1].day == d ==>
            log[|log| - 1].time >= d * DAY + POINTS_UPDATE_TIME * (RoundsOn(log, d) - 1)
    ensures log != [] && log[|log| - 1].day < d ==> RoundsOn(log, d) == 0
  {
    if log != [] {
      var k := |log| - 1;
      var rest := log[..k];
      assert ByCalendar(log)[k] == log[k];
      assert forall i | 0 <= i < k :: ByCalendar(log)[i] == log[i] && ByCalendar(rest)[i] == ByCalendar(log)[i];
      RoundsPerDay(rest, d);
      if rest != [] {
        assert rest[k - 1].time + POINTS_UPDATE_TIME <= log[k].time;
      }
    }
  }

  /** Every award round of the run comes after the rotation of its day. */
  ghost predicate OnTime(h: seq<Sys>, tr: seq<Stamp>)
    requires |h| == |tr| + 1
  {
    forall k | 0 <= k < |tr| && tr[k].e.TimerPoints? :: DayOf(tr[k].now) == h[k].day
  }

  lemma {:induction false} OnTimeIsCalendar(h: seq<Sys>, tr: seq<Stamp>, n: nat)
    requires Run(h, tr) && n <= |tr| && OnTime(h, tr) && ByCalendar(h[0].log) == h[0].log
    ensures ByCalendar(h[n].log) == h[n].log
  {
    if n > 0 {
      OnTimeIsCalendar(h, tr, n - 1);
      assert Linked(h, tr, n - 1);
      var log := h[n - 1].log;
      assert forall i | 0 <= i < |log| :: ByCalendar(log)[i] == log[i];
    }
  }

  /**
   * With rotation first thing every day, slot d mod 14 holds the awards of calendar day d, and a total is the number of
   * awards of the current and the previous thirteen calendar days.
   */
  lemma RingRefinesCalendar(h: seq<Sys>, tr: seq<Stamp>, t0: nat, n: nat)
    requires DailyRun(h, tr) && n <= |tr| && ScoresGood(h[0], t0)
    requires OnTime(h, tr) && ByCalendar(h[0].log) == h[0].log
    requires forall k | 0 <= k < |tr| :: t0 <= tr[k].now
    requires forall k | 0 <= k < |h| :: FewRounds(h[k].log)
    ensures Refines(h[n].s.Ops(), ByCalendar(h[n].log), h[n].day)
  {
    RingRefinesLog(h, tr, t0, n);
    OnTimeIsCalendar(h, tr, n);
  }

  /** There are few enough rounds in every state, if they are five minutes apart and come on their days. */
  lemma SpacedRoundsAreFew(h: seq<Sys>, tr: seq<Stamp>, k: nat)
    requires Run(h, tr) && k < |h| && OnTime(h, tr) && ByCalendar(h[0].log) == h[0].log && Spaced(h[k].log)
    ensures FewRounds(h[k].log)
  {
    OnTimeIsCalendar(h, tr, k);
    forall d
      ensures RoundsOn(h[k].log, d) <= ROUNDS_PER_DAY
    {
      RoundsPerDay(h[k].log, d);
    }
  }

  // ---- When the calendar is not kept ----

  /** A point given at time `now` keeps every ring right by the calendar while the service's day is `today`. */
  ghost predicate AwardOnCalendar(today: int, now: nat) {
    forall r: OpRec, log: seq<Round>, a: Acct ::
      RecordRefines(r, log, a, today) && LoggedUpTo(log, today, now) && RoundsOn(log, today) < ROUNDS_PER_DAY ==>
        RecordRefines(r.PlusPoint(today % DAYSAMPLES).(last := now), log + [Round(DayOf(now), now, {a})], a, today)
  }

  /**
   * The points timer may fire at midnight just before the rotation does: that award goes to yesterday's slot. An
   * award keeps the rings right by the calendar exactly when it comes on the day of the last rotation.
   */
  lemma AwardExactlyOnItsDay(today: int, now: nat)
    ensures AwardOnCalendar(today, now) <==> DayOf(now) == today
  {
    if DayOf(now) == today {
      forall r: OpRec, log: seq<Round>, a: Acct |
        RecordRefines(r, log, a, today) && LoggedUpTo(log, today, now) && RoundsOn(log, today) < ROUNDS_PER_DAY
        ensures RecordRefines(r.PlusPoint(today % DAYSAMPLES).(last := now),
                              log + [Round(DayOf(now), now, {a})], a, today)
      {
        PointIsOnePoint(r, today % DAYSAMPLES, now);
        PointRefines(r, r.PlusPoint(today % DAYSAMPLES).(last := now), log, a, today, now, {a});
      }
    } else {
      var r, none: seq<Round> := NewOp(now), [];
      var log := none + [Round(DayOf(now), now, {1})];
      NewOpTotalled(now);
      assert RecordRefines(r, none, 1, today) && LoggedUpTo(none, today, now) && RoundsOn(none, today) < ROUNDS_PER_DAY;
      assert log[..0] == [];
      assert Awards(log, 1, today) == 0;
      assert !RecordRefines(r.PlusPoint(today % DAYSAMPLES).(last := now), log, 1, today) by {
        assert r.PlusPoint(today % DAYSAMPLES).day[today % DAYSAMPLES] == 1;
      }
    }
  }

  /** A ring that holds one award of day d, and nothing else. */
  function OnlyOn(d: int, last: int): OpRec {
    OpRec(0, 0, last, NO_POINTS[d % DAYSAMPLES := 1], 1)
  }

  /** The slots the rotation leaves behind are right for the new day for every ring iff that day is the next one. */
  ghost predicate RotationExact(today: int, next: int) {
    forall r: OpRec, log: seq<Round>, a: Acct ::
      RecordRefines(r, log, a, today) && (forall i | 0 <= i < |log| :: log[i].day <= today) ==>
        RecordRefines(r.WithSlot((today + 1) % DAYSAMPLES, 0), log, a, next)
  }

  lemma OneAwardRefines(today: int, d: nat, a: Acct)
    requires today - DAYSAMPLES < d <= today
    ensures RecordRefines(OnlyOn(d, d * DAY), [Round(d, d * DAY, {a})], a, today)
  {
    var log := [Round(d, d * DAY, {a})];
    assert log[..0] == [];
    SumZeros(NO_POINTS);
    SumUpdate(NO_POINTS, d % DAYSAMPLES, 1);
    forall e | today - DAYSAMPLES < e <= today
      ensures OnlyOn(d, d * DAY).day[e % DAYSAMPLES] == Awards(log, a, e)
    {
      if e < d {
        SameSlot(e, d);
      } else if d < e {
        SameSlot(d, e);
      }
    }
  }

  /**
   * Rotating on any later day than the next, or twice on the same day (as the owner's DEBUG ROTATE does), breaks
   * the window: it is right for every record exactly when the new day is the one after the old.
   */
  lemma RotationExactlyDaily(today: nat, next: nat)
    requires DAYSAMPLES <= today <= next
    ensures RotationExact(today, next) <==> next == today + 1
  {
    if next == today + 1 {
      forall r: OpRec, log: seq<Round>, a: Acct |
        RecordRefines(r, log, a, today) && (forall i | 0 <= i < |log| :: log[i].day <= today)
        ensures RecordRefines(r.WithSlot((today + 1) % DAYSAMPLES, 0), log, a, next)
      {
        ClearedRefines(r, log, a, today);
      }
    } else {
      // The award of the day that is wrongly dropped (same day) or wrongly kept (a day was skipped).
      var d: nat := if next == today then today - DAYSAMPLES + 1
                    else if next <= today + DAYSAMPLES then next - DAYSAMPLES
                    else today;
      WrongDay(today, next, d);
      WrongRotation(today, next, d);
    }
  }

  lemma OnlyOnCleared(d: int, last: int, slot: Slot)
    ensures OnlyOn(d, last).WithSlot(slot, 0).points == if d % DAYSAMPLES == slot then 0 else 1
  {
    SumZeros(NO_POINTS);
    SumUpdate(NO_POINTS, d % DAYSAMPLES, 1);
    SumUpdate(NO_POINTS[d % DAYSAMPLES := 1], slot, 0);
  }

  lemma RecentOne(d: nat, a: Acct, today: int)
    ensures Recent([Round(d, d * DAY, {a})], a, today) == if today - DAYSAMPLES < d <= today then 1 else 0
  {
    assert [Round(d, d * DAY, {a})][..0] == [];
  }

  lemma WrongDay(today: nat, next: nat, d: nat)
    requires DAYSAMPLES <= today <= next != today + 1
    requires d == if next == today then today - DAYSAMPLES + 1
                  else if next <= today + DAYSAMPLES then next - DAYSAMPLES
                  else today
    ensures today - DAYSAMPLES < d <= today
    ensures d % DAYSAMPLES == (today + 1) % DAYSAMPLES <==> next == today
    ensures next - DAYSAMPLES < d <= next <==> next == today
  {
    if next != today {
      SameSlot(d, today + 1);
    }
  }

  lemma WrongRotation(today: nat, next: nat, d: nat)
    requires today - DAYSAMPLES < d <= today
    requires (d % DAYSAMPLES == (today + 1) % DAYSAMPLES) == (next - DAYSAMPLES < d <= next)
    ensures !RotationExact(today, next)
  {
    var log := [Round(d, d * DAY, {1})];
    var r := OnlyOn(d, d * DAY);
    OneAwardRefines(today, d, 1);
    OnlyOnCleared(d, d * DAY, (today + 1) % DAYSAMPLES);
    RecentOne(d, 1, next);
    assert !RecordRefines(r.WithSlot((today + 1) % DAYSAMPLES, 0), log, 1, next);
  }
}
