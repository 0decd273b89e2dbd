/**
 * The effect of every event on one channel. A channel's slice of the service's state is its fix record, its entries
 * in the two queues and in the temporary block list, its score table, and its image on the network. No event lets
 * one channel's slice influence another's; the class in Engine.dfy is proved to act on each slice as stated here.
 */
module Slices {
  import opened Config
  import opened ChanOps
  import opened Ranking
  import opened Chooser
  import Threshold
  import TopOps

  /** The fields of sqlChannel that fixing reads: 0 in `start` and `last` means no attempt was made. */
  datatype FixRec = FixRec(start: int, last: int, maxScore: int, modesRemoved: bool, blocked: bool, alert: bool,
                           inSQL: bool)

  const NEW_REC := FixRec(0, 0, 0, false, false, false, false)

  datatype Slice = Slice(
    rec: Option<FixRec>,
    auto: Option<int>,
    man: Option<int>,
    temp: Option<int>,
    net: Option<Chan>,
    table: Option<OpTable>)
  {
    function Ops(): OpTable {
      table.GetOr(map[])
    }

    function Rec(): FixRec {
      rec.GetOr(NEW_REC)
    }

    predicate BeingFixed() {
      auto.Some? || man.Some?
    }

    /** The table after an operation that may have inserted into it; a channel enters the map with its first record. */
    function WithOps(ops: OpTable): Slice {
      if table.None? && ops == map[] then this else this.(table := Some(ops))
    }
  }

  /** What the whole service shares: its state, the server count, the day slot and the channel service link. */
  datatype Mode = BURST | RUN | SPLIT | INIT
  datatype Status = Status(mode: Mode, linked: nat, numServers: nat, minPresent: nat, currentDay: Slot, chanServ: bool)

  // ---- One attempt to fix ----

  function Elapsed(rec: FixRec, auto: bool, now: int): int {
    if auto then now - rec.start else now - (rec.start + CHANFIX_DELAY)
  }

  function Interval(auto: bool): int {
    if auto then AUTOFIX_INTERVAL else CHANFIX_INTERVAL
  }

  function Window(auto: bool): int {
    if auto then AUTOFIX_MAXIMUM else CHANFIX_MAXIMUM + CHANFIX_DELAY
  }

  datatype Attempt = Attempt(s: Slice, fixed: bool, opped: seq<User>)

  function Stamped(rec: FixRec, now: int): FixRec {
    rec.(start := if rec.start == 0 then now else rec.start, last := now)
  }

  function WithTop(rec: FixRec, ranking: seq<Ranked>): FixRec {
    if ranking == [] then rec else rec.(maxScore := ranking[0].points)
  }

  ghost function FixAttempt(s: Slice, auto: bool, now: int): Attempt {
    var s := s.(rec := Some(Stamped(s.Rec(), now)));
    if s.net.None? then Attempt(s, true, [])
    else AttemptOn(s.(rec := Some(WithTop(s.Rec(), MyOps(s.Ops())))), auto, now)
  }

  /** An attempt on an existing channel whose record has been stamped and given its top score. */
  ghost function AttemptOn(s: Slice, auto: bool, now: int): Attempt
    requires s.net.Some? && s.rec.Some?
  {
    if s.Rec().maxScore <= MIN_FIXABLE then Attempt(s, false, [])
    else if CountOps(s.net.value.users) >= NUM_OPPED then Attempt(s, true, [])
    else GiveOps(s, auto, now)
  }

  /** The part of an attempt past its early exits. */
  ghost function GiveOps(s: Slice, auto: bool, now: int): Attempt
    requires s.net.Some? && s.rec.Some? && CountOps(s.net.value.users) < NUM_OPPED
  {
    var users := s.net.value.users;
    Opping(s, auto, Chosen(MyOps(s.Ops()), users, Threshold.MinScore(s.Rec().maxScore, Elapsed(s.Rec(), auto, now)),
                           NUM_OPPED - CountOps(users)))
  }

  /** Once the clients to op are known: an automatic fix that finds no one lifts the channel's modes, once. */
  function Opping(s: Slice, auto: bool, toOp: seq<User>): Attempt
    requires s.net.Some? && s.rec.Some?
  {
    var users := s.net.value.users;
    var cur := CountOps(users);
    if toOp == [] && (!auto || cur == 0) then
      if auto && !s.Rec().modesRemoved && s.net.value.restricted
      then Attempt(s.(net := Some(Chan(users, false)), rec := Some(s.Rec().(modesRemoved := true))), false, [])
      else Attempt(s, false, [])
    else
      Attempt(if toOp == [] then s else s.(net := Some(s.net.value.(users := OpUsers(users, Ids(toOp))))),
              |toOp| + cur >= |users| || |toOp| + cur >= NUM_OPPED, toOp)
  }

  // ---- The queues ----

  function Cleared(s: Slice): Slice {
    if s.rec.Some? then s.(rec := Some(s.rec.value.(start := 0, last := 0))) else s
  }

  function Due(s: Slice, auto: bool): Option<int> {
    if auto then s.auto else s.man
  }

  function WithDue(s: Slice, auto: bool, due: Option<int>): Slice {
    if auto then s.(auto := due) else s.(man := due)
  }

  /** An entry that has come due is tried again only an interval after the last attempt. */
  ghost function TryFix(s: Slice, auto: bool, now: int): Attempt {
    if now - s.Rec().last >= Interval(auto) then FixAttempt(s, auto, now) else Attempt(s, false, [])
  }

  /** A fixed channel, or one whose window has passed, leaves the queue; its times are reset only if it still exists. */
  function Settle(a: Attempt, auto: bool, now: int): Slice {
    if a.fixed || now - a.s.Rec().start > Window(auto) then
      if a.s.net.None? then WithDue(a.s, auto, None) else Cleared(WithDue(a.s, auto, None))
    else WithDue(a.s, auto, Some(now + Interval(auto)))
  }

  /** One queue entry of processQueue that has come due. */
  ghost function ProcessEntry(s: Slice, auto: bool, now: int): Slice {
    Settle(TryFix(s.(rec := Some(s.Rec())), auto, now), auto, now)
  }

  ghost function PassQueue(s: Slice, auto: bool, now: int): Slice {
    if Due(s, auto).Some? && Due(s, auto).value <= now then ProcessEntry(s, auto, now) else s
  }

  ghost function Pass(s: Slice, now: int): Slice {
    PassQueue(PassQueue(s, true, now), false, now)
  }

  /** autoFix's guards: a large enough, opless, scored channel without a service client that is left alone so far. */
  ghost predicate Scannable(cfg: Settings, s: Slice) {
    && s.net.Some? && |s.net.value.users| >= cfg.minClients && !s.BeingFixed() && s.temp.None?
    && !HasService(s.net.value.users) && CountOps(s.net.value.users) == 0 && MyOps(s.Ops()) != []
  }

  /** autoFix on one channel: it enters the automatic queue if its top score is high enough. */
  ghost function Scan(cfg: Settings, s: Slice, now: int): Slice {
    if !Scannable(cfg, s) then s
    else
      var s := s.(rec := Some(WithTop(s.Rec(), MyOps(s.Ops()))));
      if s.Rec().maxScore > MIN_FIXABLE && !s.Rec().blocked then s.(auto := Some(now)) else s
  }

  function StopFixing(cfg: Settings, s: Slice, force: bool): Slice {
    var stopAuto := (cfg.stopAutoFixOnOp || force) && s.auto.Some?;
    var stopMan := (cfg.stopChanFixOnOp || force) && s.man.Some?;
    var s := if stopAuto then s.(auto := None) else s;
    var s := if stopMan then s.(man := None) else s;
    if stopAuto || stopMan then Cleared(s) else s
  }

  /** Deops everybody, lifts the modes and queues the first attempt. */
  function ManualFix(s: Slice, now: int): Slice {
    if s.net.None? then s
    else
      var s := s.(net := Some(Chan(DeopAll(s.net.value.users), false)), rec := Some(s.Rec()));
      if s.man.Some? then s else s.(man := Some(now + CHANFIX_DELAY))
  }

  function Inserted(s: Slice, sqlOk: bool): Slice {
    s.(rec := Some(s.Rec().(inSQL := s.Rec().inSQL || sqlOk)))
  }

  // ---- Commands ----

  /** The guards that the commands for a manual or simulated fix share. */
  ghost predicate Fixable(st: Status, s: Slice) {
    st.mode == RUN && s.net.Some? && !HasService(s.net.value.users) && MyOps(s.Ops()) != [] && s.man.None?
  }

  ghost predicate Orderable(cfg: Settings, st: Status, s: Slice) {
    cfg.enableChanFix && Fixable(st, s)
  }

  /** SIMULATE leaves only a record with the current top score; the simulation itself touches no slice. */
  ghost function SimulateCommand(st: Status, s: Slice, sqlOk: bool): Slice {
    if !Fixable(st, s) then s else OrderSimulation(s.(rec := Some(WithTop(s.Rec(), MyOps(s.Ops())))), sqlOk)
  }

  /** SIMULATE runs its simulation. */
  ghost predicate Simulated(st: Status, s: Slice) {
    Fixable(st, s) && MyOps(s.Ops())[0].points > MIN_FIXABLE && !s.Rec().blocked && s.temp.None?
  }

  /** SIMULATE once the channel's record is up to date. */
  function OrderSimulation(s: Slice, sqlOk: bool): Slice {
    if s.Rec().maxScore <= MIN_FIXABLE || s.Rec().blocked || s.temp.Some? then s else Inserted(s, sqlOk)
  }

  ghost function ChanfixCommand(cfg: Settings, st: Status, s: Slice, override: bool, sqlOk: bool, now: int): Slice {
    if !Orderable(cfg, st, s) then s
    else OrderFix(s.(rec := Some(WithTop(s.Rec(), MyOps(s.Ops())))), override, sqlOk, now)
  }

  /** CHANFIX once the channel's record is up to date. */
  function OrderFix(s: Slice, override: bool, sqlOk: bool, now: int): Slice {
    if s.Rec().maxScore <= MIN_FIXABLE || (s.auto.Some? && !override) then s
    else
      var s := s.(auto := None);
      if s.Rec().blocked || (s.temp.Some? && !override) || (s.Rec().alert && !override) then s
      else ManualFix(Inserted(s, sqlOk), now)
  }

  ghost function RequestOpCommand(cfg: Settings, st: Status, s: Slice, asker: Acct, lastFix: int, nan: int,
                                  sqlOk: bool, now: int): Slice
  {
    TopOps.MaxScoreIsMax(MyOps(s.Ops()));
    if !TopOps.IsHighScore(MyOps(s.Ops()), asker, nan, cfg) || !Orderable(cfg, st, s) then s
    else TimedRequest(cfg, s, lastFix, sqlOk, now)
  }

  /** REQUESTOP past the guards about the asker and the channel: a fix may not follow the last one too soon. */
  ghost function TimedRequest(cfg: Settings, s: Slice, lastFix: int, sqlOk: bool, now: int): Slice {
    if ToUnsigned(now - lastFix) < cfg.minRequestOpTime then s.(rec := Some(s.Rec()))
    else RequestFix(s.(rec := Some(WithTop(s.Rec(), MyOps(s.Ops())))), sqlOk, now)
  }

  /** REQUESTOP once the channel's record is up to date. */
  function RequestFix(s: Slice, sqlOk: bool, now: int): Slice {
    if s.Rec().maxScore <= MIN_FIXABLE || s.auto.Some? || s.temp.Some? || s.Rec().blocked || s.Rec().alert then s
    else ManualFix(Inserted(s, sqlOk), now)
  }

  function BlockCommand(cfg: Settings, s: Slice, sqlOk: bool): Slice {
    if !cfg.enableBlocking then s
    else if s.Rec().blocked then s.(rec := Some(s.Rec()))
    else AbortFix(cfg, Inserted(s.(rec := Some(s.Rec().(blocked := true))), sqlOk))
  }

  /** BLOCK's last part: fixes in progress are aborted, if the channel is on the network. */
  function AbortFix(cfg: Settings, s: Slice): Slice {
    var s := if s.net.Some? && s.man.Some? then StopFixing(cfg, s, true) else s;
    if s.net.Some? && s.auto.Some? then StopFixing(cfg, s, true) else s
  }

  function UnblockCommand(cfg: Settings, s: Slice, sqlOk: bool): Slice {
    if !cfg.enableBlocking || s.rec.None? || !s.Rec().blocked then s
    else Inserted(s.(rec := Some(s.Rec().(blocked := false))), sqlOk)
  }

  function AlertCommand(s: Slice, alert: bool, sqlOk: bool): Slice {
    if !alert && (s.rec.None? || !s.rec.value.alert) then s
    else if s.Rec().alert == alert then s.(rec := Some(s.Rec()))
    else Inserted(s.(rec := Some(s.Rec().(alert := alert))), sqlOk)
  }

  // ---- Scores ----

  /** gotOpped: starts or refreshes a record without awarding points. */
  function GotOpped(cfg: Settings, chanServ: bool, ops: OpTable, u: User, now: int): OpTable {
    if cfg.clientNeedsIdent && !u.ident then ops
    else if u.account in ops then ops[u.account := ops[u.account].(last := now, seen := u.mask)]
    else if |ops| >= MAXOPCOUNT || (|ops| == 0 && !chanServ) then ops
    else ops[u.account := NewOp(now).(seen := u.mask)]
  }

  datatype Tally = Tally(ops: OpTable, scored: set<Acct>, awarded: set<Acct>)

  function GivePoints(cfg: Settings, chanServ: bool, ops: OpTable, u: User, today: Slot, now: int): (OpTable, bool) {
    var ops := if u.account in ops then ops else GotOpped(cfg, chanServ, ops, u, now);
    if (cfg.clientNeedsIdent && !u.ident) || u.account !in ops then (ops, false)
    else (ops[u.account := ops[u.account].PlusPoint(today).(last := now)], true)
  }

  /** giveAllOpsPoints on one channel's user list; `awarded` is the log of this round. */
  function AwardUsers(cfg: Settings, chanServ: bool, ops: OpTable, users: seq<User>, today: Slot, now: int): Tally {
    if users == [] then Tally(ops, {}, {})
    else
      var t := AwardUsers(cfg, chanServ, ops, users[..|users| - 1], today, now);
      var u := users[|users| - 1];
      if !u.opped || u.account == NO_ACCOUNT || u.account in t.scored then t
      else
        var (ops', given) := GivePoints(cfg, chanServ, t.ops, u, today, now);
        Tally(ops', t.scored + {u.account}, if given then t.awarded + {u.account} else t.awarded)
  }

  function Scorable(cfg: Settings, s: Slice): bool {
    s.net.Some? && !HasService(s.net.value.users) && |s.net.value.users| >= cfg.minClients && !s.BeingFixed()
  }

  function AwardTally(cfg: Settings, st: Status, s: Slice, now: int): Tally {
    if Scorable(cfg, s) then AwardUsers(cfg, st.chanServ, s.Ops(), s.net.value.users, st.currentDay, now)
    else Tally(s.Ops(), {}, {})
  }

  function Award(cfg: Settings, st: Status, s: Slice, now: int): Slice {
    s.WithOps(AwardTally(cfg, st, s, now).ops)
  }

  function NextDay(today: Slot): Slot {
    if today >= DAYSAMPLES - 1 then 0 else today + 1
  }

  function SlotOf(now: int): Slot
    requires now >= 0
  {
    DayOf(now) % DAYSAMPLES
  }

  /** Whether rotateDB keeps a record after clearing its slot. */
  predicate Keeps(r: OpRec, now: int) {
    !((r.points <= 0 && now - (POINTS_UPDATE_TIME + 10) > r.first) || now - DAYSAMPLES * DAY > r.last)
  }

  function RotateOps(ops: OpTable, slot: Slot, now: int): OpTable {
    map a | a in ops && Keeps(ops[a].WithSlot(slot, 0), now) :: ops[a].WithSlot(slot, 0)
  }

  /** deleteChannelRecord drops the record unless it is in the database and the row's deletion succeeds. */
  function Rotate(s: Slice, today: Slot, sqlOk: bool, now: int): Slice {
    if s.table.None? then s
    else
      var s := s.(table := Some(RotateOps(s.Ops(), NextDay(today), now)));
      if s.Ops() == map[] && s.rec.Some? && !s.Rec().blocked && !s.Rec().alert && !(s.Rec().inSQL && sqlOk)
      then s.(rec := None) else s
  }

  // ---- Mode changes seen on the network ----

  datatype Target = Target(opped: bool, user: User)

  function TempBlocked(s: Slice, now: int): Slice {
    if s.temp.None? then s.(temp := Some(now)) else s
  }

  function ModeTargets(cfg: Settings, st: Status, s: Slice, byUser: bool, targets: seq<Target>, now: int): Slice {
    if targets == [] then s
    else
      var s := ModeTargets(cfg, st, s, byUser, targets[..|targets| - 1], now);
      var t := targets[|targets| - 1];
      if t.user.account == NO_ACCOUNT || !t.opped then s
      else
        var s := s.WithOps(GotOpped(cfg, st.chanServ, s.Ops(), t.user, now));
        if byUser then StopFixing(cfg, s, false) else s
  }

  /** OnChannelModeO; a user of a service server also causes a temporary block. */
  function ModeO(cfg: Settings, st: Status, s: Slice, byUser: bool, byService: bool, targets: seq<Target>,
                 now: int): Slice
  {
    if s.net.None? then s
    else
      var s := if byUser && byService then TempBlocked(s, now) else s;
      if |s.net.value.users| < cfg.minClients || HasService(s.net.value.users) then s
      else ModeTargets(cfg, st, s, byUser, targets, now)
  }

  function ServerMode(cfg: Settings, st: Status, s: Slice, now: int): Slice {
    if st.mode != RUN || s.net.None? || |s.net.value.users| < cfg.minClients then s else TempBlocked(s, now)
  }

  function ExpireTemp(s: Slice, now: int): Slice {
    if s.temp.Some? && now - s.temp.value >= TEMPBLOCK_DURATION_TIME then s.(temp := None) else s
  }

  // ---- Events ----

  datatype Event =
    | TimerAutoFix
    | TimerQueue
    | TimerPoints
    | TimerRotate(sqlOk: bool)
    | TimerTempBlocks
    | CommandChanfix(override: bool, sqlOk: bool)
    | CommandRequestOp(asker: Acct, lastFix: int, nan: int, sqlOk: bool)
    | CommandBlock(sqlOk: bool)
    | CommandUnblock(sqlOk: bool)
    | CommandAlert(alert: bool, sqlOk: bool)
    | CommandNote(sqlOk: bool)          // ADDNOTE
    | CommandSimulate(autofix: bool, sqlOk: bool)
    | OpMode(byUser: bool, byService: bool, targets: seq<Target>)
    | ServiceMode
    | Roster(net: Option<Chan>)         // whatever the network does to the channel
    | ServerLink(linked: nat)           // a server joined or left; checkNetwork follows
    | SetNumServers(n: nat)             // SET NUMSERVERS; checkNetwork follows
    | Rehash(numServers: nat, minPresent: nat)  // REHASH; no check follows
    | ServiceLink(up: bool)
    | BurstComplete
    | Connected
  {
    /** Events that concern every channel, as opposed to one. */
    predicate Timer() {
      TimerAutoFix? || TimerQueue? || TimerPoints? || TimerRotate? || TimerTempBlocks?
    }

    predicate Command() {
      || CommandChanfix? || CommandRequestOp? || CommandBlock? || CommandUnblock? || CommandAlert? || CommandNote?
      || CommandSimulate?
    }

    /** Events that only change what the whole service shares. */
    predicate OfService() {
      ServerLink? || SetNumServers? || Rehash? || ServiceLink? || BurstComplete? || Connected?
    }
  }

  ghost function Step(cfg: Settings, st: Status, s: Slice, e: Event, now: int): Slice {
    if e.Command() && st.mode == BURST then s   // commands are refused during a burst
    else match e
      case TimerAutoFix => if cfg.enableAutoFix && st.mode == RUN then Scan(cfg, s, now) else s
      case TimerQueue => if st.mode == RUN then Pass(s, now) else s
      case TimerPoints => Award(cfg, st, s, now)
      case TimerRotate(sqlOk) => Rotate(s, st.currentDay, sqlOk, now)
      case TimerTempBlocks => ExpireTemp(s, now)
      case CommandChanfix(override, sqlOk) => ChanfixCommand(cfg, st, s, override, sqlOk, now)
      case CommandRequestOp(asker, lastFix, nan, sqlOk) => RequestOpCommand(cfg, st, s, asker, lastFix, nan, sqlOk, now)
      case CommandBlock(sqlOk) => BlockCommand(cfg, s, sqlOk)
      case CommandUnblock(sqlOk) => UnblockCommand(cfg, s, sqlOk)
      case CommandAlert(alert, sqlOk) => AlertCommand(s, alert, sqlOk)
      case CommandNote(sqlOk) => Inserted(s, sqlOk)
      case CommandSimulate(_, sqlOk) => SimulateCommand(st, s, sqlOk)
      case OpMode(byUser, byService, targets) => ModeO(cfg, st, s, byUser, byService, targets, now)
      case ServiceMode => ServerMode(cfg, st, s, now)
      case Roster(net) => s.(net := net)
      case ServerLink(_) => s
      case SetNumServers(_) => s
      case Rehash(_, _) => s
      case ServiceLink(_) => s
      case BurstComplete => s
      case Connected => s
  }

  /** Too few servers: the products are compared as unsigned integers. */
  predicate TooFew(st: Status) {
    100 * st.linked < ToUnsigned(st.numServers * st.minPresent)
  }

  function CheckNetwork(st: Status): Status {
    if TooFew(st) then st.(mode := SPLIT)
    else if st.mode == SPLIT then st.(mode := BURST)
    else st
  }

  function StatusStep(st: Status, e: Event, now: int): Status
    requires now >= 0
  {
    match e
    case TimerRotate(_) => st.(currentDay := SlotOf(now))
    case ServerLink(linked) => CheckNetwork(st.(linked := linked))
    case SetNumServers(n) => if st.mode == BURST then st else CheckNetwork(st.(numServers := n))
    case Rehash(n, m) => if st.mode == BURST then st else st.(numServers := n, minPresent := m)
    case ServiceLink(up) => st.(chanServ := up)
    case BurstComplete => if st.mode != SPLIT then st.(mode := RUN) else st
    case Connected => if st.mode == INIT then st.(mode := RUN) else st
    case _ => st
  }
}
