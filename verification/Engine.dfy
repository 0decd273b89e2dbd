/**
 * The service object: its containers are updated in place, and every method acts on each channel's slice as specified.
 */
module Engine {
  import opened Config
  import opened Sets
  import opened ChanOps
  import opened Ranking
  import opened Chooser
  import opened Threshold
  import opened Slices
  import Fixes
  import TopOps
  import opened Simulation

  /** A channel record (sqlChannel). The simulation fields are not initialised by the constructor. */
  class SqlChannel {
    const channel: Name
    var start: int
    var last: int
    var maxScore: int
    var modesRemoved: bool
    var blocked: bool
    var alert: bool
    var inSQL: bool
    var tmaxScore: int
    var simStart: int
    var simLast: int
    var amtOpped: nat
    var simModesRemoved: bool

    ghost function View(): FixRec
      reads this
    {
      FixRec(start, last, maxScore, modesRemoved, blocked, alert, inSQL)
    }

    constructor (name: Name)
      ensures channel == name && View() == NEW_REC
    {
      channel := name;
      start, last, maxScore, modesRemoved := 0, 0, 0, false;
      blocked, alert, inSQL := false, false, false;
    }
  }

  function Lookup<V>(m: map<Name, V>, c: Name): Option<V> {
    if c in m then Some(m[c]) else None
  }

  class Chanfix {
    var cfg: Settings
    var currentState: Mode
    var numServers: nat
    var minServersPresent: nat
    var linked: nat
    var chanServLinked: bool
    var currentDay: Slot
    var sqlChanOps: map<Name, OpTable>
    var sqlChanCache: map<Name, SqlChannel>
    var autoFixQ: map<Name, int>
    var manFixQ: map<Name, int>
    var tempBlockList: map<Name, int>
    var network: map<Name, Chan>
    var simMap: seq<SimOpped>
    var nextFix: nat

    ghost function Recs(): set<object>
      reads this
    {
      set c | c in sqlChanCache :: sqlChanCache[c]
    }

    ghost predicate Valid()
      reads this
    {
      forall c | c in sqlChanCache :: sqlChanCache[c].channel == c
    }

    ghost function SliceOf(c: Name): Slice
      reads this, Recs()
    {
      Slice(if c in sqlChanCache then Some(sqlChanCache[c].View()) else None,
            Lookup(autoFixQ, c), Lookup(manFixQ, c), Lookup(tempBlockList, c), Lookup(network, c),
            Lookup(sqlChanOps, c))
    }

    ghost function Shared(): Status
      reads this
    {
      Status(currentState, linked, numServers, minServersPresent, currentDay, chanServLinked)
    }

    ghost predicate Known(chan: SqlChannel)
      reads this
    {
      Valid() && chan.channel in sqlChanCache && sqlChanCache[chan.channel] == chan
    }

    constructor (cfg: Settings, minServersPresent: nat, numServers: nat, now: nat)
      ensures Valid() && fresh(Recs())
      ensures Shared() == Status(INIT, 0, numServers, minServersPresent, SlotOf(now), false)
      ensures forall c :: SliceOf(c) == Slice(None, None, None, None, None, None)
    {
      this.cfg := cfg;
      currentState, linked, chanServLinked := INIT, 0, false;
      this.numServers, this.minServersPresent := numServers, minServersPresent;
      currentDay := SlotOf(now);
      sqlChanOps, sqlChanCache, network := map[], map[], map[];
      autoFixQ, manFixQ, tempBlockList := map[], map[], map[];
      simMap := [];
    }

    // ---- Lookups ----

    function OpsOf(c: Name): OpTable
      reads this
    {
      Lookup(sqlChanOps, c).GetOr(map[])
    }

    method ChannelOps(c: Name) returns (l: seq<Ranked>)
      ensures l == MyOps(SliceOf(c).Ops()) && DistinctAccounts(l)
    {
      l := GetMyOps(if c in sqlChanOps then sqlChanOps[c] else map[]);
      RankingDistinct(SliceOf(c).Ops());
    }

    /** getChannelRecord, and newChannelRecord when there is none. */
    method GetOrNewRecord(c: Name) returns (chan: SqlChannel)
      requires Valid()
      modifies this`sqlChanCache
      ensures Known(chan) && chan.channel == c
      ensures fresh(Recs() - old(Recs())) && old(Recs()) <= Recs()
      ensures SliceOf(c) == old(SliceOf(c)).(rec := Some(old(SliceOf(c)).Rec()))
      ensures forall d | d != c :: SliceOf(d) == old(SliceOf(d))
    {
      if c in sqlChanCache {
        chan := sqlChanCache[c];
      } else {
        chan := new SqlChannel(c);
        sqlChanCache := sqlChanCache[c := chan];
        assert old(Recs()) <= Recs() by {
          forall d | d in old(sqlChanCache)
            ensures sqlChanCache[d] == old(sqlChanCache[d])
          {
            assert d != c;
          }
        }
      }
    }

    // ---- Small updates of one channel ----

    method SetMaxScore(chan: SqlChannel, top: int)
      requires Known(chan)
      modifies chan`maxScore
      ensures SliceOf(chan.channel) ==
              old(SliceOf(chan.channel)).(rec := Some(old(SliceOf(chan.channel)).Rec().(maxScore := top)))
      ensures forall d | d != chan.channel :: SliceOf(d) == old(SliceOf(d))
    {
      chan.maxScore := top;
    }

    /** The channel's record, created if need be, with the top score of its records. */
    method TopRecord(c: Name, myOps: seq<Ranked>) returns (chan: SqlChannel)
      requires Valid() && myOps != []
      modifies this`sqlChanCache, Recs()
      ensures Known(chan) && chan.channel == c
      ensures fresh(Recs() - old(Recs()))
      ensures SliceOf(c) == old(SliceOf(c)).(rec := Some(WithTop(old(SliceOf(c)).Rec(), myOps)))
      ensures forall d | d != c :: SliceOf(d) == old(SliceOf(d))
    {
      chan := GetOrNewRecord(c);
      SetMaxScore(chan, myOps[0].points);
    }

    method SetAutoQ(c: Name, due: Option<int>)
      requires Valid()
      modifies this`autoFixQ
      ensures SliceOf(c) == old(SliceOf(c)).(auto := due)
      ensures forall d | d != c :: SliceOf(d) == old(SliceOf(d))
    {
      autoFixQ := if due.Some? then autoFixQ[c := due.value] else autoFixQ - {c};
    }

    method SetManQ(c: Name, due: Option<int>)
      requires Valid()
      modifies this`manFixQ
      ensures SliceOf(c) == old(SliceOf(c)).(man := due)
      ensures forall d | d != c :: SliceOf(d) == old(SliceOf(d))
    {
      manFixQ := if due.Some? then manFixQ[c := due.value] else manFixQ - {c};
    }

    method SetNetwork(c: Name, net: Option<Chan>)
      requires Valid()
      modifies this`network
      ensures SliceOf(c) == old(SliceOf(c)).(net := net)
      ensures forall d | d != c :: SliceOf(d) == old(SliceOf(d))
    {
      network := if net.Some? then network[c := net.value] else network - {c};
    }

    // ---- Fixing ----

    method FixChan(chan: SqlChannel, autofix: bool, now: int) returns (fixed: bool, opped: seq<User>)
      requires Known(chan)
      modifies this`network, chan`start, chan`last, chan`maxScore, chan`modesRemoved
      ensures Attempt(SliceOf(chan.channel), fixed, opped) == FixAttempt(old(SliceOf(chan.channel)), autofix, now)
      ensures forall c | c != chan.channel :: SliceOf(c) == old(SliceOf(c))
    {
      var name := chan.channel;
      ghost var s0 := SliceOf(name);
      if chan.start == 0 {
        chan.start := now;
      }
      chan.last := now;
      ghost var s1 := SliceOf(name);
      assert s1 == s0.(rec := Some(Stamped(s0.Rec(), now)));
      if name !in network {
        return true, [];
      }
      var myOps := ChannelOps(name);
      if myOps != [] {
        chan.maxScore := myOps[0].points;
      }
      assert SliceOf(name) == s1.(rec := Some(WithTop(s1.Rec(), myOps)));
      fixed, opped := AttemptOn(chan, autofix, now, myOps);
    }

    /** fixChan on an existing channel whose record is up to date: its early exits. */
    method AttemptOn(chan: SqlChannel, autofix: bool, now: int, myOps: seq<Ranked>)
      returns (fixed: bool, opped: seq<User>)
      requires Known(chan) && chan.channel in network && myOps == MyOps(SliceOf(chan.channel).Ops())
      modifies this`network, chan`modesRemoved
      ensures Attempt(SliceOf(chan.channel), fixed, opped) == Slices.AttemptOn(old(SliceOf(chan.channel)), autofix, now)
      ensures forall c | c != chan.channel :: SliceOf(c) == old(SliceOf(c))
    {
      if chan.maxScore <= MIN_FIXABLE {
        return false, [];
      }
      var currentOps := CountChanOps(network[chan.channel].users);
      if currentOps >= NUM_OPPED {
        return true, [];
      }
      fixed, opped := GiveOps(chan, autofix, now, myOps, currentOps);
    }

    /** fixChan past its early exits: the bar and the selection. */
    method GiveOps(chan: SqlChannel, autofix: bool, now: int, myOps: seq<Ranked>, currentOps: nat)
      returns (fixed: bool, opped: seq<User>)
      requires Known(chan) && chan.channel in network && currentOps < NUM_OPPED
      requires currentOps == CountOps(network[chan.channel].users)
      requires myOps == MyOps(SliceOf(chan.channel).Ops())
      modifies this`network, chan`modesRemoved
      ensures Attempt(SliceOf(chan.channel), fixed, opped) == Slices.GiveOps(old(SliceOf(chan.channel)), autofix, now)
      ensures forall c | c != chan.channel :: SliceOf(c) == old(SliceOf(c))
    {
      ghost var s0 := SliceOf(chan.channel);
      var timeSinceStart := if autofix then now - chan.start else now - (chan.start + CHANFIX_DELAY);
      var minScore := BarFor(chan.maxScore, timeSinceStart);
      var toOp := DecideOps(myOps, network[chan.channel].users, minScore, currentOps, NUM_OPPED);
      fixed, opped := Conclude(chan, autofix, minScore, toOp, currentOps);
      assert Slices.GiveOps(s0, autofix, now) == Opping(s0, autofix, toOp);
    }

    /** fixChan's last part: lift the modes or give the ops, and report whether the fix is complete. */
    method Conclude(chan: SqlChannel, autofix: bool, minScore: int, toOp: seq<User>, currentOps: nat)
      returns (fixed: bool, opped: seq<User>)
      requires Known(chan) && chan.channel in network && minScore <= chan.maxScore
      requires currentOps == CountOps(network[chan.channel].users)
      modifies this`network, chan`modesRemoved
      ensures Attempt(SliceOf(chan.channel), fixed, opped) == Opping(old(SliceOf(chan.channel)), autofix, toOp)
      ensures forall c | c != chan.channel :: SliceOf(c) == old(SliceOf(c))
    {
      var name := chan.channel;
      var netChan := network[name];
      opped := toOp;
      if (|toOp| == 0 || chan.maxScore < minScore) && (!autofix || |toOp| + currentOps == 0) {
        if autofix && !chan.modesRemoved && netChan.restricted {
          network := network[name := Chan(netChan.users, false)];
          chan.modesRemoved := true;
        }
        return false, toOp;
      }
      if |toOp| > 0 {
        network := network[name := netChan.(users := OpUsers(netChan.users, Ids(toOp)))];
      }
      fixed := |toOp| + currentOps >= |netChan.users| || |toOp| + currentOps >= NUM_OPPED;
    }

    /** The dry run of a first attempt; it only remembers the top score. */
    method ShouldCJoin(chan: SqlChannel, autofix: bool) returns (joinchan: bool)
      requires Known(chan)
      modifies chan`tmaxScore
      ensures joinchan <==> Fixes.ShouldJoin(old(SliceOf(chan.channel)), autofix)
      ensures chan.tmaxScore == var s := old(SliceOf(chan.channel));
                                if s.net.Some? && MyOps(s.Ops()) != [] then MyOps(s.Ops())[0].points
                                else old(chan.tmaxScore)
      ensures forall c :: SliceOf(c) == old(SliceOf(c))
    {
      var name := chan.channel;
      joinchan := false;
      if name !in network {
        return;
      }
      var users := network[name].users;
      var myOps := ChannelOps(name);
      if myOps != [] {
        chan.tmaxScore := myOps[0].points;
      }
      var maxScore := chan.tmaxScore;
      if maxScore <= MIN_FIXABLE {
        return;
      }
      var currentOps := CountChanOps(users);
      if currentOps >= NUM_OPPED {
        return;
      }
      var minScore := BarFor(maxScore, if autofix then 0 else -CHANFIX_DELAY);
      joinchan := ReachesCap(myOps, users, minScore, currentOps);
    }

    // ---- The queues ----

    method RunEntry(c: Name, autofix: bool, now: int)
      requires Valid() && Due(SliceOf(c), autofix).Some?
      modifies this`network, this`autoFixQ, this`manFixQ, this`sqlChanCache, Recs()
      ensures Valid() && fresh(Recs() - old(Recs()))
      ensures SliceOf(c) == ProcessEntry(old(SliceOf(c)), autofix, now)
      ensures forall d | d != c :: SliceOf(d) == old(SliceOf(d))
      ensures Shared() == old(Shared()) && cfg == old(cfg)
    {
      var chan := GetOrNewRecord(c);
      ghost var s1 := SliceOf(c);
      var isFixed := TryEntry(chan, autofix, now);
      SettleEntry(chan, autofix, isFixed, now, TryFix(s1, autofix, now));
    }

    /** An attempt, unless the last one was less than an interval ago. */
    method TryEntry(chan: SqlChannel, autofix: bool, now: int) returns (isFixed: bool)
      requires Known(chan)
      modifies this`network, chan`start, chan`last, chan`maxScore, chan`modesRemoved
      ensures isFixed == TryFix(old(SliceOf(chan.channel)), autofix, now).fixed
      ensures SliceOf(chan.channel) == TryFix(old(SliceOf(chan.channel)), autofix, now).s
      ensures forall d | d != chan.channel :: SliceOf(d) == old(SliceOf(d))
    {
      isFixed := false;
      if now - chan.last >= Interval(autofix) {
        var opped: seq<User>;
        isFixed, opped := FixChan(chan, autofix, now);
      }
    }

    method SettleEntry(chan: SqlChannel, autofix: bool, isFixed: bool, now: int, ghost a: Attempt)
      requires Known(chan) && a.s == SliceOf(chan.channel) && a.fixed == isFixed
      modifies this`autoFixQ, this`manFixQ, chan`start, chan`last
      ensures SliceOf(chan.channel) == Settle(a, autofix, now)
      ensures forall d | d != chan.channel :: SliceOf(d) == old(SliceOf(d))
    {
      var c := chan.channel;
      if isFixed || now - chan.start > Window(autofix) {
        if autofix {
          autoFixQ := autoFixQ - {c};
        } else {
          manFixQ := manFixQ - {c};
        }
        if c !in network {
          return;
        }
        chan.start := 0;
        chan.last := 0;
      } else {
        if autofix {
          autoFixQ := autoFixQ[c := now + AUTOFIX_INTERVAL];
        } else {
          manFixQ := manFixQ[c := now + CHANFIX_INTERVAL];
        }
      }
    }

    /** Walks both queues, erasing entries as it goes; does nothing unless in RUN. */
    method ProcessQueue(now: int)
      requires Valid()
      modifies this`network, this`autoFixQ, this`manFixQ, this`sqlChanCache, Recs()
      ensures Valid() && fresh(Recs() - old(Recs()))
      ensures forall c :: SliceOf(c) == if old(currentState) == RUN then Pass(old(SliceOf(c)), now) else old(SliceOf(c))
      ensures Shared() == old(Shared()) && cfg == old(cfg)
    {
      if currentState != RUN {
        return;
      }
      WalkQueue(true, now);
      label Half:
      WalkQueue(false, now);
      assert forall c :: old@Half(SliceOf(c)) == PassQueue(old(SliceOf(c)), true, now);
    }

    method WalkQueue(autofix: bool, now: int)
      requires Valid()
      modifies this`network, this`autoFixQ, this`manFixQ, this`sqlChanCache, Recs()
      ensures Valid() && fresh(Recs() - old(Recs()))
      ensures forall c :: SliceOf(c) == PassQueue(old(SliceOf(c)), autofix, now)
      ensures Shared() == old(Shared()) && cfg == old(cfg)
    {
      var todo := if autofix then autoFixQ.Keys else manFixQ.Keys;
      while todo != {}
        invariant Valid() && fresh(Recs() - old(Recs()))
        invariant forall c | c in todo :: Due(old(SliceOf(c)), autofix).Some?
        invariant forall c ::
                  SliceOf(c) == if c in todo then old(SliceOf(c)) else PassQueue(old(SliceOf(c)), autofix, now)
        invariant Shared() == old(Shared()) && cfg == old(cfg)
        decreases todo
      {
        var c := Smallest(todo);
        assert SliceOf(c) == old(SliceOf(c));
        if (if autofix then autoFixQ[c] else manFixQ[c]) <= now {
          RunEntry(c, autofix, now);
        }
        todo := todo - {c};
      }
    }

    /** Looks at every channel of the network for opless ones. */
    method AutoFix(now: int)
      requires Valid()
      modifies this`autoFixQ, this`sqlChanCache, Recs()
      ensures Valid() && fresh(Recs() - old(Recs()))
      ensures forall c ::
                SliceOf(c) == if old(cfg).enableAutoFix && old(currentState) == RUN
                              then Scan(old(cfg), old(SliceOf(c)), now) else old(SliceOf(c))
      ensures Shared() == old(Shared()) && cfg == old(cfg)
    {
      if !cfg.enableAutoFix || currentState != RUN {
        return;
      }
      var todo := network.Keys;
      while todo != {}
        invariant Valid() && fresh(Recs() - old(Recs()))
        invariant forall c | c in todo :: old(SliceOf(c)).net.Some?
        invariant forall c :: SliceOf(c) == if c in todo then old(SliceOf(c)) else Scan(old(cfg), old(SliceOf(c)), now)
        invariant Shared() == old(Shared()) && cfg == old(cfg)
        decreases todo
      {
        var c := Smallest(todo);
        assert SliceOf(c) == old(SliceOf(c));
        ScanChannel(c, now);
        todo := todo - {c};
      }
    }

    method CheckScan(c: Name) returns (ok: bool, myOps: seq<Ranked>)
      requires Valid() && c in network
      ensures ok <==> Scannable(cfg, SliceOf(c))
      ensures myOps == MyOps(SliceOf(c).Ops())
    {
      myOps := ChannelOps(c);
      var users := network[c].users;
      if |users| < cfg.minClients || c in autoFixQ || c in manFixQ || c in tempBlockList {
        return false, myOps;
      }
      var opLess := LooksOpless(users);
      ok := opLess && myOps != [];
    }

    method ScanChannel(c: Name, now: int)
      requires Valid() && c in network
      modifies this`autoFixQ, this`sqlChanCache, Recs()
      ensures Valid() && fresh(Recs() - old(Recs()))
      ensures SliceOf(c) == Scan(cfg, old(SliceOf(c)), now)
      ensures forall d | d != c :: SliceOf(d) == old(SliceOf(d))
      ensures Shared() == old(Shared()) && cfg == old(cfg)
    {
      var ok, myOps := CheckScan(c);
      if !ok {
        return;
      }
      var chan := TopRecord(c, myOps);
      if chan.maxScore > MIN_FIXABLE && !chan.blocked {
        SetAutoQ(c, Some(now));
      }
    }

    method StopFixingChan(c: Name, force: bool)
      requires Valid() && c in network
      modifies this`autoFixQ, this`manFixQ, Recs()
      ensures Valid()
      ensures SliceOf(c) == StopFixing(cfg, old(SliceOf(c)), force)
      ensures forall d | d != c :: SliceOf(d) == old(SliceOf(d))
    {
      var inFix := false;
      if (cfg.stopAutoFixOnOp || force) && c in autoFixQ {
        inFix := true;
        autoFixQ := autoFixQ - {c};
      }
      if (cfg.stopChanFixOnOp || force) && c in manFixQ {
        inFix := true;
        manFixQ := manFixQ - {c};
      }
      if inFix && c in sqlChanCache {
        var chan := sqlChanCache[c];
        chan.start := 0;
        chan.last := 0;
      }
    }

    method StartManualFix(c: Name, now: int)
      requires Valid()
      modifies this`network, this`manFixQ, this`sqlChanCache
      ensures Valid() && fresh(Recs() - old(Recs()))
      ensures SliceOf(c) == ManualFix(old(SliceOf(c)), now)
      ensures forall d | d != c :: SliceOf(d) == old(SliceOf(d))
    {
      if c !in network {
        return;
      }
      SetNetwork(c, Some(Chan(DeopAll(network[c].users), false)));
      var chan := GetOrNewRecord(c);
      if c !in manFixQ {
        SetManQ(c, Some(now + CHANFIX_DELAY));
      }
    }

    // ---- Commands ----

    method InsertRecord(chan: SqlChannel, sqlOk: bool)
      requires Known(chan)
      modifies chan`inSQL
      ensures SliceOf(chan.channel) == Inserted(old(SliceOf(chan.channel)), sqlOk)
      ensures forall d | d != chan.channel :: SliceOf(d) == old(SliceOf(d))
    {
      if !chan.inSQL {
        chan.inSQL := sqlOk;
      }
    }

    /** The guards that CHANFIX, REQUESTOP and SIMULATE share. */
    method CheckFixable(c: Name) returns (ok: bool, myOps: seq<Ranked>)
      requires Valid()
      ensures ok <==> Fixable(Shared(), SliceOf(c))
      ensures myOps == MyOps(SliceOf(c).Ops())
    {
      myOps := ChannelOps(c);
      if currentState != RUN || c !in network {
        return false, myOps;
      }
      var canScore := CanScoreChan(network[c].users);
      ok := canScore && myOps != [] && c !in manFixQ;
    }

    /** CHANFIX: a staff member asks for a manual fix. */
    method CommandChanfix(c: Name, override: bool, sqlOk: bool, now: int)
      requires Valid()
      modifies this`network, this`manFixQ, this`autoFixQ, this`sqlChanCache, Recs()
      ensures Valid() && fresh(Recs() - old(Recs()))
      ensures SliceOf(c) == ChanfixCommand(cfg, Shared(), old(SliceOf(c)), override, sqlOk, now)
      ensures forall d | d != c :: SliceOf(d) == old(SliceOf(d))
      ensures Shared() == old(Shared()) && cfg == old(cfg)
    {
      var ok, myOps := CheckFixable(c);
      if !cfg.enableChanFix || !ok {
        return;
      }
      var chan := TopRecord(c, myOps);
      ProceedChanfix(chan, override, sqlOk, now);
    }

    method ProceedChanfix(chan: SqlChannel, override: bool, sqlOk: bool, now: int)
      requires Known(chan)
      modifies this`network, this`manFixQ, this`autoFixQ, this`sqlChanCache, chan`inSQL
      ensures Valid() && fresh(Recs() - old(Recs()))
      ensures SliceOf(chan.channel) == OrderFix(old(SliceOf(chan.channel)), override, sqlOk, now)
      ensures forall d | d != chan.channel :: SliceOf(d) == old(SliceOf(d))
    {
      var c := chan.channel;
      if chan.maxScore <= MIN_FIXABLE {
        return;
      }
      if c in autoFixQ {
        if !override {
          return;
        }
        SetAutoQ(c, None);
      }
      if chan.blocked || (c in tempBlockList && !override) || (chan.alert && !override) {
        return;
      }
      InsertRecord(chan, sqlOk);
      StartManualFix(c, now);
    }

    /** REQUESTOP: a top op asks for a fix of the channel. */
    method CommandRequestOp(c: Name, asker: Acct, lastFix: int, nan: int, sqlOk: bool, now: int)
      requires Valid()
      modifies this`network, this`manFixQ, this`sqlChanCache, Recs()
      ensures Valid() && fresh(Recs() - old(Recs()))
      ensures SliceOf(c) == RequestOpCommand(cfg, Shared(), old(SliceOf(c)), asker, lastFix, nan, sqlOk, now)
      ensures forall d | d != c :: SliceOf(d) == old(SliceOf(d))
      ensures Shared() == old(Shared()) && cfg == old(cfg)
    {
      var ok, myOps := CheckFixable(c);
      var ishighscore := TopOps.HighScore(myOps, asker, nan, cfg);
      if !cfg.enableChanFix || !ok || !ishighscore {
        return;
      }
      CheckRequestTime(c, myOps, lastFix, sqlOk, now);
    }

    method CheckRequestTime(c: Name, myOps: seq<Ranked>, lastFix: int, sqlOk: bool, now: int)
      requires Valid() && myOps != [] && myOps == MyOps(SliceOf(c).Ops())
      modifies this`network, this`manFixQ, this`sqlChanCache, Recs()
      ensures Valid() && fresh(Recs() - old(Recs()))
      ensures SliceOf(c) == TimedRequest(cfg, old(SliceOf(c)), lastFix, sqlOk, now)
      ensures forall d | d != c :: SliceOf(d) == old(SliceOf(d))
    {
      if ToUnsigned(now - lastFix) < cfg.minRequestOpTime {
        var early := GetOrNewRecord(c);
        return;
      }
      var chan := TopRecord(c, myOps);
      ProceedRequestOp(chan, sqlOk, now);
    }

    method ProceedRequestOp(chan: SqlChannel, sqlOk: bool, now: int)
      requires Known(chan)
      modifies this`network, this`manFixQ, this`sqlChanCache, chan`inSQL
      ensures Valid() && fresh(Recs() - old(Recs()))
      ensures SliceOf(chan.channel) == RequestFix(old(SliceOf(chan.channel)), sqlOk, now)
      ensures forall d | d != chan.channel :: SliceOf(d) == old(SliceOf(d))
    {
      var c := chan.channel;
      if chan.maxScore <= MIN_FIXABLE || c in autoFixQ || c in tempBlockList || chan.blocked || chan.alert {
        return;
      }
      InsertRecord(chan, sqlOk);
      StartManualFix(c, now);
    }

    method CommandBlock(c: Name, sqlOk: bool)
      requires Valid()
      modifies this`autoFixQ, this`manFixQ, this`sqlChanCache, Recs()
      ensures Valid() && fresh(Recs() - old(Recs()))
      ensures SliceOf(c) == BlockCommand(cfg, old(SliceOf(c)), sqlOk)
      ensures forall d | d != c :: SliceOf(d) == old(SliceOf(d))
      ensures Shared() == old(Shared()) && cfg == old(cfg)
    {
      if !cfg.enableBlocking {
        return;
      }
      var chan := GetOrNewRecord(c);
      if chan.blocked {
        return;
      }
      SetBlocked(chan);
      InsertRecord(chan, sqlOk);
      AbortFixes(c);
    }

    method SetBlocked(chan: SqlChannel)
      requires Known(chan)
      modifies chan`blocked
      ensures SliceOf(chan.channel) ==
              old(SliceOf(chan.channel)).(rec := Some(old(SliceOf(chan.channel)).Rec().(blocked := true)))
      ensures forall d | d != chan.channel :: SliceOf(d) == old(SliceOf(d))
    {
      chan.blocked := true;
    }

    method AbortFixes(c: Name)
      requires Valid()
      modifies this`autoFixQ, this`manFixQ, Recs()
      ensures Valid()
      ensures SliceOf(c) == AbortFix(cfg, old(SliceOf(c)))
      ensures forall d | d != c :: SliceOf(d) == old(SliceOf(d))
    {
      if c in network {
        if c in manFixQ {
          StopFixingChan(c, true);
        }
        if c in autoFixQ {
          StopFixingChan(c, true);
        }
      }
    }

    method CommandUnblock(c: Name, sqlOk: bool)
      requires Valid()
      modifies Recs()
      ensures SliceOf(c) == UnblockCommand(cfg, old(SliceOf(c)), sqlOk)
      ensures forall d | d != c :: SliceOf(d) == old(SliceOf(d))
    {
      if cfg.enableBlocking && c in sqlChanCache && sqlChanCache[c].blocked {
        var chan := sqlChanCache[c];
        chan.blocked := false;
        InsertRecord(chan, sqlOk);
      }
    }

    method CommandAlert(c: Name, alert: bool, sqlOk: bool)
      requires Valid()
      modifies this`sqlChanCache, Recs()
      ensures Valid() && fresh(Recs() - old(Recs()))
      ensures SliceOf(c) == AlertCommand(old(SliceOf(c)), alert, sqlOk)
      ensures forall d | d != c :: SliceOf(d) == old(SliceOf(d))
    {
      if !alert && (c !in sqlChanCache || !sqlChanCache[c].alert) {
        return;
      }
      var chan := GetOrNewRecord(c);
      if chan.alert == alert {
        return;
      }
      chan.alert := alert;
      InsertRecord(chan, sqlOk);
    }

    method AddNote(c: Name, sqlOk: bool)
      requires Valid()
      modifies this`sqlChanCache, Recs()
      ensures Valid() && fresh(Recs() - old(Recs()))
      ensures SliceOf(c) == Inserted(old(SliceOf(c)), sqlOk)
      ensures forall d | d != c :: SliceOf(d) == old(SliceOf(d))
    {
      var chan := GetOrNewRecord(c);
      InsertRecord(chan, sqlOk);
    }

    // ---- Scores ----

    method PutOp(c: Name, a: Acct, r: OpRec)
      requires Valid()
      modifies this`sqlChanOps
      ensures SliceOf(c) == old(SliceOf(c)).WithOps(old(SliceOf(c)).Ops()[a := r])
      ensures forall d | d != c :: SliceOf(d) == old(SliceOf(d))
    {
      var ops := OpsOf(c)[a := r];
      assert a in ops;
      sqlChanOps := sqlChanOps[c := ops];
    }

    method GotOpped(c: Name, u: User, now: int)
      requires Valid()
      modifies this`sqlChanOps
      ensures SliceOf(c) == old(SliceOf(c)).WithOps(Slices.GotOpped(cfg, chanServLinked, old(SliceOf(c)).Ops(), u, now))
      ensures forall d | d != c :: SliceOf(d) == old(SliceOf(d))
    {
      if cfg.clientNeedsIdent && !u.ident {
        return;
      }
      var ops := OpsOf(c);
      assert ops == SliceOf(c).Ops();
      if u.account !in ops {
        if |ops| >= MAXOPCOUNT || (|ops| == 0 && !chanServLinked) {
          return;
        }
        PutOp(c, u.account, NewOp(now).(seen := u.mask));
      } else {
        PutOp(c, u.account, ops[u.account].(last := now, seen := u.mask));
      }
    }

    method GivePoints(c: Name, u: User, now: int)
      requires Valid()
      modifies this`sqlChanOps
      ensures var s := old(SliceOf(c));
              SliceOf(c) == s.WithOps(Slices.GivePoints(cfg, chanServLinked, s.Ops(), u, currentDay, now).0)
      ensures forall d | d != c :: SliceOf(d) == old(SliceOf(d))
    {
      if cfg.clientNeedsIdent && !u.ident {
        assert SliceOf(c).WithOps(SliceOf(c).Ops()) == SliceOf(c);
        return;
      }
      ghost var s0 := SliceOf(c);
      if u.account !in OpsOf(c) {
        GotOpped(c, u, now);
        assert SliceOf(c) == s0.WithOps(Slices.GotOpped(cfg, chanServLinked, s0.Ops(), u, now));
        if u.account !in OpsOf(c) {
          return;
        }
      }
      PutOp(c, u.account, OpsOf(c)[u.account].PlusPoint(currentDay).(last := now));
    }

    /** One round of points: every opped account of every scorable channel that is not being fixed. */
    method GiveAllOpsPoints(now: int)
      requires Valid()
      modifies this`sqlChanOps
      ensures forall c :: SliceOf(c) == Award(cfg, Shared(), old(SliceOf(c)), now)
    {
      var todo := network.Keys;
      while todo != {}
        invariant forall c | c in todo :: c in network
        invariant forall c ::
                  SliceOf(c) == if c in todo then old(SliceOf(c)) else Award(cfg, Shared(), old(SliceOf(c)), now)
        decreases todo
      {
        var c := Smallest(todo);
        assert SliceOf(c) == old(SliceOf(c));
        ScoreChannel(c, now);
        todo := todo - {c};
      }
    }

    method ScoreChannel(c: Name, now: int)
      requires Valid() && c in network
      modifies this`sqlChanOps
      ensures SliceOf(c) == Award(cfg, Shared(), old(SliceOf(c)), now)
      ensures forall d | d != c :: SliceOf(d) == old(SliceOf(d))
    {
      var users := network[c].users;
      var canScore := CanScoreChan(users);
      if !canScore || |users| < cfg.minClients || c in autoFixQ || c in manFixQ {
        return;
      }
      ScoreUsers(c, users, now);
    }

    /** giveAllOpsPoints' inner loop over a channel's user list: each account at most once. */
    method ScoreUsers(c: Name, users: seq<User>, now: int)
      requires Valid()
      modifies this`sqlChanOps
      ensures var s := old(SliceOf(c));
              SliceOf(c) == s.WithOps(AwardUsers(cfg, chanServLinked, s.Ops(), users, currentDay, now).ops)
      ensures forall d | d != c :: SliceOf(d) == old(SliceOf(d))
    {
      ghost var s0 := SliceOf(c);
      var scored: set<Acct> := {};
      for i := 0 to |users|
        invariant SliceOf(c) == s0.WithOps(AwardUsers(cfg, chanServLinked, s0.Ops(), users[..i], currentDay, now).ops)
        invariant scored == AwardUsers(cfg, chanServLinked, s0.Ops(), users[..i], currentDay, now).scored
        invariant forall d | d != c :: SliceOf(d) == old(SliceOf(d))
      {
        ghost var t := AwardUsers(cfg, chanServLinked, s0.Ops(), users[..i], currentDay, now);
        AwardNext(cfg, chanServLinked, s0, users, i, currentDay, now);
        if users[i].opped && users[i].account != NO_ACCOUNT && users[i].account !in scored {
          GivePoints(c, users[i], now);
          scored := scored + {users[i].account};
        }
      }
      assert users[..|users|] == users;
    }

    /** Starts a new day: clears its slot in every record and forgets records and channels that are no longer needed. */
    method RotateDB(sqlFails: set<Name>, now: nat)
      requires Valid()
      modifies this`currentDay, this`sqlChanOps, this`sqlChanCache
      ensures Valid() && Recs() <= old(Recs())
      ensures forall c :: SliceOf(c) == Rotate(old(SliceOf(c)), old(currentDay), c !in sqlFails, now)
      ensures Shared() == old(Shared()).(currentDay := SlotOf(now))
    {
      var today := currentDay;
      currentDay := SlotOf(now);
      var todo := sqlChanOps.Keys;
      while todo != {}
        invariant Valid() && Recs() <= old(Recs())
        invariant Shared() == old(Shared()).(currentDay := SlotOf(now))
        invariant forall c | c in todo :: c in sqlChanOps
        invariant forall c ::
                  SliceOf(c) == if c in todo then old(SliceOf(c))
                                else Rotate(old(SliceOf(c)), today, c !in sqlFails, now)
        decreases todo
      {
        var c := Smallest(todo);
        assert SliceOf(c) == old(SliceOf(c));
        RotateChannel(c, today, c !in sqlFails, now);
        todo := todo - {c};
      }
    }

    method RotateChannel(c: Name, today: Slot, sqlOk: bool, now: int)
      requires Valid() && c in sqlChanOps
      modifies this`sqlChanOps, this`sqlChanCache
      ensures Valid() && Recs() <= old(Recs())
      ensures SliceOf(c) == Rotate(old(SliceOf(c)), today, sqlOk, now)
      ensures forall d | d != c :: SliceOf(d) == old(SliceOf(d))
      ensures sqlChanOps.Keys == old(sqlChanOps).Keys
    {
      var rotated := RotateTable(sqlChanOps[c], if today >= DAYSAMPLES - 1 then 0 else today + 1, now);
      sqlChanOps := sqlChanOps[c := rotated];
      if rotated == map[] && c in sqlChanCache {
        var chan := sqlChanCache[c];
        if !chan.blocked && !chan.alert {
          if !(chan.inSQL && sqlOk) {
            sqlChanCache := sqlChanCache - {c};
          }
        }
      }
    }

    // ---- Network events ----

    /** Ops given or taken on a channel; an op given by a user cancels a fix, as there is an awake op. */
    method OnChannelModeO(c: Name, byUser: bool, byService: bool, targets: seq<Target>, now: int)
      requires Valid()
      modifies this`tempBlockList, this`sqlChanOps, this`autoFixQ, this`manFixQ, Recs()
      ensures Valid()
      ensures SliceOf(c) == ModeO(cfg, Shared(), old(SliceOf(c)), byUser, byService, targets, now)
      ensures forall d | d != c :: SliceOf(d) == old(SliceOf(d))
    {
      if c !in network {
        return;
      }
      if byUser && byService {
        TempBlock(c, now);
      }
      var canScore := CanScoreChan(network[c].users);
      if |network[c].users| < cfg.minClients || !canScore {
        return;
      }
      ApplyTargets(c, byUser, targets, now);
    }

    method ApplyTargets(c: Name, byUser: bool, targets: seq<Target>, now: int)
      requires Valid() && c in network
      modifies this`sqlChanOps, this`autoFixQ, this`manFixQ, Recs()
      ensures Valid()
      ensures SliceOf(c) == ModeTargets(cfg, Shared(), old(SliceOf(c)), byUser, targets, now)
      ensures forall d | d != c :: SliceOf(d) == old(SliceOf(d))
    {
      ghost var s0 := SliceOf(c);
      for i := 0 to |targets|
        invariant SliceOf(c) == ModeTargets(cfg, Shared(), s0, byUser, targets[..i], now)
        invariant forall d | d != c :: SliceOf(d) == old(SliceOf(d))
      {
        var t := targets[i];
        TargetNext(cfg, Shared(), s0, byUser, targets, i, now);
        if t.user.account != NO_ACCOUNT && t.opped {
          GotOpped(c, t.user, now);
          if byUser {
            StopFixingChan(c, false);
          }
        }
      }
      assert targets[..|targets|] == targets;
    }

    method TempBlock(c: Name, now: int)
      requires Valid()
      modifies this`tempBlockList
      ensures SliceOf(c) == TempBlocked(old(SliceOf(c)), now)
      ensures forall d | d != c :: SliceOf(d) == old(SliceOf(d))
    {
      if c !in tempBlockList {
        tempBlockList := tempBlockList[c := now];
      }
    }

    method OnServerMode(c: Name, now: int)
      requires Valid()
      modifies this`tempBlockList
      ensures SliceOf(c) == ServerMode(cfg, Shared(), old(SliceOf(c)), now)
      ensures forall d | d != c :: SliceOf(d) == old(SliceOf(d))
    {
      if currentState == RUN && c in network && |network[c].users| >= cfg.minClients {
        TempBlock(c, now);
      }
    }

    /** Collects the expired blocks first and then erases them. */
    method ExpireTempBlocks(now: int)
      requires Valid()
      modifies this`tempBlockList
      ensures forall c :: SliceOf(c) == ExpireTemp(old(SliceOf(c)), now)
    {
      var blocks := tempBlockList;
      var todo := blocks.Keys;
      var remList: set<Name> := {};
      while todo != {}
        invariant todo <= blocks.Keys
        invariant forall c :: c in remList <==> c in blocks && c !in todo && now - blocks[c] >= TEMPBLOCK_DURATION_TIME
        decreases todo
      {
        var c := PickOne(todo);
        if now - blocks[c] >= TEMPBLOCK_DURATION_TIME {
          remList := remList + {c};
        }
        todo := todo - {c};
      }
      tempBlockList := blocks - remList;
    }

    method CheckNetwork()
      modifies this`currentState
      ensures Shared() == Slices.CheckNetwork(old(Shared()))
    {
      if 100 * linked < ToUnsigned(numServers * minServersPresent) {
        currentState := SPLIT;
      } else if currentState == SPLIT {
        currentState := BURST;
      }
    }

    // ---- Simulation ----

    method FindOp(c: Name, a: Acct) returns (found: bool)
      ensures found <==> Found(simMap, c, a)
    {
      for i := 0 to |simMap|
        invariant !Found(simMap[..i], c, a)
      {
        if simMap[i].channel == c && simMap[i].account == a {
          return true;
        }
      }
      assert simMap[..|simMap|] == simMap;
      return false;
    }

    /** One account's clients in a simulated round: the first is picked, unless the account was opped before. */
    method SimPick(chan: SqlChannel, accts: seq<User>, account: Acct, picked: seq<User>, currentOps: nat)
      returns (picked': seq<User>, maxed: bool)
      requires |picked| + currentOps < NUM_OPPED
      requires forall u | u in accts :: u.account == account
      modifies this`simMap, chan`amtOpped
      ensures picked' == picked + if accts != [] && !Found(old(simMap), chan.channel, account) then [accts[0]] else []
      ensures simMap == old(simMap) + Entries(chan.channel, picked'[|picked|..])
      ensures chan.amtOpped == old(chan.amtOpped) + |picked'| - |picked|
      ensures maxed <==> |picked'| + currentOps == NUM_OPPED
    {
      picked', maxed := picked, false;
      var k := 0;
      while k < |accts| && !maxed
        invariant 0 <= k <= |accts|
        invariant picked' == picked + if k > 0 && !Found(old(simMap), chan.channel, account) then [accts[0]] else []
        invariant k > 0 ==> Found(simMap, chan.channel, account)
        invariant simMap == old(simMap) + Entries(chan.channel, picked'[|picked|..])
        invariant chan.amtOpped == old(chan.amtOpped) + |picked'| - |picked|
        invariant maxed <==> |picked'| + currentOps == NUM_OPPED
        decreases |accts| - k
      {
        var found := FindOp(chan.channel, account);
        if !found {
          assert accts[k] in accts;
          chan.amtOpped := chan.amtOpped + 1;
          simMap := simMap + [SimOpped(chan.channel, account)];
          picked' := picked' + [accts[k]];
          maxed := |picked'| + currentOps >= NUM_OPPED;
        }
        k := k + 1;
      }
    }

    /** The selection loop of a simulated round. */
    method SimSelect(chan: SqlChannel, ranking: seq<Ranked>, users: seq<User>, min: int, currentOps: nat)
      returns (picked: seq<User>)
      requires currentOps == chan.amtOpped < NUM_OPPED && DistinctAccounts(ranking)
      modifies this`simMap, chan`amtOpped
      ensures picked == Take(SimCandidates(ranking, users, min, old(simMap), chan.channel), NUM_OPPED - currentOps)
      ensures simMap == old(simMap) + Entries(chan.channel, picked)
      ensures chan.amtOpped == currentOps + |picked|
    {
      picked := [];
      var maxed := false;
      var i := 0;
      while i < |ranking| && !maxed
        invariant 0 <= i <= |ranking|
        invariant simMap == old(simMap) + Entries(chan.channel, picked)
        invariant chan.amtOpped == currentOps + |picked|
        invariant picked == SimCandidates(ranking[..i], users, min, old(simMap), chan.channel)
        invariant maxed <==> |picked| + currentOps == NUM_OPPED
        invariant |picked| + currentOps <= NUM_OPPED
        decreases |ranking| - i
      {
        assert ranking[..i + 1][..i] == ranking[..i];
        if ranking[i].points >= min {
          var accts := AccountClients(users, ranking[i].account);
          NotYetPicked(ranking, i, users, min, old(simMap), chan.channel);
          picked, maxed := SimPick(chan, accts, ranking[i].account, picked, currentOps);
        }
        i := i + 1;
      }
      SimCandidatesPrefix(ranking, i, users, min, old(simMap), chan.channel);
      assert ranking[..|ranking|] == ranking;
    }

    /** One simulated attempt: works on the simulation fields only. */
    method SimFix(chan: SqlChannel, autofix: bool, t: int, ghost net: Option<Chan>, ghost ranking: seq<Ranked>)
      returns (fixed: bool, picked: seq<User>)
      requires Known(chan) && net == Lookup(network, chan.channel) && ranking == MyOps(SliceOf(chan.channel).Ops())
      modifies this`simMap, chan`simStart, chan`simLast, chan`tmaxScore, chan`amtOpped, chan`simModesRemoved
      ensures chan.simStart == (if old(chan.simStart) == 0 then t else old(chan.simStart)) && chan.simLast == t
      ensures picked == RoundPicks(net, ranking, SimBar(ranking, SimElapsed(chan.simStart, autofix, t)),
                                   old(simMap), chan.channel, old(chan.amtOpped))
      ensures simMap == old(simMap) + Entries(chan.channel, picked)
      ensures chan.amtOpped == old(chan.amtOpped) + |picked|
      ensures ranking != [] ==> (fixed <==> RoundFixed(net, ranking, autofix, old(chan.amtOpped), |picked|))
    {
      if chan.simStart == 0 {
        chan.simStart := t;
      }
      chan.simLast := t;
      if chan.channel !in network {
        return true, [];
      }
      var myOps := ChannelOps(chan.channel);
      if myOps != [] {
        chan.tmaxScore := myOps[0].points;
      }
      if chan.tmaxScore <= MIN_FIXABLE {
        return false, [];
      }
      if chan.amtOpped >= NUM_OPPED {
        return true, [];
      }
      var minScore := BarFor(chan.tmaxScore, SimElapsed(chan.simStart, autofix, t));
      fixed, picked := SimTry(chan, autofix, myOps, network[chan.channel], minScore);
    }

    /** simFix past its early exits. */
    method SimTry(chan: SqlChannel, autofix: bool, myOps: seq<Ranked>, netChan: Chan, minScore: int)
      returns (fixed: bool, picked: seq<User>)
      requires chan.amtOpped < NUM_OPPED && DistinctAccounts(myOps)
      modifies this`simMap, chan`amtOpped, chan`simModesRemoved
      ensures picked == Take(SimCandidates(myOps, netChan.users, minScore, old(simMap), chan.channel),
                             NUM_OPPED - old(chan.amtOpped))
      ensures simMap == old(simMap) + Entries(chan.channel, picked)
      ensures chan.amtOpped == old(chan.amtOpped) + |picked|
      ensures fixed <==> (|picked| > 0 || (autofix && old(chan.amtOpped) > 0)) &&
                         (chan.amtOpped >= |netChan.users| || chan.amtOpped >= NUM_OPPED)
      ensures chan.simModesRemoved ==
              (old(chan.simModesRemoved) || (picked == [] && autofix && old(chan.amtOpped) == 0 && netChan.restricted))
    {
      var currentOps := chan.amtOpped;
      picked := SimSelect(chan, myOps, netChan.users, minScore, currentOps);
      if |picked| == 0 && (!autofix || currentOps == 0) {
        if autofix && !chan.simModesRemoved && netChan.restricted {
          chan.simModesRemoved := true;
        }
        return false, picked;
      }
      fixed := |picked| + currentOps >= |netChan.users| || |picked| + currentOps >= NUM_OPPED;
    }

    /** Forgets what the simulation opped on a channel. */
    method RemoveChan(c: Name)
      modifies this`simMap
      ensures simMap == Without(old(simMap), c)
    {
      var kept := [];
      for i := 0 to |simMap|
        invariant kept == Without(simMap[..i], c)
      {
        assert simMap[..i + 1][..i] == simMap[..i];
        if simMap[i].channel != c {
          kept := kept + [simMap[i]];
        }
      }
      assert simMap[..|simMap|] == simMap;
      simMap := kept;
    }

    /** After n rounds at their times, everything is as the sequence of rounds prescribes. */
    ghost predicate SimState(chan: SqlChannel, autofix: bool, picks: seq<Pick>, n: nat, sim0: seq<SimOpped>,
                             net: Option<Chan>, ranking: seq<Ranked>)
      reads this`simMap, this`nextFix, chan
    {
      && chan.simStart == (if n == 0 then 0 else RoundTime(nextFix, 0))
      && chan.amtOpped == |picks|
      && simMap == sim0 + PickEntries(chan.channel, picks)
      && picks == SimPicks(net, ranking, autofix, sim0, chan.channel, nextFix, n)
    }

    /** One round of the simulated day, with its report. */
    method SimRound(chan: SqlChannel, autofix: bool, picks: seq<Pick>, ghost n: nat, t: int, ghost sim0: seq<SimOpped>,
                    ghost net: Option<Chan>, ghost ranking: seq<Ranked>)
      returns (isFixed: bool, picks': seq<Pick>)
      requires Known(chan) && net == Lookup(network, chan.channel) && ranking == MyOps(SliceOf(chan.channel).Ops())
      requires SimState(chan, autofix, picks, n, sim0, net, ranking) && t == RoundTime(nextFix, n)
      requires FixedLast(net, ranking, autofix, sim0, chan.channel, nextFix, n, false)
      modifies this`simMap, chan`simStart, chan`simLast, chan`tmaxScore, chan`amtOpped, chan`simModesRemoved
      ensures SimState(chan, autofix, picks', n + 1, sim0, net, ranking)
      ensures FixedLast(net, ranking, autofix, sim0, chan.channel, nextFix, n + 1, isFixed)
    {
      var picked: seq<User>;
      isFixed, picked := SimFix(chan, autofix, t, net, ranking);
      picks' := picks + Reported(picked, t);
      RoundEntries(sim0, chan.channel, picks, picked, t);
      FixedLastGrows(net, ranking, autofix, sim0, chan.channel, nextFix, n, isFixed);
    }

    /** A step of the simulated clock: a round, if its time has come. */
    method SimTick(chan: SqlChannel, autofix: bool, picks: seq<Pick>, ghost n: nat, t: int, ghost step: nat,
                   ghost sim0: seq<SimOpped>, ghost net: Option<Chan>, ghost ranking: seq<Ranked>)
      returns (isFixed: bool, picks': seq<Pick>, ghost n': nat)
      requires Known(chan) && net == Lookup(network, chan.channel) && ranking == MyOps(SliceOf(chan.channel).Ops())
      requires SimState(chan, autofix, picks, n, sim0, net, ranking)
      requires FixedLast(net, ranking, autofix, sim0, chan.channel, nextFix, n, false)
      requires Between(nextFix, n, step) && t == nextFix + PROCESS_QUEUE_TIME * step
      modifies this`simMap, chan`simStart, chan`simLast, chan`tmaxScore, chan`amtOpped, chan`simModesRemoved
      ensures SimState(chan, autofix, picks', n', sim0, net, ranking)
      ensures FixedLast(net, ranking, autofix, sim0, chan.channel, nextFix, n', isFixed)
      ensures Between(nextFix, n', step + 1) && (isFixed ==> n' > 0)
    {
      isFixed, picks', n' := false, picks, n;
      RoundDue(nextFix, n, step);
      assert chan.simStart == if n == 0 then 0 else RoundTime(nextFix, 0);
      if t - chan.simStart > AUTOFIX_MAXIMUM {
        isFixed, picks' := SimRound(chan, autofix, picks, n, t, sim0, net, ranking);
        n' := n + 1;
      }
    }

    /** The clock of a simulated day, second by second. */
    method SimulateDay(chan: SqlChannel, autofix: bool, ghost net: Option<Chan>, ghost ranking: seq<Ranked>)
      returns (isFixed: bool, picks: seq<Pick>, ghost n: nat)
      requires Known(chan) && net == Lookup(network, chan.channel) && ranking == MyOps(SliceOf(chan.channel).Ops())
      requires chan.simStart == 0 && chan.amtOpped == 0
      modifies this`simMap, chan`simStart, chan`simLast, chan`tmaxScore, chan`amtOpped, chan`simModesRemoved
      ensures SimState(chan, autofix, picks, n, old(simMap), net, ranking)
      ensures DayOver(nextFix, n, isFixed)
      ensures FixedLast(net, ranking, autofix, old(simMap), chan.channel, nextFix, n, isFixed)
    {
      isFixed, picks, n := false, [], 0;
      var t := nextFix;
      var endFix := t + DAY;
      var nextRound := t + PROCESS_QUEUE_TIME;
      ghost var step := 1;
      assert simMap == simMap + PickEntries(chan.channel, picks);
      while t != 0
        invariant nextFix <= t <= endFix == nextFix + DAY
        invariant nextRound == nextFix + PROCESS_QUEUE_TIME * step && t <= nextRound <= t + PROCESS_QUEUE_TIME
        invariant !isFixed && (t == nextFix ==> n == 0) && (nextFix == 0 ==> t == 0)
        invariant Between(nextFix, n, step)
        invariant net == Lookup(network, chan.channel) && ranking == MyOps(SliceOf(chan.channel).Ops())
        invariant SimState(chan, autofix, picks, n, old(simMap), net, ranking)
        invariant FixedLast(net, ranking, autofix, old(simMap), chan.channel, nextFix, n, false)
        decreases endFix - t
      {
        if nextRound == t {
          isFixed, picks, n := SimTick(chan, autofix, picks, n, t, step, old(simMap), net, ranking);
          nextRound := t + PROCESS_QUEUE_TIME;
          step := step + 1;
        }
        if isFixed || t == endFix {
          break;
        }
        t := t + 1;
      }
      if !isFixed && t != 0 {
        DayEnds(nextFix, n, step, t);
      }
    }

    /**
     * A whole simulated fix: its picks are exactly those of the sequence of rounds, up to the first that reports
     * success or the end of the day. By its frame it touches no queue, score, op, attempt time or top score, and it
     * cleans up after itself.
     */
    method SimulateFix(chan: SqlChannel, autofix: bool) returns (isFixed: bool, picks: seq<Pick>, ghost n: nat)
      requires Known(chan)
      modifies this`simMap, chan`simStart, chan`simLast, chan`tmaxScore, chan`amtOpped, chan`simModesRemoved
      ensures var s := old(SliceOf(chan.channel)); var ranking := MyOps(s.Ops());
              && picks == SimPicks(s.net, ranking, autofix, old(simMap), chan.channel, nextFix, n)
              && FixedLast(s.net, ranking, autofix, old(simMap), chan.channel, nextFix, n, isFixed)
      ensures DayOver(nextFix, n, isFixed)
      ensures simMap == Without(old(simMap), chan.channel)
      ensures chan.simStart == 0 && chan.simLast == 0 && chan.amtOpped == 0 && !chan.simModesRemoved
      ensures forall c :: SliceOf(c) == old(SliceOf(c))
    {
      ghost var s := SliceOf(chan.channel);
      ResetSimulation(chan);
      isFixed, picks, n := SimulateDay(chan, autofix, s.net, MyOps(s.Ops()));
      WithoutAdded(old(simMap), PickEntries(chan.channel, picks), chan.channel);
      RemoveChan(chan.channel);
      ResetSimulation(chan);
    }

    method ResetSimulation(chan: SqlChannel)
      modifies chan`simStart, chan`simLast, chan`amtOpped, chan`simModesRemoved
      ensures chan.simStart == 0 && chan.simLast == 0 && chan.amtOpped == 0 && !chan.simModesRemoved
    {
      chan.simStart, chan.simLast, chan.amtOpped, chan.simModesRemoved := 0, 0, 0, false;
    }

    /** SIMULATE: the asker gets the report of a whole simulated day, if the channel may be fixed. */
    method CommandSimulate(c: Name, autofix: bool, sqlOk: bool) returns (report: Option<Report>, ghost n: nat)
      requires Valid()
      modifies this`sqlChanCache, this`simMap, Recs()
      ensures Valid() && fresh(Recs() - old(Recs()))
      ensures SliceOf(c) == SimulateCommand(Shared(), old(SliceOf(c)), sqlOk)
      ensures forall d | d != c :: SliceOf(d) == old(SliceOf(d))
      ensures report.Some? <==> Simulated(Shared(), old(SliceOf(c)))
      ensures report.Some? ==>
                Reports(report.value, old(SliceOf(c)).net, MyOps(old(SliceOf(c)).Ops()), autofix, old(simMap), c,
                        nextFix, n)
      ensures simMap == if report.Some? then Without(old(simMap), c) else old(simMap)
    {
      var ok, myOps := CheckFixable(c);
      if !ok {
        return None, 0;
      }
      var chan := TopRecord(c, myOps);
      report, n := ProceedSimulate(chan, autofix, sqlOk);
    }

    method ProceedSimulate(chan: SqlChannel, autofix: bool, sqlOk: bool) returns (report: Option<Report>, ghost n: nat)
      requires Known(chan)
      modifies this`simMap, chan
      ensures SliceOf(chan.channel) == OrderSimulation(old(SliceOf(chan.channel)), sqlOk)
      ensures forall d | d != chan.channel :: SliceOf(d) == old(SliceOf(d))
      ensures var s := old(SliceOf(chan.channel));
              && (report.Some? <==> s.Rec().maxScore > MIN_FIXABLE && !s.Rec().blocked && s.temp.None?)
              && (report.Some? ==>
                    Reports(report.value, s.net, MyOps(s.Ops()), autofix, old(simMap), chan.channel, nextFix, n))
      ensures simMap == if report.Some? then Without(old(simMap), chan.channel) else old(simMap)
    {
      if chan.maxScore <= MIN_FIXABLE || chan.blocked || chan.channel in tempBlockList {
        return None, 0;
      }
      InsertRecord(chan, sqlOk);
      var isFixed: bool;
      var picks: seq<Pick>;
      isFixed, picks, n := SimulateFix(chan, autofix);
      report := Some(Report(isFixed, picks));
    }

    // ---- Dispatch ----

    /** The queue timer also notes when it is due next. */
    method HandleQueueTimer(now: nat)
      requires Valid()
      modifies this`network, this`autoFixQ, this`manFixQ, this`sqlChanCache, this`nextFix, Recs()
      ensures Valid() && fresh(Recs() - old(Recs()))
      ensures forall d :: SliceOf(d) == Step(old(cfg), old(Shared()), old(SliceOf(d)), TimerQueue, now)
      ensures nextFix == now + PROCESS_QUEUE_TIME
    {
      ProcessQueue(now);
      nextFix := now + PROCESS_QUEUE_TIME;
    }

    /** The timers that work on scores; `sqlFails` names the channels whose rows a rotation fails to delete. */
    method HandleScoreTimer(e: Event, sqlFails: set<Name>, now: nat)
      requires Valid() && (e.TimerPoints? || e.TimerRotate?)
      modifies this`sqlChanOps, this`sqlChanCache, this`currentDay
      ensures Valid() && Recs() <= old(Recs())
      ensures forall d :: SliceOf(d) == Step(old(cfg), old(Shared()), old(SliceOf(d)), Seen(e, d, sqlFails), now)
      ensures Shared() == StatusStep(old(Shared()), e, now)
    {
      if e.TimerPoints? {
        GiveAllOpsPoints(now);
      } else {
        RotateDB(sqlFails, now);
      }
    }

    method HandleTimer(e: Event, sqlFails: set<Name>, now: nat)
      requires Valid() && e.Timer()
      modifies this, Recs()
      ensures Valid() && cfg == old(cfg) && fresh(Recs() - old(Recs()))
      ensures forall d :: SliceOf(d) == Step(old(cfg), old(Shared()), old(SliceOf(d)), Seen(e, d, sqlFails), now)
      ensures Shared() == StatusStep(old(Shared()), e, now)
      ensures nextFix == if e.TimerQueue? then now + PROCESS_QUEUE_TIME else old(nextFix)
    {
      match e
      case TimerAutoFix => AutoFix(now);
      case TimerQueue => HandleQueueTimer(now);
      case TimerPoints => HandleScoreTimer(e, sqlFails, now);
      case TimerRotate(_) => HandleScoreTimer(e, sqlFails, now);
      case TimerTempBlocks => ExpireTempBlocks(now);
    }

    /** The commands that order or simulate a fix. */
    method HandleOrder(c: Name, e: Event, now: nat)
      requires Valid() && (e.CommandChanfix? || e.CommandRequestOp? || e.CommandSimulate?) && currentState != BURST
      modifies this`network, this`manFixQ, this`autoFixQ, this`sqlChanCache, this`simMap, Recs()
      ensures Valid() && fresh(Recs() - old(Recs()))
      ensures SliceOf(c) == Step(old(cfg), old(Shared()), old(SliceOf(c)), e, now)
      ensures forall d | d != c :: SliceOf(d) == old(SliceOf(d))
    {
      match e
      case CommandChanfix(override, sqlOk) => CommandChanfix(c, override, sqlOk, now);
      case CommandRequestOp(asker, lastFix, nan, sqlOk) => CommandRequestOp(c, asker, lastFix, nan, sqlOk, now);
      case CommandSimulate(autofix, sqlOk) =>
        var report, n := CommandSimulate(c, autofix, sqlOk);
    }

    /** The commands about a channel's record. */
    method HandleRecord(c: Name, e: Event, now: nat)
      requires Valid() && (e.CommandBlock? || e.CommandUnblock? || e.CommandAlert? || e.CommandNote?)
      requires currentState != BURST
      modifies this`manFixQ, this`autoFixQ, this`sqlChanCache, Recs()
      ensures Valid() && fresh(Recs() - old(Recs()))
      ensures SliceOf(c) == Step(old(cfg), old(Shared()), old(SliceOf(c)), e, now)
      ensures forall d | d != c :: SliceOf(d) == old(SliceOf(d))
    {
      match e
      case CommandBlock(sqlOk) => CommandBlock(c, sqlOk);
      case CommandUnblock(sqlOk) => CommandUnblock(c, sqlOk);
      case CommandAlert(alert, sqlOk) => CommandAlert(c, alert, sqlOk);
      case CommandNote(sqlOk) => AddNote(c, sqlOk);
    }

    method HandleCommand(c: Name, e: Event, now: nat)
      requires Valid() && e.Command()
      modifies this`network, this`manFixQ, this`autoFixQ, this`sqlChanCache, this`simMap, Recs()
      ensures Valid() && fresh(Recs() - old(Recs()))
      ensures SliceOf(c) == Step(old(cfg), old(Shared()), old(SliceOf(c)), e, now)
      ensures forall d | d != c :: SliceOf(d) == old(SliceOf(d))
    {
      if currentState == BURST {
        return;
      }
      if e.CommandChanfix? || e.CommandRequestOp? || e.CommandSimulate? {
        HandleOrder(c, e, now);
      } else {
        HandleRecord(c, e, now);
      }
    }

    method HandleChannel(c: Name, e: Event, now: nat)
      requires Valid() && (e.OpMode? || e.ServiceMode? || e.Roster?)
      modifies this`network, this`tempBlockList, this`sqlChanOps, this`autoFixQ, this`manFixQ, Recs()
      ensures Valid() && cfg == old(cfg) && fresh(Recs() - old(Recs()))
      ensures SliceOf(c) == Step(old(cfg), old(Shared()), old(SliceOf(c)), e, now)
      ensures forall d | d != c :: SliceOf(d) == old(SliceOf(d))
      ensures Shared() == StatusStep(old(Shared()), e, now)
    {
      match e
      case OpMode(byUser, byService, targets) => OnChannelModeO(c, byUser, byService, targets, now);
      case ServiceMode => OnServerMode(c, now);
      case Roster(net) => SetNetwork(c, net);
    }

    method HandleStatus(e: Event, now: nat)
      requires Valid() && e.OfService()
      modifies this`linked, this`numServers, this`minServersPresent, this`chanServLinked, this`currentState
      ensures forall d :: SliceOf(d) == old(SliceOf(d))
      ensures Shared() == StatusStep(old(Shared()), e, now)
    {
      match e
      case ServerLink(n) => linked := n; CheckNetwork();
      case SetNumServers(n) => if currentState != BURST { numServers := n; CheckNetwork(); }
      case Rehash(n, m) => if currentState != BURST { numServers, minServersPresent := n, m; }
      case ServiceLink(up) => chanServLinked := up;
      case BurstComplete => if currentState != SPLIT { currentState := RUN; }
      case Connected => if currentState == INIT { currentState := RUN; }
    }

    /** SET and REHASH. */
    method Configure(settings: Settings)
      modifies this`cfg
      ensures cfg == settings
    {
      cfg := settings;
    }

    /** Commands and what the network does concern one channel. */
    method HandleOne(c: Name, e: Event, now: nat)
      requires Valid() && !e.Timer() && !e.OfService()
      modifies this`network, this`manFixQ, this`autoFixQ, this`tempBlockList, this`sqlChanOps, this`sqlChanCache,
               this`simMap, Recs()
      ensures Valid() && fresh(Recs() - old(Recs()))
      ensures SliceOf(c) == Step(old(cfg), old(Shared()), old(SliceOf(c)), e, now)
      ensures forall d | d != c :: SliceOf(d) == old(SliceOf(d))
    {
      if e.Command() {
        HandleCommand(c, e, now);
      } else {
        HandleChannel(c, e, now);
      }
    }

    /** Whatever happens, each channel's slice and the shared status take exactly the step of the specification. */
    method Handle(c: Name, e: Event, sqlFails: set<Name>, now: nat)
      requires Valid()
      modifies this, Recs()
      ensures Valid() && cfg == old(cfg) && fresh(Recs() - old(Recs()))
      ensures forall d | Concerns(c, e, d) ::
              SliceOf(d) == Step(old(cfg), old(Shared()), old(SliceOf(d)), Seen(e, d, sqlFails), now)
      ensures forall d | !Concerns(c, e, d) :: SliceOf(d) == old(SliceOf(d))
      ensures Shared() == StatusStep(old(Shared()), e, now)
      ensures nextFix == if e.TimerQueue? then now + PROCESS_QUEUE_TIME else old(nextFix)
    {
      if e.Timer() {
        HandleTimer(e, sqlFails, now);
      } else if e.OfService() {
        StatusOnly(cfg, Shared(), e, now);
        HandleStatus(e, now);
      } else {
        HandleOne(c, e, now);
      }
    }
  }

  /** An event as channel d meets it: deleting its row in a rotation may fail. */
  function Seen(e: Event, d: Name, sqlFails: set<Name>): Event {
    if e.TimerRotate? then TimerRotate(d !in sqlFails) else e
  }

  /** Whether an event about channel c concerns channel d: timers and changes of the service's state concern all. */
  predicate Concerns(c: Name, e: Event, d: Name) {
    d == c || e.Timer() || e.OfService()
  }

  lemma RankingDistinct(ops: OpTable)
    ensures DistinctAccounts(MyOps(ops))
  {
    MyOpsIsRanking(ops);
    forall i, j | 0 <= i < j < |MyOps(ops)|
      ensures MyOps(ops)[i].account != MyOps(ops)[j].account
    {
      assert Before(MyOps(ops)[i], MyOps(ops)[j]);
    }
  }

  /** findAccount, with its meaning for every client. */
  method AccountClients(users: seq<User>, a: Acct) returns (accts: seq<User>)
    ensures accts == FindAccount(users, a)
    ensures forall u | u in accts :: u in users && u.account == a
  {
    accts := FindAccountLoop(users, a);
    forall u | u in accts
      ensures u in users && u.account == a
    {
      FindAccountExact(users, a, u);
    }
  }

  /** The accounts picked so far in a round are not the next one, so looking it up only finds earlier rounds. */
  lemma NotYetPicked(ranking: seq<Ranked>, i: nat, users: seq<User>, min: int, sim0: seq<SimOpped>, c: Name)
    requires i < |ranking| && DistinctAccounts(ranking)
    ensures var picked := SimCandidates(ranking[..i], users, min, sim0, c);
            Found(sim0 + Entries(c, picked), c, ranking[i].account) <==> Found(sim0, c, ranking[i].account)
  {
    SimCandidatesExact(ranking[..i], users, min, sim0, c);
    var picked := SimCandidates(ranking[..i], users, min, sim0, c);
    forall k | 0 <= k < |picked|
      ensures picked[k].account != ranking[i].account
    {
      assert picked[k] in picked;
      assert Pickable(picked[k], ranking[..i], users, min, sim0, c);
      var m :| 0 <= m < i && ranking[..i][m].account == picked[k].account;
      assert ranking[m].account == picked[k].account;
    }
  }

  lemma StatusOnly(cfg: Settings, st: Status, e: Event, now: int)
    requires e.OfService()
    ensures forall s :: Step(cfg, st, s, e, now) == s
  {
  }

  lemma WithOpsTwice(s: Slice, a: OpTable, b: OpTable)
    requires b == map[] ==> a == map[]
    ensures s.WithOps(a).WithOps(b) == s.WithOps(b) && s.WithOps(a).Ops() == a
  {
  }

  /** What the next user of a channel does to the table. */
  lemma AwardNext(cfg: Settings, serv: bool, s: Slice, users: seq<User>, i: nat, today: Slot, now: int)
    requires i < |users|
    ensures var t, t' := AwardUsers(cfg, serv, s.Ops(), users[..i], today, now),
                         AwardUsers(cfg, serv, s.Ops(), users[..i + 1], today, now);
            var s1 := s.WithOps(t.ops);
            if users[i].opped && users[i].account != NO_ACCOUNT && users[i].account !in t.scored
            then s1.WithOps(Slices.GivePoints(cfg, serv, s1.Ops(), users[i], today, now).0) == s.WithOps(t'.ops)
                 && t'.scored == t.scored + {users[i].account}
            else t' == t
  {
    assert users[..i + 1][..i] == users[..i];
    var t := AwardUsers(cfg, serv, s.Ops(), users[..i], today, now);
    GivePointsGrows(cfg, serv, t.ops, users[i], today, now);
    WithOpsTwice(s, t.ops, Slices.GivePoints(cfg, serv, t.ops, users[i], today, now).0);
  }

  lemma GivePointsGrows(cfg: Settings, serv: bool, ops: OpTable, u: User, today: Slot, now: int)
    ensures Slices.GivePoints(cfg, serv, ops, u, today, now).0 == map[] ==> ops == map[]
  {
    var ops' := Slices.GivePoints(cfg, serv, ops, u, today, now).0;
    assert forall a | a in ops :: a in ops';
  }

  lemma TargetNext(cfg: Settings, st: Status, s: Slice, byUser: bool, targets: seq<Target>, i: nat, now: int)
    requires i < |targets|
    ensures var t, s1 := targets[i], ModeTargets(cfg, st, s, byUser, targets[..i], now);
            ModeTargets(cfg, st, s, byUser, targets[..i + 1], now) ==
            if t.user.account == NO_ACCOUNT || !t.opped then s1
            else var s2 := s1.WithOps(Slices.GotOpped(cfg, st.chanServ, s1.Ops(), t.user, now));
                 if byUser then StopFixing(cfg, s2, false) else s2
  {
    assert targets[..i + 1][..i] == targets[..i];
  }

  /** rotateDB's inner loop over one channel's records. */
  method RotateTable(ops: OpTable, slot: Slot, now: int) returns (rotated: OpTable)
    ensures rotated == RotateOps(ops, slot, now)
  {
    rotated := ops;
    var todo := ops.Keys;
    while todo != {}
      invariant todo <= ops.Keys
      invariant rotated == map a | a in ops && (a in todo || Keeps(ops[a].WithSlot(slot, 0), now)) ::
                             if a in todo then ops[a] else ops[a].WithSlot(slot, 0)
      decreases todo
    {
      var a := Smallest(todo);
      var curOp := rotated[a].WithSlot(slot, 0);
      if (curOp.points <= 0 && now - (POINTS_UPDATE_TIME + 10) > curOp.first) || now - DAYSAMPLES * DAY > curOp.last {
        rotated := rotated - {a};
      } else {
        rotated := rotated[a := curOp];
      }
      todo := todo - {a};
    }
  }


  /** The minimum score computation, shared here by fixChan, shouldCJoin and simFix, which each repeat it. */
  method BarFor(maxScore: int, timeSinceStart: int) returns (minScore: int)
    ensures minScore == MinScore(maxScore, timeSinceStart) <= maxScore
  {
    minScore := MinScoreAbs(timeSinceStart);
    var minScoreRel := MinScoreRel(maxScore, timeSinceStart);
    if minScoreRel > minScore {
      minScore := minScoreRel;
    }
    if maxScore < minScore {
      minScore := maxScore;
    }
  }

  /** shouldCJoin's selection loop: whether the cap would be reached. */
  method ReachesCap(ranking: seq<Ranked>, users: seq<User>, min: int, currentOps: nat) returns (reached: bool)
    requires currentOps < NUM_OPPED
    ensures reached <==> |Candidates(ranking, users, min)| >= NUM_OPPED - currentOps
  {
    reached := false;
    var numClientsToOp := 0;
    var i := 0;
    while i < |ranking| && !reached
      invariant 0 <= i <= |ranking|
      invariant !reached ==>
                numClientsToOp == |Candidates(ranking[..i], users, min)| && numClientsToOp + currentOps < NUM_OPPED
      invariant reached ==> |Candidates(ranking, users, min)| >= NUM_OPPED - currentOps
      decreases |ranking| - i
    {
      assert ranking[..i + 1][..i] == ranking[..i];
      if ranking[i].points >= min {
        var accts := FindAccountLoop(users, ranking[i].account);
        numClientsToOp, reached := CountUnopped(accts, numClientsToOp, currentOps);
        CandidatesPrefix(ranking, i + 1, users, min);
      }
      i := i + 1;
    }
    assert ranking[..|ranking|] == ranking;
  }

  method CountUnopped(accts: seq<User>, counted: nat, currentOps: nat) returns (n: nat, maxed: bool)
    requires counted + currentOps < NUM_OPPED
    ensures maxed <==> counted + |Unopped(accts)| + currentOps >= NUM_OPPED
    ensures !maxed ==> n == counted + |Unopped(accts)|
  {
    n, maxed := counted, false;
    var k := 0;
    while k < |accts| && !maxed
      invariant 0 <= k <= |accts|
      invariant n == counted + |Unopped(accts[..k])|
      invariant maxed <==> n + currentOps >= NUM_OPPED
      decreases |accts| - k
    {
      assert accts[..k + 1][..k] == accts[..k];
      if !accts[k].opped {
        n := n + 1;
        maxed := n + currentOps >= NUM_OPPED;
      }
      k := k + 1;
    }
    UnoppedPrefix(accts, k);
    assert accts[..|accts|] == accts;
  }

  /** autoFix's look at the user list: nobody is opped and no service client is present. */
  method LooksOpless(users: seq<User>) returns (opless: bool)
    ensures opless <==> !HasService(users) && CountOps(users) == 0
  {
    var opLess, hasService := true, false;
    var i := 0;
    CountOpsBound(users);
    while i < |users| && !hasService
      invariant 0 <= i <= |users|
      invariant hasService ==> HasService(users)
      invariant !hasService ==> forall k | 0 <= k < i :: !users[k].service
      invariant !hasService ==> (opLess <==> forall k | 0 <= k < i :: !users[k].opped)
      decreases |users| - i
    {
      if users[i].service {
        hasService := true;
      } else if users[i].opped {
        opLess := false;
      }
      i := i + 1;
    }
    return opLess && !hasService;
  }
}
