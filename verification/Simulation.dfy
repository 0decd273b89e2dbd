/** The simulated fix: a day of rounds, each picking accounts as an attempt would, remembered in the simulation map. */
module Simulation {
  import opened Config
  import opened Ranking
  import opened Chooser
  import opened Threshold

  /** An account that a simulation in progress has opped on a channel, and a reported pick with its time. */
  datatype SimOpped = SimOpped(channel: Name, account: Acct)
  datatype Pick = Pick(time: int, user: User)

  /** What SIMULATE reports: the picks of all rounds, and whether the fix would have been complete. */
  datatype Report = Report(fixed: bool, picks: seq<Pick>)

  predicate Found(simMap: seq<SimOpped>, c: Name, a: Acct) {
    SimOpped(c, a) in simMap
  }

  function Entries(c: Name, users: seq<User>): seq<SimOpped> {
    seq(|users|, i requires 0 <= i < |users| => SimOpped(c, users[i].account))
  }

  function PickEntries(c: Name, picks: seq<Pick>): seq<SimOpped> {
    seq(|picks|, i requires 0 <= i < |picks| => SimOpped(c, picks[i].user.account))
  }

  function Reported(users: seq<User>, t: int): seq<Pick> {
    seq(|users|, i requires 0 <= i < |users| => Pick(t, users[i]))
  }

  function Without(simMap: seq<SimOpped>, c: Name): seq<SimOpped> {
    if simMap == [] then []
    else Without(simMap[..|simMap| - 1], c) + (if simMap[|simMap| - 1].channel == c then [] else [simMap[|simMap| - 1]])
  }

  function SimElapsed(start: int, autofix: bool, t: int): int {
    if autofix then t - start else t - (start + CHANFIX_DELAY)
  }

  ghost predicate OnePerAccount(users: seq<User>) {
    forall i, j | 0 <= i < j < |users| :: users[i].account != users[j].account
  }

  ghost predicate DistinctAccounts(ranking: seq<Ranked>) {
    forall i, j | 0 <= i < j < |ranking| :: ranking[i].account != ranking[j].account
  }

  /** The first client of every sufficiently scored account that the simulation has not opped yet, best first. */
  function SimCandidates(ranking: seq<Ranked>, users: seq<User>, min: int, simMap: seq<SimOpped>, c: Name): seq<User> {
    if ranking == [] then []
    else
      var x := ranking[|ranking| - 1];
      SimCandidates(ranking[..|ranking| - 1], users, min, simMap, c) +
      (if x.points >= min && !Found(simMap, c, x.account) && FindAccount(users, x.account) != []
       then [FindAccount(users, x.account)[0]] else [])
  }

  /** What one round picks on a channel with `amt` picks so far. */
  function RoundPicks(net: Option<Chan>, ranking: seq<Ranked>, bar: int, simMap: seq<SimOpped>, c: Name,
                      amt: nat): seq<User>
  {
    if net.None? || ranking == [] || ranking[0].points <= MIN_FIXABLE || amt >= NUM_OPPED then []
    else Take(SimCandidates(ranking, net.value.users, bar, simMap, c), NUM_OPPED - amt)
  }

  /** The score a round asks for. */
  function SimBar(ranking: seq<Ranked>, elapsed: int): int {
    if ranking == [] then 0 else MinScore(ranking[0].points, elapsed)
  }

  function RoundBar(ranking: seq<Ranked>, autofix: bool, t0: nat, k: nat): int {
    SimBar(ranking, SimElapsed(RoundTime(t0, 0), autofix, RoundTime(t0, k)))
  }

  /** Whether a round that picked `n` more reports the fix as complete. */
  predicate RoundFixed(net: Option<Chan>, ranking: seq<Ranked>, autofix: bool, amt: nat, n: nat)
    requires ranking != []
  {
    || net.None?
    || (ranking[0].points > MIN_FIXABLE &&
        (amt >= NUM_OPPED ||
         ((n > 0 || (autofix && amt > 0)) && (n + amt >= |net.value.users| || n + amt >= NUM_OPPED))))
  }

  /** The first round comes at the first step of 30 seconds whose time exceeds the window, that is, at once. */
  function FirstStep(t0: nat): nat {
    if t0 > AUTOFIX_MAXIMUM then 1 else (AUTOFIX_MAXIMUM - t0) / PROCESS_QUEUE_TIME + 1
  }

  /** The step of the k-th round: the second comes only after the window has passed, the others follow each step. */
  function RoundStep(t0: nat, k: nat): nat {
    if k == 0 then FirstStep(t0) else FirstStep(t0) + AUTOFIX_MAXIMUM / PROCESS_QUEUE_TIME + k
  }

  function RoundTime(t0: nat, k: nat): nat {
    t0 + PROCESS_QUEUE_TIME * RoundStep(t0, k)
  }

  /** Every round but the first lies beyond the fix window that the simulation is about. */
  lemma LaterRoundsAreLate(t0: nat, k: nat)
    requires k > 0
    ensures RoundTime(t0, k) - RoundTime(t0, 0) > AUTOFIX_MAXIMUM
  {
  }

  /** All picks of the first n rounds. */
  function SimPicks(net: Option<Chan>, ranking: seq<Ranked>, autofix: bool, sim0: seq<SimOpped>, c: Name, t0: nat,
                    n: nat): seq<Pick>
  {
    if n == 0 then []
    else
      var before := SimPicks(net, ranking, autofix, sim0, c, t0, n - 1);
      before + Reported(RoundPicks(net, ranking, RoundBar(ranking, autofix, t0, n - 1),
                                   sim0 + PickEntries(c, before), c, |before|),
                        RoundTime(t0, n - 1))
  }

  /** Whether the k-th round reports the fix as complete. */
  predicate FixedIn(net: Option<Chan>, ranking: seq<Ranked>, autofix: bool, sim0: seq<SimOpped>, c: Name, t0: nat,
                    k: nat)
    requires ranking != []
  {
    var before, after := SimPicks(net, ranking, autofix, sim0, c, t0, k),
                         SimPicks(net, ranking, autofix, sim0, c, t0, k + 1);
    |before| <= |after| && RoundFixed(net, ranking, autofix, |before|, |after| - |before|)
  }

  /** Success is reported by the last round, and by no earlier one. */
  ghost predicate FixedLast(net: Option<Chan>, ranking: seq<Ranked>, autofix: bool, sim0: seq<SimOpped>, c: Name,
                            t0: nat, n: nat, isFixed: bool)
  {
    ranking != [] ==>
      forall k: nat | k < n :: FixedIn(net, ranking, autofix, sim0, c, t0, k) <==> (isFixed && k == n - 1)
  }

  lemma FixedLastGrows(net: Option<Chan>, ranking: seq<Ranked>, autofix: bool, sim0: seq<SimOpped>, c: Name, t0: nat,
                       n: nat, isFixed: bool)
    requires FixedLast(net, ranking, autofix, sim0, c, t0, n, false)
    requires ranking != [] ==> (isFixed <==> FixedIn(net, ranking, autofix, sim0, c, t0, n))
    ensures FixedLast(net, ranking, autofix, sim0, c, t0, n + 1, isFixed)
  {
  }

  /** The report of a simulation of n rounds from time t0 on, with `sim0` opped before. */
  ghost predicate Reports(report: Report, net: Option<Chan>, ranking: seq<Ranked>, autofix: bool, sim0: seq<SimOpped>,
                          c: Name, t0: nat, n: nat)
  {
    && report.picks == SimPicks(net, ranking, autofix, sim0, c, t0, n)
    && FixedLast(net, ranking, autofix, sim0, c, t0, n, report.fixed)
    && DayOver(t0, n, report.fixed)
  }

  /** Unless a round reported success, the rounds filled the whole day. */
  ghost predicate DayOver(t0: nat, n: nat, isFixed: bool) {
    if isFixed then n > 0
    else if t0 == 0 then n == 0
    else RoundTime(t0, n) > t0 + DAY && (n > 0 ==> RoundTime(t0, n - 1) <= t0 + DAY)
  }

  /** After n rounds the clock has come to `step`: the next round is not earlier, the last one was. */
  ghost predicate Between(t0: nat, n: nat, step: nat) {
    step >= 1 && RoundStep(t0, n) >= step && (n > 0 ==> RoundStep(t0, n - 1) < step)
  }

  lemma FirstStepExact(t0: nat, step: nat)
    requires step >= 1
    ensures t0 + PROCESS_QUEUE_TIME * step > AUTOFIX_MAXIMUM <==> step >= FirstStep(t0)
  {
  }

  /** A step of the clock starts the next round exactly when its time is past the window of the first. */
  lemma RoundDue(t0: nat, n: nat, step: nat)
    requires Between(t0, n, step)
    ensures t0 + PROCESS_QUEUE_TIME * step - (if n == 0 then 0 else RoundTime(t0, 0)) > AUTOFIX_MAXIMUM <==>
            RoundStep(t0, n) == step
    ensures Between(t0, if RoundStep(t0, n) == step then n + 1 else n, step + 1)
  {
    FirstStepExact(t0, step);
  }

  lemma DayEnds(t0: nat, n: nat, step: nat, t: nat)
    requires t0 > 0 && Between(t0, n, step) && t == t0 + DAY
    requires t < t0 + PROCESS_QUEUE_TIME * step <= t + PROCESS_QUEUE_TIME
    ensures DayOver(t0, n, false)
  {
  }

  lemma {:induction false} WithoutAdded(simMap: seq<SimOpped>, added: seq<SimOpped>, c: Name)
    requires forall i | 0 <= i < |added| :: added[i].channel == c
    ensures Without(simMap + added, c) == Without(simMap, c)
  {
    if added == [] {
      assert simMap + added == simMap;
    } else {
      assert (simMap + added)[..|simMap + added| - 1] == simMap + added[..|added| - 1];
      WithoutAdded(simMap, added[..|added| - 1], c);
    }
  }

  /** Cleaning up removes the channel's entries and nothing else. */
  lemma {:induction false} WithoutExact(simMap: seq<SimOpped>, c: Name, x: SimOpped)
    ensures x in Without(simMap, c) <==> x in simMap && x.channel != c
  {
    if simMap != [] {
      WithoutExact(simMap[..|simMap| - 1], c, x);
      assert simMap == simMap[..|simMap| - 1] + [simMap[|simMap| - 1]];
    }
  }

  lemma {:induction false} SimCandidatesPrefix(ranking: seq<Ranked>, i: nat, users: seq<User>, min: int,
                                               simMap: seq<SimOpped>, c: Name)
    requires i <= |ranking|
    ensures SimCandidates(ranking[..i], users, min, simMap, c) <= SimCandidates(ranking, users, min, simMap, c)
    decreases |ranking| - i
  {
    if i < |ranking| {
      assert ranking[..i + 1][..i] == ranking[..i];
      SimCandidatesPrefix(ranking, i + 1, users, min, simMap, c);
    } else {
      assert ranking[..i] == ranking;
    }
  }

  lemma OneMoreAccount(users: seq<User>, u: User)
    requires OnePerAccount(users) && forall v | v in users :: v.account != u.account
    ensures OnePerAccount(users + [u])
  {
    assert forall i | 0 <= i < |users| :: users[i] in users;
  }

  /** A pick of a round: on the channel, scored at the bar, and not opped before. */
  ghost predicate Pickable(u: User, ranking: seq<Ranked>, users: seq<User>, min: int, simMap: seq<SimOpped>, c: Name) {
    u in users && Ranks(ranking, u.account, min) && !Found(simMap, c, u.account)
  }

  lemma {:induction false} SimCandidatesExact(ranking: seq<Ranked>, users: seq<User>, min: int, simMap: seq<SimOpped>,
                                              c: Name)
    requires DistinctAccounts(ranking)
    ensures var l := SimCandidates(ranking, users, min, simMap, c);
            && (forall u | u in l :: Pickable(u, ranking, users, min, simMap, c))
            && OnePerAccount(l)
  {
    if ranking != [] {
      var rest, x := ranking[..|ranking| - 1], ranking[|ranking| - 1];
      SimCandidatesExact(rest, users, min, simMap, c);
      var l, l' := SimCandidates(rest, users, min, simMap, c), SimCandidates(ranking, users, min, simMap, c);
      forall u | u in l
        ensures Pickable(u, ranking, users, min, simMap, c) && u.account != x.account
      {
        RanksLast(ranking, u.account, min);
        assert Pickable(u, rest, users, min, simMap, c);
        var i :| 0 <= i < |rest| && rest[i].account == u.account && rest[i].points >= min;
        assert ranking[i] == rest[i];
      }
      if l' != l {
        var u := FindAccount(users, x.account)[0];
        FindAccountExact(users, x.account, u);
        RanksLast(ranking, u.account, min);
        assert l' == l + [u];
        OneMoreAccount(l, u);
      }
    }
  }

  /** An account that a round can pick: it meets the bar, was not opped before, and has a client on the channel. */
  ghost predicate Deserves(a: Acct, ranking: seq<Ranked>, users: seq<User>, min: int, simMap: seq<SimOpped>, c: Name) {
    Ranks(ranking, a, min) && !Found(simMap, c, a) && exists u :: u in users && u.account == a
  }

  ghost predicate PicksAccount(picks: seq<User>, a: Acct) {
    exists u :: u in picks && u.account == a
  }

  /** No deserving account is left out of the candidates. */
  lemma {:induction false} SimCandidatesComplete(ranking: seq<Ranked>, users: seq<User>, min: int,
                                                 simMap: seq<SimOpped>, c: Name, a: Acct)
    ensures PicksAccount(SimCandidates(ranking, users, min, simMap, c), a) <==>
            Deserves(a, ranking, users, min, simMap, c)
  {
    if ranking != [] {
      var rest, x := ranking[..|ranking| - 1], ranking[|ranking| - 1];
      SimCandidatesComplete(rest, users, min, simMap, c, a);
      RanksLast(ranking, a, min);
      AccountFound(users, x.account);
      var l, found := SimCandidates(rest, users, min, simMap, c), FindAccount(users, x.account);
      if x.points >= min && !Found(simMap, c, x.account) && found != [] {
        assert SimCandidates(ranking, users, min, simMap, c) == l + [found[0]];
        assert found[0] in l + [found[0]];
        assert forall u :: u in l + [found[0]] <==> u in l || u == found[0];
      }
    }
  }

  lemma AccountFound(users: seq<User>, a: Acct)
    ensures FindAccount(users, a) != [] <==> exists u :: u in users && u.account == a
    ensures FindAccount(users, a) != [] ==> FindAccount(users, a)[0].account == a
  {
    var found := FindAccount(users, a);
    if found != [] {
      FindAccountExact(users, a, found[0]);
    }
    if u :| u in users && u.account == a {
      FindAccountExact(users, a, u);
    }
  }

  /** The client's account has place k in the ranking. */
  ghost predicate PlacedAt(u: User, ranking: seq<Ranked>, k: int) {
    0 <= k < |ranking| && ranking[k].account == u.account
  }

  /** The candidates come in the order of the ranking, best first. */
  lemma {:induction false} SimCandidatesOrdered(ranking: seq<Ranked>, users: seq<User>, min: int,
                                                simMap: seq<SimOpped>, c: Name, i: nat, j: nat, m: int, n: int)
    requires DistinctAccounts(ranking) && i < j < |SimCandidates(ranking, users, min, simMap, c)|
    requires PlacedAt(SimCandidates(ranking, users, min, simMap, c)[i], ranking, m)
    requires PlacedAt(SimCandidates(ranking, users, min, simMap, c)[j], ranking, n)
    ensures m < n
  {
    var k := |ranking| - 1;
    var rest, x := ranking[..k], ranking[k];
    var l, l' := SimCandidates(rest, users, min, simMap, c), SimCandidates(ranking, users, min, simMap, c);
    SimCandidatesExact(rest, users, min, simMap, c);
    assert l'[i] == l[i] && l[i] in l;
    assert Pickable(l[i], rest, users, min, simMap, c);
    var p :| 0 <= p < k && rest[p].account == l[i].account && rest[p].points >= min;
    assert ranking[p] == rest[p] && m == p;
    if j < |l| {
      assert l'[j] == l[j] && l[j] in l;
      assert Pickable(l[j], rest, users, min, simMap, c);
      var q :| 0 <= q < k && rest[q].account == l[j].account && rest[q].points >= min;
      assert ranking[q] == rest[q] && n == q;
      SimCandidatesOrdered(rest, users, min, simMap, c, i, j, m, n);
    } else {
      AccountFound(users, x.account);
      assert l'[j].account == x.account;
    }
  }

  ghost function Deserving(ranking: seq<Ranked>, users: seq<User>, min: int, simMap: seq<SimOpped>,
                           c: Name): set<Acct>
  {
    set i | 0 <= i < |ranking| && Deserves(ranking[i].account, ranking, users, min, simMap, c) :: ranking[i].account
  }

  function Accounts(users: seq<User>): seq<Acct> {
    seq(|users|, i requires 0 <= i < |users| => users[i].account)
  }

  lemma SimCandidatesCount(ranking: seq<Ranked>, users: seq<User>, min: int, simMap: seq<SimOpped>, c: Name)
    requires DistinctAccounts(ranking)
    ensures |SimCandidates(ranking, users, min, simMap, c)| == |Deserving(ranking, users, min, simMap, c)|
  {
    var l, all := SimCandidates(ranking, users, min, simMap, c), Deserving(ranking, users, min, simMap, c);
    SimCandidatesExact(ranking, users, min, simMap, c);
    forall a: Acct
      ensures a in Accounts(l) <==> a in all
    {
      SimCandidatesComplete(ranking, users, min, simMap, c, a);
      if a in Accounts(l) {
        var i :| 0 <= i < |l| && Accounts(l)[i] == a;
        assert l[i] in l;
      }
      if Deserves(a, ranking, users, min, simMap, c) {
        var u :| u in l && u.account == a;
        var i :| 0 <= i < |l| && l[i] == u;
        assert Accounts(l)[i] == a;
      }
    }
    DistinctCardinality(Accounts(l), all);
  }

  /**
   * A round picks as many accounts as deserve it and fit under the cap; whoever it passes over is not before any of the
   * picked in the ranking.
   */
  lemma RoundPicksExact(net: Option<Chan>, ranking: seq<Ranked>, bar: int, simMap: seq<SimOpped>, c: Name, amt: nat)
    requires net.Some? && DistinctAccounts(ranking) && ranking != [] && ranking[0].points > MIN_FIXABLE
    requires amt < NUM_OPPED
    ensures var picks := RoundPicks(net, ranking, bar, simMap, c, amt);
            var n := |Deserving(ranking, net.value.users, bar, simMap, c)|;
            && |picks| == (if n < NUM_OPPED - amt then n else NUM_OPPED - amt)
            && forall u, a, m, k |
                 && u in picks && PlacedAt(u, ranking, m) && 0 <= k < |ranking| && ranking[k].account == a
                 && Deserves(a, ranking, net.value.users, bar, simMap, c) && !PicksAccount(picks, a) :: m < k
  {
    var users := net.value.users;
    var picks, all := RoundPicks(net, ranking, bar, simMap, c, amt), SimCandidates(ranking, users, bar, simMap, c);
    SimCandidatesCount(ranking, users, bar, simMap, c);
    forall u, a, m, k |
      && u in picks && PlacedAt(u, ranking, m) && 0 <= k < |ranking| && ranking[k].account == a
      && Deserves(a, ranking, users, bar, simMap, c) && !PicksAccount(picks, a)
      ensures m < k
    {
      SimCandidatesComplete(ranking, users, bar, simMap, c, a);
      var v :| v in all && v.account == a;
      var i :| 0 <= i < |picks| && picks[i] == u;
      var j :| 0 <= j < |all| && all[j] == v;
      assert all[i] == u && PlacedAt(v, ranking, k);
      SimCandidatesOrdered(ranking, users, bar, simMap, c, i, j, m, k);
    }
  }

  /** Of a picked account it is the first client on the channel that is picked. */
  lemma {:induction false} SimPicksFirstClient(ranking: seq<Ranked>, users: seq<User>, min: int, simMap: seq<SimOpped>,
                                               c: Name, u: User)
    requires u in SimCandidates(ranking, users, min, simMap, c)
    ensures exists i :: 0 <= i < |users| && users[i] == u && forall j :: 0 <= j < i ==> users[j].account != u.account
  {
    var rest, x := ranking[..|ranking| - 1], ranking[|ranking| - 1];
    var l := SimCandidates(rest, users, min, simMap, c);
    if u in l {
      SimPicksFirstClient(rest, users, min, simMap, c, u);
    } else {
      assert SimCandidates(ranking, users, min, simMap, c) == l + [FindAccount(users, x.account)[0]];
      FindAccountFirst(users, x.account);
    }
  }

  /** The bar of a round: that of an attempt as late after the first round, less the delay of a manual fix. */
  lemma RoundBarExact(ranking: seq<Ranked>, autofix: bool, t0: nat, k: nat)
    requires ranking != []
    ensures RoundBar(ranking, autofix, t0, k) ==
            MinScore(ranking[0].points,
                     if k == 0 then (if autofix then 0 else -30)
                     else 3600 + 30 * k - (if autofix then 0 else 30))
  {
  }

  /** Which rounds report success, told from what deserves to be picked in them. */
  lemma RoundFixedExact(net: Option<Chan>, ranking: seq<Ranked>, autofix: bool, sim0: seq<SimOpped>, c: Name, t0: nat,
                        k: nat)
    requires DistinctAccounts(ranking) && ranking != [] && net.Some?
    ensures var before := SimPicks(net, ranking, autofix, sim0, c, t0, k);
            var bar := RoundBar(ranking, autofix, t0, k);
            var n, amt := |Deserving(ranking, net.value.users, bar, sim0 + PickEntries(c, before), c)|, |before|;
            FixedIn(net, ranking, autofix, sim0, c, t0, k) <==>
            && ranking[0].points > MIN_FIXABLE
            && (|| amt >= NUM_OPPED
                || ((n > 0 || (autofix && amt > 0)) && (n + amt >= NUM_OPPED || n + amt >= |net.value.users|)))
  {
    var before := SimPicks(net, ranking, autofix, sim0, c, t0, k);
    var bar := RoundBar(ranking, autofix, t0, k);
    if ranking[0].points > MIN_FIXABLE && |before| < NUM_OPPED {
      RoundPicksExact(net, ranking, bar, sim0 + PickEntries(c, before), c, |before|);
    }
  }

  ghost predicate DistinctPicks(picks: seq<Pick>) {
    forall i, j | 0 <= i < j < |picks| :: picks[i].user.account != picks[j].user.account
  }

  /** The pick was made in one of the first n rounds, at that round's bar. */
  ghost predicate PickedIn(p: Pick, net: Option<Chan>, ranking: seq<Ranked>, autofix: bool, t0: nat, k: nat) {
    && p.time == RoundTime(t0, k) && net.Some? && ranking != [] && p.user in net.value.users
    && Ranks(ranking, p.user.account, RoundBar(ranking, autofix, t0, k))
  }

  /** Over any number of rounds: at most five picks, no account twice, and every pick at the bar of its round. */
  lemma {:induction false} SimPicksGood(net: Option<Chan>, ranking: seq<Ranked>, autofix: bool, sim0: seq<SimOpped>,
                                        c: Name, t0: nat, n: nat)
    requires DistinctAccounts(ranking)
    ensures var picks := SimPicks(net, ranking, autofix, sim0, c, t0, n);
            && |picks| <= NUM_OPPED && DistinctPicks(picks)
            && forall p | p in picks :: exists k: nat :: k < n && PickedIn(p, net, ranking, autofix, t0, k)
  {
    if n > 0 {
      SimPicksGood(net, ranking, autofix, sim0, c, t0, n - 1);
      var before := SimPicks(net, ranking, autofix, sim0, c, t0, n - 1);
      var t := RoundTime(t0, n - 1);
      var bar := RoundBar(ranking, autofix, t0, n - 1);
      var users := RoundPicks(net, ranking, bar, sim0 + PickEntries(c, before), c, |before|);
      RoundIsGood(net, ranking, bar, sim0 + PickEntries(c, before), c, |before|);
      RoundKeepsDistinct(before, users, t, sim0, c);
      forall p | p in Reported(users, t)
        ensures PickedIn(p, net, ranking, autofix, t0, n - 1)
      {
        var i :| 0 <= i < |users| && Reported(users, t)[i] == p;
        assert users[i] in users;
      }
    }
  }

  lemma RoundIsGood(net: Option<Chan>, ranking: seq<Ranked>, bar: int, simMap: seq<SimOpped>, c: Name, amt: nat)
    requires DistinctAccounts(ranking) && amt <= NUM_OPPED
    ensures var users := RoundPicks(net, ranking, bar, simMap, c, amt);
            && |users| + amt <= NUM_OPPED
            && (users != [] ==> net.Some? && ranking != [])
            && (forall u | u in users :: Pickable(u, ranking, net.value.users, bar, simMap, c))
            && OnePerAccount(users)
  {
    if net.Some? {
      SimCandidatesExact(ranking, net.value.users, bar, simMap, c);
    }
  }

  lemma RoundEntries(sim0: seq<SimOpped>, c: Name, picks: seq<Pick>, users: seq<User>, t: int)
    ensures (sim0 + PickEntries(c, picks)) + Entries(c, users) == sim0 + PickEntries(c, picks + Reported(users, t))
  {
  }

  lemma RoundKeepsDistinct(before: seq<Pick>, users: seq<User>, t: int, sim0: seq<SimOpped>, c: Name)
    requires DistinctPicks(before)
    requires OnePerAccount(users)
    requires forall u | u in users :: !Found(sim0 + PickEntries(c, before), c, u.account)
    ensures DistinctPicks(before + Reported(users, t))
  {
    forall i, j | 0 <= i < |before| && 0 <= j < |users|
      ensures before[i].user.account != users[j].account
    {
      assert PickEntries(c, before)[i] in sim0 + PickEntries(c, before);
      assert users[j] in users;
    }
  }
}
