/** Which clients a fix gives ops to (the selection loops of fixChan and shouldCJoin). */
module Chooser {
  import opened Config
  import opened ChanOps
  import opened Ranking
  import opened Threshold

  /** A client on a channel, with its account (0 when not logged in) and the bits chanfix looks at. */
  datatype User = User(id: int, account: Acct, mask: int, service: bool, ident: bool, opped: bool)

  /** A channel on the network; `restricted` when a ban or +i, +k, +l, +r or +D is set. */
  datatype Chan = Chan(users: seq<User>, restricted: bool)

  ghost predicate DistinctUsers(users: seq<User>) {
    forall i, j | 0 <= i < j < |users| :: users[i].id != users[j].id
  }

  function FindAccount(users: seq<User>, a: Acct): seq<User> {
    if users == [] then []
    else FindAccount(users[..|users| - 1], a) + (if users[|users| - 1].account == a then [users[|users| - 1]] else [])
  }

  function Unopped(users: seq<User>): seq<User> {
    if users == [] then []
    else Unopped(users[..|users| - 1]) + (if users[|users| - 1].opped then [] else [users[|users| - 1]])
  }

  function CountOps(users: seq<User>): nat {
    if users == [] then 0
    else CountOps(users[..|users| - 1]) + (if users[|users| - 1].opped then 1 else 0)
  }

  predicate HasService(users: seq<User>) {
    exists i :: 0 <= i < |users| && users[i].service
  }

  /** The unopped clients of sufficiently scored accounts, best account first. */
  function Candidates(ranking: seq<Ranked>, users: seq<User>, min: int): seq<User> {
    if ranking == [] then []
    else
      var x := ranking[|ranking| - 1];
      Candidates(ranking[..|ranking| - 1], users, min) +
      (if x.points >= min then Unopped(FindAccount(users, x.account)) else [])
  }

  function Take<T>(s: seq<T>, n: nat): seq<T> {
    if |s| <= n then s else s[..n]
  }

  /** The clients a fix ops when `room` more may be opped. */
  function Chosen(ranking: seq<Ranked>, users: seq<User>, min: int, room: nat): seq<User> {
    Take(Candidates(ranking, users, min), room)
  }

  function Ids(users: seq<User>): set<int> {
    set i | 0 <= i < |users| :: users[i].id
  }

  /** The MODE +ooo... message: the named clients become ops. */
  function OpUsers(users: seq<User>, ids: set<int>): seq<User> {
    seq(|users|, i requires 0 <= i < |users| => if users[i].id in ids then users[i].(opped := true) else users[i])
  }

  function DeopAll(users: seq<User>): seq<User> {
    seq(|users|, i requires 0 <= i < |users| => users[i].(opped := false))
  }

  // ---- Loops ----

  method FindAccountLoop(users: seq<User>, a: Acct) returns (found: seq<User>)
    ensures found == FindAccount(users, a)
  {
    found := [];
    for i := 0 to |users|
      invariant found == FindAccount(users[..i], a)
    {
      assert users[..i + 1][..i] == users[..i];
      if users[i].account == a {
        found := found + [users[i]];
      }
    }
    assert users[..|users|] == users;
  }

  method CountChanOps(users: seq<User>) returns (n: nat)
    ensures n == CountOps(users)
  {
    n := 0;
    for i := 0 to |users|
      invariant n == CountOps(users[..i])
    {
      assert users[..i + 1][..i] == users[..i];
      if users[i].opped {
        n := n + 1;
      }
    }
    assert users[..|users|] == users;
  }

  method CanScoreChan(users: seq<User>) returns (ok: bool)
    ensures ok <==> !HasService(users)
  {
    for i := 0 to |users|
      invariant !HasService(users[..i])
    {
      if users[i].service {
        return false;
      }
    }
    assert users[..|users|] == users;
    return true;
  }

  /** The inner loop of the selection: adds one account's unopped clients until the cap is reached. */
  method PickUnopped(accts: seq<User>, picked: seq<User>, currentOps: nat, cap: nat)
    returns (toOp: seq<User>, maxed: bool)
    requires |picked| + currentOps < cap
    ensures !maxed ==> toOp == picked + Unopped(accts) && |toOp| + currentOps < cap
    ensures maxed ==> toOp <= picked + Unopped(accts) && |toOp| + currentOps == cap
  {
    toOp, maxed := picked, false;
    var k := 0;
    while k < |accts| && !maxed
      invariant 0 <= k <= |accts|
      invariant toOp == picked + Unopped(accts[..k])
      invariant maxed ==> |toOp| + currentOps == cap
      invariant !maxed ==> |toOp| + currentOps < cap
      decreases |accts| - k
    {
      assert accts[..k + 1][..k] == accts[..k];
      if !accts[k].opped {
        toOp := toOp + [accts[k]];
        if |toOp| + currentOps >= cap {
          maxed := true;
        }
      }
      k := k + 1;
    }
    UnoppedPrefix(accts, k);
    assert accts[..|accts|] == accts;
  }

  /** fixChan's nested selection loop: stops as soon as the channel would have `cap` ops. */
  method DecideOps(ranking: seq<Ranked>, users: seq<User>, min: int, currentOps: nat, cap: nat)
    returns (toOp: seq<User>)
    requires currentOps < cap
    ensures toOp == Chosen(ranking, users, min, cap - currentOps)
  {
    toOp := [];
    var maxed := false;
    var i := 0;
    while i < |ranking| && !maxed
      invariant 0 <= i <= |ranking|
      invariant !maxed ==> toOp == Candidates(ranking[..i], users, min) && |toOp| + currentOps < cap
      invariant maxed ==> toOp <= Candidates(ranking, users, min) && |toOp| + currentOps == cap
      decreases |ranking| - i
    {
      assert ranking[..i + 1][..i] == ranking[..i];
      if ranking[i].points >= min {
        var accts := FindAccountLoop(users, ranking[i].account);
        toOp, maxed := PickUnopped(accts, toOp, currentOps, cap);
        CandidatesPrefix(ranking, i + 1, users, min);
      }
      i := i + 1;
    }
    assert ranking[..|ranking|] == ranking;
  }

  lemma {:induction false} UnoppedPrefix(users: seq<User>, k: nat)
    requires k <= |users|
    ensures Unopped(users[..k]) <= Unopped(users)
    decreases |users| - k
  {
    if k < |users| {
      assert users[..k + 1][..k] == users[..k];
      UnoppedPrefix(users, k + 1);
    } else {
      assert users[..k] == users;
    }
  }

  lemma {:induction false} CandidatesPrefix(ranking: seq<Ranked>, i: nat, users: seq<User>, min: int)
    requires i <= |ranking|
    ensures Candidates(ranking[..i], users, min) <= Candidates(ranking, users, min)
    decreases |ranking| - i
  {
    if i < |ranking| {
      assert ranking[..i + 1][..i] == ranking[..i];
      CandidatesPrefix(ranking, i + 1, users, min);
    } else {
      assert ranking[..i] == ranking;
    }
  }

  // ---- What the selection means ----

  /** A client that deserves ops: on the channel, unopped, its account scored at least `min`. */
  ghost predicate Eligible(u: User, ops: OpTable, users: seq<User>, min: int) {
    u in users && !u.opped && u.account in ops && ops[u.account].points >= min
  }

  ghost function EligibleUsers(ops: OpTable, users: seq<User>, min: int): set<User> {
    set u | u in users && Eligible(u, ops, users, min)
  }

  lemma {:induction false} FindAccountExact(users: seq<User>, a: Acct, u: User)
    ensures u in FindAccount(users, a) <==> u in users && u.account == a
  {
    if users != [] {
      FindAccountExact(users[..|users| - 1], a, u);
      assert users == users[..|users| - 1] + [users[|users| - 1]];
    }
  }

  /** The client found first is the first on the channel. */
  lemma {:induction false} FindAccountFirst(users: seq<User>, a: Acct)
    requires FindAccount(users, a) != []
    ensures exists i :: 0 <= i < |users| && users[i] == FindAccount(users, a)[0] && users[i].account == a
                        && forall j :: 0 <= j < i ==> users[j].account != a
  {
    var n := |users| - 1;
    var rest := users[..n];
    if FindAccount(rest, a) != [] {
      FindAccountFirst(rest, a);
      var i :| 0 <= i < n && rest[i] == FindAccount(rest, a)[0] && rest[i].account == a
               && forall j :: 0 <= j < i ==> rest[j].account != a;
      assert users[i] == rest[i];
      assert forall j | 0 <= j < i :: users[j] == rest[j];
    } else {
      forall j | 0 <= j < n
        ensures users[j].account != a
      {
        assert users[j] == rest[j] && rest[j] in rest;
        FindAccountExact(rest, a, rest[j]);
      }
    }
  }

  lemma {:induction false} UnoppedExact(users: seq<User>, u: User)
    ensures u in Unopped(users) <==> u in users && !u.opped
  {
    if users != [] {
      UnoppedExact(users[..|users| - 1], u);
      assert users == users[..|users| - 1] + [users[|users| - 1]];
    }
  }

  ghost predicate Distinct<T>(s: seq<T>) {
    forall i, j | 0 <= i < j < |s| :: s[i] != s[j]
  }

  lemma {:induction false} FindAccountDistinct(users: seq<User>, a: Acct)
    requires Distinct(users)
    ensures Distinct(FindAccount(users, a))
  {
    if users != [] {
      var rest := users[..|users| - 1];
      FindAccountDistinct(rest, a);
      FindAccountExact(rest, a, users[|users| - 1]);
    }
  }

  lemma {:induction false} UnoppedDistinct(users: seq<User>)
    requires Distinct(users)
    ensures Distinct(Unopped(users))
  {
    if users != [] {
      var rest := users[..|users| - 1];
      UnoppedDistinct(rest);
      UnoppedExact(rest, users[|users| - 1]);
    }
  }

  /** The ranking lists the account with at least `min` points. */
  ghost predicate Ranks(ranking: seq<Ranked>, a: Acct, min: int) {
    exists i :: 0 <= i < |ranking| && ranking[i].account == a && ranking[i].points >= min
  }

  lemma RanksLast(ranking: seq<Ranked>, a: Acct, min: int)
    requires ranking != []
    ensures Ranks(ranking, a, min) <==>
            || Ranks(ranking[..|ranking| - 1], a, min)
            || (ranking[|ranking| - 1].account == a && ranking[|ranking| - 1].points >= min)
  {
    var rest := ranking[..|ranking| - 1];
    assert forall i | 0 <= i < |rest| :: rest[i] == ranking[i];
  }

  lemma {:induction false} CandidatesExact(ranking: seq<Ranked>, users: seq<User>, min: int, u: User)
    ensures u in Candidates(ranking, users, min) <==> u in users && !u.opped && Ranks(ranking, u.account, min)
  {
    if ranking != [] {
      var rest, x := ranking[..|ranking| - 1], ranking[|ranking| - 1];
      CandidatesExact(rest, users, min, u);
      FindAccountExact(users, x.account, u);
      UnoppedExact(FindAccount(users, x.account), u);
      RanksLast(ranking, u.account, min);
    }
  }

  /** No client is picked twice, and the picked clients come in descending order of points. */
  lemma {:induction false} CandidatesOrdered(ranking: seq<Ranked>, ops: OpTable, users: seq<User>, min: int)
    requires DistinctUsers(users) && Sorted(ranking)
    requires forall i | 0 <= i < |ranking| ::
             ranking[i].account in ops && ranking[i].points == ops[ranking[i].account].points
    ensures Distinct(Candidates(ranking, users, min))
    ensures forall u | u in Candidates(ranking, users, min) :: u.account in ops
    ensures forall i, j | 0 <= i < j < |Candidates(ranking, users, min)| ::
              ops[Candidates(ranking, users, min)[i].account].points >=
              ops[Candidates(ranking, users, min)[j].account].points
  {
    if ranking != [] {
      var rest, x := ranking[..|ranking| - 1], ranking[|ranking| - 1];
      CandidatesOrdered(rest, ops, users, min);
      var head := Candidates(rest, users, min);
      var tail := Unopped(FindAccount(users, x.account));
      FindAccountDistinct(users, x.account);
      UnoppedDistinct(FindAccount(users, x.account));
      forall u | u in head
        ensures u.account in ops && ops[u.account].points >= x.points && u.account != x.account
      {
        CandidatesExact(rest, users, min, u);
        var i :| 0 <= i < |rest| && rest[i].account == u.account && rest[i].points >= min;
        assert Before(ranking[i], ranking[|ranking| - 1]);
      }
      forall u | u in tail
        ensures u.account == x.account
      {
        UnoppedExact(FindAccount(users, x.account), u);
        FindAccountExact(users, x.account, u);
      }
    }
  }

  lemma {:induction false} DistinctCardinality<T>(s: seq<T>, t: set<T>)
    requires Distinct(s)
    requires forall x :: x in s <==> x in t
    ensures |s| == |t|
  {
    if s == [] {
      assert t == {};
    } else {
      var n := |s| - 1;
      assert s == s[..n] + [s[n]];
      assert forall x :: x in s[..n] <==> x in t - {s[n]};
      DistinctCardinality(s[..n], t - {s[n]});
    }
  }

  /** The candidates are exactly the eligible clients, each once. */
  lemma CandidatesAreEligible(ops: OpTable, users: seq<User>, min: int)
    requires DistinctUsers(users)
    ensures Distinct(Candidates(MyOps(ops), users, min))
    ensures forall u :: u in Candidates(MyOps(ops), users, min) <==> Eligible(u, ops, users, min)
    ensures |Candidates(MyOps(ops), users, min)| == |EligibleUsers(ops, users, min)|
  {
    var ranking := MyOps(ops);
    MyOpsIsRanking(ops);
    CandidatesOrdered(ranking, ops, users, min);
    forall u: User
      ensures u in Candidates(ranking, users, min) <==> Eligible(u, ops, users, min)
    {
      CandidatesExact(ranking, users, min, u);
      if Eligible(u, ops, users, min) {
        assert Lists(ranking, u.account);
      }
    }
    DistinctCardinality(Candidates(ranking, users, min), EligibleUsers(ops, users, min));
  }

  /**
   * The greedy choice is exact and optimal: as many clients as are eligible and fit, no one twice, nobody who is
   * not eligible, and nobody passed over for a lower score.
   */
  lemma GreedyChoice(ops: OpTable, users: seq<User>, min: int, room: nat)
    requires DistinctUsers(users)
    ensures var c := Chosen(MyOps(ops), users, min, room);
            && Distinct(c)
            && (forall u | u in c :: Eligible(u, ops, users, min))
            && |c| == (if |EligibleUsers(ops, users, min)| < room then |EligibleUsers(ops, users, min)| else room)
            && (forall u, v | u in c && v !in c && Eligible(v, ops, users, min) ::
                  ops[v.account].points <= ops[u.account].points)
  {
    var all := Candidates(MyOps(ops), users, min);
    var c := Chosen(MyOps(ops), users, min, room);
    CandidatesAreEligible(ops, users, min);
    MyOpsIsRanking(ops);
    CandidatesOrdered(MyOps(ops), ops, users, min);
    forall u, v | u in c && v !in c && Eligible(v, ops, users, min)
      ensures Eligible(u, ops, users, min)
      ensures ops[v.account].points <= ops[u.account].points
    {
      assert u in all && v in all;
      var i :| 0 <= i < |c| && c[i] == u;
      var j :| 0 <= j < |all| && all[j] == v;
      assert j >= |c|;
    }
  }

  /** Opping the chosen clients raises the number of ops by exactly their number and touches nobody else. */
  lemma {:induction false} OpUsersCount(users: seq<User>, chosen: set<int>)
    requires DistinctUsers(users)
    requires forall u | u in users && u.id in chosen :: !u.opped
    requires chosen <= Ids(users)
    ensures CountOps(OpUsers(users, chosen)) == CountOps(users) + |chosen|
  {
    if users == [] {
      assert chosen == {};
    } else {
      var rest, x := users[..|users| - 1], users[|users| - 1];
      assert x in users;
      assert forall u | u in rest :: u in users;
      assert OpUsers(users, chosen)[..|rest|] == OpUsers(rest, chosen - {x.id});
      forall id | id in chosen - {x.id}
        ensures id in Ids(rest)
      {
        var i :| 0 <= i < |users| && users[i].id == id;
        assert rest[i].id == id;
      }
      OpUsersCount(rest, chosen - {x.id});
      assert x.id in chosen ==> |chosen| == |chosen - {x.id}| + 1;
      assert x.id !in chosen ==> chosen == chosen - {x.id};
    }
  }

  lemma {:induction false} CountOpsBound(users: seq<User>)
    ensures CountOps(users) <= |users|
    ensures CountOps(users) == |users| <==> forall i :: 0 <= i < |users| ==> users[i].opped
    ensures CountOps(users) == 0 <==> forall i :: 0 <= i < |users| ==> !users[i].opped
  {
    if users != [] {
      var rest := users[..|users| - 1];
      CountOpsBound(rest);
      assert forall i | 0 <= i < |rest| :: users[i] == rest[i];
    }
  }
}
