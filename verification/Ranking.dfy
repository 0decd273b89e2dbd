/** getMyOps: the accounts of a channel in descending order of points. */
module Ranking {
  import opened Config
  import opened ChanOps
  import opened Sets

  type OpTable = map<Acct, OpRec>

  datatype Ranked = Ranked(account: Acct, points: int)

  /** Order of the list: compare_points is stable over the account order of the map. */
  predicate Before(x: Ranked, y: Ranked) {
    x.points > y.points || (x.points == y.points && x.account < y.account)
  }

  function Entry(ops: OpTable, a: Acct): Ranked
    requires a in ops
  {
    Ranked(a, ops[a].points)
  }

  ghost predicate Leads(a: Acct, ops: OpTable) {
    a in ops && forall b | b in ops.Keys :: b != a ==> Before(Entry(ops, a), Entry(ops, b))
  }

  lemma {:induction false} SomeoneLeads(ops: OpTable)
    requires ops != map[]
    ensures exists a :: Leads(a, ops)
    decreases |ops|
  {
    var c := AnyOf(ops.Keys);
    var rest := ops - {c};
    if rest == map[] {
      assert forall b :: b in ops && b != c ==> b in rest;
      assert Leads(c, ops);
    } else {
      assert |rest.Keys| == |ops.Keys - {c}|;
      SomeoneLeads(rest);
      var a :| Leads(a, rest);
      forall b | b in ops && b != a && b != c
        ensures Before(Entry(ops, a), Entry(ops, b))
      {
        assert b in rest.Keys;
      }
      if Before(Entry(ops, a), Entry(ops, c)) {
        assert Leads(a, ops);
      } else {
        assert Leads(c, ops);
      }
    }
  }

  /** The one list that getMyOps can return. */
  ghost function MyOps(ops: OpTable): seq<Ranked>
    decreases |ops|
  {
    if ops == map[] then []
    else
      SomeoneLeads(ops);
      var a :| Leads(a, ops);
      assert |(ops - {a}).Keys| == |ops.Keys - {a}|;
      [Entry(ops, a)] + MyOps(ops - {a})
  }

  ghost predicate Lists(l: seq<Ranked>, a: Acct) {
    exists i :: 0 <= i < |l| && l[i].account == a
  }

  ghost predicate Sorted(l: seq<Ranked>) {
    forall i, j | 0 <= i < j < |l| :: Before(l[i], l[j])
  }

  /** A list of every account of the table exactly once, each with its total, best first. */
  ghost predicate IsRanking(l: seq<Ranked>, ops: OpTable) {
    && Sorted(l)
    && (forall i | 0 <= i < |l| :: l[i].account in ops && l[i].points == ops[l[i].account].points)
    && (forall a {:trigger Lists(l, a)} :: a in ops ==> Lists(l, a))
  }

  lemma {:induction false} MyOpsIsRanking(ops: OpTable)
    ensures IsRanking(MyOps(ops), ops)
    decreases |ops|
  {
    if ops != map[] {
      var l := MyOps(ops);
      var a := l[0].account;
      var rest := ops - {a};
      assert |rest.Keys| == |ops.Keys - {a}|;
      MyOpsIsRanking(rest);
      assert l == [Entry(ops, a)] + MyOps(rest);
      forall b | b in ops
        ensures Lists(l, b)
      {
        if b != a {
          assert Lists(MyOps(rest), b);
          var i :| 0 <= i < |MyOps(rest)| && MyOps(rest)[i].account == b;
          assert l[i + 1].account == b;
        }
      }
    }
  }

  /** Of two accounts on the list the first has more points, or as many and comes first in the map. */
  lemma MyOpsOrder(ops: OpTable, i: nat, j: nat)
    requires i < j < |MyOps(ops)|
    ensures var x, y := MyOps(ops)[i], MyOps(ops)[j];
            && x.account in ops && y.account in ops
            && (ops[x.account].points > ops[y.account].points
                || (ops[x.account].points == ops[y.account].points && x.account < y.account))
  {
    MyOpsIsRanking(ops);
    assert Before(MyOps(ops)[i], MyOps(ops)[j]);
  }

  /** Sorting is deterministic: there is only one ranking of a table. */
  lemma {:induction false} RankingUnique(l: seq<Ranked>, ops: OpTable)
    requires IsRanking(l, ops)
    ensures l == MyOps(ops)
    decreases |ops|
  {
    assert l != [] ==> l[0].account in ops;
    if ops != map[] {
      var a := MyOps(ops)[0].account;
      assert Leads(a, ops) && Lists(l, a);
      var k :| 0 <= k < |l| && l[k].account == a;
      var best, front := Entry(ops, a), Entry(ops, l[0].account);
      assert k > 0 ==> Before(l[0], l[k]);
      assert best == front || Before(best, front);
      assert k == 0;
      var rest := ops - {a};
      assert |rest.Keys| == |ops.Keys - {a}|;
      TailRanks(l, ops);
      RankingUnique(l[1..], rest);
      assert l == [l[0]] + l[1..];
    }
  }

  lemma TailRanks(l: seq<Ranked>, ops: OpTable)
    requires l != [] && IsRanking(l, ops)
    ensures IsRanking(l[1..], ops - {l[0].account})
  {
    var t := l[1..];
    var rest := ops - {l[0].account};
    forall i | 0 <= i < |t|
      ensures t[i].account in rest && t[i].points == rest[t[i].account].points
    {
      assert t[i] == l[i + 1] && Before(l[0], l[i + 1]);
    }
    forall b | b in rest
      ensures Lists(t, b)
    {
      assert Lists(l, b);
      var i :| 0 <= i < |l| && l[i].account == b;
      assert t[i - 1] == l[i];
    }
  }

  /** The front of the list is the channel's top score. */
  lemma TopIsMaximum(ops: OpTable)
    requires ops != map[]
    ensures MyOps(ops) != []
    ensures forall a | a in ops :: ops[a].points <= MyOps(ops)[0].points
    ensures exists a :: a in ops && ops[a].points == MyOps(ops)[0].points
  {
    MyOpsIsRanking(ops);
    var l := MyOps(ops);
    forall a | a in ops
      ensures ops[a].points <= l[0].points
    {
      assert Lists(l, a);
      var i :| 0 <= i < |l| && l[i].account == a;
      assert i > 0 ==> Before(l[0], l[i]);
    }
    assert l[0].account in ops;
  }

  /** Walks the map in key order; each record goes behind every earlier one with at least its points. */
  method GetMyOps(ops: OpTable) returns (l: seq<Ranked>)
    ensures l == MyOps(ops)
  {
    l := [];
    var todo := ops.Keys;
    ghost var done: OpTable := map[];
    while todo != {}
      invariant todo <= ops.Keys
      invariant done == map a | a in ops.Keys - todo :: ops[a]
      invariant forall a, b :: a in done && b in todo ==> a < b
      invariant IsRanking(l, done)
      decreases todo
    {
      var a := Smallest(todo);
      var x := Ranked(a, ops[a].points);
      var k := |l|;
      while k > 0 && l[k - 1].points < x.points
        invariant 0 <= k <= |l|
        invariant forall i :: k <= i < |l| ==> l[i].points < x.points
      {
        k := k - 1;
      }
      InsertKeepsRanking(l, done, a, ops[a], k);
      l := l[..k] + [x] + l[k..];
      todo := todo - {a};
      done := done[a := ops[a]];
    }
    assert done == ops;
    RankingUnique(l, ops);
  }

  lemma InsertKeepsRanking(l: seq<Ranked>, ops: OpTable, a: Acct, r: OpRec, k: nat)
    requires IsRanking(l, ops) && k <= |l|
    requires forall b | b in ops :: b < a
    requires k > 0 ==> l[k - 1].points >= r.points
    requires forall i | k <= i < |l| :: l[i].points < r.points
    ensures IsRanking(l[..k] + [Ranked(a, r.points)] + l[k..], ops[a := r])
  {
    var x := Ranked(a, r.points);
    var l' := l[..k] + [x] + l[k..];
    forall b | b in ops[a := r]
      ensures Lists(l', b)
    {
      if b == a {
        assert l'[k].account == a;
      } else {
        assert Lists(l, b);
        var i :| 0 <= i < |l| && l[i].account == b;
        assert l'[if i < k then i else i + 1] == l[i];
      }
    }
    forall i | 0 <= i < k
      ensures Before(l[i], x)
    {
      assert l[i].account in ops;
      assert i < k - 1 ==> Before(l[i], l[k - 1]);
    }
    InsertKeepsOrder(l, x, k);
  }

  lemma InsertKeepsOrder(l: seq<Ranked>, x: Ranked, k: nat)
    requires Sorted(l) && k <= |l|
    requires forall i | 0 <= i < k :: Before(l[i], x)
    requires forall i | k <= i < |l| :: Before(x, l[i])
    ensures Sorted(l[..k] + [x] + l[k..])
  {
    var l' := l[..k] + [x] + l[k..];
    forall i, j | 0 <= i < j < |l'|
      ensures Before(l'[i], l'[j])
    {
      assert l'[k] == x;
      assert i < k ==> l'[i] == l[i];
      assert j < k ==> l'[j] == l[j];
      assert i > k ==> l'[i] == l[i - 1];
      assert j > k ==> l'[j] == l[j - 1];
    }
  }
}
