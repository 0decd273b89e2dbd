/** authMap: the index from accounts to their live clients, kept by the network events. */
module AuthMap {
  import opened Config

  type Client = int
  type Index = map<Acct, seq<Client>>

  /** EVT_ACCOUNT, and EVT_NICK of a registered client: adds the client unless it is listed already. */
  function Added(m: Index, c: Client, a: Acct): Index {
    if a !in m then m[a := [c]]
    else if c in m[a] then m
    else m[a := m[a] + [c]]
  }

  function RemoveFirst(l: seq<Client>, c: Client): seq<Client>
    requires c in l
  {
    if l[0] == c then l[1..] else [l[0]] + RemoveFirst(l[1..], c)
  }

  /** EVT_QUIT and EVT_KILL; erasing a client that is not in its account's list is undefined: None. */
  function Removed(m: Index, c: Client, a: Acct): Option<Index> {
    if a == NO_ACCOUNT || a !in m then Some(m)
    else if c !in m[a] then None
    else
      var l := RemoveFirst(m[a], c);
      Some(if l == [] then m - {a} else m[a := l])
  }

  datatype Event = Login(c: Client, a: Acct) | Nick(c: Client, a: Acct, registered: bool) | Quit(c: Client, a: Acct)

  function IndexStep(m: Index, e: Event): Option<Index> {
    match e
    case Login(c, a) => Some(Added(m, c, a))
    case Nick(c, a, registered) => Some(if registered then Added(m, c, a) else m)
    case Quit(c, a) => Removed(m, c, a)
  }

  /** The clients that are logged in, with their accounts. */
  type Live = map<Client, Acct>

  function LiveStep(live: Live, e: Event): Live {
    match e
    case Login(c, a) => live[c := a]
    case Nick(c, a, registered) => if registered then live[c := a] else live
    case Quit(c, a) => live - {c}
  }

  /** The network reports a client's account truthfully, and nobody changes accounts while online. */
  predicate Truthful(live: Live, e: Event) {
    match e
    case Login(c, a) => a != NO_ACCOUNT && (c in live ==> live[c] == a)
    case Nick(c, a, registered) => registered ==> a != NO_ACCOUNT && (c in live ==> live[c] == a)
    case Quit(c, a) => if a == NO_ACCOUNT then c !in live else c in live && live[c] == a
  }

  ghost predicate NoDuplicates(l: seq<Client>) {
    forall i, j | 0 <= i < j < |l| :: l[i] != l[j]
  }

  /** Each account maps to exactly its live clients, without duplicates, and to no empty list. */
  ghost predicate Faithful(m: Index, live: Live) {
    && (forall a | a in m :: NoDuplicates(m[a]) && m[a] != [])
    && (forall a, c | a in m && c in m[a] :: c in live && live[c] == a)
    && (forall c | c in live :: live[c] in m && c in m[live[c]])
  }

  lemma TailNoDuplicates(l: seq<Client>)
    requires l != [] && NoDuplicates(l)
    ensures NoDuplicates(l[1..]) && l[0] !in l[1..]
    ensures forall d :: d in l <==> d == l[0] || d in l[1..]
  {
    assert forall i | 0 <= i < |l[1..]| :: l[1..][i] == l[i + 1];
    assert l == [l[0]] + l[1..];
  }

  lemma ConsNoDuplicates(x: Client, l: seq<Client>)
    requires NoDuplicates(l) && x !in l
    ensures NoDuplicates([x] + l)
  {
    assert forall i | 0 < i < |[x] + l| :: ([x] + l)[i] == l[i - 1];
  }

  lemma {:induction false} RemoveFirstExact(l: seq<Client>, c: Client)
    requires NoDuplicates(l) && c in l
    ensures NoDuplicates(RemoveFirst(l, c))
    ensures forall d :: d in RemoveFirst(l, c) <==> d in l && d != c
  {
    TailNoDuplicates(l);
    if l[0] != c {
      RemoveFirstExact(l[1..], c);
      ConsNoDuplicates(l[0], RemoveFirst(l[1..], c));
    }
  }

  lemma AddKeepsFaithful(m: Index, live: Live, c: Client, a: Acct)
    requires Faithful(m, live) && (c in live ==> live[c] == a)
    ensures Faithful(Added(m, c, a), live[c := a])
  {
  }

  lemma RemoveKeepsFaithful(m: Index, live: Live, c: Client, a: Acct)
    requires Faithful(m, live) && Truthful(live, Quit(c, a))
    ensures Removed(m, c, a).Some? && Faithful(Removed(m, c, a).value, live - {c})
  {
    if a != NO_ACCOUNT {
      RemoveFirstExact(m[a], c);
    } else {
      assert live - {c} == live;
    }
  }

  /** On a faithful index the erase finds its element exactly unless an unannounced client of a live account quits. */
  lemma QuitDefinedExactly(m: Index, live: Live, c: Client, a: Acct)
    requires Faithful(m, live)
    ensures Removed(m, c, a).Some? <==>
            a == NO_ACCOUNT || (c in live && live[c] == a) || forall d | d in live :: live[d] != a
  {
    if a in m {
      var d := m[a][0];
      assert d in m[a];
      assert d in live && live[d] == a;
      assert c in live && live[c] == a <==> c in m[a];
    } else {
      forall d | d in live
        ensures live[d] != a
      {
        assert live[d] in m;
      }
    }
  }

  function LiveAfter(live: Live, es: seq<Event>): Live {
    if es == [] then live else LiveStep(LiveAfter(live, es[..|es| - 1]), es[|es| - 1])
  }

  function IndexAfter(m: Index, es: seq<Event>): Option<Index> {
    if es == [] then Some(m)
    else
      var before := IndexAfter(m, es[..|es| - 1]);
      if before.None? then None else IndexStep(before.value, es[|es| - 1])
  }

  ghost predicate TruthfulRun(live: Live, es: seq<Event>) {
    forall n | 0 <= n < |es| :: Truthful(LiveAfter(live, es[..n]), es[n])
  }

  /** Over every run of truthful events the index stays defined and faithful. */
  lemma {:induction false} IndexIsFaithful(m: Index, live: Live, es: seq<Event>)
    requires Faithful(m, live) && TruthfulRun(live, es)
    ensures IndexAfter(m, es).Some? && Faithful(IndexAfter(m, es).value, LiveAfter(live, es))
  {
    if es != [] {
      var rest, e := es[..|es| - 1], es[|es| - 1];
      forall n | 0 <= n < |rest|
        ensures Truthful(LiveAfter(live, rest[..n]), rest[n])
      {
        assert rest[..n] == es[..n];
      }
      IndexIsFaithful(m, live, rest);
      assert es[..|rest|] == rest;
      var m1, live1 := IndexAfter(m, rest).value, LiveAfter(live, rest);
      if e.Quit? {
        RemoveKeepsFaithful(m1, live1, e.c, e.a);
      } else if e.Login? || e.registered {
        AddKeepsFaithful(m1, live1, e.c, e.a);
      }
    }
  }

  class AuthIndex {
    var authMap: Index

    constructor ()
      ensures authMap == map[] && Faithful(authMap, map[])
    {
      authMap := map[];
    }

    method Announce(c: Client, a: Acct)
      modifies this
      ensures authMap == Added(old(authMap), c, a)
    {
      if a in authMap {
        var at := Find(authMap[a], c);
        if at == |authMap[a]| {
          authMap := authMap[a := authMap[a] + [c]];
        }
      } else {
        authMap := authMap[a := [c]];
      }
    }

    /** The caller owes that the client was announced: otherwise the list's end would be erased. */
    method OnQuit(c: Client, a: Acct)
      requires Removed(authMap, c, a).Some?
      modifies this
      ensures authMap == Removed(old(authMap), c, a).value
    {
      if a != NO_ACCOUNT && a in authMap {
        var at := Find(authMap[a], c);
        RemoveFirstAt(authMap[a], c, at);
        authMap := authMap[a := authMap[a][..at] + authMap[a][at + 1..]];
        if authMap[a] == [] {
          authMap := authMap - {a};
        }
      }
    }
  }

  /** std::find: the first position of the client, or the end. */
  method Find(l: seq<Client>, c: Client) returns (at: nat)
    ensures at <= |l| && c !in l[..at] && (at < |l| ==> l[at] == c)
    ensures at == |l| <==> c !in l
  {
    at := 0;
    while at < |l| && l[at] != c
      invariant at <= |l| && c !in l[..at]
    {
      at := at + 1;
    }
    assert l[..|l|] == l;
  }

  lemma {:induction false} RemoveFirstAt(l: seq<Client>, c: Client, at: nat)
    requires at < |l| && l[at] == c && c !in l[..at]
    ensures RemoveFirst(l, c) == l[..at] + l[at + 1..]
  {
    if at > 0 {
      assert l[0] in l[..at];
      assert forall x | x in l[1..][..at - 1] :: x in l[..at];
      RemoveFirstAt(l[1..], c, at - 1);
    }
  }
}
