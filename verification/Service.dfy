/** The service at work: any series of events on the object is, for every channel, a run of the specification. */
module Service {
  import opened Config
  import opened Slices
  import opened Runs
  import opened Reachable
  import opened Engine

  /** An event, the channel it is about (if it is about one), the settings in force, and the rows it fails to delete. */
  datatype Arrival = Arrival(cfg: Settings, channel: Name, now: nat, e: Event, sqlFails: set<Name>)

  // ---- What one channel sees ----

  /** The events that concern channel c, as it meets them. */
  function Trace(c: Name, arrivals: seq<Arrival>): seq<Stamp> {
    if arrivals == [] then []
    else
      var a := arrivals[|arrivals| - 1];
      Trace(c, arrivals[..|arrivals| - 1]) +
        (if Concerns(a.channel, a.e, c) then [Stamp(a.cfg, a.now, Seen(a.e, c, a.sqlFails))] else [])
  }

  ghost function After(x: Sys, tr: seq<Stamp>): Sys {
    if tr == [] then x else Next(After(x, tr[..|tr| - 1]), tr[|tr| - 1])
  }

  ghost predicate InOrder(arrivals: seq<Arrival>, t0: nat) {
    && (forall i | 0 <= i < |arrivals| :: t0 <= arrivals[i].now && DAY <= arrivals[i].now)
    && (forall i, j | 0 <= i <= j < |arrivals| :: arrivals[i].now <= arrivals[j].now)
  }

  ghost predicate TimesWithin(tr: seq<Stamp>, t0: nat, t1: nat) {
    && (forall n | 0 <= n < |tr| :: t0 <= tr[n].now <= t1 && DAY <= tr[n].now)
    && (forall m, n | 0 <= m <= n < |tr| :: tr[m].now <= tr[n].now)
  }

  function LastTime(arrivals: seq<Arrival>, t0: nat): nat {
    if arrivals == [] then t0 else arrivals[|arrivals| - 1].now
  }

  lemma TimesWithinMore(tr: seq<Stamp>, t0: nat, t1: nat, p: Stamp)
    requires TimesWithin(tr, t0, t1) && t0 <= t1 <= p.now && DAY <= p.now
    ensures TimesWithin(tr, t0, p.now) && TimesWithin(tr + [p], t0, p.now)
  {
  }

  /** A channel's trace is in order, and within the times of what arrived. */
  lemma {:induction false} TraceInOrder(c: Name, arrivals: seq<Arrival>, t0: nat)
    requires InOrder(arrivals, t0)
    ensures t0 <= LastTime(arrivals, t0) && TimesWithin(Trace(c, arrivals), t0, LastTime(arrivals, t0))
  {
    if arrivals != [] {
      var a := arrivals[|arrivals| - 1];
      var rest := arrivals[..|arrivals| - 1];
      assert forall i | 0 <= i < |rest| :: rest[i] == arrivals[i];
      TraceInOrder(c, rest, t0);
      TimesWithinMore(Trace(c, rest), t0, LastTime(rest, t0), Stamp(a.cfg, a.now, Seen(a.e, c, a.sqlFails)));
    }
  }

  lemma {:induction false} RunEndsAfter(h: seq<Sys>, tr: seq<Stamp>, n: nat)
    requires Run(h, tr) && n <= |tr|
    ensures h[n] == After(h[0], tr[..n])
  {
    if n > 0 {
      RunEndsAfter(h, tr, n - 1);
      assert Linked(h, tr, n - 1);
      assert tr[..n][..n - 1] == tr[..n - 1];
    }
  }

  /** A channel's trace makes a run, from any state that is consistent to begin with. */
  lemma TraceRuns(x: Sys, c: Name, arrivals: seq<Arrival>, t0: nat) returns (h: seq<Sys>)
    requires InOrder(arrivals, t0) && Disjoint(x.s) && TimesOk(x.s, t0)
    ensures GoodRun(h, Trace(c, arrivals), t0) && h[0] == x
    ensures h[|h| - 1] == After(x, Trace(c, arrivals))
  {
    var tr := Trace(c, arrivals);
    TraceInOrder(c, arrivals, t0);
    h := EveryTraceRuns(x, tr);
    RunEndsAfter(h, tr, |tr|);
    assert tr[..|tr|] == tr;
  }

  /** What one arrival does to what channel c sees. */
  ghost function See(x: Sys, c: Name, a: Arrival): Sys {
    if Concerns(a.channel, a.e, c) then Next(x, Stamp(a.cfg, a.now, Seen(a.e, c, a.sqlFails))) else x
  }

  lemma AfterOneMore(x: Sys, c: Name, arrivals: seq<Arrival>, i: nat)
    requires i < |arrivals|
    ensures After(x, Trace(c, arrivals[..i + 1])) == See(After(x, Trace(c, arrivals[..i])), c, arrivals[i])
  {
    var a := arrivals[i];
    var last := arrivals[..i + 1];
    assert last[..|last| - 1] == arrivals[..i] && last[|last| - 1] == a;
    AfterAppend(x, Trace(c, arrivals[..i]), Stamp(a.cfg, a.now, Seen(a.e, c, a.sqlFails)));
    assert Trace(c, arrivals[..i]) + [] == Trace(c, arrivals[..i]);
  }

  lemma AfterAppend(x: Sys, tr: seq<Stamp>, p: Stamp)
    ensures After(x, tr + [p]) == Next(After(x, tr), p)
  {
    assert (tr + [p])[..|tr|] == tr;
  }

  ghost predicate Consistent(s: Slice, now: int) {
    Disjoint(s) && TimesOk(s, now) && TableOk(s.Ops())
  }

  /** The states of a run from a consistent state are consistent. */
  lemma TraceConsistent(x: Sys, c: Name, arrivals: seq<Arrival>, t0: nat)
    requires InOrder(arrivals, t0) && Consistent(x.s, t0)
    ensures Consistent(After(x, Trace(c, arrivals)).s, LastTime(arrivals, t0))
  {
    var tr := Trace(c, arrivals);
    var h := TraceRuns(x, c, arrivals, t0);
    TraceInOrder(c, arrivals, t0);
    RunSafety(h, tr, t0, |tr|);
    RunKeepsTable(h, tr, |tr|);
  }

  // ---- The object ----

  method ServeOne(bot: Chanfix, a: Arrival)
    requires bot.Valid()
    modifies bot, bot.Recs()
    ensures bot.Valid() && fresh(bot.Recs() - old(bot.Recs()))
    ensures forall c, x: Sys | x.st == old(bot.Shared()) && x.s == old(bot.SliceOf(c)) ::
              bot.Shared() == See(x, c, a).st && bot.SliceOf(c) == See(x, c, a).s
  {
    bot.Configure(a.cfg);
    bot.Handle(a.channel, a.e, a.sqlFails, a.now);
  }

  /**
   * Whatever arrives: every channel's slice and the shared status end up where the run of the channel's own trace does.
   * So all that is proved of runs holds of the object. In particular, in every series of events no channel is ever in
   * both queues, attempt times agree with the clock, and every table is within its limit with every total the sum of
   * its slots.
   */
  method Serve(bot: Chanfix, arrivals: seq<Arrival>, ghost t0: nat)
    requires bot.Valid()
    modifies bot, bot.Recs()
    ensures bot.Valid()
    ensures forall c, x: Sys | x.st == old(bot.Shared()) && x.s == old(bot.SliceOf(c)) ::
              bot.Shared() == After(x, Trace(c, arrivals)).st && bot.SliceOf(c) == After(x, Trace(c, arrivals)).s
    ensures InOrder(arrivals, t0) && (forall c :: Consistent(old(bot.SliceOf(c)), t0)) ==>
              forall c :: Consistent(bot.SliceOf(c), LastTime(arrivals, t0))
  {
    for i := 0 to |arrivals|
      invariant bot.Valid() && fresh(bot.Recs() - old(bot.Recs()))
      invariant forall c, x: Sys | x.st == old(bot.Shared()) && x.s == old(bot.SliceOf(c)) ::
                  && bot.Shared() == After(x, Trace(c, arrivals[..i])).st
                  && bot.SliceOf(c) == After(x, Trace(c, arrivals[..i])).s
    {
      ServeOne(bot, arrivals[i]);
      forall c, x: Sys | x.st == old(bot.Shared()) && x.s == old(bot.SliceOf(c))
        ensures bot.Shared() == After(x, Trace(c, arrivals[..i + 1])).st
        ensures bot.SliceOf(c) == After(x, Trace(c, arrivals[..i + 1])).s
      {
        AfterOneMore(x, c, arrivals, i);
      }
    }
    assert arrivals[..|arrivals|] == arrivals;
    if InOrder(arrivals, t0) && forall c :: Consistent(old(bot.SliceOf(c)), t0) {
      forall c
        ensures Consistent(bot.SliceOf(c), LastTime(arrivals, t0))
      {
        TraceConsistent(Sys(old(bot.Shared()), old(bot.SliceOf(c)), 0, []), c, arrivals, t0);
      }
    }
  }
}
