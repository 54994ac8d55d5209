/** What fetching, adding and stealing tasks do to the queues, the passes and the flags of all tasks. */
module Stealing {
  import opened Basics
  import opened Options
  import opened Stride

  datatype Status = Ready | Running | Exited | Waiting

  /** What does not change while tasks are fetched. */
  datatype Tasks = Tasks(stride: map<nat, nat>, status: map<nat, Status>)

  /** The queues of all processors, the passes of all tasks, and their flags, which claim that they are queued. */
  datatype Sched = Sched(queues: seq<seq<nat>>, pass: map<nat, nat>, flags: map<nat, bool>)

  ghost predicate Listed(q: seq<nat>, pass: map<nat, nat>) {
    forall x :: x in q ==> x in pass
  }

  ghost predicate Sane(s: Sched, ts: Tasks) {
    && s.pass.Keys == s.flags.Keys == ts.stride.Keys == ts.status.Keys
    && forall i :: 0 <= i < |s.queues| ==> Listed(s.queues[i], s.pass)
  }

  /** The processor has a task to fetch. */
  ghost predicate Busy(s: Sched, ts: Tasks, cpu: nat) {
    Sane(s, ts) && cpu < |s.queues| && s.queues[cpu] != []
  }

  /** All queued tasks, with multiplicity. */
  function Queued(qs: seq<seq<nat>>): multiset<nat> {
    if qs == [] then multiset{} else Queued(qs[..|qs| - 1]) + multiset(qs[|qs| - 1])
  }

  /** A task in hand, if any. */
  function Held(t: Option<nat>): multiset<nat> {
    if t.Some? then multiset{t.value} else multiset{}
  }

  /** The task that is fetched next: the first with the least pass. */
  ghost function Next(s: Sched, ts: Tasks, cpu: nat): (t: nat)
    requires Busy(s, ts, cpu)
    ensures t in s.queues[cpu] && t in s.pass && t in ts.stride && t in ts.status && t in s.flags
  {
    s.queues[cpu][Pick(s.queues[cpu], s.pass)]
  }

  /** It leaves the queue, its pass advances and its flag is unset. */
  ghost function Fetched(s: Sched, ts: Tasks, cpu: nat): (r: Sched)
    requires Busy(s, ts, cpu)
    ensures Sane(r, ts) && |r.queues| == |s.queues| && |r.queues[cpu]| == |s.queues[cpu]| - 1
  {
    var k, t := Pick(s.queues[cpu], s.pass), Next(s, ts, cpu);
    Sched(s.queues[cpu := Without(s.queues[cpu], k)], s.pass[t := Advance(s.pass[t], ts.stride[t])],
      s.flags[t := false])
  }

  ghost function Added(s: Sched, ts: Tasks, cpu: nat, t: nat): (r: Sched)
    requires Sane(s, ts) && cpu < |s.queues| && t in s.pass
    ensures Sane(r, ts) && |r.queues| == |s.queues| && |r.queues[cpu]| == |s.queues[cpu]| + 1
  {
    s.(queues := s.queues[cpu := s.queues[cpu] + [t]])
  }

  /** One task of the victim: the first ready one is kept, further ready ones join the local queue, others go back. */
  ghost function Robbed(s: Sched, ts: Tasks, cpu: nat, victim: nat, kept: Option<nat>): (r: (Sched, Option<nat>))
    requires Busy(s, ts, victim) && cpu < |s.queues|
    ensures Sane(r.0, ts) && |r.0.queues| == |s.queues|
  {
    var t, f := Next(s, ts, victim), Fetched(s, ts, victim);
    if ts.status[t] != Ready then (Added(f, ts, victim, t), kept)
    else if kept.None? then (f, Some(t))
    else (Added(f, ts, cpu, t), kept)
  }

  /** Up to `n` tasks in a row. */
  ghost function Raid(s: Sched, ts: Tasks, cpu: nat, victim: nat, kept: Option<nat>, n: nat): (r: (Sched, Option<nat>))
    requires Sane(s, ts) && cpu < |s.queues| && victim < |s.queues|
    ensures Sane(r.0, ts) && |r.0.queues| == |s.queues|
    decreases n
  {
    if n == 0 || s.queues[victim] == [] then (s, kept)
    else var r := Robbed(s, ts, cpu, victim, kept); Raid(r.0, ts, cpu, victim, r.1, n - 1)
  }

  /** The first ready one among up to `n` tasks of the victim; those before it go back. */
  ghost function Sought(s: Sched, ts: Tasks, victim: nat, n: nat): (r: (Sched, Option<nat>))
    requires Sane(s, ts) && victim < |s.queues|
    ensures Sane(r.0, ts) && |r.0.queues| == |s.queues|
    decreases n
  {
    if n == 0 || s.queues[victim] == [] then (s, None)
    else
      var t, f := Next(s, ts, victim), Fetched(s, ts, victim);
      if ts.status[t] == Ready then (f, Some(t)) else Sought(Added(f, ts, victim, t), ts, victim, n - 1)
  }

  lemma RaidStep(s: Sched, ts: Tasks, cpu: nat, victim: nat, kept: Option<nat>, n: nat)
    requires Sane(s, ts) && cpu < |s.queues| && victim < |s.queues|
    ensures n == 0 || s.queues[victim] == [] ==> Raid(s, ts, cpu, victim, kept, n) == (s, kept)
    ensures n > 0 && s.queues[victim] != [] ==>
      var r := Robbed(s, ts, cpu, victim, kept);
      Raid(s, ts, cpu, victim, kept, n) == Raid(r.0, ts, cpu, victim, r.1, n - 1)
  {
    hide Sane, Robbed;
  }

  lemma SoughtStep(s: Sched, ts: Tasks, victim: nat, n: nat)
    requires Sane(s, ts) && victim < |s.queues|
    ensures n == 0 || s.queues[victim] == [] ==> Sought(s, ts, victim, n) == (s, None)
    ensures n > 0 && s.queues[victim] != [] ==>
      var t, f := Next(s, ts, victim), Fetched(s, ts, victim);
      Sought(s, ts, victim, n) == if ts.status[t] == Ready then (f, Some(t))
        else Sought(Added(f, ts, victim, t), ts, victim, n - 1)
  {
    hide Sane, Next, Fetched, Added;
  }

  /** No other processor has two tasks. */
  ghost predicate NoneLoaded(qs: seq<seq<nat>>, cpu: nat, count: nat) {
    forall i :: 0 <= i < |qs| && i < count && i != cpu ==> |qs[i]| < 2
  }

  /** The first of the other processors with the most tasks. */
  ghost predicate Victim(qs: seq<seq<nat>>, cpu: nat, count: nat, v: nat) {
    && v < |qs| && v < count && v != cpu
    && (forall i :: 0 <= i < |qs| && i < count && i != cpu ==> |qs[i]| <= |qs[v]|)
    && (forall i :: 0 <= i < v && i != cpu ==> |qs[i]| < |qs[v]|)
  }

  lemma VictimUnique(qs: seq<seq<nat>>, cpu: nat, count: nat, v: nat, w: nat)
    requires Victim(qs, cpu, count, v) && Victim(qs, cpu, count, w)
    ensures v == w
  {
    assert |qs[v]| == |qs[w]|;
  }

  lemma {:induction false} QueuedUpdate(qs: seq<seq<nat>>, i: nat, q: seq<nat>)
    requires i < |qs|
    ensures Queued(qs[i := q]) + multiset(qs[i]) == Queued(qs) + multiset(q)
  {
    var n := |qs| - 1;
    if i == n {
      assert qs[i := q][..n] == qs[..n];
    } else {
      assert qs[i := q][..n] == qs[..n][i := q];
      QueuedUpdate(qs[..n], i, q);
      var a, b, last := Queued(qs[..n]), Queued(qs[..n][i := q]), multiset(qs[n]);
      assert b + last + multiset(qs[i]) == (b + multiset(qs[i])) + last;
      assert (a + multiset(q)) + last == a + last + multiset(q);
    }
  }

  lemma {:induction false} QueuedHas(qs: seq<seq<nat>>, i: nat, x: nat)
    requires i < |qs| && x in qs[i]
    ensures Queued(qs)[x] >= 1
  {
    var n := |qs| - 1;
    assert i == n ==> x in multiset(qs[n]);
    if i < n { QueuedHas(qs[..n], i, x); }
  }

  lemma {:induction false} QueuedWhere(qs: seq<seq<nat>>, x: nat) returns (i: nat)
    requires Queued(qs)[x] >= 1
    ensures i < |qs| && x in qs[i]
  {
    var n := |qs| - 1;
    if x in qs[n] { return n; }
    i := QueuedWhere(qs[..n], x);
  }

  lemma {:induction false} NoneQueued(qs: seq<seq<nat>>)
    requires forall i :: 0 <= i < |qs| ==> qs[i] == []
    ensures Queued(qs) == multiset{}
  {
    if qs != [] { NoneQueued(qs[..|qs| - 1]); }
  }

  lemma WithoutTasks(q: seq<nat>, k: nat)
    requires k < |q|
    ensures multiset(q) == multiset(Without(q, k)) + multiset{q[k]}
  {
    assert q == q[..k] + [q[k]] + q[k + 1..];
  }

  /** Common parts of sums cancel. */
  lemma Cancel(a: multiset<nat>, b: multiset<nat>, c: multiset<nat>, d: multiset<nat>)
    requires a + (c + d) == b + c
    ensures b == a + d
  {
    assert (a + d) + c == a + (c + d);
    forall x ensures b[x] == (a + d)[x] {
      assert (b + c)[x] == ((a + d) + c)[x];
    }
  }

  lemma FetchedTasks(s: Sched, ts: Tasks, cpu: nat)
    requires Busy(s, ts, cpu)
    ensures Queued(s.queues) == Queued(Fetched(s, ts, cpu).queues) + multiset{Next(s, ts, cpu)}
  {
    hide Queued, Without, Pick;
    var q, k := s.queues[cpu], Pick(s.queues[cpu], s.pass);
    QueuedUpdate(s.queues, cpu, Without(q, k));
    WithoutTasks(q, k);
    Cancel(Queued(Fetched(s, ts, cpu).queues), Queued(s.queues), multiset(Without(q, k)), multiset{q[k]});
  }

  lemma AddedTasks(s: Sched, ts: Tasks, cpu: nat, t: nat)
    requires Sane(s, ts) && cpu < |s.queues| && t in s.pass
    ensures Queued(Added(s, ts, cpu, t).queues) == Queued(s.queues) + multiset{t}
  {
    hide Queued;
    QueuedUpdate(s.queues, cpu, s.queues[cpu] + [t]);
    Cancel(Queued(s.queues), Queued(Added(s, ts, cpu, t).queues), multiset(s.queues[cpu]), multiset{t});
  }

  lemma RobbedTasks(s: Sched, ts: Tasks, cpu: nat, victim: nat, kept: Option<nat>)
    requires Busy(s, ts, victim) && cpu < |s.queues|
    ensures var r := Robbed(s, ts, cpu, victim, kept);
      Queued(s.queues) + Held(kept) == Queued(r.0.queues) + Held(r.1)
  {
    hide Queued, Fetched, Added, Next;
    FetchedTasks(s, ts, victim);
    AddedTasks(Fetched(s, ts, victim), ts, victim, Next(s, ts, victim));
    AddedTasks(Fetched(s, ts, victim), ts, cpu, Next(s, ts, victim));
  }

  /** A raid loses and duplicates no task. */
  lemma {:induction false} RaidTasks(s: Sched, ts: Tasks, cpu: nat, victim: nat, kept: Option<nat>, n: nat)
    requires Sane(s, ts) && cpu < |s.queues| && victim < |s.queues|
    ensures var r := Raid(s, ts, cpu, victim, kept, n);
      Queued(s.queues) + Held(kept) == Queued(r.0.queues) + Held(r.1)
    decreases n
  {
    hide Queued, Robbed, Held, Raid, Sane;
    RaidStep(s, ts, cpu, victim, kept, n);
    if n > 0 && s.queues[victim] != [] {
      RobbedTasks(s, ts, cpu, victim, kept);
      var r := Robbed(s, ts, cpu, victim, kept);
      RaidTasks(r.0, ts, cpu, victim, r.1, n - 1);
    }
  }

  lemma {:induction false} SoughtTasks(s: Sched, ts: Tasks, victim: nat, n: nat)
    requires Sane(s, ts) && victim < |s.queues|
    ensures Queued(s.queues) == Queued(Sought(s, ts, victim, n).0.queues) + Held(Sought(s, ts, victim, n).1)
    decreases n
  {
    hide Queued, Fetched, Added, Next, Sought, Sane;
    SoughtStep(s, ts, victim, n);
    if n > 0 && s.queues[victim] != [] {
      var t, f := Next(s, ts, victim), Fetched(s, ts, victim);
      FetchedTasks(s, ts, victim);
      FetchedQueues(s, ts, victim);
      AddedTasks(f, ts, victim, t);
      if ts.status[t] != Ready { SoughtTasks(Added(f, ts, victim, t), ts, victim, n - 1); }
    }
  }

  lemma RobbedBounds(s: Sched, ts: Tasks, cpu: nat, victim: nat, kept: Option<nat>)
    requires Busy(s, ts, victim) && cpu < |s.queues| && cpu != victim
    ensures var r := Robbed(s, ts, cpu, victim, kept);
      && (forall i :: 0 <= i < |s.queues| && i != cpu && i != victim ==> r.0.queues[i] == s.queues[i])
      && |r.0.queues[victim]| + 1 >= |s.queues[victim]| && (kept.Some? ==> r.1 == kept)
      && (r.1 != kept ==> r.1.Some? && r.1.value in ts.status && ts.status[r.1.value] == Ready)
  {
    hide Next, Pick, Without;
  }

  /** What becomes of a ready task. */
  lemma RobbedReady(s: Sched, ts: Tasks, cpu: nat, victim: nat, kept: Option<nat>)
    requires Busy(s, ts, victim) && cpu < |s.queues| && cpu != victim
    ensures ts.status[Next(s, ts, victim)] == Ready ==>
      var r, t, f := Robbed(s, ts, cpu, victim, kept), Next(s, ts, victim), Fetched(s, ts, victim);
      && r == (if kept.None? then (f, Some(t)) else (Added(f, ts, cpu, t), kept))
      && r.0.queues[victim] == f.queues[victim] && |f.queues[victim]| == |s.queues[victim]| - 1
      && r.0.queues[cpu] == s.queues[cpu] + if kept.None? then [] else [t]
  {
    hide Next, Pick, Without;
  }

  lemma FetchedQueues(s: Sched, ts: Tasks, cpu: nat)
    requires Busy(s, ts, cpu)
    ensures forall i :: 0 <= i < |s.queues| && i != cpu ==> Fetched(s, ts, cpu).queues[i] == s.queues[i]
    ensures Fetched(s, ts, cpu).pass.Keys == s.pass.Keys
  {
    hide Next, Pick, Without;
  }

  /** Only the two queues change, and the victim loses at most `n` tasks; what is returned is ready. */
  lemma {:induction false} RaidBounds(s: Sched, ts: Tasks, cpu: nat, victim: nat, kept: Option<nat>, n: nat)
    requires Sane(s, ts) && cpu < |s.queues| && victim < |s.queues| && cpu != victim
    requires kept.Some? ==> kept.value in ts.status && ts.status[kept.value] == Ready
    ensures var r := Raid(s, ts, cpu, victim, kept, n);
      && (forall i :: 0 <= i < |s.queues| && i != cpu && i != victim ==> r.0.queues[i] == s.queues[i])
      && |r.0.queues[victim]| + n >= |s.queues[victim]| && (kept.Some? ==> r.1 == kept)
      && (r.1.Some? ==> r.1.value in ts.status && ts.status[r.1.value] == Ready)
    decreases n
  {
    hide Robbed, Raid, Sane;
    RaidStep(s, ts, cpu, victim, kept, n);
    if n > 0 && s.queues[victim] != [] {
      RobbedBounds(s, ts, cpu, victim, kept);
      var r := Robbed(s, ts, cpu, victim, kept);
      RaidBounds(r.0, ts, cpu, victim, r.1, n - 1);
    }
  }

  /** A batch returns the same task as a search. */
  lemma {:induction false} RaidFirst(s: Sched, ts: Tasks, cpu: nat, victim: nat, n: nat)
    requires Sane(s, ts) && cpu < |s.queues| && victim < |s.queues| && cpu != victim
    ensures Raid(s, ts, cpu, victim, None, n).1 == Sought(s, ts, victim, n).1
    decreases n
  {
    hide Next, Fetched, Added, Raid, Sought, Sane;
    RaidStep(s, ts, cpu, victim, None, n);
    SoughtStep(s, ts, victim, n);
    if n > 0 && s.queues[victim] != [] {
      var r := Robbed(s, ts, cpu, victim, None);
      if r.1.Some? {
        RaidBounds(r.0, ts, cpu, victim, r.1, n - 1);
      } else {
        RaidFirst(r.0, ts, cpu, victim, n - 1);
      }
    }
  }

  lemma {:induction false} SoughtBounds(s: Sched, ts: Tasks, victim: nat, n: nat)
    requires Sane(s, ts) && victim < |s.queues|
    ensures var r := Sought(s, ts, victim, n);
      && (forall i :: 0 <= i < |s.queues| && i != victim ==> r.0.queues[i] == s.queues[i])
      && |r.0.queues[victim]| == |s.queues[victim]| - |Held(r.1)|
      && (r.1.Some? ==> r.1.value in ts.status && ts.status[r.1.value] == Ready)
    decreases n
  {
    hide Next, Fetched, Sought, Sane;
    SoughtStep(s, ts, victim, n);
    if n > 0 && s.queues[victim] != [] {
      var t, f := Next(s, ts, victim), Fetched(s, ts, victim);
      FetchedQueues(s, ts, victim);
      if ts.status[t] != Ready { SoughtBounds(Added(f, ts, victim, t), ts, victim, n - 1); }
    }
  }

  /** The tasks of a queue are ready ones that were stolen: their flags are unset. */
  ghost predicate Loot(s: Sched, ts: Tasks, cpu: nat) {
    cpu < |s.queues| && forall x :: x in s.queues[cpu] ==>
      x in s.pass && x in s.flags && !s.flags[x] && x in ts.status && ts.status[x] == Ready
  }

  lemma RobbedLocal(s: Sched, ts: Tasks, cpu: nat, victim: nat, kept: Option<nat>)
    requires Busy(s, ts, victim) && cpu != victim && Loot(s, ts, cpu)
    ensures Loot(Robbed(s, ts, cpu, victim, kept).0, ts, cpu)
  {
    hide Pick, Without;
  }

  /** A raid on behalf of an empty queue fills it with loot. */
  lemma {:induction false} RaidLocal(s: Sched, ts: Tasks, cpu: nat, victim: nat, kept: Option<nat>, n: nat)
    requires Sane(s, ts) && cpu < |s.queues| && victim < |s.queues| && cpu != victim && Loot(s, ts, cpu)
    ensures Loot(Raid(s, ts, cpu, victim, kept, n).0, ts, cpu)
    decreases n
  {
    hide Robbed, Raid, Sane, Loot;
    RaidStep(s, ts, cpu, victim, kept, n);
    if n > 0 && s.queues[victim] != [] {
      RobbedLocal(s, ts, cpu, victim, kept);
      var r := Robbed(s, ts, cpu, victim, kept);
      RaidLocal(r.0, ts, cpu, victim, r.1, n - 1);
    }
  }

  ghost predicate AllReady(q: seq<nat>, ts: Tasks) {
    forall x :: x in q ==> x in ts.status && ts.status[x] == Ready
  }

  ghost predicate NoneReady(q: seq<nat>, ts: Tasks) {
    forall x :: x in q ==> x in ts.status && ts.status[x] != Ready
  }

  /** The next `n` tasks that the victim would run. */
  ghost function Drawn(s: Sched, ts: Tasks, victim: nat, n: nat): (d: seq<nat>)
    requires Sane(s, ts) && victim < |s.queues| && n <= |s.queues[victim]|
    ensures |d| == n
    decreases n
  {
    if n == 0 then [] else [Next(s, ts, victim)] + Drawn(Fetched(s, ts, victim), ts, victim, n - 1)
  }

  lemma DrawnStep(s: Sched, ts: Tasks, victim: nat, n: nat)
    requires Sane(s, ts) && victim < |s.queues| && n <= |s.queues[victim]|
    ensures n == 0 ==> Drawn(s, ts, victim, n) == []
    ensures n > 0 ==>
      Drawn(s, ts, victim, n) == [Next(s, ts, victim)] + Drawn(Fetched(s, ts, victim), ts, victim, n - 1)
  {
    hide Sane, Next, Fetched;
  }

  lemma FetchedReady(s: Sched, ts: Tasks, cpu: nat)
    requires Busy(s, ts, cpu) && AllReady(s.queues[cpu], ts)
    ensures ts.status[Next(s, ts, cpu)] == Ready && AllReady(Fetched(s, ts, cpu).queues[cpu], ts)
  {
    hide Pick;
    var q, k := s.queues[cpu], Pick(s.queues[cpu], s.pass);
    forall x | x in Without(q, k) ensures x in q { }
  }

  /** When all tasks of the victim are ready, the batch is its next `n` tasks in the order it would have run them:
      the first is returned, the others join the local queue. */
  lemma {:induction false} RaidAllReady(s: Sched, ts: Tasks, cpu: nat, victim: nat, kept: Option<nat>, n: nat)
    requires Sane(s, ts) && cpu < |s.queues| && victim < |s.queues| && cpu != victim
    requires AllReady(s.queues[victim], ts) && n <= |s.queues[victim]|
    ensures var r, d := Raid(s, ts, cpu, victim, kept, n), Drawn(s, ts, victim, n);
      && |r.0.queues[victim]| == |s.queues[victim]| - n
      && (kept.Some? ==> r.1 == kept && r.0.queues[cpu] == s.queues[cpu] + d)
      && (kept.None? && n > 0 ==> r.1 == Some(d[0]) && r.0.queues[cpu] == s.queues[cpu] + d[1..])
    decreases n
  {
    hide Next, Fetched, Added, Robbed, Raid, Drawn, Sane;
    RaidStep(s, ts, cpu, victim, kept, n);
    DrawnStep(s, ts, victim, n);
    if n > 0 {
      FetchedReady(s, ts, victim);
      FetchedQueues(s, ts, victim);
      RobbedReady(s, ts, cpu, victim, kept);
      var r, t, f := Robbed(s, ts, cpu, victim, kept), Next(s, ts, victim), Fetched(s, ts, victim);
      DrawnElsewhere(f, ts, cpu, victim, t, n - 1);
      RaidAllReady(r.0, ts, cpu, victim, r.1, n - 1);
    }
  }

  /** Adding to another queue does not matter to the victim. */
  lemma {:induction false} DrawnElsewhere(s: Sched, ts: Tasks, cpu: nat, victim: nat, t: nat, n: nat)
    requires Sane(s, ts) && cpu < |s.queues| && victim < |s.queues| && cpu != victim && t in s.pass
    requires n <= |s.queues[victim]|
    ensures Drawn(Added(s, ts, cpu, t), ts, victim, n) == Drawn(s, ts, victim, n)
    decreases n
  {
    hide Next, Fetched, Added, Drawn, Sane;
    DrawnStep(s, ts, victim, n);
    if n > 0 {
      FetchedQueues(s, ts, victim);
      DrawnElsewhere(Fetched(s, ts, victim), ts, cpu, victim, t, n - 1);
      FetchedElsewhere(s, ts, cpu, victim, t);
      DrawnStep(Added(s, ts, cpu, t), ts, victim, n);
    } else {
      DrawnNone(s, ts, cpu, victim, t);
    }
  }

  lemma DrawnNone(s: Sched, ts: Tasks, cpu: nat, victim: nat, t: nat)
    requires Sane(s, ts) && cpu < |s.queues| && victim < |s.queues| && cpu != victim && t in s.pass
    ensures Drawn(Added(s, ts, cpu, t), ts, victim, 0) == Drawn(s, ts, victim, 0)
  {
  }

  lemma FetchedElsewhere(s: Sched, ts: Tasks, cpu: nat, victim: nat, t: nat)
    requires Busy(s, ts, victim) && cpu < |s.queues| && cpu != victim && t in s.pass
    ensures var a := Added(s, ts, cpu, t);
      && a.queues[victim] == s.queues[victim] && Next(a, ts, victim) == Next(s, ts, victim)
      && Fetched(a, ts, victim) == Added(Fetched(s, ts, victim), ts, cpu, t)
  {
    hide Pick, Without;
  }

  /** A search finds the next task if it is ready, and nothing if none is. */
  lemma {:induction false} SoughtReady(s: Sched, ts: Tasks, victim: nat, n: nat)
    requires Sane(s, ts) && victim < |s.queues|
    ensures n > 0 && s.queues[victim] != [] && ts.status[Next(s, ts, victim)] == Ready ==>
      Sought(s, ts, victim, n) == (Fetched(s, ts, victim), Some(Next(s, ts, victim)))
    ensures NoneReady(s.queues[victim], ts) ==> Sought(s, ts, victim, n).1.None?
    decreases n
  {
    hide Next, Fetched, Added, Sought, Sane;
    SoughtStep(s, ts, victim, n);
    if n > 0 && s.queues[victim] != [] {
      var t, f := Next(s, ts, victim), Fetched(s, ts, victim);
      FetchedQueues(s, ts, victim);
      if ts.status[t] != Ready {
        TurnedTasks(s, ts, victim);
        SoughtReady(Added(f, ts, victim, t), ts, victim, n - 1);
      }
    }
  }

  lemma TurnedTasks(s: Sched, ts: Tasks, cpu: nat)
    requires Busy(s, ts, cpu)
    ensures forall x :: x in Added(Fetched(s, ts, cpu), ts, cpu, Next(s, ts, cpu)).queues[cpu] ==> x in s.queues[cpu]
  {
    hide Pick;
    var q, k := s.queues[cpu], Pick(s.queues[cpu], s.pass);
    forall x | x in Without(q, k) ensures x in q { }
  }

  /** Every queued task has its flag set. */
  ghost predicate FlagsOk(s: Sched) {
    forall i, x :: 0 <= i < |s.queues| && x in s.queues[i] ==> x in s.flags && s.flags[x]
  }

  /** No task is queued twice. */
  ghost predicate Once(s: Sched) {
    forall x :: Queued(s.queues)[x] <= 1
  }

  lemma FetchedFlags(s: Sched, ts: Tasks, cpu: nat)
    requires Busy(s, ts, cpu) && FlagsOk(s) && Once(s)
    ensures FlagsOk(Fetched(s, ts, cpu)) && Once(Fetched(s, ts, cpu))
  {
    hide Queued, Pick;
    var t, f := Next(s, ts, cpu), Fetched(s, ts, cpu);
    FetchedTasks(s, ts, cpu);
    forall x ensures Queued(f.queues)[x] <= 1 { assert Queued(s.queues)[x] <= 1; }
    forall i, x | 0 <= i < |f.queues| && x in f.queues[i] ensures x in f.flags && f.flags[x] {
      QueuedHas(f.queues, i, x);
      assert Queued(s.queues)[t] <= 1;
      assert x in s.queues[i];
    }
  }

  /** A task whose flag is unset may be queued once. */
  lemma EnqueuedFlags(s: Sched, ts: Tasks, cpu: nat, t: nat)
    requires Sane(s, ts) && cpu < |s.queues| && t in s.pass && FlagsOk(s) && Once(s) && !s.flags[t]
    ensures var r := Added(s, ts, cpu, t); FlagsOk(r.(flags := r.flags[t := true])) && Once(r)
  {
    hide Queued;
    AddedTasks(s, ts, cpu, t);
    var r := Added(s, ts, cpu, t);
    if Queued(s.queues)[t] >= 1 { var i := QueuedWhere(s.queues, t); }
    forall x ensures Queued(r.queues)[x] <= 1 { assert Queued(s.queues)[x] <= 1; }
  }

  /** A queued task whose flag is unset and that no raid sets right. */
  ghost predicate Stray(s: Sched, ts: Tasks, cpu: nat, victim: nat, x: nat) {
    && cpu < |s.queues| && victim < |s.queues| && x in s.flags && !s.flags[x]
    && (x in s.queues[cpu] || (x in s.queues[victim] && x in ts.status && ts.status[x] != Ready))
  }

  lemma StrayBreaks(s: Sched, ts: Tasks, cpu: nat, victim: nat, x: nat)
    requires Stray(s, ts, cpu, victim, x)
    ensures !FlagsOk(s)
  {
    if x in s.queues[cpu] { } else { }
  }

  lemma RobbedStray(s: Sched, ts: Tasks, cpu: nat, victim: nat, kept: Option<nat>, x: nat)
    requires Busy(s, ts, victim) && cpu != victim && Stray(s, ts, cpu, victim, x)
    ensures Stray(Robbed(s, ts, cpu, victim, kept).0, ts, cpu, victim, x)
  {
    hide Pick;
    var q, k := s.queues[victim], Pick(s.queues[victim], s.pass);
    assert x in q ==> x == q[k] || x in Without(q, k);
  }

  lemma {:induction false} RaidStray(s: Sched, ts: Tasks, cpu: nat, victim: nat, kept: Option<nat>, n: nat, x: nat)
    requires Sane(s, ts) && cpu != victim && Stray(s, ts, cpu, victim, x)
    ensures Stray(Raid(s, ts, cpu, victim, kept, n).0, ts, cpu, victim, x)
    decreases n
  {
    hide Robbed, Stray, Raid, Sane;
    assert cpu < |s.queues| && victim < |s.queues| by { StrayPlaces(s, ts, cpu, victim, x); }
    RaidStep(s, ts, cpu, victim, kept, n);
    if n > 0 && s.queues[victim] != [] {
      RobbedStray(s, ts, cpu, victim, kept, x);
      var r := Robbed(s, ts, cpu, victim, kept);
      RaidStray(r.0, ts, cpu, victim, r.1, n - 1, x);
    }
  }

  lemma StrayPlaces(s: Sched, ts: Tasks, cpu: nat, victim: nat, x: nat)
    requires Stray(s, ts, cpu, victim, x)
    ensures cpu < |s.queues| && victim < |s.queues|
  {
  }

  /** A task that is fetched but not kept is a stray. */
  lemma RobbedLeaves(s: Sched, ts: Tasks, cpu: nat, victim: nat, kept: Option<nat>)
    requires Busy(s, ts, victim) && cpu < |s.queues| && (kept.Some? || ts.status[Next(s, ts, victim)] != Ready)
    ensures Stray(Robbed(s, ts, cpu, victim, kept).0, ts, cpu, victim, Next(s, ts, victim))
  {
    hide Next, Pick, Without;
  }

  /** Flags stay right exactly when the batch is a single task and that task is ready. */
  lemma RaidFlags(s: Sched, ts: Tasks, cpu: nat, victim: nat, n: nat)
    requires Busy(s, ts, victim) && cpu < |s.queues| && cpu != victim && FlagsOk(s) && Once(s)
    requires 1 <= n && (n >= 2 ==> |s.queues[victim]| >= 2)
    ensures FlagsOk(Raid(s, ts, cpu, victim, None, n).0) <==> n == 1 && ts.status[Next(s, ts, victim)] == Ready
  {
    hide FlagsOk, Once, Next, Fetched, Added, Stray, Robbed;
    RobbedReady(s, ts, cpu, victim, None);
    var r, t := Robbed(s, ts, cpu, victim, None), Next(s, ts, victim);
    if ts.status[t] != Ready {
      RobbedLeaves(s, ts, cpu, victim, None);
      RaidStray(r.0, ts, cpu, victim, r.1, n - 1, t);
      StrayBreaks(Raid(s, ts, cpu, victim, None, n).0, ts, cpu, victim, t);
    } else if n == 1 {
      FetchedFlags(s, ts, victim);
    } else {
      var u := Robbed(r.0, ts, cpu, victim, r.1);
      RobbedLeaves(r.0, ts, cpu, victim, r.1);
      RaidStray(u.0, ts, cpu, victim, u.1, n - 2, Next(r.0, ts, victim));
      assert Raid(s, ts, cpu, victim, None, n) == Raid(r.0, ts, cpu, victim, r.1, n - 1);
      assert Raid(r.0, ts, cpu, victim, r.1, n - 1) == Raid(u.0, ts, cpu, victim, u.1, n - 2);
      StrayBreaks(Raid(s, ts, cpu, victim, None, n).0, ts, cpu, victim, Next(r.0, ts, victim));
    }
  }

  lemma FetchedStray(s: Sched, ts: Tasks, victim: nat, x: nat)
    requires Busy(s, ts, victim) && Stray(s, ts, victim, victim, x) && x in ts.status && ts.status[x] != Ready
    ensures var t, f := Next(s, ts, victim), Fetched(s, ts, victim);
      if ts.status[t] == Ready then Stray(f, ts, victim, victim, x)
        else Stray(Added(f, ts, victim, t), ts, victim, victim, x)
  {
    hide Pick;
    var q, k := s.queues[victim], Pick(s.queues[victim], s.pass);
    assert x in q ==> x == q[k] || x in Without(q, k);
  }

  lemma {:induction false} SoughtStray(s: Sched, ts: Tasks, victim: nat, n: nat, x: nat)
    requires Sane(s, ts) && Stray(s, ts, victim, victim, x) && x in ts.status && ts.status[x] != Ready
    ensures Stray(Sought(s, ts, victim, n).0, ts, victim, victim, x)
    decreases n
  {
    hide Next, Fetched, Added, Sought, Sane;
    SoughtStep(s, ts, victim, n);
    if n > 0 && s.queues[victim] != [] {
      var t, f := Next(s, ts, victim), Fetched(s, ts, victim);
      FetchedQueues(s, ts, victim);
      FetchedStray(s, ts, victim, x);
      if ts.status[t] != Ready { SoughtStray(Added(f, ts, victim, t), ts, victim, n - 1, x); }
    }
  }

  /** A search keeps flags right exactly when the next task is ready. */
  lemma SoughtFlags(s: Sched, ts: Tasks, victim: nat, n: nat)
    requires Busy(s, ts, victim) && FlagsOk(s) && Once(s) && 1 <= n
    ensures FlagsOk(Sought(s, ts, victim, n).0) <==> ts.status[Next(s, ts, victim)] == Ready
  {
    hide FlagsOk, Once, Next, Pick, Without;
    var t, f := Next(s, ts, victim), Fetched(s, ts, victim);
    if ts.status[t] == Ready {
      FetchedFlags(s, ts, victim);
    } else {
      SoughtStray(Added(f, ts, victim, t), ts, victim, n - 1, t);
      StrayBreaks(Sought(s, ts, victim, n).0, ts, victim, victim, t);
    }
  }
}
