/** The run queues of all processors, with work stealing. Locks that were or were not obtained are
    parameters. */
module RunQueues {
  import opened Basics
  import opened Options
  import opened Stealing
  import opened Stride

  const MAX_CPUS: nat := 64

  /** Half of the tasks is one task, and the next task is ready. */
  ghost predicate LoneReady(s: Sched, ts: Tasks, v: nat) {
    Busy(s, ts, v) && |s.queues[v]| / 2 == 1 && ts.status[Next(s, ts, v)] == Ready
  }

  /** The caller's test for whether flags stay right: nothing was taken from another processor, or a single ready
      task. */
  ghost predicate Loyal(s: Sched, ts: Tasks, cpu: nat, count: nat, locked: bool) {
    || (cpu < |s.queues| && s.queues[cpu] != []) || !locked || NoneLoaded(s.queues, cpu, count)
    || exists v: nat :: Victim(s.queues, cpu, count, v) && LoneReady(s, ts, v)
  }

  class RunQueues {
    const stride: map<nat, nat>
    var pass: map<nat, nat>
    var status: map<nat, Status>
    var inRunQueue: map<nat, bool>
    var queues: seq<seq<nat>>
    var readyCounts: seq<nat>

    ghost function Now(): Sched
      reads this
    {
      Sched(queues, pass, inRunQueue)
    }

    ghost function Known(): Tasks
      reads this
    {
      Tasks(stride, status)
    }

    ghost predicate Sound()
      reads this
    {
      && |queues| == MAX_CPUS && |readyCounts| == MAX_CPUS && Sane(Now(), Known())
      && (forall x :: x in pass ==> pass[x] < WORD && stride[x] < WORD)
    }

    /** Every counter is the length of its queue. */
    ghost predicate Valid()
      reads this
    {
      Sound() && forall i :: 0 <= i < MAX_CPUS ==> readyCounts[i] == |queues[i]|
    }

    constructor (strides: map<nat, nat>)
      requires forall x :: x in strides ==> strides[x] < WORD
      ensures Valid() && stride == strides && Queued(queues) == multiset{} && FlagsOk(Now()) && Once(Now())
      ensures (forall i :: 0 <= i < MAX_CPUS ==> queues[i] == []) && forall x :: x in strides ==>
        x in pass && x in inRunQueue && x in status && !inRunQueue[x] && status[x] != Exited
    {
      stride := strides;
      pass := map x | x in strides :: 0;
      status := map x | x in strides :: Waiting;
      inRunQueue := map x | x in strides :: false;
      queues := seq(MAX_CPUS, i => []);
      readyCounts := seq(MAX_CPUS, i => 0);
      new;
      NoneQueued(queues);
    }

    /** The first task with the least pass leaves the queue and its pass advances. */
    method Fetch(cpu: nat) returns (r: Option<nat>)
      requires Sound() && cpu < MAX_CPUS
      modifies this`pass, this`inRunQueue, this`queues
      ensures Sound() && status == old(status)
      ensures old(queues[cpu]) == [] ==> r == None && Now() == old(Now())
      ensures old(queues[cpu]) != [] ==>
        r == Some(Next(old(Now()), old(Known()), cpu)) && Now() == Fetched(old(Now()), old(Known()), cpu)
    {
      hide Pick, Without;
      var q := queues[cpu];
      if q == [] { return None; }
      assert Listed(q, pass);
      var minPass := WORD - 1;
      var minIdx := 0;
      var idx := 0;
      while idx < |q|
        invariant 0 <= idx <= |q| && 0 <= minIdx < |q| && 0 <= minPass < WORD
        invariant forall i :: 0 <= i < idx ==> minPass <= pass[q[i]]
        invariant (minPass == WORD - 1 && minIdx == 0) || (minIdx < idx && pass[q[minIdx]] == minPass)
        invariant forall i :: 0 <= i < minIdx ==> minPass < pass[q[i]]
      {
        if pass[q[idx]] < minPass { minPass, minIdx := pass[q[idx]], idx; }
        idx := idx + 1;
      }
      assert FirstLeast(q, pass, minIdx);
      PickUnique(q, pass, minIdx, Pick(q, pass));
      var task := q[minIdx];
      queues := queues[cpu := Without(q, minIdx)];
      inRunQueue := inRunQueue[task := false];
      pass := pass[task := Advance(pass[task], stride[task])];
      assert Now() == Fetched(old(Now()), Known(), cpu);
      r := Some(task);
    }

    /** Fetch, with the counter: the task leaves the multiset of queued tasks. */
    method Take(cpu: nat) returns (r: Option<nat>)
      requires Valid() && cpu < MAX_CPUS
      modifies this`pass, this`inRunQueue, this`queues, this`readyCounts
      ensures Valid() && status == old(status)
      ensures old(queues[cpu]) == [] ==> r == None && Now() == old(Now())
      ensures old(queues[cpu]) != [] ==>
        r == Some(Next(old(Now()), old(Known()), cpu)) && Now() == Fetched(old(Now()), old(Known()), cpu)
    {
      hide Sane, Next, Fetched;
      r := Fetch(cpu);
      if r.Some? {
        FetchedQueues(old(Now()), old(Known()), cpu);
        readyCounts := readyCounts[cpu := readyCounts[cpu] - 1];
      }
    }

    /** Appends a task to a queue and counts it. */
    method Add(cpu: nat, task: nat)
      requires Valid() && cpu < MAX_CPUS && task in pass
      modifies this`queues, this`readyCounts
      ensures Valid() && Now() == Added(old(Now()), Known(), cpu, task)
    {
      queues := queues[cpu := queues[cpu] + [task]];
      readyCounts := readyCounts[cpu := readyCounts[cpu] + 1];
    }

    /** A task takes its turn and is added to the same queue again. */
    method TakeTurn(cpu: nat) returns (task: nat)
      requires Valid() && cpu < MAX_CPUS && queues[cpu] != []
      modifies this`pass, this`inRunQueue, this`queues, this`readyCounts
      ensures Valid() && Queued(queues) == Queued(old(queues))
      ensures Dispatched(State(old(queues[cpu]), old(pass)), State(queues[cpu], pass), stride, task)
      ensures forall i :: 0 <= i < MAX_CPUS && i != cpu ==> queues[i] == old(queues[i])
    {
      hide Queued, Pick;
      ghost var s, ts := Now(), Known();
      FetchedTasks(s, ts, cpu);
      FetchedQueues(s, ts, cpu);
      AddedTasks(Fetched(s, ts, cpu), ts, cpu, Next(s, ts, cpu));
      var t := Take(cpu);
      task := t.value;
      Add(cpu, task);
      assert Turn(State(old(queues[cpu]), old(pass)), State(queues[cpu], pass), stride, Pick(s.queues[cpu], s.pass));
    }

    /** Makes a task ready on a processor, unless its flag says it is queued or it has exited. */
    method EnqueueReady(task: nat, cpu: nat) returns (added: bool)
      requires Valid() && cpu < MAX_CPUS && task in pass
      modifies this`queues, this`readyCounts, this`inRunQueue, this`status
      ensures Valid() && (added <==> !old(inRunQueue[task]) && old(status[task]) != Exited)
      ensures !added ==> queues == old(queues) && status == old(status) && inRunQueue == old(inRunQueue)
      ensures added ==>
        queues == old(queues)[cpu := old(queues[cpu]) + [task]] && inRunQueue == old(inRunQueue)[task := true]
      ensures added ==> status == old(status)[task := Ready]
      ensures Queued(queues) == Queued(old(queues)) + if added then multiset{task} else multiset{}
      ensures old(FlagsOk(Now()) && Once(Now())) ==> FlagsOk(Now()) && Once(Now())
    {
      hide Queued, FlagsOk, Once;
      if inRunQueue[task] { return false; }
      inRunQueue := inRunQueue[task := true];
      if status[task] == Exited {
        inRunQueue := inRunQueue[task := false];
        assert inRunQueue == old(inRunQueue);
        return false;
      }
      AddedTasks(old(Now()), old(Known()), cpu, task);
      if old(FlagsOk(Now()) && Once(Now())) { EnqueuedFlags(old(Now()), old(Known()), cpu, task); }
      status := status[task := Ready];
      Add(cpu, task);
      OnceAlike(Now(), Added(old(Now()), old(Known()), cpu, task));
      added := true;
    }

    /** The first processor with the most ready tasks, other than `cpu`. */
    method MostLoaded(cpu: nat, count: nat) returns (best: Option<nat>, bestLen: nat)
      requires Valid()
      ensures best.Some? ==> Victim(queues, cpu, count, best.value) && bestLen == |queues[best.value]| >= 1
      ensures best.None? ==> bestLen == 0 && forall i :: 0 <= i < MAX_CPUS && i < count && i != cpu ==> queues[i] == []
    {
      var max := if count < MAX_CPUS then count else MAX_CPUS;
      best, bestLen := None, 0;
      var i := 0;
      while i < max
        invariant 0 <= i <= max
        invariant forall j :: 0 <= j < i && j != cpu ==> |queues[j]| <= bestLen
        invariant best.None? <==> bestLen == 0
        invariant best.Some? ==> best.value < i && best.value != cpu && |queues[best.value]| == bestLen
        invariant best.Some? ==> forall j :: 0 <= j < best.value && j != cpu ==> |queues[j]| < bestLen
      {
        if i != cpu && readyCounts[i] > bestLen { best, bestLen := Some(i), readyCounts[i]; }
        i := i + 1;
      }
    }

    /** Moves up to `toSteal` tasks away from the victim: the first ready one is returned, further ready ones join
        the local queue, others go back. */
    method Steal(cpu: nat, victim: nat, toSteal: nat) returns (first: Option<nat>)
      requires Valid() && cpu < MAX_CPUS && victim < MAX_CPUS && cpu != victim
      modifies this`pass, this`inRunQueue, this`queues, this`readyCounts
      ensures Valid() && status == old(status)
      ensures (Now(), first) == Raid(old(Now()), Known(), cpu, victim, None, toSteal)
    {
      hide Queued, Raid, Next, Fetched, Added, Sane;
      first := None;
      var n := 0;
      while n < toSteal
        invariant 0 <= n <= toSteal && Valid() && status == old(status)
        invariant Raid(Now(), Known(), cpu, victim, first, toSteal - n) ==
          Raid(old(Now()), Known(), cpu, victim, None, toSteal)
      {
        ghost var s, ts := Now(), Known();
        RaidStep(s, ts, cpu, victim, first, toSteal - n);
        var t := Take(victim);
        if t.None? { return; }
        FetchedQueues(s, ts, victim);
        if status[t.value] == Ready {
          if first.None? { first := t; } else { Add(cpu, t.value); }
        } else {
          Add(victim, t.value);
        }
        n := n + 1;
      }
      RaidStep(Now(), Known(), cpu, victim, first, 0);
    }

    /** The next task for a processor: its own, or one stolen from the most loaded other. */
    method FetchNextTask(cpu: nat, cpuCount: nat, victimLocked: bool) returns (r: Option<nat>)
      requires Valid() && cpu < MAX_CPUS
      modifies this`pass, this`inRunQueue, this`queues, this`readyCounts
      ensures Valid() && status == old(status)
      ensures Queued(old(queues)) == Queued(queues) + Held(r)
      ensures old(queues[cpu]) != [] ==>
        r == Some(Next(old(Now()), Known(), cpu)) && Now() == Fetched(old(Now()), Known(), cpu)
      ensures old(queues[cpu]) == [] && (!victimLocked || NoneLoaded(old(queues), cpu, cpuCount)) ==>
        r.None? && Now() == old(Now())
      ensures old(queues[cpu]) == [] && victimLocked ==>
        forall v: nat :: Victim(old(queues), cpu, cpuCount, v) && |old(queues)[v]| >= 2 ==>
          Plundered(old(Now()), Known(), cpu, v, Now(), r)
      ensures old(FlagsOk(Now()) && Once(Now())) ==>
        Once(Now()) && (FlagsOk(Now()) <==> Loyal(old(Now()), Known(), cpu, cpuCount, victimLocked))
    {
      hide Queued, Raid, Next, Fetched, Sane, FlagsOk, Once, Victim, NoneLoaded, Plundered, Loyal;
      ghost var s, ts := Now(), Known();
      r := Take(cpu);
      if r.Some? {
        FetchedTasks(s, ts, cpu);
        OwnLoyal(s, ts, cpu, cpuCount, victimLocked);
        return;
      }
      var best, bestLen := MostLoaded(cpu, cpuCount);
      if best.Some? && bestLen >= 2 && victimLocked {
        r := Steal(cpu, best.value, if bestLen / 2 == 0 then 1 else bestLen / 2);
        RaidTasks(s, ts, cpu, best.value, None, bestLen / 2);
        BatchTaken(s, ts, cpu, best.value);
        BatchLoyal(s, ts, cpu, cpuCount, best.value);
      } else {
        IdleLoyal(s, ts, cpu, cpuCount, victimLocked, best);
      }
    }

    /** The first ready task among up to `toSteal` of the victim's; the others go back. */
    method StealReady(victim: nat, toSteal: nat) returns (r: Option<nat>)
      requires Valid() && victim < MAX_CPUS
      modifies this`pass, this`inRunQueue, this`queues, this`readyCounts
      ensures Valid() && status == old(status)
      ensures (Now(), r) == Sought(old(Now()), Known(), victim, toSteal)
    {
      hide Sought, Next, Fetched, Added, Sane;
      var n := 0;
      while n < toSteal
        invariant 0 <= n <= toSteal && Valid() && status == old(status)
        invariant Sought(Now(), Known(), victim, toSteal - n) == Sought(old(Now()), Known(), victim, toSteal)
      {
        ghost var s, ts := Now(), Known();
        SoughtStep(s, ts, victim, toSteal - n);
        r := Take(victim);
        if r.None? { return; }
        FetchedQueues(s, ts, victim);
        if status[r.value] == Ready { return; }
        Add(victim, r.value);
        n := n + 1;
      }
      SoughtStep(Now(), Known(), victim, 0);
      r := None;
    }

    /** The same without waiting for locks, taking a single ready task from the victim. */
    method FetchNextTaskTry(cpu: nat, cpuCount: nat, ownLocked: bool, victimLocked: bool) returns (r: Option<nat>)
      requires Valid() && cpu < MAX_CPUS
      modifies this`pass, this`inRunQueue, this`queues, this`readyCounts
      ensures Valid() && status == old(status)
      ensures Queued(old(queues)) == Queued(queues) + Held(r)
      ensures !ownLocked ==> r.None? && Now() == old(Now())
      ensures ownLocked && old(queues[cpu]) != [] ==>
        r == Some(Next(old(Now()), Known(), cpu)) && Now() == Fetched(old(Now()), Known(), cpu)
      ensures old(queues[cpu]) == [] && (!victimLocked || NoneLoaded(old(queues), cpu, cpuCount)) ==>
        r.None? && Now() == old(Now())
      ensures ownLocked && old(queues[cpu]) == [] && victimLocked ==>
        forall v: nat :: Victim(old(queues), cpu, cpuCount, v) && |old(queues)[v]| >= 2 ==>
          && (Now(), r) == Sought(old(Now()), Known(), v, |old(queues)[v]| / 2)
          && (Known().status[Next(old(Now()), Known(), v)] == Ready ==>
                r == Some(Next(old(Now()), Known(), v)) && Now() == Fetched(old(Now()), Known(), v))
          && (old(FlagsOk(Now()) && Once(Now())) ==>
             (FlagsOk(Now()) <==> Known().status[Next(old(Now()), Known(), v)] == Ready))
    {
      hide Queued, Sought, Next, Fetched, Sane, FlagsOk, Once, Victim, NoneLoaded;
      if !ownLocked { return None; }
      ghost var s, ts := Now(), Known();
      r := Take(cpu);
      if r.Some? {
        FetchedTasks(s, ts, cpu);
        return;
      }
      var best, bestLen := MostLoaded(cpu, cpuCount);
      if best.Some? && bestLen >= 2 && victimLocked {
        r := StealReady(best.value, if bestLen / 2 == 0 then 1 else bestLen / 2);
        SoughtTasks(s, ts, best.value, bestLen / 2);
        SoughtReady(s, ts, best.value, bestLen / 2);
        if FlagsOk(s) && Once(s) { SoughtFlags(s, ts, best.value, bestLen / 2); }
        OnlyVictim(s, cpu, cpuCount, best.value);
      } else {
        NoVictim(s, cpu, cpuCount, best);
      }
    }
  }

  /** Half of the victim's tasks were tried: the first ready one is returned. When the next task is ready, it is that
      one; when all are, exactly half of them left the victim, in the order it would have run them. */
  ghost predicate Plundered(s: Sched, ts: Tasks, cpu: nat, v: nat, t: Sched, r: Option<nat>) {
    && Busy(s, ts, v) && cpu < |s.queues| && |t.queues| == |s.queues| && var n := |s.queues[v]| / 2;
    && (t, r) == Raid(s, ts, cpu, v, None, n) && r == Sought(s, ts, v, n).1
    && (forall i :: 0 <= i < |s.queues| && i != cpu && i != v ==> t.queues[i] == s.queues[i])
    && |t.queues[v]| + n >= |s.queues[v]| && (r.Some? ==> r.value in ts.status && ts.status[r.value] == Ready)
    && (ts.status[Next(s, ts, v)] == Ready ==> r == Some(Next(s, ts, v)))
    && (AllReady(s.queues[v], ts) ==>
          |t.queues[v]| == |s.queues[v]| - n && r.Some? && [r.value] + t.queues[cpu] == Drawn(s, ts, v, n))
  }

  lemma BatchTaken(s: Sched, ts: Tasks, cpu: nat, v: nat)
    requires Busy(s, ts, v) && cpu < |s.queues| && cpu != v && s.queues[cpu] == [] && |s.queues[v]| >= 2
    ensures var r := Raid(s, ts, cpu, v, None, |s.queues[v]| / 2); Plundered(s, ts, cpu, v, r.0, r.1)
  {
    hide Raid, Sought, Next, Drawn, Sane, AllReady;
    var n := |s.queues[v]| / 2;
    RaidBounds(s, ts, cpu, v, None, n);
    RaidFirst(s, ts, cpu, v, n);
    SoughtReady(s, ts, v, n);
    if AllReady(s.queues[v], ts) { RaidAllReady(s, ts, cpu, v, None, n); }
  }

  /** Fewer tasks are queued once if the others were. */
  lemma OnceFewer(s: Sched, t: Sched, r: Option<nat>)
    requires Once(s) && Queued(s.queues) == Queued(t.queues) + Held(r)
    ensures Once(t)
  {
    hide Queued;
    forall x ensures Queued(t.queues)[x] <= 1 { assert Queued(s.queues)[x] <= 1; }
  }

  lemma OnceAlike(s: Sched, t: Sched)
    requires s.queues == t.queues
    ensures Once(s) <==> Once(t)
  {
    hide Queued;
  }

  lemma OwnLoyal(s: Sched, ts: Tasks, cpu: nat, count: nat, locked: bool)
    requires Busy(s, ts, cpu)
    ensures Loyal(s, ts, cpu, count, locked)
    ensures FlagsOk(s) && Once(s) ==> FlagsOk(Fetched(s, ts, cpu)) && Once(Fetched(s, ts, cpu))
  {
    hide FlagsOk, Once, Fetched;
    if FlagsOk(s) && Once(s) { FetchedFlags(s, ts, cpu); }
  }

  lemma OnlyVictim(s: Sched, cpu: nat, count: nat, v: nat)
    requires Victim(s.queues, cpu, count, v) && |s.queues[v]| >= 2
    ensures !NoneLoaded(s.queues, cpu, count) && forall w: nat :: Victim(s.queues, cpu, count, w) ==> w == v
  {
    forall w: nat | Victim(s.queues, cpu, count, w) ensures w == v { VictimUnique(s.queues, cpu, count, v, w); }
  }

  lemma NoVictim(s: Sched, cpu: nat, count: nat, best: Option<nat>)
    requires best.Some? ==> Victim(s.queues, cpu, count, best.value)
    requires best.None? ==> forall i :: 0 <= i < |s.queues| && i < count && i != cpu ==> s.queues[i] == []
    ensures best.None? || |s.queues[best.value]| < 2 ==>
      NoneLoaded(s.queues, cpu, count) && forall w: nat :: Victim(s.queues, cpu, count, w) ==> |s.queues[w]| < 2
  {
  }

  lemma IdleLoyal(s: Sched, ts: Tasks, cpu: nat, count: nat, locked: bool, best: Option<nat>)
    requires best.Some? ==> Victim(s.queues, cpu, count, best.value)
    requires best.None? ==> forall i :: 0 <= i < |s.queues| && i < count && i != cpu ==> s.queues[i] == []
    requires !locked || best.None? || |s.queues[best.value]| < 2
    ensures Loyal(s, ts, cpu, count, locked)
    ensures locked ==> NoneLoaded(s.queues, cpu, count) && forall w: nat :: Victim(s.queues, cpu, count, w) ==>
      |s.queues[w]| < 2
  {
    hide Next;
    NoVictim(s, cpu, count, best);
  }

  lemma BatchLoyal(s: Sched, ts: Tasks, cpu: nat, count: nat, v: nat)
    requires Busy(s, ts, v) && cpu < |s.queues| && s.queues[cpu] == [] && Victim(s.queues, cpu, count, v)
    requires |s.queues[v]| >= 2
    ensures !NoneLoaded(s.queues, cpu, count) && forall w: nat :: Victim(s.queues, cpu, count, w) ==> w == v
    ensures FlagsOk(s) && Once(s) ==>
      var r := Raid(s, ts, cpu, v, None, |s.queues[v]| / 2);
      Once(r.0) && (FlagsOk(r.0) <==> Loyal(s, ts, cpu, count, true))
  {
    hide FlagsOk, Once, Next, Raid, NoneLoaded, Sane, Queued;
    OnlyVictim(s, cpu, count, v);
    var n := |s.queues[v]| / 2;
    if FlagsOk(s) && Once(s) {
      RaidFlags(s, ts, cpu, v, n);
      RaidTasks(s, ts, cpu, v, None, n);
      OnceFewer(s, Raid(s, ts, cpu, v, None, n).0, Raid(s, ts, cpu, v, None, n).1);
    }
  }

  const FOUR: map<nat, nat> := map[0 := 1, 1 := 1, 2 := 1, 3 := 1]

  /** The tasks below `t` are ready on processor 1, the others can still be made so. */
  ghost predicate Stage(s: Sched, ts: Tasks, t: nat) {
    && |s.queues| == MAX_CPUS && |s.queues[1]| == t && AllReady(s.queues[1], ts)
    && (forall i :: 0 <= i < MAX_CPUS && i != 1 ==> s.queues[i] == [])
    && forall x :: x in FOUR && t <= x ==>
       x in s.pass && x in s.flags && x in ts.status && !s.flags[x] && ts.status[x] != Exited
  }

  lemma StageNext(s: Sched, ts: Tasks, t: nat, s2: Sched, ts2: Tasks)
    requires Stage(s, ts, t) && t in FOUR && s2.pass == s.pass
    requires s2.queues == s.queues[1 := s.queues[1] + [t]] && s2.flags == s.flags[t := true]
    requires ts2.status == ts.status[t := Ready]
    ensures Stage(s2, ts2, t + 1)
  {
  }

  /** Four tasks made ready on processor 1. */
  method FourReady() returns (q: RunQueues)
    ensures fresh(q) && q.Valid() && FlagsOk(q.Now()) && Once(q.Now()) && Stage(q.Now(), q.Known(), 4)
  {
    hide Queued, FlagsOk, Once, Sane, Stage;
    q := new RunQueues(FOUR);
    StageStart(q.Now(), q.Known());
    var t := 0;
    while t < 4
      invariant 0 <= t <= 4 && q.Valid() && FlagsOk(q.Now()) && Once(q.Now()) && Stage(q.Now(), q.Known(), t)
    {
      ghost var s, ts := q.Now(), q.Known();
      StageHas(s, ts, t);
      var added := q.EnqueueReady(t, 1);
      StageNext(s, ts, t, q.Now(), q.Known());
      t := t + 1;
    }
  }

  lemma StageStart(s: Sched, ts: Tasks)
    requires |s.queues| == MAX_CPUS && forall i :: 0 <= i < MAX_CPUS ==> s.queues[i] == []
    requires forall x :: x in FOUR ==>
      x in s.pass && x in s.flags && x in ts.status && !s.flags[x] && ts.status[x] != Exited
    ensures Stage(s, ts, 0)
  {
  }

  lemma StageHas(s: Sched, ts: Tasks, t: nat)
    requires Stage(s, ts, t) && t < 4
    ensures t in FOUR && t in s.pass && t in s.flags && t in ts.status && !s.flags[t] && ts.status[t] != Exited
  {
  }

  /** Another processor takes two of them, and the one that it puts into its queue is made ready again: it is queued
      twice. */
  method QueuedTwice() returns (q: RunQueues, x: nat)
    ensures q.Valid() && Queued(q.queues)[x] == 2
  {
    hide Queued, FlagsOk, Once, Raid, Sought, Drawn, Next, Fetched, Sane, Loyal;
    q := FourReady();
    assert Victim(q.queues, 0, 2, 1);
    ghost var s, ts := q.Now(), q.Known();
    var r := q.FetchNextTask(0, 2, true);
    assert Plundered(s, ts, 0, 1, q.Now(), r);
    BatchFlags(s, ts, 0, 1, q.Now(), r);
    x := q.queues[0][0];
    OneOf(q.Now(), x);
    var added := q.EnqueueReady(x, 0);
  }

  /** A task in the local queue after a raid is ready, and its flag is unset. */
  lemma BatchFlags(s: Sched, ts: Tasks, cpu: nat, v: nat, t: Sched, r: Option<nat>)
    requires Plundered(s, ts, cpu, v, t, r) && cpu != v && s.queues[cpu] == []
    ensures Sane(t, ts) && forall x :: x in t.queues[cpu] ==> x in t.pass && !t.flags[x] && ts.status[x] == Ready
  {
    hide Sought, Drawn, Sane, AllReady, Next, Raid;
    RaidLocal(s, ts, cpu, v, None, |s.queues[v]| / 2);
  }

  lemma OneOf(s: Sched, x: nat)
    requires Once(s) && 0 < |s.queues| && x in s.queues[0]
    ensures Queued(s.queues)[x] == 1
  {
    QueuedHas(s.queues, 0, x);
  }
}
