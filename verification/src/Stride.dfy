/** Stride selection on one run queue: the first task with the least pass runs next and its pass grows
    by its stride. */
module Stride {
  import opened Basics

  /** Every queued task has a pass and a stride. */
  ghost predicate Known(q: seq<nat>, pass: map<nat, nat>, stride: map<nat, nat>) {
    forall x :: x in q ==> x in pass && x in stride && pass[x] < WORD && stride[x] < WORD
  }

  /** `k` is the first index with the least pass. */
  ghost predicate FirstLeast(q: seq<nat>, pass: map<nat, nat>, k: nat) {
    && k < |q| && q[k] in pass
    && (forall x :: x in q ==> x in pass && pass[q[k]] <= pass[x])
    && (forall i :: 0 <= i < k ==> q[i] in pass && pass[q[k]] < pass[q[i]])
  }

  /** At most one index is picked. */
  lemma PickUnique(q: seq<nat>, pass: map<nat, nat>, k: nat, l: nat)
    requires FirstLeast(q, pass, k) && FirstLeast(q, pass, l)
    ensures k == l
  {
    assert q[k] in q && q[l] in q;
  }

  /** The first index with the least pass. */
  function Pick(q: seq<nat>, pass: map<nat, nat>): (k: nat)
    requires q != [] && forall x :: x in q ==> x in pass
    ensures FirstLeast(q, pass, k)
  {
    var n := |q| - 1;
    if n == 0 then 0
    else
      var k := Pick(q[..n], pass);
      assert q == q[..n] + [q[n]];
      if pass[q[n]] < pass[q[k]] then n else k
  }

  function Advance(p: nat, s: nat): (r: nat)
    ensures r < WORD
  {
    (p + s) % WORD
  }

  /** A queue and the passes of its tasks. */
  datatype State = State(queue: seq<nat>, pass: map<nat, nat>)

  /** The queue after its `k`th task has been fetched and added again. */
  function Rotated(q: seq<nat>, k: nat): seq<nat>
    requires k < |q|
  {
    q[..k] + q[k + 1..] + [q[k]]
  }

  /** One turn: the task at `k` is fetched, runs and is added again. */
  ghost predicate Turn(s: State, t: State, stride: map<nat, nat>, k: nat) {
    && Known(s.queue, s.pass, stride) && FirstLeast(s.queue, s.pass, k) && s.queue[k] in stride
    && t.queue == Rotated(s.queue, k)
    && t.pass == s.pass[s.queue[k] := Advance(s.pass[s.queue[k]], stride[s.queue[k]])]
  }

  /** No pass is about to wrap around. */
  ghost predicate Room(s: State, stride: map<nat, nat>) {
    forall x :: x in s.queue && x in s.pass && x in stride ==> s.pass[x] + stride[x] < WORD
  }

  ghost predicate Dispatched(s: State, t: State, stride: map<nat, nat>, pick: nat) {
    exists k: nat :: Turn(s, t, stride, k) && s.queue[k] == pick
  }

  /** A run of turns; `picks` are the tasks dispatched. */
  ghost predicate Run(run: seq<State>, stride: map<nat, nat>, picks: seq<nat>) {
    && |run| == |picks| + 1
    && (forall n :: 0 <= n < |picks| ==> Room(run[n], stride) && Dispatched(run[n], run[n + 1], stride, picks[n]))
  }

  function Times(picks: seq<nat>, t: nat): nat {
    if picks == [] then 0 else Times(picks[..|picks| - 1], t) + if picks[|picks| - 1] == t then 1 else 0
  }

  /** Passes lie within `most` of each other. */
  ghost predicate Close(s: State, most: nat) {
    forall x, y :: x in s.queue && y in s.queue && x in s.pass && y in s.pass ==> s.pass[x] <= s.pass[y] + most
  }

  ghost predicate AtMost(q: seq<nat>, stride: map<nat, nat>, most: nat) {
    forall x :: x in q && x in stride ==> stride[x] <= most
  }

  ghost predicate SameTasks(p: seq<nat>, q: seq<nat>) {
    forall x :: x in p <==> x in q
  }

  lemma SameMultiset(p: seq<nat>, q: seq<nat>)
    requires multiset(p) == multiset(q)
    ensures SameTasks(p, q) && |p| == |q|
  {
    forall x ensures x in p <==> x in q {
      assert x in p <==> x in multiset(p);
      assert x in q <==> x in multiset(q);
    }
    assert |p| == |multiset(p)| && |q| == |multiset(q)|;
  }

  /** Fetching a task and adding it again keeps the tasks of the queue. */
  lemma RotatedTasks(q: seq<nat>, k: nat)
    requires k < |q|
    ensures multiset(Rotated(q, k)) == multiset(q) && SameTasks(Rotated(q, k), q)
  {
    assert q == q[..k] + [q[k]] + q[k + 1..];
    SameMultiset(Rotated(q, k), q);
  }

  lemma TurnFacts(s: State, t: State, stride: map<nat, nat>, k: nat)
    requires Turn(s, t, stride, k) && Room(s, stride)
    ensures k < |s.queue| && s.queue[k] in s.queue && s.queue[k] in s.pass && s.queue[k] in stride
    ensures SameTasks(t.queue, s.queue) && Known(t.queue, t.pass, stride)
    ensures t.pass == s.pass[s.queue[k] := s.pass[s.queue[k]] + stride[s.queue[k]]]
    ensures forall x :: x in s.queue ==> x in s.pass && s.pass[s.queue[k]] <= s.pass[x]
  {
    hide Rotated;
    RotatedTasks(s.queue, k);
    assert s.queue[k] in s.queue;
  }

  /** The least pass grows by at most `most`. */
  lemma StepClose(s: State, t: State, m: nat, d: nat, most: nat)
    requires Close(s, most) && SameTasks(t.queue, s.queue) && m in s.queue && m in s.pass && d <= most
    requires forall x :: x in s.queue ==> x in s.pass && s.pass[m] <= s.pass[x]
    requires t.pass == s.pass[m := s.pass[m] + d]
    ensures Close(t, most)
  {
    forall x, y | x in t.queue && y in t.queue && x in t.pass && y in t.pass ensures t.pass[x] <= t.pass[y] + most {
      assert x in s.queue && y in s.queue;
    }
  }

  /** A turn keeps passes within the largest stride of each other. */
  lemma TurnClose(s: State, t: State, stride: map<nat, nat>, k: nat, most: nat)
    requires Turn(s, t, stride, k) && Room(s, stride) && Close(s, most) && AtMost(s.queue, stride, most)
    ensures k < |s.queue| && s.queue[k] in s.queue && s.queue[k] in s.pass && s.queue[k] in stride
    ensures Close(t, most) && AtMost(t.queue, stride, most) && SameTasks(t.queue, s.queue)
    ensures Known(t.queue, t.pass, stride)
    ensures t.pass == s.pass[s.queue[k] := s.pass[s.queue[k]] + stride[s.queue[k]]]
  {
    hide Turn, Room, Close, Known;
    TurnFacts(s, t, stride, k);
    StepClose(s, t, s.queue[k], stride[s.queue[k]], most);
  }

  /** After `picks`, the pass of `x` is its start plus its stride per dispatch. */
  ghost predicate Counted(a: State, z: State, stride: map<nat, nat>, picks: seq<nat>) {
    forall x :: x in a.queue ==>
      x in a.pass && x in z.pass && x in stride && z.pass[x] == a.pass[x] + stride[x] * Times(picks, x)
  }

  lemma CountedStep(a: State, s: State, t: State, stride: map<nat, nat>, picks: seq<nat>, m: nat)
    requires Counted(a, s, stride, picks) && m in s.pass && m in stride && t.pass == s.pass[m := s.pass[m] + stride[m]]
    ensures Counted(a, t, stride, picks + [m])
  {
    forall x | x in a.queue ensures t.pass[x] == a.pass[x] + stride[x] * Times(picks + [m], x) {
      assert (picks + [m])[..|picks|] == picks;
      assert Times(picks + [m], x) == Times(picks, x) + if m == x then 1 else 0;
      if m == x { assert stride[x] * (Times(picks, x) + 1) == stride[x] * Times(picks, x) + stride[x]; }
    }
  }

  lemma PickOf(s: State, t: State, stride: map<nat, nat>, pick: nat) returns (k: nat)
    requires Dispatched(s, t, stride, pick)
    ensures Turn(s, t, stride, k) && k < |s.queue| && s.queue[k] == pick
  {
    k :| Turn(s, t, stride, k) && s.queue[k] == pick;
  }

  /** Over any run, passes never drift apart, and each counts its dispatches. */
  lemma {:induction false} RunClose(run: seq<State>, stride: map<nat, nat>, picks: seq<nat>, most: nat)
    requires Run(run, stride, picks) && Known(run[0].queue, run[0].pass, stride)
    requires Close(run[0], most) && AtMost(run[0].queue, stride, most)
    ensures var z := run[|picks|];
      && Close(z, most) && AtMost(z.queue, stride, most) && Known(z.queue, z.pass, stride)
         && SameTasks(z.queue, run[0].queue)
      && Counted(run[0], z, stride, picks)
    decreases |picks|
  {
    hide Turn, Counted, Close, AtMost, Room;
    if picks == [] {
      CountedNone(run[0], stride);
    } else {
      var n := |picks| - 1;
      var before := picks[..n];
      assert forall i :: 0 <= i < n ==> before[i] == picks[i];
      RunClose(run[..n + 1], stride, before, most);
      var s, t := run[n], run[n + 1];
      var k := PickOf(s, t, stride, picks[n]);
      TurnClose(s, t, stride, k, most);
      CountedStep(run[0], s, t, stride, before, picks[n]);
      assert before + [picks[n]] == picks;
    }
  }

  lemma CountedNone(a: State, stride: map<nat, nat>)
    requires Known(a.queue, a.pass, stride)
    ensures Counted(a, a, stride, [])
  {
  }

  /** Proportional share: over any run from equal starts, dispatches weighted by stride never differ by
      more than the largest stride. */
  lemma Proportional(run: seq<State>, stride: map<nat, nat>, picks: seq<nat>, most: nat, x: nat, y: nat)
    requires Run(run, stride, picks) && Known(run[0].queue, run[0].pass, stride) && AtMost(run[0].queue, stride, most)
    requires forall u, v :: u in run[0].queue && v in run[0].queue ==> run[0].pass[u] == run[0].pass[v]
    requires x in run[0].queue && y in run[0].queue
    ensures stride[x] * Times(picks, x) <= stride[y] * Times(picks, y) + most
  {
    RunClose(run, stride, picks, most);
  }

  lemma {:induction false} Larger(s: nat, x: nat, y: nat)
    requires x <= y
    ensures s * x <= s * y
  {
    if x < y {
      Larger(s, x, y - 1);
      assert s * y == s * (y - 1) + s;
    }
  }

  lemma Ratio(s: nat, a: nat, b: nat)
    requires s > 0 && s * a <= s * b + s
    ensures a <= b + 1
  {
    Larger(s, b + 2, if a < b + 2 then b + 2 else a);
    assert s * (b + 2) == s * b + 2 * s;
  }

  /** With equal strides as well, no two tasks are ever more than one dispatch apart. */
  lemma RoundRobin(run: seq<State>, stride: map<nat, nat>, picks: seq<nat>, s: nat, x: nat, y: nat)
    requires Run(run, stride, picks) && Known(run[0].queue, run[0].pass, stride) && s > 0
    requires forall u, v :: u in run[0].queue && v in run[0].queue ==> run[0].pass[u] == run[0].pass[v]
    requires forall u :: u in run[0].queue ==> stride[u] == s
    requires x in run[0].queue && y in run[0].queue
    ensures Times(picks, x) <= Times(picks, y) + 1
  {
    Proportional(run, stride, picks, s, x, y);
    Ratio(s, Times(picks, x), Times(picks, y));
  }

  /** How far the pass of `x` is below that of `a`, plus one. */
  function Lead(pass: map<nat, nat>, a: nat, x: nat): nat
    requires a in pass && x in pass
  {
    if x == a || pass[x] > pass[a] then 0 else pass[a] + 1 - pass[x]
  }

  /** The turns that may pass before `a` has the least pass. */
  function Ahead(pass: map<nat, nat>, a: nat, ids: seq<nat>): nat
    requires a in pass && forall x :: x in ids ==> x in pass
  {
    if ids == [] then 0 else Ahead(pass, a, ids[1..]) + Lead(pass, a, ids[0])
  }

  lemma {:induction false} AheadShrinks(pass: map<nat, nat>, a: nat, ids: seq<nat>, m: nat, d: nat)
    requires a in pass && m in pass && (forall x :: x in ids ==> x in pass) && m != a && pass[m] <= pass[a] && d >= 1
    ensures Ahead(pass[m := pass[m] + d], a, ids) <= Ahead(pass, a, ids)
    ensures m in ids ==> Ahead(pass[m := pass[m] + d], a, ids) + 1 <= Ahead(pass, a, ids)
  {
    if ids != [] {
      AheadShrinks(pass, a, ids[1..], m, d);
      assert m in ids ==> ids[0] == m || m in ids[1..];
    }
  }

  /** As long as `a` is not dispatched, every turn uses up some of the others' lead. */
  lemma {:induction false} Waiting(run: seq<State>, stride: map<nat, nat>, picks: seq<nat>, a: nat, ids: seq<nat>)
    requires Run(run, stride, picks) && a in run[0].queue && Known(run[0].queue, run[0].pass, stride)
    requires SameTasks(ids, run[0].queue)
    requires (forall x :: x in run[0].queue ==> stride[x] >= 1) && a !in picks
    ensures var z := run[|picks|];
      && SameTasks(z.queue, run[0].queue) && Known(z.queue, z.pass, stride)
      && |picks| + Ahead(z.pass, a, ids) <= Ahead(run[0].pass, a, ids)
    decreases |picks|
  {
    hide Turn, Ahead, Room;
    if picks != [] {
      var n := |picks| - 1;
      var before := picks[..n];
      assert forall i :: 0 <= i < n ==> before[i] == picks[i];
      Waiting(run[..n + 1], stride, before, a, ids);
      var s, t := run[n], run[n + 1];
      var k := PickOf(s, t, stride, picks[n]);
      TurnFacts(s, t, stride, k);
      assert picks[n] in picks;
      AheadShrinks(s.pass, a, ids, picks[n], stride[picks[n]]);
    }
  }

  lemma {:induction false} AheadBound(s: State, a: nat, ids: seq<nat>, most: nat)
    requires Close(s, most) && a in s.queue && a in s.pass && (forall x :: x in ids ==> x in s.pass && x in s.queue)
    ensures Ahead(s.pass, a, ids) <= |ids| * (most + 1)
  {
    if ids != [] {
      AheadBound(s, a, ids[1..], most);
      assert Lead(s.pass, a, ids[0]) <= most + 1;
      assert |ids| * (most + 1) == |ids[1..]| * (most + 1) + (most + 1);
    }
  }

  /** No task waits for ever: with passes within `most`, each is dispatched in any run of more than
      `most + 1` turns per queued task. */
  lemma NoStarvation(run: seq<State>, stride: map<nat, nat>, picks: seq<nat>, a: nat, most: nat)
    requires Run(run, stride, picks) && a in run[0].queue && Known(run[0].queue, run[0].pass, stride)
    requires Close(run[0], most)
    requires (forall x :: x in run[0].queue ==> stride[x] >= 1) && |picks| > |run[0].queue| * (most + 1)
    ensures a in picks
  {
    if a !in picks {
      Waiting(run, stride, picks, a, run[0].queue);
      AheadBound(run[0], a, run[0].queue, most);
      assert false;
    }
  }
}
