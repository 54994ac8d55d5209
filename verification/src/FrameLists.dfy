/** Frame metadata and the intrusive linked lists threaded through it. Lists are given by the
    sequence of frames they visit; pushing at the front and unlinking anywhere act on that sequence. */
module FrameLists {
  import opened Basics
  import opened Options

  datatype FrameState = Allocated | FreeGlobal | FreePerCpu

  datatype BuddyFrame = BuddyFrame(order: nat, state: FrameState, migratable: bool,
                                   next: Option<nat>, prev: Option<nat>)

  function At(xs: seq<nat>, i: int): Option<nat> {
    if 0 <= i < |xs| then Some(xs[i]) else None
  }

  ghost predicate Distinct(xs: seq<nat>) {
    forall i, j :: 0 <= i < j < |xs| ==> xs[i] != xs[j]
  }

  ghost predicate Node(frames: seq<BuddyFrame>, xs: seq<nat>, i: nat, doubly: bool)
    requires i < |xs|
  {
    && xs[i] < |frames|
    && frames[xs[i]].next == At(xs, i + 1)
    && frames[xs[i]].prev == if doubly then At(xs, i - 1) else None
  }

  /** The list that starts at `head` visits exactly `xs`; only doubly linked lists keep `prev`. */
  ghost predicate Linked(frames: seq<BuddyFrame>, head: Option<nat>, xs: seq<nat>, doubly: bool) {
    && head == At(xs, 0)
    && Distinct(xs)
    && forall i :: 0 <= i < |xs| ==> Node(frames, xs, i, doubly)
  }

  ghost predicate SameLinks(a: BuddyFrame, b: BuddyFrame) {
    a.next == b.next && a.prev == b.prev
  }

  lemma OtherList(f: seq<BuddyFrame>, g: seq<BuddyFrame>, head: Option<nat>, xs: seq<nat>, doubly: bool)
    requires Linked(f, head, xs, doubly) && |g| == |f|
    requires forall x :: x in xs && x < |f| ==> SameLinks(f[x], g[x])
    ensures Linked(g, head, xs, doubly)
  {
    forall i | 0 <= i < |xs| ensures Node(g, xs, i, doubly) {
      assert Node(f, xs, i, doubly);
    }
  }

  lemma PushList(f: seq<BuddyFrame>, g: seq<BuddyFrame>, head: Option<nat>, xs: seq<nat>, doubly: bool, p: nat)
    requires Linked(f, head, xs, doubly) && |g| == |f| && p < |f| && p !in xs
    requires g[p].next == head && g[p].prev == None
    requires forall x :: x in xs && x < |f| ==>
      g[x].next == f[x].next && g[x].prev == if doubly && head == Some(x) then Some(p) else f[x].prev
    ensures Linked(g, Some(p), [p] + xs, doubly)
  {
    var ys := [p] + xs;
    forall i | 0 <= i < |ys| ensures Node(g, ys, i, doubly) {
      if i > 0 { assert Node(f, xs, i - 1, doubly) && ys[i] == xs[i - 1]; }
    }
  }

  lemma UnlinkList(f: seq<BuddyFrame>, g: seq<BuddyFrame>, head: Option<nat>, xs: seq<nat>, doubly: bool, k: nat)
    requires Linked(f, head, xs, doubly) && |g| == |f| && k < |xs| && (doubly || k == 0)
    requires forall i :: 0 <= i < |xs| && i != k ==>
      && xs[i] < |f|
      && g[xs[i]].next == (if i == k - 1 then At(xs, k + 1) else f[xs[i]].next)
      && g[xs[i]].prev == (if doubly && i == k + 1 then At(xs, k - 1) else f[xs[i]].prev)
    ensures Linked(g, if k == 0 then At(xs, 1) else head, Without(xs, k), doubly)
  {
    var ys := Without(xs, k);
    forall i | 0 <= i < |ys| ensures Node(g, ys, i, doubly) {
      var j := if i < k then i else i + 1;
      assert ys[i] == xs[j] && Node(f, xs, j, doubly);
    }
  }
}
