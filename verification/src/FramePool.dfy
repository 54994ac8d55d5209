/** Frame metadata, list heads and the abstract space together, and the invariant that ties them:
    every block that is not held sits on exactly the list its place, order and shard name. */
module FramePool {
  import opened Basics
  import opened Bits
  import opened BuddySpace
  import opened FrameLists
  import opened Options

  const SHARD_COUNT: nat := 8
  const MAX_CPUS: nat := 64

  datatype ListId = GlobalList(order: nat, shard: nat) | CacheList(cpu: nat, order: nat) | ReserveList

  predicate LegalList(id: ListId) {
    match id
    case GlobalList(order, shard) => order < MAX_ORDER && shard < SHARD_COUNT
    case CacheList(cpu, order) => cpu < MAX_CPUS && order < MAX_ORDER
    case ReserveList => true
  }

  function AllLists(): (r: set<ListId>)
    ensures forall id :: id in r <==> LegalList(id)
  {
    (set o, s | 0 <= o < MAX_ORDER && 0 <= s < SHARD_COUNT :: GlobalList(o, s)) +
    (set c, o | 0 <= c < MAX_CPUS && 0 <= o < MAX_ORDER :: CacheList(c, o)) + {ReserveList}
  }

  /** The list a block is kept on. */
  function Home(p: nat, b: Block): Option<ListId> {
    match b.place
    case Held => None
    case Reserve => Some(ReserveList)
    case PerCpu(cpu) => Some(CacheList(cpu, b.order))
    case Global => Some(GlobalList(b.order, p % SHARD_COUNT))
  }

  function StateOf(place: Place): FrameState {
    match place
    case Held => Allocated
    case Reserve => Allocated
    case PerCpu(_) => FreePerCpu
    case Global => FreeGlobal
  }

  datatype Pool = Pool(frames: seq<BuddyFrame>, heads: map<ListId, Option<nat>>,
                       lists: map<ListId, seq<nat>>, space: Space)

  ghost predicate GoodList(P: Pool, id: ListId)
    requires id in P.lists
  {
    && id in P.heads
    && Linked(P.frames, P.heads[id], P.lists[id], id.GlobalList?)
    && forall x :: x in P.lists[id] ==> x in P.space.blocks && Home(x, P.space.blocks[x]) == Some(id)
  }

  /** Metadata of the frame a block starts at. The order of a held block may be stale. */
  ghost predicate GoodMeta(P: Pool, p: nat)
    requires p in P.space.blocks
  {
    var b := P.space.blocks[p];
    && p < |P.frames|
    && P.frames[p].state == StateOf(b.place)
    && (!b.place.Held? ==>
          && P.frames[p].order == b.order
          && Home(p, b).value in P.lists
          && p in P.lists[Home(p, b).value])
  }

  ghost predicate ListsInv(P: Pool) {
    && P.heads.Keys == P.lists.Keys
    && (forall id :: id in P.lists <==> LegalList(id))
    && (forall id :: id in P.lists ==> GoodList(P, id))
  }

  ghost predicate MetaInv(P: Pool) {
    && |P.frames| == |P.space.own|
    && (forall p :: p in P.space.blocks ==> GoodMeta(P, p))
    && (forall p :: 0 <= p < |P.frames| && p !in P.space.blocks ==> P.frames[p].state == Allocated)
  }

  ghost predicate Inv(P: Pool) {
    |P.frames| == |P.space.own| && WellFormed(P.space) && Coalesced(P.space) && ListsInv(P) && MetaInv(P)
  }

  /** The metadata order of every held block outside `stale` is its order. */
  ghost predicate HeldOrders(P: Pool, stale: set<nat>) {
    forall p :: p in P.space.blocks && P.space.blocks[p].place.Held? && p !in stale ==>
      p < |P.frames| && P.frames[p].order == P.space.blocks[p].order
  }

  /** `P` with the held block `p` at the front of the list of `place`. */
  ghost predicate Pushed(P: Pool, p: nat, place: Place, Q: Pool) {
    && p in P.space.blocks && P.space.blocks[p].place.Held? && !place.Held?
    && Q.space == Move(P.space, p, place)
    && var id := Home(p, Q.space.blocks[p]).value;
    && id in P.lists && id in P.heads && |Q.frames| == |P.frames| && p < |P.frames|
    && Q.heads == P.heads[id := Some(p)] && Q.lists == P.lists[id := [p] + P.lists[id]]
    && Q.frames[p] == BuddyFrame(P.space.blocks[p].order, StateOf(place), true, P.heads[id], None)
    && forall x :: 0 <= x < |P.frames| && x != p ==>
      Q.frames[x] == if place.Global? && P.heads[id] == Some(x) then P.frames[x].(prev := Some(p)) else P.frames[x]
  }

  lemma PushedLists(P: Pool, p: nat, place: Place, Q: Pool)
    requires ListsInv(P) && Pushed(P, p, place, Q)
    ensures ListsInv(Q)
  {
    var id := Home(p, Q.space.blocks[p]).value;
    assert GoodList(P, id);
    PushList(P.frames, Q.frames, P.heads[id], P.lists[id], id.GlobalList?, p);
    forall l | l in Q.lists ensures GoodList(Q, l) {
      assert GoodList(P, l);
      if l != id { OtherList(P.frames, Q.frames, P.heads[l], P.lists[l], l.GlobalList?); }
    }
  }

  lemma PushedMeta(P: Pool, p: nat, place: Place, Q: Pool)
    requires MetaInv(P) && Pushed(P, p, place, Q)
    ensures MetaInv(Q)
  {
    forall b | b in Q.space.blocks ensures GoodMeta(Q, b) { assert GoodMeta(P, b); }
  }

  lemma PushKeeps(P: Pool, p: nat, place: Place, Q: Pool)
    requires Inv(P) && Pushed(P, p, place, Q) && (place.Reserve? ==> P.space.blocks[p].order == 0)
    requires place.Global? && P.space.blocks[p].order < MAX_ORDER - 1 ==>
      !HasGlobal(P.space, BuddyOf(p, P.space.blocks[p].order), P.space.blocks[p].order)
    ensures Inv(Q)
  {
    MoveKeeps(P.space, p, place);
    if place.Global? { MoveToGlobal(P.space, p); } else { MoveOffGlobal(P.space, p, place); }
    PushedLists(P, p, place, Q);
    PushedMeta(P, p, place, Q);
  }

  /** `P` with entry `k` of list `id` unlinked and held. */
  ghost predicate Taken(P: Pool, id: ListId, k: nat, Q: Pool) {
    && id in P.lists && id in P.heads && k < |P.lists[id]| && (id.GlobalList? || k == 0)
    && var p := P.lists[id][k];
    && p in P.space.blocks && p < |P.frames| && |Q.frames| == |P.frames|
    && var b := P.frames[p];
    && Q.space == Move(P.space, p, Held)
    && Q.lists == P.lists[id := Without(P.lists[id], k)]
    && Q.heads == P.heads[id := if k == 0 then b.next else P.heads[id]]
    && Q.frames[p] == BuddyFrame(b.order, Allocated, true, None, None)
    && forall x :: 0 <= x < |P.frames| && x != p ==> Q.frames[x] == Relinked(P.frames[x], x, b, id.GlobalList?)
  }

  /** Frame `x` after the removal of a list neighbour `b`. */
  function Relinked(f: BuddyFrame, x: nat, b: BuddyFrame, doubly: bool): BuddyFrame {
    var f := if b.prev == Some(x) then f.(next := b.next) else f;
    if doubly && b.next == Some(x) then f.(prev := b.prev) else f
  }

  lemma TakenLinks(P: Pool, id: ListId, k: nat, Q: Pool)
    requires ListsInv(P) && Taken(P, id, k, Q)
    ensures Linked(Q.frames, Q.heads[id], Q.lists[id], id.GlobalList?)
  {
    var xs := P.lists[id];
    assert GoodList(P, id);
    assert Node(P.frames, xs, k, id.GlobalList?);
    forall i | 0 <= i < |xs| && i != k
      ensures xs[i] < |P.frames|
      ensures Q.frames[xs[i]].next == if i == k - 1 then At(xs, k + 1) else P.frames[xs[i]].next
      ensures Q.frames[xs[i]].prev == if id.GlobalList? && i == k + 1 then At(xs, k - 1) else P.frames[xs[i]].prev
    {
      assert Node(P.frames, xs, i, id.GlobalList?);
    }
    UnlinkList(P.frames, Q.frames, P.heads[id], xs, id.GlobalList?, k);
  }

  lemma TakenOther(P: Pool, id: ListId, k: nat, Q: Pool, l: ListId)
    requires ListsInv(P) && Taken(P, id, k, Q) && l in P.lists && l != id
    ensures Linked(Q.frames, P.heads[l], P.lists[l], l.GlobalList?)
  {
    var xs := P.lists[id];
    assert GoodList(P, id) && GoodList(P, l);
    assert Node(P.frames, xs, k, id.GlobalList?);
    var b := P.frames[xs[k]];
    assert b.next.Some? ==> b.next.value in xs;
    assert b.prev.Some? ==> b.prev.value in xs;
    OtherList(P.frames, Q.frames, P.heads[l], P.lists[l], l.GlobalList?);
  }

  lemma TakenLists(P: Pool, id: ListId, k: nat, Q: Pool)
    requires ListsInv(P) && Taken(P, id, k, Q)
    ensures ListsInv(Q)
  {
    hide Linked;
    TakenLinks(P, id, k, Q);
    forall l | l in Q.lists ensures GoodList(Q, l) {
      assert GoodList(P, l);
      if l != id { TakenOther(P, id, k, Q, l); } else { assert GoodList(P, id); TakenDistinct(P, id, k); }
    }
  }

  lemma TakenDistinct(P: Pool, id: ListId, k: nat)
    requires id in P.lists && GoodList(P, id) && k < |P.lists[id]|
    ensures P.lists[id][k] !in Without(P.lists[id], k)
  {
  }

  lemma TakenMeta(P: Pool, id: ListId, k: nat, Q: Pool)
    requires MetaInv(P) && Taken(P, id, k, Q)
    requires forall x :: x in P.lists[id] ==> x in P.space.blocks && Home(x, P.space.blocks[x]) == Some(id)
    ensures MetaInv(Q)
  {
    forall b | b in Q.space.blocks ensures GoodMeta(Q, b) {
      assert GoodMeta(P, b);
      if b in P.lists[id] && b != P.lists[id][k] { WithoutKeeps(P.lists[id], k, b); }
    }
  }

  lemma WithoutKeeps(xs: seq<nat>, k: nat, x: nat)
    requires k < |xs| && x in xs && x != xs[k]
    ensures x in Without(xs, k)
  {
    var i :| 0 <= i < |xs| && xs[i] == x;
    assert Without(xs, k)[if i < k then i else i - 1] == x;
  }

  lemma TakeKeeps(P: Pool, id: ListId, k: nat, Q: Pool)
    requires Inv(P) && Taken(P, id, k, Q)
    ensures Inv(Q)
  {
    assert GoodList(P, id);
    MoveKeeps(P.space, P.lists[id][k], Held);
    MoveOffGlobal(P.space, P.lists[id][k], Held);
    TakenLists(P, id, k, Q);
    TakenMeta(P, id, k, Q);
  }

  predicate IsFree(s: Space, p: nat) {
    p in s.blocks && !s.blocks[p].place.Held?
  }

  /** Only held blocks, uninitialised frames and metadata that no list uses differ. */
  ghost predicate HeldPartOnly(P: Pool, Q: Pool) {
    && Q.heads == P.heads && Q.lists == P.lists && |Q.frames| == |P.frames| == |Q.space.own|
    && (forall p :: p in Q.space.blocks ==> p < |Q.frames|)
    && (forall p :: IsFree(P.space, p) <==> IsFree(Q.space, p))
    && (forall p :: IsFree(P.space, p) ==> Q.space.blocks[p] == P.space.blocks[p])
    && (forall x :: 0 <= x < |P.frames| ==>
          if IsFree(P.space, x) then Q.frames[x] == P.frames[x] else Q.frames[x].state == Allocated)
  }

  lemma HeldPartKeeps(P: Pool, Q: Pool)
    requires Inv(P) && HeldPartOnly(P, Q) && WellFormed(Q.space) && Coalesced(Q.space)
    ensures Inv(Q)
  {
    forall l | l in Q.lists ensures GoodList(Q, l) {
      assert GoodList(P, l);
      forall x | x in P.lists[l] ensures IsFree(P.space, x) { assert Home(x, P.space.blocks[x]).Some?; }
      OtherList(P.frames, Q.frames, P.heads[l], P.lists[l], l.GlobalList?);
    }
    forall b | b in Q.space.blocks ensures GoodMeta(Q, b) {
      if IsFree(P.space, b) { assert GoodMeta(P, b); }
    }
    forall x | 0 <= x < |Q.frames| && x !in Q.space.blocks ensures Q.frames[x].state == Allocated {
      assert !IsFree(Q.space, x);
    }
  }

  /** The space may be regrouped where no list looks. */
  lemma SpaceKeeps(P: Pool, t: Space)
    requires Inv(P) && WellFormed(t) && Coalesced(t) && |t.own| == |P.space.own|
    requires forall p :: IsFree(P.space, p) <==> IsFree(t, p)
    requires forall p :: IsFree(P.space, p) ==> p in t.blocks && t.blocks[p] == P.space.blocks[p]
    ensures Inv(P.(space := t))
  {
    forall x | 0 <= x < |P.frames| && !IsFree(P.space, x) ensures P.frames[x].state == Allocated {
      if x in P.space.blocks { assert GoodMeta(P, x); }
    }
    forall x | x in t.blocks ensures x < |P.frames| { HeadOwnsItself(t, x); }
    HeldPartKeeps(P, P.(space := t));
  }

  /** Metadata of a frame on no list may be overwritten while it stays `Allocated`. */
  lemma WriteKeeps(P: Pool, x: nat, m: BuddyFrame)
    requires Inv(P) && x < |P.frames| && !IsFree(P.space, x) && m.state.Allocated?
    ensures Inv(P.(frames := P.frames[x := m]))
  {
    var Q := P.(frames := P.frames[x := m]);
    forall y | 0 <= y < |P.frames| && !IsFree(P.space, y) ensures Q.frames[y].state == Allocated {
      if y in P.space.blocks { assert GoodMeta(P, y); }
    }
    forall y | y in P.space.blocks ensures y < |P.frames| { assert GoodMeta(P, y); }
    HeldPartKeeps(P, Q);
  }

  lemma WriteOrders(P: Pool, x: nat, m: BuddyFrame, stale: set<nat>)
    requires MetaInv(P) && HeldOrders(P, stale + {x}) && x < |P.frames|
    ensures var Q := P.(frames := P.frames[x := m]);
      && HeldOrders(Q, stale + {x})
      && (x in P.space.blocks && m.order == P.space.blocks[x].order ==> HeldOrders(Q, stale))
  {
  }

  lemma SplitPool(P: Pool, p: nat, k: nat, stale: set<nat>)
    requires Inv(P) && p in P.space.blocks && P.space.blocks[p] == Block(k + 1, Held)
    requires HeldOrders(P, stale + {p})
    ensures var q := p + Pow2(k); var Q := P.(space := Split(P.space, p));
      q < |P.frames| && q !in P.space.blocks && Inv(Q) && HeldOrders(Q, stale + {p} + {q})
  {
    hide WellFormed, Coalesced, ListsInv, MetaInv, Aligned, Paint;
    SplitKeeps(P.space, p, k);
    SplitCoalesced(P.space, p);
    SpaceKeeps(P, Split(P.space, p));
  }

  lemma ClaimPool(P: Pool, p: nat, k: nat, stale: set<nat>)
    requires Inv(P) && HeldOrders(P, stale)
    requires k < MAX_ORDER && Aligned(p, k) && AllUninit(P.space, p, p + Pow2(k))
    ensures var Q := P.(space := Claim(P.space, p, k));
      p < |P.frames| && p !in P.space.blocks && Inv(Q) && HeldOrders(Q, stale + {p})
  {
    hide WellFormed, Coalesced, ListsInv, MetaInv, Aligned, Paint;
    ClaimKeeps(P.space, p, k);
    SpaceKeeps(P, Claim(P.space, p, k));
  }

  /** A block that is not held is on one list, at one position; a held block is on none. */
  lemma OneList(P: Pool, p: nat, id: ListId)
    requires Inv(P) && p in P.space.blocks && id in P.lists
    ensures p in P.lists[id] <==> Home(p, P.space.blocks[p]) == Some(id)
    ensures forall i, j :: 0 <= i < j < |P.lists[id]| ==> P.lists[id][i] != P.lists[id][j]
  {
    assert GoodList(P, id) && GoodMeta(P, p);
  }
}
