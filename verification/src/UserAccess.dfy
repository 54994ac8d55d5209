/** Checking a user range against both the areas and the page tables. */
module UserAccess {
  import opened AddressTables
  import opened Areas
  import opened Basics
  import F = PageCopies
  import opened PageEntry
  import opened PageWalk
  import opened UserMemory
  import V = VmaTree

  /** Every address of the range lies in an area, and is mapped, with all required flags. */
  ghost predicate Accessible(mem: Mem, p4: nat, areas: seq<Area>, required: Flags, from: nat, to: nat) {
    forall x: nat :: from <= x < to ==> Allows(areas, x, required) && Permits(mem, p4, x, required)
  }

  lemma AllowedLow(areas: seq<Area>, x: nat, required: Flags)
    requires UserAreas(areas) && Allows(areas, x, required)
    ensures x < LOW_END
  {
  }

  /** A page stands for all its addresses. */
  lemma PagePermits(mem: Mem, p4: nat, page: nat, x: nat, required: Flags)
    requires page < LOW_END && x < LOW_END && x / PAGE_SIZE == page / PAGE_SIZE
    ensures Permits(mem, p4, x, required) <==> Permits(mem, p4, page, required)
  {
    hide Look, FlagsOf;
    F.PageAlike(mem, p4, page, x);
  }

  method CheckRangeMapped(tables: Mapper, vma: V.VmaTree, p4: nat, addr: nat, size: nat, required: Flags)
    returns (ok: bool)
    requires tables.Valid() && Root(tables.spot, p4) && vma.Valid() && UserAreas(vma.Contents()) && addr < WORD
    requires size < WORD
    ensures ok <==> Accessible(tables.mem, p4, vma.Contents(), required, addr, addr + size)
  {
    hide Look, FlagsOf, Allows, UserAreas, Permits;
    ok := vma.CheckRange(addr, size, required);
    if !ok || size == 0 { return; }
    var end := addr + size;
    AllowedLow(vma.Contents(), end - 1, required);
    var page := addr / PAGE_SIZE * PAGE_SIZE;
    var last := (end - 1) / PAGE_SIZE * PAGE_SIZE;
    while true
      invariant page % PAGE_SIZE == 0 && addr / PAGE_SIZE <= page / PAGE_SIZE <= last / PAGE_SIZE && page <= last
      invariant forall x: nat :: addr <= x < page ==> Permits(tables.mem, p4, x, required)
      decreases last - page
    {
      var inside := if page < addr then addr else page;
      PagePermits(tables.mem, p4, page, inside, required);
      ok := tables.PageAccessOk(p4, page, required);
      if !ok { return; }
      forall x: nat | page <= x < page + PAGE_SIZE && x < end ensures Permits(tables.mem, p4, x, required) {
        PagePermits(tables.mem, p4, page, x, required);
      }
      if page == last { return; }
      page := page + PAGE_SIZE;
    }
  }
}
