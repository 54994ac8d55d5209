/** Memory areas of an address space, and sequences of them in address order. */
module Areas {
  import opened Basics

  /** Page table flag bits. */
  datatype Flag = PRESENT | WRITABLE | USER_ACCESSIBLE | WRITE_THROUGH | NO_CACHE
                | ACCESSED | DIRTY | HUGE_PAGE | GLOBAL | NO_EXECUTE

  type Flags = set<Flag>

  datatype Backing = Anonymous | File

  /** The half-open range [start, end) of 64-bit addresses. */
  datatype Area = Area(start: nat, end: nat, flags: Flags, backing: Backing)

  predicate Holds(a: Area, x: int) {
    a.start <= x < a.end
  }

  predicate Overlap(a: Area, b: Area) {
    a.start < b.end && b.start < a.end
  }

  ghost predicate Proper(s: seq<Area>) {
    forall i :: 0 <= i < |s| ==> s[i].start < s[i].end < WORD
  }

  /** In address order, without overlaps. */
  ghost predicate Ordered(s: seq<Area>) {
    forall i, j :: 0 <= i < j < |s| ==> s[i].end <= s[j].start
  }

  /** No two touching areas have equal flags. */
  ghost predicate Separated(s: seq<Area>) {
    forall i :: 0 < i < |s| && s[i - 1].end == s[i].start ==> s[i - 1].flags != s[i].flags
  }

  ghost predicate GoodAreas(s: seq<Area>) {
    Proper(s) && Ordered(s) && Separated(s)
  }

  /** Address `x` lies in an area with exactly these flags. */
  ghost predicate Maps(s: seq<Area>, x: int, flags: Flags) {
    exists i :: 0 <= i < |s| && Holds(s[i], x) && s[i].flags == flags
  }

  /** Address `x` lies in an area that carries all `required` flags. */
  ghost predicate Allows(s: seq<Area>, x: int, required: Flags) {
    exists i :: 0 <= i < |s| && Holds(s[i], x) && required <= s[i].flags
  }
}
