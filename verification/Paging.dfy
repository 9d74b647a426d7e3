/** Four-level page tables, and the user bits that the kernel changes when another process becomes current. */
module Paging {
  import opened Words

  const PAGE := 4096
  const NO_EXECUTE := 0x8000_0000_0000_0000

  /** The user bit (bit 2) of an entry. */
  predicate User(e: u64) { e / 4 % 2 == 1 }

  /** The physical address in an entry: bits 12 to 51. */
  function Frame(e: u64): u64 { e / 4096 % 0x100_0000_0000 * 4096 }

  /** The entry with its user bit set or cleared, and its no-execute bit (bit 63) cleared. */
  function WithUser(e: u64, enabled: bool): u64 {
    var f := if enabled == User(e) then e else if enabled then e + 4 else e - 4;
    f % NO_EXECUTE
  }

  lemma WithUserFacts(e: u64, enabled: bool)
    ensures User(WithUser(e, enabled)) == enabled && Frame(WithUser(e, enabled)) == Frame(e)
  {
    var f := if enabled == User(e) then e else if enabled then e + 4 else e - 4;
    UserBit(e);
    assert f / 8 == e / 8;
    HighBit(f);
    Frames(f, e);
  }

  /** Bit 2 changes without carry. */
  lemma UserBit(e: u64)
    ensures !User(e) ==> User(e + 4) && (e + 4) / 8 == e / 8 && e + 4 < TWO64
    ensures User(e) ==> e >= 4 && !User(e - 4) && (e - 4) / 8 == e / 8
  {
    var q, r := e / 8, e % 8;
    assert e / 4 == 2 * q + r / 4;
  }

  lemma HighBit(f: u64)
    ensures User(f % NO_EXECUTE) == User(f) && Frame(f % NO_EXECUTE) == Frame(f)
  {
    hide User, Frame;
    if f >= NO_EXECUTE {
      var g := f - NO_EXECUTE;
      WithoutHigh(f, g);
      HighUser(g);
      HighFrame(g);
    } else {
      Small(f);
    }
  }

  lemma Small(f: u64)
    requires f < NO_EXECUTE
    ensures f % NO_EXECUTE == f
  {
  }

  lemma WithoutHigh(f: u64, g: int)
    requires f >= NO_EXECUTE && g == f - NO_EXECUTE
    ensures f % NO_EXECUTE == g && 0 <= g < NO_EXECUTE
  {
  }

  lemma HighUser(g: u64)
    requires g + NO_EXECUTE < TWO64
    ensures User(g + NO_EXECUTE) == User(g)
  {
    assert (g + NO_EXECUTE) / 4 == g / 4 + 0x2000_0000_0000_0000;
  }

  lemma HighFrame(g: u64)
    requires g + NO_EXECUTE < TWO64
    ensures Frame(g + NO_EXECUTE) == Frame(g)
  {
    assert (g + NO_EXECUTE) / 4096 == g / 4096 + 0x800 * 0x100_0000_0000;
    ModShift(g / 4096, 0x800);
  }

  lemma ModShift(x: nat, k: nat)
    ensures (x + k * 0x100_0000_0000) % 0x100_0000_0000 == x % 0x100_0000_0000
  {
    if k > 0 {
      ModShift(x, k - 1);
      assert x + k * 0x100_0000_0000 == (x + (k - 1) * 0x100_0000_0000) + 0x100_0000_0000;
    }
  }

  lemma Frames(f: u64, e: u64)
    requires f / 8 == e / 8
    ensures Frame(f) == Frame(e)
  {
    assert f / 4096 == f / 8 / 512 && e / 4096 == e / 8 / 512;
  }

  // ----- walking the tables -----

  type Memory = map<nat, u64>

  function Get(m: Memory, x: nat): u64 { if x in m then m[x] else 0 }

  /** The address of the entry of level 4 (the top) to 1 (the page) on the walk of an address. */
  function Entry(m: Memory, top: nat, level: nat, a: nat): nat
    requires 1 <= level <= 4
    decreases 4 - level
  {
    if level == 4 then top + 8 * (a / 0x80_0000_0000 % 512)
    else
      var table := Frame(Get(m, Entry(m, top, level + 1, a)));
      table + 8 * (a / (if level == 3 then 0x4000_0000 else if level == 2 then 0x20_0000 else PAGE) % 512)
  }

  /** A user program can access the page of an address exactly if the user bit is set at all four levels. */
  predicate Accessible(m: Memory, top: nat, a: nat) {
    forall level :: 1 <= level <= 4 ==> User(Get(m, Entry(m, top, level, a)))
  }

  /** The entries that the walks of the pages below `limit` go through are all there; an entry serves one level only,
      and an entry of level 1 one page only. */
  ghost predicate Separate(m: Memory, top: nat, limit: nat) {
    && (forall a, level :: 0 <= a < limit && 1 <= level <= 4 ==> Entry(m, top, level, a) in m)
    && (forall a, b, i, j ::
      0 <= a < limit && 0 <= b < limit && 1 <= i <= 4 && 1 <= j <= 4 && Entry(m, top, i, a) == Entry(m, top, j, b) ==>
      i == j)
    && (forall a, b ::
      0 <= a < limit && 0 <= b < limit && Entry(m, top, 1, a) == Entry(m, top, 1, b) ==> a / PAGE == b / PAGE)
  }

  /** The same entries, but perhaps for their flags. */
  ghost predicate SameFrames(m: Memory, m1: Memory) {
    m1.Keys == m.Keys && forall x :: x in m ==> Frame(m1[x]) == Frame(m[x])
  }

  lemma {:induction false} SameWalk(m: Memory, m1: Memory, top: nat, level: nat, a: nat)
    requires SameFrames(m, m1) && 1 <= level <= 4
    ensures Entry(m1, top, level, a) == Entry(m, top, level, a)
    decreases 4 - level
  {
    hide Frame;
    if level < 4 {
      SameWalk(m, m1, top, level + 1, a);
      var x := Entry(m, top, level + 1, a);
      assert Frame(Get(m1, x)) == Frame(Get(m, x)) by { if x in m { assert x in m1; } else { assert x !in m1; } }
    }
  }

  /** The pages of the same number have the same walk. */
  lemma {:induction false} SamePage(m: Memory, top: nat, level: nat, a: nat)
    requires 1 <= level <= 4
    ensures Entry(m, top, level, a) == Entry(m, top, level, a / PAGE * PAGE)
    decreases 4 - level
  {
    hide Frame;
    PageParts(a);
    if level < 4 { SamePage(m, top, level + 1, a); }
  }

  lemma PageParts(a: nat)
    ensures var b := a / PAGE * PAGE;
      b / PAGE == a / PAGE && b / 0x20_0000 == a / 0x20_0000 && b / 0x4000_0000 == a / 0x4000_0000
      && b / 0x80_0000_0000 == a / 0x80_0000_0000
  {
    var b, q := a / PAGE * PAGE, a / PAGE;
    assert b / PAGE == q;
    assert b / 0x20_0000 == q / 512 && a / 0x20_0000 == q / 512;
    assert b / 0x4000_0000 == q / 0x4_0000 && a / 0x4000_0000 == q / 0x4_0000;
    assert b / 0x80_0000_0000 == q / 0x800_0000 && a / 0x80_0000_0000 == q / 0x800_0000;
  }

  lemma SeparateSame(m: Memory, m1: Memory, top: nat, limit: nat)
    requires Separate(m, top, limit) && SameFrames(m, m1)
    ensures Separate(m1, top, limit)
  {
    hide Entry, Frame;
    forall a, level | 0 <= a < limit && 1 <= level <= 4
      ensures Entry(m1, top, level, a) == Entry(m, top, level, a) && Entry(m1, top, level, a) in m1
    {
      SameWalk(m, m1, top, level, a);
    }
  }

  // ----- what setting a page does -----

  /** The user bits of m1 are those of m, but on the walk of a, where they are `enabled`. */
  ghost predicate PageSet(m: Memory, m1: Memory, top: nat, a: nat, enabled: bool) {
    && SameFrames(m, m1)
    && (forall level ::
      1 <= level <= 4 && Entry(m, top, level, a) in m ==> User(m1[Entry(m, top, level, a)]) == enabled)
    && (forall x :: x in m && (forall level :: 1 <= level <= 4 ==> x != Entry(m, top, level, a)) ==> m1[x] == m[x])
  }

  class PageTables {
    var memory: Memory
    const top: nat

    constructor (m: Memory, t: nat)
      ensures memory == m && top == t
    {
      memory, top := m, t;
    }

    /** set_page_entry_user_mode. */
    method SetEntry(entry: nat, enabled: bool) returns (table: u64)
      requires entry in memory
      modifies this
      ensures memory == old(memory)[entry := WithUser(old(memory)[entry], enabled)]
      ensures table == Frame(old(memory)[entry])
    {
      WithUserFacts(memory[entry], enabled);
      memory := memory[entry := WithUser(memory[entry], enabled)];
      table := Frame(memory[entry]);
    }

    /** set_page_user_mode. */
    method SetPage(address: nat, enabled: bool)
      requires forall level :: 1 <= level <= 4 ==> Entry(memory, top, level, address) in memory
      requires forall i, j :: 1 <= i < j <= 4 ==> Entry(memory, top, i, address) != Entry(memory, top, j, address)
      modifies this
      ensures PageSet(old(memory), memory, top, address, enabled)
    {
      hide WithUser, Frame, User;
      ghost var m0 := memory;
      WalkUnfold(m0, top, address);
      var e4 := top + 8 * (address / 0x80_0000_0000 % 512);
      var table3 := SetEntry(e4, enabled);
      var e3 := table3 + 8 * (address / 0x4000_0000 % 512);
      var table2 := SetEntry(e3, enabled);
      var e2 := table2 + 8 * (address / 0x20_0000 % 512);
      var table1 := SetEntry(e2, enabled);
      var e1 := table1 + 8 * (address / PAGE % 512);
      var page := SetEntry(e1, enabled);
      FourSet(m0, memory, top, address, enabled, e1, e2, e3, e4);
    }

    /** set_pages_user_mode. */
    method SetPages(begin: nat, end: nat, enabled: bool, ghost limit: nat)
      requires Separate(memory, top, limit) && end <= limit && begin % PAGE == 0
      modifies this
      ensures PagesSet(old(memory), memory, top, begin, end, limit, enabled) && Separate(memory, top, limit)
    {
      hide Separate, PageSet, SameFrames, User, Entry;
      ghost var m0 := memory;
      NoPagesSet(m0, top, begin, limit, enabled);
      var page := begin;
      while page < end
        invariant page % PAGE == 0 && begin <= page && PagesSet(m0, memory, top, begin, page, limit, enabled)
        invariant Separate(memory, top, limit) && (page > begin ==> page - PAGE < end)
      {
        ghost var m := memory;
        WalkIn(m, top, limit, page);
        SetPage(page, enabled);
        SeparatePage(m, memory, top, page, limit, enabled);
        MorePages(m0, m, memory, top, begin, page, limit, enabled);
        page := page + PAGE;
      }
      LastPage(m0, memory, top, begin, end, page, limit, enabled);
    }
  }

  lemma WalkUnfold(m: Memory, top: nat, a: nat)
    requires forall level :: 1 <= level <= 4 ==> Entry(m, top, level, a) in m
    ensures Entry(m, top, 4, a) == top + 8 * (a / 0x80_0000_0000 % 512)
    ensures Entry(m, top, 3, a) == Frame(m[Entry(m, top, 4, a)]) + 8 * (a / 0x4000_0000 % 512)
    ensures Entry(m, top, 2, a) == Frame(m[Entry(m, top, 3, a)]) + 8 * (a / 0x20_0000 % 512)
    ensures Entry(m, top, 1, a) == Frame(m[Entry(m, top, 2, a)]) + 8 * (a / PAGE % 512)
  {
    hide Frame;
    assert Entry(m, top, 4, a) in m && Entry(m, top, 3, a) in m && Entry(m, top, 2, a) in m && Entry(m, top, 1, a) in m;
  }

  lemma FourSet(m: Memory, m1: Memory, top: nat, a: nat, enabled: bool, e1: nat, e2: nat, e3: nat, e4: nat)
    requires e1 == Entry(m, top, 1, a) && e2 == Entry(m, top, 2, a) && e3 == Entry(m, top, 3, a)
      && e4 == Entry(m, top, 4, a)
    requires e1 in m && e2 in m && e3 in m && e4 in m && e1 != e2 && e1 != e3 && e1 != e4 && e2 != e3 && e2 != e4
      && e3 != e4
    requires m1 == m[e4 := WithUser(m[e4], enabled)][e3 := WithUser(m[e3], enabled)][e2 := WithUser(m[e2],
      enabled)][e1 := WithUser(m[e1], enabled)]
    ensures PageSet(m, m1, top, a, enabled)
  {
    hide WithUser, Frame, User, Entry;
    WithUserFacts(m[e1], enabled);
    WithUserFacts(m[e2], enabled);
    WithUserFacts(m[e3], enabled);
    WithUserFacts(m[e4], enabled);
    forall level | 1 <= level <= 4 && Entry(m, top, level, a) in m ensures User(m1[Entry(m, top, level, a)])
      == enabled {
      assert level == 1 || level == 2 || level == 3 || level == 4;
    }
  }

  lemma WalkIn(m: Memory, top: nat, limit: nat, a: nat)
    requires Separate(m, top, limit) && a < limit
    ensures forall level :: 1 <= level <= 4 ==> Entry(m, top, level, a) in m
    ensures forall i, j :: 1 <= i < j <= 4 ==> Entry(m, top, i, a) != Entry(m, top, j, a)
  {
    hide Entry;
  }

  lemma SeparatePage(m: Memory, m1: Memory, top: nat, a: nat, limit: nat, enabled: bool)
    requires Separate(m, top, limit) && PageSet(m, m1, top, a, enabled)
    ensures Separate(m1, top, limit)
  {
    hide Entry, Separate, Frame, User;
    SeparateSame(m, m1, top, limit);
  }

  // ----- ranges of pages -----

  predicate InRange(a: nat, begin: nat, end: nat) { begin <= a < end }

  /** The page of an address is one of those that start in the range. */
  predicate PageIn(a: nat, begin: nat, end: nat) { InRange(a / PAGE * PAGE, begin, end) }

  /** For a range of whole pages, those are the addresses in it. */
  lemma PageOfRange(a: nat, begin: nat, end: nat)
    requires begin % PAGE == 0 && end % PAGE == 0
    ensures PageIn(a, begin, end) <==> begin <= a < end
  {
    var q, b, e := a / PAGE, begin / PAGE, end / PAGE;
    assert q * PAGE <= a < (q + 1) * PAGE && begin == b * PAGE && end == e * PAGE;
    if q < b { assert (q + 1) * PAGE <= b * PAGE; }
    if q < e { assert (q + 1) * PAGE <= e * PAGE; }
  }

  /** The bit of a page: that of its own entry. */
  predicate Leaf(m: Memory, top: nat, a: nat) { User(Get(m, Entry(m, top, 1, a))) }

  /** After the pages that start in the range are set: their own bits are `enabled`, and if so the bits above them
      too; the own bits of other pages are as they were. */
  ghost predicate PagesSet(m: Memory, m1: Memory, top: nat, begin: nat, end: nat, limit: nat, enabled: bool) {
    && SameFrames(m, m1)
    && (forall a :: 0 <= a < limit && PageIn(a, begin, end) ==>
      Leaf(m1, top, a) == enabled && (enabled ==> Accessible(m1, top, a)))
    && (forall a :: 0 <= a < limit && !PageIn(a, begin, end) ==> Leaf(m1, top, a) == Leaf(m, top, a))
  }

  lemma NoPagesSet(m: Memory, top: nat, begin: nat, limit: nat, enabled: bool)
    ensures PagesSet(m, m, top, begin, begin, limit, enabled)
  {
    hide Leaf, Accessible;
  }

  /** Setting one more page. */
  lemma MorePages(m0: Memory, m: Memory, m1: Memory, top: nat, begin: nat, page: nat, limit: nat, enabled: bool)
    requires PagesSet(m0, m, top, begin, page, limit, enabled) && Separate(m, top, limit) && page % PAGE == 0
      && begin <= page < limit
    requires begin % PAGE == 0 && PageSet(m, m1, top, page, enabled)
    ensures PagesSet(m0, m1, top, begin, page + PAGE, limit, enabled)
  {
    hide Entry, Separate, Leaf, Accessible, PageSet, Frame, User;
    SetSame(m, m1, top, page, enabled);
    SameFramesTrans(m0, m, m1);
    forall a | 0 <= a < limit
      ensures PageIn(a, begin, page + PAGE) ==> Leaf(m1, top, a) == enabled && (enabled ==> Accessible(m1, top, a))
      ensures !PageIn(a, begin, page + PAGE) ==> Leaf(m1, top, a) == Leaf(m0, top, a)
    {
      if a / PAGE * PAGE == page {
        ThisPage(m, m1, top, a, page, limit, enabled);
      } else {
        OtherPage(m, m1, top, a, page, limit, enabled);
        NotBetween(a, page);
      }
    }
  }

  lemma NotBetween(a: nat, page: nat)
    requires page % PAGE == 0 && a / PAGE * PAGE != page
    ensures !(page <= a / PAGE * PAGE < page + PAGE)
  {
    var q, p := a / PAGE, page / PAGE;
    assert page == p * PAGE;
    if q < p { assert (q + 1) * PAGE <= p * PAGE; } else { assert q > p && q * PAGE >= (p + 1) * PAGE; }
  }

  lemma SetSame(m: Memory, m1: Memory, top: nat, a: nat, enabled: bool)
    requires PageSet(m, m1, top, a, enabled)
    ensures SameFrames(m, m1)
  {
  }

  lemma SameFramesTrans(m0: Memory, m: Memory, m1: Memory)
    requires SameFrames(m0, m) && SameFrames(m, m1)
    ensures SameFrames(m0, m1)
  {
  }

  lemma ThisPage(m: Memory, m1: Memory, top: nat, a: nat, page: nat, limit: nat, enabled: bool)
    requires Separate(m, top, limit) && a < limit && page < limit && a / PAGE * PAGE == page
      && PageSet(m, m1, top, page, enabled)
    ensures Leaf(m1, top, a) == enabled && (enabled ==> Accessible(m1, top, a))
  {
    hide Entry, Frame, User;
    forall level | 1 <= level <= 4 ensures User(Get(m1, Entry(m1, top, level, a))) == enabled {
      SamePage(m1, top, level, a);
      SameWalk(m, m1, top, level, page);
      assert Entry(m, top, level, page) in m;
    }
  }

  lemma OtherPage(m: Memory, m1: Memory, top: nat, a: nat, page: nat, limit: nat, enabled: bool)
    requires Separate(m, top, limit) && a < limit && page < limit && page % PAGE == 0 && a / PAGE * PAGE != page
      && PageSet(m, m1, top, page, enabled)
    ensures Leaf(m1, top, a) == Leaf(m, top, a)
    ensures enabled && Accessible(m, top, a) ==> Accessible(m1, top, a)
  {
    hide Entry, Frame, User;
    forall level | 1 <= level <= 4
      ensures Entry(m1, top, level, a) == Entry(m, top, level, a) && Entry(m, top, level, a) in m
      ensures enabled && User(m[Entry(m, top, level, a)]) ==> User(m1[Entry(m, top, level, a)])
    {
      SameWalk(m, m1, top, level, a);
    }
    var x := Entry(m, top, 1, a);
    forall level | 1 <= level <= 4 ensures x != Entry(m, top, level, page) {
      NotOn(m, top, a, page, limit, level);
    }
  }

  /** The entry of a page is on the walk of no other page. */
  lemma NotOn(m: Memory, top: nat, a: nat, page: nat, limit: nat, level: nat)
    requires Separate(m, top, limit) && a < limit && page < limit && page % PAGE == 0 && a / PAGE * PAGE != page
      && 1 <= level <= 4
    ensures Entry(m, top, 1, a) != Entry(m, top, level, page)
  {
    hide Entry;
    assert page / PAGE * PAGE == page;
  }

  /** The last page may go past the end of the range. */
  lemma LastPage(m0: Memory, m: Memory, top: nat, begin: nat, end: nat, page: nat, limit: nat, enabled: bool)
    requires PagesSet(m0, m, top, begin, page, limit, enabled) && page % PAGE == 0 && begin % PAGE == 0
      && begin <= page && page >= end
    requires page > begin ==> page - PAGE < end
    ensures PagesSet(m0, m, top, begin, end, limit, enabled)
  {
    hide Leaf, Accessible, SameFrames;
    forall a | 0 <= a < limit ensures PageIn(a, begin, end) == PageIn(a, begin, page) {
      var q := a / PAGE;
      assert page == page / PAGE * PAGE;
    }
  }

  // ----- isolation -----

  /** Exactly the pages that start in the range are accessible, and no other page has its own bit set. */
  ghost predicate Isolated(m: Memory, top: nat, limit: nat, begin: nat, end: nat) {
    forall a :: 0 <= a < limit ==>
      Leaf(m, top, a) == PageIn(a, begin, end) && (PageIn(a, begin, end) ==> Accessible(m, top, a))
  }

  lemma IsolatedMeans(m: Memory, top: nat, limit: nat, begin: nat, end: nat, a: nat)
    requires Isolated(m, top, limit, begin, end) && a < limit
    ensures Accessible(m, top, a) <==> PageIn(a, begin, end)
  {
  }

  /** Disabling the pages of an enclosing range and enabling those of a range in it. */
  lemma Switched(m: Memory, m1: Memory, m2: Memory, top: nat, limit: nat, b0: nat, e0: nat, b1: nat, e1: nat, b2: nat,
                 e2: nat)
    requires Isolated(m, top, limit, b0, e0) && PagesSet(m, m1, top, b1, e1, limit, false)
      && PagesSet(m1, m2, top, b2, e2, limit, true)
    requires b1 <= b0 && e0 <= e1
    ensures Isolated(m2, top, limit, b2, e2)
  {
    hide Leaf, Accessible, SameFrames;
  }

  /** Enabling a range around the current one, when there is none around it. */
  lemma Widened(m: Memory, m1: Memory, top: nat, limit: nat, b0: nat, e0: nat, b1: nat, e1: nat)
    requires Isolated(m, top, limit, b0, e0) && PagesSet(m, m1, top, b1, e1, limit, true)
    requires e0 <= b0 || (b1 <= b0 && e0 <= e1)
    ensures Isolated(m1, top, limit, b1, e1)
  {
    hide Leaf, Accessible, SameFrames;
  }
}
