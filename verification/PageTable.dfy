/** Sv39 page tables as kernel/vm.c builds them: three levels of 512 entries, walked from a
    root page.  Memory is a sequence of 512-word pages; page numbers index it.

    A `Space` says which pages form one tree and where each hangs; it is the inverse of
    the pointers in the entries, so that a page can hang in one place only.
 */
module PageTable {

  const ENTRIES := 512
  const MAXVPN: nat := 0x400_0000       // MAXVA / PGSIZE
  const TOP := 256                      // root entries below MAXVA
  const TRAMPOLINE: nat := 0x3FF_FFFF   // page numbers of the two fixed pages
  const TRAPFRAME: nat := 0x3FF_FFFE

  const PTE_V := 1
  const PTE_R := 2
  const PTE_W := 4
  const PTE_X := 8
  const PTE_U := 16

  type Page = seq<nat>
  type Memory = seq<Page>

  // ---------------------------------------------------------------- entries

  /** PA2PTE(pa) | flags, for the page number of pa. */
  function MkPte(ppn: nat, flags: nat): nat {
    ppn * 1024 + flags
  }

  function Ppn(pte: nat): nat {
    pte / 1024
  }

  function Flags(pte: nat): nat {
    pte % 1024
  }

  predicate IsValid(pte: nat) {
    pte % 2 == 1
  }

  /** Some of R, W, X is set: the entry maps a page rather than a table. */
  predicate IsLeaf(pte: nat) {
    IsValid(pte) && pte / 2 % 8 != 0
  }

  predicate IsUser(pte: nat) {
    pte / PTE_U % 2 == 1
  }

  lemma PteRoundTrip(ppn: nat, flags: nat)
    requires flags < 1024
    ensures Ppn(MkPte(ppn, flags)) == ppn && Flags(MkPte(ppn, flags)) == flags
    ensures IsValid(MkPte(ppn, flags)) == IsValid(flags) && IsLeaf(MkPte(ppn, flags)) == IsLeaf(flags)
  {
    assert (ppn * 1024 + flags) / 2 == ppn * 512 + flags / 2;
  }

  // ---------------------------------------------------------------- trees

  datatype Path = Root | Mid(i: nat) | Low(i: nat, j: nat)

  datatype Space = Space(root: nat, paths: map<nat, Path>)

  ghost predicate Pages(mem: Memory) {
    forall p :: 0 <= p < |mem| ==> |mem[p]| == ENTRIES
  }

  /** An entry that is empty or points to a table hanging at path t. */
  ghost predicate TableEntry(sp: Space, pte: nat, t: Path) {
    pte == 0 || (pte == MkPte(Ppn(pte), PTE_V) && Ppn(pte) in sp.paths && sp.paths[Ppn(pte)] == t)
  }

  ghost predicate PageOk(mem: Memory, sp: Space, p: nat)
    requires Pages(mem) && p in sp.paths && p < |mem| && sp.root < |mem|
  {
    match sp.paths[p]
    case Root =>
      p == sp.root
      && forall i :: 0 <= i < ENTRIES ==> TableEntry(sp, mem[p][i], Mid(i)) && (i >= TOP ==> mem[p][i] == 0)
    case Mid(i) =>
      i < ENTRIES && mem[sp.root][i] == MkPte(p, PTE_V)
      && forall j :: 0 <= j < ENTRIES ==> TableEntry(sp, mem[p][j], Low(i, j))
    case Low(i, j) =>
      && i < ENTRIES && j < ENTRIES && mem[sp.root][i] != 0
      && (Ppn(mem[sp.root][i]) < |mem| ==> mem[Ppn(mem[sp.root][i])][j] == MkPte(p, PTE_V))
      && forall k :: 0 <= k < ENTRIES ==> mem[p][k] == 0 || IsLeaf(mem[p][k])
  }

  /** sp is a well-formed tree in mem. */
  ghost predicate Tree(mem: Memory, sp: Space) {
    && Pages(mem)
    && sp.root in sp.paths && sp.paths[sp.root] == Root
    && (forall p :: p in sp.paths ==> p < |mem|)
    && forall p {:trigger PageOk(mem, sp, p)} :: p in sp.paths ==> PageOk(mem, sp, p)
  }

  function PX2(vpn: nat): nat {
    vpn / 0x4_0000
  }

  function PX1(vpn: nat): nat {
    vpn / 512 % 512
  }

  function PX0(vpn: nat): nat {
    vpn % 512
  }

  /** Distinct pages below MAXVA never share all three indices. */
  lemma SlotsDiffer(u: nat, w: nat)
    requires u < MAXVPN && w < MAXVPN && PX2(u) == PX2(w) && PX1(u) == PX1(w) && PX0(u) == PX0(w)
    ensures u == w
  {
    assert u / 512 / 512 == PX2(u) && w / 512 / 512 == PX2(w);
    assert u == (u / 512 / 512 * 512 + u / 512 % 512) * 512 + u % 512;
    assert w == (w / 512 / 512 * 512 + w / 512 % 512) * 512 + w % 512;
  }

  /** The page a valid entry points to, as walk follows it. */
  function Follow(mem: Memory, p: nat, i: nat): (q: nat)
    requires p < |mem| && i < |mem[p]|
  {
    Ppn(mem[p][i])
  }

  /** What walk finds for vpn: the leaf entry, or 0 where the tree stops earlier. */
  ghost function Lookup(mem: Memory, sp: Space, vpn: nat): (pte: nat)
    requires Tree(mem, sp) && vpn < MAXVPN
  {
    if mem[sp.root][PX2(vpn)] == 0 then 0
    else
      var m := Follow(mem, sp.root, PX2(vpn));
      assert PageOk(mem, sp, sp.root) && m in sp.paths && PageOk(mem, sp, m);
      if mem[m][PX1(vpn)] == 0 then 0
      else
        var l := Follow(mem, m, PX1(vpn));
        mem[l][PX0(vpn)]
  }

  // ---------------------------------------------------------------- changing a tree

  ghost predicate SameLookups(mem: Memory, sp: Space, mem': Memory, sp': Space)
    requires Tree(mem, sp) && Tree(mem', sp')
  {
    forall u :: 0 <= u < MAXVPN ==> Lookup(mem', sp', u) == Lookup(mem, sp, u)
  }

  /** A tree depends on its own pages only. */
  lemma TreeFrame(mem: Memory, mem': Memory, sp: Space)
    requires Tree(mem, sp) && Pages(mem') && |mem'| == |mem|
    requires forall p :: p in sp.paths ==> mem'[p] == mem[p]
    ensures Tree(mem', sp) && SameLookups(mem, sp, mem', sp)
  {
    forall p | p in sp.paths
      ensures PageOk(mem', sp, p)
    {
      assert PageOk(mem, sp, p) && PageOk(mem, sp, sp.root);
    }
    forall u | 0 <= u < MAXVPN
      ensures Lookup(mem', sp, u) == Lookup(mem, sp, u)
    {
      LookupFrame(mem, mem', sp, u);
    }
  }

  lemma LookupFrame(mem: Memory, mem': Memory, sp: Space, u: nat)
    requires Tree(mem, sp) && Tree(mem', sp) && |mem'| == |mem| && u < MAXVPN
    requires forall p :: p in sp.paths ==> mem'[p] == mem[p]
    ensures Lookup(mem', sp, u) == Lookup(mem, sp, u)
  {
    assert PageOk(mem, sp, sp.root);
    if mem[sp.root][PX2(u)] != 0 {
      var m := Follow(mem, sp.root, PX2(u));
      assert PageOk(mem, sp, m);
    }
  }

  function SetEntry(mem: Memory, p: nat, i: nat, pte: nat): Memory
    requires p < |mem| && i < |mem[p]|
  {
    var page: Page := mem[p];
    mem[p := page[i := pte]]
  }

  function Attached(sp: Space, q: nat, t: Path): Space {
    sp.(paths := sp.paths[q := t])
  }

  /** A zeroed page becomes a table hanging off the root. */
  lemma AttachMid(mem: Memory, sp: Space, i: nat, q: nat)
    requires Tree(mem, sp) && i < TOP && q < |mem| && q !in sp.paths && mem[sp.root][i] == 0
    requires forall k :: 0 <= k < ENTRIES ==> mem[q][k] == 0
    ensures Tree(SetEntry(mem, sp.root, i, MkPte(q, PTE_V)), Attached(sp, q, Mid(i)))
  {
    var mem', sp' := SetEntry(mem, sp.root, i, MkPte(q, PTE_V)), Attached(sp, q, Mid(i));
    forall p | p in sp'.paths
      ensures PageOk(mem', sp', p)
    {
      AttachMidPage(mem, sp, i, q, p);
    }
  }

  lemma AttachMidPage(mem: Memory, sp: Space, i: nat, q: nat, p: nat)
    requires Tree(mem, sp) && i < TOP && q < |mem| && q !in sp.paths && mem[sp.root][i] == 0
    requires (p in sp.paths || p == q) && forall k :: 0 <= k < ENTRIES ==> mem[q][k] == 0
    ensures PageOk(SetEntry(mem, sp.root, i, MkPte(q, PTE_V)), Attached(sp, q, Mid(i)), p)
  {
    var mem', sp' := SetEntry(mem, sp.root, i, MkPte(q, PTE_V)), Attached(sp, q, Mid(i));
    PteRoundTrip(q, PTE_V);
    assert PageOk(mem, sp, sp.root);
    if p != q {
      assert PageOk(mem, sp, p);
      match sp.paths[p]
      case Root =>
        forall k | 0 <= k < ENTRIES
          ensures TableEntry(sp', mem'[p][k], Mid(k)) && (k >= TOP ==> mem'[p][k] == 0)
        {
          assert TableEntry(sp, mem[p][k], Mid(k));
        }
      case Mid(a) =>
      case Low(a, b) =>
        assert TableEntry(sp, mem[sp.root][a], Mid(a));
    }
  }

  /** ... or off the table at Mid(i). */
  lemma AttachLow(mem: Memory, sp: Space, m: nat, i: nat, j: nat, q: nat)
    requires Tree(mem, sp) && m in sp.paths && sp.paths[m] == Mid(i) && j < ENTRIES
    requires q < |mem| && q !in sp.paths && mem[m][j] == 0
    requires forall k :: 0 <= k < ENTRIES ==> mem[q][k] == 0
    ensures Tree(SetEntry(mem, m, j, MkPte(q, PTE_V)), Attached(sp, q, Low(i, j)))
  {
    var mem', sp' := SetEntry(mem, m, j, MkPte(q, PTE_V)), Attached(sp, q, Low(i, j));
    forall p | p in sp'.paths
      ensures PageOk(mem', sp', p)
    {
      AttachLowPage(mem, sp, m, i, j, q, p);
    }
  }

  lemma AttachLowPage(mem: Memory, sp: Space, m: nat, i: nat, j: nat, q: nat, p: nat)
    requires Tree(mem, sp) && m in sp.paths && sp.paths[m] == Mid(i) && j < ENTRIES
    requires q < |mem| && q !in sp.paths && mem[m][j] == 0 && (p in sp.paths || p == q)
    requires forall k :: 0 <= k < ENTRIES ==> mem[q][k] == 0
    ensures PageOk(SetEntry(mem, m, j, MkPte(q, PTE_V)), Attached(sp, q, Low(i, j)), p)
  {
    var mem', sp' := SetEntry(mem, m, j, MkPte(q, PTE_V)), Attached(sp, q, Low(i, j));
    PteRoundTrip(q, PTE_V);
    PteRoundTrip(m, PTE_V);
    assert PageOk(mem, sp, m) && PageOk(mem, sp, sp.root);
    if p != q {
      assert PageOk(mem, sp, p);
      match sp.paths[p]
      case Root =>
      case Mid(a) =>
        forall b | 0 <= b < ENTRIES
          ensures TableEntry(sp', mem'[p][b], Low(a, b))
        {
          assert TableEntry(sp, mem[p][b], Low(a, b));
        }
      case Low(a, b) =>
        var m' := Ppn(mem[sp.root][a]);
        assert TableEntry(sp, mem[sp.root][a], Mid(a));
        if m' == m && b == j {
          assert false;
        }
    }
  }

  function Child(t: Path, i: nat): Path
    requires !t.Low?
  {
    if t.Root? then Mid(i) else Low(t.i, i)
  }

  /** Hanging a zeroed page into an empty entry of a table. */
  lemma Attach(mem: Memory, sp: Space, p: nat, i: nat, q: nat)
    requires Tree(mem, sp) && p in sp.paths && !sp.paths[p].Low? && i < ENTRIES && mem[p][i] == 0
             && (sp.paths[p].Root? ==> i < TOP)
    requires q < |mem| && q !in sp.paths && forall k :: 0 <= k < ENTRIES ==> mem[q][k] == 0
    ensures var mem', sp' := SetEntry(mem, p, i, MkPte(q, PTE_V)), Attached(sp, q, Child(sp.paths[p], i));
            Tree(mem', sp') && SameLookups(mem, sp, mem', sp')
  {
    var mem', sp' := SetEntry(mem, p, i, MkPte(q, PTE_V)), Attached(sp, q, Child(sp.paths[p], i));
    assert PageOk(mem, sp, p);
    if sp.paths[p].Root? {
      AttachMid(mem, sp, i, q);
    } else {
      AttachLow(mem, sp, p, sp.paths[p].i, i, q);
    }
    forall u | 0 <= u < MAXVPN
      ensures Lookup(mem', sp', u) == Lookup(mem, sp, u)
    {
      AttachLookup(mem, sp, mem', q, Child(sp.paths[p], i), u);
    }
  }

  /** Attaching an empty table maps nothing new and loses nothing. */
  lemma AttachLookup(mem: Memory, sp: Space, mem': Memory, q: nat, t: Path, u: nat)
    requires Tree(mem, sp) && u < MAXVPN && q !in sp.paths && |mem'| == |mem|
    requires q < |mem| && Tree(mem', Attached(sp, q, t)) && forall k :: 0 <= k < ENTRIES ==> mem'[q][k] == 0
    requires forall p :: p in sp.paths ==> forall k :: 0 <= k < ENTRIES ==>
               mem'[p][k] == mem[p][k] || (mem[p][k] == 0 && mem'[p][k] == MkPte(q, PTE_V) && !sp.paths[p].Low?)
    ensures Lookup(mem', Attached(sp, q, t), u) == Lookup(mem, sp, u)
  {
    var sp' := Attached(sp, q, t);
    PteRoundTrip(q, PTE_V);
    assert PageOk(mem, sp, sp.root) && PageOk(mem', sp', sp.root);
    if mem[sp.root][PX2(u)] != 0 {
      var m := Follow(mem, sp.root, PX2(u));
      assert PageOk(mem, sp, m) && PageOk(mem', sp', m);
    }
  }

  /** Storing a leaf changes exactly the page it is the slot of. */
  lemma SetLeaf(mem: Memory, sp: Space, l: nat, vpn: nat, pte: nat)
    requires Tree(mem, sp) && vpn < MAXVPN && l in sp.paths && sp.paths[l] == Low(PX2(vpn), PX1(vpn))
    requires pte == 0 || IsLeaf(pte)
    ensures Tree(SetEntry(mem, l, PX0(vpn), pte), sp)
    ensures forall u :: 0 <= u < MAXVPN ==>
              Lookup(SetEntry(mem, l, PX0(vpn), pte), sp, u) == if u == vpn then pte else Lookup(mem, sp, u)
  {
    var mem' := SetEntry(mem, l, PX0(vpn), pte);
    forall p | p in sp.paths
      ensures PageOk(mem', sp, p)
    {
      LeafPage(mem, sp, l, PX0(vpn), pte, p);
    }
    forall u | 0 <= u < MAXVPN
      ensures Lookup(mem', sp, u) == if u == vpn then pte else Lookup(mem, sp, u)
    {
      LeafAt(mem, sp, l, vpn, pte, u);
    }
  }

  lemma LeafPage(mem: Memory, sp: Space, l: nat, k: nat, pte: nat, p: nat)
    requires Tree(mem, sp) && l in sp.paths && sp.paths[l].Low? && k < ENTRIES && p in sp.paths
             && (pte == 0 || IsLeaf(pte))
    ensures PageOk(SetEntry(mem, l, k, pte), sp, p)
  {
    assert PageOk(mem, sp, sp.root) && PageOk(mem, sp, l) && PageOk(mem, sp, p);
    if sp.paths[p].Low? {
      assert TableEntry(sp, mem[sp.root][sp.paths[p].i], Mid(sp.paths[p].i));
    }
  }

  lemma LeafAt(mem: Memory, sp: Space, l: nat, vpn: nat, pte: nat, u: nat)
    requires Tree(mem, sp) && vpn < MAXVPN && u < MAXVPN && l in sp.paths && sp.paths[l] == Low(PX2(vpn), PX1(vpn))
    requires Tree(SetEntry(mem, l, PX0(vpn), pte), sp)
    ensures Lookup(SetEntry(mem, l, PX0(vpn), pte), sp, u) == if u == vpn then pte else Lookup(mem, sp, u)
  {
    assert PageOk(mem, sp, sp.root) && PageOk(mem, sp, l);
    PteRoundTrip(l, PTE_V);
    if mem[sp.root][PX2(u)] != 0 {
      var m := Follow(mem, sp.root, PX2(u));
      assert PageOk(mem, sp, m);
      if mem[m][PX1(u)] != 0 {
        var l' := Follow(mem, m, PX1(u));
        assert sp.paths[l'] == Low(PX2(u), PX1(u)) && PageOk(mem, sp, l');
        if l' == l && PX0(u) == PX0(vpn) {
          SlotsDiffer(u, vpn);
        }
      }
    }
  }

  // ---------------------------------------------------------------- tearing a tree down

  function Level(t: Path): nat {
    match t
    case Root => 2
    case Mid(_) => 1
    case Low(_, _) => 0
  }

  /** s hangs strictly below t. */
  predicate Under(s: Path, t: Path) {
    (t.Root? && !s.Root?) || (t.Mid? && s.Low? && s.i == t.i)
  }

  /** The entry of the table at t that leads to s. */
  function Branch(s: Path, t: Path): nat
    requires Under(s, t)
  {
    if t.Root? then s.i else s.j
  }

  /** Pages below t through entries before k. */
  ghost function Below(sp: Space, t: Path, k: nat): set<nat> {
    set q | q in sp.paths && Under(sp.paths[q], t) && Branch(sp.paths[q], t) < k
  }

  /** The page at p and everything below it. */
  ghost function Subtree(sp: Space, p: nat): set<nat>
    requires p in sp.paths
  {
    {p} + Below(sp, sp.paths[p], ENTRIES)
  }

  /** A table with no leaf anywhere below, every page of sp below it being reachable. */
  ghost predicate Bare(mem: Memory, sp: Space, p: nat, level: nat)
    decreases level
  {
    && p in sp.paths && p < |mem| && |mem[p]| == ENTRIES && Level(sp.paths[p]) == level
    && forall k :: 0 <= k < ENTRIES ==> BareEntry(mem, sp, p, level, k)
  }

  ghost predicate BareEntry(mem: Memory, sp: Space, p: nat, level: nat, k: nat)
    requires p in sp.paths && p < |mem| && k < |mem[p]| && Level(sp.paths[p]) == level
    decreases level, 0
  {
    if mem[p][k] == 0 then
      forall q :: q in sp.paths && Under(sp.paths[q], sp.paths[p]) ==> Branch(sp.paths[q], sp.paths[p]) != k
    else
      && level > 0 && mem[p][k] == MkPte(Ppn(mem[p][k]), PTE_V)
      && Bare(mem, sp, Ppn(mem[p][k]), level - 1) && sp.paths[Ppn(mem[p][k])] == Child(sp.paths[p], k)
  }

  ghost predicate UniquePaths(sp: Space) {
    && (forall p, q :: p in sp.paths && q in sp.paths && sp.paths[p] == sp.paths[q] ==> p == q)
    && (forall p :: p in sp.paths ==> (sp.paths[p].Low? ==> sp.paths[p].j < ENTRIES)
                                      && (!sp.paths[p].Root? ==> sp.paths[p].i < ENTRIES))
  }

  lemma TreeUnique(mem: Memory, sp: Space)
    requires Tree(mem, sp)
    ensures UniquePaths(sp)
  {
    forall p | p in sp.paths
      ensures (sp.paths[p].Low? ==> sp.paths[p].j < ENTRIES) && (!sp.paths[p].Root? ==> sp.paths[p].i < ENTRIES)
    {
      assert PageOk(mem, sp, p);
    }
    forall p, q | p in sp.paths && q in sp.paths && sp.paths[p] == sp.paths[q]
      ensures p == q
    {
      assert PageOk(mem, sp, p) && PageOk(mem, sp, q) && PageOk(mem, sp, sp.root);
      PteRoundTrip(p, PTE_V);
      PteRoundTrip(q, PTE_V);
      if sp.paths[p].Low? {
        assert TableEntry(sp, mem[sp.root][sp.paths[p].i], Mid(sp.paths[p].i));
      }
    }
  }

  /** The page that the three indices stand for. */
  lemma PageOfSlots(i: nat, j: nat, k: nat)
    requires i < TOP && j < ENTRIES && k < ENTRIES
    ensures var u := (i * 512 + j) * 512 + k; u < MAXVPN && PX2(u) == i && PX1(u) == j && PX0(u) == k
  {
    var u := (i * 512 + j) * 512 + k;
    assert u / 512 == i * 512 + j && u / 0x4_0000 == u / 512 / 512;
  }

  lemma LookupAtLow(mem: Memory, sp: Space, l: nat, vpn: nat)
    requires Tree(mem, sp) && vpn < MAXVPN && l in sp.paths && sp.paths[l] == Low(PX2(vpn), PX1(vpn))
    ensures Lookup(mem, sp, vpn) == mem[l][PX0(vpn)]
  {
    assert PageOk(mem, sp, l) && PageOk(mem, sp, sp.root);
    PteRoundTrip(l, PTE_V);
    assert TableEntry(sp, mem[sp.root][PX2(vpn)], Mid(PX2(vpn)));
  }

  lemma LowEmpty(mem: Memory, sp: Space, l: nat, k: nat)
    requires Tree(mem, sp) && l in sp.paths && sp.paths[l].Low? && k < ENTRIES
    requires forall u :: 0 <= u < MAXVPN ==> Lookup(mem, sp, u) == 0
    ensures mem[l][k] == 0
  {
    var i, j := sp.paths[l].i, sp.paths[l].j;
    assert PageOk(mem, sp, l) && PageOk(mem, sp, sp.root);
    PageOfSlots(i, j, k);
    LookupAtLow(mem, sp, l, (i * 512 + j) * 512 + k);
  }

  /** A tree that maps nothing is bare. */
  lemma EmptyIsBare(mem: Memory, sp: Space, p: nat, level: nat)
    requires Tree(mem, sp) && p in sp.paths && Level(sp.paths[p]) == level
    requires forall u :: 0 <= u < MAXVPN ==> Lookup(mem, sp, u) == 0
    ensures Bare(mem, sp, p, level)
    decreases level
  {
    assert PageOk(mem, sp, p) && PageOk(mem, sp, sp.root);
    forall k | 0 <= k < ENTRIES
      ensures BareEntry(mem, sp, p, level, k)
    {
      if level == 0 {
        LowEmpty(mem, sp, p, k);
      } else if mem[p][k] == 0 {
        forall q | q in sp.paths && Under(sp.paths[q], sp.paths[p])
          ensures Branch(sp.paths[q], sp.paths[p]) != k
        {
          assert PageOk(mem, sp, q);
          if sp.paths[p].Mid? {
            PteRoundTrip(p, PTE_V);
          }
        }
      } else {
        assert TableEntry(sp, mem[p][k], Child(sp.paths[p], k));
        EmptyIsBare(mem, sp, Ppn(mem[p][k]), level - 1);
      }
    }
  }

  /** Bareness depends on the subtree only. */
  lemma BareFrame(mem: Memory, mem': Memory, sp: Space, p: nat, level: nat)
    requires Bare(mem, sp, p, level) && |mem'| == |mem|
    requires forall q :: q in Subtree(sp, p) && q < |mem| ==> mem'[q] == mem[q]
    ensures Bare(mem', sp, p, level)
    decreases level
  {
    forall k | 0 <= k < ENTRIES
      ensures BareEntry(mem', sp, p, level, k)
    {
      assert BareEntry(mem, sp, p, level, k);
      if mem[p][k] != 0 {
        var q := Ppn(mem[p][k]);
        SubtreeStep(sp, p, q, k);
        BareFrame(mem, mem', sp, q, level - 1);
      }
    }
  }

  /** The subtree through entry k. */
  lemma SubtreeStep(sp: Space, p: nat, q: nat, k: nat)
    requires p in sp.paths && q in sp.paths && !sp.paths[p].Low? && sp.paths[q] == Child(sp.paths[p], k) && k < ENTRIES
    ensures Subtree(sp, q) <= Below(sp, sp.paths[p], ENTRIES)
    ensures UniquePaths(sp) ==> Below(sp, sp.paths[p], k + 1) == Below(sp, sp.paths[p], k) + Subtree(sp, q)
    ensures Below(sp, sp.paths[p], k) !! Subtree(sp, q) && p !in Subtree(sp, q)
  {
    if UniquePaths(sp) {
      forall x | x in sp.paths && Under(sp.paths[x], sp.paths[p]) && Branch(sp.paths[x], sp.paths[p]) == k
        ensures x in Subtree(sp, q)
      {
        if !Under(sp.paths[x], sp.paths[q]) {
          assert sp.paths[x] == sp.paths[q];
        }
      }
    }
  }
}
